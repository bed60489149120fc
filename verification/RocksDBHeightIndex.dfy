/**
 The height index on a key-value store sorted by key bytes: the key is the height and the value
 is the hash and the timestamp, both big-endian. The store represents the sequence of entries.
 */
module RocksDBHeightIndex {
  import opened HeightIndex
  import opened Wrappers

  type Byte = b: nat | b < 256

  type Bytes = seq<Byte>

  const HEIGHTS: nat := 0x1_0000_0000

  datatype IndexEntry = IndexEntry(hash: Bytes, timestamp: nat)

  predicate ValidEntry(e: IndexEntry) {
    |e.hash| == 32 && e.timestamp < HEIGHTS
  }

  // ----- big-endian numbers -----

  function Pow256(n: nat): nat {
    if n == 0 then 1 else 256 * Pow256(n - 1)
  }

  function Pack(x: nat, n: nat): (r: Bytes)
    ensures |r| == n
  {
    if n == 0 then [] else Pack(x / 256, n - 1) + [x % 256]
  }

  function Unpack(bytes: Bytes): nat {
    if bytes == [] then 0 else Unpack(bytes[..|bytes| - 1]) * 256 + bytes[|bytes| - 1]
  }

  lemma {:induction false} UnpackPack(x: nat, n: nat)
    requires x < Pow256(n)
    ensures Unpack(Pack(x, n)) == x
  {
    if n > 0 {
      UnpackPack(x / 256, n - 1);
      assert Pack(x, n)[..n - 1] == Pack(x / 256, n - 1);
    }
  }

  lemma {:induction false} PackUnpack(bytes: Bytes)
    ensures Pack(Unpack(bytes), |bytes|) == bytes
    ensures Unpack(bytes) < Pow256(|bytes|)
  {
    if bytes != [] {
      PackUnpack(bytes[..|bytes| - 1]);
      assert bytes == bytes[..|bytes| - 1] + [bytes[|bytes| - 1]];
    }
  }

  /** The order of the store: bytewise, the first difference decides. */
  predicate Less(a: Bytes, b: Bytes) {
    b != [] && (a == [] || a[0] < b[0] || (a[0] == b[0] && Less(a[1..], b[1..])))
  }

  lemma {:induction false} LessLast(a: Bytes, x: Byte, b: Bytes, y: Byte)
    requires |a| == |b|
    ensures Less(a + [x], b + [y]) <==> Less(a, b) || (a == b && x < y)
  {
    if a == [] {
      assert a + [x] == [x] && b + [y] == [y];
    } else {
      assert (a + [x])[1..] == a[1..] + [x] && (b + [y])[1..] == b[1..] + [y];
      LessLast(a[1..], x, b[1..], y);
      assert a == [a[0]] + a[1..] && b == [b[0]] + b[1..];
    }
  }

  /** Big-endian keys of one width are ordered as their numbers are. */
  lemma {:induction false} PackOrder(x: nat, y: nat, n: nat)
    requires x < Pow256(n) && y < Pow256(n)
    ensures Less(Pack(x, n), Pack(y, n)) <==> x < y
  {
    if n > 0 {
      PackOrder(x / 256, y / 256, n - 1);
      LessLast(Pack(x / 256, n - 1), x % 256, Pack(y / 256, n - 1), y % 256);
      if Pack(x / 256, n - 1) == Pack(y / 256, n - 1) {
        UnpackPack(x / 256, n - 1);
        UnpackPack(y / 256, n - 1);
      }
    }
  }

  // ----- keys and values -----

  function ToKey(height: nat): (key: Bytes)
    ensures |key| == 4
  {
    Pack(height, 4)
  }

  function FromKey(key: Bytes): nat {
    Unpack(key)
  }

  function ToValue(e: IndexEntry): (value: Bytes)
    requires ValidEntry(e)
    ensures |value| == 36
  {
    e.hash + Pack(e.timestamp, 4)
  }

  function FromValue(value: Bytes): IndexEntry
    requires |value| == 36
  {
    IndexEntry(value[..32], Unpack(value[32..]))
  }

  lemma Widths()
    ensures Pow256(4) == HEIGHTS
  {
    assert Pow256(1) == 256 && Pow256(2) == 65536 && Pow256(3) == 16777216;
  }

  lemma {:induction false} KeyRoundTrip(height: nat)
    requires height < HEIGHTS
    ensures FromKey(ToKey(height)) == height
  {
    Widths();
    UnpackPack(height, 4);
  }

  lemma {:induction false} ValueRoundTrip(e: IndexEntry)
    requires ValidEntry(e)
    ensures FromValue(ToValue(e)) == e
  {
    Widths();
    UnpackPack(e.timestamp, 4);
    assert ToValue(e)[..32] == e.hash && ToValue(e)[32..] == Pack(e.timestamp, 4);
  }

  lemma {:induction false} KeyOrder(a: nat, b: nat)
    requires a < HEIGHTS && b < HEIGHTS
    ensures Less(ToKey(a), ToKey(b)) <==> a < b
    ensures ToKey(a) == ToKey(b) <==> a == b
  {
    Widths();
    PackOrder(a, b, 4);
    KeyRoundTrip(a);
    KeyRoundTrip(b);
  }

  /** The store holds exactly the entries of the sequence, each under its height. */
  ghost predicate Represents(db: map<Bytes, Bytes>, entries: seq<IndexEntry>) {
    && 0 < |entries| <= HEIGHTS
    && (forall h :: 0 <= h < |entries| ==>
          ValidEntry(entries[h]) && ToKey(h) in db && db[ToKey(h)] == ToValue(entries[h]))
    && (forall k :: k in db ==> exists h :: 0 <= h < |entries| && k == ToKey(h))
  }

  ghost function Hashes(entries: seq<IndexEntry>): seq<Bytes> {
    seq(|entries|, i requires 0 <= i < |entries| => entries[i].hash)
  }

  predicate IsLastKey(db: map<Bytes, Bytes>, k: Bytes) {
    k in db && forall j :: j in db ==> !Less(k, j)
  }

  /** The last key in byte order is the greatest height. */
  lemma {:induction false} LastKeyIsTip(db: map<Bytes, Bytes>, entries: seq<IndexEntry>, k: Bytes)
    requires Represents(db, entries)
    ensures IsLastKey(db, k) <==> k == ToKey(|entries| - 1)
  {
    var n := |entries| - 1;
    assert ToKey(n) in db;
    forall j | j in db
      ensures !Less(ToKey(n), j)
      ensures j != ToKey(n) ==> Less(j, ToKey(n))
    {
      var h :| 0 <= h < |entries| && j == ToKey(h);
      KeyOrder(n, h);
      KeyOrder(h, n);
    }
  }

  lemma {:induction false} PutNext(db: map<Bytes, Bytes>, entries: seq<IndexEntry>, e: IndexEntry)
    requires Represents(db, entries) && |entries| < HEIGHTS && ValidEntry(e)
    ensures Represents(db[ToKey(|entries|) := ToValue(e)], entries + [e])
  {
    var db' := db[ToKey(|entries|) := ToValue(e)];
    forall h | 0 <= h < |entries|
      ensures db'[ToKey(h)] == ToValue((entries + [e])[h])
    {
      KeyOrder(h, |entries|);
    }
    forall k | k in db'
      ensures exists h :: 0 <= h < |entries + [e]| && k == ToKey(h)
    {
      if k in db {
        var h :| 0 <= h < |entries| && k == ToKey(h);
        assert 0 <= h < |entries + [e]|;
      } else {
        assert 0 <= |entries| < |entries + [e]|;
      }
    }
  }

  /** Cutting all keys from `height` up and putting one entry there. */
  lemma {:induction false} CutAndPut(db: map<Bytes, Bytes>, entries: seq<IndexEntry>, height: nat, e: IndexEntry)
    requires Represents(db, entries) && height < |entries| && ValidEntry(e)
    ensures Represents((map k | k in db && Less(k, ToKey(height)) :: db[k])[ToKey(height) := ToValue(e)],
                       entries[..height] + [e])
  {
    var cut := map k | k in db && Less(k, ToKey(height)) :: db[k];
    var db' := cut[ToKey(height) := ToValue(e)];
    var entries' := entries[..height] + [e];
    forall h | 0 <= h < |entries'|
      ensures ValidEntry(entries'[h]) && ToKey(h) in db' && db'[ToKey(h)] == ToValue(entries'[h])
    {
      KeyOrder(h, height);
    }
    forall k | k in db'
      ensures exists h :: 0 <= h < |entries'| && k == ToKey(h)
    {
      if k in cut {
        var h :| 0 <= h < |entries| && k == ToKey(h);
        KeyOrder(h, height);
        assert 0 <= h < |entries'|;
      } else {
        assert 0 <= height < |entries'|;
      }
    }
  }

  lemma {:induction false} HashesOf(db: map<Bytes, Bytes>, entries: seq<IndexEntry>, e: IndexEntry, h: nat)
    requires Represents(db, entries) && h <= |entries|
    ensures 0 < |entries| <= HEIGHTS && |Hashes(entries)| == |entries|
    ensures h < |entries| ==> Hashes(entries)[h] == entries[h].hash
    ensures Hashes(entries[..h] + [e]) == Hashes(entries)[..h] + [e.hash]
    ensures entries[..|entries|] == entries && Hashes(entries)[..|entries|] == Hashes(entries)
  {
  }

  datatype Outcome = Done | ValueError | StructError

  class Index {
    var db: map<Bytes, Bytes>
    ghost var entries: seq<IndexEntry>

    ghost predicate Valid()
      reads this
    {
      Represents(db, entries)
    }

    constructor (genesis: IndexEntry)
      requires ValidEntry(genesis)
      ensures Valid() && entries == [genesis]
    {
      db := map[ToKey(0) := ToValue(genesis)];
      entries := [genesis];
    }

    /** The greatest height and the hash there, read at the last key. */
    method GetHeightTip() returns (height: nat, hash: Bytes)
      requires Valid()
      ensures height == |entries| - 1 && hash == entries[height].hash
    {
      LastKeyIsTip(db, entries, ToKey(|entries| - 1));
      var key :| key in db && IsLastKey(db, key);
      LastKeyIsTip(db, entries, key);
      KeyRoundTrip(|entries| - 1);
      ValueRoundTrip(entries[|entries| - 1]);
      height := FromKey(key);
      hash := FromValue(db[key]).hash;
    }

    method Get(height: nat) returns (hash: Option<Bytes>)
      requires Valid() && height < HEIGHTS
      ensures hash == if height < |entries| then Some(entries[height].hash) else None
    {
      var key := ToKey(height);
      if key !in db {
        return None;
      }
      ghost var h :| 0 <= h < |entries| && key == ToKey(h);
      KeyOrder(h, height);
      ValueRoundTrip(entries[height]);
      hash := Some(FromValue(db[key]).hash);
    }

    /** Adds one entry. The key and the value are packed first, so a number that does not fit fails
        before anything else is decided. */
    method Add(height: nat, entry: IndexEntry, canReorg: bool) returns (r: Outcome)
      requires Valid() && |entry.hash| == 32
      modifies this
      ensures Valid()
      ensures r.StructError? <==> height >= HEIGHTS || entry.timestamp >= HEIGHTS
      ensures !r.StructError? ==>
                var spec := HeightIndex.Add(Hashes(old(entries)), height, entry.hash, canReorg);
                if spec.Stored? then r.Done? && Hashes(entries) == spec.index else r.ValueError?
      ensures !r.Done? ==> entries == old(entries) && db == old(db)
      ensures r.Done? && entries != old(entries) ==> height < |entries| && entries[height] == entry
    {
      hide Represents, ToKey, ToValue, Less, Hashes;
      if height >= HEIGHTS || entry.timestamp >= HEIGHTS {
        return StructError;
      }
      HashesOf(db, entries, entry, if height <= |entries| then height else 0);
      var curHeight, curTip := GetHeightTip();
      if height > curHeight + 1 {
        return ValueError;
      }
      if height == curHeight + 1 {
        PutNext(db, entries, entry);
        db := db[ToKey(height) := ToValue(entry)];
        entries := entries + [entry];
        return Done;
      }
      var cur := Get(height);
      if cur != Some(entry.hash) {
        if !canReorg {
          return ValueError;
        }
        CutAndPut(db, entries, height, entry);
        db := map k | k in db && Less(k, ToKey(height)) :: db[k];
        db := db[ToKey(height) := ToValue(entry)];
        entries := entries[..height] + [entry];
      }
      r := Done;
    }
  }
}
