/** The builder collects nodes from the statements of a DAG description. */
module DagBuilder {
  import opened Wrappers
  import opened DagNodes
  import opened Balances
  import T = TopologicalSort

  datatype Outcome = Done | Raised

  function NewNode(kind: NodeType): Node {
    Node(kind, {}, [], {}, {}, map[])
  }

  /** The nodes once `name` has been looked up with a wanted kind. */
  ghost function WithNode(nodes: Nodes, name: Name, kind: NodeType): Nodes {
    if name !in nodes then nodes[name := NewNode(kind)]
    else if nodes[name].kind == Unknown then nodes[name := nodes[name].(kind := kind)]
    else nodes
  }

  /** Free slots are added up to the wanted length. */
  function Padded(outputs: seq<Option<Output>>, length: nat): (r: seq<Option<Output>>)
    ensures |r| >= length && |r| >= |outputs|
  {
    if |outputs| < length then outputs + seq(length - |outputs|, _ => None) else outputs
  }

  /** A node comes to depend on its token, if that is not HTR. */
  ghost function WithToken(nodes: Nodes, name: Name, token: Name): Nodes
    requires name in nodes
  {
    if token == HTR then nodes else
      var nodes' := WithNode(nodes, token, Token);
      nodes'[name := nodes'[name].(deps := nodes'[name].deps + {token})]
  }

  lemma {:induction false} NodeCreated(nodes: Nodes, pending: Name, name: Name, kind: NodeType)
    requires AlmostTyped(nodes, pending) && name !in nodes && (name == HTR ==> kind != Token)
    ensures var nodes' := nodes[name := NewNode(kind)];
            AlmostTyped(nodes', pending) && (kind == Token && name == pending ==> Typed(nodes'))
  {
    var nodes' := nodes[name := NewNode(kind)];
    forall n | n in nodes
      ensures TypedNode(nodes', pending, nodes[n])
      ensures kind == Token && name == pending ==> TypedNode(nodes', HTR, nodes[n])
    {
      assert TypedNode(nodes, pending, nodes[n]);
    }
  }

  /** A node of unknown kind gets one, or a token gets confirmed. */
  lemma {:induction false} KindGiven(nodes: Nodes, pending: Name, name: Name, kind: NodeType)
    requires AlmostTyped(nodes, pending) && name in nodes && nodes[name].kind in {Unknown, kind} && (name == HTR ==> kind != Token)
    ensures var nodes' := nodes[name := nodes[name].(kind := kind)];
            AlmostTyped(nodes', pending) && (kind == Token && name == pending ==> Typed(nodes'))
  {
    var nodes' := nodes[name := nodes[name].(kind := kind)];
    forall n | n in nodes
      ensures TypedNode(nodes', pending, nodes'[n])
      ensures kind == Token && name == pending ==> TypedNode(nodes', HTR, nodes'[n])
    {
      assert TypedNode(nodes, pending, nodes[n]);
    }
  }

  lemma {:induction false} NodeChanged(nodes: Nodes, pending: Name, name: Name, node: Node)
    requires Typed(nodes) && name in nodes && node.kind == nodes[name].kind
    requires (node.outputs == nodes[name].outputs && node.balances == nodes[name].balances) || TypedNode(nodes, pending, node)
    ensures AlmostTyped(nodes[name := node], pending)
  {
    var nodes' := nodes[name := node];
    forall n | n in nodes'
      ensures TypedNode(nodes', pending, nodes'[n])
    {
      assert TypedNode(nodes, HTR, nodes[n]);
    }
  }

  lemma {:induction false} KindOverwritten(nodes: Nodes, name: Name)
    requires Typed(nodes) && name in nodes
    ensures Typed(nodes[name := nodes[name].(kind := OnChainBlueprint)])
  {
    var nodes' := nodes[name := nodes[name].(kind := OnChainBlueprint)];
    forall n | n in nodes
      ensures TypedNode(nodes', HTR, nodes'[n])
    {
      assert TypedNode(nodes, HTR, nodes[n]);
    }
  }

  // ----- references -----

  /** What every description leads to. */
  ghost predicate Described(nodes: Nodes) {
    Typed(nodes) && Referring(nodes)
  }

  lemma {:induction false} WithNodeReferring(nodes: Nodes, name: Name, kind: NodeType)
    requires Referring(nodes)
    ensures Referring(WithNode(nodes, name, kind))
  {
    var nodes' := WithNode(nodes, name, kind);
    forall n | n in nodes'
      ensures ReferringNode(nodes', nodes'[n])
    {
      if n in nodes {
        assert ReferringNode(nodes, nodes[n]);
      }
    }
  }

  lemma {:induction false} ChangedReferring(nodes: Nodes, name: Name, node: Node)
    requires Referring(nodes) && name in nodes && ReferringNode(nodes, node) && |nodes[name].outputs| <= |node.outputs|
    ensures Referring(nodes[name := node])
  {
    var nodes' := nodes[name := node];
    forall n | n in nodes'
      ensures ReferringNode(nodes', nodes'[n])
    {
      assert ReferringNode(nodes, nodes[n]);
    }
  }

  lemma {:induction false} ReferringAt(nodes: Nodes, n: Name)
    requires Referring(nodes) && n in nodes
    ensures ReferringNode(nodes, nodes[n])
  {
  }

  /** A node that names one more token and then comes to depend on it. */
  lemma {:induction false} TokenReferring(nodes: Nodes, name: Name, node: Node, token: Name)
    requires Referring(nodes) && name in nodes && |nodes[name].outputs| <= |node.outputs|
    requires ReferringNode(nodes, node.(deps := node.deps + {token})) || (token == HTR && ReferringNode(nodes, node))
    requires node.kind == nodes[name].kind
    ensures Referring(WithToken(nodes[name := node], name, token))
  {
    hide ReferringNode;
    if token == HTR {
      if !ReferringNode(nodes, node) {
        HtrDependency(nodes, node);
      }
      ChangedReferring(nodes, name, node);
    } else {
      var full := node.(deps := node.deps + {token});
      ChangedReferring(nodes, name, full);
      WithNodeReferring(nodes[name := full], token, Token);
      assert WithToken(nodes[name := node], name, token) == WithNode(nodes[name := full], token, Token);
    }
  }

  lemma {:induction false} HtrDependency(nodes: Nodes, node: Node)
    requires ReferringNode(nodes, node.(deps := node.deps + {HTR}))
    ensures ReferringNode(nodes, node)
  {
  }

  // ----- descriptions -----

  /** A chain of blocks is a statement for each block, with the one before it if there is one. */
  datatype Statement =
    | ParentEdge(from: Name, to: Name)
    | SpendingEdge(from: Name, to: Name, index: nat)
    | OrderBefore(from: Name, to: Name)
    | OutputIs(name: Name, index: nat, output: Output)
    | BalanceIs(name: Name, token: Name, value: int)
    | BlueprintAttribute(name: Name)
    | ContractAttribute(name: Name, contract: Name)
    | ChainBlock(name: Name, previous: Option<Name>)

  /** What the builder starts with. */
  ghost function Initial(genesisTokens: int): Nodes {
    map[
      GENESIS_BLOCK := NewNode(Genesis).(outputs := [Some(Output(genesisTokens, HTR, []))]),
      GENESIS_1 := NewNode(Genesis),
      GENESIS_2 := NewNode(Genesis),
      DUMMY := NewNode(Transaction)]
  }

  ghost function WithParent(nodes: Nodes, from: Name, to: Name): Nodes {
    var before := WithNode(WithNode(nodes, to, Unknown), from, Unknown);
    before[from := before[from].(parents := before[from].parents + {to})]
  }

  /** The nodes after a statement that is not refused. */
  ghost function After(nodes: Nodes, s: Statement): Nodes {
    match s
    case ParentEdge(from, to) => WithParent(nodes, from, to)
    case SpendingEdge(from, to, index) =>
      var before := WithNode(nodes, to, Unknown);
      var after := WithNode(before[to := before[to].(outputs := WithSlot(before[to].outputs, index))], from, Unknown);
      after[from := after[from].(inputs := after[from].inputs + {Input(to, index)})]
    case OrderBefore(from, to) =>
      var before := WithNode(WithNode(nodes, from, Unknown), to, Unknown);
      before[from := before[from].(deps := before[from].deps + {to})]
    case OutputIs(name, index, output) =>
      var before := WithNode(nodes, name, Unknown);
      var outputs := Padded(before[name].outputs, index + 1)[index := Some(output)];
      WithToken(before[name := before[name].(outputs := outputs)], name, output.token)
    case BalanceIs(name, token, value) =>
      var before := WithNode(nodes, name, Unknown);
      WithToken(before[name := before[name].(balances := before[name].balances[token := value])], name, token)
    case BlueprintAttribute(name) =>
      var before := WithNode(nodes, name, Unknown);
      before[name := before[name].(kind := OnChainBlueprint)]
    case ContractAttribute(name, contract) =>
      var before := WithNode(nodes, name, Unknown);
      before[name := before[name].(deps := before[name].deps + {contract})]
    case ChainBlock(name, previous) =>
      var before := WithNode(nodes, name, Block);
      if previous.Some? then WithParent(before, name, previous.value) else before
  }

  ghost function AfterAll(nodes: Nodes, statements: seq<Statement>): Nodes {
    if statements == [] then nodes
    else After(AfterAll(nodes, statements[..|statements| - 1]), statements[|statements| - 1])
  }

  lemma {:induction false} AfterNext(nodes: Nodes, statements: seq<Statement>, k: nat)
    requires k < |statements|
    ensures AfterAll(nodes, statements[..k + 1]) == After(AfterAll(nodes, statements[..k]), statements[k])
  {
    assert statements[..k + 1][..k] == statements[..k];
  }

  /** No statement is refused. */
  ghost predicate Readable(nodes: Nodes, statements: seq<Statement>) {
    forall k :: 0 <= k < |statements| ==> !Refused(AfterAll(nodes, statements[..k]), statements[k])
  }

  class Builder {
    var nodes: Nodes

    /** The genesis nodes and the dummy exist before any statement is read. */
    constructor (genesisTokens: int)
      ensures Described(nodes)
      ensures nodes == Initial(genesisTokens)
    {
      nodes := map[
        GENESIS_BLOCK := NewNode(Genesis).(outputs := [Some(Output(genesisTokens, HTR, []))]),
        GENESIS_1 := NewNode(Genesis),
        GENESIS_2 := NewNode(Genesis),
        DUMMY := NewNode(Transaction)];
    }

    /** Finds or makes a node; an unknown kind becomes `kind`, another kind must agree with it. */
    method GetOrCreateNode(name: Name, kind: NodeType, ghost pending: Name) returns (r: Outcome)
      requires AlmostTyped(nodes, pending) && (name == HTR ==> kind != Token)
      modifies this
      ensures r.Raised? <==> name in old(nodes) && old(nodes)[name].kind !in {Unknown, kind} && kind != Unknown
      ensures r.Raised? ==> nodes == old(nodes)
      ensures r.Done? ==> nodes == WithNode(old(nodes), name, kind) && (kind != Unknown ==> nodes[name].kind == kind)
      ensures r.Done? ==> AlmostTyped(nodes, if kind == Token && name == pending then HTR else pending)
    {
      hide AlmostTyped, TypedNode;
      r := Done;
      if name !in nodes {
        NodeCreated(nodes, pending, name, kind);
        nodes := nodes[name := NewNode(kind)];
      } else if nodes[name].kind == Unknown {
        KindGiven(nodes, pending, name, kind);
        nodes := nodes[name := nodes[name].(kind := kind)];
      } else if kind != Unknown {
        if nodes[name].kind != kind {
          return Raised;
        }
        KindGiven(nodes, pending, name, kind);
        assert nodes == nodes[name := nodes[name].(kind := kind)];
      }
    }

    /** The same in a described state. */
    method LookUp(name: Name)
      requires Described(nodes)
      modifies this
      ensures Described(nodes) && nodes == WithNode(old(nodes), name, Unknown)
    {
      hide AlmostTyped, Referring;
      WithNodeReferring(nodes, name, Unknown);
      var _ := GetOrCreateNode(name, Unknown, HTR);
    }

    method AddDeps(from: Name, to: Name)
      requires Described(nodes)
      modifies this
      ensures Described(nodes)
      ensures var before := WithNode(WithNode(old(nodes), from, Unknown), to, Unknown);
              nodes == before[from := before[from].(deps := before[from].deps + {to})]
    {
      hide AlmostTyped, TypedNode, Referring;
      LookUp(from);
      LookUp(to);
      var node := nodes[from].(deps := nodes[from].deps + {to});
      NodeChanged(nodes, HTR, from, node);
      ReferringAt(nodes, from);
      ChangedReferring(nodes, from, node);
      nodes := nodes[from := node];
    }

    method AddParentEdge(from: Name, to: Name)
      requires Described(nodes)
      modifies this
      ensures Described(nodes)
      ensures var before := WithNode(WithNode(old(nodes), to, Unknown), from, Unknown);
              nodes == before[from := before[from].(parents := before[from].parents + {to})]
    {
      hide AlmostTyped, TypedNode, Referring;
      LookUp(to);
      LookUp(from);
      var node := nodes[from].(parents := nodes[from].parents + {to});
      NodeChanged(nodes, HTR, from, node);
      ReferringAt(nodes, from);
      ChangedReferring(nodes, from, node);
      nodes := nodes[from := node];
    }

    /** Makes sure that an output exists; a new one is a placeholder, and the slots before it are free. */
    method AddSlot(to: Name, index: nat)
      requires Described(nodes) && to in nodes
      modifies this
      ensures Described(nodes)
      ensures nodes == old(nodes)[to := old(nodes)[to].(outputs := WithSlot(old(nodes)[to].outputs, index))]
    {
      hide AlmostTyped, Referring;
      if |nodes[to].outputs| <= index {
        var spent := nodes[to].(outputs := Padded(nodes[to].outputs, index + 1)[index := Some(Output(0, Name(""), []))]);
        TypedAt(nodes, to);
        NodeChanged(nodes, HTR, to, spent);
        ReferringAt(nodes, to);
        ChangedReferring(nodes, to, spent);
        nodes := nodes[to := spent];
      }
    }

    method AddSpendingEdge(from: Name, to: Name, index: nat)
      requires Described(nodes)
      modifies this
      ensures Described(nodes)
      ensures var before := WithNode(old(nodes), to, Unknown);
              var after := WithNode(before[to := before[to].(outputs := WithSlot(before[to].outputs, index))], from, Unknown);
              nodes == after[from := after[from].(inputs := after[from].inputs + {Input(to, index)})]
    {
      hide AlmostTyped, TypedNode, Referring;
      LookUp(to);
      AddSlot(to, index);
      LookUp(from);
      var node := nodes[from].(inputs := nodes[from].inputs + {Input(to, index)});
      NodeChanged(nodes, HTR, from, node);
      ReferringAt(nodes, from);
      ChangedReferring(nodes, from, node);
      nodes := nodes[from := node];
    }

    /** Sets an output. The token must be HTR or name a token node, which is made if need be; it fails
        exactly if the node of the token has another kind. */
    method SetOutput(name: Name, index: nat, output: Output) returns (r: Outcome)
      requires Described(nodes)
      modifies this
      ensures r.Raised? <==> WrongKind(old(nodes), output.token)
      ensures r.Done? ==> Described(nodes)
      ensures r.Done? ==>
                var before := WithNode(old(nodes), name, Unknown);
                var outputs := Padded(before[name].outputs, index + 1)[index := Some(output)];
                nodes == WithToken(before[name := before[name].(outputs := outputs)], name, output.token)
    {
      hide AlmostTyped, Referring;
      LookUp(name);
      var node := nodes[name].(outputs := Padded(nodes[name].outputs, index + 1)[index := Some(output)]);
      TypedAt(nodes, name);
      NodeChanged(nodes, output.token, name, node);
      ReferringAt(nodes, name);
      TokenReferring(nodes, name, node, output.token);
      nodes := nodes[name := node];
      r := Done;
      if output.token != HTR {
        r := GetOrCreateNode(output.token, Token, output.token);
        if r.Done? {
          node := nodes[name].(deps := nodes[name].deps + {output.token});
          NodeChanged(nodes, HTR, name, node);
          nodes := nodes[name := node];
        }
      }
    }

    /** Sets a wanted balance, once for each token; the token as for an output. */
    method SetBalance(name: Name, token: Name, value: int) returns (r: Outcome)
      requires Described(nodes)
      modifies this
      ensures r.Raised? <==> (name in old(nodes) && token in old(nodes)[name].balances) || WrongKind(old(nodes), token)
      ensures r.Done? ==> Described(nodes)
      ensures r.Done? ==>
                var before := WithNode(old(nodes), name, Unknown);
                nodes == WithToken(before[name := before[name].(balances := before[name].balances[token := value])], name, token)
    {
      hide AlmostTyped, Referring;
      LookUp(name);
      if token in nodes[name].balances {
        return Raised;
      }
      var node := nodes[name].(balances := nodes[name].balances[token := value]);
      TypedAt(nodes, name);
      NodeChanged(nodes, token, name, node);
      ReferringAt(nodes, name);
      TokenReferring(nodes, name, node, token);
      nodes := nodes[name := node];
      r := Done;
      if token != HTR {
        r := GetOrCreateNode(token, Token, token);
        if r.Done? {
          node := nodes[name].(deps := nodes[name].deps + {token});
          NodeChanged(nodes, HTR, name, node);
          nodes := nodes[name := node];
        }
      }
    }

    /** A blueprint attribute overwrites the kind of the node, whatever it was. */
    method AddBlueprintAttribute(name: Name)
      requires Described(nodes)
      modifies this
      ensures Described(nodes)
      ensures var before := WithNode(old(nodes), name, Unknown);
              nodes == before[name := before[name].(kind := OnChainBlueprint)]
    {
      hide AlmostTyped, TypedNode, Referring;
      LookUp(name);
      KindOverwritten(nodes, name);
      ReferringAt(nodes, name);
      ChangedReferring(nodes, name, nodes[name].(kind := OnChainBlueprint));
      nodes := nodes[name := nodes[name].(kind := OnChainBlueprint)];
    }

    /** An attribute that names a contract adds a dependency, but makes no node for it. */
    method AddContractAttribute(name: Name, contract: Name)
      requires Described(nodes)
      modifies this
      ensures Described(nodes)
      ensures nodes == After(old(nodes), ContractAttribute(name, contract))
      ensures contract !in old(nodes) && contract != name ==> T.Missing(nodes)
    {
      hide AlmostTyped, TypedNode, Referring;
      LookUp(name);
      var node := nodes[name].(deps := nodes[name].deps + {contract});
      NodeChanged(nodes, HTR, name, node);
      ReferringAt(nodes, name);
      ChangedReferring(nodes, name, node);
      nodes := nodes[name := node];
      assert name in nodes && contract in AllDependencies(nodes[name]);
      assert contract !in old(nodes) && contract != name ==> contract !in nodes;
    }

    /** A block of a chain; it fails exactly if the node has another kind. */
    method AddChainBlock(name: Name, previous: Option<Name>) returns (r: Outcome)
      requires Described(nodes)
      modifies this
      ensures r.Raised? <==> name in old(nodes) && old(nodes)[name].kind !in {Unknown, Block}
      ensures Described(nodes)
      ensures r.Done? ==> nodes == After(old(nodes), ChainBlock(name, previous))
    {
      hide AlmostTyped, TypedNode, Referring;
      WithNodeReferring(nodes, name, Block);
      r := GetOrCreateNode(name, Block, HTR);
      if r.Done? && previous.Some? {
        AddParentEdge(name, previous.value);
      }
    }

    /** One statement of a description. */
    method Apply(s: Statement) returns (r: Outcome)
      requires Described(nodes)
      modifies this
      ensures r.Done? ==> Described(nodes)
      ensures r.Raised? <==> Refused(old(nodes), s)
      ensures r.Done? ==> nodes == After(old(nodes), s)
    {
      hide AlmostTyped, TypedNode, Referring, WithNode, WithToken, Padded, WithSlot;
      r := Done;
      match s {
        case ParentEdge(from, to) => AddParentEdge(from, to);
        case SpendingEdge(from, to, index) => AddSpendingEdge(from, to, index);
        case OrderBefore(from, to) => AddDeps(from, to);
        case OutputIs(name, index, output) => r := SetOutput(name, index, output);
        case BalanceIs(name, token, value) => r := SetBalance(name, token, value);
        case BlueprintAttribute(name) => AddBlueprintAttribute(name);
        case ContractAttribute(name, contract) => AddContractAttribute(name, contract);
        case ChainBlock(name, previous) => r := AddChainBlock(name, previous);
      }
    }

    /** Reads a description: whatever it says, the nodes are typed and their references exist. It fails
        exactly at a statement that the nodes so far refuse. */
    method Parse(statements: seq<Statement>) returns (r: Outcome)
      requires Described(nodes)
      modifies this
      ensures r.Done? ==> Described(nodes) && nodes == AfterAll(old(nodes), statements)
      ensures r.Done? <==> Readable(old(nodes), statements)
      ensures r.Done? ==> Says(old(nodes), statements, nodes)
    {
      hide Described, After, Refused, Says;
      var k := 0;
      while k < |statements|
        invariant 0 <= k <= |statements| && Described(nodes) && nodes == AfterAll(old(nodes), statements[..k])
        invariant forall j :: 0 <= j < k ==> !Refused(AfterAll(old(nodes), statements[..j]), statements[j])
      {
        r := Apply(statements[k]);
        if r.Raised? {
          return;
        }
        AfterNext(old(nodes), statements, k);
        k := k + 1;
      }
      assert statements[..k] == statements;
      SaysAll(old(nodes), statements);
      r := Done;
    }
  }

  function WithSlot(outputs: seq<Option<Output>>, index: nat): seq<Option<Output>> {
    if |outputs| <= index then Padded(outputs, index + 1)[index := Some(Output(0, Name(""), []))] else outputs
  }

  /** The name is taken by a node that is not a token. */
  predicate WrongKind(nodes: Nodes, token: Name) {
    token != HTR && token in nodes && nodes[token].kind !in {Unknown, Token}
  }

  /** What a statement can be refused for. */
  predicate Refused(nodes: Nodes, s: Statement) {
    match s
    case OutputIs(name, index, output) => WrongKind(nodes, output.token)
    case BalanceIs(name, token, value) => (name in nodes && token in nodes[name].balances) || WrongKind(nodes, token)
    case ChainBlock(name, previous) => name in nodes && nodes[name].kind !in {Unknown, Block}
    case _ => false
  }

  lemma {:induction false} TypedAt(nodes: Nodes, n: Name)
    requires Typed(nodes) && n in nodes
    ensures TypedNode(nodes, HTR, nodes[n])
  {
  }

  // ----- what a description says, statement by statement -----

  function Of(nodes: Nodes, n: Name): Node {
    if n in nodes then nodes[n] else NewNode(Unknown)
  }

  /** The statement makes `n` depend on `d`: by order, by a contract, or by naming a token. */
  predicate SaysDep(s: Statement, n: Name, d: Name) {
    || s == OrderBefore(n, d) || s == ContractAttribute(n, d)
    || (d != HTR && s.OutputIs? && s.name == n && s.output.token == d)
    || (d != HTR && s.BalanceIs? && s.name == n && s.token == d)
  }

  predicate SaysToken(s: Statement, n: Name) {
    n != HTR && ((s.OutputIs? && s.output.token == n) || (s.BalanceIs? && s.token == n))
  }

  /** Every name but that of a contract gets a node. */
  predicate Mentions(s: Statement, n: Name) {
    match s
    case ParentEdge(from, to) => n == from || n == to
    case SpendingEdge(from, to, index) => n == from || n == to
    case OrderBefore(from, to) => n == from || n == to
    case OutputIs(name, index, output) => n == name || SaysToken(s, n)
    case BalanceIs(name, token, value) => n == name || SaysToken(s, n)
    case BlueprintAttribute(name) => n == name
    case ContractAttribute(name, contract) => n == name
    case ChainBlock(name, previous) => n == name || previous == Some(n)
  }

  /** What a statement does to the node `n`. */
  ghost function NodeAfter(s: Statement, n: Name, node: Node): Node {
    match s
    case ParentEdge(from, to) => if n == from then node.(parents := node.parents + {to}) else node
    case SpendingEdge(from, to, index) =>
      var spent := if n == to then node.(outputs := WithSlot(node.outputs, index)) else node;
      if n == from then spent.(inputs := spent.inputs + {Input(to, index)}) else spent
    case OrderBefore(from, to) => if n == from then node.(deps := node.deps + {to}) else node
    case OutputIs(name, index, output) =>
      TokenAfter(n, name, output.token,
                 if n == name then node.(outputs := Padded(node.outputs, index + 1)[index := Some(output)]) else node)
    case BalanceIs(name, token, value) =>
      TokenAfter(n, name, token, if n == name then node.(balances := node.balances[token := value]) else node)
    case BlueprintAttribute(name) => if n == name then node.(kind := OnChainBlueprint) else node
    case ContractAttribute(name, contract) => if n == name then node.(deps := node.deps + {contract}) else node
    case ChainBlock(name, previous) =>
      var block := KindAfter(n, name, Block, node);
      if n == name && previous.Some? then block.(parents := block.parents + {previous.value}) else block
  }

  ghost function KindAfter(n: Name, name: Name, kind: NodeType, node: Node): Node {
    if n == name && node.kind == Unknown then node.(kind := kind) else node
  }

  ghost function TokenAfter(n: Name, name: Name, token: Name, node: Node): Node {
    if token == HTR then node else
      var known := KindAfter(n, token, Token, node);
      if n == name then known.(deps := known.deps + {token}) else known
  }

  lemma {:induction false} OfWithNode(nodes: Nodes, name: Name, kind: NodeType, n: Name)
    ensures Of(WithNode(nodes, name, kind), n) == KindAfter(n, name, kind, Of(nodes, n))
    ensures n in WithNode(nodes, name, kind) <==> n in nodes || n == name
  {
  }

  lemma {:induction false} OfSet(nodes: Nodes, name: Name, node: Node, n: Name)
    ensures Of(nodes[name := node], n) == if n == name then node else Of(nodes, n)
  {
  }

  lemma {:induction false} OfParent(nodes: Nodes, from: Name, to: Name, n: Name)
    ensures Of(WithParent(nodes, from, to), n) == if n == from then Of(nodes, n).(parents := Of(nodes, n).parents + {to}) else Of(nodes, n)
    ensures n in WithParent(nodes, from, to) <==> n in nodes || n == from || n == to
  {
    hide WithNode;
    var once := WithNode(nodes, to, Unknown);
    OfWithNode(nodes, to, Unknown, n);
    OfWithNode(once, from, Unknown, n);
    OfWithNode(nodes, to, Unknown, from);
    OfWithNode(once, from, Unknown, from);
    var before := WithNode(once, from, Unknown);
    OfSet(before, from, before[from].(parents := before[from].parents + {to}), n);
  }

  lemma {:induction false} OfToken(nodes: Nodes, name: Name, token: Name, n: Name)
    requires name in nodes
    ensures Of(WithToken(nodes, name, token), n) == TokenAfter(n, name, token, Of(nodes, n))
    ensures n in WithToken(nodes, name, token) <==> n in nodes || (n == token && token != HTR)
  {
    hide WithNode;
    OfWithNode(nodes, token, Token, n);
    OfWithNode(nodes, token, Token, name);
    var nodes' := WithNode(nodes, token, Token);
    OfSet(nodes', name, nodes'[name].(deps := nodes'[name].deps + {token}), n);
  }

  /** A statement acts on each node alone. */
  lemma {:induction false} AfterNode(nodes: Nodes, s: Statement, n: Name)
    ensures Of(After(nodes, s), n) == NodeAfter(s, n, Of(nodes, n))
    ensures n in After(nodes, s) <==> n in nodes || Mentions(s, n)
  {
    hide WithNode, WithToken, WithParent, Padded, WithSlot;
    match s {
      case ParentEdge(from, to) => OfParent(nodes, from, to, n);
      case SpendingEdge(from, to, index) => AfterSpending(nodes, from, to, index, n);
      case OrderBefore(from, to) => AfterOrder(nodes, from, to, n);
      case OutputIs(name, index, output) =>
        OfWithNode(nodes, name, Unknown, n);
        OfWithNode(nodes, name, Unknown, name);
        var before := WithNode(nodes, name, Unknown);
        var node := before[name].(outputs := Padded(before[name].outputs, index + 1)[index := Some(output)]);
        OfSet(before, name, node, n);
        OfToken(before[name := node], name, output.token, n);
      case BalanceIs(name, token, value) =>
        OfWithNode(nodes, name, Unknown, n);
        OfWithNode(nodes, name, Unknown, name);
        var before := WithNode(nodes, name, Unknown);
        var node := before[name].(balances := before[name].balances[token := value]);
        OfSet(before, name, node, n);
        OfToken(before[name := node], name, token, n);
      case BlueprintAttribute(name) =>
        OfWithNode(nodes, name, Unknown, n);
        OfWithNode(nodes, name, Unknown, name);
        var before := WithNode(nodes, name, Unknown);
        OfSet(before, name, before[name].(kind := OnChainBlueprint), n);
      case ContractAttribute(name, contract) =>
        OfWithNode(nodes, name, Unknown, n);
        OfWithNode(nodes, name, Unknown, name);
        var before := WithNode(nodes, name, Unknown);
        OfSet(before, name, before[name].(deps := before[name].deps + {contract}), n);
      case ChainBlock(name, previous) =>
        OfWithNode(nodes, name, Block, n);
        if previous.Some? {
          OfParent(WithNode(nodes, name, Block), name, previous.value, n);
        }
    }
  }

  lemma {:induction false} AfterSpending(nodes: Nodes, from: Name, to: Name, index: nat, n: Name)
    ensures Of(After(nodes, SpendingEdge(from, to, index)), n) == NodeAfter(SpendingEdge(from, to, index), n, Of(nodes, n))
    ensures n in After(nodes, SpendingEdge(from, to, index)) <==> n in nodes || n == from || n == to
  {
    hide WithNode, WithSlot;
    var before := WithNode(nodes, to, Unknown);
    OfWithNode(nodes, to, Unknown, n);
    OfWithNode(nodes, to, Unknown, to);
    OfWithNode(nodes, to, Unknown, from);
    var slot := before[to].(outputs := WithSlot(before[to].outputs, index));
    OfSet(before, to, slot, n);
    OfSet(before, to, slot, from);
    OfWithNode(before[to := slot], from, Unknown, n);
    OfWithNode(before[to := slot], from, Unknown, from);
    var after := WithNode(before[to := slot], from, Unknown);
    OfSet(after, from, after[from].(inputs := after[from].inputs + {Input(to, index)}), n);
  }

  lemma {:induction false} AfterOrder(nodes: Nodes, from: Name, to: Name, n: Name)
    ensures Of(After(nodes, OrderBefore(from, to)), n) == NodeAfter(OrderBefore(from, to), n, Of(nodes, n))
    ensures n in After(nodes, OrderBefore(from, to)) <==> n in nodes || n == from || n == to
  {
    hide WithNode;
    OfWithNode(nodes, from, Unknown, n);
    OfWithNode(nodes, from, Unknown, from);
    var once := WithNode(nodes, from, Unknown);
    OfWithNode(once, to, Unknown, n);
    OfWithNode(once, to, Unknown, from);
    var before := WithNode(once, to, Unknown);
    OfSet(before, from, before[from].(deps := before[from].deps + {to}), n);
  }

  /** A blueprint if it has such an attribute, else what it was, or what it is named as. */
  ghost function SaidKind(kind: NodeType, statements: seq<Statement>, n: Name): NodeType {
    if BlueprintAttribute(n) in statements then OnChainBlueprint
    else if kind != Unknown then kind
    else if exists s :: s in statements && s.ChainBlock? && s.name == n then Block
    else if exists s :: s in statements && SaysToken(s, n) then Token
    else Unknown
  }

  predicate SetsOutput(s: Statement, n: Name, k: int) {
    s.OutputIs? && s.name == n && s.index == k
  }

  predicate UsesSlot(s: Statement, n: Name, k: int) {
    SetsOutput(s, n, k) || (s.SpendingEdge? && s.to == n && s.index == k)
  }

  /** Statement `j` is the last that sets output `k` of `n`. */
  ghost predicate LastFor(statements: seq<Statement>, n: Name, k: int, j: int) {
    && 0 <= j < |statements| && SetsOutput(statements[j], n, k)
    && forall i :: j < i < |statements| ==> !SetsOutput(statements[i], n, k)
  }

  /** An output is the last one set for it; other slots are as before, free, or the placeholders of what is
      spent; and there are no more slots than are used. */
  ghost predicate SaysOutputs(a: seq<Option<Output>>, statements: seq<Statement>, n: Name, b: seq<Option<Output>>) {
    && |a| <= |b|
    && (forall k, j :: LastFor(statements, n, k, j) ==> 0 <= k < |b| && b[k] == Some(statements[j].output))
    && (forall s, k :: s in statements && UsesSlot(s, n, k) ==> 0 <= k < |b|)
    && NotSet(a, statements, n, b)
    && (|b| > |a| ==> exists s :: s in statements && UsesSlot(s, n, |b| - 1))
  }

  ghost predicate NotSet(a: seq<Option<Output>>, statements: seq<Statement>, n: Name, b: seq<Option<Output>>) {
    forall k :: 0 <= k < |b| && (forall s :: s in statements ==> !SetsOutput(s, n, k)) ==>
      if k < |a| then b[k] == a[k] else b[k].None? || b[k] == Some(Output(0, Name(""), []))
  }

  /** The node is what it was, with exactly what the statements say about it. */
  ghost predicate SaysNode(a: Node, statements: seq<Statement>, n: Name, b: Node) {
    && (forall i :: i in b.inputs <==> i in a.inputs || SpendingEdge(n, i.node, i.index) in statements)
    && (forall p :: p in b.parents <==> p in a.parents || ParentEdge(n, p) in statements || ChainBlock(n, Some(p)) in statements)
    && (forall d :: d in b.deps <==> d in a.deps || exists s :: s in statements && SaysDep(s, n, d))
    && (forall t, v :: HasBalance(b, t, v) <==> HasBalance(a, t, v) || BalanceIs(n, t, v) in statements)
    && b.kind == SaidKind(a.kind, statements, n)
    && SaysOutputs(a.outputs, statements, n, b.outputs)
  }

  predicate HasBalance(node: Node, t: Name, v: int) {
    t in node.balances && node.balances[t] == v
  }

  /** The nodes are those that were there or are mentioned, each with what is said about it. */
  ghost predicate Says(nodes: Nodes, statements: seq<Statement>, nodes': Nodes) {
    && (forall n :: n in nodes' <==> n in nodes || exists s :: s in statements && Mentions(s, n))
    && forall n :: n in nodes' ==> SaysNode(Of(nodes, n), statements, n, nodes'[n])
  }

  /** What keeps a statement from being refused, as far as `n` is concerned. */
  ghost predicate Welcome(s: Statement, n: Name, node: Node) {
    && (s.BalanceIs? && s.name == n ==> s.token !in node.balances)
    && (s.ChainBlock? && s.name == n ==> node.kind in {Unknown, Block})
    && (SaysToken(s, n) ==> node.kind in {Unknown, Token})
  }

  lemma {:induction false} FieldsAfter(s: Statement, n: Name, node: Node)
    ensures var after := NodeAfter(s, n, node);
            && (forall i :: i in after.inputs <==> i in node.inputs || s == SpendingEdge(n, i.node, i.index))
            && (forall p :: p in after.parents <==> p in node.parents || s == ParentEdge(n, p) || s == ChainBlock(n, Some(p)))
            && (forall d :: d in after.deps <==> d in node.deps || SaysDep(s, n, d))
            && (after.outputs == if s.OutputIs? && s.name == n then Padded(node.outputs, s.index + 1)[s.index := Some(s.output)]
                                 else if s.SpendingEdge? && s.to == n then WithSlot(node.outputs, s.index) else node.outputs)
            && (after.kind == if s == BlueprintAttribute(n) then OnChainBlueprint
                              else if node.kind != Unknown then node.kind
                              else if s.ChainBlock? && s.name == n then Block
                              else if SaysToken(s, n) then Token else Unknown)
  {
    hide Padded, WithSlot;
  }

  lemma {:induction false} BalancesAfter(s: Statement, n: Name, node: Node, t: Name, v: int)
    requires s.BalanceIs? && s.name == n ==> s.token !in node.balances
    ensures HasBalance(NodeAfter(s, n, node), t, v) <==> HasBalance(node, t, v) || s == BalanceIs(n, t, v)
  {
    hide Padded, WithSlot;
  }

  lemma {:induction false} OutputsSet(a: seq<Option<Output>>, before: seq<Statement>, s: Statement, n: Name, b: seq<Option<Output>>,
                                      c: seq<Option<Output>>)
    requires SaysOutputs(a, before, n, b)
    requires c == if s.OutputIs? && s.name == n then Padded(b, s.index + 1)[s.index := Some(s.output)]
                  else if s.SpendingEdge? && s.to == n then WithSlot(b, s.index) else b
    ensures forall k, j :: LastFor(before + [s], n, k, j) ==> 0 <= k < |c| && c[k] == Some((before + [s])[j].output)
  {
    var all := before + [s];
    forall k, j | LastFor(all, n, k, j)
      ensures 0 <= k < |c| && c[k] == Some(all[j].output)
    {
      if j < |before| {
        assert all[j] == before[j] && all[|before|] == s;
        assert LastFor(before, n, k, j) by {
          forall i | j < i < |before|
            ensures !SetsOutput(before[i], n, k)
          {
            assert all[i] == before[i];
          }
        }
      }
    }
  }

  lemma {:induction false} OutputsFree(a: seq<Option<Output>>, before: seq<Statement>, s: Statement, n: Name, b: seq<Option<Output>>,
                                       c: seq<Option<Output>>)
    requires |a| <= |b| && NotSet(a, before, n, b)
    requires c == if s.OutputIs? && s.name == n then Padded(b, s.index + 1)[s.index := Some(s.output)]
                  else if s.SpendingEdge? && s.to == n then WithSlot(b, s.index) else b
    ensures NotSet(a, before + [s], n, c)
  {
    var all := before + [s];
    forall k | 0 <= k < |c| && (forall x :: x in all ==> !SetsOutput(x, n, k))
      ensures if k < |a| then c[k] == a[k] else c[k].None? || c[k] == Some(Output(0, Name(""), []))
    {
      assert s in all && !SetsOutput(s, n, k);
      assert k < |b| ==> c[k] == b[k];
      forall x | x in before
        ensures !SetsOutput(x, n, k)
      {
        assert x in all;
      }
    }
  }

  lemma {:induction false} OutputsStep(a: seq<Option<Output>>, before: seq<Statement>, s: Statement, n: Name, b: seq<Option<Output>>,
                                       c: seq<Option<Output>>)
    requires SaysOutputs(a, before, n, b)
    requires c == if s.OutputIs? && s.name == n then Padded(b, s.index + 1)[s.index := Some(s.output)]
                  else if s.SpendingEdge? && s.to == n then WithSlot(b, s.index) else b
    ensures SaysOutputs(a, before + [s], n, c)
  {
    hide LastFor, NotSet;
    OutputsSet(a, before, s, n, b, c);
    OutputsFree(a, before, s, n, b, c);
    var all := before + [s];
    assert forall x :: x in all <==> x in before || x == s;
    if |c| > |a| {
      if |c| > |b| {
        assert UsesSlot(s, n, |c| - 1);
      } else {
        var x :| x in before && UsesSlot(x, n, |b| - 1);
        assert x in all && UsesSlot(x, n, |c| - 1);
      }
    }
  }

  lemma {:induction false} KindStep(kind: NodeType, before: seq<Statement>, s: Statement, n: Name, node: Node)
    requires node.kind == SaidKind(kind, before, n) && Welcome(s, n, node)
    ensures NodeAfter(s, n, node).kind == SaidKind(kind, before + [s], n)
  {
    hide NodeAfter, SaysToken;
    FieldsAfter(s, n, node);
    var all := before + [s];
    assert forall x :: x in all <==> x in before || x == s;
    assert s in all;
    if x :| x in before && x.ChainBlock? && x.name == n {
      assert x in all;
    }
    if x :| x in before && SaysToken(x, n) {
      assert x in all;
    }
  }

  lemma {:induction false} DepsStep(before: seq<Statement>, s: Statement, n: Name, d: Name)
    ensures (exists x :: x in before + [s] && SaysDep(x, n, d)) <==> (exists x :: x in before && SaysDep(x, n, d)) || SaysDep(s, n, d)
  {
    hide SaysDep;
    var all := before + [s];
    assert s in all;
    if x :| x in before && SaysDep(x, n, d) {
      assert x in all;
    }
  }

  lemma {:induction false} FieldsStep(a: Node, before: seq<Statement>, s: Statement, n: Name, node: Node)
    requires SaysNode(a, before, n, node) && Welcome(s, n, node)
    ensures SaysNode(a, before + [s], n, NodeAfter(s, n, node))
  {
    hide SaysOutputs, SaidKind, NodeAfter, HasBalance, SaysDep, Padded, WithSlot;
    FieldsAfter(s, n, node);
    OutputsStep(a.outputs, before, s, n, node.outputs, NodeAfter(s, n, node).outputs);
    KindStep(a.kind, before, s, n, node);
    assert forall x :: x in before + [s] <==> x in before || x == s;
    forall d
      ensures (exists x :: x in before + [s] && SaysDep(x, n, d)) <==> (exists x :: x in before && SaysDep(x, n, d)) || SaysDep(s, n, d)
    {
      DepsStep(before, s, n, d);
    }
    forall t, v
      ensures HasBalance(NodeAfter(s, n, node), t, v) <==> HasBalance(node, t, v) || s == BalanceIs(n, t, v)
    {
      BalancesAfter(s, n, node, t, v);
    }
  }

  lemma {:induction false} SaysNothing(node: Node, n: Name)
    ensures SaysNode(node, [], n, node)
  {
  }

  lemma {:induction false} WelcomeThen(nodes: Nodes, s: Statement, n: Name)
    requires !Refused(nodes, s)
    ensures Welcome(s, n, Of(nodes, n))
  {
  }

  lemma {:induction false} ReadableBefore(nodes: Nodes, statements: seq<Statement>)
    requires Readable(nodes, statements) && statements != []
    ensures var k := |statements| - 1;
            Readable(nodes, statements[..k]) && !Refused(AfterAll(nodes, statements[..k]), statements[k])
  {
    hide Refused, AfterAll;
    var before := statements[..|statements| - 1];
    forall k | 0 <= k < |before|
      ensures !Refused(AfterAll(nodes, before[..k]), before[k])
    {
      assert before[..k] == statements[..k];
    }
  }

  lemma {:induction false} SaysOf(nodes: Nodes, statements: seq<Statement>, n: Name)
    requires Readable(nodes, statements)
    ensures SaysNode(Of(nodes, n), statements, n, Of(AfterAll(nodes, statements), n))
    ensures n in AfterAll(nodes, statements) <==> n in nodes || exists s :: s in statements && Mentions(s, n)
  {
    hide SaysNode, After, NodeAfter, Welcome, Mentions, Readable, Refused;
    if statements == [] {
      SaysNothing(Of(nodes, n), n);
    } else {
      var k := |statements| - 1;
      var before, s := statements[..k], statements[k];
      assert statements == before + [s];
      ReadableBefore(nodes, statements);
      SaysOf(nodes, before, n);
      var middle := AfterAll(nodes, before);
      AfterNode(middle, s, n);
      WelcomeThen(middle, s, n);
      FieldsStep(Of(nodes, n), before, s, n, Of(middle, n));
      assert s in statements;
      if x :| x in before && Mentions(x, n) {
        assert x in statements;
      }
    }
  }

  /** A description that is read to its end gives exactly what its statements say. */
  lemma {:induction false} SaysAll(nodes: Nodes, statements: seq<Statement>)
    requires Readable(nodes, statements)
    ensures Says(nodes, statements, AfterAll(nodes, statements))
  {
    hide SaysNode, AfterAll, Mentions, Readable;
    forall n
      ensures n in AfterAll(nodes, statements) <==> n in nodes || exists s :: s in statements && Mentions(s, n)
      ensures SaysNode(Of(nodes, n), statements, n, Of(AfterAll(nodes, statements), n))
    {
      SaysOf(nodes, statements, n);
    }
  }
}
