/** The nodes of a DAG description, as the builder collects them before transactions are made. */
module DagNodes {
  import opened Wrappers

  datatype Name = Name(text: string)

  datatype NodeType = Unknown | Block | Transaction | Token | Genesis | OnChainBlueprint

  datatype Input = Input(node: Name, index: nat)

  datatype Output = Output(amount: int, token: Name, attrs: seq<string>)

  /** `balances` is the wanted value of outputs minus inputs, for the tokens that have one. */
  datatype Node = Node(
    kind: NodeType,
    inputs: set<Input>,
    outputs: seq<Option<Output>>,
    parents: set<Name>,
    deps: set<Name>,
    balances: map<Name, int>)

  type Nodes = map<Name, Node>

  function AllDependencies(node: Node): set<Name> {
    node.parents + (set i | i in node.inputs :: i.node) + node.deps
  }
}
