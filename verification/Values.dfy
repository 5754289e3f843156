/** Values, and the world an activation is in: memory, and the contexts. */
module Values {
  import opened Options

  /** Objects, about which nothing is assumed. */
  type Store(!new)

  /** `Arguments` is the array MarkArguments makes for a send. */
  datatype Value =
    | Nil | True | False
    | SmallInt(i: int)
    | Symbol(name: string)
    | Object(id: nat)
    | Arguments(vals: seq<Value>)

  /** A method context, or a block (which has a creating context). */
  datatype Context = Context(
    method_: nat,
    args: seq<Value>,
    temps: nat,
    stack: seq<Value>,
    pc: nat,
    previous: Option<nat>,
    creating: Option<nat>,
    argLoc: nat,
    start: nat)

  /** `left` has the contexts that control has left for good, and the blocks that are not being run. */
  datatype VM = VM(contexts: map<nat, Context>, w: Store, next: nat, left: set<nat>)

  /** All contexts and the memory, as one of the contexts has them. */
  datatype World = World(context: nat, vm: VM)
}
