/** The values that travel between nodes of a bonobo graph: control tokens,
    bags (argument envelopes) and the raw return values of transformations. */
module Structs {

  /** The process-wide control tokens BEGIN, END and NOT_MODIFIED; compared by value here. */
  datatype Token = Begin | End | NotModified

  /** What a transformation may return (or yield): a Bag, a tuple, a token,
      or any other object, which only its identity distinguishes. */
  datatype Value =
    | BagV(bag: Bag)
    | TupleV(items: seq<Value>)
    | TokenV(token: Token)
    | RawV(id: int)

  /** An argument envelope with its error and loopback flags.
      Keyword arguments are not part of this model. */
  datatype Bag = Bag(args: seq<Value>, isError: bool, isLoopback: bool)

  /** What a node's input queue and its outputs hold: bags and tokens. */
  datatype Item = BagItem(bag: Bag) | TokenItem(token: Token)

  /** The call `Bag(x)` with its one-argument shorthand: a tuple's elements
      become the positional arguments, a bag's arguments are copied, and any
      other value is the single positional argument. The new bag is unflagged. */
  function NewBag(x: Value): (r: Bag)
    ensures !r.isError && !r.isLoopback
    ensures x.TupleV? ==> r.args == x.items
    ensures x.BagV? ==> r.args == x.bag.args
    ensures !x.TupleV? && !x.BagV? ==> r.args == [x]
  {
    match x
    case TupleV(items) => Bag(items, false, false)
    case BagV(b) => Bag(b.args, false, false)
    case _ => Bag([x], false, false)
  }

  /** `iserrorbag`: a bag carrying a captured failure. */
  predicate IsErrorBag(v: Item) {
    v.BagItem? && v.bag.isError
  }

  /** `isloopbackbag`: a bag to be re-delivered to its producer's own input. */
  predicate IsLoopbackBag(v: Item) {
    v.BagItem? && v.bag.isLoopback
  }
}
