/** What `send` does to a node, stated on values: every sent item lands in
    exactly one place — the error handler, the node's own input, or every output. */
module Routing {
  import opened Structs

  /** The part of a node that `send` touches: its own input queue, one queue
      per output, the argument lists handed to its error handler, and `out`. */
  datatype Sinks = Sinks(
    input: seq<Item>,
    outputs: seq<seq<Item>>,
    errCalls: seq<seq<Value>>,
    outCount: nat)

  /** Every output queue with `xs` appended, the list of outputs itself unchanged. */
  function AppendEach(outputs: seq<seq<Item>>, xs: seq<Item>): seq<seq<Item>> {
    seq(|outputs|, i requires 0 <= i < |outputs| => outputs[i] + xs)
  }

  /** One `send(value, _control)`. */
  function Dispatch(s: Sinks, v: Item, control: bool): Sinks {
    var counted := if control then s else s.(outCount := s.outCount + 1);
    if IsErrorBag(v) then counted.(errCalls := counted.errCalls + [v.bag.args])
    else if IsLoopbackBag(v) then counted.(input := counted.input + [v])
    else counted.(outputs := AppendEach(counted.outputs, [v]))
  }

  /** `send` applied to each of `vs` in turn. */
  function DispatchAll(s: Sinks, vs: seq<Item>, control: bool): Sinks
    decreases |vs|
  {
    if vs == [] then s else DispatchAll(Dispatch(s, vs[0], control), vs[1..], control)
  }

  /** The items `send` hands to the error handler, in order. */
  function ErrorsOf(vs: seq<Item>): (r: seq<Item>)
    ensures forall v <- r :: IsErrorBag(v)
  {
    if vs == [] then []
    else (if IsErrorBag(vs[0]) then [vs[0]] else []) + ErrorsOf(vs[1..])
  }

  /** The items `send` re-enqueues on the node's own input, in order. */
  function LoopbacksOf(vs: seq<Item>): (r: seq<Item>)
    ensures forall v <- r :: !IsErrorBag(v) && IsLoopbackBag(v)
  {
    if vs == [] then []
    else (if !IsErrorBag(vs[0]) && IsLoopbackBag(vs[0]) then [vs[0]] else []) + LoopbacksOf(vs[1..])
  }

  /** The items `send` fans out to every output, in order. */
  function PlainOf(vs: seq<Item>): (r: seq<Item>)
    ensures forall v <- r :: !IsErrorBag(v) && !IsLoopbackBag(v)
  {
    if vs == [] then []
    else (if !IsErrorBag(vs[0]) && !IsLoopbackBag(vs[0]) then [vs[0]] else []) + PlainOf(vs[1..])
  }

  /** The argument lists the error handler is called with, one per error bag, in order. */
  function ErrorArgsOf(vs: seq<Item>): seq<seq<Value>> {
    if vs == [] then []
    else (if IsErrorBag(vs[0]) then [vs[0].bag.args] else []) + ErrorArgsOf(vs[1..])
  }

  /** The error handler receives exactly the arguments of the error bags: one
      argument list per error bag, in the same order. */
  lemma {:induction false} ErrorArgsOfErrors(vs: seq<Item>)
    ensures |ErrorArgsOf(vs)| == |ErrorsOf(vs)|
    ensures forall i :: 0 <= i < |ErrorsOf(vs)| ==>
      ErrorsOf(vs)[i].BagItem? && ErrorArgsOf(vs)[i] == ErrorsOf(vs)[i].bag.args
  {
    if vs != [] {
      ErrorArgsOfErrors(vs[1..]);
    }
  }

  lemma AppendEachTwice(outputs: seq<seq<Item>>, xs: seq<Item>, ys: seq<Item>)
    ensures AppendEach(AppendEach(outputs, xs), ys) == AppendEach(outputs, xs + ys)
  {
    forall i | 0 <= i < |outputs|
      ensures AppendEach(AppendEach(outputs, xs), ys)[i] == AppendEach(outputs, xs + ys)[i]
    {
      assert (outputs[i] + xs) + ys == outputs[i] + (xs + ys);
    }
  }

  /** Sending a sequence of items: error bags reach the error handler, loopback
      bags the node's own input, and everything else every output, each in the
      order sent; `out` grows by the number sent unless the sends are control sends. */
  lemma DispatchAllRoutes(s: Sinks, vs: seq<Item>, control: bool)
    ensures DispatchAll(s, vs, control) == Sinks(
      s.input + LoopbacksOf(vs),
      AppendEach(s.outputs, PlainOf(vs)),
      s.errCalls + ErrorArgsOf(vs),
      s.outCount + if control then 0 else |vs|)
  {
    DispatchAllInput(s, vs, control);
    DispatchAllOutputs(s, vs, control);
    DispatchAllErrCalls(s, vs, control);
    DispatchAllOutCount(s, vs, control);
  }

  lemma {:induction false} DispatchAllInput(s: Sinks, vs: seq<Item>, control: bool)
    ensures DispatchAll(s, vs, control).input == s.input + LoopbacksOf(vs)
    decreases |vs|
  {
    if vs == [] {
      assert s.input + [] == s.input;
    } else {
      var v, rest := vs[0], vs[1..];
      var s1 := Dispatch(s, v, control);
      assert DispatchAll(s, vs, control) == DispatchAll(s1, rest, control);
      DispatchAllInput(s1, rest, control);
      if !IsErrorBag(v) && IsLoopbackBag(v) {
        assert s1.input == s.input + [v];
        assert LoopbacksOf(vs) == [v] + LoopbacksOf(rest);
        assert s.input + [v] + LoopbacksOf(rest) == s.input + ([v] + LoopbacksOf(rest));
      } else {
        assert s1.input == s.input;
        assert LoopbacksOf(vs) == LoopbacksOf(rest);
      }
    }
  }

  lemma {:induction false} DispatchAllOutputs(s: Sinks, vs: seq<Item>, control: bool)
    ensures DispatchAll(s, vs, control).outputs == AppendEach(s.outputs, PlainOf(vs))
    decreases |vs|
  {
    if vs == [] {
      assert AppendEach(s.outputs, []) == s.outputs by {
        forall i | 0 <= i < |s.outputs| ensures s.outputs[i] + [] == s.outputs[i] { }
      }
    } else {
      var v, rest := vs[0], vs[1..];
      var s1 := Dispatch(s, v, control);
      assert DispatchAll(s, vs, control) == DispatchAll(s1, rest, control);
      DispatchAllOutputs(s1, rest, control);
      if !IsErrorBag(v) && !IsLoopbackBag(v) {
        assert s1.outputs == AppendEach(s.outputs, [v]);
        assert PlainOf(vs) == [v] + PlainOf(rest);
        AppendEachTwice(s.outputs, [v], PlainOf(rest));
      } else {
        assert s1.outputs == s.outputs;
        assert PlainOf(vs) == PlainOf(rest);
      }
    }
  }

  lemma {:induction false} DispatchAllErrCalls(s: Sinks, vs: seq<Item>, control: bool)
    ensures DispatchAll(s, vs, control).errCalls == s.errCalls + ErrorArgsOf(vs)
    decreases |vs|
  {
    if vs == [] {
      assert s.errCalls + [] == s.errCalls;
    } else {
      var v, rest := vs[0], vs[1..];
      var s1, e := Dispatch(s, v, control), ErrorArgsOf(rest);
      assert DispatchAll(s, vs, control) == DispatchAll(s1, rest, control);
      DispatchAllErrCalls(s1, rest, control);
      if IsErrorBag(v) {
        assert s1.errCalls == s.errCalls + [v.bag.args];
        assert ErrorArgsOf(vs) == [v.bag.args] + e;
        assert s.errCalls + [v.bag.args] + e == s.errCalls + ([v.bag.args] + e);
      } else {
        assert s1.errCalls == s.errCalls;
        assert ErrorArgsOf(vs) == e;
      }
    }
  }

  lemma {:induction false} DispatchAllOutCount(s: Sinks, vs: seq<Item>, control: bool)
    ensures DispatchAll(s, vs, control).outCount == s.outCount + if control then 0 else |vs|
    decreases |vs|
  {
    if vs != [] {
      DispatchAllOutCount(Dispatch(s, vs[0], control), vs[1..], control);
    }
  }

  /** Routing partitions what is sent: every item goes to exactly one of the
      three destinations, none is lost and none is duplicated. */
  lemma {:induction false} RoutesPartition(vs: seq<Item>)
    ensures multiset(ErrorsOf(vs)) + multiset(LoopbacksOf(vs)) + multiset(PlainOf(vs)) == multiset(vs)
    ensures |ErrorsOf(vs)| + |LoopbacksOf(vs)| + |PlainOf(vs)| == |vs|
  {
    if vs != [] {
      RoutesPartition(vs[1..]);
      assert vs == [vs[0]] + vs[1..];
    }
  }

  /** Sending one more item after a sequence is sending the longer sequence. */
  lemma {:induction false} DispatchAllSnoc(s: Sinks, vs: seq<Item>, v: Item, control: bool)
    ensures DispatchAll(s, vs + [v], control) == Dispatch(DispatchAll(s, vs, control), v, control)
    decreases |vs|
  {
    if vs == [] {
      assert [v][1..] == [];
    } else {
      assert (vs + [v])[1..] == vs[1..] + [v];
      DispatchAllSnoc(Dispatch(s, vs[0], control), vs[1..], v, control);
    }
  }
}
