/** The worker of one graph node (`NodeExecutionContext`): it takes bags off
    its input queue, runs the wrapped transformation on them, resolves what
    comes back and routes the result. */
module Node {
  import opened Structs
  import opened Resolution
  import opened Routing
  import opened LoopPolicy

  datatype Option<T> = None | Some(value: T)

  /** The raw return value of the transformation: a generator, as the finite
      sequence it yields, or a single value together with its Python truthiness. */
  datatype Results = Generator(elems: seq<Value>) | Returned(value: Value, truthy: bool)

  /** Calling the transformation on a bag (`Bag.apply`): it returns, or it raises. */
  datatype Call = Returns(results: Results) | Throws(exc: Exception)

  /** What `get` gives: the dequeued item, or the queue's exception. */
  datatype Dequeued = Dequeued(item: Item) | NotDequeued(exc: Exception)

  /** `kill`: done, or one of its two RuntimeErrors. */
  datatype KillResult = Killed | NotStartedYet | AlreadyStopped

  /** What `write` enqueues for one message: bags and tokens as they are,
      anything else made into a new bag by `Bag(message)`: a tuple's elements
      become its arguments, any other value is its single argument. */
  function AsMessage(m: Value): (r: Item)
    ensures m.BagV? ==> r == BagItem(m.bag)
    ensures m.TokenV? ==> r == TokenItem(m.token)
    ensures !m.BagV? && !m.TokenV? ==>
      r.BagItem? && !IsErrorBag(r) && !IsLoopbackBag(r) &&
      r.bag.args == if m.TupleV? then m.items else [m]
  {
    match m
    case BagV(b) => BagItem(b)
    case TokenV(t) => TokenItem(t)
    case _ => BagItem(NewBag(m))
  }

  /** The items `write(*messages)` enqueues, in order. */
  function Enqueued(ms: seq<Value>): seq<Item> {
    seq(|ms|, i requires 0 <= i < |ms| => AsMessage(ms[i]))
  }

  /** A transformation that returns the message it was written with emits the
      very bag `write` enqueued for it: a plain value, or a tuple that does not
      start with NOT_MODIFIED, resolves to the bag `Bag(message)` builds. */
  lemma ReturnedMessageRebuildsBag(inputBag: Bag, m: Value)
    requires m.RawV? || (m.TupleV? && m.items != [] && !IsFlag(m.items[0]))
    ensures Splittable(m)
    ensures Resolve(inputBag, m) == AsMessage(m).bag
  {
  }

  /** The index of the first yielded value that `split_tokens` cannot split,
      or the number of values if there is none. */
  function FirstUnsplittable(elems: seq<Value>): (u: nat)
    ensures u <= |elems|
    ensures forall j :: 0 <= j < u ==> Splittable(elems[j])
    ensures u < |elems| ==> !Splittable(elems[u])
  {
    if elems == [] || !Splittable(elems[0]) then 0 else 1 + FirstUnsplittable(elems[1..])
  }

  /** The checkpoint (the test of `_killed` before pulling value number k) at
      which draining stops for a kill, or `n` if no kill is observed. A kill
      arriving at checkpoint `killAt` takes effect only if `kill()` may be called. */
  function KillCheckpoint(n: nat, killedAtEntry: bool, killAt: Option<nat>, canKill: bool): (k: nat)
    ensures k <= n
  {
    if killedAtEntry then 0
    else if killAt.Some? && killAt.value <= n && canKill then killAt.value
    else n
  }

  /** Each yielded value resolved against the same input bag. */
  function ResolveAll(inputBag: Bag, vs: seq<Value>): seq<Item>
    requires forall j :: 0 <= j < |vs| ==> Splittable(vs[j])
  {
    seq(|vs|, i requires 0 <= i < |vs| => BagItem(Resolve(inputBag, vs[i])))
  }

  /** The state `handle_results` leaves and how it ends. */
  datatype Handled = Handled(sinks: Sinks, killed: bool, outcome: Outcome)

  /** `handle_results(input_bag, results)` on a node in state `s`, `killed`,
      with a concurrent `kill()` landing just before checkpoint `killAt`.
      A value `split_tokens` cannot split raises IndexError: an ordinary failure. */
  function HandleSpec(s: Sinks, killed: bool, canKill: bool, inputBag: Bag, results: Results,
                      killAt: Option<nat>): Handled
  {
    match results
    case Generator(elems) =>
      var stop := KillCheckpoint(|elems|, killed, killAt, canKill);
      var u := FirstUnsplittable(elems);
      var sent := if u < stop then u else stop;
      Handled(DispatchAll(s, ResolveAll(inputBag, elems[..sent]), false),
              killed || (canKill && killAt.Some? && killAt.value <= sent),
              if u < stop then Raised(Ordinary) else Completed)
    case Returned(v, truthy) =>
      if !truthy then Handled(s, killed, Completed)
      else if !Splittable(v) then Handled(s, killed, Raised(Ordinary))
      else Handled(Dispatch(s, BagItem(Resolve(inputBag, v)), false), killed, Completed)
  }

  /** `step()` after a successful dequeue of `item`: a token has no `apply`
      (an ordinary failure); a bag is handed to the transformation. */
  function StepSpec(s: Sinks, killed: bool, canKill: bool, item: Item, transform: Bag -> Call,
                    killAt: Option<nat>): Handled
  {
    match item
    case TokenItem(_) => Handled(s, killed, Raised(Ordinary))
    case BagItem(b) =>
      match transform(b)
      case Throws(e) => Handled(s, killed, Raised(e))
      case Returns(results) => HandleSpec(s, killed, canKill, b, results, killAt)
  }

  /** Pulling and sending one more yielded value extends the sends by its resolution. */
  lemma DrainOneMore(s: Sinks, inputBag: Bag, elems: seq<Value>, i: nat)
    requires i < |elems|
    requires forall j :: 0 <= j <= i ==> Splittable(elems[j])
    ensures DispatchAll(s, ResolveAll(inputBag, elems[..i + 1]), false)
         == Dispatch(DispatchAll(s, ResolveAll(inputBag, elems[..i]), false),
                     BagItem(Resolve(inputBag, elems[i])), false)
  {
    assert ResolveAll(inputBag, elems[..i + 1])
        == ResolveAll(inputBag, elems[..i]) + [BagItem(Resolve(inputBag, elems[i]))];
    DispatchAllSnoc(s, ResolveAll(inputBag, elems[..i]), BagItem(Resolve(inputBag, elems[i])), false);
  }

  /** Draining that stops at checkpoint `i`, for a kill or at the end of the
      generator, before any value it cannot split. */
  lemma DrainEnds(s: Sinks, killed: bool, canKill: bool, inputBag: Bag, elems: seq<Value>,
                  killAt: Option<nat>, i: nat)
    requires i == KillCheckpoint(|elems|, killed, killAt, canKill) && i <= FirstUnsplittable(elems)
    ensures HandleSpec(s, killed, canKill, inputBag, Generator(elems), killAt)
         == Handled(DispatchAll(s, ResolveAll(inputBag, elems[..i]), false),
                    killed || (canKill && killAt.Some? && killAt.value <= i), Completed)
  {
  }

  /** Draining that stops at the value `i` it cannot split, before any kill. */
  lemma DrainFails(s: Sinks, killed: bool, canKill: bool, inputBag: Bag, elems: seq<Value>,
                   killAt: Option<nat>, i: nat)
    requires i < KillCheckpoint(|elems|, killed, killAt, canKill)
    requires i <= FirstUnsplittable(elems) && !Splittable(elems[i])
    ensures HandleSpec(s, killed, canKill, inputBag, Generator(elems), killAt)
         == Handled(DispatchAll(s, ResolveAll(inputBag, elems[..i]), false), killed, Raised(Ordinary))
  {
    assert FirstUnsplittable(elems) == i;
  }

  /** A generator drained without a kill: one send per yielded value, in yield
      order, each resolved against the same input bag; `out` grows by the count. */
  lemma GeneratorSendsEveryValue(s: Sinks, canKill: bool, inputBag: Bag, elems: seq<Value>)
    requires forall j :: 0 <= j < |elems| ==> Splittable(elems[j])
    ensures var h := HandleSpec(s, false, canKill, inputBag, Generator(elems), None);
      h.sinks == DispatchAll(s, ResolveAll(inputBag, elems), false) &&
      h.sinks.outCount == s.outCount + |elems| &&
      !h.killed && h.outcome == Completed
  {
    assert elems[..|elems|] == elems;
    DispatchAllOutCount(s, ResolveAll(inputBag, elems), false);
  }

  /** A kill observed before the value at index k is pulled: exactly the first
      k values are sent, and the node is killed. */
  lemma KillStopsDraining(s: Sinks, inputBag: Bag, elems: seq<Value>, k: nat)
    requires k <= |elems|
    requires forall j :: 0 <= j < k ==> Splittable(elems[j])
    ensures var h := HandleSpec(s, false, true, inputBag, Generator(elems), Some(k));
      h.sinks == DispatchAll(s, ResolveAll(inputBag, elems[..k]), false) &&
      h.sinks.outCount == s.outCount + k &&
      h.killed && h.outcome == Completed
  {
    var u := FirstUnsplittable(elems);
    assert k <= u;
    DispatchAllOutCount(s, ResolveAll(inputBag, elems[..k]), false);
  }

  /** Once the node is killed, no value is pulled from a generator at all. */
  lemma KilledPullsNothing(s: Sinks, canKill: bool, inputBag: Bag, elems: seq<Value>, killAt: Option<nat>)
    ensures HandleSpec(s, true, canKill, inputBag, Generator(elems), killAt) == Handled(s, true, Completed)
  {
  }

  /** A single returned value: one send if it is truthy, none (and no counter
      change) if it is falsy. */
  lemma ReturnedSendsAtMostOnce(s: Sinks, killed: bool, canKill: bool, inputBag: Bag, v: Value,
                                truthy: bool, killAt: Option<nat>)
    requires truthy ==> Splittable(v)
    ensures var h := HandleSpec(s, killed, canKill, inputBag, Returned(v, truthy), killAt);
      h.killed == killed && h.outcome == Completed &&
      h.sinks == DispatchAll(s, if truthy then [BagItem(Resolve(inputBag, v))] else [], false) &&
      h.sinks.outCount == s.outCount + if truthy then 1 else 0
  {
  }

  class NodeExecutionContext {
    var input: seq<Item>
    var inputAlive: bool
    var outputs: seq<seq<Item>>
    var inCount: nat
    var outCount: nat
    var errCalls: seq<seq<Value>>
    var killed: bool
    var started: bool
    var stopped: bool
    var defunct: bool

    /** `_input or Input()`: the given queue with its open flag, or a fresh, empty,
        open one when none is given; `_outputs or []` is the given list of outputs. */
    constructor (initialInput: Option<(seq<Item>, bool)>, outputs: seq<seq<Item>>)
      ensures this.outputs == outputs
      ensures initialInput.None? ==> input == [] && inputAlive
      ensures initialInput.Some? ==> input == initialInput.value.0 && inputAlive == initialInput.value.1
      ensures inCount == 0 && outCount == 0 && errCalls == []
      ensures !killed && !started && !stopped && !defunct
    {
      this.outputs := outputs;
      match initialInput {
        case None => input, inputAlive := [], true;
        case Some((q, alive)) => input, inputAlive := q, alive;
      }
      inCount, outCount, errCalls := 0, 0, [];
      killed := false;
      started, stopped, defunct := false, false, false;
    }

    /** The status flags the base execution context maintains; its start/stop
        protocol is not part of this model, so they are set from outside. */
    method SetStatus(isStarted: bool, isStopped: bool, isDefunct: bool)
      modifies this`started, this`stopped, this`defunct
      ensures started == isStarted && stopped == isStopped && defunct == isDefunct
    {
      started, stopped, defunct := isStarted, isStopped, isDefunct;
    }

    /** The part of the node that `send` touches. */
    function Snapshot(): Sinks
      reads this
    {
      Sinks(input, outputs, errCalls, outCount)
    }

    /** `should_loop`: neither defunct nor killed. */
    function ShouldLoop(): (r: bool)
      reads this
      ensures r <==> !defunct && !killed
    {
      !(defunct || killed)
    }

    /** `write(*messages)`: enqueue each message in order, wrapping whatever is
        neither a bag nor a token. */
    method Write(messages: seq<Value>)
      modifies this`input
      ensures input == old(input) + Enqueued(messages)
    {
      for i := 0 to |messages|
        invariant input == old(input) + Enqueued(messages[..i])
      {
        assert Enqueued(messages[..i + 1]) == Enqueued(messages[..i]) + [AsMessage(messages[i])];
        input := input + [AsMessage(messages[i])];
      }
      assert messages[..|messages|] == messages;
    }

    /** `get`: dequeue first, count afterwards, so a failed dequeue leaves the
        counters alone. An empty open queue raises Empty, an empty shut one
        InactiveReadableError. */
    method Get() returns (r: Dequeued)
      modifies this`input, this`inCount
      ensures old(input) != [] ==>
        r == Dequeued(old(input)[0]) && input == old(input)[1..] && inCount == old(inCount) + 1
      ensures old(input) == [] ==>
        r == NotDequeued(if inputAlive then Empty else InactiveReadable) &&
        input == old(input) && inCount == old(inCount)
    {
      if input == [] {
        r := NotDequeued(if inputAlive then Empty else InactiveReadable);
        return;
      }
      r := Dequeued(input[0]);
      input := input[1..];
      inCount := inCount + 1;
    }

    /** `send(value, _control)`: count it unless it is a control send, then hand
        an error bag to the error handler, put a loopback bag back on this
        node's input, and put anything else on every output in list order. */
    method Send(value: Item, control: bool)
      modifies this`input, this`outputs, this`errCalls, this`outCount
      ensures Snapshot() == Dispatch(old(Snapshot()), value, control)
    {
      if !control {
        outCount := outCount + 1;
      }
      if IsErrorBag(value) {
        errCalls := errCalls + [value.bag.args];
      } else if IsLoopbackBag(value) {
        input := input + [value];
      } else {
        var i := 0;
        while i < |outputs|
          invariant 0 <= i <= |outputs| == |old(outputs)|
          invariant input == old(input) && errCalls == old(errCalls)
          invariant outCount == old(outCount) + if control then 0 else 1
          invariant forall k :: 0 <= k < i ==> outputs[k] == old(outputs)[k] + [value]
          invariant forall k :: i <= k < |outputs| ==> outputs[k] == old(outputs)[k]
        {
          outputs := outputs[i := outputs[i] + [value]];
          i := i + 1;
        }
        assert outputs == AppendEach(old(outputs), [value]);
      }
    }

    /** `kill`: refused before start and after stop; otherwise the node is
        killed and stops looping. */
    method Kill() returns (r: KillResult)
      modifies this`killed
      ensures r == if !started then NotStartedYet else if stopped then AlreadyStopped else Killed
      ensures killed == (old(killed) || r == Killed)
      ensures r == Killed ==> !ShouldLoop()
    {
      if !started {
        return NotStartedYet;
      }
      if stopped {
        return AlreadyStopped;
      }
      killed := true;
      r := Killed;
    }

    /** `handle_results(input_bag, results)`; `killAt` is the checkpoint just
        before which a concurrent `kill()` arrives, if any. */
    method HandleResults(inputBag: Bag, results: Results, killAt: Option<nat>) returns (outcome: Outcome)
      modifies this`input, this`outputs, this`errCalls, this`outCount, this`killed
      ensures Handled(Snapshot(), killed, outcome)
           == HandleSpec(old(Snapshot()), old(killed), started && !stopped, inputBag, results, killAt)
    {
      match results
      case Generator(elems) =>
        ghost var s0, canKill := old(Snapshot()), started && !stopped;
        ghost var stop := KillCheckpoint(|elems|, old(killed), killAt, canKill);
        ghost var u := FirstUnsplittable(elems);
        var i := 0;
        while true
          invariant i <= stop && i <= u
          invariant killed == old(killed)
          invariant Snapshot() == DispatchAll(s0, ResolveAll(inputBag, elems[..i]), false)
          decreases |elems| - i
        {
          if killAt == Some(i) {
            var _ := Kill();
          }
          if killed {
            break;
          }
          if i == |elems| {
            break;
          }
          var result := elems[i];
          if !Splittable(result) {
            DrainFails(s0, old(killed), canKill, inputBag, elems, killAt, i);
            return Raised(Ordinary);
          }
          DrainOneMore(s0, inputBag, elems, i);
          Send(BagItem(Resolve(inputBag, result)), false);
          i := i + 1;
        }
        DrainEnds(s0, old(killed), canKill, inputBag, elems, killAt, i);
        outcome := Completed;
      case Returned(value, truthy) =>
        if truthy {
          if !Splittable(value) {
            return Raised(Ordinary);
          }
          Send(BagItem(Resolve(inputBag, value)), false);
        }
        outcome := Completed;
    }

    /** `step()`: take one item off the input (counting it only once taken),
        run the transformation on it and handle what it returns. */
    method Step(transform: Bag -> Call, killAt: Option<nat>) returns (outcome: Outcome)
      modifies this`input, this`outputs, this`errCalls, this`outCount, this`killed, this`inCount
      ensures old(input) == [] ==>
        outcome == Raised(if inputAlive then Empty else InactiveReadable) &&
        Snapshot() == old(Snapshot()) && inCount == old(inCount) && killed == old(killed)
      ensures old(input) != [] ==> inCount == old(inCount) + 1
      ensures old(input) != [] ==>
        Handled(Snapshot(), killed, outcome)
        == StepSpec(old(Snapshot()).(input := old(input)[1..]), old(killed), started && !stopped,
                    old(input)[0], transform, killAt)
    {
      var got := Get();
      match got
      case NotDequeued(e) =>
        outcome := Raised(e);
      case Dequeued(item) =>
        match item
        case TokenItem(_) =>
          outcome := Raised(Ordinary);
        case BagItem(inputBag) =>
          match transform(inputBag)
          case Throws(e) =>
            outcome := Raised(e);
          case Returns(results) =>
            outcome := HandleResults(inputBag, results, killAt);
    }

    /** The `except` clauses of `loop` around one step: report the failure
        (`excInfo` is what `sys.exc_info()` gives), shut the input down after an
        unrecoverable one, and say whether the loop goes round again. */
    method AfterStep(outcome: Outcome, excInfo: seq<Value>) returns (keepLooping: bool)
      modifies this`errCalls, this`inputAlive
      ensures keepLooping == Policy(outcome).keepLooping
      ensures errCalls == old(errCalls) + if Policy(outcome).report then [excInfo] else []
      ensures inputAlive == (old(inputAlive) && !Policy(outcome).shutdownInput)
    {
      match outcome
      case Completed =>
        keepLooping := true;
      case Raised(InactiveReadable) =>
        keepLooping := false;
      case Raised(Empty) =>
        keepLooping := true;
      case Raised(Unrecoverable) =>
        errCalls := errCalls + [excInfo];
        inputAlive := false;
        keepLooping := false;
      case Raised(Ordinary) =>
        errCalls := errCalls + [excInfo];
        keepLooping := true;
      case Raised(Severe) =>
        errCalls := errCalls + [excInfo];
        keepLooping := false;
    }
  }
}
