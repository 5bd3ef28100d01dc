/** How a node's `loop` reacts to the way one `step()` ended: the tiers of its
    exception handlers, as a decision table, and the loop run over a sequence
    of step outcomes. Sleeping and threads are not part of this model. */
module LoopPolicy {

  /** The exceptions `loop` tells apart: the queue's InactiveReadableError and
      Empty, UnrecoverableError, any other Exception, and a BaseException that
      is not an Exception (a cancellation signal, for one). */
  datatype Exception = InactiveReadable | Empty | Unrecoverable | Ordinary | Severe

  /** How one `step()` ended. */
  datatype Outcome = Completed | Raised(exc: Exception)

  /** What `loop` does next: report to the error handler, shut its own input
      down, sleep one period, and whether it goes round again. */
  datatype Action = Action(report: bool, shutdownInput: bool, pause: bool, keepLooping: bool)

  /** The `except` clauses of `loop`, in order. */
  function Policy(o: Outcome): (a: Action)
    ensures a.keepLooping <==> o in {Completed, Raised(Empty), Raised(Ordinary)}
    ensures a.report <==> o in {Raised(Unrecoverable), Raised(Ordinary), Raised(Severe)}
    ensures a.shutdownInput <==> o == Raised(Unrecoverable)
    ensures a.pause <==> o == Raised(Empty)
  {
    match o
    case Completed => Action(false, false, false, true)
    case Raised(InactiveReadable) => Action(false, false, false, false)
    case Raised(Empty) => Action(false, false, true, true)
    case Raised(Unrecoverable) => Action(true, true, false, false)
    case Raised(Ordinary) => Action(true, false, false, true)
    case Raised(Severe) => Action(true, false, false, false)
  }

  /** Where a run of `loop` ends: how many steps it took, how many failures it
      reported, and whether it shut its own input down. */
  datatype RunResult = RunResult(steps: nat, reported: nat, inputShutDown: bool)

  /** `loop` fed the outcomes of its successive steps, for as long as they last.
      It takes at least one step when there is one, goes past a step only when
      that step lets it keep looping, stops before the end only at a terminal
      step, and has shut its input down only if its last step was unrecoverable. */
  function Run(os: seq<Outcome>): (r: RunResult)
    ensures os != [] ==> 1 <= r.steps
    ensures r.steps <= |os| && r.reported <= r.steps
    ensures forall i :: 0 <= i < r.steps - 1 ==> Policy(os[i]).keepLooping
    ensures 0 < r.steps < |os| ==> !Policy(os[r.steps - 1]).keepLooping
    ensures r.inputShutDown ==> 0 < r.steps && os[r.steps - 1] == Raised(Unrecoverable)
  {
    if os == [] then RunResult(0, 0, false)
    else
      var a := Policy(os[0]);
      var here := if a.report then 1 else 0;
      if !a.keepLooping then RunResult(1, here, a.shutdownInput)
      else
        var rest := Run(os[1..]);
        RunResult(1 + rest.steps, here + rest.reported, rest.inputShutDown)
  }

  /** Fault isolation: as long as no step ends terminally, `loop` goes through
      every step, reports each ordinary failure once and keeps its input open. */
  lemma {:induction false} RunIsolatesFailures(os: seq<Outcome>)
    requires forall o <- os :: Policy(o).keepLooping
    ensures Run(os) == RunResult(|os|, multiset(os)[Raised(Ordinary)], false)
  {
    if os != [] {
      assert os == [os[0]] + os[1..];
      assert os[0] in os;
      RunIsolatesFailures(os[1..]);
    }
  }

  /** `loop` stops at the first terminal outcome: it reports it unless it is
      the queue becoming inactive, and shuts its input down only for an
      unrecoverable failure. */
  lemma {:induction false} RunStopsAtFirstTerminal(before: seq<Outcome>, last: Outcome, after: seq<Outcome>)
    requires forall o <- before :: Policy(o).keepLooping
    requires !Policy(last).keepLooping
    ensures Run(before + [last] + after) == RunResult(
      |before| + 1,
      multiset(before)[Raised(Ordinary)] + (if last == Raised(InactiveReadable) then 0 else 1),
      last == Raised(Unrecoverable))
  {
    var os := before + [last] + after;
    if before == [] {
      assert os[0] == last;
    } else {
      assert before[0] in before;
      assert os[0] == before[0];
      assert os[1..] == before[1..] + [last] + after;
      assert before == [before[0]] + before[1..];
      RunStopsAtFirstTerminal(before[1..], last, after);
    }
  }
}
