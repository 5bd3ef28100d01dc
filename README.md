# bonobo node execution context, modelled in Dafny

This project models the worker behind one node of a bonobo graph
(`NodeExecutionContext` in `bonobo/execution/contexts/node.py`) and the
resolution protocol it uses to turn what a transformation returns into the Bag
it emits.

- `structs.dfy` (module `Structs`): the values in play. These are the tokens
  `BEGIN`, `END` and `NOT_MODIFIED`, transformation outputs (a Bag, a tuple, a
  token or any other object), bags with their error and loopback flags, and
  the queue items (bags and tokens).
- `resolution.dfy` (module `Resolution`): `isflag`, `split_tokens` and
  `_resolve` as functions. Lemmas state the split exactly: prefix plus rest is
  the tuple, the prefix is the maximal run of `NOT_MODIFIED`, and that split is
  the only one. They also state exactly when `_resolve` hands back the input
  bag.
- `routing.dfy` (module `Routing`): what `send` does, stated on values. Every
  sent item lands in exactly one place: the error handler, the node's own input
  or every output, in order. `out` counts every non-control send.
- `loop_policy.dfy` (module `LoopPolicy`): the exception tiers of `loop` as a
  decision table, plus `loop` run over a sequence of step outcomes.
- `node.dfy` (module `Node`): the class `NodeExecutionContext`. It has the
  fields `input`, `outputs`, `inCount`, `outCount`, `errCalls`, `killed`,
  `started`, `stopped` and `defunct`, and methods `Write`, `Get`, `Send`,
  `Kill`, `HandleResults`, `Step` and `AfterStep`. `Send`, `HandleResults`,
  `Step` and `AfterStep` tie the new state to a specification function
  (`Dispatch`, `HandleSpec`, `StepSpec`, `Policy`), and lemmas state the
  properties of those functions. `Write` ties its new state to `Enqueued`;
  `Get` and `Kill` state theirs directly.

How the source's dynamic features are represented:

- A generator is the finite sequence of values it yields.
- A single returned value carries its Python truthiness as a flag.
- Calling the transformation (`Bag.apply`) is a function parameter that
  either returns results or raises one of the exception kinds `loop` tells
  apart.
- A `kill()` from another thread is the parameter `killAt`: the checkpoint
  (the `_killed` test before pulling value number k) just before which it
  lands. `HandleResults` then calls `Kill` there.
- `split_tokens` indexes past the end of a tuple made only of flags. The worker
  treats that as the IndexError it is, an ordinary failure (see Findings).
- `Bag(x)` with a single argument follows Bag's shorthand (`NewBag`): a
  tuple's elements become the positional arguments, so `Bag(("x",))` is
  `Bag("x")`; any other value is the single positional argument. The new bag
  is unflagged.
- A token that reaches `step` is an ordinary failure, because calling `apply`
  on a token raises.
- The error handler is a log, `errCalls`, of the argument lists it receives.
  The `err` statistic is the length of that log.

A tuple whose only element is `NOT_MODIFIED` is evidently meant to pass the
input bag through, as the bare `NOT_MODIFIED` token does. The code
(node.py:182-184) instead indexes past the end of such a tuple. The model
follows the code; the intended behaviour is proved separately (see Findings).

## Model

| member | source | states |
|---|---|---|
| Resolution.IsFlag | bonobo/execution/contexts/node.py:163-164 | only tokens are flags, and a token is a flag iff it is `NOT_MODIFIED`, so `BEGIN` and `END` are not |
| Resolution.LeadingFlags | bonobo/execution/contexts/node.py:182-184 | the scan `while isflag(output[i])` stops at a non-flag index, and every index before it is `NOT_MODIFIED` |
| Resolution.SplitTokens | bonobo/execution/contexts/node.py:167-186 | a token splits to `((token,), ())` and a non-tuple to `((), (v,))`; a tuple splits into a prefix and a rest that concatenate to the tuple, where every prefix element is `NOT_MODIFIED` and the rest starts with a non-flag, even if later elements are tokens |
| Resolution.SplitTokensUnique | bonobo/execution/contexts/node.py:182-186 | any cut of a tuple into flags followed by a rest that starts with a non-flag is the cut `split_tokens` makes, so the prefix is the maximal leading run |
| Resolution.Resolve | bonobo/execution/contexts/node.py:189-206 | a Bag output is returned unchanged; bare `NOT_MODIFIED` gives the input bag; bare `BEGIN`/`END` give a new bag with no arguments; another object `v` gives a new bag whose one argument is `v`; a tuple gives the input bag on pass-through, and otherwise a new bag whose arguments are everything after the flag prefix |
| Resolution.PassThroughShapes | bonobo/execution/contexts/node.py:201-204 | the token prefix is exactly one `NOT_MODIFIED` iff the output is bare `NOT_MODIFIED`, or a tuple whose first element is `NOT_MODIFIED` and whose second is not a flag (both directions) |
| Resolution.ResolveIdentityIff | bonobo/execution/contexts/node.py:198-206 | `_resolve` returns its input bag, whatever that bag is, iff the output passes through; otherwise the result does not depend on the input bag |
| Resolution.ResolveIgnoresTrailingData | bonobo/execution/contexts/node.py:201-204 | after a single `NOT_MODIFIED` the data is ignored and the input bag is returned |
| Resolution.ResolveDoubleFlagWraps | bonobo/execution/contexts/node.py:201-206 | `(NOT_MODIFIED, NOT_MODIFIED, x, ...)` does not pass through: it gives a new bag with arguments `x, ...` |
| Resolution.SoleFlagTupleOverruns | bonobo/execution/contexts/node.py:182-184 | `(NOT_MODIFIED,)` and `()` lie outside the domain of `split_tokens` as written |
| Resolution.LeadingFlagsBounded | bonobo/execution/contexts/node.py:182-184 | the bounded scan stops at the first non-flag or at the end of the tuple |
| Resolution.SplitTokensBounded | bonobo/execution/contexts/node.py:167-186 | the bounded split concatenates back to the tuple with an all-flag prefix, and a non-empty rest starts with a non-flag |
| Resolution.ResolveBoundedAgrees | bonobo/execution/contexts/node.py:189-206 | the bounded resolution equals `_resolve` on every output where `_resolve` is defined |
| Resolution.ResolveBoundedAllFlags | bonobo/execution/contexts/node.py:182-206 | with the bounded scan, `(NOT_MODIFIED,)` passes the input bag through, and `()` or two or more flags alone give a new bag with no arguments |
| Routing.DispatchAllRoutes | bonobo/execution/contexts/node.py:69-86 | sending a sequence gives the error handler the arguments of the error bags, the node's own input the loopback bags, and every output all other items, each in send order; `out` grows by the number sent unless the sends are control sends |
| Routing.ErrorArgsOfErrors | bonobo/execution/contexts/node.py:80-81 | the error handler is called once per error bag, in send order, with that bag's arguments |
| Routing.RoutesPartition | bonobo/execution/contexts/node.py:80-86 | the three destinations partition what is sent (as multisets): each item goes to exactly one, none lost, none duplicated |
| LoopPolicy.Policy | bonobo/execution/contexts/node.py:102-119 | the loop continues exactly after a completed step, Empty or an ordinary Exception; it reports exactly UnrecoverableError, Exception and BaseException; it shuts its input down exactly on UnrecoverableError; it sleeps exactly on Empty |
| LoopPolicy.Run | bonobo/execution/contexts/node.py:102-119 | `loop` over a finite sequence of step outcomes takes at least one step when there is one, goes past a step only when `Policy` keeps looping after it, stops before the end only at a terminal step, reports at most once per step, and has shut its input down only if its last step was UnrecoverableError. The `while self.should_loop()` guard (node.py:103) appears only as where the outcome sequence ends |
| LoopPolicy.RunIsolatesFailures | bonobo/execution/contexts/node.py:102-119 | while no step ends terminally, the loop runs every step, reports each ordinary failure once and leaves its input open |
| LoopPolicy.RunStopsAtFirstTerminal | bonobo/execution/contexts/node.py:102-119 | the loop stops at the first terminal outcome; it reports that outcome unless it is InactiveReadableError, and it shuts the input down iff the outcome is UnrecoverableError |
| Node.AsMessage | bonobo/execution/contexts/node.py:59 | a Bag or a Token is enqueued unchanged; anything else becomes an unflagged bag, whose arguments are a tuple message's elements or else the message itself, so it never counts as an error or loopback bag |
| Node.ReturnedMessageRebuildsBag | bonobo/execution/contexts/node.py:198-206 | returning the written message (a plain value, or a tuple that does not start with `NOT_MODIFIED`) resolves to exactly the bag `write` enqueued for it, so an identity transformation re-emits `Bag("x")` for `write("x")` |
| Node.GeneratorSendsEveryValue | bonobo/execution/contexts/node.py:144-154 | a generator yielding N values with no kill gives N sends in yield order, each resolved against the same input bag, and `out` grows by N |
| Node.KillStopsDraining | bonobo/execution/contexts/node.py:145-150 | a kill observed before value k is pulled gives exactly k sends, and the node ends killed |
| Node.KilledPullsNothing | bonobo/execution/contexts/node.py:147-149 | once `killed` is set, no value is pulled from the generator and nothing changes |
| Node.ReturnedSendsAtMostOnce | bonobo/execution/contexts/node.py:155-160 | a truthy non-generator result gives exactly one send; a falsy one, the empty tuple included, gives no send and no counter change |
| Node.NodeExecutionContext.constructor | bonobo/execution/contexts/node.py:28-34 | a new node has the given input queue with its open flag, or an empty open one when none is given (`_input or Input()`), the given outputs, zero counters, and is not killed |
| Node.NodeExecutionContext.ShouldLoop | bonobo/execution/contexts/node.py:99-100 | true iff the node is neither defunct nor killed |
| Node.NodeExecutionContext.Write | bonobo/execution/contexts/node.py:52-59 | the input becomes the old input followed by the messages in order, each as `AsMessage` makes it; nothing else changes |
| Node.NodeExecutionContext.Get | bonobo/execution/contexts/node.py:90-97 | a non-empty input loses its head, which is returned, and `in` grows by one; an empty input raises Empty (open) or InactiveReadableError (shut) and leaves the counters unchanged |
| Node.NodeExecutionContext.Send | bonobo/execution/contexts/node.py:69-86 | the new input, outputs, error log and `out` are exactly `Dispatch` of the old ones; nothing else changes |
| Node.NodeExecutionContext.Kill | bonobo/execution/contexts/node.py:131-138 | refused if not started, then refused if already stopped, and `killed` is left unchanged; otherwise `killed` is set and `ShouldLoop()` becomes false |
| Node.NodeExecutionContext.HandleResults | bonobo/execution/contexts/node.py:140-160 | the new state, the `killed` flag and the outcome are exactly `HandleSpec` of the old state |
| Node.NodeExecutionContext.Step | bonobo/execution/contexts/node.py:121-129 | an empty input raises the queue's exception and changes nothing; otherwise `in` grows by one and the rest is `StepSpec` of the dequeued item |
| Node.NodeExecutionContext.AfterStep | bonobo/execution/contexts/node.py:104-119 | the `except` clauses of `loop`: the error log, the input's open flag and whether the loop continues follow `Policy` |

## Left out

- `__str__`, `__repr__` and `get_flags_as_string` (node.py:36-50) are
  terminal formatting with no logic.
- `write_sync` (node.py:61-64) depends on how the `Input` queue consumes
  `BEGIN`/`END` run levels. That queue is not part of this model, where a
  token at the head of the input reaches `step`.
- The `recv` and `push` aliases (node.py:67, 88) have no behaviour of their
  own.
- `loop` itself (node.py:102-119) needs a clock and a thread. Only its
  decision table (`Policy`, `Run`) and the body of its `except` clauses
  (`AfterStep`) are modelled.
- Node.NodeExecutionContext.Get: does not model blocking for up to `PERIOD`
  while another thread enqueues. An empty input fails at once.
- Node.NodeExecutionContext.Get: dequeues buffered items even after the input
  is shut down. Whether `Input` does so is decided by `Input`, which is not
  part of this model.
- The internals of `Input`, `Bag`, `handle_error`, `WithStatistics.increment`
  and `LoopingExecutionContext` are not part of this model. They become a
  sequence queue, a datatype, an argument log and plain counters. The
  lifecycle flags are set from outside through `SetStatus`.
- Resolution.Resolve: Bag's shorthand that turns a tuple ending in a dict into
  positional plus keyword arguments is not modelled, because keyword arguments
  are not; such a tuple's elements all become positional arguments.
- Bag keyword arguments, the `services` mapping and the parent context are
  passed through by the source without being read. They are not modelled.
- Outputs are value sequences owned by the node. A sink that is shared with
  another node, or that is this node's own input, is not aliased.
- A kill from another thread is modelled only at one generator checkpoint,
  `killAt`. A kill arriving during another part of `step` is not part of one
  call.
- Exceptions raised by a generator part-way through its iteration are not
  modelled. Exceptions raised by the transformation call itself are.
- Python truthiness of a returned value is given with the value, not computed.
- Node.NodeExecutionContext.constructor: a given input queue is always used,
  because `Input` defines no falsy value in this model; `_outputs or []` is the
  list of outputs as given, an absent list being the empty one.

## Findings

| source | as written | input that shows it | evidently intended | confidence | as-written member | corrected member |
|---|---|---|---|---|---|---|
| bonobo/execution/contexts/node.py:182-184 | `while isflag(output[i])` scans with no bound, so a tuple made only of `NOT_MODIFIED` flags indexes past its end and raises IndexError | `(NOT_MODIFIED,)`, and also `()` yielded by a generator | the scan stops at the end of the tuple, so `(NOT_MODIFIED,)` passes the input bag through and `()` gives a new bag with no arguments | high, not executed | Resolution.SoleFlagTupleOverruns | Resolution.ResolveBoundedAllFlags |

The worker keeps the behaviour as written: when a returned or yielded value
makes the scan overrun, `HandleResults` ends with an ordinary failure. By
`ResolveBoundedAgrees`, the corrected resolution gives the same result on every
other output.
