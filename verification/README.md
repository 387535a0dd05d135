# Verified models of httpaux

httpaux is a set of helpers around Go's `net/http`. This project models the parts of it that
hold state, concurrency or arithmetic, and proves properties of them for all inputs, all runs
and all interleavings.

| files | what they model |
|---|---|
| `GateSpec`, `GateMachine`, `GateOrder`, `GateProgress`, `GateObject` | the gate: its sequential meaning, every interleaving of unboundedly many calls, the order of callbacks, termination, and the object one call at a time |
| `Limiter` | the request limiter and its middleware: every interleaving, and the object |
| `HeaderSpec`, `HeaderSlices`, `HeaderObject`, `HeaderAliasing`, `HeaderSession`, `HeaderAlgebra` | the immutable Header: as a sorted multimap, as slices over backing arrays, its operations, maps whose slices share arrays, whole client programs, and its laws |
| `RetryClient`, `RetryTrace`, `Intervals` | the retry loop over an environment that may do anything it is allowed to, what that environment sees, and the arithmetic of the waits |
| `Observe` | the observing response writer over any sequence of calls |
| `RoundTrip` | chains of round-tripper constructors that keep CloseIdleConnections |
| `ErrauxFields`, `Erraux`, `ErrauxRules`, `ErrauxCode`, `ErrauxResponse` | the JSON fields of errors, the encoder, its rules and their laws, the code field, and where each part of a response comes from |
| `RequestChecker` | the header matcher and the header asserter of `httpmock` |

`Options` and `Sequences` hold an option type and a fact about concatenation. Check everything with `dafny verify dfyconfig.toml`.

How the models are built:

- Gate and limiter are transition systems. A call is a thread with a program counter, one step
  is one atomic action or one callback, new calls arrive at any time. `run` is any finite
  sequence of such steps. In the gate, a call is put into the linearization `lin` at the step
  where it takes effect; `Linearizes` then relates `lin` to the invocations and returns that
  the callers saw, so nothing depends on that choice.
- Code that changes things in place is a class or a method over arrays, proved against functions
  of the old state. Helper methods that the Go code writes inline (`HeaderSlices.Search` is the
  binary search of `add`, `RetryClient.Client.Retry` is the body of the loop in `Do`, with `Wait` and
  `Try` as its parts, `Erraux.EncodeFallback` the end of `Encode`) have their own contracts.
- Around the retry client stands an environment: the decorated client, the check, GetBody, the
  timers, the select and the context. Its methods may do anything they are allowed to, and each puts
  its call into the environment's trace; the client only calls them, and its contract is about that
  trace.
- `CanonicalHeaderKey` is any idempotent function on strings, and the iteration order of a Go map
  is any order that lists each key once.
- Floating point is any monotone rounding of the nonnegative reals with a relative error of at
  most `unit`. With `unit` zero the arithmetic is exact.
- Integers are unbounded, except where int64 is written out: the counter of the limiter and the
  content length wrap around, and that every duration fits is a theorem.

Where the documentation and the code disagree, the model follows the code:

- A `RequestChecker` promises that `Match` and `Assert` accept the same requests. The header
  checker keeps this exactly for expected lists without duplicates (`RequestChecker.AgreeIffDistinct`).
- The wait before retry n is documented as Interval*Multiplier^n within a jitter window. With exact
  arithmetic this is met exactly when the formula gives whole nanoseconds (`Intervals.FormulaMetIff`,
  `Intervals.WindowMetIff`). Otherwise rounding at every retry makes it an approximation, whose error
  is bounded, and the bound is attained (`Intervals.BaseClose`, `Intervals.WaitWindow`,
  `Intervals.FormulaNotMet`).
- `AddTo` is documented to add each name and value. Where names of the map share an array with spare
  capacity, an append in place may overwrite a value under another name; `HeaderAliasing.AddToExactIff`
  says exactly for which maps it does not.
- The headers set on an `As` rule are documented as added to the error's. They are overwritten by
  the error's where both have a name (`ErrauxRules.AsHeadersAddedIff`, `ErrauxRules.HeaderReplaced`);
  an `Is` rule does add.
- The JSON field `code` is documented to be the status written. A field of that name, supplied by the
  error or set on an `Is` rule after its last status, replaces it (`ErrauxCode.CodeIsStatusIff`,
  `ErrauxCode.StaleCode`).
- The limiter may turn a request away with no request admitted at all, while another one is being
  rolled back (`Limiter.RejectsWithAllSlotsFree`, `Limiter.TurnedAwayIffFull`).

## Model

| member | source | states |
|---|---|---|
| GateMachine.NextKeepsInv | gate/gate.go:221-273 | every step of every call, and every new call, keeps the invariant: one call at most is past the mutex, its remaining callbacks match the value, and letting it finish gives the sequential replay of the calls that took effect |
| GateMachine.RunInv | gate/gate.go:191-273 | the invariant holds in every state of every run |
| GateMachine.InvLinearizes | gate/gate.go:245-273 | the calls that took effect linearize what callers saw: each returned call is there once with its result, in real-time order |
| GateMachine.LegalIsAtomic | gate/gate.go:245-273 | a legal sequence of calls is answered as one atomic boolean would: Open and Close return true exactly for the call that made the change |
| GateMachine.GateIsLinearizable | gate/gate.go:245-273 | in every interleaving, unlocked early returns included, the history is linearizable to one atomic boolean, and successful opens and closes strictly alternate from the initial value to the present one |
| GateMachine.HooksHearEverything | gate/gate.go:198-243 | in every reachable state, a hook has received exactly the values since it was added, up to one callback owed by the holder of the mutex; exact whenever the mutex is free |
| GateMachine.FullHooksAlternate | gate/gate.go:41-57 | in every reachable state, a hook with both callbacks has heard a strictly alternating sequence from the value when it was added, lacking at most the last value since; with the mutex free it ends with the present one |
| GateMachine.CallbacksReadTheirKind | gate/gate.go:35-39 | during a callback the gate reads as the callback's kind, and no two callbacks overlap |
| GateOrder.CallbacksInOrder | gate/gate.go:35-39 | in every reachable state, the log is one part for each value so far, the last one up to some point while the mutex is held: in each part, every hook that is there and has such a callback is called once, configured hooks by increasing index, then registered ones in the order in which their Registers took effect |
| GateOrder.CallsInOrder | gate/gate.go:191-273 | the same over any legal sequence of calls, with nothing outstanding |
| GateSpec.HookHistory | gate/gate.go:198-243 | over any legal sequence of calls, each hook, configured or registered, hears exactly the values since it was added, restricted to the callbacks it has |
| GateSpec.FullHookAlternates | gate/gate.go:41-57 | a full hook hears an alternating sequence that starts at its registration and ends with the current value |
| GateSpec.ReplayShape | gate/gate.go:191-243 | after any legal calls the value is the last epoch, the epochs alternate, and the callback lists hold only registered hooks, each once |
| GateProgress.StepLowersRank | gate/gate.go:221-273 | every step lowers a measure that allows for lists still growing through pending Registers |
| GateProgress.NoDeadlock | gate/gate.go:233-273 | while a call is unfinished, it or the holder of the mutex can move |
| GateProgress.AllCallsFinish | gate/gate.go:221-273 | from every reachable state, every schedule without new calls is finite, and one that cannot go on has finished every call and freed the mutex |
| GateObject.Gate.constructor | gate/gate.go:191-219 | New: the gate has the initial value, and the callbacks that have run are those configured for it, by increasing index, once each |
| GateObject.Gate.Open | gate/gate.go:245-258 | one call, alone, does what the sequential meaning says, callbacks included |
| GateObject.Gate.Close | gate/gate.go:260-273 | likewise for Close |
| GateObject.Gate.Register | gate/gate.go:221-243 | an empty hook changes nothing; otherwise both lists grow and the callback of the present kind runs |
| Limiter.NextKeepsInv | busy/limiter.go:51-69 | every step keeps: counter = admitted requests + rejected ones not yet rolled back, at most the maximum admitted |
| Limiter.AtMostMaxHandled | busy/limiter.go:57-69 | in every interleaving the counter is that sum, and at most MaxRequests handlers are inside next |
| Limiter.TurnedAwayIffFull | busy/limiter.go:57-69 | in every run, a request past the comparison is turned away if and only if MaxRequests is positive and, at its increment, the admitted and the not yet rolled back had reached it |
| Limiter.FateDecided | busy/limiter.go:62-66 | what the increment of a request finds decides its fate in all later states |
| Limiter.RejectedIffFull | busy/limiter.go:57-64 | the increment itself: it passes the maximum exactly when that sum had reached it, and, with nobody being rolled back, when the admitted had |
| Limiter.IncrementCounts | busy/limiter.go:62-63 | the increment returns one more than that sum, without overflow |
| Limiter.CounterRestored | busy/middleware.go:45-54 | once every request has finished, panicking or not, the counter is back at its start |
| Limiter.AdmittedRunsNext | busy/middleware.go:45-54 | in every run, a request that is past next, done or not, was inside it and left it exactly once, in the way recorded, and was not turned away; one that is done without being admitted was turned away and never inside next |
| Limiter.RejectsWithAllSlotsFree | busy/limiter.go:62-66 | a run in which a request is about to be rejected although none is admitted |
| Limiter.MaxRequestLimiter.Check | busy/limiter.go:57-69 | alone, a request is admitted iff the limit is off or a slot is free, and the counter moves only then |
| Limiter.MaxRequestLimiter.ServeHTTP | busy/middleware.go:45-54 | whether next panics or not, the counter ends where it began, and next runs iff a slot was free |
| HeaderSpec.Unique | header.go:20-22 | a strictly sorted list without empty entries is determined by its multimap |
| HeaderSpec.PositionBetween | header.go:58-61 | in a sorted list the insertion point is fixed by its two neighbours |
| HeaderSpec.InsertLookup | header.go:52-80 | inserting keeps the list sorted and appends the values to exactly the given name |
| HeaderSpec.AddAllValid | header.go:52-80 | any sequence of adds keeps the list strictly sorted, canonical and without empty entries |
| HeaderSpec.AddAllMeans | header.go:52-80 | after any sequence of adds, each name holds its old values and then all values given for it, in order |
| HeaderSlices.Clone | header.go:31-40 | a new backing array with room for at least the capacity asked, the same entries |
| HeaderSlices.Search | header.go:58-61 | the binary search finds the insertion point |
| HeaderSlices.OpenGap | header.go:63-67 | the overlapping shift in place opens a gap and keeps every entry |
| HeaderSlices.Add | header.go:52-80 | panics exactly when a new entry is needed and no capacity is left; else the entries are the specified ones, only the array of entries is written, and values stay clear of foreign arrays |
| HeaderObject.Append | header.go:110-124 | never panics; the entries for the iteration order taken; the argument itself if there is nothing to append, else a fresh array |
| HeaderObject.AppendMap | header.go:132-146 | likewise for single values: each name gains the value of every key with that canonical name, once; without collisions, each key's name ends with its value, and no other name changes |
| HeaderObject.AppendHeaders | header.go:154-173 | likewise for pairs; the reserved capacity suffices for odd lengths too |
| HeaderObject.Extend | header.go:181-197 | the union; one of its two arguments itself when the other is empty |
| HeaderObject.SetTo | header.go:226-230 | each name of the map is set to a copy of the values |
| HeaderObject.AddTo | header.go:234-238 | the values are appended in the map, in place where capacity allows, and this Header is unchanged; the map holds what these appends leave in arrays that names may share |
| HeaderAliasing.AddToExactIff | header.go:234-238 | the map holds each name's values with the Header's appended, for every Header, if and only if a slice under a canonical name with spare capacity shares its array at most with slices, no longer than it, under names that are not canonical |
| HeaderAliasing.SafeIsExact | header.go:234-238 | a safe map stays safe, and appends in place leave what appending to each name on its own leaves |
| HeaderAliasing.Misses | header.go:236-236 | on any other map, a Header of one or two fields whose appends overwrite a value under another name |
| HeaderSession.Step | header.go:110-238 | one operation of a client: what all Headers show afterwards is what the operation gives on values, writes through client slices included |
| HeaderSession.StageMeans | header.go:110-197 | what the Header built by an operation shows, name by name: the values of the receiver and then those of the map, the pairs or the other Header |
| HeaderSession.Run | header.go:82-94 | immutability and refinement: for any program, every Header shows at the end what it showed when built, and what it showed is AddAll or Extend of what its operands showed at that stage; a first Append is given what its map holds; the final state is one to run the next program from |
| HeaderSession.RunThen | header.go:82-94 | two programs in a row: nothing in the second changes what a Header showed in between, and a Header it builds by a first Append shows at the end what that Append gives on the map's contents in between |
| HeaderSession.StagesGrow | header.go:82-94 | what a Header shows at one stage it shows at every later one |
| HeaderAlgebra.ExtendMeans | header.go:181-197 | Extend is the union of the two multimaps, values of the receiver first |
| HeaderAlgebra.ExtendAssociative | header.go:181-197 | Extend is associative, with the empty Header as identity |
| HeaderAlgebra.AddToMeans | header.go:234-238 | AddTo appends to each name, and adds only names of the Header |
| HeaderAlgebra.SetToMeans | header.go:226-230 | SetTo replaces the names of the Header and no others |
| HeaderAlgebra.AddToExtend | header.go:181-238 | AddTo of an extended Header is AddTo of the one and then of the other |
| HeaderAlgebra.AppendOrderIrrelevant | header.go:110-124 | any two iteration orders give the same Header if canonical names do not collide, and the same values with the same counts per name if they do |
| HeaderAlgebra.AppendMeans | header.go:110-124 | Append adds to each name the value lists of all keys with that canonical name, in some order of the keys, and nothing else |
| HeaderAlgebra.AppendMapMeans | header.go:132-146 | likewise for single values, said of the values themselves |
| HeaderAlgebra.NewHeaderUndoesSetTo | header.go:202-230 | NewHeader of what SetTo writes into an empty map is the Header itself, for any iteration order |
| HeaderAlgebra.PairsAt | header.go:154-173 | the k-th pair of AppendHeaders; an odd last name gets a blank value |
| RetryClient.Client.Do | retry/client.go:127-177 | for every behaviour of the environment: the calls made on it are exactly those of a sound run, in order; Do ends with the last result, the context error or a GetBodyError; every response in the trace that is not returned is drained and closed exactly once, and the returned one is untouched; every timer in it fired, or was stopped when the context was chosen |
| RetryClient.Client.AttemptsBounded | retry/client.go:127-177 | the trace of a run holds between 1 and 1+Retries attempts, and one timer for each turn |
| RetryClient.Client.EachClosedOnce | retry/client.go:144-168 | the bodies closed in the trace are those of all attempts, in order and each once, but for the last one's if its response is returned |
| RetryTrace.DoAsSeen | retry/client.go:127-177 | what the environment sees: which call may follow which; every attempt is given its number, the last result without its body, and the body of GetBody or else the original one; the check is given the last result; a failed GetBody ends Do with its error, a stopped timer or a retry with the context done with the context error, and anything else with the last result; without a retry left, and only then, a verdict to retry is the last call |
| RetryTrace.WaitsAsDocumented | retry/config.go:31-49 | the timers started are given, one by one, the documented waits |
| RetryClient.RunParts | retry/client.go:127-177 | the attempts and the timers of a run are exactly those in its trace |
| RetryClient.Client.LateGivesUp | retry/client.go:146-168 | after a wait entered with the context done there is at most one more attempt and no response, with the context error or a GetBodyError |
| RetryClient.Client.Retry | retry/client.go:139-173 | one turn of the loop: the calls made in order, a new timer that fires or is stopped, the previous response disposed of, at most one attempt that sees its number and the previous result without body and carries the body of this turn's GetBody |
| RetryClient.Client.Try | retry/client.go:164-173 | one retry: the response is disposed of, and not checked, exactly when the context is done by then |
| RetryClient.Client.Wait | retry/client.go:140-154 | a timer is started with a wait in its window, then the previous response is drained, closed and remembered without its body, and then the select begins: the trace grows by just these, in this order |
| RetryClient.Client.TurnRecorded | retry/client.go:139-173 | a sound turn keeps a run sound: attempts distinct, results handed on, all turns before the last going on |
| RetryClient.TurnSettles | retry/client.go:144-173 | after a turn, all bodies but a returned one are disposed of |
| RetryClient.Environment.Select | retry/client.go:148-155 | the context is chosen only when it is done; when both are ready either may be |
| RetryClient.State.PrepareNext | retry/context.go:53-62 | the attempt is counted, the body drained, closed and removed, the rest remembered |
| RetryClient.Cleanup | client.go:23-28 | drained and closed once; nothing without a response or a body |
| Intervals.NewIntervals | retry/intervals.go:52-107 | no interval without retries; else each interval is the planned one |
| Intervals.Duration | retry/intervals.go:39-45 | the wait lies in the window, and the random source is asked for a positive range only |
| Intervals.WindowIsNonempty | retry/intervals.go:81-103 | every window starts at or above zero and holds at least one wait |
| Intervals.WindowIsExact | retry/intervals.go:39-45 | the waits that can occur are exactly the window, both ends included |
| Intervals.BaseClose | retry/intervals.go:60-76 | base k is within an explicit drift of Interval*Multiplier^k |
| Intervals.ExactDrift | retry/intervals.go:71-75 | with exact products that drift is half the sum of Multiplier^j for j < k |
| Intervals.WaitWindow | retry/config.go:31-49 | every wait lies in the documented jitter window around Interval*Multiplier^k, up to an explicit error of all roundings |
| Intervals.WaitIsDocumented | retry/config.go:24-54 | the same for the Interval, Multiplier and Jitter as configured, with five seconds, one and no jitter where they are out of range |
| Intervals.ExactWindow | retry/config.go:31-49 | the same with exact products, where the factors are the documented ones |
| Intervals.FormulaMetIff | retry/config.go:31-33 | with exact arithmetic, the waits before the first n retries are Interval*Multiplier^k if and only if all of these are whole |
| Intervals.WindowMetIff | retry/config.go:36-49 | with exact arithmetic and jitter, both ends of the windows are the documented ones if and only if these and the values of the formula are whole |
| Intervals.WholeMultiplierMeets | retry/config.go:40-44 | a whole Multiplier meets the formula at every retry |
| Intervals.FormulaNotMet | retry/config.go:31-33 | a configuration whose wait is not the documented one, and where the error bound is attained |
| Intervals.WaitsGrow | retry/intervals.go:71-103 | for a configuration with Multiplier >= 1 whose peak is within the integers that floating point holds exactly, no wait and neither end of a window shrinks from one retry to a later one |
| Intervals.BasesGrow | retry/intervals.go:71-103 | likewise for any bound on the bases within those integers |
| Intervals.BasesGrowExactly | retry/intervals.go:71-103 | likewise with exact arithmetic, without any bound |
| Intervals.BaseBelowPeak | retry/intervals.go:60-76 | every base is at most the peak |
| Intervals.EverythingFits | retry/intervals.go:52-107 | if the peak fits int64, so does every base, window end, window size and wait |
| Intervals.PeakBound | retry/intervals.go:52-107 | with exact products the peak is at most (Interval + (Retries-1)/2) * max(1,Multiplier)^(Retries-1) * (1+Jitter) |
| Observe.ResponseWriterDecorator.OnWriteHeader | observe/observe.go:75-84 | the callbacks fire at once with the status if there is one, and are kept in order otherwise |
| Observe.ResponseWriterDecorator.WriteHeader | observe/observe.go:97-109 | fields and events are those of the longer call history: callbacks first, then the delegate, repeats forwarded |
| Observe.ResponseWriterDecorator.Write | observe/observe.go:86-95 | likewise, with the implicit header and the count of the delegate added |
| Observe.ResponseWriterDecorator.Flush | observe/observe.go:115-122 | likewise |
| Observe.ResponseWriterDecorator.ReadFrom | observe/observe.go:144-153 | likewise |
| Observe.ResponseWriterDecorator.ContentLength | observe/observe.go:71-73 | the sum of the counts the delegate returned, modulo int64 wrap-around |
| Observe.ResponseWriterDecorator.StatusCode | observe/observe.go:67-69 | zero, and from the first header on the first status code |
| Observe.CallbacksFireOnce | observe/observe.go:75-109 | once there is a status, the callbacks fired are all those ever registered, in order of registration, once each, with that status; before, none |
| Observe.DelegateSeesHeaderFirst | observe/observe.go:86-153 | the delegate sees a header first and otherwise exactly the calls made |
| Observe.NothingTakenBack | observe/observe.go:97-109 | the first status never changes, and events are only added |
| Observe.OneMore | observe/observe.go:75-153 | what one more call adds to events, status, registrations and counts |
| Observe.EachCall | observe/observe.go:75-153 | call by call: what is registered before a header is kept; the first call that needs a header fires what has been registered, writes the header, its own or 200, and follows itself; then registrations fire at once with that status and all other calls go to the delegate |
| Observe.StatusIs | observe/observe.go:86-109 | the status is that of the first call that needs a header, 200 unless it is WriteHeader |
| RoundTrip.PreserveMeans | roundtrip/roundTripper.go:59-76 | RoundTrip is the decorator's, CloseIdleConnections the decorator's or else next's, and the shortcut is observably plain nesting |
| RoundTrip.CloseIsOutermost | roundtrip/middleware.go:76-94 | a chain exposes CloseIdleConnections iff next or some constructor's output does, and runs the outermost such output's, else next's |
| RoundTrip.ShortcutUnobservable | roundtrip/roundTripper.go:62-67 | over a whole chain of constructors that respect observation, the shortcut cannot be observed |
| RoundTrip.ShortcutKeepsFlat | roundtrip/roundTripper.go:62-67 | with the shortcut a chain does not deepen the path to CloseIdleConnections |
| RoundTrip.TripUnchanged | roundtrip/middleware.go:83-91 | preserving CloseIdleConnections does not change what RoundTrip does |
| RoundTrip.ThenComposes | roundtrip/middleware.go:48-94 | Then of an appended chain is the composition of the Thens, for every outer chain, iff the inner Then is not nil |
| RoundTrip.NilIff | roundtrip/middleware.go:76-94 | when Then gives nil |
| RoundTrip.NewChain | roundtrip/middleware.go:37-44 | a private copy of the constructors |
| RoundTrip.Append | roundtrip/middleware.go:48-58 | the concatenation in a fresh array, or the chain itself |
| RoundTrip.Extend | roundtrip/middleware.go:62-64 | the concatenation of the two chains |
| RoundTrip.Then | roundtrip/middleware.go:76-94 | the reverse loop computes the right fold, with the default transport for nil |
| ErrauxFields.Fields.Add | erraux/errorFielder.go:108-118 | the pairs are added in order, up to a name that is not a string, where it panics |
| ErrauxFields.Fields.Append | erraux/errorFielder.go:122-134 | the fields flattened in some order, each once |
| ErrauxFields.Fields.Merge | erraux/errorFielder.go:96-100 | the other map wins, whatever the iteration order |
| ErrauxFields.Fields.Clone | erraux/errorFielder.go:86-93 | a distinct map with the same fields |
| ErrauxFields.AddedPanics | erraux/errorFielder.go:108-118 | Add panics exactly when some name is not a string |
| ErrauxFields.AddedMeans | erraux/errorFielder.go:108-118 | each name gets the last value given to it, a missing last value being nil |
| ErrauxFields.AddUndoesAppend | erraux/errorFielder.go:95-134 | adding what Append flattened is Merge, for every order |
| ErrauxFields.ErrorFields | erraux/error.go:84-92 | the fields flattened, and the message last |
| ErrauxFields.MarshalJSON | erraux/error.go:97-105 | code and cause, overridden by the fields, overridden by the message |
| ErrauxFields.FieldedMeans | erraux/error.go:97-105 | each field: the message if there is one, else the error's own, else the code, 500 if it is below 100, and the cause |
| ErrauxFields.ErrorFieldsAgree | erraux/error.go:84-105 | adding ErrorFields in any iteration order gives the map MarshalJSON builds |
| Erraux.Encode | erraux/encoder.go:398-433 | the response is that of the first rule that handles the error, or the fallback; rules before it leave the response untouched |
| Erraux.EncodeIs | erraux/encoder.go:134-158 | matches by identity anywhere in the chain; the precomputed response, or nothing |
| Erraux.EncodeStatusAndHeaders | erraux/encoder.go:210-232 | matches the first link of the type; the rule's headers overwritten by the error's, and the status |
| Erraux.EncodeAs | erraux/encoder.go:239-260 | the body is made from a copy of the rule's fields |
| Erraux.EncodeFallback | erraux/encoder.go:415-432 | headers, status and fields of the error itself |
| ErrauxResponse.FallbackResponse | erraux/encoder.go:398-433 | no rule fits: the status is that of the first link with one, 500 if it is below 100 or there is none; each header is the first Headerer's, else the JSON content type, else as it was; each field is the first ErrorFielder's, else the status or the cause, which is the error's text if no link has one; no body if bodies are off, and a panic for a name that is not a string |
| ErrauxResponse.AsResponse | erraux/encoder.go:210-260 | the first rule that fits is an As rule: likewise for the error from the first link of the type on, with the rule's status if it is at least 100, its headers and fields where the error has none, and its cause before the error's |
| ErrauxResponse.IsResponse | erraux/encoder.go:134-158 | the first rule that fits is an Is rule: its status, its headers and its body |
| ErrauxResponse.IsRuleOf | erraux/encoder.go:189-201 | what Is takes from its target: status, headers and fields, link by link |
| ErrauxRules.EncodedOnce | erraux/encoder.go:398-433 | the header is written exactly once, then at most one body |
| ErrauxRules.NewIs | erraux/encoder.go:189-201 | the rule is that of the target's own status, headers, cause and fields, and it panics iff a field name is not a string |
| ErrauxRules.NewAs | erraux/encoder.go:303-327 | a rule on which nothing is set, or a panic for a target that is neither an interface pointer nor an error |
| ErrauxRules.IsEncoder.StatusCode | erraux/encoder.go:160-164 | the status and the code field change together |
| ErrauxRules.AsEncoder.StatusCode | erraux/encoder.go:262-269 | only the status changes |
| ErrauxRules.Add | erraux/encoder.go:356-368 | each rule is compiled with the body setting in force, after the rules already there |
| ErrauxRules.Precedence | erraux/encoder.go:398-421 | for every response and every name: the error's header wins, then the rule's, then the JSON content type, then what was there; the status written is the rule's, unless an As rule leaves it below 100, else the error's |
| Erraux.Matched | erraux/encoder.go:210-218 | an As rule finds the first link of its type, with what that unwraps to |
| ErrauxRules.OverwriteMeans | erraux/encoder.go:219-221 | setting canonical names one by one leaves the last value of each |
| ErrauxRules.HeadersAgreeIffClean | erraux/encoder.go:192-192 | an Is rule sets the headers the fallback sets, for all iteration orders and responses, iff the names are canonically distinct and every value list is nonempty |
| ErrauxRules.IsIsFallback | erraux/encoder.go:134-201 | under that condition a bare Is rule renders its target as the fallback does |
| ErrauxRules.AsIsFallback | erraux/encoder.go:210-260 | a bare As rule renders the matched error as the fallback does, panics included |
| ErrauxRules.AsFieldPrecedence | erraux/encoder.go:245-256 | the error's own fields win, then the status, then the rule's cause or the error's, then the rule's fields |
| ErrauxRules.AsHeadersAddedIff | erraux/encoder.go:106-110 | the rule's headers are added to the matched error's, for all iteration orders and responses, if and only if the error's names are canonically distinct with nonempty values and none is also set on the rule |
| ErrauxRules.HeaderReplaced | erraux/encoder.go:216-221 | an error and a rule that set one name: the response has the error's value alone |
| ErrauxRules.BodyAffectsOnlyLater | erraux/encoder.go:343-359 | Body changes nothing for the rules already there, and of the fallback only whether there is a body |
| ErrauxCode.CodeIsStatusIff | erraux/encoder.go:374-376 | over Encode: the code in the body is the status written if and only if the code field was written last by a status code, or by a field that equals the status of the rule or of the error; for an Is rule over any sequence of calls on it |
| ErrauxCode.DraftCode | erraux/encoder.go:160-201 | the status and the code field of an Is rule after any calls |
| ErrauxCode.DraftValid | erraux/encoder.go:172-201 | the headers of an Is rule stay sorted, canonical and without empty entries under any calls |
| ErrauxCode.Configure | erraux/encoder.go:160-201 | Is followed by any calls on the rule gives the drafted rule, and panics exactly when a field name is not a string |
| ErrauxCode.StaleCode | erraux/encoder.go:374-376 | an error without fields and a rule with a field named "code": status 500, code 7 |
| ErrauxRules.ErrorRendersAsItMarshals | erraux/error.go:94-105 | an *Error, under any plain wrapping, is rendered by the fallback with its status and headers, and with the body that MarshalJSON builds |
| RequestChecker.Match | httpmock/requestChecker.go:136-157 | accepts iff the lengths agree and every expected value occurs; exactly multiset equality if the expected values are distinct |
| RequestChecker.MatchIsElementsMatch | httpmock/requestChecker.go:136-165 | the pigeonhole: for distinct expected values the matcher and the asserter agree |
| RequestChecker.SameElementsMatch | httpmock/requestChecker.go:136-165 | equal multisets always match |
| RequestChecker.AgreeIffDistinct | httpmock/requestChecker.go:49-58 | matcher and asserter agree on all requests iff no expected value is repeated |

## Left out

- WaitsGrow: for configurations whose peak is within the integers that floating point holds exactly, because the code rounds the base to float64 before it multiplies, and a base above 2^53 may be rounded down.
- FormulaMetIff: with exact arithmetic; with a rounding other than the identity the condition would be on that rounding.
- EverythingFits: for the idealised rounding with relative error, because binary64 subnormals and overflow are not modelled; products that leave int64 have no claim.
- AddTo: in `HeaderObject`, a new array of the built-in append has no capacity to spare; more would be seen under that one name only.
- Run: the client's maps are not followed on values over a program; that an Append is given what its map holds is stated for the first operation and, by starting a program there, for any other (`RunThen`).
- NewAs: which types are interface pointers or errors is an input, because reflection is not modelled.
- Extend: in `RoundTrip`, the constructors are total functions on values; a nil constructor, which panics when called, is not modelled.
- Then: a constructor's effects other than its result are not modelled.
- ShortcutUnobservable: for constructors that treat alike what no method call can tell apart; a constructor that inspects the dynamic type of its argument may see the shortcut.
- Encode: error chains are nonempty, finite and linear, without custom Is or As methods or joined errors; the JSON text and its write errors are not modelled, a body is the field map.
- Add: in `ErrauxRules`, rules and rule lists are values once added; two extensions of one Encoder sharing a backing array, and rules changed after being added, are not modelled.
- Append: in `ErrauxFields`, the growth of the slice and writes into its spare capacity are not modelled.
- Do: the decorated client is assumed to return a new response with a new body, and not to touch earlier ones; real timers and clocks, contexts other than the request's, the default check and Then of the retry client are not modelled.
- GateIsLinearizable: callbacks are assumed to terminate, not to panic and not to call the gate, as its comments require; they are steps that only leave a record. The value is a boolean, not a uint32.
- AtMostMaxHandled: MaxRequests is fixed, fewer than 2^63 requests are unfinished at a time, and other limiters are not modelled.
- Slices that start inside their array, or whose capacity ends before it does, are not modelled.
- The callbacks of the observing writer do not call back into it, are not nil and do not panic; the table of interface combinations and New, Push and Hijack are not modelled.
- ElementsMatch of testify is taken as multiset equality; the other request checkers and the reporting of assertions are easy and left out.
- Middleware and handlers that only wrap these parts: gate middleware and control handler, client and server chains, recovery, constant handler, the mock round tripper.
- Names, String methods and error texts.
