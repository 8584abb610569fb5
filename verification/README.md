# Verified models of the gateway's hard cores

This project models the parts of the AI API gateway whose correctness cannot be read off one
function body, and proves what they promise for every input, every schedule and every run.

| file | what it models |
|---|---|
| `price_format.dfy` | prices as text: moving the decimal point between per-1K and per-1M |
| `metering.dfy`, `relay.dfy`, `relay_reasons.dfy`, `relay_cap.dfy` | the realtime WebSocket relay: audio metering, pricing, and the two forwarders, the watcher and the handler as one transition system under any schedule; why a session ends, read off the events alone; what the monthly cost cap means for one connection and for several |
| `streams.dfy`, `responses_stream.dfy`, `chat_stream.dfy` | the two streaming generators: one record whatever the upstream sends and wherever the consumer leaves |
| `sse.dfy` | the frames they yield, against the event stream parser of section 9.2.6 of the WHATWG HTML Living Standard |
| `parameter_retry.dfy` | the loop that drops a rejected parameter and calls the upstream again |
| `ratelimit.dfy` | login protection: sliding windows over a log that also holds the lock markers |
| `sessions.dfy` | cookie sessions: absolute lifetime, idle limit, member status |
| `redaction.dfy` | secret scrubbing of log records |
| `migrations.dfy` | the credential schema from 1:1 to 1:N to M:N and back |
| `pricing.dfy` | the append-only list of price versions, what a call costs under one, and the comparison with the registry's price |
| `responses_support.dfy`, `litellm_registry.dfy`, `catalog_sync.dfy` | where each synced field of a catalog model comes from, the responses markers among its capabilities, and its price |
| `common.dfy` | `Option`, and two ways to look into a text |

`dafny verify dfyconfig.toml` checks everything.

Code that works by changing things is modelled by methods with loops and by classes with `modifies`
clauses, each proved against a function of the old state; what the source promises is then proved
about runs of those functions. Tasks that share state are a transition system: every `await` is a
point where any enabled task may take the next step, and a fact about runs is a fact about every
schedule. Clocks, the network, the database's answers and everything the upstream or the client does
are inputs of a run and unconstrained, except that clocks do not run backwards where a theorem says so.

Properties that turned out to hold only under a condition, each with the exact condition proved:

* Redaction does not remove every secret. It does if and only if the secret is empty, or contains
  something token-shaped, or neither begins nor ends with a star nor has three stars in a row
  (`RemovableExactly`, for lists `RemovableFromEveryList`); the smallest text that leaks is a single
  star (`OneStarLeaks`).
* A client gets exactly the streamed events if and only if every event type and all data keep to one
  line (`RoundTripExactly`). The data always do; the type is whatever the upstream sends
  (`TypeSmugglesData`).
* The redaction filter keeps named arguments of a log record if and only if there are none: of a
  mapping that is not empty only the keys are left (`RedactionFilter.Filter`).
* The lock marker of a source address is filed under the identifier `(ip-lock)`, so a person who logs
  in under that name is locked out with any address (`IpLockIdentifierIsShared`,
  `InnocentIsLockedOut`, `StrangersLockOutInnocent`); no other identifier is affected
  (`MarkersDoNotCross`).
* A check that follows an apply against the same registry reports the capabilities as changed exactly
  if the model carries a responses marker (`CheckAfterApply`), so a marked model never settles
  (`MarkedNeverSettles`).
* A realtime session that reached the upstream connect is billed exactly once if and only if no
  cancellation of its handler hits one of the waits that no `finally` clause covers
  (`BilledExactlyOnce`); two cancellations are enough to lose the bill of any audio
  (`CancelledTwiceIsFree`).
* The bill of a realtime session counts towards the monthly cap if and only if the session did not
  end for an upstream error, or cost nothing (`BillReachesMonth`): the committed cost sums successes
  only, so audio before an upstream error is never seen by a cap again (`UpstreamErrorSpendsNothing`).
* The cap holds for each connection by itself. Sessions of one allocation that follow one another
  exceed it by less than the price of the audio after one look at the committed cost; each session
  beside the last adds a room and a tail of its own (`SharedCap`), and any number of them can spend
  their rooms (`RoomsAreNeeded`).
* A model priced per unit keeps its unit price through an apply if and only if the apply adds no price
  version (`UnitPriceSurvives`). Otherwise the unit price is gone until a later version is effective,
  no check shows it, and realtime audio of that model is free (`AppliedPriceIsFree`).
* The whole audio of a session is billed in the geometry of its end: a format update never lowers the
  billed quantity, in seconds or in minutes, if and only if it does not raise the bytes per second
  (`UpdateKeepsQuantity`).
* 0017's downgrade loses something if and only if some key has more than one allocation
  (`LossyExactly`).

Where a comment and the code disagree the model follows the code: `get_support` is documented to let
a manual source win over a tested one, and looks for the test first (`BlockWins`); an apply is
documented to take fields that are not manual, and takes every field it is given (`ApplyRecords`).

## Model

| member | source | states |
|---|---|---|
| PriceFormat.FormatTestIsTheRegex | frontend/src/lib/price-format.ts:13 | the format test accepts a text if and only if it can be cut into an optional sign, digits, an optional point and at least one digit |
| PriceFormat.Per1mToPer1kDivides | frontend/src/lib/price-format.ts:11-25 | on every accepted text, of any length, the result is the canonical spelling, with the same sign, of exactly a thousandth of the value |
| PriceFormat.Per1kToPer1mMultiplies | frontend/src/lib/price-format.ts:28-38 | likewise of exactly a thousand times the value |
| PriceFormat.CanonicalSpellingUnique | frontend/src/lib/price-format.ts:11-38 | two canonical spellings with the same sign and value are the same text |
| PriceFormat.DownThenUp | frontend/src/lib/price-format.ts:11-38 | per-1M to per-1K and back gives the canonical spelling of what was entered |
| PriceFormat.UpThenDown | frontend/src/lib/price-format.ts:11-38 | per-1K to per-1M and back gives the canonical spelling of what was entered |
| PriceFormat.RoundTripsAreIdentities | frontend/src/lib/price-format.ts:11-38 | on canonical text both round trips change nothing |
| PriceFormat.RejectedTextUntouched | frontend/src/lib/price-format.ts:11-43 | text that the regular expression rejects comes back unchanged from both conversions and from displayPrice |
| PriceFormat.DisplayMultiplies | frontend/src/lib/price-format.ts:40-43 | an accepted price is shown per 1K as it is stored, and per 1M as the canonical spelling of 1000 times its value |
| PriceFormat.TrimInner | frontend/src/lib/price-format.ts:12-29 | any number of spaces before and after a text without outer spaces are trimmed away, and nothing else |
| PriceFormat.SpacesIgnored | frontend/src/lib/price-format.ts:11-38 | spaces around an accepted price change the result of neither conversion |
| Metering.MeterCountsAppends | src/ai_api/proxy/realtime.py:174-219 | after any frames the meter holds the sum of the decoded lengths of the append frames and a positive geometry |
| Metering.QuantityIsFewest | src/ai_api/proxy/realtime.py:104-162 | the billed quantity is the least number of whole units that hold the audio |
| Metering.MinutesAreSecondsRoundedUp | src/ai_api/proxy/realtime.py:112-139 | the minutes of an audio are its billed seconds rounded up to minutes |
| Metering.QuantityMonotone | src/ai_api/proxy/realtime.py:151-162 | more bytes never bill fewer units |
| Metering.SplittingNeverSaves | src/ai_api/proxy/realtime.py:104-162 | two connections never bill less than one with all the audio, and at most one unit more |
| Metering.BillIsRunningCost | src/ai_api/proxy/realtime.py:165-171 | with the same price row the amount in the cost column of the bill is the watcher's running cost; whether the month is charged with it is the matter of RelayCap.BillReachesMonth |
| Metering.CostSubadditive | src/ai_api/proxy/realtime.py:151-171 | audio after a point raises the cost by at most what it would cost alone |
| Metering.UpdateKeepsQuantity | src/ai_api/proxy/realtime.py:174-200 | between two geometries of positive rate, for either unit, an update lowers no quantity if and only if it does not raise the bytes per second |
| Metering.SomeAudioIsBilled | src/ai_api/proxy/realtime.py:104-162 | any audio is at least one unit |
| Metering.SlotPrecedence | src/ai_api/proxy/realtime.py:174-200 | of several formats in one update that of audio.input sets the meter, else that of audio, else input_audio_format, whatever the others say; nothing is counted |
| Metering.OuterSlot | src/ai_api/proxy/realtime.py:180-190 | input_audio_format sets the meter where audio.input holds an empty object, even beside a format in audio, and where neither place in audio holds one |
| Metering.NoFormatNoChange | src/ai_api/proxy/realtime.py:179-200 | an update in which no format counts leaves meter and geometry as they were |
| Metering.SettingsRead | src/ai_api/proxy/realtime.py:191-200 | channels, sample width and rate each come from the field of that name if it holds a positive number and stay otherwise; sample_rate is read exactly if rate is missing or 0 |
| Metering.PriceBillsItsUnit | src/ai_api/proxy/realtime.py:151-171 | a price per minute bills the least number of started minutes, any other price that of started seconds, of rate times width times channels bytes each; the running cost is that number times the unit price, 0 without one |
| Relay.RealtimeSession.ApplyFormat | src/ai_api/proxy/realtime.py:174-200 | takes the format from the first of audio.input.format and audio.format that is an object, from input_audio_format if that one is missing or empty, and sets each of rate, channels and sample width exactly if it carries a positive number for it; rate wins over sample_rate unless absent or zero |
| Relay.RealtimeSession.MeterClientEvent | src/ai_api/proxy/realtime.py:203-219 | changes the meter as the frame says and leaves the close reason alone |
| Relay.RealtimeSession.ClientToUpstream | src/ai_api/proxy/realtime.py:223-239 | sends the frames before the first failing send, meters these and the one that failed, and blames the upstream or the client only if no reason is set |
| Relay.RunIsSafe | src/ai_api/proxy/realtime.py:223-593 | in every state of every run: what was sent and told are front parts of what was metered and heard, a stop means a reason, tasks run only inside run_relay, at most one bill and one close are on the books and agree with how far the handler came, and the last tick had found room |
| Relay.RelayIsFaithful | src/ai_api/proxy/realtime.py:223-255 | at any moment the upstream has the client's frames, first frame first, in order and unaltered, lacking at most the last one read; likewise the client the upstream's texts |
| Relay.BillCountsEveryAppend | src/ai_api/proxy/realtime.py:388-434 | unless the handler is interrupted, the bill covers exactly the append frames read, those read after the stop included, with the outcome and message of the final reason; it never covers more |
| Relay.BillTakenWhenPriced | src/ai_api/proxy/realtime.py:388-434 | every bill, of an interrupted handler too, covers exactly the append frames read when the price row was read, in the format of that moment |
| Relay.ReasonClimbs | src/ai_api/proxy/realtime.py:227-314 | between any two moments the close reason is the same or strictly higher in normal, then client_abort and upstream_error, then revoked and cost_exceeded |
| Relay.RelayReturnsWithReason | src/ai_api/proxy/realtime.py:317-353 | when run_relay returns the reason is not normal, and the client was closed once with the code of the reason that the session had at the event that closed it |
| Relay.CloseCodesAreLegal | src/ai_api/proxy/realtime.py:356-375 | the client is closed at most once, with a code that section 7.4.1 of RFC 6455 lets an endpoint send |
| Relay.LostExactly | src/ai_api/proxy/realtime.py:465-593 | the state's memory of a lost billing is that a cancellation met a wait that no finally clause covers |
| Relay.ReachedExactly | src/ai_api/proxy/realtime.py:465-593 | a session reached the upstream connect if and only if it passed preflight |
| Relay.BilledExactlyOnce | src/ai_api/proxy/realtime.py:465-593 | billing is attempted at most once, and for an ended handler exactly once if and only if the session passed preflight and no cancellation lost its billing |
| Relay.TickLeavesRoom | src/ai_api/proxy/realtime.py:262-314 | a tick whose reads succeed leaves the connection up if and only if committed plus running cost is below the cap, and is then the last look |
| Relay.BillWithinRoom | src/ai_api/proxy/realtime.py:262-434 | with the price row unchanged, and the format too unless no audio had been read, the committed cost at the last look (preflight or tick) plus the bill exceeds the cap by less than the price of the audio read since; of an interrupted session too |
| Relay.TeardownEnds | src/ai_api/proxy/realtime.py:317-353 | after the cancellation every step of any task brings the end nearer |
| Relay.TeardownMoves | src/ai_api/proxy/realtime.py:317-353 | until the end some step other than a cancellation of the handler is possible |
| RelayReasons.RevokedExactly | src/ai_api/proxy/realtime.py:302-310 | in every run the reason is revoked if and only if some re-check was answered that the allocation is not active; from that answer on the stop is set and the watcher has done |
| RelayReasons.CostExceededExactly | src/ai_api/proxy/realtime.py:262-314 | the reason is cost_exceeded if and only if at some event of the run the committed cost read, with the running cost of that moment, was at or over the cap; the stop then is set and the watcher has done |
| RelayReasons.ReasonIsFirstCause | src/ai_api/proxy/realtime.py:223-314 | the reason after any run is the verdict of the watcher if it gave one, never both, else what the first failing or closing side is blamed for, else normal |
| RelayReasons.NoLookSkipped | src/ai_api/proxy/realtime.py:296-314 | between two waits the watcher asks whether the allocation is active and, exactly after a yes under a cap, for the committed cost; after a no nothing follows |
| RelayReasons.WorldIsFree | src/ai_api/proxy/realtime.py:223-314 | at every wait of the forwarders and the watcher whatever the client, the upstream, the database and the timers may do is possible, so facts about runs are about all of it |
| RelayReasons.HandlerIsFree | src/ai_api/proxy/realtime.py:465-593 | likewise at the waits of the handler |
| RelayReasons.PreflightIsFree | src/ai_api/proxy/preflight.py:153-160 | preflight may fail in every way, and passes under a cap exactly a committed cost below it |
| RelayReasons.ClosesWith | src/ai_api/proxy/realtime.py:356-375 | the code each event closes the client with: 1008 for a missing token or model, a rejection and the reasons revoked and cost_exceeded, 1003 for a model that is not realtime, 1011 for the upstream, 1000 otherwise |
| RelayReasons.ReturnsWithCode | src/ai_api/proxy/realtime.py:317-363 | a client whose session ran to its end was closed once, with the code of what had happened up to the event that closed it |
| RelayReasons.BillSaysWhy | src/ai_api/proxy/realtime.py:378-434 | the record of an uninterrupted session is an upstream error exactly if that is what the events amount to, and carries the message of a revocation or of the cap exactly after one |
| RelayCap.BillReachesMonth | src/ai_api/proxy/realtime.py:378-434 | for an uninterrupted session with unchanged price row the cost column is the running cost at close, and the month is charged with it if and only if the final reason is not upstream_error or it is 0 |
| RelayCap.UpstreamErrorSpendsNothing | src/ai_api/proxy/realtime.py:378-397 | for any positive price and any audio there is a run whose bill costs something and adds nothing to the month |
| RelayCap.CancelledTwiceIsFree | src/ai_api/proxy/realtime.py:572-593 | for any frames there is a run that read them, passed preflight, ended, and was never billed |
| RelayCap.HasLooked | src/ai_api/proxy/preflight.py:153-160 | every session that passed preflight under a cap has found room at least once |
| RelayCap.SpentWithinRoom | src/ai_api/proxy/realtime.py:262-314 | what a session adds to the month, long or short, billed or not, keeps below the room its last look saw, but for the price of the audio read since |
| RelayCap.SharedCap | src/ai_api/proxy/realtime.py:262-314 | any number of sessions of one allocation that passed preflight exceed the cap together by less than the tail of the last, and one room and one tail for each session whose spending its last look had not read |
| RelayCap.EndsBelowCap | src/ai_api/proxy/realtime.py:262-314 | whenever some audio costs less than the room, some session spends that much without a tail |
| RelayCap.RoomsAreNeeded | src/ai_api/proxy/realtime.py:262-314 | under every cap and positive price, from every base below the cap, any number k of sessions side by side, none with a tail, can spend k rooms but for one unit each |
| ResponsesStream.EventGen | src/ai_api/proxy/responses.py:329-459 | for every upstream behaviour and consumer exactly one record is attempted, the one the stream deserves; the events delivered are a front part of all events, up to the first that cannot be handled or after which the consumer does not resume; no terminal event is delivered before the attempt |
| ResponsesStream.FirstTerminalDecides | src/ai_api/proxy/responses.py:392-442 | the first terminal event reached decides: success with its usage and id, or an upstream error with its text |
| ResponsesStream.NoTerminalVerdict | src/ai_api/proxy/responses.py:444-459 | if no terminal event is reached, though one may lie behind, the record is an upstream error if and only if an exception is reached; otherwise a success without usage |
| ResponsesStream.ExceptionIsRecorded | src/ai_api/proxy/responses.py:444-454 | an exception that is reached before a terminal event is recorded with its own text |
| ResponsesStream.ReachingComesOut | src/ai_api/proxy/responses.py:372-459 | the events delivered are a front part of all events, in order: up to the first that cannot be handled, excluded, or the first after which the consumer does not resume, included |
| ResponsesStream.UndisturbedComesOut | src/ai_api/proxy/responses.py:372-443 | so a stream of whole events whose consumer always resumes is delivered in full, terminal events included |
| ResponsesStream.FailureTextSays | src/ai_api/proxy/responses.py:402-441 | a failed response is recorded as the first code present and the first message present, in the order the source looks for them, cut to 500 characters |
| ChatStream.EventGen | src/ai_api/proxy/router.py:262-301 | exactly one bill is attempted, with the first usage consumed or none; the lines are those of the consumed chunks in order, [DONE] last exactly if the upstream ran out; no usage is shown before the bill is attempted |
| ChatStream.LeftIsAllShown | src/ai_api/proxy/router.py:262-301 | what the generator still has to show and to bill is that of the chunks it still consumes |
| ChatStream.ChoicesPreserved | src/ai_api/proxy/router.py:277-294 | no choice is lost, added or reordered |
| ChatStream.UsageHidden | src/ai_api/proxy/router.py:285-294 | a client that did not ask for usage is shown none |
| ChatStream.VerbatimWhenWanted | src/ai_api/proxy/router.py:277-294 | a client that asked for usage gets every chunk as it came |
| ChatStream.OnlyUsageChunksDropped | src/ai_api/proxy/router.py:285-294 | otherwise only chunks with usage and no choices are dropped, and the rest differ in the usage alone |
| ChatStream.FirstUsageIsFirst | src/ai_api/proxy/router.py:277-284 | the usage billed is that of a chunk before which no consumed chunk has one; none only if no chunk has one |
| ChatStream.ConsumedExactly | src/ai_api/proxy/router.py:262-301 | the chunks consumed are the first of the stream, in order: up to one that cannot be handled, excluded, or one the generator does not get past, included |
| ChatStream.DoneMeansAll | src/ai_api/proxy/router.py:294-296 | [DONE] is delivered if and only if every event is a whole chunk that the consumer resumes from or is not shown, and the upstream then is exhausted; it is the last line and the only one of its kind |
| ParameterRetry.CallUpstream | src/ai_api/proxy/router.py:179-208 | for any upstream the loop ends after at most one call more than there are parameters, each retry lacks exactly the parameter the last error named, and the final reply is no error that names a parameter of its call |
| ParameterRetry.NamedAreDropped | src/ai_api/proxy/router.py:187-208 | each call carries the original parameters minus exactly those named by the errors before it |
| ParameterRetry.EachNamedOnce | src/ai_api/proxy/router.py:187-208 | the errors followed by a retry named pairwise different parameters, all of the original ones |
| ParameterRetry.RetryDropsOne | src/ai_api/proxy/router.py:187-208 | of two calls in a row the first came back with an error that names one of its parameters, and the second carries the others with the same values |
| Sse.FeedFrame | src/ai_api/proxy/responses.py:103-105 | a whole frame adds its one message to the parser's output and leaves the parser as clean as before |
| Sse.RoundTrip | src/ai_api/proxy/responses.py:103-105 | parsing the frames of any events with newline-free types and data gives back exactly those events |
| Sse.RoundTripExactly | src/ai_api/proxy/responses.py:103-105 | for any events at all: they come back exactly if and only if no type and no data holds a line feed or carriage return |
| Sse.BrokenDataShrinks | src/ai_api/proxy/responses.py:103-105 | data with a line feed reaches the client with fewer characters than were sent |
| Sse.TypeSmugglesData | src/ai_api/proxy/responses.py:103-105 | a type that holds a line feed and a data field shows as another type with longer data |
| Sse.CutShowsFrontPart | src/ai_api/proxy/responses.py:103-105 | a stream cut after any character shows a front part of the events, each whole |
| Sse.CompleteFramesShow | src/ai_api/proxy/responses.py:103-105 | an event shows as soon as its frame is complete, whatever follows |
| Sse.FrameText | src/ai_api/proxy/responses.py:103-105 | the text of a frame on the wire; no type line for a type that is missing or empty |
| Sse.MessagesAt | src/ai_api/proxy/responses.py:103-105 | what the round trip gives back: one message for each event, in order, with its data and type |
| RateLimit.AttemptLog.RecordAttempt | src/ai_api/auth/ratelimit.py:17-33 | appends one row and changes no other |
| RateLimit.AttemptLog.IsIpLocked | src/ai_api/auth/ratelimit.py:36-80 | refuses exactly if a marker is recent or the failures in the window reach the threshold, and writes a marker only in the second case |
| RateLimit.AttemptLog.IsLocked | src/ai_api/auth/ratelimit.py:83-119 | likewise for an identifier |
| RateLimit.AttemptLog.LocalLogin | src/ai_api/api/auth.py:275-345 | a login answers, and appends to the log, as the specification of one login says |
| RateLimit.AppendedWasChecked | src/ai_api/api/auth.py:280-323 | a failure is recorded only after its subject's check passed, a marker only by the check that found the failures |
| RateLimit.LoggedInExactly | src/ai_api/api/auth.py:275-345 | a login succeeds if and only if its source is allowed, neither check refuses and the credentials are correct; it then appends exactly one success |
| RateLimit.OtherAnswers | src/ai_api/api/auth.py:280-323 | every other answer with what it appends: nothing for a source not allowed, at most a marker for a refusal, one row of the right outcome for wrong credentials |
| RateLimit.GuessesBounded | src/ai_api/api/auth.py:280-323 | over every run any closed 60-second window holds at most five requests with wrong credentials for one identifier that are answered neither by the source policy nor by a lock, and from one address at most its threshold |
| RateLimit.WindowBound | src/ai_api/auth/ratelimit.py:12-119 | over every run any closed 60-second window holds at most five counted failures of an identifier and at most the per-address threshold of an address |
| RateLimit.LogIsChronological | src/ai_api/auth/ratelimit.py:17-119 | with a clock that does not run backwards the log is in order of time |
| RateLimit.NothingCountsWhileLocked | src/ai_api/auth/ratelimit.py:36-119 | after a marker the next counted failure or marker of the same subject comes only when the lock is over |
| RateLimit.LockLastsExactly | src/ai_api/auth/ratelimit.py:36-119 | a subject whose last row is a marker is refused if and only if no more than the lock duration has passed since |
| RateLimit.LockedLoginLeavesNoTrace | src/ai_api/api/auth.py:284-287 | a login about a marked subject is refused and writes no row about it |
| RateLimit.LocksAreEarned | src/ai_api/auth/ratelimit.py:36-119 | every marker is preceded by exactly the threshold's number of failures in one window |
| RateLimit.MarkersDoNotCross | src/ai_api/auth/ratelimit.py:36-119 | address markers change no verdict on an identifier other than (ip-lock), identifier markers none on an address |
| RateLimit.IpLockIdentifierIsShared | src/ai_api/auth/ratelimit.py:70-119 | in any log any address marker no older than a lock refuses the identifier (ip-lock) |
| RateLimit.InnocentIsLockedOut | src/ai_api/api/auth.py:280-287 | a correct login under that name is refused in every run that has locked any address lately |
| RateLimit.StrangersLock | src/ai_api/auth/ratelimit.py:36-80 | for every threshold, that many failures under different unknown names from one address and one login more leave exactly these failures and the address marker in the log |
| RateLimit.StrangersLockOutInnocent | src/ai_api/api/auth.py:280-287 | after that run, in which nobody uses the name (ip-lock), a correct login of that name from any other address is refused for as long as the lock lasts |
| Sessions.SessionService.CreateSession | src/ai_api/auth/sessions.py:37-67 | stores one active session with both limits and changes no other, or breaks a key and changes nothing |
| Sessions.SessionService.ValidateSession | src/ai_api/auth/sessions.py:70-106 | accepts exactly an active, unexpired, not idle session of an enabled member, whose idle limit it renews; one that fails only for its member it revokes |
| Sessions.SessionService.RevokeSession | src/ai_api/auth/sessions.py:109-115 | revokes that session if it is active and changes no other |
| Sessions.SessionService.RevokeAllForMember | src/ai_api/auth/sessions.py:118-124 | revokes the member's active sessions, returns their number, leaves none |
| Sessions.LogoutIsForGood | src/ai_api/auth/sessions.py:109-115 | after a logout its token is rejected at every later time of every run, and its row says when and why unless it had ended before |
| Sessions.LogoutIsExact | src/ai_api/api/auth.py:350-359 | a logout keeps the row, and at any time the verdict, of every other token |
| Sessions.LookIsRecorded | src/ai_api/auth/sessions.py:82-106 | what a look leaves in the row: the time and two more hours on acceptance, the revocation if only the member fails, nothing else |
| Sessions.MemberUpdateIsExact | src/ai_api/services/members.py:143-164 | an update of a member revokes all its sessions if it disables an enabled member and touches no session otherwise |
| Sessions.DefaultLimits | src/ai_api/auth/sessions.py:18-67 | a new session with the default limits is accepted for exactly two hours if nobody looks at it, and through no run for a day or more |
| Sessions.RejectedForEver | src/ai_api/auth/sessions.py:82-106 | a stored session rejected once is rejected at every later time of every run, even if its member is enabled again |
| Sessions.AcceptedWithinLimits | src/ai_api/auth/sessions.py:37-106 | every acceptance lies strictly within the lifetime of the creation and within the idle limit of the acceptance before |
| Sessions.UndisturbedSessionAccepted | src/ai_api/auth/sessions.py:82-124 | a session met by no logout, revocation or disabling is accepted if and only if both limits hold |
| Sessions.RevokeAllIsExact | src/ai_api/auth/sessions.py:118-124 | revoking all ends exactly the member's existing sessions, for ever, and no other |
| Sessions.DisablingIsForGood | src/ai_api/services/members.py:143-164 | sessions that exist when a member is disabled are never accepted again |
| Sessions.DeadThroughRun | src/ai_api/auth/sessions.py:82-124 | a dead session stays dead through every run |
| Redaction.OnlyMatchesReplaced | src/ai_api/observability/logging.py:49-54 | a pass replaces matches of its pattern by the placeholder and keeps everything else in place; it takes the leftmost match first and a token to its end |
| Redaction.TokenPassLeavesNone | src/ai_api/observability/logging.py:17 | after the token pass nothing token-shaped is left |
| Redaction.SecretGone | src/ai_api/observability/logging.py:49-54 | a removable secret is gone from every text, whatever other secrets the list holds and wherever it stands |
| Redaction.NothingLeft | src/ai_api/observability/logging.py:49-54 | for removable secrets in any order no secret and nothing token-shaped is left |
| Redaction.NothingCoveredLeft | src/ai_api/observability/logging.py:49-54 | nor is any secret of a list in which each holds a removable one or a token |
| Redaction.StarFreeSecretsGo | src/ai_api/observability/logging.py:49-54 | in particular for all secrets without a star |
| Redaction.CleanTextUntouched | src/ai_api/observability/logging.py:49-54 | text without secrets and tokens is not changed |
| Redaction.ScrubIdempotent | src/ai_api/observability/logging.py:49-54 | for removable secrets scrubbing twice is scrubbing once |
| Redaction.RemovableExactly | src/ai_api/observability/logging.py:49-54 | a secret is removed from every text if and only if it is empty, holds a token, or has no star at either end and no three in a row |
| Redaction.RemovableFromEveryList | src/ai_api/observability/logging.py:49-54 | a secret is removed from every text by every list that holds it if and only if it is removable |
| Redaction.OneStarLeaks | src/ai_api/observability/logging.py:49-54 | with the secret `*` configured the text `*` still shows it |
| Redaction.Scrub | src/ai_api/observability/logging.py:49-54 | the loop computes one pass for each secret that is not empty, then the token pass |
| Redaction.SecretsInOrder | src/ai_api/observability/logging.py:49-54 | the secrets are taken in the order of the list, and an empty one does nothing |
| Redaction.CleanValueUntouched | src/ai_api/observability/logging.py:57-60 | a value that is no text, or clean text, comes back as it was |
| Redaction.RedactString | src/ai_api/observability/logging.py:63-67 | the result is scrubbed, and clean of removable secrets |
| Redaction.RedactionFilter.Filter | src/ai_api/observability/logging.py:40-46 | the record passes, its message and each argument that is text scrubbed in place, anything else untouched; arguments come out as a tuple, a mapping that is not empty as the tuple of its keys |
| Migrations.Database.UpgradeToDevices | alembic/versions/0015_per_device_credentials.py:46-89 | each token becomes exactly one device on its allocation, with token data unchanged |
| Migrations.Database.DowngradeToTokens | alembic/versions/0015_per_device_credentials.py:92-142 | exactly one row for each allocation with an unrevoked device, of greatest creation time among them |
| Migrations.Database.UpgradeToScopes | alembic/versions/0017_scoped_credentials.py:32-75 | every device becomes a key of its allocation's member with that allocation as scope; refused without change exactly if a device's allocation is missing |
| Migrations.Database.DowngradeToDevices | alembic/versions/0017_scoped_credentials.py:78-100 | every key becomes a device of one allocation of its scope; refused without change exactly if a key has none |
| Migrations.TokensKeepResolving | alembic/versions/0017_scoped_credentials.py:45-64 | after both upgrades a fingerprint finds a key if and only if an old row has it; the key belongs to the member of the row's allocation, and opens that allocation under its model's names and nothing else |
| Migrations.EveryTokenFindsOneKey | src/ai_api/services/allocations.py:304-326 | after both upgrades each old token finds exactly one key |
| Migrations.ScopesAndBack | alembic/versions/0017_scoped_credentials.py:32-100 | 0017 up and down gives back any table of devices |
| Migrations.DevicesAndBack | alembic/versions/0015_per_device_credentials.py:46-142 | 0015 up and down gives back any table of tokens |
| Migrations.FullRoundTrip | alembic/versions/0015_per_device_credentials.py:46-142 | both upgrades and both downgrades give back the original table |
| Migrations.NewestSurvives | alembic/versions/0015_per_device_credentials.py:92-142 | rows remain exactly for allocations with an unrevoked device; a token survives only unrevoked, with none newer, on its allocation; and if none is as new |
| Migrations.LossyExactly | alembic/versions/0017_scoped_credentials.py:78-100 | down and up again gives back consistent tables if and only if every key has one allocation |
| Migrations.DowngradesStayInScope | alembic/versions/0017_scoped_credentials.py:78-100 | after both downgrades a token opens an allocation only if it was an unrevoked key with that allocation in scope |
| Migrations.NewDeviceColumns | alembic/versions/0015_per_device_credentials.py:63-81 | a device made from a token has its data, the default name, and was neither used nor revoked |
| Migrations.KeyColumns | alembic/versions/0017_scoped_credentials.py:45-64 | a key made from a device has all its columns and the member of its allocation, and its token finds it exactly while the device was not revoked |
| Migrations.ResolvesWithinScope | src/ai_api/services/allocations.py:328-358 | a key opens exactly the allocations in its scope under the model asked for, or if there is none and the name is bare, the only one with that bare name |
| Migrations.SharedNameOpensNothing | src/ai_api/services/allocations.py:350-358 | a bare name that two allocations in scope share opens neither |
| ResponsesSupport.DropMarkers | src/ai_api/services/responses_support.py:65-72 | the loop keeps each capability once where it first occurs, and no marker |
| ResponsesSupport.WithoutMarkersKeepsTheRest | src/ai_api/services/responses_support.py:65-72 | exactly the capabilities that are no markers are left, each once |
| ResponsesSupport.FirstPlaceKept | src/ai_api/services/responses_support.py:65-72 | a capability stays where it occurs first: a longer list only adds at the end |
| ResponsesSupport.BlockWins | src/ai_api/services/responses_support.py:49-62 | a block decides whatever else is marked; of an available model the test counts before the admin, and without the plain marker neither does |
| ResponsesSupport.MarksLeft | src/ai_api/services/responses_support.py:75-93 | each transition leaves exactly its own markers, and a list without markers and duplicates as it was in front of them |
| ResponsesSupport.MarkDecides | src/ai_api/services/responses_support.py:49-93 | after a transition the support is what it says whatever it was before, and all other capabilities stay |
| ResponsesSupport.PreserveMembers | src/ai_api/services/responses_support.py:101-107 | markers come from the old capabilities, everything else from the new |
| ResponsesSupport.PreserveKeepsSupport | src/ai_api/services/responses_support.py:101-107 | adopting new capabilities never changes the support |
| ResponsesSupport.PreserveTwice | src/ai_api/services/responses_support.py:101-107 | doing it again changes nothing |
| LitellmRegistry.RegistryIsClean | src/ai_api/services/litellm_registry.py:66-103 | the registry's capabilities hold no responses marker and no duplicate |
| LitellmRegistry.CapabilitiesSay | src/ai_api/services/litellm_registry.py:66-103 | which flag of an entry, or which mode, gives each of the eleven labels, in both directions |
| LitellmRegistry.CapabilitiesInOrder | src/ai_api/services/litellm_registry.py:66-103 | no other label is given, none twice, and they come in the order in which the source tests for them |
| LitellmRegistry.ModalitySays | src/ai_api/services/litellm_registry.py:54-63 | what goes in and out of a model for each mode, and for text models with and without vision |
| LitellmRegistry.MetadataSays | src/ai_api/services/litellm_registry.py:106-115 | the four syncable fields and their kinds; the context window is the input limit, or the total if there is none |
| LitellmRegistry.QuoteIsPerToken | src/ai_api/services/litellm_registry.py:140-150 | under the quote of an entry with an input price any numbers of plain, cached and output tokens cost exactly these numbers times the entry's prices per token; a missing output price counts as 0, a missing cache price as the input price |
| LitellmRegistry.QuoteExactly | src/ai_api/services/litellm_registry.py:121-161 | there is no quote if and only if the input price and all five unit prices are missing; without an input price it is the first present of page, query, character, image, second |
| Pricing.SelectCurrent | src/ai_api/services/pricing.py:129-136 | the loop finds the version that the specification calls current |
| Common.BareSplits | src/ai_api/services/pricing.py:116-119 | the billing key drops what stands before the first slash and nothing else |
| Pricing.CurrentIsLatest | src/ai_api/services/pricing.py:32-136 | the current version is an effective row of the model and no effective row of it is later; none only if none is effective |
| Pricing.PastPricesKept | src/ai_api/services/pricing.py:32-136 | a new version changes no lookup for a call before it is effective |
| Pricing.NewVersionHolds | src/ai_api/services/pricing.py:32-136 | and is the current one from then until a later one is effective |
| Pricing.CurrentLasts | src/ai_api/services/pricing.py:32-136 | the current version stays so until a later one is effective |
| Pricing.CostByKind | src/ai_api/services/pricing.py:61-88 | a thousand times the cost of a call is the sum of its plain, cached and output tokens times their prices per thousand, where cached tokens without a price of their own take the input price |
| Pricing.CachedWithinPrompt | src/ai_api/services/pricing.py:61-88 | no more tokens count as cached than the prompt has, and without a price of their own cached tokens change no cost |
| Pricing.PriceList.CreateVersion | src/ai_api/services/pricing.py:274-329 | appends exactly one row, with an empty unit filed as none; refused without change exactly for a negative price or a moment that is taken |
| Pricing.FilingRefused | src/ai_api/services/pricing.py:288-325 | a version is refused exactly if one of its four prices is negative or the model has one of the same moment |
| Pricing.PriceDiffs | src/ai_api/api/admin_catalog.py:454-470 | the loop yields the differences of the three token columns |
| Pricing.DiffsReportColumns | src/ai_api/api/admin_catalog.py:454-470 | each diff is of a column the registry prices, changed if and only if the model's price there is missing or another; every such column has one |
| Pricing.PriceDiffsExactly | src/ai_api/api/admin_catalog.py:454-470 | the input and the output column are always compared, the cached one exactly if the registry prices it, each with the same column of the model |
| CatalogSync.BuildLitellmSync | src/ai_api/api/admin_catalog.py:26-49 | provenance of a new model: a field is manual exactly if it differs from the registry, none without a registry entry |
| CatalogSync.ModelCatalog.constructor | src/ai_api/api/admin_catalog.py:340-408 | a new row with its values and that provenance |
| CatalogSync.ModelCatalog.Update | src/ai_api/api/admin_catalog.py:412-446 | stores every change, marks exactly the touched syncable fields manual, keeps snapshots |
| CatalogSync.ModelCatalog.Check | src/ai_api/api/admin_catalog.py:473-507 | one diff for each syncable field of a model the registry knows, and the price differences to the version current now; none otherwise |
| CatalogSync.ModelCatalog.Apply | src/ai_api/api/admin_catalog.py:511-580 | gives exactly the selected syncable fields the registry's value, source and snapshot, in any order and with repetitions, and appends the registry's token prices as one version if a price was asked for; refuses without any change an unknown model and a price that cannot be filed |
| CatalogSync.ModelCatalog.RecordTestOk | src/ai_api/api/admin_catalog.py:665-669 | marks the model tested unless an admin has blocked it |
| CatalogSync.ModelCatalog.SetResponsesSupport | src/ai_api/api/admin_catalog.py:687-712 | sets the admin's mark and nothing else |
| CatalogSync.CreationRecords | src/ai_api/api/admin_catalog.py:26-49 | a new model follows the key given, else its slug, exactly if the registry has it; a field is manual if and only if it differs from the entry, and the others are borrowed if and only if the key given is not the slug |
| CatalogSync.EditRecords | src/ai_api/api/admin_catalog.py:412-446 | an edit changes exactly the fields given; of the provenance only the sources of those that are syncable, to manual |
| CatalogSync.ApplyStores | src/ai_api/api/admin_catalog.py:531-545 | an apply gives the selected syncable fields the value of the entry that the row follows, and changes no other field |
| CatalogSync.ApplyRecords | src/ai_api/api/admin_catalog.py:546-554 | it records source, snapshot, version and entry for the selected fields, keeps source and snapshot of the others, and the key |
| CatalogSync.ApplyMergesCapabilities | src/ai_api/api/admin_catalog.py:537-541 | after an apply of the capabilities a responses marker is among them if and only if it was before, any other capability if and only if the entry has it |
| CatalogSync.RefusedExactly | src/ai_api/api/admin_catalog.py:521-568 | an apply is refused exactly for a model that the registry does not know, and for a price asked for and there that is negative or the second of its moment |
| CatalogSync.CheckSays | src/ai_api/api/admin_catalog.py:484-500 | each line of the check: field, the row's value, the entry's, whether they differ, and the source on record; no line without an entry |
| CatalogSync.TestRecorded | src/ai_api/api/admin_catalog.py:665-669 | a passed test makes the model available as tested and changes no other field or capability, unless it is blocked: then nothing changes |
| CatalogSync.WordRecorded | src/ai_api/api/admin_catalog.py:687-701 | an admin's word holds whatever was marked before, and changes no other field or capability |
| CatalogSync.RunIsFaithful | src/ai_api/api/admin_catalog.py:26-712 | in every reachable row a syncable field that is not manual equals its snapshot; the capabilities are the snapshot's followed by responses markers |
| CatalogSync.CheckShowsDrift | src/ai_api/api/admin_catalog.py:484-507 | for a field that is not manual the check reports a change if and only if the registry differs from the snapshot, or it is the capabilities and they carry a marker |
| CatalogSync.CheckAfterApply | src/ai_api/api/admin_catalog.py:473-554 | after an apply the check reports no change of an applied field, but for the capabilities exactly of a model with a marker; fields not selected show as before |
| CatalogSync.MarkedNeverSettles | src/ai_api/api/admin_catalog.py:473-554 | a model marked by an admin shows its capabilities as changed right after they were applied |
| CatalogSync.PriceSettles | src/ai_api/api/admin_catalog.py:454-568 | after an apply of the price a check against the same registry reports no price difference until a later version is effective |
| CatalogSync.AppliedRates | src/ai_api/api/admin_catalog.py:555-568 | once an apply has filed an entry's price per token, and until a later version is effective, any numbers of plain, cached and output tokens cost exactly these numbers times the entry's prices per token |
| CatalogSync.AppliedUnitIsFree | src/ai_api/api/admin_catalog.py:555-568 | once it has filed that of an entry without an input price, tokens cost 0 |
| CatalogSync.UnitPriceSurvives | src/ai_api/api/admin_catalog.py:555-568 | at any time after an apply until a later version is effective: a unit price has outlasted it if and only if the price was not asked for or the registry has none; if it is lost, the check shows nothing |
| CatalogSync.AppliedPriceIsFree | src/ai_api/api/admin_catalog.py:555-568 | at any time after an apply that added a version, until a later one is effective, any amount of realtime audio costs 0 |
| CatalogSync.ApplyKeepsPastPrices | src/ai_api/api/admin_catalog.py:555-568 | an apply changes the price of no call that started before it |
| CatalogSync.ApplyTwice | src/ai_api/api/admin_catalog.py:511-554 | applying the same again changes nothing |
| CatalogSync.ApplyKeepsSupport | src/ai_api/api/admin_catalog.py:537-541 | an apply never changes the responses support |
| CatalogSync.BlockStays | src/ai_api/api/admin_catalog.py:665-712 | an admin's block outlasts every run without the admin lifting it or editing the capabilities |
| CatalogSync.ManualStays | src/ai_api/api/admin_catalog.py:422-554 | a field once manual stays manual, with its snapshot kept, through every run that does not apply it |

## Left out

- RelayCap.SharedCap: the month is what the records add to the committed cost; sessions whose price row changed, or whose format changed after a look that had seen audio, are not covered.
- Floats and Decimals: idealised as exact real numbers; the rounding of Python's division and of the cost column is not modelled.
- JSON and base64: frames and events arrive classified; a payload that cannot be handled is an event that raises. Decoding itself, and the WebSocket and HTTP layers below, are not part of this model.
- Relay: an injected cost check that raises, a frame whose decoding raises past the meter's own guard, and the details of how an upstream library closes, are not modelled; a send that fails or is cancelled may or may not have got through.
- RateLimit: concurrent logins that race between check and record are left out, each login is one atomic step; identifiers are taken as already normalised, the address allowlist is a flag of the request, audit rows are not kept.
- Sessions: tokens stand for their fingerprints; user agent, source address and deletion of members are left out.
- Redaction: for one given list of several secrets only a sufficient condition is proved (`NothingCoveredLeft`); whether other lists leak depends on the order of their secrets and on how these overlap, as in the list `ba`, `*ab`. Secrets in the text of other arguments, secrets split between message and arguments, and exception texts are left out.
- Streams: the text written to the log, storage of responses and pricing of a stream's usage are left out.
- ParameterRetry: how a parameter name is read out of an error text is any function.
- Sse: text is a sequence of characters; UTF-8 encoding and the id and retry fields, which the source never sends, are left out.
- Migrations: one table for each credential schema; indexes, the device_authorizations table of 0016 and the members table are left out. A migration refused by a constraint is rolled back.
- Pricing: prices are exact, the rounding of the columns to eight decimals is not modelled; texts that are no numbers and versions added by hand are left out.
- CatalogSync: the price suggested at creation is left out, as are the other handlers and the command-line loader, which overwrites fields without touching provenance. Patches are typed: a null for a list or number is refused by the database or the response and never stored.
- Quota pool, OAuth, device flow, allocation management, model access and the React components are not part of this model.
