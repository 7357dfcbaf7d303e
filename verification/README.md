# Statok Go client: a verified model

A Dafny 4.11 model of the worker path of the Statok metrics client and proofs about it. The path is a chain of small
stateful machines: callers fill pooled events, a worker turns totals into deltas, cuts the event stream into batches and
aggregates each batch into a payload, a bounded retry machine hands payloads to the transport, and the transport prints
them in line protocol v4 with a series dictionary that only the sender and the receiver together keep in step.

`dafny verify dfyconfig.toml` checks everything.

| file | about |
|---|---|
| `Text.dfy`, `Events.dfy`, `UniqueId.dfy` | numerals and fields as `strconv` and `bytes.Split` treat them; series, payloads, series keys; canonical ids |
| `LineProtocol.dfy`, `LineParser.dfy`, `LineAnalysis.dfy` | the dictionary encoder, what its bodies mean, the transport's own analysis of a body |
| `Transport.dfy`, `DictionaryProtocol.dfy` | the send path, the assumed receiver, and sender, network and receiver as one machine |
| `RateLimiter.dfy` | the compare-and-swap value limiter under every interleaving |
| `Aggregation.dfy`, `BatchBuilder.dfy` | what a batch amounts to, and the hash-chain builder that computes it |
| `Backoff.dfy`, `Retry.dfy`, `Client.dfy` | delays; the retry and backoff machine; the client object that carries it out |
| `Totals.dfy`, `Worker.dfy`, `Delivery.dfy` | totals to deltas; the worker loop; from the worker's payloads to the wire |
| `EventPool.dfy` | pooled event objects with reused label buffers, passed between callers, queue, worker and pool |

Classes update their fields as the Go objects do. The methods of `DictionaryState`, `HTTPTransport`, `BatchBuilder`, `Client`
and `Worker` are proved equal to steps of specification functions on values, and the theorems about all inputs and all runs
are about those functions. `ValueRateLimiter.AllowAt` is one call under interference, with the decision of the same
`Decide` the interleaved machine uses. `EventObject` and `Pipeline` are specified by the contents of their objects, before
and after each step.

## Assumptions

- The receiver is not in the repository. `Receiver.Accepts` and `Receiver.Learned` state what is assumed: one book per
  session, an unknown session being revision 0 and empty; a body is accepted when its revision is the book's and it
  defines nothing, or the next one and it defines something; anything else is answered 409. It stores a definition under
  the id the line gives, whatever that id is, so that ids staying dense is proved and not built in. Its line grammar
  (`LineParser.ParseLine`, `ParseBody`, `Resolve`) is assumed as well: fields end at `|`, lines at a newline, a definition's
  empty fields are dropped as the repository's own parser of definition lines drops them, and an event with an unknown id
  makes the body unreadable. The only-if half of `LineParser.BodyMeaning` depends on this grammar.
- Clock readings used as session ids (`UnixNano`) never repeat. Otherwise time is a non-decreasing integer of
  nanoseconds, and jitter is any reading modulo its window.
- Floats are reals; the float printer is an arbitrary function whose output has no `|` or newline. The hash is an
  arbitrary function of the series. White space is an arbitrary set of characters. Transport outcomes, durations, clock
  readings and scheduling are inputs of each step. Batch and revision numbers are unbounded integers.
- The run-level dictionary theorems take payloads whose fields hold no separator, no empty label and no NUL
  (`DictionaryProtocol.SafePayload`); the findings below give the exact conditions for a single body and key. The per-series
  accounts of the worker ask only that no Total of another series has the series' key (`Totals.OwnsKey`), which NUL-free
  series give (`Totals.NulFreeOwnsKey`). `Delivery.CleanBatchIsSafe` says which events lead to such payloads.
- The class methods take those inputs as parameters; ghost fields only remember history.

## Findings

- **Seconds from 2^48 on.** `window<<16` drops high bits, so a caller at such a second (a negative one included, once
  converted to 64 bits) compares its window with one that wraps. Let the callers use any set of seconds:
  `RateLimiter.LimitHoldsExactly` proves that the 20,000 limit holds for a second s of the set, in every run, if and only if
  s is below 2^48 and each second of the set is below 2^48 or wraps to a window after s. The failing run is
  `RateLimiter.WrappedCallReopens`: 20,000 calls at s, one at a second that wraps to s or before, one more at s, which is
  admitted as the 20,001st. A second failure goes the other way: calls are refused with the limit unused.
  `RateLimiter.RefusalsJustifiedExactly` proves that every refusal at s, in every run, finds 20,000 admissions at s or one
  at a later second below 2^48, if and only if s is not below 2^48 (then nothing is refused) or each second of the set is
  below 2^48 or wraps to a window before s. Both hold for all seconds of a set exactly when all are below 2^48
  (`RateLimiter.LimiterExact`). The case met in practice is a clock just before 1970: a first call at -1 is admitted
  (`RateLimiter.FirstAlone`) and stores the last window, and then a second s below 2^48 - 1 is never admitted, in every
  continuation, if and only if no second used is out of range and wraps to s or before (`RateLimiter.MinusOneSilences`; -1
  followed by 2^48 opens every second again).
- **NUL bytes in series.** `seriesKey` joins with NUL, so a NUL inside a metric or label can make two series share a key
  and one dictionary id (`LineParser.NulCollisionLosesASeries`). `Events.KeyFaithful` says when a key can be trusted, and
  `LineParser.BodyMeaning` gives the exact condition for a body.
- **Separators in raw labels.** Raw labels and metrics are not sanitised, only `Label` is. A counter with the label `a|b`
  is defined on the wire as one with the labels `a` and `b`, and its body does not decode to its payload
  (`LineParser.BarInLabelSplitsIt`). `LineParser.DefinitionRoundTrip` and `LineParser.BodyMeaning` give the exact conditions
  under which a definition and a body keep their meaning.
- `forceDefinitions` is never set by `send`. A body built with it always carries definitions, so the receiver assumed here
  accepts it if and only if its book is one revision behind the sender's new one; with no new series and both sides in step
  it is refused (`DictionaryProtocol.ForcedBodyAccepted`).
- A retry entry taken out after sending has stopped inside the same pass is dropped without a log line: the rest of such a
  pass sends nothing, and every entry stays or ends that way (`Retry.StopInsidePass`, ending `AfterStop`). With the
  configured limit of one send per pass this cannot happen (`Retry.ConfiguredPass`).

## Model

| member | source | states |
|---|---|---|
| `DictionaryProtocol.AcceptedMeansPayload` | transport.go:201-258 | In every run of requests, replies of any kind, lost, late, repeated bodies and forgotten sessions, each accepted body was read as exactly its payload's counters, values and uniques, in order: series, timestamp, id, printed value, and for a counter the numeral of the integer nearest to its value. |
| `DictionaryProtocol.SafeByFields` | line_protocol_v4.go:38-141 | What the run-level theorems ask of a payload, said of its own fields. |
| `DictionaryProtocol.ReceiverMirrorsSender` | line_protocol_v4.go:38-141 | In every run the receiver's table of a session at revision r is the sender's series list at revision r, a prefix of the sender's present list. |
| `DictionaryProtocol.StepKeepsInv` | transport.go:214-247 | The two-party invariant survives every request, reply, delivery and loss of receiver state. |
| `DictionaryProtocol.FirstRequestAccepted` | line_protocol_v4.go:97-120 | The first request of a send is accepted if and only if the receiver's revision for that session is the sender's before encoding. |
| `DictionaryProtocol.ResyncSucceeds` | transport.go:232-245 | After a 409 the follow-up body is accepted and read as the payload by a receiver in any state that does not know the new session. |
| `DictionaryProtocol.AtMostTwoRequests` | transport.go:223-247 | No pair of replies makes one send issue a third request. |
| `DictionaryProtocol.SendSucceeds` | transport.go:201-248 | From every reachable idle state, whatever the receiver has lost or forgotten, a send whose requests get through and are answered by the receiver's own verdict ends with the payload accepted exactly once more and read exactly. |
| `DictionaryProtocol.ForcedBodyAccepted` | line_protocol_v4.go:97-120 | A body with forced definitions is accepted if and only if the book is one revision behind the grown dictionary; with no new series and both in step it is refused. |
| `Transport.SessionChanges` | transport.go:223-258 | A session changes exactly on a missing or full dictionary, a 413 to either request, or a 409 to the first; every other reply to either request keeps the grown dictionary. |
| `Transport.DictionaryBound` | transport.go:223-254 | After the first request, its reply, and the reply to a follow-up the dictionary holds at most 2047 series plus the payload's event count. |
| `Transport.RevisionBound` | line_protocol_v4.go:97-99 | The revision rises by one exactly when series are added and never exceeds their number. |
| `Transport.HTTPTransport.Send` | transport.go:201-248 | The method issues exactly the one or two bodies, and leaves exactly the dictionary, that the sender's steps prescribe for the replies it gets. |
| `LineProtocol.DictionaryState.Encode` | line_protocol_v4.go:38-141 | The imperative encoder produces the specified body byte for byte and the grown dictionary, keeping map and list inverse to each other, for every payload. |
| `LineProtocol.DictionaryState.GetSeriesID` | line_protocol_v4.go:56-70 | Interning returns the id of the key, appends exactly unknown series, and keeps ids dense. |
| `LineProtocol.LearnAllFacts` | line_protocol_v4.go:56-95 | Encoding only appends, adds at most one series per event, keeps keys distinct and leaves every event's series known. |
| `LineProtocol.LookupStable` | line_protocol_v4.go:56-70 | An id once given never changes as the dictionary grows. |
| `LineProtocol.RoundIsNearest` | line_protocol_v4.go:76-76 | A counter is sent as the nearest integer, halves away from zero, and this determines it. |
| `LineProtocol.ReadsIsSamples` | line_protocol_v4.go:72-141 | The events a body stands for are the one list that reads as the payload's own fields, event by event. |
| `LineProtocol.WriteSeriesDefinition` | line_protocol_v4.go:143-156 | The writer loop prints a definition with its non-empty labels. |
| `LineParser.BodyMeaning` | line_protocol_v4.go:38-141 | Against a receiver that knows what the body leaves out, a body reads as its payload's fields, event by event, if and only if every series is fit for the wire, every unique id plain, and no two different series share a key. |
| `LineParser.OnlyNewDefinitions` | line_protocol_v4.go:97-120 | A body defines exactly the series that are new, under the next ids and once each (all of them when forced), and its revision says whether there are any. |
| `LineParser.BodyExample` | line_protocol_v4_test.go:26-48 | The text of one body, literally: a known series is not defined again, the new one gets the next id, values are rounded. |
| `LineParser.SelfContained` | line_protocol_v4.go:100-120 | A body from a fresh dictionary, or with forced definitions, decodes with no prior receiver state. |
| `LineParser.NulCollisionLosesASeries` | batch_builder.go:143-153 | A concrete payload whose two series line up at a NUL does not decode to itself. |
| `LineParser.BarInLabelSplitsIt` | line_protocol_v4.go:143-156 | A concrete counter with a bar in its label is read back with two labels, and its body does not decode to its payload. |
| `LineParser.ParsedAsSent` | line_protocol_v4.go:102-138 | An encoded body parses to the intended session, revision, definitions and events. |
| `LineParser.DefinitionRoundTrip` | transport.go:550-566 | The in-repository parser inverts the definition writer if and only if the metric has no bar and every label is non-empty and has none. |
| `LineParser.ParseSeriesDefinitionLine` | transport.go:550-566 | The parsing loop computes the metric and non-empty labels of a line. |
| `LineAnalysis.AnalysisAgrees` | transport.go:413-494 | On an encoded body the analysis reports the exact session, revision, counts, least and greatest event id, and byte shares adding up to the body. |
| `LineAnalysis.Analyze` | transport.go:413-494 | The analysis loop computes the tally of the body's lines for every input. |
| `Events.KeyFaithful` | batch_builder.go:143-153 | A series is told apart by its key from every other NUL-free series if and only if it is NUL-free. |
| `Events.LabelIsWireSafe` | labels.go:13-18 | Any key and value give a non-empty label without separators that splits back into the sanitised halves. |
| `UniqueId.SameTextIffSameNumber` | unique_id.go:7-67 | Ids of any Go type get the same text exactly when they denote the same number, and text exactly when they denote one. |
| `UniqueId.CanonicalFixedPoints` | unique_id.go:58-67 | Canonicalisation is idempotent and its fixed points are exactly the numerals below 2^64 without leading zeros. |
| `UniqueId.CanonicalTextMeaning` | unique_id.go:58-67 | A string is accepted exactly when it is decimal digits for a number below 2^64, and becomes that number's numeral without leading zeros. |
| `UniqueId.CanonicalMeaning` | unique_id.go:7-56 | For every dynamic type, which ids are accepted and the number their numeral stands for. |
| `UniqueId.ZerosInFront` | unique_id.go:58-67 | Zeros before an id change nothing; `010` becomes `10`. |
| `RateLimiter.AdmissionBound` | value_rate_limiter.go:23-46 | For any threads and any interleaving of loads and swaps at most 20,000 calls are admitted per second, and the low 16 bits count the current window's admissions. |
| `RateLimiter.LimitHoldsExactly` | value_rate_limiter.go:23-46 | For any set of seconds in use, the limit holds for one of them in every run if and only if it is below 2^48 and each second of the set is below 2^48 or wraps to a later window. |
| `RateLimiter.WrappedCallReopens` | value_rate_limiter.go:24-35 | 20,000 calls at a second, one call at a second that wraps to it or before, and one more call admit 20,001 at that second. |
| `RateLimiter.RefusalsJustifiedExactly` | value_rate_limiter.go:23-46 | For any set of seconds in use, each call at one of them that ends without being admitted, under every interleaving, finds 20,000 admissions there or one at a later in-range second, if and only if the second is not below 2^48 or each second of the set is below 2^48 or wraps to an earlier window. |
| `RateLimiter.LimiterExact` | value_rate_limiter.go:23-46 | Over a set of seconds, limit and justified refusals hold for each of them in every run if and only if all are below 2^48. |
| `RateLimiter.PassedIsRefused` | value_rate_limiter.go:29-35 | Once the stored window is past a second and no call that wraps back to it or before is made, no thread is admitted at that second again. |
| `RateLimiter.MinusOneSilences` | value_rate_limiter.go:24-35 | Once the word is the one a call at -1 stores, a second below 2^48 - 1 gains no admission in any continuation over a set of seconds, if and only if each of them is below 2^48 or wraps to a later window. |
| `RateLimiter.FirstAlone` | value_rate_limiter.go:29-32 | The first call, at a second that does not fit, is admitted and stores the wrapped window with count 1. |
| `RateLimiter.StepKeepsInv` | value_rate_limiter.go:23-46 | Every step keeps the packed word in range and its count exact, and each admission strictly raises it. |
| `RateLimiter.SwapFacts` | value_rate_limiter.go:27-43 | A swap never carries into the window bits and strictly raises the word. |
| `RateLimiter.CallLosesBoundedly` | value_rate_limiter.go:25-45 | In every run a call loses at most its ceiling minus its starting word many swaps. |
| `RateLimiter.ValueRateLimiter.AllowAt` | value_rate_limiter.go:23-46 | The loop ends under any interference and its answer is the one decided by the word at a single moment. |
| `RateLimiter.AloneAdmitsExactly` | value_rate_limiter.go:23-46 | Run one after the other, for every sequence of in-range calls, each second admits exactly min(n, 20000), n being its calls that no later second precedes. |
| `RateLimiter.SteadyClockAdmits` | value_rate_limiter.go:23-46 | If the clock never goes back, every second admits exactly min(its calls, 20000). |
| `Aggregation.CountersDescribed` | batch_builder.go:54-93 | The counters are one sum for each of the first 2048 series by first occurrence, its timestamp that of an event of the series and none newer, then every event of later series by itself. |
| `Aggregation.CountersConserve` | batch_builder.go:54-93 | Per series, a payload's counters add up to the batch's counter events, below and above the cap. |
| `Aggregation.OneCounterPerSeries` | batch_builder.go:54-93 | A batch within the cap yields no two counters of one series. |
| `Aggregation.UniquesAreLeading` | batch_builder.go:95-110 | The uniques are exactly the first occurrences of each key, in order, with their own series, id and timestamp. |
| `Aggregation.PayloadIfCarries` | client.go:419-434 | A batch makes a payload if and only if it holds a counter, a value or a unique event with an id. |
| `Aggregation.DedupByMeaning` | batch_builder.go:95-110 | Two unique events collapse if and only if metric, labels and the number of the id agree. |
| `Aggregation.UniqueKeyInjective` | batch_builder.go:99-99 | The joined dedup key separates NUL-free series and id. |
| `Aggregation.ValuesForwarded` | batch_builder.go:42-48 | Each Value event is forwarded as one sample with its own fields, other kinds as none, and order is kept across any split of the batch. |
| `BatchBuilder.BuildPayload` | client.go:419-434 | Whatever the hash function, the built payload is the fold of the events, and none is built from nothing. |
| `BatchBuilder.BatchBuilder.AddCounter` | batch_builder.go:54-93 | The chain-based insertion equals the list fold's and keeps every chain exact. |
| `BatchBuilder.Walk` | batch_builder.go:55-69 | The chain walk ends and finds an entry of the series if and only if there is one, for every hash function. |
| `BatchBuilder.ChainedSnoc` | batch_builder.go:86-92 | Prepending an entry keeps each chain visiting exactly the entries of its hash. |
| `BatchBuilder.BatchBuilder.AddUnique` | batch_builder.go:95-110 | Insertion keeps the first of each key and the seen set exact. |
| `BatchBuilder.LabelsEqual` | batch_builder.go:131-141 | The loop decides equality of label lists. |
| `BatchBuilder.BuildSeriesKey` | batch_builder.go:143-153 | The loop builds the key the theorems are about. |
| `Totals.ConversionAccount` | client.go:380-406 | Per series, what reaches the batch is the Count deltas plus, for a tracked series, the rises of its Total samples; an untracked series was refused by the cap and adds nothing; the latest sample is stored; at most 2048 series are tracked. |
| `Totals.TotalsTelescope` | client.go:380-406 | For a tracked series the stored sample is the first one plus the emitted deltas minus the falls. |
| `Totals.OnlyPositiveDeltas` | client.go:393-405 | Only strictly positive deltas over the stored sample are emitted, and no baseline is ever forgotten. |
| `Totals.ConvertedShape` | client.go:342-406 | Every event of a stream reaches the batch exactly once and in order, a Total as its rise over the latest sample of its key with its own series, id and timestamp; left out are only Totals that are first of their key, or no rise, or find 2048 keys. |
| `Totals.OthersPass` | client.go:342-349 | The Value and Unique events of the converted stream are those of the stream, unchanged and in order. |
| `Worker.CountersConserved` | client.go:314-434 | Until sending stops, for every series the counters of all payloads built plus the pending batch equal the dequeued Count deltas plus the rises of tracked Totals. |
| `Worker.TickFlushes` | client.go:335-337 | In every run a tick (and the last pass of Close) leaves no pending batch: if it carries anything and sending goes on, it becomes exactly one payload whose first Send starts in that step if the gate is open; then the first due retry entry is handed over. |
| `Worker.DequeueJoins` | client.go:338-352 | In every run a dequeued event joins the batch as it is, a Total as a positive delta or not at all; the 512th event, and nothing before it, has the batch built and handed over. |
| `Worker.TickAccountsForAll` | client.go:334-434 | After a tick, while sending goes on, the payloads alone account for every counter delta and every Value event dequeued. |
| `Worker.ValuesConserved` | client.go:314-434 | Until sending stops, the values of all payloads in order and those pending are the dequeued Value events in order. |
| `Worker.UniquesConserved` | client.go:314-434 | Until sending stops, every dequeued unique event with an id is in the pending batch or in a flushed batch whose payload holds its key. |
| `Worker.BatchesAreStream` | client.go:334-377 | The batches, flushed or pending, hold every dequeued event once and in order, Totals as their rises. |
| `Worker.PayloadsWellFormed` | client.go:349-352 | In every run, for any series, each payload is the aggregation of one batch of 1 to 512 events, none of them a Total, with no two counters of one series. |
| `Worker.StepKeepsOk` | client.go:334-377 | Flushed batches and the pending one always are the converted stream, cut in order, and payloads are those batches. |
| `Worker.Worker.ApplyTotal` | client.go:380-406 | The in-place conversion updates the baselines and the event as specified on all branches. |
| `Worker.Worker.Step` | client.go:334-377 | One loop iteration of the object, builder and sender included, is the worker's step. |
| `Delivery.CleanBatchIsSafe` | client.go:419-434 | Clean events make a payload that the dictionary protocol carries without loss. |
| `Delivery.WorkerPayloadsAreSafe` | client.go:314-434 | If every dequeued event is clean, every payload any worker run ever builds is non-empty and one the dictionary protocol carries without loss. |
| `Delivery.CleanEventsArriveExactly` | transport.go:201-258 | End to end: in every protocol run fed from a worker run over clean events, each body the receiver accepts was read, field by field, as the aggregation of one of the worker's batches. |
| `Delivery.DictionaryStaysSmall` | config.go:12-14 | Serving worker batches, the dictionary stays below 2560 series. |
| `Retry.AttemptAccounting` | client.go:441-556 | In every run an entry's attempts are the Sends made for its payload, at most 7; nothing is sent more than 8 times; a Send carries the payload built under its id. |
| `Retry.PayloadsConserved` | client.go:408-556 | In every run each payload built is either queued, once, or ended; it is delivered if and only if its latest Send succeeded, queued only if no Send settled it, and every ending matches the number of Sends and the latest reply; the queue holds at most 128. |
| `Retry.BatchIDInjective` | client.go:436-439 | Different payload numbers give different batch ids. |
| `Retry.BatchIDNumeral` | client.go:436-439 | A batch id is the session, a dash, and the payload number in base 36. |
| `Retry.RetakeNeverLosesToFullQueue` | client.go:576-578 | A payload taken out for retry is never dropped because the queue is full. |
| `Retry.GateRespected` | client.go:479-490 | A Send starts if and only if sending goes on and the gate is open, never before the gate, at most one per call, and a deferred payload keeps its attempt count. |
| `Retry.FlushHands` | client.go:408-478 | A flush of a payload with content, while sending goes on, builds the next id and sends it in that step if and only if the gate is open; gate, counter, queue and ending follow exactly from the reply. |
| `Retry.TransientFailureSchedules` | client.go:492-556 | Every transient failure closes the gate for the doubled, capped, jittered delay; the payload is re-queued last with its own delay, or ends as out of budget or refused by a full queue, in that order. |
| `Retry.OutageSpan` | client.go:492-506 | In every run the backoff counter is the number of transient failures since the last success, and N >= 6 of them span at least 31 + 30 (N - 6) seconds. |
| `Retry.StoppedForever` | client.go:408-411 | Once stopped, no continuation of a run sends or builds again. |
| `Retry.StopIsLast` | client.go:458-464 | In every run a stop reply is the last Send. |
| `Retry.RetryPassShape` | client.go:558-582 | A pass is a chain of at most its limit of takes, each of an entry due as it then stands unless backoff is ignored. Each take sends its payload once if and only if sending goes on and the gate is open, and ends, re-queues or delivers it as the reply says. Afterwards the queue is exactly the untouched entries in their old order, then the payloads put back, each from a different old position; an entry due at the start stays untouched only if the limit is used up on entries before it. |
| `Retry.RetryDelivers` | client.go:558-582 | In every run, a pass that finds the gate open sends the first due entry, and on success its payload is delivered, leaves the queue and ends the outage. |
| `Retry.StopInsidePass` | client.go:558-582 | Once sending has stopped, the rest of a pass sends nothing and each queued payload stays queued or ends as dropped after the stop. |
| `Retry.ConfiguredPass` | client.go:558-582 | With the configured limit a pass hands over exactly the first due entry, if there is one: sent if and only if the gate is open, with queue, gate, counter and ending as the reply says. Nothing is dropped because of a stop. |
| `Retry.SendKeepsInv` | client.go:441-478 | One sendPayload moves the payload to exactly one place and keeps attempts, gate, log and queue bound consistent. |
| `Client.Client.Send` | client.go:441-478 | The method changes every field as the machine's step says, for every gate state and reply. |
| `Client.Client.EnqueueRetryAt` | client.go:512-556 | The budget is checked before the room, and a refused payload ends with the matching reason. |
| `Client.Client.RunPass` | client.go:568-581 | The loop over the queue it edits computes the specified pass. |
| `Backoff.DoublingDelay` | client.go:584-595 | The doubling loop computes min(2^(n-1) s, cap), attempts below one counting as one. |
| `Backoff.ClientBackoffDelay` | client.go:602-618 | The client delay is the doubled delay capped at 30 s plus jitter below 5 s. |
| `Backoff.RetryDelay` | client.go:584-600 | The retry delay is the doubled delay capped at 8 s plus jitter below 1 s. |
| `Backoff.DelayBounds` | client.go:584-618 | Delays never shrink with the attempt and stay within 1 to 9 and 1 to 35 seconds. |
| `Backoff.Schedules` | client.go:584-618 | Retries wait 1, 2, 4, then 8 seconds and gates 1, 2, 4, 8, 16, then 30, before jitter. |
| `Backoff.GateTotalClosed` | client.go:602-613 | n >= 5 gates in a row add up to 31 + 30 (n - 5) seconds before jitter. |
| `EventPool.EventObject.Fill` | event.go:34-47 | Filling in place gives the event exactly the new content, whatever its buffer held, except the unique id, which is not written. |
| `EventPool.EventObject.AppendLabel` | event.go:39-44 | Appending writes into the reused buffer while there is room and into a larger one otherwise. |
| `EventPool.TrimFacts` | event.go:41-41 | Trimming removes all white space at both ends and nothing else. |
| `EventPool.UsableLabels` | event.go:40-44 | An event's labels are the trimmed ones in order, each blank one dropped: the list homomorphism fixed by its value on one label. |
| `EventPool.CloneLabels` | labels.go:20-27 | The copy is a new array with the same labels. |
| `EventPool.Pipeline.Borrow` | event.go:34-35 | A pooled or new event comes into the caller's hands with an empty unique id, which every release and the pool's invariant guarantee. |
| `EventPool.Pipeline.Fill` | event.go:34-47 | Filling a held event changes its content and no other: other callers' drafts, queue, batch and payloads stay, though the buffer is reused. |
| `EventPool.Pipeline.Enqueue` | client.go:234-240 | A held event enters the queue with the content its holder gave it, or goes back to the pool if and only if the queue is full; all other contents stay. |
| `EventPool.Pipeline.Release` | event.go:55-65 | The event goes back to the pool cleared, its unique id included, and no other content changes. |
| `EventPool.Pipeline.OtherSteps` | client.go:314-377 | Any number of steps of other callers and the worker, in any order, leave the content of any set of held events, the empty one included, and every payload built before untouched. |
| `EventPool.Pipeline.Submit` | client.go:213-241 | With any steps of others between a caller's borrow, fill and enqueue, what enters the queue is what the caller gave, and no payload built before changes. |
| `EventPool.Pipeline.Dequeue` | client.go:339-349 | Receiving takes the oldest event into the worker's hands and changes no content. |
| `EventPool.Pipeline.ApplyTotal` | client.go:380-406 | On the object itself: the baselines become the specified ones and the event is overwritten to exactly the delta to keep, if any; nothing else changes. |
| `EventPool.Pipeline.Receive` | client.go:339-349 | A dequeued event joins the batch as the stream conversion has it, or is released; queue order, callers' drafts and payloads stay. |
| `EventPool.Pipeline.CopyBatch` | batch_builder.go:38-52 | Payload events are appended as copies in arrays no event owns; earlier payload contents stay. |
| `EventPool.Pipeline.ReleaseBatch` | client.go:328-332 | Each batched event goes back to the pool once; payload and queue contents stay. |

## Left out

- HTTP request building, headers, response draining and error bodies: only the outcome of a request is modelled.
- Classification of errors (`errors.As`, syscall errors, stop codes): an enumeration of outcomes instead.
- Log messages and the sampled, truncated and largest-series fields of the body analysis: diagnostics only.
- Float behaviour beyond reals: NaN, infinities, rounding of sums, and counters outside the 64-bit range.
- 64-bit wrap-around of batch and revision counters.
- `enqueue` guards (empty metric, reserved workload label, stop flag) and the race of a late enqueue with shutdown.
- Configuration, endpoint handling, workload validation and the package-level default client.
- Collectors, probes, the agent, the load generator and scripts.
- EventPool.Pipeline.CopyBatch: copies one payload event per batch event; the merging of counters, which copies labels only for a new series, is proved on values in the builder.
- EventPool.Pipeline.Release: leaves the kind as it was where the source zeroes it, because every borrow overwrites it.
- Backoff.DoublingDelay: the two delay functions repeat this loop with different caps; the model has it once.
- Worker.Worker.Step: the order in which the select statement picks ready cases is an input; the ticker and channels themselves are not modelled.
- Transport.HTTPTransport.Send: the mutex is not modelled, sends are taken one at a time as the lock makes them.
