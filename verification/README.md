# A model of sqlalchemy-collectd

The project models how sqlalchemy-collectd gathers, sends, stores and adds up
connection statistics, and proves what the numbers at the far end mean.

A client keeps sets of connection ids, changed by pool events
(`collector.dfy`), and a loop sends their sizes every two seconds
(`worker.dfy`). Each message is packed into collectd's binary format and
unpacked again (`bytes.dfy`, `binary64.dfy`, `codec.dfy`, `framing.dfy`,
`roundtrip.dfy`, `wire.dfy`). The server keeps the last message of every process in
dictionaries whose records expire (`buckets.dfy`, `receiver.dfy`), and on
request sorts, groups and sums them and splits the sums into single values
(`grouping.dfy`, `protocol.dfy`, `translation.dfy`). A console keeps running
figures of those values (`console.dfy`).

The main results:

* End to end. After any run of messages and summaries, a summary yields, once
  each, the values due: for every host and program with a live record, and for
  every host, the sum of each field over exactly the live records; and the live
  records are exactly the last messages that no accepted call has expired
  (`invariant.dfy`, `history.dfy`, `summary.dfy`, `emissions.dfy`, `laws.dfy`).
* Host rows are the sums of program rows, numprocs counts live processes, no two
  values share an identity, and checked-in, checked-out and detached connections
  never exceed connections; each with the exact condition where there is one.
* Packing gives exactly the bytes of collectd's format, and unpacking undoes it,
  exactly when the vector fills its type; decoding is a
  homomorphism from concatenation of parts to overriding of maps; its loop comes
  to an end except on exactly the buffers that lead it to a part of length zero.
* A process that keeps sending is never evicted iff a bound on loop gap, delay and
  lost rounds holds, and is then counted in every summary; messages may overtake
  each other and clients may differ in their intervals (`freshness.dfy`).
* From the clients' connection events, over the wire, to the rows of the output: each
  value shown is the sum of the count of its name over the clients last heard, and the
  accounting of connections survives (`pipeline.dfy`, `clients.dfy`).

Conventions. Times are reals and `int(t)` is truncation toward zero.
`int(x * 1.2)` is `6 * x / 5` on whole numbers, rounded toward zero; the two
agree as long as `x * 1.2` is below 2^50. `None` is `Option.None`, exceptions are
error values, and a generator is the list it yields with the way it ends. Classes
stand for the classes of the source; each method's contract ties its object to a
function on values, about which the lemmas speak. `DictFacade` and
`EngineCollector` refer to the object whose dictionary or sets they share. Lemmas to
which Dafny would apply induction of its own accord carry `{:induction false}`: the
hypothesis it assumes is not limited to arguments of the right types, and every
induction here is written out.

What the proofs turned up about the code:

* A negative interval in a message makes the second of two calls at one time
  fail, so that a summary breaks off (`SummaryCompletes`), having yielded what
  `OutputExact` says.
* A process message without a token, or with a negative interval, keeps its own
  vector in the process bucket, and numprocs is off by exactly what such live
  records count beyond one each (`NumprocsCountsTokens`, `ProgramCountIff`).
* The process record lives for six intervals, but a message that comes later than
  12/5 of its interval, rounded down, can be rejected before the process bucket is
  asked, so lost rounds and delay do not trade against each other freely
  (`PromptIsNeeded`).
* If messages can take longer than the interval, an old one can overwrite a newer
  one's record and age it, so that interval + gap + delay + 1 within 12/5 of the
  interval is not enough (`OvertakingMatters`); the exact bound is `NoFlickerIffSafe`.
* A program named "host" collides with the host row (`IdentitiesUnique`).
* A vector shorter than its type is packed without complaint and cannot be
  unpacked (`RoundTrip`).
* Two checkout reports with one time and an interval of 0 make the console divide
  by zero, if the total was positive (`DividesByZeroIff`).

## Model

| member | source | states |
|---|---|---|
| Buckets.StoreRefinesHistory | sqlalchemy_collectd/stream.py:85-132 | a key is present iff its last write was followed by no accepted call late enough to expire it, and holds that write's value |
| Buckets.HeldWhileInTime | sqlalchemy_collectd/stream.py:91-107 | in plain numbers: a key is present iff every call accepted since its last write came at most 6/5 of the interval, in whole seconds, after it, the last moment included |
| Expiry.AdmitsIff | sqlalchemy_collectd/stream.py:88-101 | a call is accepted iff the interval in force is 0 or the call's whole second is at most 6/5 of it before that of the last accepted one, the bound included |
| Buckets.RejectedCallKeepsRecords | sqlalchemy_collectd/stream.py:88-101 | a rejected call leaves records and last timestamp alone, and only remembers the interval it was given |
| Buckets.SecondCallSameTime | sqlalchemy_collectd/stream.py:85-108 | a second call at the same time changes nothing, and is accepted iff the interval in force is not negative |
| Buckets.TimeBucket.Sweep | sqlalchemy_collectd/stream.py:102-105 | the loop deletes exactly the stale records |
| Buckets.TimeBucket.GetData | sqlalchemy_collectd/stream.py:85-132 | accepts or rejects by the clock alone, evicts exactly the stale records, logs the call, and hands out a view of the same dictionary |
| Buckets.TimeBucket.Put | sqlalchemy_collectd/stream.py:110-119 | an accepted call followed by the write, and the view it wrote through; or a rejected call and no write |
| Buckets.TimeBucket.Get | sqlalchemy_collectd/stream.py:121-127 | what the dictionary holds for the key after the sweep |
| Buckets.DictFacade.SetItem | sqlalchemy_collectd/stream.py:165-166 | writes into the bucket's own dictionary with the time and interval of the call that gave the view |
| Expiry.PresentIffLive | sqlalchemy_collectd/stream.py:102-108 | the same law for any sequence of sweeps and stores |
| Summation.SumIsSumOf | sqlalchemy_collectd/protocol.py:169-197 | a sum has the shortest length, element-wise sums, and in each metadata field the common value or None, 10 for the interval |
| Summation.SumPermutation | sqlalchemy_collectd/protocol.py:169-197 | summation does not depend on the order of the records |
| Summation.MixedIntervals | sqlalchemy_collectd/protocol.py:149-155 | records with different intervals sum to one with an interval of 10 |
| Summation.TestSums | sqlalchemy_collectd/tests/test_protocol.py:39-72 | the sums of the repository's protocol test |
| Protocol.TruncIsTowardZero | sqlalchemy_collectd/stream.py:91-97 | the whole part of a number of either sign is the nearest to it on the side of zero |
| Grouping.GroupsOnce | sqlalchemy_collectd/server/receiver.py:103-105 | sorting and grouping the keys gives each (host, program), or each host, exactly one non-empty group with exactly its keys |
| Grouping.GroupsContiguous | sqlalchemy_collectd/server/receiver.py:119-121 | in sorted order a group once left is not met again |
| Grouping.Sorted | sqlalchemy_collectd/server/receiver.py:103-105 | every key once, in ascending lexicographic order |
| Grouping.StringLeqIff | sqlalchemy_collectd/server/receiver.py:103-105 | one string is at most another iff it is a prefix or smaller at the first place where they differ |
| Grouping.LeqIff | sqlalchemy_collectd/server/receiver.py:103-105 | keys are ordered by host, then program, then token |
| Grouping.GroupsInOrder | sqlalchemy_collectd/server/receiver.py:103-121 | the groups come in order of host and then program |
| Grouping.RunLength | sqlalchemy_collectd/server/receiver.py:103-105 | the longest leading run of keys of one group |
| Translation.SplitRejoins | sqlalchemy_collectd/stream.py:52-62 | the single values, rejoined by field index, are the vector again as far as the type has fields |
| Translation.SplitField | sqlalchemy_collectd/stream.py:54-62 | the i-th single value has the i-th field's name, external type and value, and the record's other metadata |
| Translation.TypeIsFound | sqlalchemy_collectd/stream.py:35-50 | a type is found under its name unless a later type or a field takes the name |
| Translation.ExternalIsFound | sqlalchemy_collectd/stream.py:43-50 | a field's external type has its name and one value of its type |
| Translation.ReceivedTypeIsFound | sqlalchemy_collectd/server/receiver.py:23-36 | the look-up of a received type never fails |
| Translation.StreamTranslator.constructor | sqlalchemy_collectd/stream.py:32-50 | the two loops build the table in which field names override type names |
| Translation.StreamTranslator.AddTypes | sqlalchemy_collectd/stream.py:43-50 | the second loop adds the external types of all fields to both tables |
| Translation.StreamTranslator.AddFields | sqlalchemy_collectd/stream.py:43-50 | the inner loop adds one external type per field to both tables |
| Receivers.Receiver.constructor | sqlalchemy_collectd/server/receiver.py:29-44 | three empty, distinct buckets and the translator's table |
| Receivers.Receiver.SetStats | sqlalchemy_collectd/server/receiver.py:69-97 | the buckets move as the value-level writer says, in step with the event history |
| Receivers.Receiver.Record | sqlalchemy_collectd/server/receiver.py:78-80 | calls a bucket and, if accepted, writes the record through the view |
| Receivers.Receiver.GetStats | sqlalchemy_collectd/server/receiver.py:99-127 | the rows of one aggregation over the records left after the sweep, or a ValueError |
| Receivers.Receiver.Translate | sqlalchemy_collectd/server/receiver.py:56-59 | all rows through the translator, up to a KeyError |
| Receivers.Receiver.StatsOfKind | sqlalchemy_collectd/server/receiver.py:52-67 | one type's program rows, then its host rows unless the first failed |
| Receivers.Receiver.Summarize | sqlalchemy_collectd/server/receiver.py:51-67 | everything yielded before the generator ends or fails, and the buckets it leaves |
| RecordInvariant.RecordsAlwaysMatch | sqlalchemy_collectd/server/receiver.py:69-97 | in every reachable state a record's host, program, token and type equal its key and bucket, and its stamp and interval come from its message |
| RecordInvariant.BucketByName | sqlalchemy_collectd/server/receiver.py:70-77 | a message goes to the bucket of its type's name, and to none under any other name than the three |
| MessageHistory.OutcomeExact | sqlalchemy_collectd/server/receiver.py:77-97 | which messages are stored, rejected or of unknown type; one rejected by the process bucket alone stays in its own |
| MessageHistory.ReceiveEffect | sqlalchemy_collectd/server/receiver.py:69-97 | the net effect of a message on each bucket is one sweep and one store, decided by the clocks |
| MessageHistory.RunTicks | sqlalchemy_collectd/server/receiver.py:69-97 | the clocks that decide acceptance are a fold over the messages and summaries, without a look at any record |
| MessageHistory.BucketHoldsLastMessages | sqlalchemy_collectd/server/receiver.py:69-97 | after any run a bucket holds a key iff some message was the last stored under it and no call accepted since expired it; what is held is exactly what that message left |
| MessageHistory.HeldWhileGood | sqlalchemy_collectd/stream.py:91-107 | in plain numbers, without negative intervals: a key is held iff every call its bucket accepted since the last message stored under it came at most 12/5 of the interval, rounded down, after it, six intervals where it counts its sender |
| MessageHistory.ProcessRecordKeeps | sqlalchemy_collectd/server/receiver.py:93-97 | a process record keeps host, plugin, program, token, time and interval of its message |
| SummaryRows.RowExact | sqlalchemy_collectd/server/receiver.py:106-114 | a row has its group's host, label and type, the summary's time, the first record's interval, and the sums over its group |
| SummaryRows.SummaryCompletes | sqlalchemy_collectd/server/receiver.py:51-67 | a summary ends normally iff each clock admits the time and holds no negative interval, and otherwise with a ValueError, never a KeyError |
| Emissions.OutputExact | sqlalchemy_collectd/server/receiver.py:51-127 | however a summary ends, it has yielded exactly the values due in the parts before the failing one, in order of type, of programs before hosts, of group, and of field |
| Emissions.SummaryExact | sqlalchemy_collectd/server/receiver.py:51-127 | a finished summary yields each due value, nothing else and nothing twice, in order |
| SummaryLaws.EndToEnd | sqlalchemy_collectd/server/receiver.py:51-127 | the same after any run: the live records are the last stored, unexpired messages, and each is exactly what its message left |
| SummaryLaws.HostTotal | sqlalchemy_collectd/server/receiver.py:116-127 | a host's total is the sum of its programs' totals |
| SummaryLaws.HostValueIsSumOfProgramValues | sqlalchemy_collectd/server/receiver.py:51-67 | in the output, whatever programs are called, each value that comes from a host is the sum of the values that come from its programs for that field |
| SummaryLaws.HostRowIsSumOfProgramRows | sqlalchemy_collectd/server/receiver.py:51-67 | unless a live program is named "host", each host value in the output is the sum of that field's program values in the output |
| SummaryLaws.FieldNamesIdentify | sqlalchemy_collectd/collectd_types.py:29-54 | a field name determines the type and the field |
| SummaryLaws.OutputTypes | sqlalchemy_collectd/stream.py:38-62 | whatever is yielded is under one of six names with the type "count", or under one of four with the type "derive" |
| SummaryLaws.IdentitiesUnique | sqlalchemy_collectd/server/receiver.py:51-67 | two values of a summary share an identity iff a live program is named "host" on a host whose records all have a value |
| SummaryLaws.ReceiveKeepsOnes | sqlalchemy_collectd/server/receiver.py:82-97 | a message keeps all process records at one iff it is not an accepted process message, tokenless or with a negative interval, with another vector |
| SummaryLaws.OnesIffLiveOnes | sqlalchemy_collectd/server/receiver.py:82-97 | after any run all process records are ones iff no live one was left by such a message with another vector |
| SummaryLaws.NumprocsCountsTokens | sqlalchemy_collectd/server/receiver.py:82-97 | after any run a group's process total is its number of distinct live tokens, or for a host (program, token) pairs, and whatever live records left by such messages count beyond one each |
| SummaryLaws.ProgramCountIff | sqlalchemy_collectd/server/receiver.py:82-97 | when no process message has a negative interval, a program's total counts its live tokens iff a live tokenless record counts one |
| SummaryLaws.NumprocsByOrigin | sqlalchemy_collectd/server/receiver.py:99-127 | in the output, every numprocs value shows the live processes of the group it comes from and that excess, which is nothing where live records count one each, and such a group has its value |
| SummaryLaws.NumprocsEmitted | sqlalchemy_collectd/server/receiver.py:99-127 | unless a live program is named "host", labels tell the groups: a program's value shows its live tokens, the value labelled "host" the host's live (program, token) pairs, each with that excess |
| SummaryLaws.TokenlessMessageMiscounts | sqlalchemy_collectd/server/receiver.py:77-82 | one tokenless process message makes one record count as seven |
| SummaryLaws.TotalsAccountable | sqlalchemy_collectd/server/receiver.py:99-127 | if every pool message has checkedout + checkedin + detached <= connections, so have the totals of every program and host |
| SummaryLaws.AccountingSurvives | sqlalchemy_collectd/server/receiver.py:99-127 | and so have any four values the output shows under one host and label, labels "host" only if no live program has that name |
| Codec.EncodeValues | sqlalchemy_collectd/protocol.py:116-123 | the loop yields template and zipped data column, or the first error |
| Codec.UnpackValues | sqlalchemy_collectd/protocol.py:354-364 | the loop reads the two columns in step, or stops at the first error |
| Codec.UnpackPacket | sqlalchemy_collectd/protocol.py:329-346 | the loop returns what the recursive reading of the parts gives, and terminates |
| Codec.Handle | sqlalchemy_collectd/protocol.py:285-297 | each known code yields a value of its own kind, and only unknown codes yield none |
| Bytes.LongRoundTrip | sqlalchemy_collectd/protocol.py:348-349 | 64-bit two's complement, most significant byte first, reads back |
| Bytes.WordRoundTrip | sqlalchemy_collectd/protocol.py:43 | a double's word, least significant byte first, reads back |
| Binary64.WholeRoundTrip | sqlalchemy_collectd/protocol.py:43 | every whole number below 2^53 in magnitude survives as a binary64 word |
| Binary64.WordMeans | sqlalchemy_collectd/protocol.py:43 | sign, exponent with a bias of 1023 and significand of a word are those of its number |
| Binary64.WholeOrNothing | sqlalchemy_collectd/protocol.py:43 | a word made of any whole number is read as that number or as none below 2^53 |
| Binary64.LargeRoundsToNearest | sqlalchemy_collectd/protocol.py:43 | a larger one becomes a nearest multiple of its last unit, which all doubles of its size are, and of two the even one |
| Binary64.HasWordIff | sqlalchemy_collectd/protocol.py:43 | it has a word iff it is below 2^1024 less half the last unit |
| Framing.DecodeAfterParts | sqlalchemy_collectd/protocol.py:329-346 | well-framed parts decode alike whatever follows, and the rest overrides them or fails as it would alone |
| Framing.DecodeConcat | sqlalchemy_collectd/protocol.py:329-346 | decoding a concatenation is overriding one decoding by the other |
| Framing.LastPartWins | sqlalchemy_collectd/protocol.py:343 | the last part of a code gives its value, and a code without a part is absent |
| Framing.UnknownPartIgnored | sqlalchemy_collectd/protocol.py:336-339 | a part of unknown code between parts changes nothing |
| Framing.PermutedParts | sqlalchemy_collectd/protocol.py:329-346 | parts with distinct codes may come in any order |
| Framing.PacketOutcome | sqlalchemy_collectd/protocol.py:299-327 | a packet of framed parts is skipped iff its type part is missing or names an unknown type, fails iff another of the eight is missing, and otherwise gives a record |
| Framing.LoopsIffStuck | sqlalchemy_collectd/protocol.py:333-345 | turn after turn, the loop runs on for ever on exactly the buffers that lead it to a part of length zero, which are those reported as never returning; on others some turn is the last |
| RoundTrips.RoundTrip | sqlalchemy_collectd/protocol.py:246-327 | what was packed unpacks to the record with None strings empty, time truncated and whole GAUGE values rounded to doubles iff the vector fills its type; a shorter one cannot be unpacked |
| RoundTrips.PackInjective | sqlalchemy_collectd/protocol.py:246-273 | packing is injective up to that normalisation |
| RoundTrips.PackSucceedsIff | sqlalchemy_collectd/protocol.py:246-281 | packing succeeds iff the type is known, the strings are ASCII and short enough, and the numbers are in range, for a GAUGE the range of doubles |
| RoundTrips.MessageTiles | sqlalchemy_collectd/protocol.py:255-281 | each length field is its part's length, the parts in their order tile the message, and it has 55 bytes, its strings and 9 per value |
| Wire.MessageBytes | sqlalchemy_collectd/protocol.py:246-281 | every packable record is packed into exactly the bytes of the format: string parts ended by a zero byte, numbers in two's complement, the values part with its type bytes and elements, each where it belongs |
| Wire.TestMessage | sqlalchemy_collectd/tests/test_protocol.py:27-37 | the whole message of the repository's protocol test, byte for byte |
| Wire.NumberRead | sqlalchemy_collectd/protocol.py:348-349 | a time or interval part is read as the number whose eight bytes follow the header, whatever its length field says |
| Wire.StringRead | sqlalchemy_collectd/protocol.py:351-352 | a string part is read up to the last byte of its declared length, and must be ASCII; a declared length of 0 reaches to the last byte but one |
| RoundTrips.ValuesPart | sqlalchemy_collectd/protocol.py:99-123 | the values part declares 6 + 9 per field, and its two columns read back, or run out if the vector is short |
| RoundTrips.ValueBlock | sqlalchemy_collectd/tests/test_protocol.py:19-25 | the value block of the repository's protocol test, byte for byte |
| ConnectionEvents.CounterBalance | sqlalchemy_collectd/client/collector.py:119-124 | on any trace connects - disconnects - open connections is the number of connects for a known id |
| ConnectionEvents.TotalsCountEvents | sqlalchemy_collectd/client/collector.py:126-138 | three totals count their events, failed checkouts included |
| ConnectionEvents.SetsToldByTrace | sqlalchemy_collectd/client/collector.py:119-187 | on any trace at all, an id is in a set iff some event put it there and none since took it out |
| ConnectionEvents.FailuresToldByTrace | sqlalchemy_collectd/client/collector.py:126-187 | and a checkout raises, and an ending warns, exactly when the trace says so |
| ConnectionEvents.TotalsReported | sqlalchemy_collectd/client/sender.py:115-125 | the reported totals are the tallies of checkouts, invalidations and connects, and the fourth balances the connects with the open connections |
| ConnectionEvents.PoolReported | sqlalchemy_collectd/client/sender.py:100-112 | on lifecycle-respecting traces the reported pool vector counts pools, valid connections out, connections in, detached, and all |
| ConnectionEvents.EndingsCounted | sqlalchemy_collectd/client/collector.py:145-187 | and the fourth total counts all endings |
| ConnectionEvents.RunProjects | sqlalchemy_collectd/client/collector.py:119-187 | on lifecycle-respecting traces the five sets are exact projections of the connections' states, and no handler raises or warns |
| ConnectionEvents.ConnectionPartition | sqlalchemy_collectd/client/collector.py:62-85 | on such traces the sets lie in connections and every connection is counted once |
| ConnectionEvents.PlacementKeptIffHarmless | sqlalchemy_collectd/client/collector.py:119-187 | on arbitrary traces, the events after which the partition still holds are exactly the harmless ones |
| ConnectionEvents.StrayCheckinMiscounts | sqlalchemy_collectd/client/collector.py:131-133 | one checkin of a closed connection breaks the count |
| ConnectionEvents.EndedLeavesNoTrace | sqlalchemy_collectd/client/collector.py:145-187 | an ended connection's id is in no set, and the sets, also after a connect that reuses it, are as if it had never been |
| Collectors.CollectionTarget.constructor | sqlalchemy_collectd/client/collector.py:17-44 | a new target with empty sets and zero totals |
| Collectors.CollectionTarget.Snapshot | sqlalchemy_collectd/client/sender.py:100-125 | the two vectors a sender reports tell the tallies and numbers of the two rows on reported vectors |
| Collectors.EngineCollector.constructor | sqlalchemy_collectd/client/collector.py:93-113 | an engine's collector joins its target |
| Collectors.EngineCollector.ConnectEvt | sqlalchemy_collectd/client/collector.py:119-124 | the handler moves the shared sets as the event does |
| Collectors.EngineCollector.CheckoutEvt | sqlalchemy_collectd/client/collector.py:126-129 | likewise; it raises iff the id is not checked in, after counting |
| Collectors.EngineCollector.CheckinEvt | sqlalchemy_collectd/client/collector.py:131-133 | likewise |
| Collectors.EngineCollector.InvalidateEvt | sqlalchemy_collectd/client/collector.py:135-138 | likewise |
| Collectors.EngineCollector.ResetEvt | sqlalchemy_collectd/client/collector.py:140-143 | likewise |
| Collectors.EngineCollector.CloseEvt | sqlalchemy_collectd/client/collector.py:145-160 | likewise; it warns of a connection that is not known and of one that is still detached |
| Collectors.EngineCollector.DetachEvt | sqlalchemy_collectd/client/collector.py:171-173 | likewise |
| Collectors.EngineCollector.CloseDetachedEvt | sqlalchemy_collectd/client/collector.py:175-187 | likewise; it warns of a connection that is not known |
| Workers.Worker.AddTarget | sqlalchemy_collectd/client/worker.py:69-72 | a new target is appended with no last call, a known one left alone |
| Workers.Worker.SendTo | sqlalchemy_collectd/client/worker.py:52-59 | one send, decided by the clock, and the last call set before it |
| Workers.Worker.Visit | sqlalchemy_collectd/client/worker.py:52-59 | one target's reading of the clock; the others stay; not alive iff its send was fatal |
| Workers.Worker.Turn | sqlalchemy_collectd/client/worker.py:46-59 | one turn serves every target in order, or all up to the one whose send is fatal |
| Workers.Worker.Process | sqlalchemy_collectd/client/worker.py:36-66 | over any clock readings every target gets where it would get alone, and the loop stops in the very turn of the first fatal send |
| SendLoop.SendSpacing | sqlalchemy_collectd/client/worker.py:46-61 | sends are more than the interval apart, and late by at most one gap of the loop |
| SendLoop.LoopCanSend | sqlalchemy_collectd/client/worker.py:46-61 | and whatever sends keep to these bounds, some readings of the clock make the loop send then |
| SendLoop.ReadAllSends | sqlalchemy_collectd/client/worker.py:46-61 | reading the clock one value after the other gives exactly those sends |
| Freshness.SummariesFinish | sqlalchemy_collectd/server/receiver.py:51-67 | if no message comes from the future or with a negative interval, no summary of the current time fails |
| Freshness.LeadBound | sqlalchemy_collectd/client/worker.py:46-61 | how many rounds a message can be overtaken by, and by how much time; by none if the delay is at most the interval |
| Freshness.NoFlicker | sqlalchemy_collectd/stream.py:91-107 | from its first report to its last a process is never evicted if the turns of lost + 1 rounds, the lead of overtaking messages, the delay and a second fit its record's slack |
| Freshness.NoFlickerIffSafe | sqlalchemy_collectd/stream.py:91-107 | and that condition is exact: when rounds, lead, delay and a second do not fit, some run of a process that keeps sending has it evicted, and when the delay alone does not, some run has its report rejected |
| Freshness.SafeInOrder | sqlalchemy_collectd/server/receiver.py:78-92 | with a delay of at most the interval it reads: rounds, delay and a second within 12/5 of the interval, or six intervals for the process record |
| Freshness.NoFlickerNothingLost | sqlalchemy_collectd/server/receiver.py:78-92 | with nothing lost and a delay of at most the interval, interval + gap + delay + 1 <= 12/5 of the interval suffices |
| Freshness.StaysCounted | sqlalchemy_collectd/server/receiver.py:99-127 | and every summary meanwhile ends normally and, if its program's live records count one each, shows a numprocs value that counts the process |
| Freshness.PromptIsNeeded | sqlalchemy_collectd/stream.py:93-101 | for every delay beyond 12/5 of the interval, rounded down, some run has a report rejected that leaves nothing in any bucket |
| Freshness.SlackIsNeeded | sqlalchemy_collectd/stream.py:102-105 | the run that evicts when rounds, lead, delay and a second exceed the slack |
| Freshness.OvertakingMatters | sqlalchemy_collectd/stream.py:102-105 | interval 5, gap 0.2 and delay 5.8 keep interval + gap + delay + 1 within 12/5 of the interval, and yet a summary can evict |
| ConsoleFigures.MaximaAreHighWater | sqlalchemy_collectd/connmon/stat.py:116-152 | the maxima are the greatest of 0 and all values received since creation, kills notwithstanding |
| ConsoleFigures.FiguresAreCurrent | sqlalchemy_collectd/connmon/stat.py:91-152 | the current figures are the last values received for their fields, or 0 if a kill came after |
| ConsoleFigures.TimeIsLastHeard | sqlalchemy_collectd/connmon/stat.py:284-290 | time and interval are those of the last report of a figure whose update did not fail, kills notwithstanding |
| ConsoleFigures.IndexErrorIff | sqlalchemy_collectd/connmon/stat.py:284-290 | an update fails for want of a value iff its field has a figure and its vector is empty |
| ConsoleFigures.CheckoutsTelescope | sqlalchemy_collectd/connmon/stat.py:168-189 | the interval checkouts shown add up to the last total less the first, over all reports taken in without failing, none of time 0 |
| ConsoleFigures.ConnectsTelescope | sqlalchemy_collectd/connmon/stat.py:155-165 | the same for connects |
| ConsoleFigures.TotalIsLastTaken | sqlalchemy_collectd/connmon/stat.py:168-189 | after any run the stored total and time are those of the last checkout report taken in |
| ConsoleFigures.TotalComesWithTime | sqlalchemy_collectd/connmon/stat.py:177-178 | the assertion that a total is present never fails |
| ConsoleFigures.DividesByZeroIff | sqlalchemy_collectd/connmon/stat.py:182-187 | after any run, exactly which report makes the rate divide by zero, given the one before it |
| ConsoleFigures.RateTimesTimeIsGrowth | sqlalchemy_collectd/connmon/stat.py:182-187 | after any run, a new rate times the time since the report before is the growth since then; otherwise the rate stays |
| ConsoleFigures.AgedSums | sqlalchemy_collectd/connmon/stat.py:248-257 | after ageing no survivor is older than five intervals, and the four sums are those of the programs heard of within two |
| ConsoleFigures.ProgramsAreTheirOwn | sqlalchemy_collectd/connmon/stat.py:226-290 | after any run of messages and ageing passes, the programs shown are those known, and each is where its own messages and kills since it was last entered lead to |
| ConsoleFigures.KnownIff | sqlalchemy_collectd/connmon/stat.py:248-257 | a program is known iff no ageing pass since its last message came more than five intervals, of the last report heard, after that report |
| ConsoleFigures.ZeroedIff | sqlalchemy_collectd/connmon/stat.py:248-257 | a pass zeroes its current figures iff it comes more than two such intervals after |
| ConsoleFigures.ShownFigures | sqlalchemy_collectd/connmon/stat.py:292-308 | what the sums add up are the programs' own current figures |
| ConsoleFigures.HostsAreTheirOwn | sqlalchemy_collectd/connmon/stat.py:226-290 | and each host is where all the messages about it as a whole lead to |
| ConsoleFigures.ShownMaxima | sqlalchemy_collectd/connmon/stat.py:116-152 | the maxima shown for a program are the greatest of 0 and the values it received since it was last entered |
| Console.HostProg.constructor | sqlalchemy_collectd/connmon/stat.py:37-86 | a program starts with nothing |
| Console.HostProg.Receive | sqlalchemy_collectd/connmon/stat.py:284-290 | the figures follow the program's own messages, also when an updater fails halfway |
| Console.HostProg.UpdateField | sqlalchemy_collectd/connmon/stat.py:116-189 | the registered updater moves its own figures |
| Console.HostProg.UpdateTotalCheckouts | sqlalchemy_collectd/connmon/stat.py:169-189 | total, growth and rate of checkouts, or a division by zero with the growth already stored |
| Console.HostProg.KillProcesses | sqlalchemy_collectd/connmon/stat.py:91-93 | the current figures become zero, the maxima stay |
| Console.Stat.GetProgram | sqlalchemy_collectd/connmon/stat.py:226-239 | finds or enters a program, others untouched |
| Console.Stat.UpdateProgram | sqlalchemy_collectd/connmon/stat.py:274-290 | one program moves as its message says; all others and all hosts stay |
| Console.Stat.UpdateHost | sqlalchemy_collectd/connmon/stat.py:274-290 | one host's own figures move, with the same failures; all others and all programs stay |
| Console.Stat.Update | sqlalchemy_collectd/connmon/stat.py:274-290 | a message without a program or for "host" goes to its host, any other to its program, in step with the run |
| Console.Stat.AgeAll | sqlalchemy_collectd/connmon/stat.py:246-257 | the loop deletes and zeroes exactly the programs the ageing pass names |
| Console.Stat.UpdateHostStats | sqlalchemy_collectd/connmon/stat.py:292-320 | the four sums over all programs, the number of hosts, and the raised maxima |
| Console.Stat.Sums | sqlalchemy_collectd/connmon/stat.py:294-308 | the four sums |
| Console.Stat.ProcessHostprogs | sqlalchemy_collectd/connmon/stat.py:241-257 | sums and maxima are taken before the ageing, in step with the run; hosts stay |
| Pipeline.CountsArrive | sqlalchemy_collectd/client/sender.py:64-125 | a vector of counts below 2^53 goes from sender to receiver unchanged, with host, program, token and whole seconds |
| Pipeline.DecodedIsComplete | sqlalchemy_collectd/protocol.py:317-327 | a decoded message has the strings, time and known type that the receiver takes for granted |
| Pipeline.SnapshotArrives | sqlalchemy_collectd/client/sender.py:64-125 | of a datagram a client sends, the server gets the client's labels and snapshot unchanged, or nothing |
| Pipeline.RowsAccountable | sqlalchemy_collectd/client/sender.py:100-112 | if every pool message among the datagrams was sent by a lifecycle-respecting client, no row of the output shows more connections out, in and detached than connections, host rows only if no live program is named "host" |
| ClientSums.SnapshotTells | sqlalchemy_collectd/client/sender.py:100-125 | the snapshot a client sends has each of nine counts at its place, told from what happened to its connections |
| ClientSums.ShownIsSumOfCounts | sqlalchemy_collectd/server/receiver.py:51-127 | if all decoded datagrams were sent by clients, whatever value is shown under one of the nine names is the sum of that very count over the clients last heard and not expired |

## Left out

- Sockets, asyncio, queues, threads and the singleton registries: a message, an event, a turn of a loop and a summary are atomic steps, so writes that fall between two values of a summary are not modelled.
- SQLAlchemy's own event dispatch is not part of this model: the lifecycle is a step relation, and the engine an event comes from does not matter to the shared sets.
- Removal of collectors from the weak set by garbage collection; `numpools` is the size of the set.
- Sums on the server are sums of whole numbers, so fractional gauges, and whole ones from 2^53 on, are not followed past the decoder.
- Intervals so large that `interval * 1.2` is not exact to the unit in floating point (from about 2^50).
- `values` of None, and an interval that is not a whole number.
- Buckets.DictFacade.SetItem: demands that the view was obtained with an interval; a write through one without would store a None that makes the next call on the bucket fail with a TypeError, and no caller does so.
- Translation.StreamTranslator.constructor: `external_type_to_internal`, which nothing reads, is not built.
- Translation.StreamTranslator.AddFields: the same.
- Collectors.EngineCollector.constructor: which handler is registered for which of the nine events is not modelled; the handlers are called by name.
- Deletion, iteration and length of `DictFacade`, and `agg_func` other than `sum`: no caller uses them.
- A type with a COUNTER or ABSOLUTE field in the translator: no received type has one; the model gives the KeyError without the values yielded before it.
- The `transactions` statistics, which the client declares but does not gather, and `last_checkouts`, which is never set.
- Rendering of the console, logging, configuration, and the wrappers around the `collectd` module.
- Freshness.NoFlicker: assumes that the clients' clocks are not ahead of the server's and the sender's own agrees with it, and that no message has a negative interval; the converse (`NoFlickerIffSafe`) is for a loop that does sleep between readings (a positive gap).
- ConsoleFigures.CheckoutsTelescope: assumes that no checkout report taken in has time 0, which the console takes for no time.
