# Interop harness: a verified model

The repository compares a Go and a Python implementation of the same database libraries. Its probes
drive each library, and `compare.py` judges what the probes report. This project models the protocol
the harness relies on and the checkers that judge it, and proves what an accepting verdict means.

## What is modelled

1. **Migration runners on a shared database.** `Runners` is a small-step machine: any number of
   runners, any number `n` of migrations, one tracking row (`version`, `dirty`), one schema, one
   effects table, and one FIFO line per advisory-lock key. A schedule is any sequence of runner
   indices, so a lemma about `Exec(s, schedule)` is about every interleaving. A Go runner releases
   the lock after each migration, a Python runner keeps it for its whole run; both read the row under
   the lock. `LockLine`, `SchemaSafety`, `ExactlyOnce`, `Progress`, `Handover` and `RoundStart` prove
   the lock discipline, the meaning of the row, exactly-once application, absence of deadlock and the
   declared handover. `Solo` and `History` show that either machine, run alone, refines one big-step
   function, so the languages are interchangeable. `ProbeReport` maps an ending to what each probe
   prints. `Grouping`, `Serialisation`, `Roundtrip` and `RoundtripVerdict` are the checkers, linked to the machine: every
   run's report is accepted, and a Go runner that kept the lock would be reported as such. `Roundtrip`
   states the 25-step scenario over one-after-the-other schedules of the machine, with the reports
   that the probes print.
2. **The advisory-lock key.** `Crc` has the bit-by-bit CRC-32 of section 8 of RFC 1952, the table loop
   that refines it, and the detection of short changes. `LockKey` adds the NUL-joined names, the
   salt modulo 2^32, and the two halves `pg_locks` shows. `LockKeysCheck` ties the verdict on observed
   keys to the machine: different keys are reported exactly when two runners could migrate at once.
3. **Delivery.** `Publish` is the publishers' loop with its group map, `EventsWire` the checker,
   `Delivery` what it decides, `Consumer` the concurrent handlers with the mutex and the closed
   channel, `Outbox` the enqueue loop and its checker.
4. **Metrics.** `MetricExtraction` has both probes' bucket and label loops, `SkipKey` the parser of
   declared exceptions, `PgMetricsCheck` the reconciliation.

`Prelude`, `Iteration`, `Sequences` and `Sorting` hold definitions and facts the others share.

## Assumptions

- Lock waiters block and are granted the lock in the order they asked for it.
- The row is written dirty before a batch and cleared after it. A batch is atomic: a failing one
  changes neither the schema nor the effects table.
- `force` takes the lock like the other operations; it writes the row and leaves the schema alone.
- The runner libraries are not in the repository. Their behaviour is what the harness states about
  it: fixtures, expectations and comments. A dirty row refuses up, down and steps with `dirty`; a
  clean row above the source refuses with `not_in_source`; with nothing left to do a run reports
  `no_change`. `Runner.fails` (which up batches fail) and `Runner.cut` (how far a run gets before
  `short_limit`) are arbitrary parameters.
- An up migration records itself in the effects table. Undoing migration 1 drops that table, undoing
  another keeps its rows, as in the fixtures.
- The ids, envelopes, hashes and trace ids that libraries make are parameters.
- Runs may share a name, except in the handover, where the harness labels the two runners
  `interop-go` and `interop-python` and the table starts out empty.
- A library logs, as information, that there was nothing to do exactly when a run changed nothing.
  The errors and exceptions it answers with are of the kind the harness maps to a code, wrapped or
  not (`ProbeReport.GoReturns`, `ProbeReport.PyReturns`).
- What `pgcommon-migrate status` prints for a row is taken from the three expected outputs.

## Where the code falls short of a promise

- The events-wire checker promises "handled once, with the same envelope and payload, in group
  order". For a document that some report satisfies, all its accepted reports keep that promise if
  and only if the sent ids are distinct, on standard and FIFO topics alike
  (`Delivery.HandledOnceIffDistinct`). With a repeated id the index by id can hide a foreign record
  (`Delivery.RepeatedIdsHide`, `Delivery.OverwrittenGroupHides`) or a foreign payload under a sent id
  (`Delivery.HiddenPayload`, `Delivery.RepeatedEventHides`). On FIFO topics the ids alone are still
  counted right as long as every group is named in the id-to-group index
  (`Delivery.ExactlyOnceIffCountable`).
- The joined names behind a lock key stand for one triple if and only if none of the three has a NUL
  (`LockKey.UnambiguousIff`; `LockKey.NulMakesAmbiguous` is the smallest instance). Postgres
  identifiers cannot hold a NUL, so only a report's `lock_inputs` can reach this case.

## Where two probes could differ

- The bucket lists are equal if and only if no series has bounds or the first that has some has them
  in increasing order and covers all others (`MetricExtraction.BucketsAgreeIff`). The series of one
  histogram share their bounds, and then they agree (`MetricExtraction.SharedBoundsAgree`);
  `MetricExtraction.TwoListsDiffer` is a family for which they would not.
- The link indexes are equal on a span id if and only if none of its spans but the last has links
  (`Consumer.LinksAgreeIff`). Spans with ids of their own always agree
  (`Consumer.DistinctSpansAgree`); `Consumer.RepeatedSpanDiffers` is the smallest disagreement.

## Model

| member | source | states |
|---|---|---|
| LockLine.StepLined | compare.py:122-129 | every step keeps the lines exact: they list the runners that want the lock, once each, and only a head acts as owner |
| LockLine.SameKeyExcludes | compare.py:180-181 | in every schedule, two runners on one key are never both inside a migration |
| LockLine.ConcurrentIffKeysDiffer | compare.py:166-183 | some schedule has two `up` runs inside a migration at once if and only if their keys differ |
| SchemaSafety.StepInv | compare.py:88-120 | every step of up, down, steps and a disciplined force keeps row, schema and lock in agreement |
| SchemaSafety.RowDescribesSchema | compare.py:94-120 | after any schedule with nobody inside a migration: clean at v means schema 1..v, dirty at v means exactly those below v |
| SchemaSafety.DisciplinedWithoutForce | compare.py:94-120 | the condition on force is met by every schedule of runs without one |
| SchemaSafety.ForceRestoresIff | compare.py:107-119 | forcing any version makes the clean row true of the schema if and only if it is the version the row vouched for |
| SchemaSafety.DirtyRefusesAll | compare.py:102-106 | from a dirty row, no schedule without a pending force changes the database, and every run that decides then ends with code dirty |
| ExactlyOnce.AppliedOnce | compare.py:126-126 | any number of `up` runs of both languages under any names, any schedule: each applied version has one effect row, in version order; the rows added under a name are those its runs counted; ok means all n are there, and "changed" means the run counted one |
| ExactlyOnce.ExecCredited | compare.py:200-202 | conservation: in every schedule the rows of a name are the old ones and what the runs of that name wrote |
| ExactlyOnce.OwnRows | compare.py:207-208 | a run under a name of its own added exactly the rows it counted |
| ExactlyOnce.ExecSmooth | compare.py:186-195 | when no batch fails, no run fails and the row is dirty only during a migration |
| Progress.NoDeadlock | compare.py:122-126 | with FIFO lines, whatever the keys and operations, some unfinished runner can move |
| Progress.StepSteady | compare.py:122-126 | for any mix of operations on one key, the row is as the holder read or marked it |
| Progress.StepDecreases | compare.py:122-126 | each productive step, of any operation, lowers a measure |
| Progress.RunsAreBounded | go-probe/migrate.go:104-112 | from any steady state, no schedule of any mix of up, down, steps and force runs makes more moves than the measure |
| Progress.AnyMixStops | go-probe/migrate.go:104-112 | any group of runs on one key, from its start: no schedule makes more moves than the measure |
| Progress.Completes | python-probe/probe/migrate_check.py:488-500 | any run of any mix can be continued until everybody is done |
| Progress.ConcurrentUps | compare.py:200-206 | completed `up` runs with no failing batch all end ok, each migration recorded once in order, row clean at n |
| Handover.GoLeaderSplits | compare.py:126-129 | Go leader inside migration m with Python waiting: every completed run has Go applying 1..m and Python m+1..n |
| Handover.PythonLeaderKeepsAll | compare.py:208-211 | Python leader inside any migration: it applies all n and the follower reports no_change |
| RoundStart.RoundIsReachable | python-probe/probe/migrate_check.py:488-500 | from a fresh database the situation "leader inside m, follower blocked" arises for every m |
| Solo.RunAlone | go-probe/migrate.go:104-112 | a lone run of either machine ends exactly where the big-step function says, lock free, nothing else touched |
| Solo.SameSpec | python-probe/probe/migrate_check.py:98-107 | what a lone run does depends on operation, failing batches, cut and name only |
| History.SequentialHistory | python-probe/probe/migrate_check.py:334-339 | every completed one-after-the-other schedule leaves the database and results of the fold |
| History.HistoryUntil | python-probe/probe/migrate_check.py:334-339 | at every boundary between two runs of a one-after-the-other schedule, database and results are those of the fold so far |
| History.BoundaryExists | python-probe/probe/migrate_check.py:334-339 | a completed one-after-the-other schedule has a boundary after any number of runs |
| History.TakeTurns | python-probe/probe/migrate_check.py:334-339 | one-after-the-other schedules exist for any requests |
| History.Interchangeable | compare.py:232-234 | reassigning the languages of a sequential history changes neither the final database nor any result |
| History.AppliesUpTo | compare.py:95-102 | closed form of up and fitting steps: all versions to the goal or to the first failing one, where the row stays dirty |
| History.UndoesDownTo | compare.py:100-116 | closed form of `down k` with k available |
| History.DownUndoesSteps | compare.py:98-101 | `down k` after `steps k` restores row and schema |
| History.AboveSource | go-probe/migrate.go:36-47 | a clean row above the source stops up, down and steps with not_in_source, nothing done |
| History.DirtyStops | compare.py:106-106 | a dirty row stops up, down and steps with dirty, nothing done |
| History.NothingToDo | go-probe/migrate.go:139-151 | with nothing asked for or nothing left a run reports no_change and does nothing |
| History.FallsShort | go-probe/migrate.go:36-47 | asked for more than there is, a run with something to do ends with short_limit, having done as many as its cut allows |
| History.QuotaEnds | go-probe/migrate.go:107-110 | a run that did as many as it was asked for ends ok and changed without another look at the row |
| ProbeReport.LogAll | go-probe/migrate.go:22-32 | a logger given any calls of the library holds the lines of the calls: none for debug, prefixed ones for warnings and errors |
| ProbeReport.OnlyInfoCounts | python-probe/probe/migrate_check.py:62-83 | among the captured messages one says "no change" if and only if the library logged such a text as information |
| ProbeReport.RunOutcome | go-probe/migrate.go:141-151 | the early-return scan: no_change exactly when some message of a classified ok run starts with one of the two texts |
| ProbeReport.WarningsDoNotCount | python-probe/probe/migrate_check.py:62-83 | a logged warning or error never changes the outcome, whatever its text |
| ProbeReport.KnownMessages | go-probe/migrate.go:145-149 | which of the libraries' messages report that nothing was changed: "migrations: no changes …" and "migrations: nothing to roll back …", not "migrations: applied up to version …" |
| ProbeReport.RootText | go-probe/migrate.go:36-47 | however an error is wrapped, its printed text contains the text of the error inside |
| ProbeReport.GoProbe | go-probe/migrate.go:98-137 | for every answer of the library that fits the ending, wrapped errors and a versionless dirty row included, the Go control flow with its logger prints the language-neutral report and the database's error text |
| ProbeReport.PyProbe | python-probe/probe/migrate_check.py:86-121 | for every row or exception that fits the ending the Python control flow with its logger prints that same report, and for a dirty row without a version that row |
| Grouping.ExpandEffects | compare.py:200-202 | the setdefault/extend loop builds the expansion |
| Grouping.ExpandRestores | python-probe/probe/migrate_check.py:501-504 | GROUP BY with counts, then expansion, gives each version's authors back as a multiset |
| Serialisation.CheckAuthors | compare.py:207-222 | adds exactly the problem, if any, that the sole authors and the follower's outcome have with the declared split |
| Serialisation.CheckRound | compare.py:188-222 | adds exactly the problems the round has, each of the nine with its own condition, and none if and only if the round is accepted |
| Serialisation.NoProblem | compare.py:186-222 | accepted (blocked on one key, ok, one row per version by the declared runner, clean at 3) means having none of the nine problems, both ways |
| Serialisation.CheckSerialisation | compare.py:186-188 | no problem if and only if every round is accepted |
| Serialisation.OnceEachIsOneRowEach | compare.py:203-204 | "applied exactly once each" holds of the report if and only if the table has one row for each of 1, 2, 3 and no other |
| Serialisation.AcceptedTable | compare.py:200-222 | in an accepted round the table itself has, for each of 1, 2, 3, one row by the declared runner, and no other row |
| Serialisation.AcceptedMeans | compare.py:186-222 | accepted if and only if, in the report's own values: waiting on Lock:advisory, one key, row 3 clean, and the table has interop-python three times with a no_change follower, or interop-go, interop-go, interop-python with a changed one |
| Serialisation.RunsAreAccepted | compare.py:186-222 | every completed round of the protocol, in any schedule and with either leader, yields an accepted report |
| Serialisation.RoundArises | python-probe/probe/migrate_check.py:474-535 | for either leader there are a round, a schedule, samples and a report as the acceptance theorem supposes |
| Serialisation.DivergenceIsDetected | compare.py:122-129 | a completed Go-led round is accepted if and only if Go takes the lock per migration; otherwise it has the problem that names a whole-run lock |
| Roundtrip.CheckRoundtrip | compare.py:142-163 | adds exactly the problems the report has: steps missing, steps unexpected, expectations not met, objects left behind; none if and only if it is accepted |
| RoundtripVerdict.MeetsIff | compare.py:94-120 | the comparisons of a step come to exactly the listed values, for each of the 25 steps, "division by zero" standing somewhere in the error text |
| RoundtripVerdict.AcceptedPins | compare.py:142-163 | an accepted report determines what was read and how each run ended: each version read and each status found the row of its step, each run had the result due |
| RoundtripVerdict.StatusInjective | python-probe/probe/migrate_check.py:261-276 | the status output tells any two rows apart |
| RoundtripVerdict.OrderDistinct | python-probe/probe/migrate_check.py:293-319 | the 25 step names are distinct |
| Roundtrip.RunFitsAlways | compare.py:94-120 | each operation step, run from the row it is to find, leaves the next row, and every print of its ending meets the expectation |
| Roundtrip.BoundaryRow | python-probe/probe/migrate_check.py:293-319 | in every one-after-the-other schedule of the machine, a version read between two runs finds the row its step is to find |
| Roundtrip.StepMeets | compare.py:142-160 | for any sequence of steps in which each leaves the row the next is to find, whatever a probe of either language prints for a step of a completed schedule of the machine meets its expectation |
| Roundtrip.DbTracks | python-probe/probe/migrate_check.py:293-319 | the row and schema that the runs before each step leave |
| Roundtrip.NothingLeft | fixtures/migrations-failing/4_deliberate_failure.up.sql:1-5 | at the end of every completed schedule the failing migration 4 is not in the schema |
| Roundtrip.OrderIsScenario | compare.py:94-120 | in the order of the 25 steps each step leaves the row the next is to find, every expectation is reported, and the last row is dirty at 4 |
| Roundtrip.ScenarioAccepted | python-probe/probe/migrate_check.py:334-347 | for such an order of steps, runners of any languages, keys and names, and every completed one-after-the-other schedule of the machine, the report made of what the probes print is accepted |
| Roundtrip.ScenarioArises | python-probe/probe/migrate_check.py:293-319 | for every assignment of languages to the runs there are runners, a schedule and a report as the acceptance theorem supposes |
| Crc.BitStepXor | compare.py:135-135 | a bit step of the CRC is linear |
| Crc.FeedInjective | compare.py:135-135 | the same data never brings two different registers together |
| Crc.CrcPiecewise | compare.py:135-135 | feeding pieces one after the other gives the CRC of the joined bytes |
| Crc.MakeTable | compare.py:135-135 | the byte table of the CRC, entry by entry |
| Crc.UpdateCrc | compare.py:135-135 | the table loop refines the bit-by-bit definition on all inputs |
| Crc.Residue | compare.py:135-135 | any data followed by their own CRC, low byte first, have the CRC 0x2144DF1C: the polynomial, the final inversion and the byte order are those of section 8 of RFC 1952 |
| Crc.CheckValue | compare.py:135-135 | the CRC of "123456789" is 0xCBF43926 |
| Crc.FourBytes | compare.py:135-135 | four bytes together are 32 bit steps on the register with their word folded in |
| Crc.ShortChangeDetected | compare.py:135-135 | data that differ only inside at most four bytes have equal CRCs if and only if they are equal |
| LockKey.Key | compare.py:131-135 | every key fits in 32 bits |
| LockKey.KeyUnsalted | compare.py:131-135 | a key times 2973394227, the inverse of the salt, is the CRC of the joined names modulo 2^32 |
| LockKey.ScrambleInjective | compare.py:131-135 | multiplying by the salt modulo 2^32 loses nothing |
| LockKey.KeyIsCrc | compare.py:134-135 | two keys agree if and only if the two CRCs do |
| LockKey.PreimageInjective | compare.py:135-135 | with NUL-free schema and table the joined bytes determine all three names |
| LockKey.UnambiguousIff | compare.py:135-135 | the joined bytes stand for one triple of names if and only if none of the three has a NUL |
| LockKey.SharedKeyIsCollision | compare.py:134-135 | different NUL-free triples share a key only by a CRC collision of different preimages |
| LockKey.NearNamesDiffer | compare.py:134-135 | preimages that differ only inside four consecutive bytes never share a key |
| LockKey.ShiftIsTimes | python-probe/probe/migrate_check.py:189-189 | the shift-and-or of the two halves is their sum with weights |
| LockKey.KeySurvivesPgLocks | python-probe/probe/migrate_check.py:185-190 | every signed 64-bit key comes back from its two halves |
| LockKey.PairShown | python-probe/probe/migrate_check.py:191-191 | a row with objsubid 2 reads as the pair of keys, first key first |
| LockKey.HeldKeyInjective | python-probe/probe/migrate_check.py:185-191 | two pg_locks rows read as one key if and only if they are the same row |
| LockKey.MigrateKeyShown | compare.py:134-135 | a computed key is shown with class 0 and comes back unchanged |
| LockKeysCheck.CheckVariant | compare.py:169-183 | adds exactly the problems the variant has, per runner and for the pair; none if and only if both runs changed the schema and held exactly the recomputed key |
| LockKeysCheck.AgreedMeans | compare.py:131-183 | a variant agrees on k if and only if both results are ok and "changed", both held just k, and k unsalted is the CRC of schema, NUL, table, NUL, database |
| LockKeysCheck.CheckLockKeys | compare.py:166-183 | no problem if and only if every variant agrees |
| LockKeysCheck.DifferentKeysMeansConcurrent | compare.py:179-181 | for runners with one key each, the message is right: keys differ if and only if some schedule migrates concurrently |
| LockKeysCheck.AgreedRunnersExclude | compare.py:166-183 | runners of an accepted variant use the computed key and are never both inside a migration |
| LockKeysCheck.AgreedKeysSeparate | compare.py:166-183 | two accepted variants with NUL-free names share a key only when their inputs are equal or their CRCs collide |
| Publish.GoPublish | go-probe/events.go:142-159 | the skipping loop records key, group, envelope and trace of each kept case, in order, with its group map |
| Publish.KeptOnFifo | go-probe/events.go:145-148 | on a FIFO topic a case marked to be skipped is not kept, any other as often as it occurs |
| Publish.KeptOnStandard | go-probe/events.go:145-148 | on a standard topic every case is kept |
| Publish.PyPublish | python-probe/probe/events_wire.py:86-95 | the filter and comprehensions record the same |
| Publish.PublishersAgree | python-probe/probe/events_wire.py:86-99 | for the same envelopes both publishers write the same group map and the same document |
| Publish.OrderCheckIsGroupOrder | go-probe/events.go:163-166 | for new ids that all arrive, the order check passes if and only if every message group was handled in publishing order |
| Sequences.BuildIndex | compare.py:461-461 | the loop builds the dictionary of a list by key, where the last item of a key stays |
| Sequences.IndexHolds | compare.py:461-461 | the keys of that dictionary are those of the items, and each value is that of an item with the key |
| EventsWire.CheckEvent | compare.py:468-502 | adds a problem for exactly the respects in which a record differs from the event sent under its id |
| EventsWire.HandledMeans | compare.py:468-502 | handled as sent, in terms of the documents: envelope, payload, context, baggage probe.lang, the attributes EventType, Source, EventID, TenantID, Subject and traceparent, link and signature |
| EventsWire.FieldIsolated | compare.py:469-471 | a record whose envelope differs in one field has the problem of that field and of no other |
| EventsWire.ContentIsolated | compare.py:477-484 | a handled record with other data, payload, trace id or tenant has exactly the problem of that respect |
| EventsWire.ContextIsolated | compare.py:485-502 | a handled record without its baggage, link, traceparent or valid signature has exactly the problem of that respect |
| EventsWire.CheckOrder | compare.py:503-510 | names exactly the groups whose received ids are not its sent ids in order |
| EventsWire.CheckEventsWire | compare.py:448-513 | adds exactly the problems the documents have: count, ids not received, differences, groups out of order; none if and only if they are accepted |
| EventsWire.NoProblem | compare.py:448-453 | accepted (counted, each event indexed and handled as sent, groups in order) means having none of the problems, both ways |
| Delivery.CountsForcePermutation | compare.py:459-467 | for distinct sent ids, equal counts and all indexed if and only if the received ids are a permutation |
| Delivery.OrderIsInterleaving | compare.py:503-510 | the order check passes exactly on the interleavings of the per-group sent sequences |
| Delivery.AcceptedIsDelivered | compare.py:448-453 | for distinct sent ids the verdict is exactly "handled once each, as sent, in group order" |
| Delivery.HandledOnceIffDistinct | compare.py:448-513 | for a satisfiable document of either mode, all accepted reports were handled once each, as sent and in group order, if and only if the sent ids are distinct |
| Delivery.HiddenPayload | compare.py:461-464 | in any accepted report, a record that a later one of its sent id overwrites may carry a foreign payload |
| Delivery.RepeatedEventHides | compare.py:459-467 | for any event and its record on a FIFO topic, sending the event twice makes an accepted report with the right ids and a foreign payload |
| Delivery.ExactlyOnceIffCountable | compare.py:503-510 | about the ids alone: for a satisfiable document of either mode, all accepted reports carry exactly the sent ids if and only if the ids are distinct (standard topic) or every group is still named in the index (FIFO topic) |
| Delivery.FifoExactIff | compare.py:503-510 | a counted report whose groups are in order carries exactly the sent ids if and only if every group is still named |
| Delivery.OverwrittenGroupHides | compare.py:503-510 | for any event and its record, one id sent in two groups makes an accepted FIFO report with a foreign record |
| Delivery.ExactlyOnceIffDistinct | compare.py:459-467 | the standard-topic half, where the order check is off |
| Delivery.RepeatedIdsHide | compare.py:461-464 | on a standard topic with repeated sent ids, an accepted report with a foreign record in a repeated one's place |
| Consumer.Collector.constructor | go-probe/events.go:230-232 | a new collector is empty and its channel open |
| Consumer.Collector.Close | go-probe/events.go:258-258 | closes a channel that was open |
| Consumer.Collector.Collect | go-probe/events.go:254-260 | appends the record, and closes the channel with the n-th append and no other, never twice |
| Consumer.ClosedAtMostOnce | go-probe/events.go:230-261 | in every interleaving of handler calls: at most one close, never for n <= 0, closed iff n records; one record per call that returned nil |
| Consumer.ReturnsNilIffMarshals | go-probe/events.go:236-238 | in every interleaving a handler call returns nil if and only if its envelope could be encoded |
| Consumer.AllReturned | go-probe/events.go:230-261 | when all calls have returned, the records are those of exactly the calls that could be encoded, each once, and the channel is closed if and only if 1 <= n <= their number |
| Consumer.CriticalSection | go-probe/events.go:254-260 | whatever steps any other calls take among the three of the mutex owner, records and channel change exactly as Collector.Collect changes them |
| Consumer.ClosedByNth | go-probe/events.go:256-259 | the close comes with the n-th record, by the call that appended it |
| Consumer.GoLinks | go-probe/events.go:278-283 | the nested loop collects all links of all spans of an id |
| Consumer.PyLinks | python-probe/probe/events_wire.py:165-168 | the comprehension keeps the links of an id's last span |
| Consumer.LinksAgreeIff | python-probe/probe/events_wire.py:165-170 | the two indexes agree on an id if and only if none of its spans but the last has links |
| Consumer.RepeatedSpanDiffers | go-probe/events.go:278-283 | two spans of one id with a link each: Go keeps both links, Python the second |
| Consumer.DistinctSpansAgree | go-probe/events.go:278-288 | so they agree on spans with distinct ids |
| Outbox.Enqueue | go-probe/events.go:311-329 | ids in enqueue order, and the ones at even positions as ordered |
| Outbox.EvensAt | python-probe/probe/events_wire.py:178-196 | the k-th ordered id is the id at position 2k, and there are no others |
| Outbox.CheckOutbox | compare.py:540-554 | each of the three problems is added exactly when: not a permutation, ordered ids out of order, a tenant other than "acme" |
| Outbox.FilterIsOrder | compare.py:548-549 | on distinct ids that all arrived, the filter test is the relative-order test, both ways |
| Outbox.OutboxVerdict | compare.py:541-549 | for an enqueued document the id checks pass if and only if every event was handled once with the ordered ones in enqueue order |
| SkipKey.ParseIff | compare.py:248-251 | the parser returns (metric, label, value) exactly on the printed form of a word, a word and a quote-free value |
| MetricExtraction.GoBuckets | go-probe/pgmetrics.go:203-219 | the bounds of the first series that has any |
| MetricExtraction.PyBuckets | python-probe/probe/pgmetrics_check.py:48-68 | the strictly increasing list of all finite bounds sampled |
| MetricExtraction.BucketsAgreeIff | go-probe/pgmetrics.go:215-219 | the two lists are equal if and only if no series has bounds, or the first that has some has them strictly increasing and covers all others |
| MetricExtraction.SharedBoundsAgree | python-probe/probe/pgmetrics_check.py:58-68 | series that share one non-empty strictly increasing list always give equal lists |
| MetricExtraction.TwoListsDiffer | go-probe/pgmetrics.go:215-219 | a family of two series with different bounds, for which Go lists one bound and Python two |
| MetricExtraction.GoObserved | go-probe/pgmetrics.go:204-214 | exactly the enumerated labels that occur, each with the set of its values |
| MetricExtraction.PyObserved | python-probe/probe/pgmetrics_check.py:49-57 | the same over the flat samples |
| MetricExtraction.CollectedMeans | go-probe/pgmetrics.go:206-213 | what both collect: exactly the values that some label set has for "state", "outcome" or "reason" |
| MetricExtraction.ObservedAgree | python-probe/probe/pgmetrics_check.py:49-69 | both probes observe the same values of the same labels of one family |
| PgMetricsCheck.CheckValues | compare.py:307-314 | no problem if and only if Go's values are the disjoint union of Python's and the declared ones |
| PgMetricsCheck.ReadSkips | compare.py:290-294 | a value is declared for a metric and label if and only if some text parses to it |
| PgMetricsCheck.CheckFamily | compare.py:296-314 | no problem if and only if shape, identity labels and every observed label agree |
| PgMetricsCheck.CheckPgMetrics | compare.py:254-320 | no problem if and only if both documents are sound, names and contracts agree, and every shared family does |
| PgMetricsCheck.AcceptedReconciles | compare.py:255-259 | acceptance means, in the documents: Go emits v for a label if and only if Python emits it or metric{label="v"} is listed, and never both |
| PgMetricsCheck.AcceptedNames | compare.py:262-283 | the registries and families of an accepted pair have the same names, and nobody warned |
| PgMetricsCheck.AcceptedEntries | compare.py:285-304 | entries and families of one name have equal fields, Python's registered buckets are those Go exposes, and Go's const labels cover the identity labels |

## Left out

- Failed `down` batches: the harness only names them; down batches succeed in the model.
- `force` to a version other than the one below the failure: it leaves a clean row that is false of the schema (`ForceRestoresIff`), and nothing in the repository promises otherwise; elsewhere runs are assumed to force that one.
- Negative counts for `down` and `steps`, argument parsing and usage errors.
- How much a run applies before a short-limit error: left open as a parameter of the run.
- Error texts other than the database's own, and the texts of problems: which problem was added, and for the metrics checker only whether.
- CheckEventsWire: which problems are added, not in which order or how often an equal one repeats.
- `Runner.version`, run concurrently: it takes no lock, so it appears in the sequential scenario only.
- GoProbe: error texts are modelled only for a failing batch.
- PyProbe: for a dirty row without a version, the Python library is taken to return the row or to raise the exception that carries it; which of the two is not known from the repository, so whether that report is ok is left open.
- UTF-8 encoding of names: the lock key is proved for the encoded bytes.
- The derivation of the lock inputs from DSNs, by drivers outside the repository.
- Real Postgres, SNS, SQS, subprocesses, sampling intervals and timeouts: a round is observed at some of its states, at least once while the follower waits.
- HTTP servers, middleware, the TypeScript probe, and the other checks of compare.py: field and set comparisons.
- `envelopeOptions`, codec, signing and the publishing calls themselves: an envelope is what the library made.
- `labels` order, `declared`, `splitNonEmpty` and the registry listing of the metric probes: lists compared as given.
- The text form of bucket bounds: finite bounds are real numbers, `+Inf` is a separate value.
- JSON equality across types (Python's `True == 1`): JSON values are compared by canonical text.
- The outbox runner, which only starts library code.
