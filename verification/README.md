# A verified model of the CSMS platform's coordination core

This Dafny project models how a fleet of OCPP runtimes shares charging
stations: who owns a station's connection, how a command finds that owner
and is executed and answered, how command rates are limited, how boots and
connector statuses are stored, and how the operator keeps the objects of a
CSMS resource in line with its spec. It states what holds in every run, with
any number of runtimes, any interleaving of their steps, and any call to a
store failing before or after it took effect.

## How the model is organised

- `Leases`, `LeaseHistory`: the lease table (owner, fencing generation, expiry)
  and what every history of claims, renewals, releases and passing time keeps.
- `RedisRegistry`, `MemoryRegistry`: the two registries. The scripts run on a
  key space of strings and hashes and refine the table, call by call and over
  whole histories; the in-memory registry simulates the Redis client.
- `Ownership`, `OwnershipManager`: the connection callbacks, renewal loops and
  entry maps of all runtimes as a transition system, and the manager of one
  runtime as a class whose methods are runs of it.
- `SessionLife`: the runs in which a session comes up, keeps its lease through
  its renewals and hands it back, and exactly when the renewals suffice.
- `SessionOverlap`: the ownership protocol with sessions told apart, so that two sessions of
  one station may be connected to one runtime at a time.
- `Delivery`, `DeliveryRuns`, `CommandBus`, `Recovery`: streams, pending lists,
  completion records, result lists and consumers as a transition system, with
  the message loop and, over time, the consumer loop as methods.
- `Protocol`, `ProtocolRuns`: both systems together with the command API.
- `Decimal`, `Codec`, `Keys`: numbers as text, the stream entry format, key names.
- `RateLimit`: the fixed-window counter.
- `StationStore`: MySQL transactions of two statements, interleaved, writing
  rows in place under locks, against the in-memory maps.
- `Cluster`, `Reconcile`, `ReconcileRuns`, `Controller`: the operator;
  `SpecReached` says field by field what it leaves behind.

A transition system has a predicate `Enabled`, a function `Step` or `Next`,
and runs: `Legal(acts)` says each action was enabled when taken, `Exec(acts)`
is the state reached. Histories (every grant, every Reset call, every broken
attempt) are part of the state, so that safety over whole runs is a statement
about `Exec(acts)` for all `acts`.

Every store call has a `Fate`: `Acknowledged`, `ReplyLost` (applied, but the
caller sees an error) or `NotApplied`. A script, a transaction or a single
call is one atomic step. Time is the store's clock in whole milliseconds, and
a key is gone from its expiry time on.

## Where code and documentation disagree

- `README.md:508-509` says the check of owner and generation just before
  execution keeps a stale owner from running commands. The check reads only
  the local entry. `ProtocolRuns.StaleOwnerCanExecute` is a run in which a
  command passes the old owner's gate after the takeover, and
  `Protocol.NoStaleRouting` gives the exact condition: a command let through
  is stale towards precisely those grants of its station that were made after
  its lookup read the lease.
- `README.md:510-511` says the completion record keeps commands from being
  executed twice. That holds from the moment a result is committed; an attempt
  that breaks after its Reset call and before that leaves no record.
  `DeliveryRuns.ResetAccounting` counts exactly: one Reset call per such broken
  attempt on top of the committed one. `DeliveryRuns.AtMostSixResets` bounds
  them for all runs, and `ProtocolRuns.SixResetsHappen` is a run of the whole
  protocol, gate included, that reaches the bound.
- `internal/controller/csms_controller.go:324-326` speaks of deleting a
  previously created Ingress. The code deletes by name, whoever controls the
  object (`Reconcile.ForeignIngressDeleted`), while it refuses to overwrite a
  foreign one. `Reconcile.ForeignSurvivesReconcileIff` says exactly when
  another owner's object survives.

## Model

| member | source | states |
|---|---|---|
| `LeaseHistory.OccupancyIntervals` | internal/sessionregistry/redisstore/registry.go:14-37 | In every history, if g occupies a station at one point and h at a later one then g <= h; and if they are equal the lease was held by the same owner at every point between, so intervals are disjoint, ordered, and never revived |
| `LeaseHistory.GenerationNamesOneStation` | internal/sessionregistry/redisstore/registry.go:20 | Over a whole history a generation is given to one station only |
| `LeaseHistory.CounterNameIsNeverHeld` | internal/sessionregistry/redisstore/registry.go:132-138 | At no point of any history does station `generation` hold a lease |
| `LeaseHistory.EveryEndHasItsCause` | internal/sessionregistry/redisstore/registry.go:24-37 | A lease that is gone ended at one identifiable step, by expiry, by a Release naming its own owner and generation, or by its holder's renewal for less than a millisecond, and was never held again |
| `LeaseHistory.LeaseContinuity` | internal/runtime/ownership.go:52-73 | The lease never lapses over any number of renewals if and only if every gap between renewal scripts is below the truncated TTL; the expiry then follows the last renewal |
| `LeaseHistory.ContinuousLeaseFencesOthers` | internal/runtime/ownership.go:52-73 | While the gaps stay below the TTL every renewal succeeds and every other claim is refused with this owner and generation |
| `LeaseHistory.ConfigCheckIsEnoughIff` | internal/runtime/config.go:179-181 | Every accepted renew interval is below the TTL that Redis gets if and only if the TTL is a whole number of milliseconds |
| `RedisRegistry.ClaimRefines` | internal/sessionregistry/redisstore/registry.go:14-22 | The claim script on the key space does what Claim does on the table and gives the matching reply, for every station; `generation` always fails, and burns a generation exactly when none was drawn before |
| `RedisRegistry.RenewRefines` | internal/sessionregistry/redisstore/registry.go:24-30 | The renew script, comparing printed generations, is Renew on the table, and fails on the counter's key once a generation was drawn |
| `RedisRegistry.ReleaseRefines` | internal/sessionregistry/redisstore/registry.go:32-37 | The release script is Release on the table, and fails on the counter's key once a generation was drawn |
| `RedisRegistry.ScriptsFollowHistory` | internal/sessionregistry/redisstore/registry.go:14-37 | After any sequence of scripts and passing time, claims of `generation` included, the key space represents the table of that same history |
| `RedisRegistry.ReadersSeeIntervals` | internal/sessionregistry/redisstore/registry.go:14-37 | What readers of one lease key see over time: generations never go back, and between two sightings of one generation it is always shown, with one owner |
| `RedisRegistry.ShownUntilEnded` | internal/sessionregistry/redisstore/registry.go:14-37 | A lease no longer shown under its key was ended by time, by a Release naming its owner and generation, or by its holder's renewal for no time, and is never shown again |
| `RedisRegistry.Registry.constructor` | internal/sessionregistry/redisstore/registry.go:45-53 | A new registry defaults its prefix and represents the empty table |
| `RedisRegistry.Registry.Claim` | internal/sessionregistry/redisstore/registry.go:55-78 | New key space and answer are the client's on the raw keys and agree with the lease table: invalid arguments change nothing, then lease, conflict or store error |
| `RedisRegistry.Registry.Renew` | internal/sessionregistry/redisstore/registry.go:80-95 | The same for Renew: renewed exactly when still held, with the TTL in milliseconds; otherwise ErrLeaseLost, or a store error on the counter's key |
| `RedisRegistry.Registry.Release` | internal/sessionregistry/redisstore/registry.go:97-108 | The same for Release: gone exactly when still held; otherwise ErrLeaseLost, or a store error on the counter's key |
| `RedisRegistry.Registry.LookupFields` | internal/sessionregistry/redisstore/registry.go:110-115 | The first read returns owner and generation of one live lease together, or nothing, and an error on the counter's key |
| `RedisRegistry.Registry.LookupRemaining` | internal/sessionregistry/redisstore/registry.go:115-130 | The second read may see a later table: the expiry is of the lease alive then, owner and generation are of the first read |
| `MemoryRegistry.Memory.constructor` | internal/sessionregistry/memory.go:17-19 | A new registry has no leases and generation 0 |
| `MemoryRegistry.Memory.Claim` | internal/sessionregistry/memory.go:21-38 | A cancelled context changes nothing; granted exactly with names, a positive TTL and no unexpired lease of the station, then under the next generation until now + TTL, and otherwise nothing changes; answer and state are those the simulation is about |
| `MemoryRegistry.Memory.Renew` | internal/sessionregistry/memory.go:40-55 | A cancelled context changes nothing; renewed exactly when the unexpired lease names this owner and generation; a lost renewal drops the lease of the station, whoever holds it; answer and state are those the simulation is about |
| `MemoryRegistry.Memory.Release` | internal/sessionregistry/memory.go:57-72 | A cancelled context changes nothing; the lease is gone exactly if it names this owner and generation, expired or not, an absent one is no error, and another holder keeps theirs |
| `MemoryRegistry.Memory.Lookup` | internal/sessionregistry/memory.go:74-89 | A cancelled context changes nothing; the lease is found exactly when unexpired, and an expired one is dropped |
| `MemoryRegistry.CallAgreement` | internal/sessionregistry/memory.go:21-89 | Between the in-memory registry and the Redis client on its key space, in agreement: a call keeps them agreeing if and only if it is neither a stale renewal of a live lease nor a claim of `generation` that only memory grants, and is answered alike if and only if it is neither a late release nor a call about `generation` that meets the counter |
| `MemoryRegistry.MemorySimulatesRedis` | internal/sessionregistry/memory.go:21-89 | After any history of calls to both without such a call they agree, and any further call gets the same answer except a late release or one about `generation` that Redis fails |
| `MemoryRegistry.ClaimOfCounterName` | internal/sessionregistry/redisstore/registry.go:132-138 | A claim of `generation`: Redis always fails and its counter moves only from zero; memory grants it like any station and counts it |
| `MemoryRegistry.WholeMillisecondsIff` | internal/sessionregistry/redisstore/registry.go:61-61 | Nanosecond and truncated millisecond expiry agree at every later instant if and only if the TTL is a whole number of milliseconds |
| `Ownership.AlwaysInv` | internal/runtime/ownership.go:36-94 | In every run all grants number themselves, every cell is its station's latest grant, entries and callbacks hold only own confirmed claims, and what a callback carries was not released |
| `Ownership.SessionLifecycle` | internal/runtime/ownership.go:36-94 | Each grant is released at most once, only by the runtime whose own claim returned it, under exactly that generation |
| `Ownership.NoRenewalAfterRelease` | internal/runtime/ownership.go:52-94 | Once a Release was applied, no renewal of that generation takes effect at any later point |
| `Ownership.GateMeansOwnClaim` | internal/runtime/ownership.go:96-106 | If the gate answers yes, the runtime's own Claim returned that generation for the entry's station |
| `Ownership.OneOwnerPerGeneration` | internal/runtime/ownership.go:96-106 | No two runtimes and no two stations ever pass the gate with one generation, even at different points of a run |
| `Ownership.RunIsHistory` | internal/runtime/ownership.go:36-94 | The table of every protocol run is that of a registry history, so everything proved of histories holds of it |
| `SessionLife.SurvivesIffInTime` | internal/runtime/ownership.go:52-73 | From any state with a held lease and a waiting loop, any number of confirmed ticks keeps loop and lease alive if and only if every tick comes before the expiry the last one set |
| `SessionLife.SessionLives` | internal/runtime/ownership.go:36-94 | From every reachable state in which a station has no session in a runtime and no live lease: a session connects, holds the next generation through any number of ticks in time, disconnects, and leaves the station free with that lease released exactly once |
| `SessionOverlap.SecondSessionEndsTheFirst` | internal/runtime/ownership.go:75-94 | For any runtime and station there is a run in which session 2 connects while session 1 is up, is refused with a conflict and disconnects, and by that releases generation 1: session 1 is still up and the lease is gone |
| `SessionOverlap.RefusedSessionReleases` | internal/runtime/ownership.go:75-94 | The same from every reachable state with a session up and a second one of its station connecting, whether refused by a conflict or because the store was not reached |
| `SessionOverlap.PoliteRunsAreSafe` | internal/runtime/ownership.go:36-94 | In every run where no session connects while another of its station is present in that runtime, each release is made by the session that was granted the lease |
| `SessionOverlap.GuardIsExact` | internal/runtime/ownership.go:36-94 | After any such run, a newcomer can lead to somebody else's lease being released if and only if another session of its station is present, that is, has not yet taken its entry out of the map |
| `SessionOverlap.AlternatingRunIsOwnership` | internal/runtime/ownership.go:36-94 | Every run of sessions that alternate per station is a run of the ownership protocol, with the same store, entries and history |
| `OwnershipManager.Sessions.constructor` | internal/runtime/ownership.go:29-34 | A new manager owns nothing |
| `OwnershipManager.Sessions.OnConnect` | internal/runtime/ownership.go:36-50 | The callback is the run connect, claim, install; the session is closed exactly when the claim was not confirmed or the lease was taken; otherwise a new entry under the next generation is in the map with a waiting loop, and the store holds its lease |
| `OwnershipManager.Sessions.RenewOnce` | internal/runtime/ownership.go:52-73 | One tick is the run lock, renew; the loop ends exactly when the renewal is not confirmed or the lease no longer held, and goes on otherwise, with the expiry a TTL from now; the store, the map and every other entry are as the call left them |
| `OwnershipManager.Sessions.OnDisconnect` | internal/runtime/ownership.go:75-94 | The callback is the run take, cancel, read, release, or just take where there is no entry; afterwards the station has no entry, its loop is told to stop, and the store no longer holds that lease if the release got through |
| `OwnershipManager.Sessions.OwnsStation` | internal/runtime/ownership.go:96-106 | The gate answers from the local entry alone: it exists, is this runtime's, and has this generation |
| `Delivery.AlwaysInv` | internal/commandbus/redisbus/bus.go:86-206 | In every run streams, pending lists, records, result lists, consumers and the Reset history agree, command by command |
| `DeliveryRuns.ResetAccounting` | internal/commandbus/redisbus/bus.go:133-206 | Reset calls of a command = broken attempts + the committed one + the one in flight, the last two at most one together; so at most 1 + broken attempts |
| `DeliveryRuns.LateRedeliveryExpires` | internal/runtime/commands.go:23-29 | A completed command met again without a live record is past its deadline and cannot enter the handler |
| `DeliveryRuns.AtMostSixResets` | internal/commandbus/redisbus/bus.go:94-111 | However often consumers break, a command leads to at most six Reset calls |
| `DeliveryRuns.ResultAgreement` | internal/commandbus/redisbus/bus.go:56-84 | A non-empty result list has a live record of the same expiry and holds nothing but that record's result, under its own ID |
| `DeliveryRuns.SuccessWasConfirmed` | internal/commandbus/redisbus/bus.go:156-191 | A recorded success means the station confirmed the Reset of that command |
| `DeliveryRuns.ConfirmedWasCalled` | internal/runtime/commands.go:34-50 | A confirmation belongs to a Reset call of that command |
| `DeliveryRuns.NoLostCommands` | internal/commandbus/redisbus/bus.go:38-54 | Every entry is in exactly one place: undelivered, pending, done after a committed result, or trimmed after at least 10000 later entries |
| `DeliveryRuns.EntriesStay` | internal/commandbus/redisbus/bus.go:38-54 | Entries are never rewritten or reordered by any run |
| `DeliveryRuns.PublishedIsLogged` | internal/commandbus/redisbus/bus.go:38-54 | Every published command is an entry of its owner's stream |
| `DeliveryRuns.ResultsExactly` | internal/runtime/commands.go:23-50 | In every run each result a consumer comes to is the record found, or one of the current command and moment: a success if and only if the station confirmed the Reset, and otherwise with the code of what happened (Expired, NotOwner, the rejection, or the failed call) |
| `DeliveryRuns.PendingCanFinish` | internal/commandbus/redisbus/bus.go:94-154 | From every reachable state, whatever the consumer is doing, each pending entry still in the stream can be completed and acknowledged without another Reset call |
| `Protocol.EndToEndSoundness` | internal/runtime/command_api.go:63-105 | A 200 means a confirmed Reset of this command, by a runtime whose own Claim returned the command's generation and whose gate let this command through |
| `Protocol.AnswersExactly` | internal/runtime/command_api.go:63-105 | In every run, each answer with its exact cause: 200 if and only if the caller takes a result and the record of its command is a success; 409 if and only if that is a failure or one of the lookup reads found no lease; 500, 503 and 504 if and only if the lookup failed, the publish was not confirmed, the wait ended without a reply |
| `Protocol.UniqueExecutor` | internal/runtime/commands.go:30-34 | A command passes the gate in at most one runtime, the only one that was ever granted its generation |
| `Protocol.NoStaleRouting` | internal/sessionregistry/redisstore/registry.go:110-130 | For a command let through: a grant of its station is newer than its generation if and only if it was made after the lookup read the lease hash |
| `Protocol.AwaitedResult` | internal/commandbus/redisbus/bus.go:56-84 | What a waiting caller takes is the recorded result of its own command, and a success is a confirmed one |
| `ProtocolRuns.RunOwnership` | internal/runtime/ownership.go:36-106 | The ownership part of every run of the whole is a run of the ownership protocol |
| `ProtocolRuns.RunDelivery` | internal/commandbus/redisbus/bus.go:38-206 | The bus part of every run of the whole is a run of the delivery protocol |
| `ProtocolRuns.ResetsPerApiCall` | internal/runtime/command_api.go:73-105 | One API call causes at most 1 + broken attempts Reset calls, at most six, and at least one if it answers 200 |
| `ProtocolRuns.TakeoverLeavesGate` | internal/runtime/ownership.go:96-106 | Once a consumer has fetched its entry, no run of all other runtimes and API calls, with leases lapsing and stations taken over, changes what its gate answers |
| `ProtocolRuns.StaleOwnerCanExecute` | internal/runtime/commands.go:30-34 | For any two runtimes, any station the registry grants and any TTL below the command timeout, a run in which the first passes its gate while the second holds the station |
| `ProtocolRuns.SixResetsHappen` | internal/runtime/commands.go:23-50 | For any runtime and station a run of the whole protocol, with a real entry behind every gate, in which one waiting API call has caused six Reset calls |
| `ProtocolRuns.CallAnswered` | internal/runtime/command_api.go:63-105 | For any runtime, station and TTL a run of the whole protocol from the empty state in which the call is answered 200 or 409 as the station answered, after exactly one Reset call |
| `CommandBus.Bus.Complete` | internal/commandbus/redisbus/bus.go:156-176 | One transaction: the record holds the result for five minutes, the list has it in front of what was still alive, for as long, and no other record or list changes |
| `CommandBus.Bus.HandleMessage` | internal/commandbus/redisbus/bus.go:134-151 | One message is completed and acknowledged; a failing read leaves nothing, a failing completion leaves the handler run and the store as it was or completed, a failing acknowledgement leaves it completed |
| `CommandBus.Bus.ProcessMessages` | internal/commandbus/redisbus/bus.go:133-154 | The loop does all messages before the failing one, in order, and of the failing one what the failing call lets through; the handler runs for exactly those without a live record that were reached |
| `CommandBus.AllAcknowledged` | internal/commandbus/redisbus/bus.go:133-154 | Exactly the batch leaves the pending list |
| `CommandBus.AllRecorded` | internal/commandbus/redisbus/bus.go:133-206 | Each command of the batch ends with a record for five minutes: the old live result, otherwise the success and code the handler gave, under its own ID, with the time only where the handler gave none |
| `CommandBus.OthersUntouched` | internal/commandbus/redisbus/bus.go:133-206 | Commands outside the batch keep record and result list |
| `CommandBus.HandledExactly` | internal/commandbus/redisbus/bus.go:139-149 | A handler runs once for each command of the batch without a live record, and for no other |
| `Recovery.RecoveryPass` | internal/commandbus/redisbus/bus.go:96-110 | A pass completes and acknowledges the first ten idle entries, or all if fewer, each with a fresh record, and nothing else changes in the stream |
| `Recovery.ReadOne` | internal/commandbus/redisbus/bus.go:112-129 | If there is a new entry the read between passes hands out the next one, records its result for five minutes, lists it and acknowledges it; the pending ones stay as they were; otherwise nothing changes |
| `Recovery.RunConsumer` | internal/commandbus/redisbus/bus.go:94-131 | Over any turns with time passing, commands arriving and trimming that spares pending entries: p passes have recovered exactly the first entries of one fixed order, and the rest is pending; with turns five seconds apart every turn is a pass; and each turn reads and completes the first entry still waiting, if there is one, so new commands are handled in stream order, one a turn |
| `Recovery.OrderCovers` | internal/commandbus/redisbus/bus.go:94-111 | That order holds every pending entry exactly once |
| `Recovery.NeededExactly` | internal/commandbus/redisbus/bus.go:94-111 | All are recovered if and only if one pass was made and ten at a time suffice for what the first pass left |
| `Recovery.TenAtATimeIff` | internal/commandbus/redisbus/bus.go:97-100 | n pending entries take ceil(n/10) passes if and only if the first pass claims at least (n-1) mod 10 + 1 |
| `Recovery.StreamOrderIff` | internal/commandbus/redisbus/bus.go:97-100 | Recovery is in stream order if and only if the first pass claims the entries the stream has first |
| `Recovery.NoYoungEntries` | internal/commandbus/redisbus/bus.go:97-100 | With no pending entry younger than five seconds it is ceil(n/10) passes in stream order |
| `Recovery.YoungEntriesGoLater` | internal/commandbus/redisbus/bus.go:97-100 | With one, it can be a pass more and another order |
| `Decimal.ParsePrint` | internal/commandbus/redisbus/bus.go:255-261 | Reading back a printed integer gives it if it fits 64 bits, and fails otherwise |
| `Decimal.PrintInjective` | internal/runtime/rate_limit.go:32-32 | Different integers print differently |
| `Codec.RoundTripIff` | internal/commandbus/redisbus/bus.go:38-54 | For a command with all names, a generation, a creation time and no deadline before it: decoding what Publish writes gives it back if and only if generation < 2^63, times are in nanosecond range, creation is not the Unix epoch, and the deadline is absent or not the Unix epoch |
| `Codec.RoundTripFailures` | internal/commandbus/redisbus/bus.go:218-272 | What comes back instead in each failing case |
| `Codec.DecodesIff` | internal/commandbus/redisbus/bus.go:218-272 | Any entry decodes to a command if and only if its fields spell that command and it may be sent; it fails as a bad generation exactly when that field is no 64-bit number from 0, and as a bad time exactly when only a time is none |
| `Codec.DecodedIsValid` | internal/commandbus/redisbus/bus.go:218-245 | Whatever the fields, a command that decodes has all names, a generation, a creation time and no deadline before it, and all its mandatory fields were there |
| `Codec.TimeRoundTrip` | internal/commandbus/redisbus/bus.go:263-283 | A written timestamp reads back as itself, except that 0 reads back as no time |
| `Keys.KeySeparation` | internal/commandbus/redisbus/bus.go:285-295 | Under one prefix two names have one key if and only if they are the same name or the pair counter and lease of `generation` |
| `Keys.RateTailInjective` | internal/runtime/rate_limit.go:32-32 | Subject and window are determined by the rate key even if the subject contains a colon |
| `RateLimit.RedisRateLimiter.Allow` | internal/runtime/rate_limit.go:30-38 | One attempt increments its window's counter and sets its expiry on the first, unless the script did not run; without an answer it is an error, otherwise allowed by the count |
| `RateLimit.WindowAdmits` | internal/runtime/rate_limit.go:11-38 | With a whole-millisecond window, admitted plus those within the limit whose reply was lost are min(limit, attempts that reached the store) per window and subject, over all replicas; admitted alone if no reply was lost |
| `RateLimit.CounterCounts` | internal/runtime/rate_limit.go:11-17 | A window's counter counts all its attempts and does not expire before the window ends |
| `RateLimit.IntervalAdmitsTwiceTheLimit` | internal/runtime/rate_limit.go:30-38 | Any interval of one window length admits at most twice the limit |
| `RateLimit.ExactIff` | internal/runtime/rate_limit.go:30-38 | The per-window bound holds for all limits and attempts if and only if the window is a whole number of milliseconds |
| `RateLimit.CounterLost` | internal/runtime/rate_limit.go:30-38 | For any other window the counter expires inside it and a limit of 1 admits 2 |
| `StationStore.AlwaysInv` | internal/stationstore/mysqlstore/repository.go:22-100 | In every interleaving each lock has one holder whose write is in the row, readers see the serial tables, drawn event numbers are unique and newer than the committed events of their row, and every shown row has its last event |
| `StationStore.RowsAreLastEvents` | internal/stationstore/mysqlstore/repository.go:22-100 | A row shows something exactly for the keys with a committed event, and it is the one with the highest number |
| `StationStore.CommittedStatusesShow` | internal/stationstore/mysqlstore/migrations/001_initial.sql:14-27 | In every run each committed status has its own connector shown (station, EVSE and connector number), with the last committed status of just that connector: connectors never hide one another |
| `StationStore.CommittedBootsShow` | internal/stationstore/mysqlstore/migrations/001_initial.sql:1-12 | In every run each committed boot has its own station shown, with the last committed boot of just that station |
| `StationStore.InterleavedIsSerial` | internal/stationstore/mysqlstore/repository.go:22-100 | In every interleaving of writes in place, rollbacks and refusals, readers see what the ended writes leave when run one after the other in the order they ended; with no transaction open that is what the tables hold |
| `StationStore.InterleavedMatchesMemoryIff` | internal/stationstore/memory.go:27-52 | Over all interleavings tables and in-memory maps agree if and only if every connector's last ended status came after an ended boot of its station |
| `StationStore.TablesMatchMemoryIff` | internal/stationstore/mysqlstore/migrations/001_initial.sql:14-27 | One write after the other, tables and maps agree if and only if every connector's last valid status came after a valid boot of its station |
| `StationStore.StatusBeforeBoot` | internal/stationstore/mysqlstore/migrations/001_initial.sql:25-26 | A status before the first boot makes them differ |
| `StationStore.SerialIsARun` | internal/stationstore/mysqlstore/repository.go:22-100 | The serial tables are those of a run of whole transactions |
| `StationStore.Repository.UpsertStation` | internal/stationstore/mysqlstore/repository.go:22-61 | It waits while others go on; success exactly when all required fields are given, the row is free in the end and no statement fails; then the row of that identity holds the boot and one new event does, and on an error neither, unless the reply to the commit was lost |
| `StationStore.Repository.UpdateConnectorStatus` | internal/stationstore/mysqlstore/repository.go:63-100 | The same for the row of station, EVSE and connector, and the row of the station must exist |
| `StationStore.Memory.UpsertStation` | internal/stationstore/memory.go:27-38 | Accepted exactly when not cancelled and all required fields are given; then the map of stations has it under its identity, all else unchanged, and the maps go on showing the latest valid write per key |
| `StationStore.Memory.UpdateConnectorStatus` | internal/stationstore/memory.go:40-52 | Accepted exactly when not cancelled, all required fields are given and the numbers are not negative; then the map of connectors has it under station, EVSE and connector, all else unchanged |
| `Cluster.SelectorsSeparate` | internal/controller/csms_controller.go:75-78 | A selector matches the pods of its own resource's name and of no other |
| `Cluster.DesiredFits` | internal/controller/csms_controller.go:163-382 | From the fields the spec determines, Ingress reaches Service, Service selects the pods and reaches the container's port, probes ask that port, and every mount has its own read-only volume |
| `Cluster.SecretsNamed` | internal/controller/csms_controller.go:225-239 | The environment refers to every secret named, optionally, and to no other |
| `Reconcile.ForeignSurvivesReconcileIff` | internal/controller/csms_controller.go:302-382 | Over a whole reconcile, another owner's object under a child's name survives if and only if the spec wants such a child, or the deletion does not get through, or an error before it ends the reconcile |
| `Reconcile.ForeignIngressDeleted` | internal/controller/csms_controller.go:324-338 | A resource without Ingress next to another owner's Ingress of its name: one undisturbed reconcile completes and that Ingress is gone |
| `Reconcile.Converges` | internal/controller/csms_controller.go:64-107 | From any cluster state a reconcile completes if and only if no call fails and no wanted child is controlled by another owner; then every child is what the spec alone determines, absent ones included |
| `SpecReached.ReconciledReaches` | internal/controller/csms_controller.go:124-422 | After every completed reconcile, from any cluster state: labels, config data, image, ports, environment, both probe paths, replicas, grace, resources, secret mounts, budget and Ingress are field by field what the resource says or the default the code gives, and the status reports the observed replicas, readiness, generation, reasons, messages and times |
| `Reconcile.Settled` | internal/controller/csms_controller.go:64-107 | After a completed reconcile a further one, completed or cut short anywhere and at any time, changes nothing, the status and its transition times included |
| `Reconcile.OthersKept` | internal/controller/csms_controller.go:64-107 | Other resources, their children, and fields Reconcile does not govern are kept |
| `ReconcileRuns.ReconcilesCommute` | internal/controller/csms_controller.go:64-107 | Reconciles of differently named resources commute, and neither affects whether the other completes |
| `ReconcileRuns.OwnStepsOnly` | internal/controller/csms_controller.go:112-382 | In any interleaving of reconciles and outside writes, child by child, an object ends as if only the steps on it had happened |
| `ReconcileRuns.Settles` | internal/controller/csms_controller.go:112-382 | After any drift and any cut-short reconciles, one completed step on a child leaves it as desired for good, until somebody else writes it |
| `Controller.Reconciler.Reconcile` | internal/controller/csms_controller.go:64-107 | The method's new cluster and result are those of the specification, including the missing resource and the stop at the first error |
| `Controller.Reconciler.CreateOrUpdate` | internal/controller/csms_controller.go:112-122 | Get, mutate, set the controller, create or update: one child as specified, refused when another owner controls it |
| `Controller.Reconciler.ReconcileService` | internal/controller/csms_controller.go:190-203 | The Service as specified |
| `Controller.Reconciler.ReconcileDeployment` | internal/controller/csms_controller.go:205-300 | The Deployment is brought to the specification whose fields `SpecReached.ReconciledReaches` spells out, or refused or left as the failing call leaves it, and the object returned is the stored one |
| `Controller.Reconciler.EnvFromOf` | internal/controller/csms_controller.go:225-239 | The loop yields the ConfigMap and one optional reference per secret named |
| `Controller.Reconciler.TlsVolumes` | internal/controller/csms_controller.go:163-188 | Volumes and mounts as specified, none without TLS |
| `Controller.Reconciler.ReconcilePodDisruptionBudget` | internal/controller/csms_controller.go:302-322 | The budget as specified: present exactly when set |
| `Controller.Reconciler.ReconcileIngress` | internal/controller/csms_controller.go:327-382 | The Ingress as specified: present exactly when set |
| `Controller.Reconciler.UpdateStatus` | internal/controller/csms_controller.go:384-422 | The status follows the Deployment's readiness; conditions move their time only when their status changes |

## Left out

- Generations and event numbers are unbounded integers; 64-bit overflow of the counters is not modelled (the codec's 2^63 limit is).
- RunConsumer as one endless method: its steps are actions of `Delivery`, and `Recovery.RunConsumer` takes any finite number of turns, time passing between them.
- The time a handler takes within a turn of the consumer loop; in `Delivery` time may pass at any point.
- AwaitResult as a polling loop: a caller takes a result, loses the reply or times out in one step.
- Stream entries that do not decode: `Delivery` carries commands, `Codec` says when an entry decodes to the command published.
- Publish: command IDs are fresh, and a client-side retry that adds an entry twice is not modelled.
- XAUTOCLAIM's internal scan limit and the cursor it returns, which the code discards.
- More than one consumer per owner stream; the runtime starts one.
- The Reset call itself: it is issued and then confirmed or not. The payload mapping of `internal/runtime/commands.go` and `internal/handlers/core.go` is field copying.
- JSON, SHA-256 of API keys, random IDs and constant-time comparison.
- HTTP, WebSocket and TLS handling, metrics, health endpoints and the readiness flag.
- MySQL column lengths, rounding of times to microseconds, deletion of stations, deadlock victims beyond a rolled-back transaction, and the shared locks of foreign-key checks: without them the model allows more interleavings than the database.
- Kubernetes defaulting and validation of fields on the server, resource versions and owner references other than the controller; a rejected write is a call that fails.
- `controllerutil` and `meta` are not part of the repository; their documented behaviour is modelled (a controller reference is recognised by kind and name, a condition's time moves with its status).
