# HomeLoom backend core: a verified model

HomeLoom's backend keeps device events in order, converts and routes properties between providers and a
unified model, tracks commands, serialises writes, runs agent tasks, and hides secrets. Each of these is a
small stateful component guarded by a lock. This project models them and proves what they promise over
every input, every run and every interleaving.

Two kinds of module go together. One states the behaviour on values (a queue, a table, a step machine) and
proves its properties: invariants of every step, statements about whole runs, round trips, exact conditions.
The other is the component as it is written, a class whose methods change fields, lists, maps and objects in
place, each method proved to do what the value model says. What the value model says is in turn fixed by laws
that do not use its definitions: which priority is stored, what each conversion step makes of a value, which
command ends how, what a snapshot item holds, what a record tells.

| component | what is proved about the model | the code in place |
|---|---|---|
| event shard and dispatcher | `EventQueue`, `EventRuns`, `DispatcherRuns` | `EventShard`, `EventDispatcher` |
| values and mapping pipelines | `Values`, `Mapping`, `MappingMeaning`, `MappingAcceptance`, `MappingSoundness`, `MappingRoundTrip`, `MappingRange`, `MappingUnits` | `MappingValidator`, `MappingEngine` |
| command tracker | `CommandState`, `CommandLaws` | `CommandTracker` |
| per-device gate | `CommandGate` | `CommandCoordinator` |
| shared property writes | `PropertyOperations`, `TrackedWrites` | `PropertyWrites` |
| bindings and profiles | `StringOrder`, `Bindings`, `Projections` | `BindingIndex`, `Snapshots`, `ProfileRegistry` |
| agent tasks | `AutomationState`, `AutomationRuns` | `AutomationService` |
| secrets in configurations | `Secrets`, `SecretKeys` | |

Run `dafny verify dfyconfig.toml` in this directory.

How the parts of the code that are not shown here appear:

- Time, trace ids, random ids and the device hash are parameters. New ids are fresh: the caller of a method
  that takes one shows that it is not in use.
- The store and the agent's runner answer as they please: each method takes whether the call succeeded.
- Numbers are reals, `int64` is a bounded integer; formatting and parsing numbers is any pair of functions. The
  round trips of pipelines without text steps ask nothing of it; with text steps they ask that the very
  numbers turned into text are read back from it, as the numbers of float64 are.
- Keys that the code builds by joining strings with NUL are tuples.
- Concurrency is a step machine: every mutex section, channel operation and atomic operation is one step of
  one of any number of threads, and the results hold for every interleaving.

## Results that are conditions

Some promises hold under a condition that the code does not check, and the model says exactly which.

- Whatever pairs of device and coalesce key publishers use, every run delivers each device's events in order
  exactly if no key is used by two devices (`OrderNeedsOneDevicePerKey`), as the comment at
  `eventbus/dispatcher.go` lines 60-64 intends. Any key shared by two devices makes some run fail
  (`SharedKeyBreaksOrder`). Devices of different shards may share keys (`HandledInDeviceOrder`).
- A write that reads back as written: `enum` steps do this exactly if there is no write-only alias
  (`AliasesBreakWrites`), `enum-number` and `bool-number` exactly for the numbers that stand for a label
  (`SnappingSteps`).
- A read that can be written back: `enum` steps do this exactly if the table is injective
  (`MergesBreakReads`), `range-enum`, `threshold` and `round` exactly for the numbers they choose
  (`ForgettingSteps`), the text steps exactly for the numbers that their text gives back (`TextSteps`).
- A reverse conversion fails its own final type check exactly if a fraction is left where an int is declared
  and no step rounds (`ReverseIsSafe`).
- A write to a native unified property goes back to it exactly if no enabled route owns its path; such a
  route lacks its source in the snapshot (`NativeWritesBack`).
- Restoring a redacted configuration gives the original exactly if no stored secret is the placeholder and
  elements of one array that share an id agree in their secrets with the first of them
  (`RestoreUndoesRedact`). An element with an id is matched by that id exactly if
  the id is stored, and by its place otherwise (`MatchedByIdIfStored`).

## Model

| member | source | states |
|---|---|---|
| `EventQueue.EnqueueKeepsValid` | backend/internal/eventbus/dispatcher.go:154-202 | accepting, merging or refusing an event keeps the queue within capacity and sorted by priority, with distinct orders, one waiting entry per coalesce key and no two low-priority entries with one deduplication key |
| `EventQueue.NextKeepsValid` | backend/internal/eventbus/dispatcher.go:217-244 | so does delivering |
| `EventQueue.RefusedOnlyFor` | backend/internal/eventbus/dispatcher.go:154-189 | an event is refused as closed, as duplicate (it has low priority and a waiting event of low priority has its deduplication key) or over capacity, or merged, for exactly these reasons in this order; a refused event leaves no trace |
| `EventQueue.AcceptedComesLast` | backend/internal/eventbus/dispatcher.go:122-202 | a new entry keeps its priority if it is one of the four and is Normal otherwise, keeps all else, is the last in order, and stands directly behind the entries that are served no later: critical, then high, then normal, then low |
| `EventQueue.MergedIntoItsEntry` | backend/internal/eventbus/dispatcher.go:166-185 | a merged event replaces the content of the one entry with its key, which keeps its order and has the more urgent of the two priorities; no other entry changes |
| `EventQueue.NextTakesOne` | backend/internal/eventbus/dispatcher.go:217-244 | delivering takes out the delivered entry and nothing else |
| `EventQueue.NextDelivers` | backend/internal/eventbus/dispatcher.go:217-258 | a queue that holds anything delivers, so the scan never falls through to its panic; what it delivers is the earliest entry of its device, and every entry of higher priority left behind is blocked by an earlier one of its own device |
| `EventRuns.DeliveredInDeviceOrder` | backend/internal/eventbus/dispatcher.go:154-258 | over every run, entries of one device are delivered in strictly increasing order, whatever was merged or upgraded, if equal keys mean equal devices |
| `EventRuns.SharedKeyBreaksOrder` | backend/internal/eventbus/dispatcher.go:166-184 | any key shared by any two devices lets a waiting entry change device and come out after a later event of its new one |
| `EventRuns.OrderNeedsOneDevicePerKey` | backend/internal/eventbus/dispatcher.go:60-64 | whatever pairs of device and key are in use, all runs keep device order exactly if no key has two devices |
| `EventRuns.NothingLost` | backend/internal/eventbus/dispatcher.go:154-244 | over every run, each accepted order is either waiting or delivered, once, and carries the last event merged into it and the highest priority of all of them |
| `EventRuns.HighestIsOne` | backend/internal/eventbus/dispatcher.go:122-185 | that priority is the priority of one of them, and none of them is served before it |
| `EventRuns.NothingAcceptedAfterShutdown` | backend/internal/eventbus/dispatcher.go:156-160 | after close no event is accepted any more |
| `EventRuns.DrainsBeforeStopping` | backend/internal/eventbus/dispatcher.go:217-244 | after close, next hands out every waiting entry and says that the queue is finished exactly when all are out |
| `EventShard.Shard.constructor` | backend/internal/eventbus/dispatcher.go:106-120 | a new shard is the empty queue |
| `EventShard.Shard.EnqueueLocked` | backend/internal/eventbus/dispatcher.go:154-202 | the four lists, two maps and the counter, changed in place, do what the single sorted queue does, and stay in agreement |
| `EventShard.Shard.Enqueue` | backend/internal/eventbus/dispatcher.go:154-202 | the same with the closed check, from and to a valid shard |
| `EventShard.Shard.RemoveAtLocked` | backend/internal/eventbus/dispatcher.go:260-265 | shifting a list takes out one entry and keeps the order of the others |
| `EventShard.Shard.RemoveLocked` | backend/internal/eventbus/dispatcher.go:204-215 | an entry to be upgraded is found in the list of its own priority and taken out, nothing else |
| `EventShard.Shard.HasEarlierForDevice` | backend/internal/eventbus/dispatcher.go:249-258 | scanning all lists tells whether an earlier entry of the same device waits |
| `EventShard.Shard.FindReady` | backend/internal/eventbus/dispatcher.go:217-244 | scanning the lists by priority finds the first entry that nothing holds back |
| `EventShard.Shard.Next` | backend/internal/eventbus/dispatcher.go:217-244 | next on the lists delivers what the queue delivers and never reaches the panic |
| `EventShard.Shard.Close` | backend/internal/eventbus/dispatcher.go:267-272 | closing changes nothing but the flag |
| `EventDispatcher.Home` | backend/internal/eventbus/dispatcher.go:417-421 | every device has one shard |
| `DispatcherRuns.PostedToItsShard` | backend/internal/eventbus/dispatcher.go:320-338 | an event reaches the one shard whose number is the remainder of its hash, and no other shard changes |
| `DispatcherRuns.WorkedOnItsShard` | backend/internal/eventbus/dispatcher.go:391-415 | a turn of a worker changes its own shard and no other |
| `DispatcherRuns.StoppedShards` | backend/internal/eventbus/dispatcher.go:372-389 | stopping closes every shard and keeps every waiting entry |
| `DispatcherRuns.StopDrains` | backend/internal/eventbus/dispatcher.go:372-415 | in any run with a stop, nothing is accepted any more, and a worker goes on delivering and finishes exactly when its shard is empty |
| `EventDispatcher.Dispatcher.constructor` | backend/internal/eventbus/dispatcher.go:296-318 | at least one shard, each empty and of the given capacity or one |
| `EventDispatcher.Dispatcher.Publish` | backend/internal/eventbus/dispatcher.go:320-338 | an event reaches the shard of its device and no other |
| `EventDispatcher.Dispatcher.WorkOn` | backend/internal/eventbus/dispatcher.go:391-415 | a worker takes the next entry of its own shard and leaves the other shards alone |
| `EventDispatcher.Dispatcher.CloseAll` | backend/internal/eventbus/dispatcher.go:372-389 | closing the dispatcher closes every shard |
| `DispatcherRuns.HandledInDeviceOrder` | backend/internal/eventbus/dispatcher.go:320-338 | device order lifts to any number of shards with workers taking turns in any order, if devices of one shard share no key |
| `Values.EqualIsSame` | backend/internal/domain/device/device.go:127-143 | well-formed values are equal exactly if they are the same value |
| `Values.TypedValues` | backend/internal/domain/device/device.go:145-175 | a value has a type exactly if it holds the payload of that type and no other |
| `MappingValidator.Validate` | backend/internal/mapping/profile.go:139-308 | the validator reports no field exactly for the profiles that meet every rule, step after step with the tracked type |
| `MappingValidator.ValidateRangeBands` | backend/internal/mapping/profile.go:396-441 | bands are accepted exactly if they are ordered, cover the line, have distinct labels, and have each reverse number in its own band |
| `MappingValidator.ValidateThreshold` | backend/internal/mapping/profile.go:443-464 | a threshold is accepted exactly if its two numbers fall on their sides of it |
| `MappingValidator.ValidateEnumValues` | backend/internal/mapping/profile.go:329-377 | a table is accepted exactly if every output that several inputs share has a canonical one, and canonical inputs lead back to their output |
| `MappingValidator.ValidateLabels` | backend/internal/mapping/profile.go:388-394 | labels are accepted exactly if both are given and differ |
| `MappingValidator.ValidateStep` | backend/internal/mapping/profile.go:167-300 | one step is accepted exactly if its input type and its parameters fit, and the tracked type moves on |
| `MappingAcceptance.AcceptedProfiles` | backend/internal/mapping/profile.go:139-308 | the profiles that `MappingValidator.Validate` accepts are exactly those whose pipeline can be given types with every step in order between them |
| `MappingAcceptance.StepsInOrder` | backend/internal/mapping/profile.go:167-300 | each kind of step is accepted on exactly its input types, with exactly these parameters, and leaves behind exactly its output type |
| `MappingAcceptance.TablesInOrder` | backend/internal/mapping/profile.go:329-377 | a table is accepted exactly if names are given and every output it has can be written back to an input that gives it |
| `MappingAcceptance.BandsAreInOrder` | backend/internal/mapping/profile.go:396-441 | bands are accepted exactly if their labels differ, the last is open, and the number of every label falls into its own band |
| `MappingEngine.Preview` | backend/internal/mapping/engine.go:12-102 | previewing refuses what validation refuses, otherwise gives the conversion of the value or of the default, with one recorded step per transform, in order, each starting from what the one before produced and holding what its transform makes of that |
| `MappingEngine.RunForward` | backend/internal/mapping/engine.go:40-49 | the forward loop computes the composition of the steps and records it |
| `MappingEngine.RunReverse` | backend/internal/mapping/engine.go:50-65 | the reverse loop undoes the steps from last to first, telling each the type it took going forward |
| `MappingEngine.FindSource` | backend/internal/mapping/engine.go:217-235 | the search over the table finds the one source of an output, or tells that there is none or more than one |
| `MappingMeaning.ScaleStretches` | backend/internal/mapping/engine.go:115-117 | scaling sends nought to the offset and stretches distances by the factor |
| `MappingMeaning.MapRangeKeepsProportions` | backend/internal/mapping/engine.go:171-173 | a range is mapped end to end and proportions are kept |
| `MappingMeaning.UnitsInterpolate` | backend/internal/mapping/engine.go:389-409 | every temperature keeps its place between freezing and boiling water, every share its place between nothing and the whole; a unit converts to itself unchanged |
| `MappingMeaning.ColourTemperatures` | backend/internal/mapping/engine.go:418-434 | kelvin and mired multiply to a million, and refuse what is not positive |
| `MappingMeaning.ClampIsNearest` | backend/internal/mapping/engine.go:118-126 | clamping gives the nearest number within the bounds |
| `MappingMeaning.RoundingMeans` | backend/internal/mapping/engine.go:174-187 | rounding down, up, and to the nearest integer with halves away from nought |
| `MappingMeaning.NumberIsNamedByItsBand` | backend/internal/mapping/engine.go:135-142 | a number is named by the one band that holds it |
| `MappingMeaning.ReciprocalMeans` | backend/internal/mapping/engine.go:298-304 | in both directions a reciprocal times its number is one, and nought is refused |
| `MappingMeaning.InvertMeans` | backend/internal/mapping/engine.go:106-204 | in both directions the other bool |
| `MappingMeaning.IntNumberMeans` | backend/internal/mapping/engine.go:110-210 | ints become the same number and back exactly up to 2^53 - 1; fractions and larger numbers are refused |
| `MappingMeaning.ScalesUndone` | backend/internal/mapping/engine.go:211-277 | undoing a scale gives the number that it sends to the value; undoing a range keeps proportions |
| `MappingMeaning.UnitAndClampSteps` | backend/internal/mapping/engine.go:133-237 | a unit step converts from its first unit to its second and back; a clamp cannot be undone |
| `MappingMeaning.ThresholdMeans` | backend/internal/mapping/engine.go:150-263 | a number is true exactly on the stated side of the threshold, with the threshold itself where the operator says; true and false are written as their numbers; bool-number is the same the other way round |
| `MappingMeaning.LabelsMean` | backend/internal/mapping/engine.go:157-272 | true has the one label and false the other, in both steps and both directions; any other label is refused |
| `MappingMeaning.BandsMean` | backend/internal/mapping/engine.go:135-257 | a number gives the label of its band and a label the number of its band, in both steps and both directions |
| `MappingMeaning.UnknownLabels` | backend/internal/mapping/engine.go:143-244 | a label that no band has is refused |
| `MappingMeaning.TableIsRead` | backend/internal/mapping/engine.go:127-132 | an enum step gives the entry of its table, as enum or text as it came, and refuses what has none |
| `MappingMeaning.TableIsWritten` | backend/internal/mapping/engine.go:217-235 | an output is written as its reverse entry, or else as its one source |
| `MappingMeaning.TableRefuses` | backend/internal/mapping/engine.go:217-235 | without a reverse entry an output with several sources is refused as ambiguous, and one without any as unknown |
| `MappingMeaning.RoundMeans` | backend/internal/mapping/engine.go:174-187 | a round step gives the integer that its own mode says, if that is an int64; undoing it leaves the number alone |
| `MappingMeaning.TextMeans` | backend/internal/mapping/engine.go:188-293 | the text steps format and parse, and read an int only from a whole number |
| `MappingMeaning.PipelinesCompose` | backend/internal/mapping/engine.go:39-65 | a pipeline runs its front and then its back, is undone the other way round, and stops at the first error |
| `MappingMeaning.ReadingIsThePipeline` | backend/internal/mapping/engine.go:12-102 | reading through a valid profile is running its pipeline on a value of the input type |
| `MappingMeaning.WritingIsThePipelineUndone` | backend/internal/mapping/engine.go:50-102 | writing is undoing it; a whole number becomes an int where one is declared, if it is an int64 |
| `MappingMeaning.FractionsAreRounded` | backend/internal/mapping/engine.go:66-97 | a fraction becomes the int that the first round step says, and is refused without one |
| `MappingSoundness.ForwardIsSafe` | backend/internal/mapping/engine.go:12-199 | reading through a validated profile never meets a missing payload or parameter and never divides by nought; every success has the declared output type and one payload |
| `MappingSoundness.ReverseIsSafe` | backend/internal/mapping/engine.go:12-102 | the same for writing, with the exact condition under which the final type check refuses |
| `MappingSoundness.ForwardIsTyped` | backend/internal/mapping/engine.go:40-49 | the type track of the pipeline is the validator's, for pipelines of any length |
| `MappingSoundness.ReverseIsTyped` | backend/internal/mapping/engine.go:50-65 | undoing the steps ends in the input type, or in a number where the validator tracks an int |
| `MappingRoundTrip.WriteThenRead` | backend/internal/mapping/engine.go:104-296 | what is written is read back, for pipelines of any length of the steps that keep writes, if the numbers written as text can be read again |
| `MappingRoundTrip.WriteThenReadWithoutText` | backend/internal/mapping/engine.go:104-296 | without parse-number steps, whatever formatting does |
| `MappingRoundTrip.ReadThenWrite` | backend/internal/mapping/engine.go:104-296 | what is read can be written back, for pipelines of any length of the steps that keep reads, if the numbers read as text are recovered from it |
| `MappingRoundTrip.ReadThenWriteWithoutText` | backend/internal/mapping/engine.go:104-296 | without number-string steps, whatever formatting does |
| `MappingRoundTrip.TextSteps` | backend/internal/mapping/engine.go:188-195 | a text step gives back exactly the numbers that their own text gives back |
| `MappingRoundTrip.AliasesBreakWrites` | backend/internal/mapping/profile.go:329-377 | a table gives back every written label exactly if it has no write-only alias |
| `MappingRoundTrip.MergesBreakReads` | backend/internal/mapping/profile.go:329-377 | a table gives back every read label exactly if it is injective |
| `MappingRoundTrip.SnappingSteps` | backend/internal/mapping/engine.go:143-156 | a number written through a snapping step reads back exactly if it stands for a label |
| `MappingRoundTrip.ForgettingSteps` | backend/internal/mapping/engine.go:135-142 | a number read through a forgetting step can be written back exactly if it was the chosen one |
| `MappingRoundTrip.ReverseNumberIsInBand` | backend/internal/mapping/profile.go:396-441 | the number written for a label is named by that label again |
| `MappingRoundTrip.UnitsCancel` | backend/internal/mapping/engine.go:389-434 | converting to another unit and back changes nothing |
| `MappingRange.MappedValueIsInRange` | backend/internal/application/profile_binding_service.go:304-349 | a value within a definition's bounds is mapped within the mapped bounds, also by falling pipelines and with truncated int bounds |
| `MappingRange.BoundsAreAttained` | backend/internal/application/profile_binding_service.go:304-349 | the mapped bounds are no wider than need be: each is the reading of one of the two bounds |
| `MappingRange.TruncatesTowardZero` | backend/internal/application/profile_binding_service.go:314-318 | a bound of an int input is cut off toward nought |
| `MappingRange.PipelineIsMonotone` | backend/internal/mapping/engine.go:104-199 | numeric pipelines of any length keep or reverse the order of values |
| `MappingUnits.AutoCapabilityProfile` | backend/internal/mapping/capability_profile.go:18-45 | a profile is made exactly for two different units with a conversion and numeric types, and is a valid one |
| `MappingUnits.GeneratedProfileConverts` | backend/internal/mapping/capability_profile.go:18-45 | a generated profile reads a number as its unit conversion, and as the nearest int of that where it declares an int; it writes by the conversion back |
| `MappingUnits.NumberUnitsAreExact` | backend/internal/mapping/capability_profile.go:18-45 | between numbers, a unit profile is exact both ways |
| `MappingUnits.AffineUnitsConvertAll` | backend/internal/mapping/engine.go:389-434 | units other than kelvin and mired convert every number, in both directions |
| `MappingUnits.SpreadingKeepsInts` | backend/internal/mapping/capability_profile.go:18-45 | with a factor above one, every int that is read can be written back |
| `MappingUnits.SqueezingKeepsResults` | backend/internal/mapping/capability_profile.go:18-45 | with a factor below one, every int that is written is read back |
| `MappingUnits.FahrenheitDriftsByOne` | backend/internal/mapping/engine.go:66-97 | fahrenheit to celsius and back moves an int by one at most |
| `MappingUnits.KelvinIsExact` | backend/internal/mapping/engine.go:66-97 | celsius and kelvin are exact both ways |
| `CommandState.StepInvariant` | backend/internal/command/tracker.go:39-335 | every operation keeps the pending index, the idempotency table, the outcomes and the retention limit, and changes no command's end |
| `CommandState.RunInvariant` | backend/internal/command/tracker.go:29-335 | they hold at every point of every run |
| `CommandState.OutcomeTellsTheEnd` | backend/internal/command/tracker.go:337-374 | the outcome tells whether a command has ended, and how |
| `CommandState.OneLivePerSlot` | backend/internal/command/tracker.go:72-109 | per property slot at most one command is live |
| `CommandState.BeginServesTheNewest` | backend/internal/command/tracker.go:72-109 | asking for a value joins exactly a live command for that value, leaves the answer as the slot's one live command, supersedes the one it replaces and changes nothing else |
| `CommandState.NothingOverdueStaysLive` | backend/internal/command/tracker.go:316-335 | after expiry no live command is overdue, and only overdue live commands have timed out |
| `CommandState.ConfirmIsSound` | backend/internal/command/tracker.go:251-274 | confirming looks at no status and yet cannot touch a command that has ended |
| `CommandState.TerminalForever` | backend/internal/command/tracker.go:296-314 | over every run, a command that has ended keeps its status, outcome and error |
| `CommandState.OneActionPerKey` | backend/internal/command/tracker.go:161-184 | over every run, a key never names two retained actions |
| `CommandState.EvictionIsSound` | backend/internal/command/tracker.go:202-223 | eviction keeps the invariant and leaves at most the limit, or at most one command that could still be evicted |
| `CommandLaws.ConfirmingEndsTheWaiting` | backend/internal/command/tracker.go:251-274 | an observed value confirms the command that waits for it at that very device, endpoint, capability and property, as confirmed and succeeded; nothing waits there afterwards and no other command changes; without such a command nothing changes |
| `CommandLaws.BeginningAnswers` | backend/internal/command/tracker.go:72-109 | beginning a write joins the command that waits for the value already, or starts one with exactly the given fields, queued, with its deadline, and supersedes the one that waited; one command waits afterwards |
| `CommandLaws.TransitionSets` | backend/internal/command/tracker.go:296-314 | an open command gets exactly the reported status, its outcome and the message; it waits on if the status is open and its slot is free otherwise; nothing else changes |
| `CommandLaws.SupersedingSets` | backend/internal/command/tracker.go:129-150 | a superseded command ends superseded, with the given message or the usual one, and its slot is free |
| `CommandLaws.BegunThenConfirmed` | backend/internal/command/tracker.go:72-274 | begin, then confirm with the same five arguments: the answered command is confirmed and nothing waits, exactly if the value has the payload of its type |
| `CommandLaws.BegunThenMoved` | backend/internal/command/tracker.go:72-314 | begin, then report any status: the answered command has it |
| `CommandLaws.BegunThenSuperseded` | backend/internal/command/tracker.go:72-150 | begin, then supersede: the answered command is superseded and nothing waits |
| `CommandLaws.ActionStarts` | backend/internal/command/tracker.go:161-184 | an action starts with exactly the given fields, unless a retained action of the same device, endpoint, capability and name has its key; then nothing changes |
| `CommandLaws.ParametersAgree` | backend/internal/command/tracker.go:229-240 | well-formed parameters agree exactly if they are the same |
| `CommandLaws.AddingCounts` | backend/internal/command/tracker.go:111-127 | adding joins changes the count of one retained command and nothing else |
| `CommandLaws.ExpiringTimesOut` | backend/internal/command/tracker.go:316-335 | exactly the open commands whose deadline has come time out |
| `CommandLaws.LimitingKeeps` | backend/internal/command/tracker.go:39-48 | the limit is at least one, holds unless only open commands are left, and costs nothing while it is not exceeded |
| `CommandLaws.OnlyOldEndedCommandsGo` | backend/internal/command/tracker.go:197-223 | whatever an operation drops has ended and is no newer than any ended command it keeps |
| `CommandTracker.Tracker.OldestTerminal` | backend/internal/command/tracker.go:202-212 | the scan finds an ended command of least creation time, or that there is none |
| `CommandTracker.Tracker.RemoveOldestTerminal` | backend/internal/command/tracker.go:202-223 | that command goes, with its idempotency entry and nothing else |
| `CommandTracker.Tracker.EvictDownTo` | backend/internal/command/tracker.go:197-200 | the loop ends, removes ended commands only, oldest first, and stops at the limit |
| `CommandTracker.Tracker.SetMaxItems` | backend/internal/command/tracker.go:39-48 | the limit is at least one and is enforced at once |
| `CommandTracker.Tracker.BeginProperty` | backend/internal/command/tracker.go:72-109 | prune, then join, replace or start, on the maps in place |
| `CommandTracker.Tracker.AddCoalesced` | backend/internal/command/tracker.go:111-127 | adds exactly the given joins to a retained command |
| `CommandTracker.Tracker.Supersede` | backend/internal/command/tracker.go:129-150 | ends a live command, frees its slot and trims |
| `CommandTracker.Tracker.BeginAction` | backend/internal/command/tracker.go:161-184 | a repeated key answers with the command it started or refuses, and starts no second one |
| `CommandTracker.Tracker.Transition` | backend/internal/command/tracker.go:296-314 | moves a live command and no other; an ended one is left alone |
| `CommandTracker.Tracker.Confirm` | backend/internal/command/tracker.go:251-274 | confirms the pending command that asked for the observed value |
| `CommandTracker.Tracker.Expire` | backend/internal/command/tracker.go:316-335 | the loop times out exactly the overdue live commands |
| `CommandGate.NextKeepsInv` | backend/internal/application/command_coordinator.go:27-79 | every step of every thread keeps: references equal users, the token is home or with one thread, the table holds the gates in use, the counter equals the waiting |
| `CommandGate.AtMostOneHolder` | backend/internal/application/command_coordinator.go:27-60 | in every interleaving at most one thread owns a device's gate, though gates are dropped and made anew |
| `CommandGate.ReturningNeverBlocks` | backend/internal/application/command_coordinator.go:62-70 | giving the token back never blocks |
| `CommandGate.WaitersAreServed` | backend/internal/application/command_coordinator.go:51-59 | a waiting thread can proceed, or the owner of its gate can |
| `CommandGate.TableHoldsUsedGates` | backend/internal/application/command_coordinator.go:72-79 | a device is in the table exactly while some thread uses its gate |
| `CommandGate.NothingLeaks` | backend/internal/application/command_coordinator.go:51-79 | when all threads are done, cancelled or not, nothing is left and the recorded maximum is the true peak |
| `CommandGate.PendingCountsWaiters` | backend/internal/application/command_coordinator.go:44-50 | the counter is the number of waiting threads; the maximum never exceeds the peak, and equals it when nobody is recording |
| `CommandGate.UnusedGateIsTakenAtOnce` | backend/internal/application/command_coordinator.go:27-43 | in any run, a device that no thread uses is acquired without waiting |
| `CommandCoordinator.Coordinator.Reference` | backend/internal/application/command_coordinator.go:28-36 | the first critical section, on gate objects in the table |
| `CommandCoordinator.Coordinator.TryToken` | backend/internal/application/command_coordinator.go:38-42 | the fast path takes the token if it is there |
| `CommandCoordinator.Coordinator.AddWaiter` | backend/internal/application/command_coordinator.go:44 | one more is waiting, and the thread knows the count it made |
| `CommandCoordinator.Coordinator.LoadMaximum` | backend/internal/application/command_coordinator.go:45-50 | reading the maximum decides whether the thread has to raise it |
| `CommandCoordinator.Coordinator.CompareAndSwap` | backend/internal/application/command_coordinator.go:45-50 | the maximum is raised only if nobody changed it meanwhile |
| `CommandCoordinator.Coordinator.TakeOrGiveUp` | backend/internal/application/command_coordinator.go:51-59 | the blocking choice takes the token or gives up |
| `CommandCoordinator.Coordinator.RemoveWaiter` | backend/internal/application/command_coordinator.go:53-58 | one fewer is waiting, in both outcomes |
| `CommandCoordinator.Coordinator.ReturnToken` | backend/internal/application/command_coordinator.go:64-67 | the token goes home into an empty channel |
| `CommandCoordinator.Coordinator.ReleaseReference` | backend/internal/application/command_coordinator.go:72-79 | the last reference drops the gate from the table, if it is still there |
| `PropertyOperations.NextKeepsInv` | backend/internal/application/device_service.go:1669-1740 | every step of every thread keeps: live operations in the table, one owner until closed, joins accounted for |
| `PropertyOperations.JoinsUnfinished` | backend/internal/application/device_service.go:1669-1682 | whoever joins, joins an unfinished, unreplaced operation for an equal value, and is counted once |
| `PropertyOperations.JoinsOrReplaces` | backend/internal/application/device_service.go:1669-1696 | a caller joins the write under way exactly if that is for an equal value; otherwise it starts its own, and the one under way is cancelled |
| `PropertyOperations.ClosedOnce` | backend/internal/application/device_service.go:1722-1740 | a done channel is closed at most once, and until then the operation has its owner |
| `PropertyOperations.FinishTouchesOnlyItself` | backend/internal/application/device_service.go:1731-1738 | finishing stores the result; finishing closes an open channel and never removes another operation's entry |
| `PropertyOperations.OneLivePerProperty` | backend/internal/application/device_service.go:1683-1696 | per property at most one operation is neither finished nor cancelled |
| `PropertyOperations.EveryJoinIsAdded` | backend/internal/application/device_service.go:1672-1720 | once nobody is still adding, every join was added exactly once, whether before or after the command id was known |
| `PropertyOperations.RetainedCounts` | backend/internal/application/device_service.go:1674-1720 | a retained command's coalesced count is what the tracker joined plus what all operations added |
| `PropertyOperations.ResultIsFinal` | backend/internal/application/device_service.go:1486-1493 | from the close on the stored result never changes, so all waiters read the same |
| `TrackedWrites.CreditIsTheTrackers` | backend/internal/command/tracker.go:111-127 | the step that adds joins is the tracker's own operation |
| `TrackedWrites.JoiningCountsOne` | backend/internal/command/tracker.go:84-94 | a write the tracker joins adds one to that command |
| `TrackedWrites.StartingCountsNone` | backend/internal/command/tracker.go:95-102 | a write it does not join starts a count of nought and changes no other |
| `TrackedWrites.OtherTrackerStepsKeepCounts` | backend/internal/command/tracker.go:129-335 | no other operation on property commands changes a count |
| `TrackedWrites.TrackerIsFollowed` | backend/internal/command/tracker.go:39-335 | whatever the tracker does, moves of the machine lead from its counts before to its counts after |
| `TrackedWrites.TrackerCountsAddUp` | backend/internal/application/device_service.go:1484-1511 | over every run of writes and tracker together, a retained command's coalesced count is what the tracker joined plus what the operations added |
| `PropertyWrites.PropertyWriter.BeginOperation` | backend/internal/application/device_service.go:1669-1696 | joining or replacing, on operation objects in place |
| `PropertyWrites.PropertyWriter.SetCommand` | backend/internal/application/device_service.go:1706-1711 | publishing the command id tells whether the operation is current and what is left to add |
| `PropertyWrites.PropertyWriter.FinishOperation` | backend/internal/application/device_service.go:1731-1738 | storing the result, clearing the own entry, cancelling and closing |
| `Bindings.CanonicalKeepsRoute` | backend/internal/application/profile_binding_service.go:135-145 | the stored form keeps both sides of the route and is stable |
| `Bindings.ChangeKeepsConsistent` | backend/internal/application/profile_binding_service.go:50-133 | no creation, update, deletion or pruning lets two bindings clash |
| `Bindings.HistoryIsConsistent` | backend/internal/application/profile_binding_service.go:50-255 | after any sequence of changes, consumer targets and unified properties have one owner |
| `Bindings.ConsumersClash` | backend/internal/mapping/binding.go:84-92 | two consumer routes clash exactly if they agree in all six fields that name the consumer property |
| `Bindings.ProvidersClash` | backend/internal/mapping/binding.go:76-99 | two provider routes clash exactly if they lead to one property of one device; a consumer route clashes with neither |
| `Bindings.StoredForm` | backend/internal/application/profile_binding_service.go:135-145 | storing a provider route changes only its stage and model path; storing a consumer route drops only what providers have |
| `Bindings.StoredExactlyIf` | backend/internal/application/profile_binding_service.go:50-133 | a route is created or updated exactly if it is acceptable, its id is new or known, no other route is in its place and it can be saved |
| `BindingIndex.IndexesAreDetermined` | backend/internal/application/profile_binding_service.go:601-634 | the indexes are determined by the bindings, however they came about |
| `StringOrder.LessIsLexicographic` | backend/internal/application/profile_binding_service.go:601-609 | ids are ordered as in a dictionary: a prefix first, and otherwise the first difference decides |
| `BindingIndex.BindingTable.AddKey` | backend/internal/application/profile_binding_service.go:601-609 | an id is listed once, in ascending order |
| `BindingIndex.BindingTable.RemoveKey` | backend/internal/application/profile_binding_service.go:611-625 | one id leaves the list; an empty list goes |
| `BindingIndex.BindingTable.HasOtherKey` | backend/internal/application/profile_binding_service.go:627-634 | tells whether another id is listed |
| `BindingIndex.BindingTable.CreateBinding` | backend/internal/application/profile_binding_service.go:50-91 | creation succeeds exactly if the id and the place are free, and keeps both indexes in agreement with a scan of the bindings |
| `BindingIndex.BindingTable.UpdateBinding` | backend/internal/application/profile_binding_service.go:93-133 | so does an update, also of stage and paths |
| `BindingIndex.BindingTable.DeleteBinding` | backend/internal/application/profile_binding_service.go:177-197 | so does a deletion |
| `BindingIndex.BindingTable.PruneBindings` | backend/internal/application/profile_binding_service.go:224-255 | pruning removes the doomed bindings in ascending order up to the first failure of the store, and no other |
| `BindingIndex.BindingTable.ForwardRoute` | backend/internal/application/profile_binding_service.go:576-583 | the forward route is the enabled one of least id |
| `BindingIndex.BindingTable.ReverseRoute` | backend/internal/application/profile_binding_service.go:573-588 | the route back is the path's one owner, if enabled |
| `ProfileRegistry.Registry.ResolveReference` | backend/internal/application/profile_binding_service.go:747-758 | a reference is an id or an identifier, ids first |
| `ProfileRegistry.ResolvedIsKnown` | backend/internal/application/profile_binding_service.go:735-758 | it stands for an existing profile exactly if one has that id or identifier |
| `ProfileRegistry.IdsGoFirst` | backend/internal/application/profile_binding_service.go:747-758 | a reference that is an id stands for itself, any other for the profile with that identifier |
| `ProfileRegistry.ChangeIsStored` | backend/internal/application/profile_service.go:319-364 | an update stores what it was given under the id it was asked for, with the old identifier if it gives none |
| `ProfileRegistry.StorableExactlyIf` | backend/internal/application/profile_service.go:319-438 | storing needs exactly: no built-in id, a newer version than what is replaced, an identifier no other profile has, and a fit with every binding that uses it |
| `ProfileRegistry.VersionsOnlyGrow` | backend/internal/application/profile_service.go:389-448 | importing takes no profile away and replaces one only by a newer version |
| `ProfileRegistry.Registry.Create` | backend/internal/application/profile_service.go:291-317 | a profile is stored exactly if its id and identifier are free, and the identifier index stays a bijection |
| `ProfileRegistry.Registry.Update` | backend/internal/application/profile_service.go:319-364 | a profile is replaced exactly by a newer one with a free identifier that fits its bindings |
| `ProfileRegistry.Registry.Delete` | backend/internal/application/profile_service.go:366-387 | a profile goes exactly if no binding refers to it |
| `ProfileRegistry.Registry.Import` | backend/internal/application/profile_service.go:389-454 | several profiles are stored, all or none, and the index survives renames among them |
| `ProfileRegistry.StoredAllHas` | backend/internal/application/profile_service.go:440-448 | after an import every imported profile is stored as given, and every other one is as it was |
| `ProfileRegistry.StoringKeepsIndexed` | backend/internal/application/profile_service.go:355-358 | moving an identifier keeps the index a bijection |
| `ProfileRegistry.Registry.CreateBinding` | backend/internal/application/profile_binding_service.go:50-91 | a stored binding refers to no profile or to an existing one |
| `ProfileRegistry.Registry.UpdateBinding` | backend/internal/application/profile_binding_service.go:93-133 | so does a changed one |
| `Snapshots.ProjectProviderProperty` | backend/internal/application/profile_binding_service.go:436-482 | the native projection, then one for each enabled route from the property in ascending order, or a failure exactly if one cannot be converted |
| `Snapshots.ProjectMissing` | backend/internal/application/profile_binding_service.go:489-538 | a default for each enabled route whose source is absent and whose profile has one |
| `Snapshots.AddProjection` | backend/internal/application/device_service.go:2115-2145 | explicit projections take the place of native ones; two of a kind at one path are a duplicate |
| `Snapshots.MapSnapshot` | backend/internal/application/device_service.go:2100-2189 | with distinct source paths the snapshot reports no duplicate, fails exactly if a needed conversion fails, and is otherwise exactly what the specification describes |
| `Projections.WhatItemsHold` | backend/internal/application/profile_binding_service.go:436-538 | every item of the snapshot holds what its route or source says: the converted value and presented converted definition, the source value without a profile, the default of an absent source, or the native source unchanged, each as the unified model shapes it |
| `Projections.NothingIsLeftOut` | backend/internal/application/device_service.go:2115-2175 | every accepted source has an item at its path and every route with something to show has its own |
| `Projections.WhyMappingFails` | backend/internal/application/profile_binding_service.go:461-531 | mapping fails exactly if an enabled route names a missing profile, or needs a conversion or default that fails |
| `Snapshots.ResolveWritePath` | backend/internal/application/profile_binding_service.go:556-599 | a write goes to the source of the path's enabled owner, or straight through; it is refused exactly if the owner's profile is missing |
| `Projections.WritesFollowRoutes` | backend/internal/application/profile_binding_service.go:556-599 | with a route to the path the write goes to its source and nowhere else; without one it goes straight through |
| `Projections.LackingProfileFails` | backend/internal/application/profile_binding_service.go:461-467 | that happens only while the device cannot be mapped either |
| `Projections.OrderDoesNotMatter` | backend/internal/application/device_service.go:2146-2175 | the order in which properties are visited does not change what is shown |
| `Projections.FailureIsOrderless` | backend/internal/application/device_service.go:2146-2175 | nor whether mapping fails |
| `Projections.ExplicitWritesBack` | backend/internal/application/profile_binding_service.go:556-599 | a write to an explicitly routed property goes to the property it was read from, and nowhere else |
| `Projections.NativeWritesBack` | backend/internal/application/profile_binding_service.go:556-599 | the exact condition for native properties |
| `Projections.WritesGoBack` | backend/internal/application/profile_binding_service.go:556-599 | if every enabled route has its source in the snapshot, every write goes back to where its property came from |
| `AutomationState.NextKeepsInv` | backend/internal/application/ai_automation_service.go:156-536 | every step keeps: executions registered and owned by one thread, awaiting runs planned for their task and generation |
| `AutomationState.ApprovalsAreCurrent` | backend/internal/application/ai_automation_service.go:236-282 | every approval, by hand or automatic, is of a run planned under the generation the store holds at that moment, with the task enabled |
| `AutomationState.OneExecutionPerTask` | backend/internal/application/ai_automation_service.go:500-526 | no two threads carry out one task at the same time |
| `AutomationState.RefusedOnlyWhileRunning` | backend/internal/application/ai_automation_service.go:500-526 | a task is turned away as running only while a thread carries it out |
| `AutomationState.HistoryIsKept` | backend/internal/application/ai_automation_service.go:156-192 | saving a task loses no run; only recording adds one, of the present generation, and only saving changes the generation |
| `AutomationState.HistoryKeepsNewest` | backend/internal/application/ai_automation_service.go:387-428 | over every run, recording puts one run of the present generation in front and drops only the oldest, only at the limit |
| `AutomationState.ApprovalIsShown` | backend/internal/application/ai_automation_service.go:248-281 | an approved run shows the runner's answer in its first record, and nothing else of the store changes |
| `AutomationState.StopBoundary` | backend/internal/application/ai_automation_service.go:371-418 | once a task was saved or deleted, no earlier execution has a run approved or writes history, and no earlier plan is approved |
| `AutomationState.SavingSupersedes` | backend/internal/application/ai_automation_service.go:156-206 | saving or deleting is that boundary |
| `AutomationRuns.CreatedAsGiven` | backend/internal/application/ai_automation_service.go:156-192 | a new task is stored with exactly the given settings |
| `AutomationRuns.UpdatedAsGiven` | backend/internal/application/ai_automation_service.go:151-192 | a changed task has exactly the given settings, the next generation and its old runs; what is under way for it is cancelled, and nothing else |
| `AutomationRuns.DeletedAndCancelled` | backend/internal/application/ai_automation_service.go:194-206 | a deleted task is gone and what is under way for it is cancelled |
| `AutomationRuns.BeginsIfStartable` | backend/internal/application/ai_automation_service.go:500-517 | an execution starts exactly if the task is still enabled, of the loaded generation and not being carried out |
| `AutomationRuns.PlannedOrRecorded` | backend/internal/application/ai_automation_service.go:338-369 | an awaiting run goes on to automatic approval exactly for an unattended task; every other answer is recorded as it came |
| `AutomationRuns.ApprovedOrFailed` | backend/internal/application/ai_automation_service.go:371-385 | the runner is asked exactly while the execution is registered and its task is of its generation, enabled and unattended; its reply becomes the run, and otherwise the run has failed |
| `AutomationRuns.RecordsTheRun` | backend/internal/application/ai_automation_service.go:387-428 | exactly while the execution is registered and its task is of its generation, the first record of the task has the id and status of the run, failed only without an id, marked automatic exactly for an executed run of an unattended task; last run and status agree, and fifty records stay |
| `AutomationRuns.EndsItsOwn` | backend/internal/application/ai_automation_service.go:519-526 | an execution ends cancelled and gives up its own registration |
| `AutomationRuns.ApprovableExactlyIf` | backend/internal/application/ai_automation_service.go:236-262 | a person may approve exactly the runs whose first record awaits approval in the present generation of an enabled task |
| `AutomationRuns.RecordedCanBeApproved` | backend/internal/application/ai_automation_service.go:236-418 | a run recorded as awaiting can be approved by hand |
| `AutomationRuns.StaysApprovable` | backend/internal/application/ai_automation_service.go:236-418 | it stays so under every step of any thread until the task is saved or deleted, the run is answered, or its record is pushed out |
| `AutomationRuns.PlannedThenApproved` | backend/internal/application/ai_automation_service.go:208-282 | from end to end: an enabled task is carried out, its run is its first record, the task is free again, and a hand approval puts the answer into the record |
| `AutomationRuns.PlannedThenExecuted` | backend/internal/application/ai_automation_service.go:208-418 | from end to end for an unattended task: the run is approved at once and the record has the reply |
| `AutomationService.Service.Create` | backend/internal/application/ai_automation_service.go:156-192 | a new task starts at generation one without runs |
| `AutomationService.Service.Update` | backend/internal/application/ai_automation_service.go:156-192 | a changed task keeps its runs, starts a new generation and cancels what is under way |
| `AutomationService.Service.Delete` | backend/internal/application/ai_automation_service.go:194-206 | a deleted task is gone and what is under way is cancelled |
| `AutomationService.Service.ApproveRun` | backend/internal/application/ai_automation_service.go:236-282 | approval by hand, on the store |
| `AutomationService.Service.Begin` | backend/internal/application/ai_automation_service.go:500-517 | registers an execution unless the task changed or runs already |
| `AutomationService.Service.ApproveUnattended` | backend/internal/application/ai_automation_service.go:371-385 | automatic approval, or refusal |
| `AutomationService.Service.RecordRun` | backend/internal/application/ai_automation_service.go:387-418 | writing the run into the history, or refusal |
| `AutomationService.Service.End` | backend/internal/application/ai_automation_service.go:519-526 | unregisters the own execution only |
| `Secrets.IdIsNotSensitive` | backend/internal/application/provider_secrets.go:101-117 | the key by which elements are recognised is never hidden |
| `Secrets.RedactedIsHidden` | backend/internal/application/provider_secrets.go:25-40 | redaction leaves no sensitive value but null and the placeholder, at any depth |
| `Secrets.RedactIsIdempotent` | backend/internal/application/provider_secrets.go:25-40 | redacting twice is redacting once |
| `Secrets.RedactHidesExactlySecrets` | backend/internal/application/provider_secrets.go:25-40 | two configurations look the same when redacted exactly if they differ in nothing but their secrets |
| `Secrets.EditsKeepSecrets` | backend/internal/application/provider_secrets.go:50-99 | dropping, reordering or repeating elements with ids, dropping fields, and changing or adding what holds no secret, all on the redacted view, keeps each secret with its element |
| `Secrets.RestoresIfBacked` | backend/internal/application/provider_secrets.go:50-99 | for any two configurations, restoring one, redacted, against the other gives it back exactly if the other stores each of its secrets where it is looked up |
| `Secrets.RestoreUndoesRedact` | backend/internal/application/provider_secrets.go:25-99 | restoring undoes redacting exactly if no stored secret is the placeholder and elements that share an id agree in their secrets |
| `Secrets.RestoredHasNoPlaceholder` | backend/internal/application/provider_secrets.go:50-82 | what is accepted back holds no placeholder where a secret belongs |
| `Secrets.MatchedByIdIfStored` | backend/internal/application/provider_secrets.go:84-99 | an element with an id is matched by it exactly if it is stored, else by its place |
| `SecretKeys.CaseIsIgnored` | backend/internal/application/provider_secrets.go:101-117 | letters may be large or small |
| `SecretKeys.PunctuationIsIgnored` | backend/internal/application/provider_secrets.go:101-117 | punctuation and spaces may be put in or left out |
| `SecretKeys.WideIsFolded` | backend/internal/application/provider_secrets.go:101-117 | beyond ASCII, letters and digits stand for their small form and all else is ignored |
| `SecretKeys.SensitiveWords` | backend/internal/application/provider_secrets.go:101-117 | a plain key is sensitive exactly if it is one of the eleven secret words or ends in one of the six secret endings |
| `SecretKeys.FieldsAreHidden` | backend/internal/application/provider_secrets.go:25-40 | redaction hides every field whose key ends in a secret ending, whatever comes before it |
| `SecretKeys.SecretFollowsItsElement` | backend/internal/application/provider_secrets.go:50-99 | a placeholder in an element with an id gets the secret of the first stored element with that id, wherever either stands |
| `SecretKeys.PlaceholderNeedsASecret` | backend/internal/application/provider_secrets.go:50-82 | without a stored secret a placeholder is refused |

## Left out

- MappingValidator.Validate: which fields a refusal names is not part of the contract, only whether there is one.
- Metrics, listener fan-out, logging and error texts: they do not feed back into the modelled state.
- Tickers, schedules, cron expressions, trigger conditions and cooldowns: they decide when a task is loaded, which the model leaves open.
- Floating point: numbers are reals, so rounding errors, overflow to infinity and the upper edge of the int64 check are not modelled; a division by nought is a refusal as not finite.
- The device hash is any function of the device id.
- Persistence, HTTP, providers, the write to the device, optimistic state and read-backs.
- `applyBindingPresentationStep`, enum alignment, `ResolveModelDefinition` and the conversion of definitions other than their bounds: functions the snapshot is parameterised with.
- Validation of bindings field by field and the catalogue of unified models: whether a binding or profile is acceptable is an argument. Stages other than provider and consumer, which validation refuses, do not occur.
- The grouping of a snapshot into endpoints and capabilities: it is a list of properties by path. The bindings are taken not to change while one snapshot is mapped; the code takes the lock once for each property.
- The superseding of a tracker command that `beginPropertyOperation` performs under its own lock: its effect on statuses is `CommandTracker.Tracker.Supersede`; in the step machine of shared writes it can only evict commands.
- `setPropertyOperationCommand` stores the command once more after adding the joins; only its id matters in the model, and that stays the same.
- Which retained command is evicted among equally old ones is open, as is the order in which maps are visited.
- `Secrets`: JSON trees are values here, so that redaction and restoration change maps in place, and that a restored tree shares parts with the stored one, is not captured; the path named in an error is left out, since it depends on the order in which a map is visited.
- Runs that the runner returns under another id when it approves them: the model takes the runner to keep the id.
- `Snapshots.MapSnapshot`: for sources that repeat a path it promises only that the paths of the result are distinct; whether the repetition is reported depends on the order of the projections.
- CommandCoordinator.Coordinator.ReturnToken: requires the invariant of the step machine, which `CommandGate.RunInvariant` proves of every run.
- Migration of stored profiles at start-up, export and listing.
