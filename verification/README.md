# A verified model of the hetuflow workflow engine

The project models hetuflow's durable workflow engine in Dafny and proves what its transactions keep over
whole runs. An instance is a row, a table of activities, a log of facts, timers and side-effect intents. Each
public call (`start`, `signal`, `resubmit`, `fire_timer`, the two delivery follow-ups and the dead-letter
report) updates the rows and appends facts in one transaction; the reducer is a separate machine that must
rebuild the rows from the log alone.

How the files fit together:

- `Core`, `Facts`, `Database` hold the vocabulary: the graph, the log, the rows and what each store operation
  does to them. `Store` is the same rows as a class with one method per guarded UPDATE, INSERT or SELECT.
- `Walk`, `Routing` are the resolver and the advance decisions; `Validation` is the publish gate as it runs;
  `Progress` is what acceptance guarantees about every later decision.
- `Engine` says what every call does to the rows, as functions; `Service` is the service class that does it
  step by step, each method proved against its function. A failing call is rolled back.
- `Decisions`, `Effects`, `FanOuts`, `JoinEffects`, `Moves`, `Contexts`, `SignalEffects`, `CallEffects` say what each
  decision and each call leaves, in terms of the definition's own fields, the guards and items as given, and the
  tables: which node a decision lands at, which rows, facts, timers and intents come of landing there, what the
  context holds. `Obligations` and `Callbacks` carry this over whole runs: what stands in the tables was asked for.
- `Replay` is the reducer. `Invariants`, `Preservation`, `Calls` carry the invariants through every building
  block and every call; `Runs` states the theorems about runs; `Drift` is the projection check.
- `Agreement`, `Rebuilding` say what the log tells of the rows and that every call keeps it so, for `Runs` and
  `Drift`. `Trails` follows a decision through the joins it satisfies, `LateSteps` uses it for calls that come
  while the instance waits for rework, `Circuits` and `Fuel` for calls that never end.
- `JoinRegion`, `RegionFence`, `RegionGraph`, `JoinOnce`, `JoinDrive` are about a fan-out and its join; `SingleToken`,
  `Regions` and `Departures` are further theorems about runs.
- `Registry` is the table of all instances, started by business key.
- `Lint`, `LintSoundness` are the static lint and its relation to runs.
- `Samples` holds small concrete definitions and the scenes their runs pass through; `JoinWitnesses`,
  `SplitWitnesses`, `ReworkWitnesses` and `LintWitnesses` use them where a property of the code fails.
- `Outbox`, `Dispatcher` are the outbox protocol among several workers and one worker's pass over the table;
  `Settling` says field by field what a poll and a settling do to a row; `Deliveries` counts what deliveries cost.
- `Calendar`, `CanonicalJson` with `CanonicalReads`, `Plugins` are three smaller cores: business dates, the canonical
  JSON text behind the definition hash, and the plugin build order.

A run is a committed start followed by any sequence of calls, each of which commits or is rolled back
(`Engine.RunAll`). Serial execution of the calls on one instance is an assumption: `signal` and `resubmit` take
a row lock, `fire_timer` and `on_notification_delivered` do not.

The expression language is a record of three uninterpreted functions of the expression text and the context
(does it compile, what does a guard say, what items does a path give), each of which may fail. Callers' scope
checks appear as a `visible` flag of the command; the clock, the outcome of a delivery and whether a settling
transaction commits are parameters.

## Where the code and its comments disagree

The model follows the code. Where a promise does not hold, a lemma says exactly when it does, and for most of them
another gives an accepted definition with a run that breaks it.

- The payloads are called a contract that lets the log rebuild the projection. A hand-back for rework appends a
  second record under the id of the activity it has just scheduled, which no later fact but a join's skip
  updates: `DriftExactly` says on rows and log when the check is clean, `CompletedReworkDrifts` that a completed
  rework is reported for ever; `ReworkDrifts` is a run that gets there.
- A join that goes on waiting clears the row's current activity without a fact, and work scheduled while an instance
  waits for rework is in the log but not the row's current activity: `ReplayInEveryRun` says of every run that these
  two, since the last fact about it, are when the current activities differ.
- A timeout or a delivered notification that reaches an instance waiting for rework does not resume it:
  `LateStepDrift` says from the state before the call exactly when log and row part over the status and over the
  current activity, `LateDeliveryDrifts` is a run in which they do.
- A start is called idempotent per business key as long as an instance is not terminal. An instance waiting for
  rework is not found: `DuplicatesExactly` says when a start makes a second one, `RestartDuplicates` is such a run,
  `DuplicateBlocks` that the first one cannot be decided while the second is live.
- A join is said to fire once its branches are in. Where nothing past or beside it leads back, which can be read off
  the graph (`SeparateByGraph`), `JoinFirings` says how often it fires: once under a strategy that skips the rest,
  else once for every arrival from the threshold on, and at most once more for a branch its deadline took there. So
  it fires at most once in every run if and only if the strategy skips or the fan-out is no larger than the join
  expects (`JoinDrive.JoinFiresOnce`). The gate lets a split name a branch twice, and then it can fire twice
  (`RepeatedBranchFiresTwice`); it lets an edge no branch uses lead into the join, and then, waiting for all, it
  never does (`SpareEdgeNeverFires`). Distinct branches are enough for at most once (`DistinctIsEven`). A node past
  the join that leads back is another way to a second firing (`JoinFiresTwice`).
- A rejection is described as failing fast; it completes the instance and leaves sibling branches active
  (`RejectionLeavesSiblings`).
- An empty ForEach is said to satisfy its join at once. It does so exactly if what has arrived in the round satisfies
  the strategy with nothing expected (`EmptyForEachExactly`), which where nothing has arrived is WaitAll, or NOfM of at
  most zero (`FirstEmptyForEach`); an instance of an accepted definition hangs for ever (`EmptyForEachHangs`).
- The gate accepts joins that lead round to themselves: `NeverEndsExactly` says when a signal, a deadline or a
  delivery never ends, `SelfJoinNeverEnds` is one; `CallsEnd` holds where no chain of joins comes back.
- Lint does not follow a ForEach and calls its template unreachable (`ForEachFalseAlarm`). `decide_start` enters at
  the first Approval node in list order, not at the successor of Start, so lint also calls a node unreachable that
  a run stands at (`EntryNotFromStart`); `LintSoundExactly` says that these are the only ways.
- Two workers left at the default worker id can overrun a record's attempt budget (`BudgetNeedsDistinctIds`).
- A delivery whose settling transaction does not commit is charged to nothing: a record is delivered any number of
  times and shows no attempt (`DeliveredWithoutBound`). It happens to a notification that reaches an instance waiting
  for rework and would complete it, since that is rolled back every time (`RefusedEveryTime`). `DeliveriesBalance`
  says exactly when every delivery costs an attempt.
- The instance is failed before the round limit is reported, but the error rolls that back.

## Model

| member | source | states |
|---|---|---|
| Runs.ReplayRefinement | crates/hetuflow-runtime/src/replay.rs:108-268 | In every run whose log shows no hand-back, over any accepted definition, folding the log gives exactly the activity rows and the instance's status and result, and the current activity too unless a join that goes on waiting has cleared the row; without joins always. |
| Runs.ReplayInEveryRun | crates/hetuflow-runtime/src/replay.rs:108-268 | In every run, late calls included, the first replayed record of each id is its activity row, the surplus is one record per hand-back in order, which nothing but a join's skip has touched, and the result agrees; the status agrees if and only if the instance does not wait for rework or nothing has been scheduled or failed since; the current activity if and only if, since the last fact about it, no join has gone on waiting and that fact did not schedule it while the instance waited. |
| Runs.ReplayWithRework | crates/hetuflow-service/src/service.rs:967-994 | In every run without a late timer or delivery, rework and resubmit included, the status always agrees and the current activity exactly unless a join that went on waiting has cleared it since the last fact about it, which needs a join in the definition. |
| SingleToken.DomainDrivenRebuilds | crates/hetuflow-runtime/src/lib.rs:763-790 | For domain-driven definitions the replay theorem holds of every run without exception, the current activity included. |
| Replay.FoldEvents | crates/hetuflow-runtime/src/replay.rs:108-268 | The one-pass reducer, mutating an instance and a record list in place, computes the left folds of the two per-fact functions over the log. |
| Replay.UpdatePrimary | crates/hetuflow-runtime/src/replay.rs:150-212 | Updating a record by id changes the first record of that id and no surplus record. |
| Drift.DiffProjection | crates/hetuflow-runtime/src/replay.rs:279-337 | The check reports exactly the instance fields, record fields and ids in which the replayed and the live projection differ. |
| Drift.VerifyProjection | crates/hetuflow-service/src/service.rs:625-646 | Consistent exactly when the replayed projection matches the rows in every field compared, which is exactly when no difference is listed. |
| Drift.DriftExactly | crates/hetuflow-service/src/service.rs:619-646 | After every run, late calls included, the check is clean if and only if nothing has stirred the instance since a hand-back it still waits for, no join has cleared the current activity since the last fact about it, that fact did not schedule it while the instance waited, and every handed-back row has no assignee, the role of its hand-back, is not completed, and is skipped exactly when the log skipped all active activities after the hand-back. |
| Drift.NoDriftWithoutReworkOrJoin | crates/hetuflow-service/src/service.rs:619-646 | Without hand-backs and joins the check never reports drift. |
| Drift.CompletedReworkDrifts | crates/hetuflow-runtime/src/replay.rs:213-232 | In every run: once a handed-back activity is completed the check reports drift, in this and every later state. |
| ReworkWitnesses.ReworkDrifts | crates/hetuflow-runtime/src/replay.rs:213-232 | An accepted definition has a start and a run of calls after which the check reports drift. |
| LateSteps.LateStepDrift | crates/hetuflow-service/src/service.rs:491-509 | A timeout or delivered notification that commits on an instance waiting for rework never changes its status. By where the decision, followed through the joins it satisfies as the rows stand before the call, stops: a status that agreed agrees after if and only if that is a join that still waits; a current activity that agreed agrees after if and only if that is a fan-out, an error, or such a join with the current activity none before or cleared on the way. |
| Trails.TrailIsExact | crates/hetuflow-service/src/service.rs:931-1179 | Where a move ends, and what it leaves as current activity on a waiting instance, is decided by the rows before it: it waits at a join, breaks off, recurses for ever or carries out an outcome exactly as the walk through the joins satisfied says. |
| ReworkWitnesses.LateDeliveryDrifts | crates/hetuflow-service/src/service.rs:521-573 | The status needs its condition: an accepted definition has a start and a run without late calls after which log and row agree, and a late delivery that commits and makes them part. |
| LateSteps.WaitingCannotEnd | crates/hetuflow-service/src/service.rs:1181-1184 | On an instance waiting for rework neither a completion nor a further hand-back can commit. |
| LateSteps.RefusedEveryTime | crates/hetuflow-service/src/worker.rs:155-187 | A late timeout or delivery whose decision, followed through its joins, would complete the waiting instance, breaks off or never ends is rolled back however often it is made. |
| Runs.BoundedRework | crates/hetuflow-service/src/service.rs:905-912 | In every reachable state of any definition every round lies between 1 and the effective limit, at most 20, and hand-backs plus resubmits number the highest round minus one. |
| Runs.TimerHygiene | crates/hetuflow-service/src/service.rs:788-820 | In every reachable state a pending timer belongs to an active activity, an activity has at most one timer of a kind, and each timer's fire is logged at most once and only for a fired timer. |
| Runs.SettledTimersStay | crates/hetuflow-sqlx/src/lib.rs:1384-1392 | A fired or cancelled timer is unchanged by every later call, and firing it again is a no-op. |
| Runs.LogIsNumberedAndKeyed | crates/hetuflow-service/src/service.rs:914-926 | In every reachable state the log is numbered 1..n without gaps and holds each idempotency key at most once. |
| Runs.ResentSignalIsNoOp | crates/hetuflow-service/src/service.rs:232-245 | Resending the key of a committed signal after any further calls is answered as a replay and changes nothing, whatever else the command carries. |
| Runs.ResentResubmitIsNoOp | crates/hetuflow-service/src/service.rs:353-370 | The same for a committed resubmit. |
| Runs.RunGood | crates/hetuflow-service/src/service.rs:914-926 | Every run only extends the log, keeps every table's invariants, never changes an activity's node or round, and never touches an activity that has ended. |
| SingleToken.SingleTokenInvariant | crates/hetuflow-service/src/service.rs:931-1005 | In every reachable state of a domain-driven definition a live instance has exactly one active activity and its current activity is that one; a finished instance has none. |
| SingleToken.SignalOnlyMovement | crates/hetuflow-runtime/src/lib.rs:763-790 | In every reachable state of a domain-driven definition a fired timer, a delivery or a dead letter changes neither status, result, current activity, the set of activities nor any activity's status. |
| JoinOnce.JoinFirings | crates/hetuflow-service/src/service.rs:1080-1179 | From an open region of any size that only its branches lead into and nothing leads back into, in every run of any calls: while fewer branches than the threshold have arrived the join has not fired; from then on, if the strategy skips the rest, exactly once, with exactly that count, and no branch is under way; else once for every arrival from the threshold on, and at most once more for every branch that its deadline took there. |
| JoinDrive.JoinFiresOnce | crates/hetuflow-service/src/service.rs:1080-1179 | The join of such a region, if it passes on to work, fires at most once in every run if and only if its strategy skips the rest or the region is no larger than the join expects. |
| JoinOnce.EvenFiresOnce | crates/hetuflow-service/src/service.rs:1105-1179 | Under that condition it has fired in every run exactly once from the threshold on, and not before. |
| JoinOnce.FiresIffReachable | crates/hetuflow-service/src/service.rs:1105-1179 | Once no branch is under way and none was lost on the way, the number of firings is fixed by the threshold, the strategy and the size of the region: exactly one if and only if the threshold is at most the size and, waiting for all, not less. |
| RegionGraph.SplitLeads | crates/hetuflow-runtime/src/lib.rs:512-586 | Every split of an accepted definition, whatever its branches and the other edges into its join, leads to the gate of that join, unless a ForEach has fanned out to the join in the round. |
| RegionGraph.DistinctIsEven | crates/hetuflow-runtime/src/lib.rs:512-586 | The condition on the definition: it holds if and only if the strategy skips the rest or the split names no more branches than the join has incoming edges, so whenever no branch is named twice; with one incoming edge per branch the join expects exactly the branches. |
| SplitWitnesses.RepeatedBranchFiresTwice | crates/hetuflow-service/src/service.rs:1105-1179 | An accepted definition whose split names a branch twice, nothing leading back, and a run in which the join is satisfied twice in the round. |
| SplitWitnesses.SpareEdgeNeverFires | crates/hetuflow-service/src/service.rs:1105-1179 | An accepted definition with an edge into the join that no branch uses, nothing leading back, and a run that brings in every branch; the join is satisfied neither then nor after any further calls. |
| RegionGraph.SeparateByGraph | crates/hetuflow-runtime/src/lib.rs:106-319 | That nothing leads back into the region is a property of the graph: it holds of every guard and item list if no edge within a round leads from past or beside the join to it or to a branch. |
| JoinOnce.FanOutFences | crates/hetuflow-service/src/service.rs:1007-1077 | Any fan-out entered for the first time in its round, as many branches as the join expects or not, opens such a region, if whatever else is under way in the round is away from it. |
| JoinWitnesses.JoinFiresTwice | crates/hetuflow-service/src/service.rs:1105-1179 | Without the condition on what leads back a join fires twice in a round: an accepted definition whose join has just its two branches as incoming edges and a run that logs it satisfied twice. |
| JoinWitnesses.FanSetApart | crates/hetuflow-runtime/src/lib.rs:659-737 | The condition is met by a ForEach over approvals whose join leads to an end. |
| JoinRegion.ArrivalCommits | crates/hetuflow-service/src/service.rs:232-345 | Below the threshold a well-formed completion signal of a branch, with a patch that holds its declared keys, always commits. |
| JoinRegion.FanOutOpens | crates/hetuflow-service/src/service.rs:1007-1077 | A split or non-empty ForEach entered for the first time in its round, whatever the number of its targets, leaves the join waiting with one fresh active branch per target and no arrival. |
| JoinRegion.SatisfiedAtThreshold | crates/hetuflow-core/src/lib.rs:314-322 | A strategy is satisfied exactly from its threshold on: all, one, or n arrivals. |
| Departures.RejectionLeavesSiblings | crates/hetuflow-service/src/service.rs:1181-1186 | A committed rejection, on an active instance or one waiting for rework, completes it as rejected, touches no other activity, and leaves no active activity if and only if the rejected one was the only one. |
| Departures.EmptyForEachExactly | crates/hetuflow-service/src/service.rs:1069-1077 | An empty ForEach goes past its join exactly if the arrivals of its template in the round satisfy the strategy with nothing expected; otherwise the instance is left with no new activity and no current one. |
| Departures.FirstEmptyForEach | crates/hetuflow-service/src/service.rs:1069-1077 | Before any arrival in the round it goes past exactly under WaitAll or NOfM of at most 0. |
| LintWitnesses.EmptyForEachHangs | crates/hetuflow-service/src/service.rs:1069-1077 | An accepted definition has a start and a run of calls after which, its ForEach having no items, the instance is unfinished without an active activity and no sequence of calls moves it. |
| Departures.HungForever | crates/hetuflow-service/src/service.rs:659-686 | An unfinished instance without an active activity is never moved again by any sequence of calls. |
| Departures.TargetExactly | crates/hetuflow-service/src/service.rs:659-686 | A signal is for the activity it names if that is active, else for the only active one; it is refused as not found, as ended, as nobody's or as ambiguous in exactly these cases. |
| Regions.RegionHolds | crates/hetuflow-service/src/service.rs:931-1005 | A set of nodes that holds the entry and that no decision leaves holds the node of every activity of every run. |
| Fuel.FuelIsIrrelevant | crates/hetuflow-service/src/service.rs:1105-1179 | A call whose join recursion ends within some fuel gives the same result with any more. |
| Fuel.CallsEnd | crates/hetuflow-service/src/service.rs:1105-1179 | Where no chain of joins, each advancing straight to the next or to a ForEach of no items in front of it, comes back to a join of its own, every call ends, with no more recursion than there are joins. |
| Fuel.NeverEndsExactly | crates/hetuflow-service/src/service.rs:1170-1178 | In an accepted definition a signal, a deadline or a delivery exhausts every bound if and only if the joins it satisfies, read off the rows once its activity is settled, come round to one passed before; a bound of twice the number of joins tells. |
| JoinWitnesses.SelfJoinNeverEnds | crates/hetuflow-service/src/service.rs:1133-1178 | Such a call exists: an accepted definition, a committed run, and a signal that exhausts every bound. |
| Routing.ResolverExact | crates/hetuflow-runtime/src/lib.rs:175-319 | The resolver lands where the guard-chosen walk through Condition and Merge nodes stops if it stops within 8 hops, recording exactly the Merge nodes of that walk; otherwise it errs. `Decisions.ResolvesAlong` says which walk that is by the guards alone. |
| Walk.VisitedSetIsRedundant | crates/hetuflow-runtime/src/lib.rs:175-198 | Dropping the visited set changes where a chase lands for no target and no depth bound. |
| Walk.ChaseExact | crates/hetuflow-runtime/src/lib.rs:175-319 | A chase with a visited set and a budget lands exactly where the unbounded walk stops, if it stops within the budget. |
| Routing.DecideStart | crates/hetuflow-runtime/src/lib.rs:84-89 | The entry is the first Approval node in list order, and there is none exactly when the list has no Approval node. |
| Decisions.PickBranchExactly | crates/hetuflow-runtime/src/lib.rs:303-317 | A Condition takes the first branch whose guard is true, the default if all guards are false, and none if the first guard that is not false fails. |
| Decisions.NextHopExactly | crates/hetuflow-runtime/src/lib.rs:213-319 | The walk goes from one node to another exactly if the first is a Merge whose first APPROVED edge leads there, or a Condition that leads there by its guards. |
| Decisions.ResolvesAlong | crates/hetuflow-runtime/src/lib.rs:175-319 | By guards and edges alone: a resolved target is the end of the path of at most 8 hops that leads from it to a node that does not route, and the trace is the Merge nodes on that path and the ForEach at its end; without such a path it is an error. |
| Decisions.DecisionErrs | crates/hetuflow-runtime/src/lib.rs:133-141 | Approved, completed or received, a decision errs where no edge can be followed or no path from the first one ends in time. |
| Decisions.RefusalsAlong | crates/hetuflow-runtime/src/lib.rs:115-131 | A rejection completes as rejected anywhere; a hand-back completes as returned without a RETURNED edge, and along one hands back to the node the path ends at, for the role an approval there declares, if the token can be advanced to it, and else errs. |
| Moves.MovesAlong | crates/hetuflow-runtime/src/lib.rs:133-141 | Approved, completed or received, the token follows the first edge on that signal and the path the guards choose under the instance's context; the log names the Merge nodes passed, in order, and the outcome is the landing at the end. |
| Moves.DeadlineMovesAlong | crates/hetuflow-runtime/src/lib.rs:152-171 | A deadline does the same from the target its node declares. |
| Moves.ReturnsAlong | crates/hetuflow-service/src/service.rs:967-994 | A hand-back logs the Merge nodes passed and hands back to the activity its path ends at, for the role declared there. |
| Moves.HandBackActs | crates/hetuflow-service/src/service.rs:967-994 | It goes through if and only if the instance is active, a round is left and the target is no SubWorkflow; then there is one fresh activity of the target in the round after the highest, with its fact, timers and delivery, the instance waits for it, and the log says from where to where. |
| Moves.LimitExactly | crates/hetuflow-service/src/service.rs:905-912 | The rounds allowed are those of at most 20, at most what is configured if that is at least one, and at most what the definition declares if it declares any. |
| Effects.OpensExactly | crates/hetuflow-service/src/service.rs:745-826 | Scheduling refuses a SubWorkflow only; else there is one active row of the node's kind and role with nothing on it, its fact, a pending reminder exactly for a positive SLA, an escalation exactly for a positive delay with a role, a timeout exactly for a positive deadline, and a delivery exactly for a Notification. |
| Effects.ActivityLands | crates/hetuflow-service/src/service.rs:936-966 | Landing at an approval, notification, event wait or assignment opens one activity there, which becomes the current one of an active instance, and changes nothing else. |
| Effects.EndLands | crates/hetuflow-service/src/service.rs:1181-1237 | Landing at an End completes an active instance as rejected, returned or approved by its result code; an approval owes the callback of the start, anchored to the last active activity, or else the last one. |
| Effects.NothingLands | crates/hetuflow-service/src/service.rs:1253-1280 | Landing at no node, a Start or a kind that is not executed fails the instance, says so, and changes nothing else. |
| Effects.SubWorkflowRefused | crates/hetuflow-service/src/service.rs:745-756 | Landing at a SubWorkflow is refused. |
| FanOuts.SplitLands | crates/hetuflow-service/src/service.rs:1007-1067 | A split leaves its fact naming its branches, then branch by branch in the order of the definition one activity of that node for its own role, in the log and the table alike, with its timers and deliveries; a split with a branch that cannot be one fails the instance. |
| FanOuts.ForEachLands | crates/hetuflow-runtime/src/lib.rs:253-299 | A ForEach over items leaves its fact with their number, then item by item in order one activity of the template for its role, whose fact holds that item and its position; there are exactly as many as items. |
| FanOuts.ForEachFails | crates/hetuflow-runtime/src/lib.rs:264-284 | Items that cannot be evaluated or exceed a positive cap, or a template that is missing or cannot be repeated, fail the instance. |
| JoinEffects.ExpectationExactly | crates/hetuflow-service/src/service.rs:1105-1131 | A join expects the items of the latest fan-out towards it in the round, counted by the template of the first ForEach that feeds it, and otherwise one arrival for each completing edge into it, counted by their sources. |
| JoinEffects.JoinLands | crates/hetuflow-service/src/service.rs:1080-1179 | A branch at a join: the log says it got there; with too few completed, not rejected rows of the round the instance waits without a current activity; with enough, the log says how many of how many, under WaitAny and NOfM every other activity under way is skipped with its timers, and the outcome is the decision for an approval of the join. |
| Validation.ValidateDefinition | crates/hetuflow-runtime/src/lib.rs:330-761 | The gate's loops accept a definition exactly when it meets the declarative conditions on ids, edges and every node kind. |
| Validation.ValidateDomainDriven | crates/hetuflow-runtime/src/lib.rs:776-790 | Accepts exactly the definitions made of start, approval, condition, end and merge nodes. |
| Validation.CheckNode | crates/hetuflow-runtime/src/lib.rs:364-757 | The per-node branch of the gate accepts exactly the valid nodes. |
| Validation.CheckSplit | crates/hetuflow-runtime/src/lib.rs:512-586 | Accepts exactly splits of at least two branches, each of a branch kind, writing no context, completing straight into one and the same join. |
| Validation.CheckMerge | crates/hetuflow-runtime/src/lib.rs:624-658 | Accepts exactly merges with one APPROVED edge, not into a split, and with no split branch approved straight into them. |
| Validation.MergeExactly | crates/hetuflow-runtime/src/lib.rs:624-658 | That is: exactly one transition leaves it on APPROVED, its target is no split, and no transition takes a branch of any split to it on APPROVED. |
| Validation.StartsExactly | crates/hetuflow-runtime/src/lib.rs:339-343 | The starts counted are one exactly if one position of the list holds a start and no other does. |
| Validation.CheckApproval | crates/hetuflow-runtime/src/lib.rs:405-446 | Accepts exactly approvals with a role and an APPROVED edge whose escalation has both a positive delay and a role or neither, the delay above the SLA if there is one. |
| Validation.CheckJoin | crates/hetuflow-runtime/src/lib.rs:587-623 | Accepts exactly joins with an APPROVED edge, two incoming edges or a ForEach that feeds it, and under NOfM a threshold of at least one that, without a ForEach, the edges can reach. |
| Validation.CheckForEach | crates/hetuflow-runtime/src/lib.rs:659-717 | Accepts exactly those with a path that compiles, a template of a kind that can be repeated and writes no context, and a join the template completes into. |
| Validation.CheckEventWait | crates/hetuflow-runtime/src/lib.rs:487-511 | Accepts exactly those that name their event and can be left, by the event or by a deadline whose target exists. |
| Validation.CheckWrites | crates/hetuflow-runtime/src/lib.rs:350-373 | Only activity nodes write the context, and their keys are not blank and named once. |
| Progress.AcceptanceImpliesProgress | crates/hetuflow-runtime/src/lib.rs:106-144 | In an accepted definition a decision on the completion signal errs if and only if guards or items fail, the fan-out cap is exceeded, the walk cycles or is longer than 8 hops, it ends at Start, or an EventWait has only a timeout target. |
| Progress.AcceptedTimeoutProgress | crates/hetuflow-runtime/src/lib.rs:152-171 | The same for a deadline, which errs exactly when no target is declared or the walk to it fails. |
| Progress.SplitConverges | crates/hetuflow-runtime/src/lib.rs:512-586 | In an accepted definition a split resolves to one target per branch with the branch's type, and every branch advances on its completion signal to one and the same join. |
| Progress.ForEachConverges | crates/hetuflow-runtime/src/lib.rs:659-737 | For a ForEach the gate promises less: exactly when a completed item advances to the declared join. |
| LintSoundness.ActivitiesAreReachable | crates/hetuflow-runtime/src/lib.rs:838-860 | In every run an activity only appears at nodes that static edges, and the template and join of a ForEach, lead to from the entry; static edges alone if they lead to the template and the join of every ForEach so reached. |
| LintSoundness.DecisionReached | crates/hetuflow-runtime/src/lib.rs:106-144 | Every target a decision names is led to by static edges and ForEach nodes from wherever the node it was taken at is. |
| LintSoundness.LintSoundExactly | crates/hetuflow-runtime/src/lib.rs:871-966 | If no run ever stands at a node lint reports as unreachable from Start, the entry is reachable from Start; where static edges also lead to the template and join of every ForEach reached, the converse holds. |
| Lint.LintDefinition | crates/hetuflow-runtime/src/lib.rs:871-966 | A finding is reported exactly when the graph justifies it: a dangling end, no path from the only start, no way out, or no path from a branch to a join. |
| Lint.Reachable | crates/hetuflow-runtime/src/lib.rs:893-911 | The worklist ends and visits exactly the nodes some path of static edges leads to. |
| Lint.BranchReachesJoin | crates/hetuflow-runtime/src/lib.rs:969-989 | True exactly when some path of static edges leads to a join. |
| LintWitnesses.ForEachFalseAlarm | crates/hetuflow-runtime/src/lib.rs:838-860 | A family of accepted definitions in which the token fans out to a node that lint reports as unreachable. |
| LintWitnesses.EntryNotFromStart | crates/hetuflow-runtime/src/lib.rs:84-89 | An accepted definition is entered at a node its Start does not lead to, and lint reports the node the first activity stands at. |
| Service.WorkflowService.Start | crates/hetuflow-service/src/service.rs:120-148 | Refuses exactly what the gate, the entry rule or the handler registry refuses; for anything else the rows and log of a fresh instance are ready, which `Registry.InstanceTable.Start` keeps or drops by business key. |
| Registry.InstanceTable.Start | crates/hetuflow-service/src/service.rs:118-178 | A start by business key keeps the fresh rows exactly if no pending or active instance of the key is there, else answers with that instance and changes nothing. |
| Registry.TableSound | crates/hetuflow-sqlx/src/lib.rs:590-624 | However starts and calls on any instances are interleaved, every instance is a run of its own and no business key has two live instances. |
| Registry.RestartFindsIt | crates/hetuflow-service/src/service.rs:118-178 | While the instance of a committed start is live, a further accepted start of its key after any starts and calls finds it and changes nothing. |
| Registry.DuplicatesExactly | crates/hetuflow-sqlx/src/lib.rs:626-643 | An accepted start makes a second unfinished instance of its key if and only if one waits for rework and none is live. |
| Registry.DuplicateBlocks | crates/hetuflow-sqlx/src/lib.rs:606-609 | While such a second instance is live no decision and no resubmit on the first one commits. |
| ReworkWitnesses.RestartDuplicates | crates/hetuflow-service/src/service.rs:162-178 | It happens: an accepted definition, a start and a run of its instance, and the same start again creates a second unfinished instance of the key. |
| Service.WorkflowService.Signal | crates/hetuflow-service/src/service.rs:232-345 | The step-by-step signal does to the rows and answers exactly what the specification says, every error case included. |
| SignalEffects.SignalAnswers | crates/hetuflow-service/src/service.rs:232-275 | What a signal is answered before it acts: a blank key, an instance out of sight, a key the log knows (a replay), an instance that has ended, no activity it could be for, a node of a kind it is not meant for, in this order. |
| SignalEffects.SignalActs | crates/hetuflow-service/src/service.rs:275-345 | A committed signal that is neither a replay nor a claim completes its activity with the signal's result, actor and notes, cancels just its timers, logs the keys written, the signal under its key, the completion and a resumption, and carries out the decision for this signal taken under just the new context: each declared key holds the patch's value, every other key what it held, if anything. |
| SignalEffects.ClaimActs | crates/hetuflow-service/src/service.rs:276-300 | A committed claim sets the assignee, logs it under its key, and does nothing else. |
| Contexts.WritesExactly | crates/hetuflow-sqlx/src/lib.rs:806-830 | Writing goes through exactly if the patch holds every declared key; then those hold the patch's values, and every other key has its old value or is still absent. |
| CallEffects.ContextStays | crates/hetuflow-service/src/service.rs:689-719 | No call but a signal that ends an activity changes the context. |
| CallEffects.StartActs | crates/hetuflow-service/src/service.rs:120-224 | A start goes through exactly if the gate accepts, there is an approval to enter at and the callback is registered; it leaves an active instance with the command's context and callback and one fresh activity of the first approval, its fact and its timers. |
| Service.WorkflowService.Resubmit | crates/hetuflow-service/src/service.rs:353-411 | The same for a whole-workflow resubmit. |
| CallEffects.ResubmitAnswers | crates/hetuflow-service/src/service.rs:353-370 | A blank key, an instance out of sight and a known key are answered first, in this order. |
| CallEffects.ResubmitActs | crates/hetuflow-service/src/service.rs:371-411 | A fresh key is refused unless the instance is completed as returned and a round is left; else the instance is active without a result at one fresh activity of its entry, for the entry's role, in the round after the highest, with both facts. |
| Service.WorkflowService.FireTimer | crates/hetuflow-service/src/service.rs:418-513 | The same for one due timer of any kind, a lost race included. |
| CallEffects.ReminderActs | crates/hetuflow-service/src/service.rs:457-468 | A due reminder of an activity under way leaves its fact and the intent of a reminder, and nothing else. |
| CallEffects.EscalationActs | crates/hetuflow-service/src/service.rs:469-494 | A due escalation leaves its fact; where the node declares a delay and a role, the row is for that role, the log says from which role to which, and the intent is that of an escalation, and nothing else changes. |
| CallEffects.DeadlineActs | crates/hetuflow-service/src/service.rs:495-509 | A due deadline skips its activity, cancels just its pending timers, logs both, and carries out the decision for the target the node declares. |
| CallEffects.OverdueActs | crates/hetuflow-service/src/service.rs:418-440 | A timer fired or cancelled before changes nothing, one whose activity or instance has ended is only marked. |
| Service.WorkflowService.OnNotificationDelivered | crates/hetuflow-service/src/service.rs:521-573 | The same for a delivered notification. |
| CallEffects.DeliveryActs | crates/hetuflow-service/src/service.rs:521-573 | A delivered notification is completed by the system without a result, its timers are cancelled, that is logged, and the outcome is the decision for its completion. |
| CallEffects.DeadLetterActs | crates/hetuflow-service/src/service.rs:583-615 | A dead letter leaves the fact of a failure of its kind, and nothing else. |
| Callbacks.CallbackOwedOnce | crates/hetuflow-service/src/service.rs:1181-1250 | In every run the callback an instance was started with is in the outbox exactly once if the instance is completed as approved, and otherwise no callback is. |
| Callbacks.ExecutedOnceDelivered | crates/hetuflow-service/src/service.rs:576-579 | In every run the side effects count as executed if and only if a callback has been delivered. |
| Obligations.ApprovalsHaveRoles | crates/hetuflow-runtime/src/lib.rs:405-446 | In every run of an accepted definition an approval's activity is for a role, not blank: the node's own or the one it escalates to; no other activity has one. |
| Obligations.EscalationAfterReminder | crates/hetuflow-runtime/src/lib.rs:420-444 | In every run an activity with a reminder and an escalation is at a node whose escalation delay is above its SLA and whose escalation names a role. |
| Obligations.IntentsAreAskedFor | crates/hetuflow-service/src/service.rs:745-826 | In every run a delivery owed is for a notification with a template and a recipient, a reminder for an approval with an SLA, an escalation for one with an escalation role. |
| Service.WorkflowService.Execute | crates/hetuflow-service/src/ports.rs:13-30 | A call is a transaction: on an error every row is as before, on success the rows are the specification's, and the invariants hold again. |
| Service.WorkflowService.ApplyOutcome | crates/hetuflow-service/src/service.rs:931-1005 | Merge facts first, then exactly the effect of the outcome, through the recursion of joins. |
| Service.WorkflowService.FanOut | crates/hetuflow-service/src/service.rs:1007-1077 | Clears the current activity, logs the fan-out, schedules one activity per target, and tries the join of an empty ForEach. |
| Service.WorkflowService.TrySatisfyJoin | crates/hetuflow-service/src/service.rs:1105-1179 | Expectation, count, strategy, skip of the others and the move past the join, as specified. |
| Preservation.HandBackShape | crates/hetuflow-service/src/service.rs:967-994 | A hand-back commits if and only if a round is left, its target exists and can be scheduled, and the instance is active; then there is one activity in the next round, the waiting status pointing to it, and its fact. |
| Preservation.CompleteExactly | crates/hetuflow-service/src/service.rs:1181-1237 | A completion commits if and only if the instance is active and, on an approval with a terminal callback, there is an activity to anchor it to and its handler is registered; it logs exactly that and owes the callback exactly then. |
| Preservation.ScheduleExactly | crates/hetuflow-service/src/service.rs:745-826 | Only a SubWorkflow is refused; otherwise there is one fresh active row and its fact, pending timers of exactly the kinds the node declares, and a delivery intent exactly for a Notification. |
| Service.WorkflowService.FilterPatch | crates/hetuflow-service/src/service.rs:689-719 | Exactly the declared keys with the patch's values, or a validation error if one is missing. |
| Service.WorkflowService.CheckRound | crates/hetuflow-service/src/service.rs:905-912 | Refuses exactly rounds above the smaller of the declared and the framework limit. |
| Store.WorkflowStore.SkipOthers | crates/hetuflow-sqlx/src/lib.rs:1001-1029 | Skips every other active activity and cancels exactly their pending timers. |
| Store.WorkflowStore.CountArrived | crates/hetuflow-sqlx/src/lib.rs:883-911 | The number of completed, non-rejected rows of the branches in the round. |
| Store.WorkflowStore.MaxRound | crates/hetuflow-sqlx/src/lib.rs:1031-1042 | The highest round, 0 for an empty table. |
| Store.WorkflowStore.Append | crates/hetuflow-sqlx/src/lib.rs:1044-1056 | Appends with the sequence number one above the highest. |
| Outbox.FollowUpAtMostOnce | crates/hetuflow-service/src/worker.rs:155-187 | Whatever the workers, ids, crashes and lease thefts: a record's follow-up has run exactly once if it succeeded and never otherwise, after a successful delivery; a dead letter is reported exactly once; attempts count the failures settled. |
| Outbox.SettledForGood | crates/hetuflow-sqlx/src/lib.rs:1212-1271 | Succeeded and dead-letter rows are never touched again by any steps. |
| Outbox.AttemptsWithinBudget | crates/hetuflow-service/src/worker.rs:189-212 | Sequential workers with distinct ids keep every row within its attempt budget, and a row that spent it is a dead letter. |
| Outbox.BudgetNeedsDistinctIds | crates/hetuflow-service/src/worker.rs:49-60 | The budget is kept in every run if and only if no two workers share an id. |
| Deliveries.DeliveriesBalance | crates/hetuflow-service/src/worker.rs:98-124 | In every run each delivery of a record is an attempt of its row, the one that succeeded, waiting to be settled, or given up: its transaction did not commit, the lease was lost, or the worker died. So every delivery costs an attempt, but for the one that succeeded, if and only if none waits and none was given up. |
| Deliveries.DeliveriesWithinBudget | crates/hetuflow-service/src/worker.rs:189-212 | With distinct ids the deliveries of a record that are neither waiting nor given up stay within its budget. |
| Deliveries.DeliveredWithoutBound | crates/hetuflow-service/src/worker.rs:155-187 | One worker that never crashes delivers a record any number of times, if its settling transaction goes on failing, and the row shows no attempt. |
| Outbox.DueAgain | crates/hetuflow-sqlx/src/lib.rs:1178-1210 | In every reachable state an unsettled row is due at every time past one lease and the longest backoff from now, if nobody touches it. |
| Outbox.RescueWorks | crates/hetuflow-service/src/worker.rs:98-124 | A due row can always still be brought to success by one restarted worker. |
| Outbox.BackoffDoubles | crates/hetuflow-core/src/lib.rs:1086-1094 | For a sensible policy the delay starts at the base, doubles up to the ceiling, stops doubling after twenty attempts, and neither the saturation nor the 32-bit cast shows. |
| Settling.PollLeases | crates/hetuflow-sqlx/src/lib.rs:1178-1210 | A poll leases just the rows it picks, to this worker and for one lease from now, and the worker holds them with the counters they showed. |
| Settling.DeliveredSettles | crates/hetuflow-service/src/worker.rs:155-187 | A delivered record whose lease is still the worker's succeeds, with one follow-up more; no other row changes. |
| Settling.FailureSettles | crates/hetuflow-service/src/worker.rs:189-212 | A failure under the owner's lease makes a dead letter, reported once, exactly if it is deterministic or the attempts shown when it was polled plus one reach the maximum; else the row is pending without a lease, due the base doubled per attempt later, up to the ceiling. Either costs one attempt; no other row changes. |
| Settling.LostSettles | crates/hetuflow-service/src/worker.rs:155-212 | Settling that does not commit or has lost its lease changes no row. |
| Settling.EnqueuedFresh | crates/hetuflow-sqlx/src/lib.rs:1149-1176 | A new record is pending and due at once, without attempts or a lease; no other row changes. |
| Settling.WorkersGoOn | crates/hetuflow-service/src/worker.rs:98-124 | A worker takes up the next record of its batch once one is settled, gives the batch up if settling does not commit or it crashes, and no step concerns another worker. |
| Settling.RestsUntil | crates/hetuflow-sqlx/src/lib.rs:1178-1210 | A row that is not due, or under a lease that has not run out at the end of a run, is as it was after that run, whatever the workers did, unless its holder settled. |
| Settling.TakenOnceDue | crates/hetuflow-sqlx/src/lib.rs:1178-1196 | An idle worker may take an unsettled row exactly if it is due and rests no longer. |
| Dispatcher.OutboxTable.PollDue | crates/hetuflow-sqlx/src/lib.rs:1178-1210 | Leases only due rows that no other poll has locked, the earliest first, up to the limit, and leaves none of them out while there is room. |
| Dispatcher.OutboxTable.NextDue | crates/hetuflow-sqlx/src/lib.rs:1190-1196 | A due row, neither locked nor yet picked, with the least next attempt, if there is one. |
| Dispatcher.OutboxTable.MarkRetry | crates/hetuflow-sqlx/src/lib.rs:1227-1250 | Changes the row exactly under its owner's lease: pending, one more attempt, no lease, next attempt after the backoff. |
| Dispatcher.OutboxDispatcher.RunOnce | crates/hetuflow-service/src/worker.rs:98-124 | One pass is a run of the protocol's steps by that worker alone and stops at the first settling transaction that fails. |
| Calendar.DateOfTimestamp | crates/fusion-weixin/src/werun.rs:107-123 | Every timestamp has a valid Gregorian date with the usual inverse; timestamps share a date exactly within one local day; the next day maps to the calendar successor. |
| Calendar.CivilIsValid | crates/fusion-weixin/src/werun.rs:112-121 | The date computed for any day number is valid and days-from-civil leads back to the day. |
| Calendar.CivilIsInverse | crates/fusion-weixin/src/werun.rs:112-121 | Every valid date is the date of its day number. |
| Calendar.Epoch | crates/fusion-weixin/src/werun.rs:110-112 | Day 0 is 1970-01-01. |
| Calendar.SameTextSameDay | crates/fusion-weixin/src/werun.rs:122-122 | Two timestamps render to the same text exactly when they lie in the same local day. |
| Calendar.TextReadsBack | crates/fusion-weixin/src/werun.rs:122-122 | The text of every day reads back as its date: the year, below zero after a sign, then two digits of the month and two of the day, between hyphens; it has ten characters for the years 0 to 9999. |
| CanonicalJson.CanonicalExact | crates/hetuflow-core/src/lib.rs:1067-1084 | Two values have the same canonical text if and only if they are equal up to the order of object keys. |
| CanonicalJson.QuoteUnique | crates/hetuflow-core/src/lib.rs:1067-1084 | A quoted string determines the string and where it ends. |
| CanonicalJson.SortKeeps | crates/hetuflow-core/src/lib.rs:1069-1071 | Sorting keeps the members and, for distinct keys, orders them strictly. |
| CanonicalReads.StringsReadBack | crates/hetuflow-core/src/lib.rs:1067-1084 | A quoted string read as JSON reads strings, escape by escape, is the string itself (section 7 of RFC 8259). |
| CanonicalReads.LessExactly | crates/hetuflow-core/src/lib.rs:1069-1071 | A key comes before another exactly if it is the beginning of it, or lower at their first difference. |
| CanonicalReads.CanonicalSample | crates/hetuflow-core/src/lib.rs:1067-1084 | An object of two members, one of them an array, rendered in full. |
| Plugins.ApplicationBuilder.BuildPlugins | crates/fusion-core/src/application.rs:526-556 | Whatever order the registry hands plugins out in: it succeeds exactly when some order respects the dependencies, equivalently when none is missing and none circular, and then every plugin was built exactly once after its dependencies. |
| Plugins.OrderableExactly | crates/fusion-core/src/application.rs:546-548 | A build order exists if and only if no dependency is missing and there is no dependency cycle. |
| Plugins.RoundsExact | crates/fusion-core/src/application.rs:531-551 | The rounds find an order exactly when there is one. |
| Plugins.ApplicationBuilder.AddPlugin | crates/fusion-core/src/application.rs:376-389 | Refuses exactly a name already registered; an immediate plugin is built and not registered. |

## Left out

- Registry.TableSound: the unique index is taken from the conflict clause of the insert, since the schema is not part of the repository; tenancy and scope filters are left out.
- SQL text, async, row locks and concurrent transactions on one instance: calls are serial and atomic.
- Activity ids are positions in the activity table, instance context is an object, and actor and assignee ids are integers.
- Payload contents of notifications and callbacks, template codes, idempotency keys of callbacks and error messages.
- Timestamps, `side_effects_executed` in the comparison, and timer due times: a timer may fire at any step.
- The branch of `fire_timer` for an unknown timer kind, and payload decoding errors of the log.
- Ties in `created_at`: the anchor of a terminal callback is the last active activity in table order, else the last activity.
- CEL parsing and evaluation, and JSON parsing: a guard, an item path and a compile check are given functions.
- SubWorkflow execution, which the source refuses when it would be scheduled.
- Engine.TrySatisfyJoin: the recursion through joins carries a fuel bound, and running out of it is the error `Diverges`, which the source does not have; by `FuelIsIrrelevant` more of it never changes a result, and `NeverEndsExactly` says when none is enough.
- JoinOnce.JoinFirings: regions that something past or beside the join leads back into, where `JoinFiresTwice` shows two firings. A second entry of the region in the same round is one of these, since the source counts its arrivals together with the first's, and so is a ForEach that shares its join or whose items complete elsewhere.
- JoinDrive.JoinFiresOnce: a join that passes on to something other than an activity, an end for instance; that it then fires no more often is `JoinFirings`.
- LintSoundness.LintSoundExactly: the converse for definitions with a ForEach whose template or join no static path reaches; there lint is wrong about the template as soon as a run reaches the ForEach (`ForEachFalseAlarm`).
- Lint.LintDefinition: the order and repetition of findings and their messages.
- The timer poller's pass, which fires each due timer in its own transaction and goes on after an error.
- What a plugin's build does to the builder, such as registering further plugins, which the source overwrites afterwards.
- Calendar.DateOfTimestamp: timestamps within eight hours of the largest 64-bit value, whose offset overflows in the source.
- CanonicalJson.CanonicalExact: the rendering of numbers is given as text made of number characters; SHA-256 over the canonical text is not modelled.
- WeChat decryption, HTTP, mail, RPC authentication, passwords, the other crates of the repository.
