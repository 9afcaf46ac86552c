# Verified model of the stack, watcher, cleanup and benchmark algorithms

A Dafny model of the parts of the repository where a wrong step would lose work or report a wrong
number, and proofs of what those parts promise. Git, Watchman, the file system, the clock and the
benchmark runs are not modelled themselves: each enters as a value or a function whose assumed
behaviour is written down as a predicate (`Replay.Honest`, `GtChain.Sound`, `Prune.OneRowEach`).

Run `dafny verify dfyconfig.toml` to check everything.

## What is modelled

**Restacking a stack** (`Forest`, `CommitGraph`, `Upstack`, `RestackPlan`, `Replay`, `ReplayChain`,
`RestackTheorem`, `Restack`, `RestackReread`, `RestackAgain`, `RestackSkip`, `RestackRace`). Branches are a
map to recorded parents; commits are a finite acyclic graph that replays only extend. A restack lists an
upstack, plans which branches move, adds holds, replays each mover onto its parent's new head, publishes every
ref in one transaction, and rewrites the recorded parents and revisions. `PassSettles` says what each mover's
new head descends from, `TurnIs` exactly when and why one mover's turn is refused.
The refs and rows the plan was read from, and those the publish runs over, are separate throughout:
`MovedLandsWhereRecorded` says exactly when refs, parent and revision agree at the end,
`RestackTwiceIsRestackOnce` exactly when a second restack has nothing to do, and `SkipBlocksTheNext` what it
does after a skip.

**Chains of untracked branches** (`GtLine`, `GtChain`, `GtChainTheorem`, `GtAdopt`, `GtAdoptTheorem`).
The lookup between a branch and its base, the partition of the commits in between among its links, and
the adoption of the links one by one into gt's two-sided table of parents and children.

**Pruning** (`Prune`, `PruneForest`). Rehoming rows whose parent is forgotten, and what that does to
ancestry and cycles.

**Protocols with other actors.** `FetchShare` interleaves any number of callers of a shared fetch, any
of which may die at any step. `WatchWorld`, `WatchClients` and `Retire` give a watcher retirement a
world that may answer each request differently: every observation is asked of the world at its own
moment, the log of deletes is judged against those answers, and every refusal is traced to one of them.
`Journal` lets the writer of the cleanup journal die after any disk operation; `JournalHistory` strings such
operations together, with losses of power in between that can take back the name index's unsynced entries.
`Admission` interleaves benchmark workers that reserve money against a ceiling.

**Algorithms with a simpler specification.** `Levenshtein` refines edit distance. `GtRun` and `GtQuiet`
(over `Text` and `GtLines`) relate gt's streaming and buffered output filters to a declarative account
of which lines belong to a reminder or a tip. `Picks` says what it is to pick entries in order. `GlobMatch`
refines ordered glob selection. `AnchorHash`, `AnchorSyntax` and `AnchorResolve` cover content anchors: encoding, grammar, resolution, rewriting and
the selection plan's round trip. `SignTest` counts what the exact sign test counts. `Trajectory` covers
billing by call, and `TrajectorySplit` where turns are cut and what splitting one does to the totals.

## Where the code does not do what one would expect

Each of these is proved of the code as it is, with the condition under which the expected property holds.

- Publishing checks only the refs it moves, so when somebody else moves an unmoved final parent, trunk
  included, between the read and the publish, the branch is recorded on a base that is no longer its parent's
  head (`RestackRace.TrunkCanAdvanceUnseen`); `RestackReread.FinalParentWherePublished` says exactly when.
- A branch skipped because it is already in trunk stays to be moved, and the next restack is refused over it
  (`RestackSkip.SkipBlocksTheNext`).
- A prune can create a cycle, and can put a branch under one it was never under, when trunk's own row
  records a parent. `PruneForest.PruneCanCreateACycle` is a concrete table;
  `PruneForest.CycleExactlyWhenTrunkSitsBelow` and `PruneForest.AncestryIsKept` say exactly when.
- A shared-fetch stamp whose write is cut short no longer covers anyone, so a caller that asked before an
  already recorded fetch began fetches again (`FetchShare.TornStampForgets`); the stamp covers exactly who it
  should exactly while it is whole (`FetchShare.StampTellsExactlyWhenWhole`). Freshness is never lost.
- Admission reserves the dearest run seen so far, so a cheap first run lets the spend pass the ceiling
  (`Admission.UncoveredSpendCanPassCeiling`); `Admission.SpendEndsBelowCeilingExactlyWhen` says when it does
  and `Admission.SpendStaysNearCeiling` bounds by how much.
- The name index is meant never to lose a path, but its entries are linked into place without a sync, while the
  record is synced: any job at all can outlive its path in the index (`JournalHistory.RecordOutlivesItsName`).
  A loss of power leaves the index complete exactly when it takes no loadable job's path
  (`JournalHistory.LossUnindexesExactlyWhen`).
- A tool result that splits a turn raises the totals billed exactly when both halves bill prompts, or both bill
  outputs, without a call's id (`TrajectorySplit.SplittingATurnKeepsTheTotals`).
- Adopting a chain leaves gt's children column short of any row that already named one of the adopted
  branches as its parent (`GtAdoptTheorem.TwoSidedExactlyWhenNoneWaits`, `AdoptionCanMissAChild`), and closes a
  cycle exactly when the base already sat above one (`GtAdoptTheorem.CycleExactlyWhenBaseSatAbove`,
  `AdoptionCanCloseACycle`).
- `nearestFlag` answers distance -1 for a command without flags, where its comment says 0; the model
  follows the code.
- The comment that the high-water mark is the largest billed prompt holds exactly when a message that
  carries the mark is billed (`Trajectory.HighWaterIsTheLargestBill`), which a call that grows between its
  messages can break (`Trajectory.GrowingCallIsBilledLess`).
- Exchanging the two arms of a comparison does more than exchange wins and losses when some pair is zero on
  one arm alone (`SignTest.ExchangingArms`).
- A planned hunk whose end equals its line comes back as a single line
  (`AnchorSyntax.PlanRoundTrip`).

## Model

| member | source | states |
|---|---|---|
| `Upstack.ChildrenOf` | internal/cli/gtrestack.go:625-636 | the children lists hold each branch with a recorded parent exactly once, under that parent, siblings in byte order |
| `Upstack.UpstackFromChildren` | internal/cli/gtrestack.go:638-654 | lists every proper descendant exactly once, parents before children; fails, naming the branch, exactly when the branch is its own ancestor |
| `Upstack.SeenKidIsBranch` | internal/cli/gtrestack.go:644-648 | the only branch the walk can meet twice is the one it started from |
| `RestackPlan.Plan` | internal/cli/gtrestack.go:199-216 | the one pass over the chain computes the movers and, on a parents-first chain, holds exactly the branches kept back by a hold while stale or above a mover |
| `RestackPlan.PlanIsTheUniqueSolution` | internal/cli/gtrestack.go:199-216 | on a parents-first chain the pass finds the one and only set solving "moves iff not held and stale or under a mover" |
| `RestackPlan.HoldsShrinkThePlan` | internal/cli/gtrestack.go:71-90 | adding holds never makes another branch move |
| `RestackPlan.MoversKeepOrder` | internal/cli/gtrestack.go:199-216 | the movers come out distinct and parents first |
| `RestackPlan.UpstackCanBePlanned` | internal/cli/gtrestack.go:621-654 | an upstack walked from a branch is a chain the plan accepts: distinct, parents first, every entry with a parent |
| `RestackPlan.HoldElsewhere` | internal/cli/gtrestack.go:124-133 | adds a hold exactly to the chain branches another working copy has checked out, and changes nothing else |
| `RestackPlan.HoldEmptyUnderWork` | internal/cli/gtrestack.go:164-181 | adds a hold exactly to the movers with no commits of their own whose working copy is dirty; fails exactly when such a copy cannot be read |
| `CommitGraph.MergeBaseIsSharedHistory` | internal/cli/gtrestack.go:280-295 | without merges, what two heads share is exactly what their merge base reaches |
| `Replay.SpanKeepsOwnCommits` | internal/cli/gtrestack.go:276-295 | whatever the history's shape, the replayed span drops none of the branch's own commits |
| `Replay.SpanIsOwnCommits` | internal/cli/gtrestack.go:276-295 | without merges the replayed span is exactly the commits reached by neither the parent's head nor a recorded revision still below the branch |
| `Replay.EqualCountsMeanNoTrunkCommit` | internal/cli/gtrestack.go:313-338 | the two counts agree exactly when no commit of the span is already in trunk |
| `Replay.NearerBaseExcludesBoth` | internal/cli/restack.go:450-475 | the chosen fork point excludes everything either one reaches, and the choice is refused exactly when the two are incomparable |
| `Replay.NearerBaseIsNeverRefused` | internal/cli/restack.go:446-475 | without merges the choice is never refused and the span left to replay is exactly the commits neither fork point reaches |
| `Replay.MovedSpanIsOwnWork` | internal/cli/restack.go:431-475 | moving off one parent onto another replays exactly the commits left out by neither fork point: what the reflog's commit does not reach where it remembers one, and what the parent's head does not reach where it does not |
| `Replay.ForkLeavesOut` | internal/cli/restack.go:431-443 | which commits a fork point leaves out, and that it fails exactly when git fails or there is no merge base to fall back on |
| `ReplayChain.Run` | internal/cli/gtrestack.go:226-274 | the loop with its map of moved heads computes the fold of single replays; it fails only when some mover's turn fails after every one before it went through, and succeeds only when every turn did; each branch's ref is read once, in its own turn |
| `ReplayChain.ReplayMover` | internal/cli/gtrestack.go:229-271 | one turn: where the branch lands, the redirect past a spent parent, the skip of a spent mover, every refusal, and the move recorded, each only as `TurnIs` has it |
| `ReplayChain.TurnIs` | internal/cli/gtrestack.go:229-271 | one turn answers exactly what the state, the moves so far and git say: a read failed exactly when the branch, its parent or their merge base cannot be had; already merged exactly when the ref is below where the branch lands and it is not skipped; a duplicate exactly when a commit from the start to the ref is in trunk; a conflict or a broken replay exactly when git says so; skipped, or moved to what git replayed, otherwise |
| `ReplayChain.PassFailsIs` | internal/cli/gtrestack.go:226-274 | a pass fails exactly when some mover's turn fails so and every turn before it went through |
| `ReplayChain.PassEndsIs` | internal/cli/gtrestack.go:226-274 | a pass ends so exactly when each turn answers what the next starts from |
| `RestackTheorem.FailsAfterASettledPrefix` | internal/cli/gtrestack.go:226-274 | when a pass fails, every mover before the one that failed it had been settled |
| `RestackTheorem.ChildOfLandedParentMoves` | internal/cli/gtrestack.go:239-268 | a branch whose parent is already in trunk moves onto the pinned trunk and is reparented there whenever it is not itself in trunk, its span holds no trunk commit and git replays it |
| `RestackTheorem.PassSettles` | internal/cli/gtrestack.go:226-274 | after a replay that succeeds every move's new head descends from its recorded base, that base is its final parent's planned or moved head, the span counted before the replay held its own commits and no trunk commit, and every mover either moved or was skipped as already in trunk |
| `RestackTheorem.ReplayedSpanIsOwnWork` | internal/cli/gtrestack.go:258-268 | when the ref read in a branch's turn is the planned head, what git replayed is a span of the branch's own commits, exactly them without merges, and none in trunk |
| `RestackTheorem.ChildOfSpentLandsOnTrunk` | internal/cli/gtrestack.go:239-250 | a branch above a skipped mover whose ref is the planned head lands on the pinned trunk and is reparented there |
| `RestackTheorem.MoveReplaysOwnWork` | internal/cli/gtrestack.go:258-268 | the span from the chosen start to the ref read holds exactly the branch's own commits without merges, none in trunk, even after other branches were replayed into the graph |
| `RestackTheorem.TrunkNeverMoves` | internal/cli/gtrestack.go:226-274 | no move is ever recorded for trunk |
| `Restack.Clone.Transaction` | internal/cli/gtrestack.go:401-412 | moves every planned ref or none, and none exactly when some ref no longer equals the head the plan read |
| `Restack.Clone.Reparent` | internal/gtmeta/gtmeta.go:485-540 | the loop over branches, rolled back at the first that fails, moves every row or none; it fails exactly when the transaction or a branch's statements do, a branch has no row, or its new parent has none |
| `Restack.Clone.RecordRestacked` | internal/gtmeta/gtmeta.go:713-747 | the loop over branches, rolled back at the first that fails, writes every revision or none; it fails exactly when the transaction or a statement does or a branch has no row |
| `Restack.TrunkBranch` | internal/cli/shipgt.go:414-421 | names a branch the state marks trunk, and fails exactly when there is none |
| `Restack.PlanWithHolds` | internal/cli/gtrestack.go:71-90 | the plan, re-planned after each round of holds: nothing but holds is added to the state, no mover is checked out elsewhere, and none without commits of its own sits over uncommitted work; the state planned over is determined, and planning fails exactly when there is something to move and the holders, or an empty mover's working copy, cannot be read |
| `Restack.RestackChain` | internal/cli/gtrestack.go:70-117 | a restack with nothing left to move, or refused, leaves refs and rows as they were, and is refused only when planning fails, there is no trunk, a working copy is not clean, the replay fails or would clobber work, or a ref it moves has moved; on success the refs are exactly the moves' and each row column is written by its own transaction, from a pass that settled every mover |
| `RestackReread.AppliedLookup` | internal/cli/gtrestack.go:401-412 | after the transaction each moved branch is at its new head and every other ref where it was |
| `RestackReread.MovedLandsWhereRecorded` | internal/cli/gtrestack.go:401-438 | with both row transactions through, refs, parent and revision agree on a moved branch exactly when the restack moved its final parent or nobody else has since the plan was read, and nobody else rewrote its parent |
| `RestackReread.FinalParentWherePublished` | internal/cli/gtrestack.go:401-412 | the recorded base is the final parent's published head exactly when the restack moved that parent or nobody else did: the transaction checks only the branches it moves |
| `RestackReread.MovedReadsBack` | internal/gtmeta/gtmeta.go:86-141 | in each of the four outcomes of the two row transactions, exactly when a moved branch reads back as off its parent |
| `RestackReread.WrittenReadsBack` | internal/gtmeta/gtmeta.go:86-141 | with its rows written, a moved branch reads back as settled exactly when its final parent stood still |
| `RestackReread.SettledReadingIsTrue` | internal/cli/gtrestack.go:70-117 | whichever row transaction failed, a moved branch that reads back as settled does descend from the revision recorded for it |
| `RestackReread.UnmovedReadsBack` | internal/gtmeta/gtmeta.go:86-141 | a chain branch that did not move keeps its row and, over a parent that stood still, reads as it did |
| `RestackRace.TrunkCanAdvanceUnseen` | internal/cli/gtrestack.go:401-412 | concrete race: trunk advances between read and publish, the refs publish, and the recorded base is not trunk's head |
| `RestackAgain.RereadChainBranch` | internal/gtmeta/gtmeta.go:86-141 | read back, a chain branch is off its parent only when somebody else moved that parent, or it was held back, or skipped as already in trunk |
| `RestackAgain.RestackTwiceIsRestackOnce` | internal/cli/gtrestack.go:70-117 | after a restack that skipped nothing, a second one, whatever holds it adds, finds nothing to move exactly when every branch's ref and parent are there and it is held, or nobody else moved its parent, or for a branch held back the first time, it is on its parent by itself |
| `RestackAgain.RestackAndRecord` | internal/cli/gtrestack.go:70-117 | from the restack itself: planned from an earlier read, run over the clone as it has become, each moved branch landed where recorded exactly when its parent and row stood still |
| `RestackSkip.NextMoversAreTheSkipped` | internal/cli/gtrestack.go:199-252 | in a clone nobody else touches, the next restack, whatever holds it adds to other branches, has exactly the skipped branches to move exactly when every branch the first one held back is held again or sits on its parent and above no skipped one |
| `RestackSkip.SkipBlocksTheNext` | internal/cli/gtrestack.go:246-252 | there, with every branch held back at rest so, the next restack has nothing to do exactly when nothing was skipped, and otherwise moves nothing and is refused over a branch already in trunk |
| `GtLine.NearestHeld` | internal/cli/gtchain.go:263-289 | None exactly when no held head is between floor and tip; otherwise one of them with no other held head above it |
| `GtLine.NearestHoldsTheRest` | internal/cli/gtchain.go:263-289 | without merges every other held head between floor and tip is below the one chosen |
| `GtLine.HeadUnder` | internal/cli/gtchain.go:254-261 | the nearest held head, or the branch's own when its reflog holds none in range |
| `GtLine.BaseStaysBelowItsFloor` | internal/cli/gtchain.go:41-45 | without merges the base's own head is never above the floor found for it, so the base is never taken for a branch stacked on itself |
| `GtLine.LineIsTheRange` | internal/cli/gtchain.go:110-113 | without merges the first-parent line from the tip is every commit in range |
| `GtChain.LevelParent` | internal/cli/gtchain.go:144-167 | which level branch the branch was cut from; none exactly when every one was cut from it; unreadable exactly when a reflog it has to ask cannot be read before the answer is found; otherwise unknown |
| `GtChain.Candidates` | internal/cli/gtchain.go:66-98 | the candidates, local and then remote-only, are sorted by head without loss or repetition |
| `GtChain.UntrackedChain` | internal/cli/gtchain.go:46-141 | success is a chain through every untracked branch between, each on the one below; unreadable exactly when the remote's heads or a level branch's reflog are needed and missing; no single chain exactly for two branches at one commit or one off the first-parent line, naming all of them; no shared history only when the lowest branch and the floor have no merge base |
| `GtChain.ChainOnto` | internal/cli/gtchain.go:24-141 | with the floor it picks itself, the remote trunk or the nearest head the base's reflog held under the tip, the same answers and refusals; without merges the base's own head is then out of the range |
| `GtChainTheorem.BetweenIs` | internal/cli/gtchain.go:66-108 | the branches a chain passes through are exactly the untracked ones in range below the tip that git lists, locally, or on the remote when the branch is only there, nothing local has the name and it is none of gt's or ccx's own, and the one at the tip the branch was cut from |
| `GtChainTheorem.CutOkIs` | internal/cli/gtchain.go:100-108 | a level branch is passed through exactly as the reflog has the branch cut from it or from the remote's branch of its name; none only when each was cut from the branch |
| `GtChainTheorem.QuestionsAre` | internal/cli/gtchain.go:87-154 | the remote is asked exactly when there is one and no local branch has the name |
| `GtChainTheorem.LinksAre` | internal/cli/gtchain.go:66-141 | the links below the branch are exactly those branches, each with its own head |
| `GtChainTheorem.LinksAreDistinct` | internal/cli/gtchain.go:75-141 | links have distinct names, none tracked, none the branch itself, and none the base unless it is untracked and in range |
| `GtChainTheorem.LinksShareNoCommit` | internal/cli/gtchain.go:132-141 | no commit is in two links, with or without merges |
| `GtChainTheorem.LinksOwnTheirHead` | internal/cli/gtchain.go:132-141 | every link below the branch has commits of its own |
| `GtChainTheorem.LinksPartitionTheRange` | internal/cli/gtchain.go:126-141 | without merges the links' spans cover the range from floor to tip, each commit exactly once |
| `GtChainTheorem.RefusedOnlyForSharedCommits` | internal/cli/gtchain.go:114-125 | without merges the refusal means two branches at one commit |
| `GtAdopt.Store.AdoptLink` | internal/cli/gtchain.go:216-229 | one turn of the loop: adopted whole, untouched, or recorded on trunk and not yet moved |
| `GtAdopt.Store.AdoptChain` | internal/cli/gtchain.go:203-231 | adopts a prefix of the chain whole and stops only where a command failed, a branch to cut exists, or a row is missing; no existing ref moves |
| `GtAdoptTheorem.ParentsAreWrittenFirst` | internal/cli/gtchain.go:216-229 | whatever rows were there, adopting in order never finds a parent's row missing, and leaves every link on its parent and every other row as it was but for children |
| `GtAdoptTheorem.AdoptionLeavesStrays` | internal/gtmeta/gtmeta.go:367-433 | a two-sided table stays two-sided but for the rows that named an adopted branch before it had a row |
| `GtAdoptTheorem.TwoSidedExactlyWhenNoneWaits` | internal/gtmeta/gtmeta.go:367-433 | parents and children columns still agree exactly when no row outside the chain already named one of its unrecorded branches as parent |
| `GtAdoptTheorem.AdoptionCanMissAChild` | internal/gtmeta/gtmeta.go:398-406 | concrete rows where adoption leaves a row its parent does not list |
| `GtAdoptTheorem.CycleExactlyWhenBaseSatAbove` | internal/gtmeta/gtmeta.go:485-540 | adopting into an acyclic table closes a cycle exactly when the base already sat above a branch of the chain |
| `GtAdoptTheorem.AdoptionCanCloseACycle` | internal/gtmeta/gtmeta.go:485-540 | concrete rows where adoption puts the base above itself |
| `GtAdoptTheorem.LookedUpChainIsAPath` | internal/cli/gtchain.go:233-252 | the chain the lookup answers meets what adoption needs |
| `Prune.Survivor` | internal/cli/prune.go:227-243 | the nearest tracked ancestor that is kept, trunk when the chain runs out, and an error exactly when the walk revisits a branch |
| `Prune.RevisitsExcludesTheRest` | internal/cli/prune.go:227-243 | a walk that revisits a branch neither ends nor meets a kept one, so the three outcomes exclude each other |
| `Prune.NearestKeptIsUnique` | internal/cli/prune.go:227-243 | a branch has at most one nearest kept ancestor |
| `Prune.Reparent` | internal/cli/prune.go:204-221 | exactly the stranded rows move, each to its survivor; refused exactly when one sits on a chain that cycles |
| `PruneForest.NoForgottenParentIsLeft` | internal/cli/prune.go:184-221 | no row left names a forgotten parent |
| `PruneForest.AncestryIsKept` | internal/cli/prune.go:184-243 | the ancestor relation among kept rows, trunk aside, is unchanged exactly when no row falls to trunk or trunk's row records nothing kept above it |
| `PruneForest.CycleExactlyWhenTrunkSitsBelow` | internal/cli/prune.go:184-243 | from an acyclic table a cycle results exactly when some row falls to trunk that is trunk or above it |
| `PruneForest.PruneCanCreateACycle` | internal/cli/prune.go:227-243 | concrete rows, trunk recorded on a stranded branch, where the rows left put that branch above itself |
| `Levenshtein.Compute` | internal/cli/root.go:183-201 | the two-row loop computes the edit-distance recurrence |
| `Levenshtein.DistanceIsTheLeastEdits` | internal/cli/root.go:183-201 | the distance is the length of a shortest path of single-byte insertions, deletions and substitutions |
| `Levenshtein.DistanceIsAMetric` | internal/cli/root.go:183-201 | zero exactly on equal strings, symmetric, and obeying the triangle inequality |
| `Levenshtein.NearestFlag` | internal/cli/root.go:123-132 | the first flag visited at the least distance; distance -1 and no flag when there are none |
| `FetchShare.RunKeepsInvariant` | internal/cli/fetchshare.go:31-74 | every interleaving keeps the protocol's invariant, and the tracking ref never goes back |
| `FetchShare.ReturnedFresh` | internal/cli/fetchshare.go:31-65 | a caller that returned without error leaves a tracking ref sampled no earlier than its call time less its allowed age |
| `FetchShare.SinceIsCallTimeLessAge` | internal/cli/fetchshare.go:32-32 | what a caller accepts is fixed when it calls: its call time less the age it allowed |
| `FetchShare.FetchedIsTold` | internal/cli/fetchshare.go:28-64 | a caller that returned without error is told it fetched exactly when it began a fetch |
| `FetchShare.TrackingNeverGoesBack` | internal/cli/fetchshare.go:31-65 | later steps never undo what a caller was promised |
| `FetchShare.OneFetchAtATime` | internal/cli/fetchshare.go:41-50 | at most one caller is past the lock |
| `FetchShare.FetchesOnlyForNewer` | internal/cli/fetchshare.go:51-65 | a caller fetching over a completed stamp asked for something newer than every fetch recorded before; with no allowed age, it asked strictly after each began |
| `FetchShare.StampTellsExactlyWhenWhole` | internal/cli/fetchshare.go:51-74 | in every reachable state the stamp covers a caller exactly when some recorded fetch is as new as it asks, for all callers, exactly when the stamp is whole or nothing was ever recorded |
| `FetchShare.TornStampForgets` | internal/cli/fetchshare.go:61-74 | concrete run where a stamp write cut short lets a caller that asked before a recorded fetch began fetch again |
| `WatchClients.InspectClients` | internal/cleanupwatch/census.go:270-309 | every connection is marked self, server, gone or unexamined exactly as it is, with at most the allowed number of distinct processes looked up |
| `WatchClients.LookedUpAre` | internal/cleanupwatch/census.go:276-297 | a process is looked up exactly when it is foreign and comes while fewer than the bound of distinct ones have been taken, and once |
| `WatchClients.Placements` | internal/cleanupwatch/retire.go:645-683 | the table holds exactly the processes the subscription answers place, each with its roots and clients |
| `WatchClients.SightingsAre` | internal/cleanupwatch/retire.go:645-683 | the subscriptions that place a process are exactly those the first roots up to the bound list |
| `WatchClients.ConnectionsAre` | internal/cleanupwatch/retire.go:605-615 | the connections of a process are counted each once |
| `WatchClients.ClientsBlock` | internal/cleanupwatch/retire.go:592-643 | blocks exactly when some connection is not accounted for: not the census's own, the server's or gone, nor placed with as many clients as connections on roots that are not being retired; cannot tell exactly when the processes, or the subscriptions a foreign one needs, cannot be read |
| `Retire.Session.TakePlan` | internal/cleanupwatch/retire.go:80-106 | a plan names the worktree's identity and, deepest first, the watched roots at or below it that resolve to themselves; it is refused exactly when something is in the way, a root does not, or the ownership is in doubt, and fails exactly when the worktree does not resolve or the gate or ownership is not answered |
| `Retire.DeepestSorts` | internal/cleanupwatch/retire.go:93-100 | ordering roots deepest first loses none and repeats none |
| `Retire.DeepestIsStable` | internal/cleanupwatch/retire.go:499-499 | roots as deep as each other stay in the order the status lists them |
| `Retire.BelowPicks` | internal/cleanupwatch/retire.go:483-486 | the roots a plan names are the target and those under it, each where the status lists it |
| `Retire.Session.PinRoots` | internal/cleanupwatch/retire.go:108-123 | exactly the paths that still resolve to themselves are pinned, each to its identity at the moment it was read, and the others are counted |
| `Retire.PinsAre` | internal/cleanupwatch/retire.go:108-123 | the pins are the identities of exactly the paths that resolve to themselves, in order |
| `Retire.Session.Gate` | internal/cleanupwatch/retire.go:469-508 | the roots at or below the target, deepest first, from one status answer; refused exactly when a root at, below or above it is in use or a client is unaccounted for; fails exactly when a request it makes is not answered |
| `Retire.Session.FreshBlockers` | internal/cleanupwatch/retire.go:530-567 | no blocker exactly when the check's own observations are clear, watched exactly when its status lists the root, and no answer exactly when a request it makes has none |
| `Retire.Session.DeleteRoot` | internal/cleanupwatch/retire.go:264-286 | one watch-del at most, and only after its last check was clear; refused exactly when that check fails or is not clear, not watched exactly when it is clear without the root, unconfirmed exactly when the watch-del fails or the next list still holds the root |
| `Retire.Session.RetireRoot` | internal/cleanupwatch/retire.go:244-262 | check, guard, re-pin of worktree and root, then delete, each after the event before it; refused, no longer watched and unconfirmed each exactly when the answers to those steps say so, the first two changing nothing |
| `Retire.Session.SameOwner` | internal/cleanupwatch/fsmonitor.go:306-332 | true exactly when the planned daemon is the only one serving the worktree's sockets |
| `Retire.Session.RetireFSMonitor` | internal/cleanupwatch/retire.go:313-349 | a daemon is stopped only as the planned and only owner, after a clear check, guard and re-pin; refused, without a daemon and unconfirmed each exactly when the answers say so |
| `Retire.Session.VerifyNoRootsWithin` | internal/cleanupwatch/retire.go:351-373 | true exactly when the server is gone or answers a list with no root within the worktree |
| `Retire.Session.RetirePlan` | internal/cleanupwatch/retire.go:183-208 | Outcome.Retired names roots deleted and then seen gone, in plan order; every event is lawful and its steps begin after the event before it; a stop comes of a planned root or daemon whose answers say so, a refusal leaving nothing else deleted and a failed watch-del one root more; completion rests on a look taken after every event that found nothing watched within the worktree, every planned root retired or seen unwatched |
| `Retire.WithinMeans` | internal/cleanupwatch/retire.go:190-198 | the retired roots sit at ascending places of the plan |
| `Retire.Drifted` | internal/cleanupwatch/retire.go:210-242 | no drift exactly when worktree, git directory and owner are as planned, the owner by pid, start, command and socket, and every root of the new plan is the first of its path in the old one, unchanged |
| `Retire.Retire` | internal/cleanupwatch/retire.go:154-169 | whatever the world does between steps, only planned roots at or below the pinned worktree are deleted, each re-pinned as the approved plan has it and just after a clear observation, and only the approved plan's own daemon, by pid, start, command and socket, is stopped; a retaken plan whose daemon differs is never carried out; nothing is carried out only when the plan was refused, cannot be retaken or has drifted; later stops have a cause, a refusal leaves only the reported roots deleted, and completion rests on a last look after every event |
| `Retire.NoAncestorIsDeleted` | internal/cleanupwatch/retire.go:299-311 | no root above the worktree is ever deleted, so long as two directories are not under each other at the moment it is re-pinned |
| `Journal.Journal.RecordName` | internal/cleanup/names.go:42-61 | first use wins and no name is ever removed, wherever the writer dies; it is cut off exactly when it dies before both keys are in |
| `Journal.LaneOf` | internal/cleanup/names.go:35-39 | a path is recorded under itself and under its last two components |
| `Journal.Journal.Write` | internal/cleanup/journal.go:213-219 | cut off anywhere, the folder's record is the old one whole or the new one whole; cut off exactly when the writer dies before the rename |
| `Journal.Journal.Create` | internal/cleanup/journal.go:67-82 | cut off anywhere, every loadable record is indexed and other folders are untouched; a folder already there is never written; refused only for that or a record that fails the check, and cut off exactly when the writer dies before its last step |
| `Journal.Journal.Save` | internal/cleanup/journal.go:85-90 | the record is the old one or the new one; refusal is exactly failing the check or finding no folder, and it is cut off exactly when the writer dies first |
| `JournalHistory.Run` | internal/cleanup/journal.go:67-181 | one operation, cut off anywhere, or one loss of power, is one step: trees kept, each record old, new or none, and only a loss of power takes a name |
| `JournalHistory.HistoryKeeps` | internal/cleanup/journal.go:67-181 | over any history of operations, cuts and losses of power no payload or registered tree is lost, nor any entry but records, records being written and scratch; a name only to a loss of power that takes it, every record is the first image's or one written whole, and the index stays complete unless an unindexed job is saved or a loss takes a loadable job's path |
| `JournalHistory.Recover` | internal/cleanup/journal.go:149-181 | a load after any such history returns only jobs the disk held at first or some operation wrote whole, every loadable one, each with its path in the index when it stayed complete; it finishes when its writer lives for every entry there is |
| `JournalHistory.LossUnindexesExactlyWhen` | internal/cleanup/names.go:100-122 | a loss of power leaves a complete index complete exactly when it takes no loadable job's path |
| `JournalHistory.RecordOutlivesItsName` | internal/cleanup/names.go:100-122 | every job that checks, created whole on an empty disk, is loadable without its path in the index once power fails before that entry is written back |
| `Journal.Journal.DiscardFolder` | internal/cleanup/journal.go:115-142 | a folder with anything but a record, a record being written or scratch is refused whole, one holding a payload or a registered tree always; nothing else changes; it is cut off exactly when the writer dies before the folder is gone |
| `Journal.Journal.Discard` | internal/cleanup/journal.go:95-113 | never removes a payload or a registered tree, and is refused over one; unless cut off, it refuses exactly when the job still holds a tree or its id is no job id, and it is cut off exactly when the writer dies before the last removal |
| `Journal.Journal.Load` | internal/cleanup/journal.go:149-181 | returns exactly the records that are whole, check, and name their folder, in queue order; damaged folders exactly the rest, a recordless one with a payload or registered tree among them; every record and every tree survives; it is cut off only when the writer dies before as many steps as there are entries |
| `Journal.CheckedNamesItsOwnFolder` | internal/cleanup/journal.go:201-211 | a record checks exactly when it is intact, numbered and properly named, and its paths are the registered and payload entries of its own folder, in the jobs folder or a spool's |
| `Journal.IndexedSurvives` | internal/cleanup/journal.go:67-113 | a change to one folder keeps every loadable job's path in the name index |
| `Journal.QueueInserts` | internal/cleanup/journal.go:172-180 | sorted insertion keeps queue order and adds exactly the one job |
| `Admission.RunKeepsInvariant` | bench/ccxbench/runner.py:252-296 | every interleaving keeps the admission invariant |
| `Admission.InFlightIsAdmittedUnfinished` | bench/ccxbench/runner.py:276-290 | the in-flight count is the runs admitted and not finished, and never exceeds the concurrency |
| `Admission.ReservationIsTheDearestFinished` | bench/ccxbench/runner.py:259-290 | in every reachable state a run reserves 1.0 until one has finished, and then the cost of a finished run no other finished run exceeds; so it did at the latest admission |
| `Admission.AdmitsExactlyWhenRoomIsLeft` | bench/ccxbench/runner.py:267-277 | a run is admitted exactly when the spend and the dearest finished run's cost, for it and for each run in flight, stay below the ceiling, and is otherwise turned away |
| `Admission.SpendStaysNearCeiling` | bench/ccxbench/runner.py:259-290 | once a run is admitted, spend stays below ceiling plus concurrency times the dearest run |
| `Admission.CoveredSpendStaysBelowCeiling` | bench/ccxbench/runner.py:259-290 | when the latest admission's reservation covers each run then in flight, spend stays below the ceiling |
| `Admission.SpendEndsBelowCeilingExactlyWhen` | bench/ccxbench/runner.py:259-290 | with every admitted run finished, spend is below the ceiling exactly when the runs in flight at the latest admission cost less together than the room it found |
| `Admission.UncoveredSpendCanPassCeiling` | bench/ccxbench/runner.py:262-290 | concrete run where a free first run leaves too little reserved and the ceiling is passed |
| `Admission.RecordsAreFinishedRuns` | bench/ccxbench/runner.py:285-296 | the records are exactly the workers in the recorded phase, each once |
| `Admission.EndRecordsEveryAdmittedRun` | bench/ccxbench/runner.py:265-296 | when no step is left every admitted run is recorded, every other was turned away or skipped, and the runner has halted exactly when there is such a run |
| `Admission.EveryStepUsesWork` | bench/ccxbench/runner.py:265-296 | every step leaves fewer to take, so every interleaving ends so |
| `Admission.RunSerial` | bench/ccxbench/runner.py:236-249 | records exactly the runs started below the ceiling and halts exactly when one is left at or above it |
| `GtRun.ReminderGoesOn` | internal/cli/gtrun.go:90-109 | a line belongs to the divergence reminder exactly when it opens one, or continues the one the line before belongs to |
| `GtRun.ReminderWords` | internal/cli/gtrun.go:18-109 | what opens a reminder and what continues one, word for word |
| `GtRun.Divergence.Drop` | internal/cli/gtrun.go:90-104 | the flag drops exactly the reminder's lines |
| `GtRun.QuietWriter.Write` | internal/cli/gtrun.go:204-220 | however the text is cut, the output is what the filter keeps of its whole lines; a refused write stops it just before the refused line |
| `GtRun.QuietWriter.Flush` | internal/cli/gtrun.go:223-231 | after Flush all of the text has been filtered |
| `GtRun.Stream` | internal/cli/gtrun.go:198-231 | for every cutting into writes, writer and Flush emit what a fresh filter keeps of the whole text |
| `GtRun.FilteredIs` | internal/cli/gtrun.go:198-231 | what the reminder filter keeps of a text is its lines outside the reminder, each where it was and on a line of its own, the last one as it ends |
| `GtQuiet.TipGoesOn` | internal/cli/gtrun.go:117-126 | a line belongs to a tip exactly when it carries no severity and opens one or follows one not yet closed |
| `GtQuiet.TipWords` | internal/cli/gtrun.go:117-126 | a tip opens with its word and closes where a line ends in a bracket, whatever spaces follow |
| `GtQuiet.KeptIs` | internal/cli/gtrun.go:143-151 | the lines kept are exactly those that are no noise, each where it was |
| `GtQuiet.FilterQuiet` | internal/cli/gtrun.go:143-165 | the loops keep exactly the lines outside tips and reminders, trimmed of blank ends, when one is a diagnostic |
| `GtQuiet.QuietTwice` | internal/cli/gtrun.go:143-165 | filtering its own output changes nothing |
| `GtQuiet.DiagnosticsSurvive` | internal/cli/gtrun.go:143-165 | every severity-led line outside the reminder is in the result |
| `GtQuiet.OnlyDiagnosticsRemain` | internal/cli/gtrun.go:143-165 | every line of the result is a line of the input no filter opens on, and some line is a diagnostic |
| `GtQuiet.Blocks` | internal/cli/gtrun.go:176-193 | joining the blocks gives the input without trailing newlines; each is one report, and each after the first starts severity-led |
| `GlobMatch.LastVerdict` | internal/backend/globmatch.go:54-72 | the verdict of the last matching rule, asked from the end; an error exactly when a pattern errors before any has matched |
| `GlobMatch.MatchGlobs` | internal/backend/globmatch.go:82-117 | whenever it answers, agrees with the declarative selection; it errors exactly when a pattern errors over the path or a directory of it with nothing excluded before |
| `GlobMatch.ExcludedDirectoryPrunes` | internal/backend/globmatch.go:79-103 | an excluded directory rejects every path below it |
| `GlobMatch.ExclusionNeverSelects` | internal/backend/globmatch.go:74-117 | appending an exclusion never selects a new path |
| `GlobMatch.IncludeNeverLoses` | internal/backend/globmatch.go:74-117 | appending an include to a list that has one never loses a path |
| `GlobMatch.FirstIncludeIsAWhitelist` | internal/backend/globmatch.go:74-117 | the first include keeps exactly the selected paths it matches |
| `GlobMatch.SharedGlobAnchor` | internal/backend/globmatch.go:124-137 | the anchor every include carries; empty only when there is no include or no anchor carried by all |
| `GlobMatch.CompiledIs` | internal/backend/globmatch.go:27-40 | a glob is an optional ! for exclusions, a body, and an optional / for directories; a body ending in /** matches only below, and one without a slash only basenames |
| `GlobMatch.BaseIs` | internal/backend/globmatch.go:42-46 | the basename is what follows the last slash, slashes at the end left out |
| `GlobMatch.OneGlobSelects` | internal/backend/globmatch.go:74-77 | a single include selects exactly the paths its pattern matches, by basename at any depth when it has no slash and by the whole path when it has |
| `AnchorHash.EncodingIsABijection` | anchor/anchor.go:16-45 | the four-character encoding is a bijection from the folded values onto the hashes the grammar accepts |
| `AnchorHash.EncodeIsAHash` | anchor/anchor.go:34-45 | every encoded value is a hash of the grammar, and reads back |
| `AnchorHash.EncodingAscends` | anchor/anchor.go:34-45 | the encoding keeps order, which with the bijection leaves one way to encode |
| `AnchorSyntax.ParseUndoesRender` | anchor/anchor.go:153-211 | Parse undoes Format, FormatRange and a bare hash on every reference to in-range 1-based lines |
| `AnchorSyntax.ParseAnswersReferences` | anchor/anchor.go:146-181 | Parse answers only such references, and complains of a bad hash exactly for an anchor-shaped string that is no anchor |
| `AnchorSyntax.ParseReadsNumbers` | anchor/anchor.go:146-181 | a span and a hash around # parse to the numbers and the hash as written, or to the fault of the first number out of place |
| `AnchorSyntax.ParseOfOnePart` | anchor/anchor.go:146-181 | a hash alone is a bare anchor, and a line or range is none |
| `AnchorSyntax.ParseOfTheRest` | anchor/anchor.go:146-181 | anything else is a bad hash exactly when digits and dashes stand before a #, and no anchor otherwise |
| `AnchorSyntax.AnchorIsNotNumeric` | anchor/anchor.go:23-26 | no hash and no anchor is a line number or range |
| `AnchorSyntax.RangeReadsBack` | anchor/anchor.go:108-128 | a written range reads back as the same bounds |
| `AnchorSyntax.NormalizeTwice` | anchor/anchor.go:96-101 | normalizing twice is normalizing once |
| `AnchorSyntax.NormalizingKeepsBounds` | anchor/anchor.go:93-128 | normalizing a section changes no bounds it parses to |
| `AnchorSyntax.NormalizedIs` | anchor/anchor.go:90-101 | two numbers around a comma, with any white space around either, become the same two in the same order around a dash; every other section is left as it is |
| `AnchorSyntax.RangeIs` | anchor/anchor.go:103-128 | a number, a dashed range or a comma range has its own bounds in order; back to front exactly when the first is past the second; none when one is past an int |
| `AnchorSyntax.NoRangeIsRead` | anchor/anchor.go:103-128 | every other section is no range |
| `AnchorSyntax.PlanHunks` | internal/cli/apply_selection.go:42-60 | one hunk for each ref, in order, with its rendered range and digest |
| `AnchorSyntax.PlanRefs` | internal/cli/apply_selection.go:64-79 | reads back every hunk, and fails exactly when one range does not parse |
| `AnchorSyntax.PlanRoundTrip` | internal/cli/apply_selection.go:54-79 | planRefs undoes refRange exactly when the end is absent or past the line; otherwise only that end is lost |
| `AnchorResolve.OfLines` | anchor/anchor.go:49-64 | hashes the join of the trimmed lines, and a single line as Of does |
| `Text.TrimSpaceCuts` | anchor/anchor.go:36-38 | what is trimmed off a line before it is hashed is white space, and what is left begins and ends with none |
| `Text.SpaceIs` | anchor/anchor.go:36-38 | the white space trimmed is Unicode's |
| `AnchorResolve.LineReferenceReadsBack` | anchor/anchor.go:34-45 | a line's own reference, bare or numbered, parses back |
| `AnchorResolve.Resolve` | anchor/anchor.go:255-276 | with a hint, the occurrence nearest it, ties to the earlier, succeeding exactly when the content occurs; bare, exactly when it occurs once; a range within the file; a move reported exactly when it moved |
| `AnchorResolve.NearestIsUnique` | anchor/anchor.go:297-307 | at most one line is nearest, so content and hint alone decide where a reference lands |
| `AnchorResolve.RangeKeepsItsLength` | anchor/anchor.go:278-295 | a range keeps its length exactly when its old and moved ends are in the file, and is only ever cut short |
| `AnchorResolve.ShiftNeverOverflows` | anchor/anchor.go:278-288 | clamping first keeps every intermediate value in an int, and shifting first would not |
| `AnchorResolve.Nearest` | anchor/anchor.go:297-307 | the candidate nearest the line, the earlier of two as near |
| `AnchorResolve.MovedContentStillOccurs` | anchor/anchor.go:250-276 | an edit that only reorders lines never loses an anchored one |
| `AnchorResolve.RewriteRead` | anchor/rewrite.go:33-55 | leaves settled arguments alone, rewrites a comma range to the same bounds in order around a dash, and otherwise writes the resolved range, nearest occurrence and clamped end, with its move as the note; fails exactly when the section is a bad anchor, the file cannot be read, or the anchor does not resolve, and says which |
| `AnchorResolve.RewriteTwice` | anchor/rewrite.go:8-15 | rewriting a rewritten read changes nothing, whatever the files hold by then |
| `AnchorResolve.RewriteRelated` | anchor/rewrite.go:57-77 | writes the path it was given and the line its anchor resolves to, which is never read as an anchor again; fails exactly when the location is a bad anchor, the file cannot be read, or the anchor does not resolve, and says which |
| `AnchorResolve.LocationReadsBack` | anchor/anchor.go:183-201 | a location written with an anchor reads back as that path and reference, whatever colons the path has |
| `SignTest.CombCounts` | bench/ccxbench/report.py:139-139 | the binomial coefficient counts the sequences with that many wins |
| `SignTest.PValueCountsLopsided` | bench/ccxbench/report.py:133-140 | the p-value times 2^n counts the sequences at least as lopsided as the observed one |
| `SignTest.ClampBitesExactlyOnATie` | bench/ccxbench/report.py:140-140 | the clamp to 1 bites exactly when wins equal losses |
| `SignTest.PValueIsAProbability` | bench/ccxbench/report.py:133-140 | it lies in (0, 1] and is symmetric |
| `SignTest.PValueFalls` | bench/ccxbench/report.py:133-140 | for one n it strictly falls as the smaller count falls |
| `SignTest.EveryPairIsCounted` | bench/ccxbench/report.py:384-399 | every pair is a win, a loss, a tie or skipped, in exactly one way |
| `SignTest.ExchangingArms` | bench/ccxbench/report.py:384-399 | exchanging the arms exchanges wins and losses and changes nothing else exactly when no pair is zero on one arm alone |
| `Trajectory.Turns` | bench/ccxbench/trajectory.py:91-109 | the loop computes the split at user messages |
| `Trajectory.TurnsHoldAssistants` | bench/ccxbench/trajectory.py:91-109 | the turns hold every assistant message once, in order, and none is empty |
| `TrajectorySplit.TurnsAreCutAtUsers` | bench/ccxbench/trajectory.py:91-109 | two assistant messages share a turn exactly when no user message lies between them |
| `Trajectory.Bills` | bench/ccxbench/trajectory.py:112-138 | the loops compute the bills turn by turn, calls already seen left out |
| `Trajectory.EachCallIsBilledOnce` | bench/ccxbench/trajectory.py:112-138 | when every message names its call there is one bill for each distinct call, in order of first appearance |
| `Trajectory.SplittingATurnBillsTheSame` | bench/ccxbench/trajectory.py:112-118 | a tool result landing inside a turn changes no bill, when every message names its call |
| `TrajectorySplit.SplittingATurnKeepsTheTotals` | bench/ccxbench/trajectory.py:112-161 | a user message landing anywhere never lowers the billed totals, and keeps them exactly when the halves of the turn it splits do not both bill prompts, nor both bill outputs, without a call's id |
| `Trajectory.Peak` | bench/ccxbench/trajectory.py:150-155 | the first turn with the largest prompt, and none exactly for a stub |
| `Trajectory.HighWaterIsTheLargestBill` | bench/ccxbench/trajectory.py:156-158 | no bill passes the high-water mark, and the largest bill is the mark exactly when some message carrying it is billed, as one is when a call's messages repeat its prompt |
| `Trajectory.GrowingCallIsBilledLess` | bench/ccxbench/trajectory.py:156-158 | concrete turn, a call whose later message carries more, where it is not |

## Left out

- Git, gh, gt, jj, Watchman, lsof and ps themselves, and the parsing of their output: their answers are oracles.
- `gtHoldPublished`, `gtRevCount` parsing and the wording of every refusal.
- The working copies a restack realigns after publishing, and which files a clobber refusal names: one answer each.
- ReplayChain.Run: reads each branch's ref once, in its own turn; the source asks git for it again at each command of the turn.
- RestackTheorem.PassSettles: says whose commits the counted span holds, up to the ref read; git replays up to the planned head, and ReplayedSpanIsOwnWork covers the two being equal.
- RestackTheorem.MoveReplaysOwnWork: bounds the span up to the ref read, as PassSettles does.
- RestackTheorem.ChildOfSpentLandsOnTrunk: assumes the skipped branch's ref is still the planned head, because the source redirects by that head and skips by the ref.
- Trunk's remote-tracking ref, which `readStateRows` may read in trunk's place.
- Restack.Clone.Reparent: does not model the children column, which reading the state back ignores; `GtAdopt` models both columns.
- GtChain.ChainOnto: the head of the base, its reflog's heads and the commits in range are given; git failing to answer for them is not modelled.
- GtChain.UntrackedChain: does not model deepening a shallow clone while looking for a merge base, nor how reflog and ls-remote lines are parsed.
- Names in a chain refusal are not sorted.
- The fetch path without a shared lock, and a stamp file that cannot be read at all.
- `Recreate`, quarantine checks, and how fsmonitor ownership is worked out from configuration: `world.ownership` answers it.
- The polling loop that waits for a stopped fsmonitor daemon: `world.stop` answers whether it stopped.
- Symbolic links: whether one path is under another is asked of the world, and may change between questions.
- Requests a retirement makes in parallel are taken one after another, each at its own moment.
- The field-by-field validation of a cleanup job beyond its paths: one flag says whether the rest is intact.
- Collisions of the hashed keys of the name index; the switch file; other processes writing the journal's disk.
- What a loss of power does besides taking back names: entries removed before their folder was may return, and a name's file may come back empty. A record is synced before it is renamed into place, and a folder's making and removal before the call answers; both are assumed of the durable package.
- The benchmark plan's order, its transcripts and scoring, and exceptions inside one run.
- Bootstrap intervals and mean savings, which are floating point.
- FNV hashing and doublestar matching: any function, and any function that may also error.
- `SplitGlobAnchor`'s parsing, and the stat calls of `FilterGlobPaths`.
- Trajectory.SplittingATurnBillsTheSame: does not cover messages without an id, which the source bills once a turn and so again when a turn is split; `TrajectorySplit.SplittingATurnKeepsTheTotals` says exactly when that changes the totals.
- Reading files for anchors, reports of moves as text, and tool-result token decomposition.
- Bytes of gt's output are characters here; a newline byte never falls inside a character.
- `apply-selection`'s hunk selection and its files.
