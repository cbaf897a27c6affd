# Verified model of the book-repair, capital and read-side logic

The platform trades one account in several lanes (strategies). Its book is kept per lane, the venue only knows net
quantities, and a good part of the backend exists to keep the two in step, to move capital between lanes, and to show what
is going on. This project models that part in Dafny and proves what it is for.

* **Contra repair.** A planner reads the per-lane book against the venue and decides, instrument by instrument, between
  closing pairs, evicting the whole book, evicting an EXTERNAL surplus, refusing and saying nothing. An executor rebuilds the
  approved plan from a fresh book, a booker checks the aim of every leg, and a ledger keeps a repair from being booked twice.
  `Netting` is the book and what a leg does to it; `ContraClose`, `ContraFlatten`, `ContraPlanProofs`, `ContraWholeBook` and
  `ContraParts` are the planner; `ContraExecute`, `ContraExecuteProofs` and `ContraPrints` the executor; `ContraFresh` what its
  whole plan does to any book, `ContraExecuted`, `ContraLands`, `ContraSingleLeg` and `ContraCrossing` to the one it was made on;
  `ContraLedger` the booker and the ledger; `ContraRuns` the node's ticks and restarts; `ContraPipeline` a tick from plan to
  position book, `ContraHalfBooked` and `ContraBookRuns` what later ticks make of it; `ContraWorked` worked books.
* **Durable-cache repair.** Orders and positions are folds over event lists. `CacheReplay` is the netting fold,
  `CacheOrders` the revival of rejected orders the venue still knows, `CachePlan` and `CacheNet` the plan and its net check,
  `CacheApply` and `CacheRepaired` the write, `CacheDangling` and `CacheOverlap` worked cases, `CacheDropLeg` the phantom leg.
* **Capital sleeves.** `Budget` and `Distribution` are the transfer and the largest-remainder split, `BudgetStore` the rows
  and the uniquely keyed log, `SleeveRuns` whole runs, `TransferFold` the pure fold.
* **Read side.** `OrderBlotter` and `OrderRuns` the order dictionary and its reconcile, `BarSeries` the bounded series,
  `AckStore` the command acks.
* **Lanes.** `LaneCoverage`, `LaneOversize`, `LaneSplit`, and the exit ceilings in `Claims`.
* **Two small machines.** `BootGate` pacing and the `FailedRequests` recurrence counters.

`Prelude` holds sums, stable sorting, string order and set sums.

Code that updates state in place is a class whose methods are proved equal to a function of the old state, and a loop is a
method proved equal to a specification function; the theorems are lemmas about those functions, over every run.

## How the code is read

* Quantities, prices and money are exact reals; integer cents and counts are integers. `QTY_TOLERANCE`, `_EPS` and the other
  constants have the values of the code. A NaN or absent quantity is a third value, never zero, and where the code lets a
  NaN fall through a comparison the model does too.
* A SHA-256 fingerprint is the tuple of the fields it hashes.
* Dictionaries whose order matters (`_orders`, `_acks`, the lanes of `by_key`, the failed-request rows) are sequences with
  unique keys, in insertion order. Where a scan of a store has no defined order, the order is a parameter.
* Databases, Redis, HTTP, clocks and serialization are parameters. A raised error is an `Err` value.

## What the proofs found

Each of these is a lemma below; where code and comment disagree the model follows the code.

* The executor recomputes the quantity of a pair as the smaller live leg, and the fingerprint leaves the quantity out. A plan
  with a pair smaller than that executes differently from what was approved. The executed plan still nets to the venue and
  realizes nothing; but a leg of a flatten ends past flat exactly when its pairs fall short of whole by more than the plan
  leaves of it, and then by less than twice what it held. Of whole shares the book alone decides it: with the legs of each side
  laid end to end in the order of their ids, a leg ends past flat exactly when its stretch crosses one of the other side's.
  Two longs against two shorts do: 3 and 1 against 2 and 2 end with the long of 3 short 1 and a short of 2 long 1.
* The same goes for a pair an operator names. The planner takes care that the split is theirs and the total the book's; the
  executor books the whole smaller leg whatever split they name: of a long of 3 and a short of 2, named one share, two.
* With a single leg on one side every pair is within the tolerance of whole, so only that leg can end past flat, and by no more
  than the tolerance; every pair is exactly whole if and only if it does not run out inside one of the others after the first,
  with more than the tolerance left to give. A single long that holds at least what the shorts do never runs out; one of
  2.9999995 against shorts of 2 and 1 does, and ends below zero.
* The executor's surplus rule is blind to a lane whose quantity is not a number, where the planner refuses the instrument.
* A lane with a mute closed position is refused by the executor although the planner planned it.
* An eviction that includes a leg at zero is accepted by the executor and refused whole by the booker.
* The ledger is meant to survive a restart, and the comment where the node builds it says its caller rehydrates it. The node
  builds it empty, throws away what `record` hands back, and nothing but tests calls `load`. So a repair is booked at most once
  between restarts, not over them: right after a restart a fingerprint, booked before or not, is booked exactly when an armed
  tick offers it well aimed and its booking does not raise. A caller that stored every entry handed back and loaded it would
  have the property. One that stored what was offered to `record` instead, or did not load before recording again, would not:
  the exact conditions are proved.
* The aim check reads the ledger once for a whole list of orders, so on its own it books two well-aimed orders under one
  fingerprint twice. The node never gives it two: the orders of one plan stand under different fingerprints, on any fresh book.
* A booking that raised half-way is recorded as refused, against the comment beside it, and a refusal protects nothing. The same
  order is booked again, every leg of it, exactly when each position already moved still holds as much as its leg takes again:
  always when nothing had been booked, never when a booked leg had closed its position whole. The node's own next tick plans
  afresh on the book as it then is, and offers nothing under the fingerprint of a repair any leg of which reached it, though the
  node restarted in between: what a restart forgets, the position book tells the next tick, provided the fills have reached it.
* A revived order's total is the venue's exactly when nothing had filled before its rejection; otherwise what had filled is
  counted on top.
* An accepted cache repair can leave an order mapped to a position it has just deleted.
* The positions of an instrument are found by the beginning of their ids. When the id of one touched instrument and a dash begin
  another's position ids, a position is decided under both, counted under each as that one decides it, and left as the last of
  them moves it. So an accepted repair nets an instrument to the venue exactly when, over the positions it shares with other
  touched instruments, what is open in the end adds up to what its own rules left open of them: always when it shares none. A
  repair that is planned without a refusal, written, and leaves three against a venue of two is worked out.
* A sell fill that moved nothing is not logged. Delivered again it moves capital exactly when nothing has moved under its id
  since and the seller's row frees something at the targets it then meets. A replayed distribution run moves capital again
  exactly when it now plans something, for sleeves none of which is logged under its id.
* The lane rows of a split instrument add back to the broker's market value only when they carry exactly the broker's
  quantity; agreement within the tolerance is not enough.
* `stranded` is zero only when the whole parts of the claims equal the holding, or a single lane claims more, and no lane loses a
  share to the fractions the others claim: it also counts shares nobody claims, so an over-claim is not the only way to a
  positive figure. With a negative claim the ceilings may exceed the holding; exactly when is proved, for claims of any sign and
  fraction.
* An ack received again keeps the age of the first one.
* A raise inside one lane's preflight is reported as that lane degraded. A raise of the boot gate's probe outside it (finding the
  lane's broker, reading its report, journalling) reaches the node's handler, which swallows it and stores no verdict. From the
  first probe, it leaves a state the gate reads as clean, and no update ever probes again.

## Model

| member | source | states |
|---|---|---|
| ContraClose.PlanContraCloses | backend/api/contra_close.py:540-825 | the planner's loops produce the plan its specification describes, and raise exactly when a working order is outside the book's vocabulary |
| ContraClose.MatchLegs | backend/api/contra_close.py:716-748 | the two-cursor loop over slots written back in place yields the takes of the recursive matching |
| ContraFlatten.PairCount | backend/api/contra_close.py:722-748 | n longs and m shorts make at most n + m - 1 pairs, none when a side is empty |
| ContraFlatten.TakesFit | backend/api/contra_close.py:722-748 | no pair of a flatten takes more than a leg has, and no leg gives more than it holds |
| ContraFlatten.LegsExhausted | backend/api/contra_close.py:716-748 | every leg is exhausted to within the side imbalance and one tolerance per leg, never overdrawn |
| ContraFlatten.ExactlyExhausted | backend/api/contra_close.py:716-748 | at tolerance zero and equal sides every leg is exhausted exactly |
| ContraParts.AnyPartIsSafe | backend/api/contra_close.py:716-749 | whichever of a flatten's pairs are booked, the net stays, every leg gives back exactly its booked pairs, and none flips, moves its basis or realizes anything |
| ContraParts.FlattenMoney | backend/api/contra_close.py:209-213 | what the planner's pairs of a flatten erase is the book value of all its legs, to within the slack of the legs at their prices |
| ContraLands.WholeShareMoney | backend/api/contra_close.py:209-213 | and exactly it on whole shares |
| ContraPlanProofs.TwoLegLands | backend/api/contra_close.py:777-822 | from a net that agrees with a venue at or above zero, the smaller leg is the whole short and the pair lands on the venue |
| ContraPlanProofs.FlattenRepairs | backend/api/contra_close.py:694-749 | a flatten closes every leg at its own basis, flips none, and nets to the venue |
| ContraPlanProofs.EvictionRepairs | backend/api/contra_close.py:634-656 | an eviction leaves every leg at exactly zero and the net at the venue's |
| ContraPlanProofs.SurplusRepairs | backend/api/contra_close.py:216-260 | closing the one EXTERNAL surplus leg leaves the real lanes at the venue's quantity with no short |
| ContraPlanProofs.InstrumentRepairs | backend/api/contra_close.py:591-825 | whatever an instrument's outcome, its legs are aimed, close at basis, leave no short and land on the venue |
| ContraWholeBook.OneOutcomeEach | backend/api/contra_close.py:591-825 | every instrument is in the plan under exactly the one kind of outcome decided for it |
| ContraWholeBook.PlanLands | backend/api/contra_close.py:591-825 | all planned legs booked on the whole planning-time book realize nothing, leave untouched instruments alone, and land each of the others on the venue, to within the tolerance, a flatten within twice that, with no short beyond a flatten's slack or a pair's tolerance |
| ContraExecute.PrepareExecution | backend/api/contra_execute.py:129-381 | the executor's loops emit the orders and refusals of its specification |
| ContraExecuteProofs.PairOrderSound | backend/api/contra_execute.py:183-250 | on any fresh book an accepted pair aims at the live positions at their bases, strictly reduces both, crosses zero in neither and leaves the net and every other position alone |
| ContraExecuteProofs.EvictionOrderFlat | backend/api/contra_execute.py:259-323 | an accepted eviction leaves the instrument flat at a venue re-read as zero |
| ContraExecuteProofs.SurplusOrderLands | backend/api/contra_execute.py:325-380 | an accepted surplus eviction leaves no short and the net of the readable lanes at the re-read venue quantity |
| ContraExecuteProofs.SurplusIgnoresUnreadableLane | backend/api/contra_execute.py:325-380 | a lane with an unreadable quantity does not change the executor's surplus decision |
| ContraExecuteProofs.PlannerRefusesUnreadableLane | backend/api/contra_close.py:609-614 | the planner refuses the instrument on the same book |
| ContraExecuteProofs.PlannedPairAgrees | backend/api/contra_execute.py:86-126 | on an unchanged book a planned pair is accepted under its fingerprint exactly when neither lane is mute, with the planned legs exactly when the pair closes its smaller leg whole |
| ContraWorked.MuteLaneIsRefused | backend/api/contra_execute.py:196-210 | a pair beside a mute closed position, planned and then refused |
| ContraExecuteProofs.PlannedEvictionAgrees | backend/api/contra_execute.py:259-323 | the same of a planned eviction, with identical legs |
| ContraExecuteProofs.PlannedSurplusAgrees | backend/api/contra_execute.py:325-380 | the same of a planned surplus eviction |
| ContraFresh.FreshPlanMoves | backend/api/contra_execute.py:129-381 | for a plan made on any book, all the orders prepared on any other and booked on it open nothing, realize nothing and move each position, and each net, by exactly what the executor made of its instrument's outcome |
| ContraFresh.FreshPlanLands | backend/api/contra_execute.py:129-381 | so on any fresh book pairs leave the net, an accepted eviction leaves its instrument flat at a venue re-read as zero, an accepted surplus eviction at the re-read quantity with no short, and the rest is as it was |
| ContraExecuted.PlanExecuted | backend/api/contra_execute.py:129-381 | on the book the plan was made on, the executor's orders are the plan without what a mute shape stands beside and with every pair at the whole of its smaller leg |
| ContraExecuted.ExecutedPlanMoves | backend/api/contra_execute.py:129-381 | all those orders booked together open nothing, realize nothing and move each position, and each net, by exactly the executed legs of its own instrument |
| ContraLands.ExecutedPlanLands | backend/api/contra_execute.py:129-381 | an instrument left alone is as it was, every other nets to the venue, pairs do not move the net, an eviction leaves it flat, and where the pairs are whole nothing flips and no short is left |
| ContraLands.FlattenFlipsIff | backend/api/contra_execute.py:97-108 | a leg of an executed flatten ends past flat exactly when its pairs fall short of whole by more than the plan leaves of it, and past by the difference |
| ContraLands.WholeShareFlipsIff | backend/api/contra_execute.py:97-108 | of whole shares, exactly when one of its own pairs is not whole |
| ContraCrossing.FewNotWhole | backend/api/contra_close.py:716-748 | no long has more than two pairs that are not whole, no more than one if nothing was taken of the first short it meets |
| ContraCrossing.PastByLessThanTwice | backend/api/contra_execute.py:97-108 | so a leg of any flatten has at most two pairs that are not whole, and ends past flat by less than twice what it held |
| ContraCrossing.TakesAreCommon | backend/api/contra_close.py:716-748 | with no tolerance the pairs are exactly what the two sides, laid end to end, have in common |
| ContraCrossing.FlipsIffCrossing | backend/api/contra_execute.py:97-108 | of whole shares a leg ends past flat exactly when its stretch crosses one of the other side's, neither within the other |
| ContraSingleLeg.SingleLongFlatten | backend/api/contra_close.py:722-748 | with a single long, at the planner's tolerance: every pair is within it of whole, the long is over-closed by at most it and no short at all, and every pair is whole exactly when the long does not run out inside a short after the first with more than the tolerance left |
| ContraSingleLeg.SingleShortFlatten | backend/api/contra_close.py:722-748 | with a single short, likewise |
| ContraLands.SingleLegLands | backend/api/contra_execute.py:97-108 | the executor's orders for such a flatten leave only the single leg past flat, if any, and by no more than the tolerance |
| ContraSingleLeg.SingleLegWholeIff | backend/api/contra_close.py:722-748 | a single leg at least as large as the others together is executed as planned; a smaller one, among legs of more than two tolerances, exactly when it meets a single other |
| ContraWorked.TwoByTwoOverCloses | backend/api/contra_execute.py:97-108 | two longs against two shorts, planned, accepted, verified and booked: all six legs reach the book, the long of 3 ends short 1 and a short of 2 long 1 |
| ContraWorked.OneLongMayFlip | backend/api/contra_execute.py:97-108 | a single long of 2.9999995 against shorts of 2 and 1 is booked in full and ends below zero |
| ContraExecuteProofs.OperatorSplitNeverTotal | backend/api/contra_close.py:448-537 | whatever an operator names, booked as named the net stays and neither leg flips beyond the tolerance; on the book it was named on it is accepted exactly when neither lane is mute, and then takes the whole smaller leg from both, which only closes and keeps the net, so as named exactly when it is that whole |
| ContraWorked.NamedOneBooksTwo | backend/api/contra_execute.py:97-108 | one share named of a long of 3 and a short of 2 is accepted, passes the aim check and is booked at two |
| ContraLedger.VerifyAndBook | backend/api/contra_book.py:67-117 | the booker's loops sort the orders into booked, refused and already done as specified |
| ContraLedger.BookedIffAimed | backend/api/contra_book.py:67-117 | an order is booked exactly when the ledger does not have it and every leg names a live position in its lane, on the side it closes, with enough to give |
| ContraLedger.Ledger.Record | backend/api/contra_ledger.py:58-75 | a refusal never overwrites a booking, and what is handed back is what the ledger holds |
| ContraLedger.Ledger.Load | backend/api/contra_ledger.py:49-52 | rehydration writes every entry, later ones winning |
| ContraLedger.BookedIsAbsorbing | backend/api/contra_ledger.py:58-75 | after any records a fingerprint is booked exactly when it was or some record booked it |
| ContraLedger.LoadRebuilds | backend/api/contra_ledger.py:49-75 | loading what recording handed back rebuilds exactly the live ledger |
| ContraLedger.StoringWhatWasOffered | backend/api/contra_ledger.py:49-75 | a store of what was offered to `record`, loaded, loses a booking the ledger holds exactly when the last entry offered for it was a refusal, and never has one it does not |
| ContraLedger.LoadAcrossBoots | backend/api/contra_ledger.py:49-75 | of two boots journalled one after the other without a load between, what is booked on the next load is what the second says of it, if anything, else what the first does |
| ContraRuns.RunBookRepair | backend/api/engine_node.py:5535-5597 | one tick on the running ledger and the position book: refusals first, then, when armed, each booking's legs up to the one that raises, and its entry |
| ContraRuns.BookedNextIff | backend/api/engine_node.py:5555-5578 | after any run of ticks and restarts, a tick books a fingerprint exactly when it offers it well aimed without raising and this boot has not booked it |
| ContraRuns.RepairedAtMostOnce | backend/api/contra_book.py:67-117 | over any run with distinct fingerprints per plan, a fingerprint is booked at most once between restarts, exactly when the ledger says so, and over the whole run at most once more than there were restarts |
| ContraPrints.MatchedOnce | backend/api/contra_close.py:722-748 | the matching never joins the same long and short twice |
| ContraPrints.OrdersDiffer | backend/api/contra_execute.py:129-381 | whatever book the executor reads, no two of its orders for one plan stand under the same fingerprint |
| ContraPrints.NodeRepairsAtMostOnce | backend/api/engine_node.py:5446-5597 | so the node's own ticks book each repair at most once between restarts, with nothing assumed of the fingerprints |
| ContraRuns.RestartForgets | backend/api/engine_node.py:1192-1196 | right after a restart a fingerprint, booked before or not, is booked exactly when an armed tick offers it well aimed and its booking does not raise |
| ContraRuns.BookedStaysBooked | backend/api/contra_ledger.py:54-56 | until the next restart what has been booked is booked no more |
| ContraRuns.RestartBooksTwice | backend/api/engine_node.py:1192-1196 | a tick, a restart that reads the book as it was, and the same tick book one repair twice |
| ContraRuns.StoredRestartIsInvisible | backend/api/contra_ledger.py:49-75 | for a caller that stores every entry handed back and loads it at each start, which the node is not, a restart changes nothing at any point of any run |
| ContraRuns.StoredRepairsOnce | backend/api/contra_ledger.py:49-75 | and such a caller, with distinct fingerprints per plan, books each repair at most once over the whole run |
| ContraRuns.BookedTwiceIff | backend/api/contra_book.py:67-117 | the aim check alone books a fingerprint twice in one pass exactly when the ledger does not have it and two well-aimed orders of the list stand under it |
| ContraRuns.RaisedIsOfferedAgain | backend/api/engine_node.py:5565-5577 | a booking that raised at a leg leaves the legs before it on the book and a refusal, and the same order is booked again, every leg, exactly when all its legs are still well aimed at the book the next tick reads |
| ContraPipeline.RaisedIsBookedAgainIff | backend/api/engine_node.py:5565-5577 | on the book with those legs booked: exactly when each position already moved holds as much again, so always after none |
| ContraHalfBooked.HalfBookedIsNotOffered | backend/api/engine_node.py:5446-5525 | once some leg of a pair, an eviction or a surplus eviction has been booked, nothing the executor accepts on that book stands under its fingerprint |
| ContraBookRuns.RunKeepsBases | backend/api/engine_node.py:5446-5597 | over any run of passes and restarts on one book, whatever the plans and raises: no position appears, moves its basis or opens again, and the book stays one open position an instrument and lane |
| ContraBookRuns.NotOfferedNext | backend/api/engine_node.py:5446-5597 | a repair any leg of which reached the book in one pass is not offered by the next, whatever it plans, though the node restarted in between |
| ContraBookRuns.NeverOfferedAgain | backend/api/engine_node.py:5446-5597 | nor by any pass of any run once a position the repair names is closed |
| ContraPipeline.NodeTickBooks | backend/api/engine_node.py:5446-5597 | an armed tick that plans, prepares, verifies and books on one read puts every leg of every order on the book, unless an instrument to be evicted has a flat leg or the ledger has the order |
| ContraPipeline.UnknownIsWhatWouldOpen | backend/api/contra_book.py:76-90 | the aim check calls a position unknown exactly where booking the leg would open one |
| ContraPipeline.EvictionBooksIff | backend/api/contra_book.py:67-117 | an accepted eviction is booked on the same book exactly when no open position of the instrument is at zero |
| ContraWorked.FlatLegIsNotBooked | backend/api/contra_book.py:67-117 | an eviction with a flat leg, planned, accepted and not booked |
| ContraPipeline.PairBooks | backend/api/contra_book.py:67-117 | an accepted pair is always booked |
| ContraPipeline.SurplusBooks | backend/api/contra_book.py:67-117 | an accepted surplus eviction is always booked |
| CacheReplay.ReplayPosition | backend/api/cache_repair.py:205-214 | the loop grows the instances of the netting fold |
| CacheReplay.ReplaySegments | backend/api/cache_repair.py:205-214 | replay cuts a list, in order, into runs that stay open until their end, all but the last closed |
| CacheReplay.CurrentIsSuffix | backend/api/cache_repair.py:205-214 | the current instance is the end of the list, replays to itself, and carries the signed sum of the whole list |
| CacheOrders.LiveFillsLaws | backend/api/cache_repair.py:326-348 | the live fills have distinct trade ids, and each trade held for the order anywhere is represented by its earliest, witnessed before inferred |
| CacheOrders.ReviveOrder | backend/api/cache_repair.py:365-449 | the loop over live fills rewrites the history as specified, with the same refusals |
| CacheOrders.FittingIsGreedy | backend/api/cache_repair.py:386-394 | a fill is kept exactly when it fits on top of what was kept before it |
| CacheOrders.SkippedNeverFits | backend/api/cache_repair.py:386-394 | a skipped fill would not fit under the venue's total at the end either |
| CacheOrders.RevivalAccounting | backend/api/cache_repair.py:365-449 | the prefix is verbatim, no rejection remains, the kept fills are the distinct greedy fit, and kept plus remainder is the venue's filled quantity exactly |
| CacheOrders.RevivedTotalIffPrefixUnfilled | backend/api/cache_repair.py:365-449 | the revived order as a whole has filled the venue's quantity exactly when nothing had filled before the rejection |
| CacheOrders.PrefixFillCountsTwice | backend/api/cache_repair.py:365-449 | one filled before the rejection, two at the venue: revived, three |
| CacheOrders.RevivedAsTheVenueClosed | backend/api/cache_repair.py:421-440 | an order closed at the venue is revived filled or canceled, and only such an order is canceled |
| CacheOrders.RevivableIff | backend/api/cache_repair.py:365-398 | exactly when a corpse can be revived at all |
| CachePlan.MakePlan | backend/api/cache_repair.py:562-579 | the planner's loop over corpses yields the specified plan or refusal |
| CachePlan.PlanPositions | backend/api/cache_repair.py:485-559 | the nested loops over instruments and positions yield the specified rewrites, refusals and unexplained |
| CacheNet.RulesHold | backend/api/cache_repair.py:485-559 | every position of a touched instrument ends by the rules of the last to move it, or of each it reads as when none does: the fired lane's own later fills, no short elsewhere, minted instances gone, the rest unchanged |
| CacheNet.RepairedNetsIff | backend/api/cache_repair.py:485-559 | a plan with no refusals and nothing unexplained nets a touched instrument to the venue exactly when, over the positions it shares with other touched instruments, what is open in the end adds up to what its own rules left open of them |
| CacheNet.RepairedNets | backend/api/cache_repair.py:485-559 | so it nets every touched instrument that shares none |
| CacheOverlap.OverlapMissesTheVenue | backend/api/cache_repair.py:485-639 | a repair of two stops, planned without a refusal and written, that leaves an instrument at three against a venue of two |
| CacheApply.CacheStore.ApplyPlan | backend/api/cache_repair.py:587-639 | a refused plan writes nothing; any other is written whole, with the count of keys |
| CacheRepaired.AppliedIsIndexed | backend/api/cache_repair.py:587-639 | every rewritten order and position is in exactly the index its replayed object demands, deleted ones in none, and nothing rightly indexed is disturbed |
| CacheRepaired.OnlyCorpsesRewritten | backend/api/cache_repair.py:304-323 | exactly the corpses worth reviving are rewritten and every other order keeps its events |
| CacheRepaired.RepairLands | backend/api/cache_repair.py:562-639 | planned and written, a repair leaves the indexes consistent and nets each touched instrument to the venue under exactly that condition, so always where it shares no position |
| CacheRepaired.RepairIsIdempotent | backend/api/cache_repair.py:562-639 | planning again on what was written is a no-op |
| CacheRepaired.DanglesIff | backend/api/cache_repair.py:598-627 | exactly when an order is left mapped to a deleted position |
| CacheDangling.AcceptedRepairMayDangle | backend/api/cache_repair.py:562-639 | a concrete accepted repair that does so |
| CacheDropLeg.PlanDropSyntheticLeg | backend/api/cache_repair.py:661-749 | the loop over mapped orders yields the specified plan |
| CacheDropLeg.DropLandsIff | backend/api/cache_repair.py:661-749 | a drop that is not refused leaves the indexed open net at the venue exactly when the position id has a dash, the position closed or gone, and every other position as it was |
| CacheDropLeg.MintIsGone | backend/api/cache_repair.py:628-633 | the order that carried the phantom is gone from every list and index, and no other order changes |
| Budget.TransferBounds | backend/api/budget.py:119-156 | a transfer exists exactly when a sale frees excess, is as large as the three caps allow and no larger, and its last branch is never taken |
| Budget.GuardNeverTaken | backend/api/budget.py:286-306 | the in-loop cap guard is never the branch taken: the leftover goes one cent each to the first in rank |
| Budget.ApportionIsExact | backend/api/budget.py:270-309 | the cents handed out are the pot, each share the floor or ceiling of its exact quota within its headroom, and a larger shortfall never gets fewer |
| Distribution.PlanDistribution | backend/api/budget.py:223-309 | the loop over the ranked ids hands out what the specification does |
| Distribution.DistributionLaws | backend/api/budget.py:223-309 | the plan adds up to the capped pot, to under-target sleeves only, in positive whole cents within headroom |
| Distribution.NeverMoreThanAvailable | backend/api/budget.py:223-309 | as money, never more than is available |
| BudgetStore.SleeveStore.OnSellFill | backend/api/budget_store.py:126-191 | a sale logs its transfer, then moves the balances, or changes nothing |
| BudgetStore.SleeveStore.DistributeUnallocated | backend/api/budget_store.py:194-293 | a distribution run lands whole or not at all |
| SleeveRuns.SaleBounds | backend/api/budget_store.py:126-191 | an applied sale leaves the donor at or above its target and the recipient at or below its own; a logged fill changes nothing |
| SleeveRuns.DistributionBounds | backend/api/budget_store.py:194-293 | a distribution hands out no more than UNALLOCATED holds, each recipient once and within headroom, and the guard on the planned total never fires |
| SleeveRuns.RunFollows | backend/api/budget_store.py:126-293 | over any run, capital is invariant, every balance is its first value plus logged credits less logged debits, no fill is logged twice, and UNALLOCATED never goes negative |
| SleeveRuns.RedeliveryIsNoOp | backend/api/budget_store.py:163-174 | a fill that once moved capital never moves any again, whatever happens in between |
| SleeveRuns.SaleMovesIff | backend/api/budget_store.py:126-191 | on any store a sale moves capital exactly when its fill id is non-empty and not in the log and its seller's row frees more than the threshold at the targets of the moment, whatever the recipient |
| SleeveRuns.UnloggedFillMovesIff | backend/api/budget_store.py:155-158 | a fill that moved nothing, redelivered after any run, moves capital exactly when nothing has moved under its id since and the seller's row then frees something |
| SleeveRuns.UnloggedFillMovesLater | backend/api/budget_store.py:155-158 | for one, when the target drops in between |
| SleeveRuns.ReplayFundsOnlyOthers | backend/api/budget_store.py:252-273 | replaying a run never funds a sleeve it has funded |
| SleeveRuns.DistributionMovesIff | backend/api/budget_store.py:194-293 | on any store a distribution moves capital exactly when it plans something and none of the sleeves it plans for is logged under its run id |
| SleeveRuns.ReplayMovesIff | backend/api/budget_store.py:252-273 | so does a run replayed after anything else, and every sleeve it has funded is logged |
| SleeveRuns.ReplayMayMoveAgain | backend/api/budget_store.py:252-273 | for one, when a target is raised in between |
| TransferFold.FoldIgnoresOrderAndRepetition | backend/api/budget.py:172-192 | the fold of transfers depends only on the set of fills, not on order or repetition |
| TransferFold.UnidentifiedMovesTwice | backend/api/budget.py:172-192 | a transfer without a fill id has no such protection |
| TransferFold.AllocatedIsInvariant | backend/api/budget.py:200-202 | allocated capital is invariant under any sequence of transfers |
| OrderBlotter.Blotter.UpsertOrder | backend/api/consumer.py:350-358 | the row is stored under its key and the oldest terminal rows over the cap are deleted |
| OrderBlotter.Blotter.ReconcileOrders | backend/api/consumer.py:360-396 | the two loops of the reconcile produce the specified rows |
| OrderRuns.CapDropsOldest | backend/api/consumer.py:355-358 | no terminal row the cap drops is newer than one it keeps |
| OrderRuns.UpsertLaws | backend/api/consumer.py:350-358 | the cap never prunes a working row, and every other row is as it was |
| OrderRuns.ReachableIsBounded | backend/api/consumer.py:350-396 | in every reachable state keys are unique and at most 200 rows are terminal |
| OrderRuns.FreshSnapshotSettles | backend/api/consumer.py:360-396 | a snapshot of working orders newer than everything held makes the working keys exactly the snapshot's |
| OrderRuns.NewerThanSnapshotIsKept | backend/api/consumer.py:360-396 | a working row newer than its snapshot row and than the snapshot is neither reverted nor dropped |
| OrderRuns.ClosedOrdersStay | backend/api/consumer.py:392-396 | closed orders a working snapshot does not mention stay recorded |
| BarSeries.Series.ApplyBar | backend/api/consumer.py:398-412 | storing a bar and deleting the oldest over the maximum leaves the newest |
| BarSeries.HeldIsNewestOfHistory | backend/api/consumer.py:398-412 | after any bars, late and revised ones included, what is held is the newest 6000 timestamps of the history with their last values |
| BarSeries.HeldIsBounded | backend/api/consumer.py:409-412 | never more than the maximum is held |
| AckStore.Acks.StoreAck | backend/api/consumer.py:333-343 | the ack is stored and the first keys over the maximum are deleted |
| AckStore.StoreIsBounded | backend/api/consumer.py:333-343 | over any run the store is bounded, one entry a command, and the ack just received is retrievable |
| AckStore.HeldIsNewestOfHistory | backend/api/consumer.py:333-343 | after any acks the commands held are the last 2000 to have entered, in that order, each with the last ack received for it |
| AckStore.ReAckDoesNotRenew | backend/api/consumer.py:333-343 | an ack received again leaves every command at its age |
| LaneCoverage.CoverageByLane | backend/api/lane_coverage.py:77-109 | the loop credits lanes and the unattributed as specified |
| LaneCoverage.CoverageIsPerLane | backend/api/lane_coverage.py:84-109 | each lane is credited with exactly its own stops, the unattributed with exactly the rest |
| LaneCoverage.TotalIsEverything | backend/api/lane_oversize.py:61-86 | the lanes and the unattributed add up to the instrument's protective quantity, so the disagreement check never fires |
| LaneCoverage.CompleteIff | backend/api/lane_coverage.py:49-74 | the split is complete exactly when every resting stop has an owner |
| LaneOversize.OversizeByLane | backend/api/lane_oversize.py:54-132 | the grouping and shrinking loops yield the specified corrections |
| LaneOversize.LaneLands | backend/api/lane_oversize.py:104-132 | afterwards a lane rests the lesser of covered and held to within the tolerance, with every target between zero and the order's remainder, and none for a lane not in excess |
| LaneOversize.OnlyExcessTouched | backend/api/lane_oversize.py:104-132 | every correction is for a stop of a lane in excess |
| LaneOversize.FewestTouched | backend/api/lane_oversize.py:117-130 | cancelling any smaller number of the lane's stops would leave too much resting |
| LaneOversize.NoCorrectionOnAGuess | backend/api/lane_oversize.py:80-93 | one stop nobody owns means no correction at all, and nothing else does |
| LaneSplit.SplitByLane | backend/api/lane_split.py:90-195 | the loops yield the specified rows and divergences |
| LaneSplit.SplitConservesQuantity | backend/api/lane_split.py:119-172 | a split instrument reports no divergence and its rows add up to the broker's quantity to within the tolerance and the legs too small for a row |
| LaneSplit.SplitConservesValueIff | backend/api/lane_split.py:160-172 | exactly when the rows add back to the broker's market value |
| LaneSplit.AgreedButWorthMore | backend/api/lane_split.py:160-172 | for one they do not: two shares at 200 against 2.0000005 in two lanes come to 200.00005 |
| LaneSplit.FallbackIsUnchanged | backend/api/lane_split.py:125-156 | an instrument that does not split keeps its one row unchanged and reports exactly one divergence |
| LaneSplit.SplitBook | backend/api/lane_split.py:119-172 | over the whole book, one divergence for each row that does not split |
| Claims.ClaimsByStrategy | backend/api/claims_invariant.py:51-70 | the fold of claim rows |
| Claims.FoldIgnoresOrder | backend/api/claims_invariant.py:51-70 | claims do not depend on the order of the rows, and duplicates are summed |
| Claims.ExitCeilings | backend/api/claims_invariant.py:100-145 | the loops over symbols and lanes yield the specified ceilings |
| Claims.NoOversell | backend/api/claims_invariant.py:100-145 | for any number of lanes and non-negative claims the ceilings add up to no more than is held |
| Claims.OversellsIff | backend/api/claims_invariant.py:100-145 | for any claims, of any sign and fraction: the ceilings add up to more than is held exactly when what the over-claim holds back, the smaller of it and each claim, is less than what the claims exceed the holding by; that takes a negative claim |
| Claims.WholeSharesOversellIff | backend/api/claims_invariant.py:100-145 | on whole shares the over-claim is one number; claims that fit are oversold exactly when the positive ones alone do not |
| Claims.NegativeClaimOversells | backend/api/claims_invariant.py:130-136 | for one, five claimed and five owed of nothing held |
| Claims.ConsistentClaimsSell | backend/api/claims_invariant.py:113-117 | when the claims sum to no more than is held each ceiling is its claim |
| Claims.NothingStrandedIff | backend/api/claims_invariant.py:130-142 | none of the shares held is stranded exactly when the whole parts of the claims equal the holding or a single lane claims more, and the others' fractions take no share from any lane |
| Claims.WholeSharesSpare | backend/api/claims_invariant.py:130-142 | claims on whole shares never do |
| Claims.OverClaimedStrands | backend/api/claims_invariant.py:100-112 | over-claimed in whole parts by two lanes or more, some shares are out of reach |
| BootGate.BootGateState.ShouldRun | backend/api/boot_gate.py:64-128 | one account update, as the specification decides it |
| BootGate.BootGateState.Update | backend/api/engine_node.py:9749-9779 | the update with its probe: the verdict is stored, unless probing raised |
| BootGate.UnknownEquityIsInvisible | backend/api/boot_gate.py:106-107 | updates without equity change nothing |
| BootGate.CleanIsFinal | backend/api/boot_gate.py:108-109 | after a clean verdict nothing probes again |
| BootGate.ProbeSchedule | backend/api/boot_gate.py:106-128 | a boot that stays degraded probes exactly at updates 1 to 5, 13, 29, 61, 125, 253, 509, 1021, 2045 and every 2048 after |
| BootGate.ProbeCount | backend/api/boot_gate.py:106-128 | that is 13 plus one for each whole 2048 updates past 2045 |
| BootGate.NeverSilent | backend/api/boot_gate.py:110-128 | some update in every 2048 probes |
| BootGate.DegradedRun | backend/api/boot_gate.py:64-128 | the same over runs with unknown-equity updates and raised probes among them, so long as the first probe found a lane degraded |
| BootGate.GoesSilentIff | backend/api/engine_node.py:9749-9779 | no update ever probes again exactly when some probe found the stack clean or the very first one raised |
| BootGate.FirstRaiseSilences | backend/api/engine_node.py:9749-9779 | one raise at the first probe, and that was the only probe |
| FailedRequests.Recorder.RecordFailure | backend/api/failed_requests.py:85-104 | one failure recorded, counted once a pass |
| FailedRequests.Recorder.ClearOne | backend/api/failed_requests.py:106-118 | the row goes and the streak ends, the history stays |
| FailedRequests.Recorder.ClearAll | backend/api/failed_requests.py:120-134 | the loop over the recurrence table closes each key of the kind |
| FailedRequests.RowsTell | backend/api/failed_requests.py:85-134 | in every reachable state a row exists exactly when its key was recorded since its last boundary, with that count, first and last time and last note |
| FailedRequests.RecurrenceTells | backend/api/failed_requests.py:47-68 | consecutive and total passes, start and mark equal their definitions over the history of operations |
| FailedRequests.StreakWithinTotal | backend/api/failed_requests.py:47-68 | the streak is never longer than the total |
| FailedRequests.OtherKindsUntouched | backend/api/failed_requests.py:120-134 | a boundary of one kind leaves every key of other kinds alone |
| FailedRequests.ReportLaws | backend/api/failed_requests.py:136-159 | the report lists every row, worst first, and shows recurrence exactly for kinds that have had a boundary |

## Left out

- Routes, WebSocket push, health assembly, alert texts and their delivery, and the transport and task loops around the modelled
  updates: plumbing with no law of its own.
- Floating-point rounding, serialized bytes, UUIDs, the SHA-256 digest itself, and the rounding of a synthetic fill's price to
  the instrument's tick.
- A price that is NaN, a planned quantity that is NaN, and a target of minus infinity are not modelled.
- The platform library's own checks on event order and overfills: an order's status is the fold of its last event and its
  filled quantity, a position the signed sum of its fills.
- CacheRepaired.RepairIsIdempotent: says nothing of the audit record the write appends under a fresh key.
- ContraExecuteProofs.PairOrderSound, EvictionOrderFlat and SurplusOrderLands, and the statements about whole execution plans:
  require a netting book, one open position per instrument and lane under its own id, which is the platform's account type.
- ContraExecuteProofs.PairOrderSound and ContraPipeline.PairBooks: require that the pair names a long and a short, which every
  pair of the planner (ContraPipeline.PlannedSigns) and of an operator (ContraExecuteProofs.OperatorPairFacts) does; so do the
  statements of ContraHalfBooked and ContraBookRuns.
- ContraExecuteProofs.SurplusOrderLands: says nothing of the quantity of a lane that cannot be read, which counts as nothing.
- ContraPipeline.NodeTickBooks: is about one read of the book; the fills that reach the cache between the plan, the execution plan
  and the booking are those of PairOrderSound, EvictionOrderFlat and SurplusOrderLands.
- ContraRuns.RunBookRepair: a leg that raises is taken to have left nothing on the book, and the order cache's own refusal of a
  client order id it already holds is not modelled; it would make a second booking of one fingerprint in one process raise.
- ContraRuns.RepairedAtMostOnce: counts bookings that ran to the end; a booking that raised half-way may have booked some legs.
- SleeveRuns.RunFollows: requires targets that do not name UNALLOCATED, which is not a registered strategy; `mark_to_market`
  sets a balance by measurement and is not part of a run.
- ContraBookRuns.NotOfferedNext: is about the pass that follows, NeverOfferedAgain about every later one once a position is
  closed; a position that passes through zero is taken to keep the opening time its fingerprints hold.
- `own_ceiling` is not part of this repository; its documented formula is used. The matcher behind realized profit and loss is
  not part of this model.
- Concurrent transactions on the sleeve tables, and fills, positions and health frames on the read side: one writer at a time.
- One-branch decisions (trailing stops, trims, windows, exit classification) and formatting: they would only add easy members.
