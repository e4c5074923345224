# MarketRig: verified model

A Dafny model of the parts of MarketRig whose rules are about whole runs, with
proofs of those rules. `dafny verify dfyconfig.toml` checks everything.

| files | part of the system |
|---|---|
| `Options` | the optional value every module uses |
| `Calendar`, `CalendarText` | the acceptance harness's Gregorian conversions, date-to-days and days-to-date, and their text forms (section 3.2.1 of ISO 8601:2004, section 5.6 of RFC 3339) |
| `Session`, `DayLife` | the A-share session clock: statuses, the four boundary alerts, and the day every CN order ends with |
| `Catalog` | the daily price band |
| `Instrument`, `Sampling`, `Matching` | one instrument's sampled-fill rule, the simple rule it refines, and what its books fill against any matcher |
| `Eligibility`, `Settlement` | T+1 sellability and the execution-time checks; then both over runs through the critical section |
| `Critical`, `Publication` | the critical section between poller and admissions, and every book it publishes |
| `TradingDay` | the day law of the orders the sections really admit |
| `Prompts`, `Dispatch`, `Activation` | the durable prompt queue, its delivery over runs with crashes, and the dispatcher's mutually recursive activation |
| `Terminal`, `TerminalStream` | the terminal pane, and the byte stream end to end from the child through the daemon's ring |
| `Codex`, `CodexAdapter` | the Codex control plane: losses, restarts, threads and readiness |

Where the source updates an object in place the model is a class (`Inst`,
`Dispatcher`, `Viewer`, `Socket`, `Inner`); each method is proved against a
function or a step of a state machine, and the properties are proved of those
over every run. Waits, timeouts, answers of adapters, the store, the provider and
the matching engine are arbitrary inputs of the steps. Prices and quantities are
integers in a fixed decimal unit; instants are unbounded naturals that clamp to
the signed range where the source's conversions do; the loss counter wraps at 32
bits.

Where the code does not keep what its comments or its documentation say, the
exact condition is proved for all runs, with a run from a start that fails:

- The critical section is exclusive exactly when every step that clears `busy`
  without asking found the instrument free (`Critical.SectionIsExclusive`). One
  such step is `restore_idle`'s own late failure mark
  (`Critical.UnseenRestoreLosesTheSection`, reached by
  `Critical.RestoreIsReached`).
- A MARKET SELL is checked in one section and handed over in a later one that
  does not check again. T+1 holds exactly when what is handed over is still
  sellable then (`Settlement.SettlementHolds`), which it is as long as the flag
  stays up over every checked SELL (`Settlement.FlagKeepsFits`,
  `Settlement.ClearsWhenFreeSettles`); a feed failure in between lets two SELLs
  pass one check (`Settlement.TwoSellsPassOneCheck`). The odd remainder goes once
  on its own exact condition (`Settlement.OddRemainderGoesOnce`). Both are stated
  of every run from a start (`Settlement.FromAStart`,
  `Settlement.RemainderFromAStart`).
- No order outlives its day exactly when no start arms past the 14:57 of the date
  it swept on, and no checked order is handed over past a 14:57 whose alert has
  run (`DayLife.NoOrderOutlivesItsDay`; `DayLife.StartAcrossTheClose`,
  `DayLife.HandedAcrossTheClose`).
- What a crossing book still displays after it met the orders is exactly what the
  orders cancelled before it needed (`Matching.CrossingBooksAreExact`).
- A prompt reaches its runtime at most once exactly when none whose resolution
  was lost is handed over again before it is recovered or failed
  (`Dispatch.AtMostOnceExactly`); a lost resolution is only logged, and decides
  (`Dispatch.SettleDecides`). A failure is disclosed at most once all the same
  (`Dispatch.DisclosureAccounting`).
- A desk is announced ready only by its latest session exactly when that spawn
  neither overlaps a claim still to be recorded nor comes upon another directory
  the desk still awaits: a resume withdraws none
  (`Codex.SpawnAnnouncesItsOwnExactly`, `CodexAdapter.Inner.NextSpawnAnnouncesItsOwn`;
  `Codex.FreshSpawnOverlaps`, `Codex.ResumedDeskIsTakenOver`).
- `next_boundary_ns` is the next boundary exactly before the end of the signed
  nanosecond range (`Session.NextBoundaryExact`).
- The loss handler starts the control plane at most once between resets exactly
  up to 2^32 losses (`Codex.RestartBudget`), and it can discard a healthy client
  (`Codex.HandlerDiscardsHealthyClient`).
- The comment on `expired` says an order dated after now is not expired; after
  14:57 it is (`Session.ExpiredByDay`). The model follows the code.
- `Live::retried` never decides anything: it is set only on a session that
  resumed nothing, which the retry rule excludes already
  (`Activation.Dispatcher.Valid`).

## Model

| member | source | states |
|---|---|---|
| `Calendar.DaysRoundTrip` | crates/marketrig-acceptance/src/lib.rs:43-53 | For every integer day number the computed date is a date of the Gregorian calendar (month and day in range, leap rule included), and `shanghai_midnight_ms` arithmetic on it gives the day number back |
| `Calendar.DateRoundTrip` | crates/marketrig-acceptance/src/standin.rs:746-753 | For every calendar date of every year, days-to-date undoes date-to-days |
| `Calendar.DaysOfNext` | crates/marketrig-acceptance/src/standin.rs:747-753 | Date-to-days steps by exactly one along the independently defined Gregorian successor, across month, year, century and era ends |
| `Calendar.Successor` | crates/marketrig-acceptance/src/lib.rs:45-53 | Consecutive day numbers give consecutive calendar dates, anchored at 1970-01-01 |
| `Calendar.LaterIsAfter` | crates/marketrig-acceptance/src/lib.rs:45-53 | A later day number gives a later date |
| `Calendar.OrderIsDateOrder` | crates/marketrig-acceptance/src/lib.rs:45-53 | Day order and date order are the same order, both ways, and so is equality |
| `Calendar.WeekdayIsZellers` | crates/marketrig-acceptance/src/standin.rs:538-543 | Counting from the Thursday of day 0 gives every calendar date the weekday of Zeller's congruence |
| `CalendarText.FourDigitDays` | crates/marketrig-acceptance/src/standin.rs:517-519 | The days whose dates have a year from 0000 to 9999 are exactly one interval of day numbers |
| `CalendarText.ShanghaiDateIsCompact` | crates/marketrig-acceptance/src/standin.rs:517-519 | Cutting ten characters from the RFC 3339 text and dropping the dashes leaves year, month and day in fixed width |
| `CalendarText.CompactReadsBack` | crates/marketrig-acceptance/src/standin.rs:739-755 | Parsing a `yyyyMMdd` gives the Shanghai midnight of the very date it was written from, in milliseconds |
| `CalendarText.SecondRoundTrip` | crates/marketrig-acceptance/src/standin.rs:731-755 | From any second of years 0000-9999, writing its Shanghai date and reading it back gives that day's Shanghai midnight |
| `CalendarText.DateTextRoundTrip` | crates/marketrig-acceptance/src/standin.rs:737-755 | The midnight a date's text names is written as that same text |
| `CalendarText.CompactOrder` | crates/marketrig-acceptance/src/standin.rs:514-519 | Fixed-width texts compare, character by character, as their dates do |
| `CalendarText.TextOrderIsDayOrder` | crates/marketrig-acceptance/src/standin.rs:514-519 | For years 0000-9999 text order is day order and equal texts are equal days |
| `Session.DayOfSecond` | crates/marketrigd/src/cn.rs:70-80 | Every instant the daemon can hold, clamped to the signed range, has a Shanghai date with a four-digit year, the one the harness arithmetic gives |
| `Session.WeekdaysAgree` | crates/marketrig-acceptance/src/standin.rs:540-543 | The harness's weekdays are exactly the days the daemon does not treat as a weekend, at every instant |
| `Session.DateTextOrder` | crates/marketrigd/src/cn.rs:157-167 | Comparing two `yyyyMMdd` texts is comparing the Shanghai days, at every instant |
| `Session.ExpiredByDay` | crates/marketrigd/src/cn.rs:165-167 | An order has outlived its day exactly when its date is earlier or today's 14:57 has passed, the second even for an order dated later |
| `Session.StretchStatus` | crates/marketrigd/src/cn.rs:109-145 | The published status depends only on the weekday, on which of the five stretches between boundaries the time is in, and on readiness |
| `Session.InSessionIs` | crates/marketrigd/src/cn.rs:119-128 | In session exactly on a weekday in [09:30,11:30) or [13:00,14:57), to the nanosecond |
| `Session.NextBoundaryEndsStretch` | crates/marketrigd/src/cn.rs:1358-1366 | The next boundary is the end of the stretch its argument is in, tomorrow's 09:30 after the last |
| `Session.NextBoundaryPastHorizon` | crates/marketrigd/src/cn.rs:83-92 | From 14:57 of 2262-04-11 on, where the signed nanosecond range ends, the alert falls back to one day from now |
| `Session.NextBoundaryIsLeast` | crates/marketrigd/src/cn.rs:1358-1366 | No boundary of any day lies between an instant and its next boundary |
| `Session.NextBoundaryExact` | crates/marketrigd/src/cn.rs:1358-1366 | `next_boundary_ns` is the least boundary strictly after its argument if and only if the argument is before 14:57 of 2262-04-11 |
| `Session.SameStretch` | crates/marketrigd/src/cn.rs:1358-1366 | Up to the next boundary an instant stays in the same stretch of the same day, or in the closed stretch across midnight |
| `Instrument.StatusConstantBetweenBoundaries` | crates/marketrigd/src/cn.rs:356-362 | For fixed evidence the status read through `ready_at` is constant from an instant to the next boundary: across the break, midnight, weekends and the rollover of readiness, for every instant |
| `Instrument.EveryBoundaryChangesStatus` | crates/marketrigd/src/cn.rs:62-62 | For an instrument ready that weekday each of the four boundaries changes the status, so no alert could be dropped |
| `DayLife.EarlierCovered` | crates/marketrigd/src/cn.rs:1358-1366 | Whatever alert is armed comes no later than the 14:57 of the date of any later instant before it |
| `DayLife.SweepCovered` | crates/marketrigd/src/cn.rs:1439-1453 | What the sweep leaves is covered by the alert armed at the same reading of the clock |
| `DayLife.SweepLeaves` | crates/marketrigd/src/cn.rs:165-167 | and is dated today, before today's 14:57 |
| `DayLife.StepInv` | crates/marketrigd/src/cn.rs:1383-1454 | Every step that is not late (a clock step however far, a firing, a check, a hand-over, an acceptance, an end, a restart, an arming) keeps the armed alert no later than any live order's own 14:57 unless it is already due |
| `DayLife.LateBreaks` | crates/marketrigd/src/node.rs:571-627 | A late arming or hand-over always leaves an order past its day with no alert due |
| `DayLife.NoOrderOutlivesItsDay` | crates/marketrigd/src/cn.rs:1427-1454 | Over all runs, starts included: no live CN order is ever at or past 14:57 of its own Shanghai date without its alert due, if and only if no start armed past the 14:57 of the date it swept on with an order left, and no checked MARKET was handed over past a 14:57 whose alert had run |
| `DayLife.StartAcrossTheClose` | crates/marketrigd/src/node.rs:571-627 | Every start that leaves an order and arms at or after that 14:57 keeps the order live past its day |
| `DayLife.OrderLeftBeforeTheClose` | crates/marketrigd/src/node.rs:571-627 | There is such a start on every day: a sweep one nanosecond before its 14:57 |
| `DayLife.HandedAcrossTheClose` | crates/marketrigd/src/trade.rs:398-407 | And a run in which a MARKET checked before a weekday's 14:57 is handed over after its alert |
| `DayLife.OneFiringCatchesUp` | crates/marketrigd/src/cn.rs:1392-1408 | In any run, late steps included, one firing leaves no order past its day, each dated today, and the next alert ahead |
| `DayLife.WhatBecomesOf` | crates/marketrigd/src/cn.rs:1423-1460 | What each step does to an order: a hand-over and its acceptance date it now, its end takes it, a sweep takes it exactly when it is expired at the reading, nothing else touches it |
| `DayLife.OnlyItsEndOrASweep` | crates/marketrigd/src/cn.rs:1423-1460 | In every run an order leaves the desk only by its own end or by a sweep that finds it expired |
| `Catalog.BandHasRoom` | crates/marketrigd/src/catalog.rs:68-82 | For every positive reference and tick: `tick <= down < up`, `up >= reference + tick` and `down <= max(tick, reference - tick)` |
| `Catalog.BandMonotone` | crates/marketrigd/src/catalog.rs:68-82 | Both bounds are monotone in the reference |
| `Catalog.ChiNextEnclosesMain` | crates/marketrigd/src/catalog.rs:48-53 | The ChiNext band of a reference encloses the Main one |
| `Catalog.BandNearPercentage` | crates/marketrigd/src/catalog.rs:68-82 | Each bound is within half a tick of the exact percentage, unless a floor replaced it |
| `Catalog.BandOnGrid` | crates/marketrigd/src/catalog.rs:70-81 | A reference of whole ticks has bounds of whole ticks, which are given exactly, midpoints included |
| `Instrument.Inst.constructor` | crates/marketrigd/src/cn.rs:333-349 | A fresh instrument |
| `Instrument.Inst.Forget` | crates/marketrigd/src/cn.rs:366-370 | Discards every sample and no part of the gate |
| `Instrument.Inst.SetStatus` | crates/marketrigd/src/cn.rs:373-379 | Holds the status and answers it only when it changed |
| `Instrument.Inst.NextStamp` | crates/marketrigd/src/cn.rs:465-470 | A stamp at least the candidate and strictly above the last |
| `Instrument.Inst.RecordBaseline` | crates/marketrigd/src/cn.rs:474-481 | A LIMIT's baseline is the latest accepted observation |
| `Instrument.Inst.CheckReadiness` | crates/marketrigd/src/cn.rs:628-661 | The verdict, in the source's order of refusals, and the block a changed reference leaves until the next date |
| `Instrument.Inst.Rebase` | crates/marketrigd/src/cn.rs:593-602 | The loop keeps each resting order's baseline or gives it this observation's, and drops every other |
| `Instrument.Inst.ObserveItem` | crates/marketrigd/src/cn.rs:494-623 | The in-place observation equals the specification `Observe` in its whole new state and its plan |
| `Instrument.Inst.Accept` | crates/marketrigd/src/cn.rs:552-602 | The accepted observation: what it releases and every baseline after it |
| `Instrument.Inst.FailLocal` | crates/marketrigd/src/cn.rs:741-758 | Non-executable, paused, not busy, nothing remembered, stamped when the status changed |
| `Instrument.ObservationCounts` | crates/marketrigd/src/cn.rs:494-623 | An observation is counted, and the instrument trades, if and only if poll, evidence and an unmoved positive reference hold, the volume did not decrease and the instant is in session; nothing crosses otherwise; one that cannot be trusted or decreases leaves nothing remembered, one outside a session leaves all of it |
| `Instrument.ObservationGates` | crates/marketrigd/src/cn.rs:510-530 | Readiness holds exactly then, for today, with the reference's own band and the price a MARKET executes against; otherwise the first of the reasons, no band, and a block for the date when the reference moved |
| `Instrument.StampIsLeast` | crates/marketrigd/src/cn.rs:465-470 | A stamp is the least that is at least its candidate and above the last |
| `Instrument.CalendarOfTheDay` | crates/marketrigd/src/node.rs:1246-1258 | Yahoo's cycle makes the instrument ready on its own date exactly when the calendar passes it, and on no other date |
| `Sampling.StepInv` | crates/marketrigd/src/cn.rs:551-602 | No count goes with no previous volume, every baseline is bounded by the current one, and every live LIMIT has one |
| `Sampling.BaselinesReleaseAll` | crates/marketrigd/src/cn.rs:556-566 | Past bounded baselines the per-order sequence and volume test is the price test alone |
| `Sampling.ObservationAgrees` | crates/marketrigd/src/cn.rs:494-623 | One observation gives the plan and the next state of the rule without baselines |
| `Sampling.SampledFillRule` | crates/marketrigd/src/cn.rs:494-623 | Refinement: in every run in which each LIMIT admission records its baseline, with failures, switches, starts, boundary alerts and the other provider's cycles in between, the plans published are those of the simple rule that releases every compatible resting order when a trading observation's volume exceeds the preceding accepted one |
| `Sampling.StatesInv` | crates/marketrigd/src/cn.rs:551-602 | The invariant at every state of every run |
| `Sampling.WhereTheMarkComesFrom` | crates/marketrigd/src/cn.rs:592-592 | The standing volume was accepted in the run with nothing accepted or discarded since |
| `Sampling.ReEstablishment` | crates/marketrigd/src/cn.rs:510-567 | After any discard no crossing book appears before a second counted observation, both in a trading session, with strictly more volume than the first and nothing discarded between |
| `Sampling.WhatABaselineIs` | crates/marketrigd/src/cn.rs:476-484 | An order's baseline is the latest counted observation at its admission, or the first it rested at without one, until it is discarded or the order ends |
| `Sampling.MovedReferenceBlocksTheDate` | crates/marketrigd/src/cn.rs:626-668 | In every run, a reference that moved leaves every later observation of its date without a book, short of a switch or a restart |
| `Sampling.FailureForgetsTheReference` | crates/marketrigd/src/cn.rs:741-750 | A failed feed forgets the date's reference: after it only a standing block refuses another |
| `Matching.EnoughFillsAll` | crates/marketrigd/src/cn.rs:571-588 | Against a matcher taking orders in any order, a side with enough for its compatible orders fills each in full and keeps the rest; an empty side fills none |
| `Matching.NeedPermutes` | crates/marketrigd/src/cn.rs:571-577 | What a side needs does not depend on the queue's order |
| `Matching.SettledPermutes` | crates/marketrigd/src/cn.rs:571-577 | Nor do the orders it settles to |
| `Matching.SizedBookSettles` | crates/marketrigd/src/cn.rs:604-621 | A book sized with at least the needs settles exactly the compatible orders of its sides, in every priority order, and keeps the rest displayed |
| `Matching.Adds` | crates/marketrigd/src/cn.rs:571-577 | What a set of orders needs, and what it settles to, are sums over its orders, whatever the queue |
| `Matching.FilledExactly` | crates/marketrigd/src/cn.rs:556-567 | Filling a side at a price takes just the open BUYs whose limit is at least the price, or SELLs whose limit is at most it, and leaves every other as it is |
| `Matching.LeavingCommutes` | crates/marketrigd/src/trade.rs:460-497 | An order cancelled after some sides filled might as well have been cancelled before |
| `Matching.BooksSettle` | crates/marketrigd/src/cn.rs:604-621 | The crossing books met in turn, with any open orders cancelled before each and any priority order, fill every released order of an unsuppressed side that stays in full and no other, and each leaves displayed exactly what the orders gone by then needed of it |
| `Matching.ExcessIsTheCancelled` | crates/marketrigd/src/cn.rs:915-926 | So nothing stays displayed of a book exactly when no order it was sized for had been cancelled |
| `Matching.ShownSettles` | crates/marketrigd/src/cn.rs:907-937 | Published, each crossing book followed by its idle book, they settle the same, with cancels before any of what is published |
| `Matching.CrossingBooksAreExact` | crates/marketrigd/src/cn.rs:567-621 | In every run, for every matcher outcome and every cancel between the published books: an observation that counts, in session, with more volume than the mark fills every compatible resting order that stays in full, except on a side standing at its limit, and no other; any other observation fills nothing; what stays displayed is what the cancelled orders needed |
| `Matching.MarketIsLeftItsQuantity` | crates/marketrigd/src/cn.rs:1187-1210 | The sized book fills the compatible LIMITs first and leaves exactly the MARKET's quantity on the side it takes, nothing on the other, nothing on a side at its limit |
| `Matching.MarketAfterCancels` | crates/marketrigd/src/cn.rs:1187-1210 | And with LIMITs cancelled before that book meets the others, exactly what they needed is displayed besides |
| `Eligibility.SinceMidnight` | crates/marketrigd/src/cn.rs:102-104 | A past fill is at or after today's Shanghai midnight exactly when it is dated today |
| `Eligibility.StepInv` | crates/marketrigd/src/cn.rs:203-235 | Every fill, cancel and clock step, and every hand-over within what is sellable, keeps locked plus reserved within the position and every date's sales within its opening position |
| `Eligibility.OverReserving` | crates/marketrigd/src/cn.rs:203-235 | A hand-over of more than is sellable breaks it at once |
| `Eligibility.AdmittedExactly` | crates/marketrigd/src/cn.rs:1111-1161 | `check` admits if and only if: a weekday in [09:30,11:30) or [13:00,14:57), readiness that holds for that date, a price inside the band where there is one, and of a SELL a quantity within the sellable one that is a multiple of 100 or has its odd remainder |
| `Eligibility.RefusedFor` | crates/marketrigd/src/cn.rs:1111-1161 | Session, readiness, band, sellable and lot, in that order of refusal |
| `Settlement.SettlementHolds` | crates/marketrigd/src/trade.rs:358-407 | T+1 over whole runs of checks, hand-overs, fills, cancels and days through the critical section: locked + reserved within the position and each date's sales within its opening position, at every state, if and only if every SELL is still within what is sellable when it is handed over |
| `Settlement.EarlyAfter` | crates/marketrigd/src/trade.rs:358-403 | Just an admission with a sized book leaves a checked order to be handed over later, until it is or its book is not seen; an order asks until it is admitted or gives up |
| `Settlement.AdmissionAgreesWithCheck` | crates/marketrigd/src/cn.rs:1052-1070 | The wait for an admission answers with the readiness `check` will: what it lets through is never refused as unavailable, in session what it keeps out would be, and outside one only what was not ready at all is kept out |
| `Settlement.MarketFindsItsQuantity` | crates/marketrigd/src/cn.rs:1176-1210 | The book a MARKET is admitted with meets the LIMITs resting then and still displays just that MARKET's quantity on its side, or nothing where its side is at its limit |
| `Settlement.FlagStep` | crates/marketrigd/src/cn.rs:1047-1072 | While the busy flag is up over every checked SELL, what is handed over fits, and at most one is pending |
| `Settlement.FlagKeepsFits` | crates/marketrigd/src/cn.rs:1047-1072 | So every hand-over fits in every run in which no step lowers the flag over a checked SELL still to be handed over, and at its end at most one is pending and it fits |
| `Settlement.ClearsWhenFreeSettles` | crates/marketrigd/src/cn.rs:741-749 | In particular in every interleaving in which each feed failure, provider switch and late failure mark finds the instrument free |
| `Settlement.OthersTakeTheRoom` | crates/marketrigd/src/trade.rs:398-407 | From its check to its hand-over, whatever happens within the date but a cancel, a SELL still fits exactly when it and all handed over in between, fitting or not, are within what was sellable at its check |
| `Settlement.TwoSellsPassOneCheck` | crates/marketrigd/src/trade.rs:398-407 | A run from a desk that never traded in which a feed failure lets two SELLs be checked against the whole position: both are handed over, odd remainders too, and T+1 breaks exactly when together they exceed it |
| `Eligibility.SellableChanges` | crates/marketrigd/src/cn.rs:227-234 | Of any account: within a date and without a cancel, only a hand-over changes what is sellable, by its own quantity and down to nothing; a fill moves shares between terms |
| `Eligibility.SellableGrows` | crates/marketrigd/src/cn.rs:203-235 | A fill, a cancel and a new date never make less sellable |
| `Eligibility.WhatIsGivenBack` | crates/marketrigd/src/cn.rs:203-235 | A cancel gives back just what its order had reserved, a new date just what was bought on the old one |
| `Settlement.OddRemainderGoesOnce` | crates/marketrigd/src/cn.rs:1147-1159 | From any state, within a date and without a cancel: at every state at most one SELL handed over is not a whole multiple of 100, and after it the sellable quantity is, if and only if each SELL handed over is whole lots, or fits and takes the odd remainder of the sellable quantity then, or exceeds it with no odd one before |
| `Settlement.FlagKeepsWhole` | crates/marketrigd/src/cn.rs:1147-1159 | which each one is in every run in which no step lowers the flag over a checked SELL |
| `Settlement.FromAStart` | crates/marketrigd/src/trade.rs:358-407 | Of every run of a desk that never traded, under either provider: T+1 at every state if and only if every hand-over fits; it holds when no state leaves a checked SELL without the flag, and so when each blind clear finds the instrument free |
| `Settlement.RemainderFromAStart` | crates/marketrigd/src/cn.rs:1147-1159 | Of every such run, from any moment to the end of its date: with the flag kept and nothing cancelled, at most one SELL handed over is odd and it takes the whole remainder, if what was pending at that moment is still whole lots or the remainder |
| `TradingDay.MomentTogether` | crates/marketrigd/src/trade.rs:358-403 | Whatever `check` admits and the sections hand over is a step the day lifetime allows, orders, clock and all |
| `TradingDay.AdmittedOrdersKeepTheirDay` | crates/marketrigd/src/cn.rs:1111-1119 | So the day law is of the orders really admitted: in every run of checks and hand-overs through the critical section, with alerts in between, no live order is past its day exactly when no checked order is handed over past a 14:57 that had run |
| `TradingDay.StartTogether` | crates/marketrigd/src/cn.rs:1371-1400 | The two start together |
| `Critical.ExecuteSection` | crates/marketrigd/src/cn.rs:886-943 | A cycle on a free instrument ends free or with the poller holding the section |
| `Critical.FreeStep` | crates/marketrigd/src/cn.rs:1039-1083 | On a free instrument a step lets in at most its own actor |
| `Critical.HeldStep` | crates/marketrigd/src/cn.rs:857-875 | On a held instrument a step keeps the holder or is the holder leaving |
| `Critical.StepExclusive` | crates/marketrigd/src/cn.rs:857-943 | The flag is up exactly while one actor is in the section, kept by every step that does not clear it blindly |
| `Critical.BlindClearBreaks` | crates/marketrigd/src/cn.rs:741-749 | A feed failure, provider switch or late failure mark that finds the section held always breaks it |
| `Critical.SectionIsExclusive` | crates/marketrigd/src/cn.rs:857-943 | In every interleaving of cycles of either provider, LIMIT and MARKET admissions, alerts, failures and switches the section is exclusive throughout if and only if each blind clear found the instrument free |
| `Critical.OnlyTheHolderActs` | crates/marketrigd/src/cn.rs:866-868 | While a crossing or sized book stands nobody but its holder publishes a book, advances a baseline or hands an order over |
| `Critical.NoneJoins` | crates/marketrigd/src/cn.rs:857-943 | In every run whose clears find the instrument free, no order is admitted or handed over from the first of an observation's books to the idle book after the last |
| `Critical.HowTheSectionEnds` | crates/marketrigd/src/cn.rs:1003-1029 | Every section ends with its idle book seen or the instrument unready and paused, except an unseen MARKET restore, which is left to a later step |
| `Critical.StampsKeepIncreasing` | crates/marketrigd/src/cn.rs:465-470 | A step adds only stamps above every earlier one since the last reset |
| `Critical.StampsIncreaseBetweenResets` | crates/marketrigd/src/cn.rs:460-470 | So stamps strictly increase between resets in every run |
| `Critical.NoBookStandsUnguarded` | crates/marketrigd/src/cn.rs:886-943 | While every clear finds the instrument free, no crossing or sized book stands outside its section on an instrument that is trading, nor any at all under Yahoo |
| `Critical.SwitchForgets` | crates/marketrigd/src/cn.rs:802-841 | A provider switch is a start with the other provider: no calendar, no band, no price, nothing remembered |
| `Critical.ShutUntilACycle` | crates/marketrigd/src/cn.rs:741-758 | In every run an instrument left unready admits no order before another cycle of its provider |
| `Publication.PlanIsPublished` | crates/marketrigd/src/cn.rs:907-937 | From an observation to the end of its cycle, every publication seen and anything else in between: the poller publishes exactly the books of the plan in order, each crossing one followed by the idle book at its price |
| `Publication.CycleFillsExactly` | crates/marketrigd/src/cn.rs:886-943 | So what is published fills exactly the released orders that stay, in session, whatever the matcher and the cancels |
| `Publication.StatusFirstOrLast` | crates/marketrigd/src/cn.rs:886-906 | A plan's status goes out before its first crossing book, or after its idle one, and never otherwise |
| `Publication.StatusOnChangeOnly` | crates/marketrigd/src/cn.rs:773-781 | Every step publishes the instrument's status exactly when it changes it, once |
| `Publication.StatusIsPublished` | crates/marketrigd/src/cn.rs:773-781 | So in every run the status published last since the last reset is the one the instrument carries |
| `Publication.StampsArePublished` | crates/marketrigd/src/cn.rs:460-470 | In every run no stamp is taken but for what is published: the last stamp is that of the last book or status since the last reset |
| `Publication.SectionSamples` | crates/marketrigd/src/cn.rs:857-943 | The section runs the sampled-fill rule: what each of its steps does to the gate and the samples is that rule's step, a failed publication being a failed feed |
| `Publication.SectionKeepsBaselines` | crates/marketrigd/src/cn.rs:551-602 | So the bound by which a cycle's books are exact is kept by every step of the section |
| `Publication.HandedToItsOwnBook` | crates/marketrigd/src/trade.rs:398-407 | In every run whose clears find the instrument free, a MARKET is handed over while the last book published is its own |
| `Publication.WhereTheBookComesFrom` | crates/marketrigd/src/cn.rs:1176-1235 | And that book is the one sized in its own admission, at the last observation's price, for the LIMITs resting then and its own quantity |
| `Critical.UnseenRestoreLosesTheSection` | crates/marketrigd/src/cn.rs:1022-1027 | A concrete interleaving from every state with one MARKET restoring and another waiting: `busy` is released before the failure is marked, so the second enters, loses the flag to the mark, and the poller observes over its sized book |
| `Critical.FirstObservation` | crates/marketrigd/src/cn.rs:857-875 | A trusted observation in a session opens a fresh or recovered instrument and leaves it free |
| `Critical.RestoreIsReached` | crates/marketrigd/src/trade.rs:358-418 | The state that interleaving needs is reached by a run from a start |
| `Prompts.HeadPrompt` | crates/marketrigd/src/dispatch.rs:609-627 | The (created_at, id)-least QUEUED row of the desk, and none exactly when nothing waits |
| `Prompts.HeadInstant` | crates/marketrigd/src/dispatch.rs:748-753 | The earlier of now and the oldest waiting row |
| `Prompts.HeadIsFirst` | crates/marketrigd/src/dispatch.rs:609-627 | The head is the first of the one order the queue has |
| `Prompts.NewSessionHeadsTheQueue` | crates/marketrigd/src/dispatch.rs:739-758 | A new session's disclosure, present exactly when a failure is undisclosed, then its orientation, come first, and the whole older queue follows in its order |
| `Prompts.LatestSessionHeadsTheQueue` | crates/marketrigd/src/dispatch.rs:739-758 | After any number of new-session activations the latest disclosure and orientation head the queue in that order, then the earlier ones, then every older row in its own order; what was owed a disclosure still is |
| `Prompts.SettlingTheHead` | crates/marketrigd/src/dispatch.rs:661-702 | Resolving the head leaves the rest of the queue in order; a wait leaves all of it |
| `Dispatch.StepInv` | crates/marketrigd/src/dispatch.rs:334-386 | Every step with committed resolutions keeps the in-flight and at-most-once invariants |
| `Dispatch.AtMostOnce` | crates/marketrigd/src/dispatch.rs:334-386 | In every run whose resolutions commit, with crashes and recoveries anywhere, a prompt has at most one handoff that is not Waiting, and once that is settled it is not QUEUED |
| `Dispatch.AtMostOnceExactly` | crates/marketrigd/src/dispatch.rs:334-386 | In every run, lost resolutions included: no prompt reaches its runtime twice if and only if none whose resolution was lost is handed over again before a resolution of it commits, its queue is failed, or a recovery finds it attempted |
| `Dispatch.SettleDecides` | crates/marketrigd/src/dispatch.rs:366-385 | Once a runtime has taken a row it is never handed over again, however the run goes on and whatever was queued ahead of it meanwhile, if and only if its resolution commits |
| `Dispatch.FirstHandoff` | crates/marketrigd/src/dispatch.rs:334-366 | That state is reached from an empty store |
| `Dispatch.NeverWaitsAgain` | crates/marketrigd/src/session.rs:330-350 | A row that left QUEUED keeps its state through every later step, committed or not |
| `Dispatch.LostResolutionHandsOverTwice` | crates/marketrigd/src/dispatch.rs:382-385 | A resolution the store fails is only logged: the same prompt is then handed over again at once |
| `Dispatch.DisclosureAccounting` | crates/marketrigd/src/dispatch.rs:630-699 | Over every run, with crashes, failed reads and lost resolutions: a row is marked disclosed if and only if a recorded delivery named it; the recorded deliveries name disjoint rows and are of different rows; what a desk has still to disclose is exactly its FAILED rows none of them named, and the next disclosure names exactly those, or nothing when the read failed |
| `Dispatch.DeliveredExactly` | crates/marketrigd/src/dispatch.rs:674-699 | Over every run: a row is DELIVERED if and only if it was at the start or the run recorded its delivery |
| `Dispatch.WhatBecomesOf` | crates/marketrigd/src/dispatch.rs:674-735 | A row stops waiting just when its resolution commits, with the state and failure code of the adapter's answer, when its desk's queue is failed, with that code, or when a recovery finds it attempted |
| `Dispatch.WhatAStepAdds` | crates/marketrigd/src/dispatch.rs:739-780 | Every new row waits, unattempted and undisclosed; a new session's are a disclosure, exactly when a failure of the desk is undisclosed, and an orientation |
| `Dispatch.CrashTakesExactly` | crates/marketrigd/src/dispatch.rs:365-385 | In every run: a crash fails exactly the row in flight and those whose resolving or clearing unit was lost since, as handed over for all it knows; every other row keeps its state, and what waits can still be handed over |
| `Dispatch.WaitIsNoHandoff` | crates/marketrigd/src/dispatch.rs:365-370 | While those units commit nothing but the row in flight carries an attempt, so recovery never takes a wait for a handoff |
| `Activation.RunsConcatenate` | crates/marketrigd/src/dispatch.rs:543-576 | Runs of the delivery state machine compose |
| `Activation.DeliveryGoesOn` | crates/marketrigd/src/dispatch.rs:334-386 | The attempt, handoff and resolution units of one delivery are those three steps |
| `Activation.ActivationKeepsRows` | crates/marketrigd/src/dispatch.rs:739-758 | Heading the queue changes no row already there |
| `Activation.Dispatcher.constructor` | crates/marketrigd/src/dispatch.rs:125-139 | An empty dispatcher |
| `Activation.Dispatcher.Activate` | crates/marketrigd/src/dispatch.rs:153-246 | Answers as its guards order them; nothing but a started session leaves a mark; a New activation spawns once whatever its child reports meanwhile, and leaves a new session live, one that became ready, or an empty queue |
| `Activation.Dispatcher.Launch` | crates/marketrigd/src/dispatch.rs:178-244 | The spawn, the window that holds its child's events, and what they were |
| `Activation.Dispatcher.Spawns` | crates/marketrigd/src/dispatch.rs:178-225 | The spawn alone: what is reported meanwhile is held, and dropped when no row opens |
| `Activation.Dispatcher.Begin` | crates/marketrigd/src/dispatch.rs:196-244 | Row, live entry, closed window, then every held event handled in order |
| `Activation.Dispatcher.Open` | crates/marketrigd/src/dispatch.rs:196-237 | The process row and live entry agree; a new session alone heads the queue |
| `Activation.Dispatcher.HeadQueue` | crates/marketrigd/src/dispatch.rs:201-208 | The rows of a new session, as one step of the delivery state machine |
| `Activation.HearsWhatIsSaid` | crates/marketrigd/src/dispatch.rs:461-529 | What a session's reports make of it: ready exactly if it said so, the desk's pointer the last thread it named |
| `Activation.HowASessionOpens` | crates/marketrigd/src/dispatch.rs:168-240 | What a session resumes and opens as: the pointer unless it is to be new; not ready; its thread its row's and its desk's |
| `Activation.HowItHeadsTheQueue` | crates/marketrigd/src/dispatch.rs:196-208 | A new session's rows head the queue, a resumed one leaves it |
| `Activation.Dispatcher.Drain` | crates/marketrigd/src/dispatch.rs:241-243 | Every held event is handled, in order: without an exit among them the session, its row and its pointer are what they say; with one the session is gone; and no more is spawned than it still allowed |
| `Activation.Dispatcher.Buffered` | crates/marketrigd/src/dispatch.rs:249-255 | Takes and stops the desk's buffer |
| `Activation.Dispatcher.Handle` | crates/marketrigd/src/dispatch.rs:461-529 | Held while the spawn is in flight; otherwise readiness, pointer or exit, each changing only its desk |
| `Activation.Dispatcher.Discovered` | crates/marketrigd/src/dispatch.rs:483-500 | The thread becomes the desk's pointer, and its row's if that had none |
| `Activation.Dispatcher.MarkReady` | crates/marketrigd/src/dispatch.rs:474-482 | Both the live entry and the process row become ready |
| `Activation.Dispatcher.Ended` | crates/marketrigd/src/dispatch.rs:409-458 | The end of a never-ready, non-explicit session spawns at most one more and finishes with a New session running, with one having become ready, with no QUEUED prompt of the desk, or with the unit that was to fail them lost by the store; a ready or explicitly resumed one leaves the queue alone |
| `Activation.Dispatcher.Close` | crates/marketrigd/src/dispatch.rs:410-421 | The live entry is taken and its process row closed |
| `Activation.Dispatcher.Renew` | crates/marketrigd/src/dispatch.rs:438-458 | The unresumable retry, once, with the same endings; without a spawn the pointer is gone |
| `Activation.Dispatcher.Retried` | crates/marketrigd/src/dispatch.rs:444-458 | What follows it: the new session is marked retried, or the queue fails, or the store loses that unit; nothing else changes |
| `Activation.Dispatcher.MarkRetried` | crates/marketrigd/src/dispatch.rs:446-450 | Marks the retried session |
| `Activation.Dispatcher.Fail` | crates/marketrigd/src/dispatch.rs:705-735 | Every waiting row of the desk fails with the code in one unit and nothing waits, or the store loses the unit and nothing changes |
| `Activation.Dispatcher.Enqueue` | crates/marketrigd/src/dispatch.rs:760-780 | A producer's new row |
| `Activation.Dispatcher.DeliverHead` | crates/marketrigd/src/dispatch.rs:334-386 | Only the desk's head is handed over, once, and not when its attempt could not be recorded; a disclosure names the desk's undisclosed failures, or nothing when the read failed |
| `Activation.Dispatcher.Visit` | crates/marketrigd/src/dispatch.rs:293-331 | A pass hands over only on a ready session, activates only a waiting queue without one, and does nothing where nothing waits |
| `Activation.Dispatcher.ActivateForQueue` | crates/marketrigd/src/dispatch.rs:314-331 | What an activation for a queue comes to: failed as unavailable or as a failed spawn, left alone when the row was not opened, or a session that resumes the desk's pointer, or a new one that heads the queue, and hears what was reported |
| `Activation.Dispatcher.HandedOverOnce` | crates/marketrigd/src/dispatch.rs:334-386 | The object's whole history is a run of the delivery state machine, so no two of its handoffs that reached a runtime are of one prompt while resolutions commit |
| `Activation.Dispatcher.HandedOverOnceExactly` | crates/marketrigd/src/dispatch.rs:334-386 | And, whatever commits, exactly when none whose resolution was lost is handed over again before it is recovered or failed |
| `Activation.Dispatcher.DisclosedOnce` | crates/marketrigd/src/dispatch.rs:630-699 | Of the object, whatever commits or is read: its rows are disclosed exactly as its recorded deliveries name them, each by one |
| `Activation.Dispatcher.WaitingIsUnattempted` | crates/marketrigd/src/dispatch.rs:365-370 | Of the object: a waiting row carries an attempt exactly when its resolving or clearing unit was lost, and none while they commit |
| `Terminal.Socket.constructor` | src/composables/useTerminal.ts:171-172 | A socket's handlers start at offset zero with no replay |
| `Terminal.Viewer.constructor` | src/composables/useTerminal.ts:314-335 | A pane with its first socket |
| `Terminal.Viewer.Stop` | src/composables/useTerminal.ts:152-160 | No more of this stream and no reconnection |
| `Terminal.Viewer.Attach` | src/composables/useTerminal.ts:191-223 | The continuity check and what it fixes, as the specification |
| `Terminal.Viewer.Receive` | src/composables/useTerminal.ts:232-256 | The skip, the offsets and the bound, as the specification |
| `Terminal.Viewer.Parsed` | src/composables/useTerminal.ts:248-256 | Finishing a write gives its bytes back, and completes a replay only on the pane's own socket |
| `Terminal.Viewer.Closed` | src/composables/useTerminal.ts:258-276 | Final codes, and the one reconnection |
| `Terminal.Viewer.Timer` | src/composables/useTerminal.ts:272-275 | The delayed reopening of a pane not disposed |
| `TerminalStream.GreetingOk` | crates/marketrigd/src/terminal.rs:336-362 | An attachment is offered the ring exactly where the stream has it |
| `TerminalStream.UnseenContinues` | src/composables/useTerminal.ts:233-237 | What a frame adds starts where the pane stands and reaches the further of the two ends |
| `TerminalStream.MetaInv` | src/composables/useTerminal.ts:191-223 | Hearing an attachment's metadata keeps the invariant |
| `TerminalStream.DataInv` | src/composables/useTerminal.ts:232-256 | So does hearing a frame, wherever it was split |
| `TerminalStream.ProduceInv` | crates/marketrigd/src/terminal.rs:97-105 | So does new output, through the ring and to the current attachment |
| `TerminalStream.StepInv` | src/composables/useTerminal.ts:162-277 | So does every step of daemon and page |
| `TerminalStream.ExactlyOnce` | src/composables/useTerminal.ts:171-256 | In every run the pane has written exactly the contiguous slice of one stream from its first attach offset to `offset`, never falls behind its socket's offset, and `pending` is the unacknowledged bytes, at most 1 MiB |
| `TerminalStream.ContinuityIsLostExactly` | src/composables/useTerminal.ts:194-222 | A reattachment is refused if and only if the terminal is another or more than the 256 KiB ring was produced since the pane's last byte, and the pane then stops for good; otherwise it goes on where it was, or starts where the ring does, ready at once exactly when there is nothing to replay |
| `TerminalStream.FrameIsHeardExactly` | src/composables/useTerminal.ts:231-257 | In every run a frame ends the pane's socket if and only if what is unparsed with what the frame has past the pane's end is over 1048576 bytes; any other moves the pane to the further of the two ends, its stream written up to there and owed to the parser |
| `TerminalStream.ReadyWhenCaughtUp` | src/composables/useTerminal.ts:203-257 | In every run a pane is ready exactly when its socket's metadata and replay are heard and the replay is parsed, and then all its child had produced when the attachment was accepted is |
| `TerminalStream.CloseDecides` | src/composables/useTerminal.ts:258-276 | What a close does, by socket and code: 4404 and 4409 end the pane, 1000 and 4001 leave it, the first other reopens once |
| `TerminalStream.TimerOpens` | src/composables/useTerminal.ts:272-275 | The reopening's socket is the pane's own, unless the pane ended meanwhile |
| `TerminalStream.StoppedForGood` | src/composables/useTerminal.ts:152-160 | A pane that let its stream go with no reopening under way never has a socket again |
| `TerminalStream.DisposedForGood` | src/composables/useTerminal.ts:178-178 | A disposed pane hears nothing and opens nothing, for good |
| `TerminalStream.WhatIsOnTheWay` | crates/marketrigd/src/terminal.rs:336-362 | New output goes to the current attachment and no other, in its place; a greeting tells where the newest 256 KiB are and carries them |
| `TerminalStream.CurrentUntil` | crates/marketrigd/src/terminal.rs:336-362 | An attachment is current from its acceptance until another's, the child's end, or its being dropped |
| `TerminalStream.NeverAgainCurrent` | crates/marketrigd/src/terminal.rs:336-362 | One that is not is sent nothing more, ever |
| `TerminalStream.LetsGo` | crates/marketrigd/src/terminal.rs:107-125 | A dropped consumer, another viewer and the child's end let it go |
| `TerminalStream.ReconnectsOnce` | src/composables/useTerminal.ts:269-275 | However its sockets close, a pane opens at most two |
| `Codex.BudgetFrom` | crates/marketrigd/src/codex.rs:493-499 | From any counter value, the starts loss handlers make are the zeros the wrapping counter passes |
| `Codex.RestartBudget` | crates/marketrigd/src/codex.rs:493-503 | Between two resets, in every interleaving, loss handlers start the plane exactly when anything is lost, and at most once if and only if no more than 2^32 losses were counted |
| `Codex.SecondLossIsFinal` | crates/marketrigd/src/codex.rs:495-498 | Two counted losses since a reset leave the runtime unavailable |
| `Codex.DrainTellsEachOnce` | crates/marketrigd/src/codex.rs:474-491 | One loss tells every desk then live once and no other, and keeps every pointer |
| `Codex.AccountedStep` | crates/marketrigd/src/codex.rs:474-491 | Every terminal started is live, was told exited, or was dismissed by an exit or a later spawn |
| `Codex.ExitsAreAccounted` | crates/marketrigd/src/codex.rs:474-491 | So no run reports a terminal's end twice, or one that an exit already took away |
| `Codex.PointersSurvive` | crates/marketrigd/src/codex.rs:474-503 | Only a spawn of the desk or its own claimed thread changes its pointer; losses, restarts, exits and broadcasts never do |
| `Codex.ReadyOnce` | crates/marketrigd/src/codex.rs:447-463 | Between two readiness clears of a desk it is announced at most once, exactly when it becomes ready |
| `Codex.ReadyIsItsOwnThread` | crates/marketrigd/src/codex.rs:447-457 | Only an `idle` of the thread a desk points at announces it; and it does, when no other desk points there |
| `Codex.ReadyUntil` | crates/marketrigd/src/codex.rs:447-463 | A desk is ready from an idle of its thread until a spawn or an exit of it, or a loss |
| `Codex.AwaitedUntil` | crates/marketrigd/src/codex.rs:400-403 | A directory is awaited from a new session's spawn there until its thread is claimed, its desk exits, a loss, or another spawn there |
| `Codex.StatusUntil` | crates/marketrigd/src/codex.rs:447-452 | A thread's status is the one last reported, forgotten when it is resumed |
| `Codex.LiveUntil` | crates/marketrigd/src/codex.rs:690-695 | A terminal is live from its spawn's end until its exit or a loss |
| `Codex.WhatIsTold` | crates/marketrigd/src/codex.rs:463-468 | Each system error of a desk's thread raises attention to it, once, and nothing else does; a recorded claim tells of its thread, once |
| `Codex.UnavailableUntil` | crates/marketrigd/src/codex.rs:493-503 | The runtime is unavailable from a second counted loss or a loss handler's failed start until a reset |
| `Codex.StartUntil` | crates/marketrigd/src/codex.rs:198-208 | The control lock, the slot and the connections: whose start it is, with which new connection, and what it leaves |
| `Codex.EachLossIsHandledOnce` | crates/marketrigd/src/codex.rs:325-327 | In every run each dropped connection is drained once and counted once |
| `Codex.ReadyIsLatestSpawns` | crates/marketrigd/src/codex.rs:400-463 | In every run from a fresh adapter in which no spawn of the desk begins upon a claim of the desk still to be recorded or upon another directory the desk still awaits, every readiness of the desk is for the thread its latest spawn resumed or one claimed through the directory that spawn awaits |
| `Codex.SpawnAnnouncesItsOwnExactly` | crates/marketrigd/src/codex.rs:659-674 | And exactly: in any state whatever, a spawn announces only its own threads, however it goes on, if and only if every claim of the desk still to be recorded is of the thread it resumes and the desk awaits a thread nowhere but where the spawn will |
| `Codex.SupersededThreadAnnounces` | crates/marketrigd/src/codex.rs:400-415 | The continuation of every overlapping spawn that announces it by the session it replaced |
| `Codex.StaleThreadAnnounces` | crates/marketrigd/src/codex.rs:659-674 | The continuation of every spawn over another awaited directory that announces it by any thread started there |
| `Codex.ResumedDeskIsTakenOver` | crates/marketrigd/src/codex.rs:659-674 | A run from a fresh adapter: a spawn whose thread never started, then a resume, which overlaps no claim; the thread that starts in the first one's directory becomes the desk's pointer and announces it |
| `Codex.FreshSpawnOverlaps` | crates/marketrigd/src/codex.rs:400-415 | An overlapping spawn is reached from a fresh adapter |
| `Codex.DroppedStaysDown` | crates/marketrigd/src/codex.rs:198-208 | Until some start succeeds, a dropped slot never holds a live client |
| `Codex.HandlerDiscardsHealthyClient` | crates/marketrigd/src/codex.rs:492-500 | A caller's restart that beats the loss handler to the control lock has its healthy client discarded and the restart budget spent |
| `Codex.FreshClient` | crates/marketrigd/src/codex.rs:198-208 | The state that run needs is reached from a fresh adapter |
| `CodexAdapter.Inner.constructor` | crates/marketrigd/src/codex.rs:158-187 | A fresh adapter |
| `CodexAdapter.Inner.AnnouncedOnce` | crates/marketrigd/src/codex.rs:447-463 | Of the object, since any moment of its life: a desk not cleared was announced at most once, exactly if it became ready |
| `CodexAdapter.Inner.RestartedOnce` | crates/marketrigd/src/codex.rs:493-503 | Of the object, since its last reset: its loss handlers started the plane exactly if anything was lost, at most once up to 2^32 losses |
| `CodexAdapter.Inner.TerminalsAccounted` | crates/marketrigd/src/codex.rs:474-491 | Of the object: every terminal it started is live, was told exited once, or was dismissed |
| `CodexAdapter.Inner.AnnouncesItsOwn` | crates/marketrigd/src/codex.rs:400-463 | Of the object: every readiness it announced was of the desk's latest spawn, while no spawn came upon a claim or an awaited directory of an earlier one |
| `CodexAdapter.Inner.NextSpawnAnnouncesItsOwn` | crates/marketrigd/src/codex.rs:659-674 | Of the object, whatever it has been through: its next spawn of a desk is announced only for its own threads, however it goes on, if and only if no claim of the desk is still to be recorded but of the thread it resumes, and `awaiting` holds the desk under no directory but the one it is to be awaited in |
| `CodexAdapter.Inner.ThreadStarted` | crates/marketrigd/src/codex.rs:392-421 | The frame is a claim, a record and a report, in that order, each only when it applies |
| `CodexAdapter.Inner.Take` | crates/marketrigd/src/codex.rs:400-403 | The claim section |
| `CodexAdapter.Inner.Record` | crates/marketrigd/src/codex.rs:404-414 | The record section and its event |
| `CodexAdapter.Inner.Report` | crates/marketrigd/src/codex.rs:447-469 | The status section and what it emits |
| `CodexAdapter.Inner.Remember` | crates/marketrigd/src/codex.rs:447-468 | The status, the ready set and what is emitted, all of it |
| `CodexAdapter.Inner.DeskOf` | crates/marketrigd/src/codex.rs:100-105 | Some desk that maps to the thread, none exactly when no desk does |
| `CodexAdapter.Inner.BeginSpawn` | crates/marketrigd/src/codex.rs:659-674 | The section a spawn begins with, as one step |
| `CodexAdapter.Inner.Forget` | crates/marketrigd/src/codex.rs:659-674 | The pointer, status, readiness and awaited directory a spawn leaves |
| `CodexAdapter.Inner.EndSpawn` | crates/marketrigd/src/codex.rs:690-695 | The terminal becomes live |
| `CodexAdapter.Inner.LeaveDesk` | crates/marketrigd/src/codex.rs:789-797 | An exit clears readiness, liveness and what the desk awaits, never its pointer |
| `CodexAdapter.Inner.DrainLive` | crates/marketrigd/src/codex.rs:474-491 | The drain section of a loss handler |
| `CodexAdapter.Inner.TakeLive` | crates/marketrigd/src/codex.rs:475-480 | What the drain takes and clears |
| `CodexAdapter.Inner.TellExited` | crates/marketrigd/src/codex.rs:484-491 | The loop emits exactly one exit a drained desk |
| `CodexAdapter.Inner.CountLoss` | crates/marketrigd/src/codex.rs:493-498 | The count section, and whether it starts the plane |
| `CodexAdapter.Inner.ResetFailures` | crates/marketrigd/src/codex.rs:755-757 | Clears the count and the row it came from |
| `CodexAdapter.Inner.Dropped` | crates/marketrigd/src/codex.rs:325-327 | A connection's reader ends |
| `CodexAdapter.Inner.FindClient` | crates/marketrigd/src/codex.rs:198-208 | The live client in the slot, or the beginning of a start |
| `CodexAdapter.Inner.Connected` | crates/marketrigd/src/codex.rs:290-330 | A start's connection, its reader running |
| `CodexAdapter.Inner.FinishStart` | crates/marketrigd/src/codex.rs:204-207 | The start's client in the slot, or the runtime unavailable when a loss handler asked |

## Left out

- HTTP routes, the generated client, the desktop shell, the CLI and the MCP adapter: plumbing.
- SQLite, process spawning, PTYs, WebSockets, xterm, NautilusTrader and chrono-tz are abstract: rows, steps, a matcher and a flat UTC+8 without the daylight saving Shanghai had before 1992.
- Exact decimals are integers in one unit: the 28-digit limit of the source's decimals is not modelled.
- `ts_last + 1`, `at_ns + one day` and the offsets of a stream do not overflow: instants and offsets are unbounded.
- The 2 s confirmations and the 30 s and 120 s waits are steps that may happen at any time.
- CalendarText.TextOrderIsDayOrder: years 0000 to 9999 only, where the text is eight characters; every instant of the daemon is within them.
- DayLife.NoOrderOutlivesItsDay: a cancel is atomic and the clock never steps back; between an alert coming due and its callback an order may still be live.
- Critical.SectionIsExclusive: a node that dies with a book up is not modelled; nor is the cached quote itself, only whether a wait saw it.
- Critical.StampsIncreaseBetweenResets: nothing across a provider switch, which drops the last stamp; the idle book a switch publishes is part of the step that drops it.
- Sampling.SampledFillRule: a run's resting orders are those admitted and restored in it; volumes are non-negative.
- Matching.CrossingBooksAreExact: no order joins between the books of one observation, as none can while every clear finds the instrument free (`Critical.NoneJoins`); what each fill is priced at is not modelled.
- Settlement.OddRemainderGoesOnce: within one date and without a cancel; a cancel or a new date gives shares back, odd remainder included.
- Settlement.SettlementHolds: one long position an instrument; orders the venue rejects after the hand-over are cancels.
- Dispatch.AtMostOnce: routes that touch a desk while its delivery is in flight are not modelled; reads of the head and the desk that fail leave a pass without effect, and the read of what to disclose is a step's input.
- Activation.Dispatcher.Activate: no second activation of the desk runs concurrently, one runtime a desk, and reads of the store succeed.
- Activation.Dispatcher.Ended: a stale exit is handled as the current session's, as in the code.
- Activation.Dispatcher.Visit: one desk of a pass; readiness deadlines are exits.
- Prompts.NewSessionHeadsTheQueue: identifiers are numbers in one order; the text of a rendering is not modelled.
- TerminalStream.ExactlyOnce: input, resizing, the caret on ConPTY and the lines a handler writes about itself are not part of the stream.
- Codex.ExitsAreAccounted: in which order one section's events are sent, the app-server process, its token and its files are not modelled.
- Codex.SpawnAnnouncesItsOwnExactly: a thread is the spawn's when it is the one resumed or was claimed through the directory the spawn awaits; which process started it there is not modelled, nor does the broadcast say.
- Codex.RestartBudget: a retry clears the row and the count in one step; quitting is a drop.
- `execute`, `admit`, `confirm` and `restore_idle` wait between their sections: `Critical` makes each section one step on values, and the waiting loops are steps that may or may not come.
- One instrument at a time: the per-instrument map of `CnExec`, and the loops that visit every instrument, desk or order of a map, are functions on values.
- Codex `error` broadcasts, which only raise attention.
- Per-order share caps, which are a table; the desk's execution view, which reads what is modelled; and the quotes Yahoo's cycle publishes, which size nothing.
- The delivery gate of each runtime, turn listing and interruption: calls out of the modelled state.
