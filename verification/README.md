# Verified model of the matching backend

This project models the order-matching protocol of the matching backend and the exact arithmetic
that feeds it, and proves what the two promise. `dafny verify dfyconfig.toml` checks everything.

## The system

Signed limit orders live in one table. A row is `active`, `matching` (reserved by a matcher),
`filled`, `cancelled` or `expired`. API calls create and cancel rows; expiry sweeps them. A matcher
polls each market: in one transaction it expires old rows, reserves the best bid and the best ask,
then checks that they cross, takes the smaller remaining amount as the fill, converts price and fill
into the units the two owners signed, submits to an executor, and either records the trade (both
fills and one trade row, atomically) or gives the pair back. The chain behind the executor caps
every signed order at its signed amount and refuses a match that would pass a cap; the matcher takes
that one refusal as a sign that the fill is already on chain and records it.

| file | what it holds |
|---|---|
| Orders, Repository | the transactions as functions on the table, and the class whose loops carry them out in place |
| MatchRules, Admission, TradeData | the matcher's decision, unit conversion, the checks at order entry, the signed payload |
| DecimalText, Pricing, SpotContract, SpotEntry, SpotAdmission | decimal text, the tick converter, the spot contract and its tolerance, and a spot order's way from the UI to its row and back |
| Protocol, Ticks, Engine | the transition system for any number of matchers, its steps in closed form, and the engine class whose ticks are runs of it |
| Runs, Solo, ExactlyOnce, Recovery | what holds after every run, with one matcher, and across lost replies in calm runs |
| Backing, Displaced | exactly when a trade row has its match on chain, without assuming calm |
| Drain, GoodTick, DrainRuns | what one tick in good weather does, and ticking a static book to quiescence |
| Counterexamples | runs that show the assumptions are needed |

In the transition system every label carries the environment's choices (which of several equal heads
the database returns, whether a submission arrives and whether its reply does, whether each store
call works, whether the word of a commit gets through, whether a matcher forgets its tick), so a run
is a list of labels and a statement about runs covers every interleaving. The history fields of a
state (rows as created, matches on chain, the match behind each trade row) are read by no step of the
API or the matcher except through the chain's own cap.

## What the proofs turned up

- A trade row can lack a match on chain, and exactly when is known: a submission is delivered whose own
  match is not waiting to be recorded, and whose fill exceeds what the waiting matches leave of one of
  its two orders (`Backing.RecordingIsBackedIff`; read off the chain and the trade rows alone,
  `Backing.MisledOnChain`). The matcher takes the chain's refusal, meant for the waiting match, for its
  own. So after a lost reply a newcomer ahead of one of the two orders, or the cancel or expiry of one
  of them, does harm exactly when the two fills together do not fit the order that stays
  (`Displaced.ArrivalAhead`, `Displaced.PartnerLeaves`).
- Calm around reserved and unrecorded orders is enough for exactly-once recording, but calm from the
  submission on is not: one unfilled order at a time of its own, arriving between reservation and
  submission of an otherwise calm run, is (`Counterexamples.ArrivalBeforeSubmission`).
- Reservations carry no owner and a failed match is released twice, so with two matchers or more one
  can lose its pair after it was executed (`Counterexamples.SecondMatcherLosesReservation`). Recordings
  never fail in the store exactly when there is at most one matcher. Conservation, the signed budget
  and trade validity hold for any number of matchers all the same.
- An order created with nothing left to fill stays active and, once it is a crossing head, stalls its
  market (`GoodTick.FullHeadStalls`); it is never marked filled (`Runs.FilledIff`).
- An order admitted through the compatibility branch of the action check can never be executed
  (`Admission.CompatibleNeverExecutes`).
- A payload that begins with `0X` is admitted by the API and unreadable to the matcher
  (`TradeData.UpperPrefixDiverges`).
- The spot round trip can lose a millionth once size times price passes the stated limit
  (`SpotContract.RoundTripFailsBeyondLimits`); exactly when is `SpotContract.RoundTripIff`.

## Model

| member | source | states |
|---|---|---|
| Runs.Conservation | internal/orders/repository.go:742-813 | after any run with any number of matchers, every order's filled amount is its amount at creation plus the sizes of the trade rows naming it, never above desired, and its other columns are those of the create call it came from |
| Runs.BirthsAreCreations | internal/orders/repository.go:142-217 | a birth record is the order of some create step of the run and never changes |
| Runs.SignedBudget | internal/matching/trade_units.go:78-104 | the executor units of an order's recorded matches are exactly its signed amount times its share filled since creation, never above the signed amount, and equal to it when an order created unfilled is filled |
| Runs.TradesAreValid | internal/matching/engine.go:117-131 | every trade row pairs a buy and a sell of its market, has positive size, a maker no later than the taker, and the maker's price, which lies between the two limits |
| Runs.StatusMachine | internal/orders/repository.go:714-786 | in every reachable state, whatever happens next moves each row along active to matching, cancelled or expired and matching to active or filled, changes no other column, and adds fills only to reserved rows |
| Runs.TerminalRowsAreFrozen | internal/orders/repository.go:714-786 | along any run a filled, cancelled or expired row never changes again |
| Runs.FilledIff | internal/orders/repository.go:756-771 | an order is marked filled exactly when it was created with room and has used all of it |
| Runs.ReservationHasPriority | internal/orders/repository.go:663-712 | whatever is reserved is an active bid and ask of the market, both expiring later than now and the taker created no earlier than the maker; no active order of their sides has a higher bid or a lower ask, and none at the same price was created earlier |
| Runs.QuiescenceIff | internal/orders/repository.go:676-684 | a tick finds a side empty or its pair uncrossed exactly when no resting bid and ask of the market, after expiry, cross |
| Runs.CreateMeans | internal/orders/repository.go:142-217 | a create step appends the order as active unless its id, or its nonce with the same owner, is taken |
| Runs.CancelAndExpireMean | internal/orders/repository.go:219-254 | a cancel step turns exactly the active order of that owner and nonce into a cancelled one, an expiry step exactly the active orders whose expiry has come into expired ones; reserved orders are spared |
| Runs.NeverStuck | internal/matching/engine.go:37-91 | no state blocks a matcher: an idle one can poll any market at any time, one inside a tick can always take its next step, whatever becomes of the submission or the store call, and API calls are always possible |
| Runs.TickEnds | internal/matching/engine.go:55-254 | however other callers and matchers interleave, a tick ends after at most four more of its own steps |
| Protocol.StepKeepsInv | internal/matching/engine.go:55-254 | the invariant of rows, trades and matchers is kept by every step of any API caller or matcher, failures included |
| Protocol.RunKeepsInv | internal/matching/engine.go:37-53 | hence by every run |
| Protocol.RecordEffect | internal/orders/repository.go:449-480 | a recording that succeeds found both orders reserved with room, fills those two rows and appends one trade row |
| Solo.StepKeepsReservations | internal/orders/repository.go:219-254 | with one matcher no cancel, expiry, creation or other step touches a reserved pair before its matcher finalises or releases it |
| Solo.ReservedPairIsStable | internal/orders/repository.go:731-740 | in every reachable state of one matcher both rows of its pair are reserved and as it read them, until it starts to release |
| Solo.FinalizeNeverFails | internal/orders/repository.go:742-786 | after any run with one matcher a finalise with a working database succeeds: never an overfill, never a row that left its reservation |
| ExactlyOnce.StepKeepsOnce | internal/matching/engine.go:179-230 | under calm, every step keeps the account: matches on chain are those recorded plus those pending, each pending pair heads its book or is reserved, and the matcher's own pair is clear of all others |
| ExactlyOnce.CalmMeans | internal/orders/repository.go:663-712 | calm in columns: a new order is unfilled, of a time of its own, and behind every reserved or waiting order of its market and side by price or, at the same price, by time; an order of an unrecorded match is not cancelled and does not expire |
| Recovery.RefusalMeansExecuted | internal/matching/engine.go:327-334 | along every calm run the chain refuses a submission exactly when that very match is already executed and not yet recorded |
| ExactlyOnce.Repicked | internal/orders/repository.go:663-684 | a released unrecorded match is exactly the pair the next tick of its market reserves |
| Recovery.NextTickRecords | internal/matching/engine.go:179-209 | after every calm run, once the two orders of an unrecorded match are back in the book, any calm tick of their market picks this pair, is refused, and records the missing trade without executing anything |
| Recovery.ExactlyOnceRecording | internal/matching/engine.go:179-230 | after every calm run the chain has matched no pair twice and its matches are exactly those with a trade row and those still unrecorded, whatever replies were lost and store calls failed |
| Backing.RecordingIsBackedIff | internal/matching/engine.go:179-230 | in any run of one matcher over orders created unfilled, up to the first trade row without a match: a delivered submission, whatever API calls follow, is recorded as a trade whose match is on chain exactly unless its own match was not among the unrecorded ones and its fill exceeds what those leave of one of its orders |
| Backing.BackedWhileNotMisled | internal/matching/engine.go:327-334 | while no such submission is delivered, every trade row has its match, calm or not |
| Backing.UnbackedForever | internal/orders/repository.go:788-813 | a trade row without its match is never made good by later steps |
| Backing.RefusedExactly | internal/matching/trade_units.go:78-104 | the chain refuses a submission exactly when its fill exceeds what the unrecorded matches leave of the taker or of the maker |
| Backing.MisledOnChain | internal/matching/engine.go:327-334 | the failing case read off the chain and the trade rows: every copy of the match has its row, and the fill would take the fills on chain of one order past its desired amount |
| Backing.CalmIsNeverMisled | internal/matching/engine.go:179-230 | calm runs never meet that case, so their rows all have their matches |
| Displaced.TickBackedIff | internal/matching/engine.go:93-230 | the same for one whole tick from any idle state: exactly which ticks record a trade that has its match |
| Displaced.ArrivalAhead | internal/orders/repository.go:663-712 | after a newcomer ahead of one order of a released unrecorded match, the next tick pairs it with the other order, and the trade recorded has its match exactly when the two fills together fit that order |
| Displaced.PartnerLeaves | internal/orders/repository.go:219-254 | after a cancel or expiry of one order of such a match, the trade the next tick records has its match exactly when the two fills together fit the order that stayed |
| Recovery.ChainNoRepeats | internal/orders/repository.go:742-786 | because every recorded match fills one of its orders, recorded, pending and executed matches each name a pair at most once |
| Counterexamples.ArrivalBeforeSubmission | internal/matching/engine.go:93-179 | a run of one matcher that is calm but for one arrival, of an unfilled order at a time of its own between reservation and submission, and that ends with a trade row whose match never happened |
| Counterexamples.SecondMatcherLosesReservation | internal/orders/repository.go:426-443 | for every number of matchers from two up, a run in which the first matcher's second release frees the two rows the second has reserved, the second executes exactly that pair on chain, and its recording fails although the database works |
| Counterexamples.RecordingsNeverFailIff | internal/orders/repository.go:449-480 | recordings never fail in the store, in any run, exactly when there is at most one matcher |
| Drain.DrainVolume | internal/orders/repository.go:676-684 | however ties are broken, draining a book trades in total exactly the maximum over prices of the smaller of bids at or above and asks at or below |
| Drain.MatchVolume | internal/matching/engine.go:98-131 | one best-pair match lowers that maximum by exactly its fill |
| Drain.MatchFillsOne | internal/orders/repository.go:756-771 | each match fills at least one of its two orders and shrinks the book |
| Drain.DrainTerminates | internal/orders/repository.go:756-771 | at most bids plus asks minus one matches, none if a side is empty |
| Drain.DrainExists | internal/orders/repository.go:663-712 | every book can be drained to a state without crossing orders |
| DrainRuns.RunVolume | internal/matching/engine.go:55-254 | any undisturbed run of one matcher from a reachable static book records at most bids plus asks minus one trades; once it has polled the market as often as there were bids and asks nothing crosses any more, and the sizes recorded sum to exactly that maximum |
| DrainRuns.PollsDrain | internal/matching/engine.go:37-53 | every undisturbed run, however ties are broken, is quiescent after as many polls as there were bids and asks |
| DrainRuns.DrainMarket | internal/matching/engine.go:37-53 | the engine's own loop, polling a static market in good weather that often, leaves nothing crossing and has recorded exactly that maximum |
| DrainRuns.RunDrains | internal/matching/engine.go:55-254 | such a run is a sequence of best-pair matches with one trade row each, of those sizes |
| DrainRuns.RunReachesQuiescence | internal/matching/engine.go:37-53 | such runs exist: from every static book an undisturbed run leads to quiescence |
| GoodTick.RecordingTick | internal/matching/engine.go:93-241 | crossing, convertible heads with room are submitted, accepted and recorded for the smaller remainder, and the matcher is idle again |
| GoodTick.TickRecordsIff | internal/matching/engine.go:126-241 | on crossing, convertible, unexpired heads any whole good-weather tick records a trade exactly when both heads have room, and otherwise does nothing but expire |
| DrainRuns.FirstTick | internal/matching/engine.go:55-254 | inside an undisturbed run every tick either matches a best pair or finds nothing crossing and leaves the state as it was |
| GoodTick.InStepAccepts | internal/matching/engine.go:179-214 | while the chain has carried out exactly what is recorded it refuses no submission |
| GoodTick.FullHeadStalls | internal/matching/engine.go:131-145 | two crossing heads of which one has nothing left are reserved and released with no change but expiry |
| DrainRuns.GoodWeatherIsUndisturbed | internal/matching/engine.go:37-53 | the engine's own ticks of one market, with replies and store calls working, are such a run |
| MatchEngine.Engine.TickInstrument | internal/matching/engine.go:55-254 | a tick without interference polls its market once and is a run of the protocol from idle to idle with exactly the failures it met; it asks the executor for at most one match, exactly if the run submits, and then at the price the maker signed, no worse than the taker signed, for the smaller remainder in the proportion each signed, before either expires |
| MatchEngine.Engine.SubmitAndRecord | internal/matching/engine.go:179-241 | submit, then record or mark failed, is the protocol's run from submission to its end, asks the executor for that price and amount once, and says whether the pair is still to be released |
| MatchEngine.Engine.Run | internal/matching/engine.go:37-53 | the polling loop is a protocol run that polls the given markets in order, and everything it asks the executor keeps to what the two owners signed |
| MatchEngine.Executor.SubmitMatchForMarket | internal/matching/executor.go:73-137 | the environment: a submission, noted with its price and amount, is carried out, refused by a cap, lost on the way, or its reply is lost |
| MatchEngine.SubmissionKeepsSigned | internal/matching/engine.go:117-179 | whatever is decided to be submitted carries the price the maker signed, no worse than the taker signed, and the smaller remainder in the proportion each owner signed |
| Store.Repository.Create | internal/orders/repository.go:142-217 | appends the order as active, or reports a duplicate key and changes nothing |
| Store.Repository.CancelByOwnerNonce | internal/orders/repository.go:219-254 | cancels the owner's active order under the nonce and returns it, or reports that there is none |
| Store.Repository.ExpireOrders | internal/orders/repository.go:482-496 | a row ends expired exactly if it was, or was active with an expiry of now or earlier; nothing else changes |
| Store.Repository.LockBestBySide | internal/orders/repository.go:663-712 | returns an active row of the market and side such that no active row there has a higher bid or lower ask, and none of the same price an earlier creation; none exactly if none is active there |
| Store.Repository.ReserveOrders | internal/orders/repository.go:714-729 | reserves the named active rows and reports success exactly when they are two |
| Store.Repository.AcquireMatchCandidate | internal/orders/repository.go:361-424 | expires, then hands out and reserves a pair exactly when both sides have an active order: a bid and an ask of the market that expire later than now, the later one taking, neither preceded by an active order of its side in price or, at the same price, in time |
| Store.Repository.ReleaseMatch | internal/orders/repository.go:426-439 | returns exactly the named reserved rows to the book |
| Store.Repository.ApplyFill | internal/orders/repository.go:742-786 | fills a reserved row or reports why not and changes nothing |
| Store.Repository.FinalizeMatchWithPrice | internal/orders/repository.go:449-480 | both fills and the trade row, or nothing at all |
| Orders.FinalizeIff | internal/orders/repository.go:449-480 | a finalise succeeds exactly when both orders are reserved, distinct and have room, and then adds the size to those two rows, marks each filled if that uses it up and active if not, appends the trade row, and changes nothing else |
| Orders.FinalizeErrors | internal/orders/repository.go:742-786 | which error it reports: the taker first, its reservation before its room |
| Orders.FinalizeRows | internal/orders/repository.go:742-752 | whatever ids are named, a successful finalise named two distinct reserved rows |
| Orders.CreateIff | migrations/000001_create_active_orders.up.sql:1-23 | create refuses exactly the orders whose id, or whose owner's numeric nonce, is taken, which are those that would break the primary key or the unique index, and appends any other as active |
| Orders.CancelIff | internal/orders/repository.go:219-254 | a cancel takes exactly one active order out of the book, and fails on a reserved or finished one |
| Orders.ChoiceIgnoresOrder | internal/orders/repository.go:815-826 | which order takes does not depend on the side named first: it is the one created later, and of two created at once the one whose id comes later in dictionary order |
| Orders.StringAfterIff | internal/orders/repository.go:815-826 | the comparison of ids is dictionary order |
| MatchRules.CrossesIff | internal/matching/engine.go:264-282 | whichever order takes, a bid and an ask cross exactly when the bid is at or above the ask |
| MatchRules.ConversionIff | internal/matching/trade_units.go:27-118 | for a crossing pair at the maker's ticks and the smaller remainder, the remaining-amount and signed-limit checks never fail, and conversion succeeds exactly when both actions decode, match and share one price scale and one amount scale, by which it multiplies |
| MatchRules.UnitsIff | internal/matching/trade_units.go:27-118 | at any price and size whatever, conversion succeeds exactly when both owners signed their own market and side at one price scale and one amount scale, the size fits what is left of each, and the price is inside each limit; it then multiplies by those scales |
| MatchRules.ConvertsIff | internal/matching/trade_units.go:27-118 | for a crossing pair with room, at the maker's price and the smaller remainder: exactly when both owners signed their own market and side at one price scale and one amount scale |
| MatchRules.DecideIff | internal/matching/engine.go:93-178 | a tick drops its pair exactly when an order is due, the prices do not cross or an order has nothing left; else it submits exactly when the two owners signed at common scales, and marks the pair failed when they did not |
| MatchRules.InferSharedScaleIff | internal/matching/trade_units.go:133-156 | a scale is inferred exactly when one positive integer maps both stored values to both signed ones |
| MatchRules.InferSharedScaleErrors | internal/matching/trade_units.go:133-156 | each error of the inference, exactly and in order: a value that is not positive, a left or a right side that no integer scales, scales that differ |
| MatchRules.SubmitMeans | internal/matching/engine.go:126-179 | what is submitted is positive, crosses, is before either expiry, takes the smaller remainder, and is each owner's signed amount in proportion to it |
| MatchRules.SubmitPrice | internal/matching/engine.go:117-179 | the submitted price is the one the maker signed, and no worse for the taker than the one it signed |
| MatchRules.UnitsByScales | internal/matching/trade_units.go:62-111 | once both actions match, only the two scales decide, and which error is reported |
| Admission.ScalesIff | internal/api/orders.go:325-367 | each branch of the alignment check admits exactly the orders whose signed values are whole multiples, or count amount steps, of the stored ones |
| Admission.AdmissionAgreesWithExecution | internal/api/orders.go:325-333 | two orders of the divisible branch convert at execution exactly when their price scales and amount scales coincide, and otherwise fail with that error only |
| Admission.DivisibleScales | internal/api/orders.go:325-332 | the divisible branch leaves integer scales of at least one |
| Admission.CompatibleIsBelowStored | internal/api/orders.go:335-367 | the compatibility branch admits only signed amounts strictly below, and indivisible by, the stored amount |
| Admission.CompatibleNeverExecutes | internal/matching/trade_units.go:133-156 | such an order fails conversion on either side of any pair |
| Admission.AdmittedMatches | internal/matching/trade_units.go:174-186 | an admitted order with a readable payload passes the matcher's market and side checks |
| Admission.EncodedOrderAdmittedIff | internal/api/orders.go:299-368 | exactly which orders with a properly encoded payload are admitted, and by which branch: signed price and amount positive, asset, sub id and side those of the order, stored price and amount positive, the signed price a whole multiple of the stored one, and the signed amount too, or else a count of amount steps |
| Admission.EncodedOrderRefusals | internal/api/orders.go:299-323 | the refusals of such an order, in order: signs, asset, sub id, side, stored values that are not positive |
| Admission.NormalizeAmountIff | internal/api/orders.go:211-244 | an amount is accepted as k exactly when it is k steps, not negative, and positive where required; unaligned, zero and negative amounts each have their own error |
| Admission.ReciprocalScaleIff | internal/api/orders.go:370-380 | the reciprocal scale is k exactly when k steps make one |
| TradeData.DecodeInvertsEncode | internal/matching/trade_units.go:201-241 | both decoders invert the ABI encoding (Contract ABI Specification for Solidity, section "Formal Specification of the Encoding") for every 160-bit asset, uint256 sub id, int256 price and amount, and bid flag |
| TradeData.SignedWordValue | internal/matching/trade_units.go:231-241 | two's complement of every int256 is read back |
| TradeData.SignedWordOfBytes | internal/matching/trade_units.go:231-241 | and every 32-byte word is the two's complement of what is read from it |
| TradeData.PayloadFields | internal/matching/trade_units.go:201-241 | every payload of seven words decodes: the asset is the low twenty bytes of its word, price and amount are signed, and any nonzero flag word is a bid |
| TradeData.DecodesIff | internal/matching/trade_units.go:201-215 | a text decodes exactly when, without surrounding space and an optional 0x, it is 448 hex digits of either case |
| TradeData.LowerIff | internal/api/orders.go:389-396 | lower-casing leaves no capital letter and changes nothing else |
| TradeData.DecodersAgree | internal/api/orders.go:382-423 | the two decoders read the same action, or both reject, on every text not beginning with 0X; the API only adds its sign checks |
| TradeData.AdmittedPayloadReadableIff | internal/matching/trade_units.go:201-207 | a payload the API admits is readable at execution exactly when it does not begin with 0X |
| TradeData.UpperPrefixDiverges | internal/api/orders.go:389-396 | with 0X in front every encoded payload is unreadable to the matcher and still admitted by the API, exactly when its price and amount are positive |
| Pricing.ParseIsExact | internal/pricing/pricing.go:36-57 | on well-formed text Parse succeeds exactly when the value is a positive multiple of the tick, returns that multiple, and reports zero and misalignment apart |
| Pricing.NewConverterReads | internal/pricing/pricing.go:21-34 | every plain decimal tick text makes a converter whose tick is that text's own value, digits over ten to the fraction length, and which keeps text and precision |
| Pricing.NewConverterIff | internal/pricing/pricing.go:21-34 | and no other text makes one |
| Pricing.NotADecimal | internal/pricing/pricing.go:92-131 | a text that is no decimal is refused as such, blank text apart, both as a price and as a tick size |
| Pricing.InstrumentParses | internal/pricing/pricing.go:21-57 | an instrument of tick a.b accepts the price x.y as t ticks exactly when t is positive and t times a.b is x.y, in digits; it accepts no price that is not such a multiple |
| Pricing.FormatTicksIff | internal/pricing/pricing.go:59-66 | tick texts are printed exactly when they are non-negative integers, and negative and malformed ones have their own errors |
| Pricing.ParseUndoesFormat | internal/pricing/pricing.go:59-90 | for every positive tick size, quote precision and tick count, parsing the printed price returns the ticks and the same text |
| Pricing.TickTextIsCanonical | internal/pricing/pricing.go:59-90 | the printed price is the canonical text of ticks times tick size: the division by the tick denominator never drops a digit |
| Pricing.TickTextValue | internal/pricing/pricing.go:59-90 | the printed price denotes exactly that value |
| Pricing.FormatIsInjectiveAndTrimmed | internal/pricing/pricing.go:59-90 | different tick counts print differently, never with a trailing zero or a bare point |
| Pricing.ParseDependsOnValueOnly | internal/pricing/pricing.go:36-57 | two spellings of one value parse alike, errors included |
| Pricing.ParseIgnoresDecoration | internal/pricing/pricing.go:92-131 | a leading plus, leading zeros and trailing zeros change nothing |
| Pricing.ParseIgnoresPoint | internal/pricing/pricing.go:92-131 | neither does a point followed by zeros on a whole number |
| Pricing.NormalisedPriceIsFixedPoint | internal/pricing/pricing.go:36-57 | re-parsing the normalised price changes nothing |
| DecimalText.PlainTextValue | internal/pricing/pricing.go:92-131 | reading a plain decimal gives its digits over ten to the number of fraction digits |
| DecimalText.DecimalIff | internal/pricing/pricing.go:92-131 | a text is a decimal exactly when it is, apart from surrounding space, an optional plus sign and digits with at most one point; blank text has its own error |
| DecimalText.TrimSpaceIs | internal/pricing/pricing.go:92-99 | only space is trimmed, and all of it |
| DecimalText.SpaceCodes | internal/pricing/pricing.go:92-99 | which characters are space: those of the Unicode property White_Space (Unicode Standard Annex #44, section 5.1), code point by code point |
| DecimalText.FixedTextValue | internal/api/spot_contract.go:244-274 | the canonical text of a fixed-point number reads back as that number |
| DecimalText.FixedTextByValue | internal/api/spot_contract.go:244-274 | equal values print alike at any two scales |
| DecimalText.StoreHelpersAreIntegerArithmetic | internal/orders/repository.go:877-899 | on printed integers the store's text helpers are integer addition and comparison |
| DecimalText.MatcherHelpersAreIntegerArithmetic | internal/matching/engine.go:256-312 | on printed integers the fill text is the smaller remainder, and reads 0 exactly when an order has nothing left |
| SpotContract.RoundedIsNearest | internal/api/spot_contract.go:244-254 | the printed number of units is a nearest one, with error at most half a unit |
| SpotContract.RoundedIff | internal/api/spot_contract.go:244-254 | and is the upper one on a tie, which determines it |
| SpotContract.FormatDecimal | internal/api/spot_contract.go:244-274 | prints the canonical text of the rounded units |
| SpotContract.FormatSignedDecimal | internal/api/spot_contract.go:236-242 | prints the sign and the rounded magnitude |
| SpotContract.FormatIsIdempotent | internal/api/spot_contract.go:276-282 | printing, reading and printing again gives the same text |
| SpotContract.EnginePriceParses | internal/pricing/pricing.go:36-57 | the spot market's own converter accepts an 18-decimal price exactly when the value is at least half a tick, returns the rounded units and prints the identical text |
| Pricing.SpotTick | internal/pricing/pricing.go:21-34 | the spot market's tick text in particular is read as 10^-18 |
| SpotContract.TranslateSpotUIIntent | internal/api/spot_contract.go:77-127 | a positive UI order becomes its engine order, and the errors come in order |
| SpotContract.TranslatedMeans | internal/api/spot_contract.go:96-127 | a UI buy is an engine sell and the other way round, priced at the reciprocal and sized at size times price, each text within half a unit; the buyer of USDC gains USDC and gives cNGN |
| SpotContract.DeriveSpotOrderContractEchoFromEngine | internal/api/spot_contract.go:143-188 | a positive engine order becomes its UI order, and the errors come in order |
| SpotContract.DerivedMeans | internal/api/spot_contract.go:143-188 | an engine sell is a UI buy, priced at the reciprocal and sized at amount times price, each text within half a unit, with the balance changes signed likewise |
| SpotContract.RoundTripIff | internal/api/spot_contract.go:77-188 | translating and deriving back reproduces the whole record exactly when both rounding residuals are small enough |
| SpotContract.RoundTripWithinLimits | internal/api/spot_contract.go:77-188 | which holds for every price of at most six decimals up to a million and size of at most six decimals with size times price below 10^12 |
| SpotContract.ResidualBound | internal/api/spot_contract.go:96-127 | the error is at most d p^2 / (1 - d p) on the price and d size p on the size, with d half of 10^-18 |
| SpotContract.RoundTripFailsBeyondLimits | internal/api/spot_contract.go:77-188 | 600 billion USDC at price 3 does not come back |
| SpotEntry.EntryIff | internal/api/spot_contract.go:48-75 | engine terms stated beside a UI intent are accepted exactly when the side is the opposite one and price and amount, where given, are within 10^-18 of the rounded translation, and refused with the error of the first that is not |
| SpotEntry.EntryKinds | internal/api/spot_contract.go:48-60 | over every spec and intent: an order is taken as stated exactly when it has neither; an intent needs the spec "usdc_cngn_spot_v1"; that spec alone, any other spec and a non-positive intent are refused, each with its own error |
| SpotEntry.ToleranceBounds | internal/api/spot_contract.go:213-234 | stating the exact reciprocal or amount is always accepted, and nothing further than one and a half units of 10^-18 from it is |
| SpotEntry.EntryIsStable | internal/api/spot_contract.go:48-75 | whatever was stated, the translation's own terms are returned, and stating those returns them again |
| SpotAdmission.StatedAdmittedIff | internal/api/orders.go:117-187 | a spot order in engine terms is admitted exactly when it names a side, its price is a positive whole number of ticks of 10^-18 and its amount a positive whole number, and its row then holds that side, those ticks, that amount and the price in canonical form |
| SpotAdmission.AdmittedIff | internal/api/orders.go:117-187 | a UI intent is admitted exactly when its reciprocal price is at least half a tick and its cNGN amount rounds to a positive whole number, and the row then stores the translation's own texts |
| SpotAdmission.StoredDerivesBackIff | internal/api/spot_contract.go:129-134 | the stored row shows the UI exactly the order it entered exactly when both roundings are recoverable |
| SpotAdmission.SpotEndToEnd | internal/api/orders.go:203-251 | within the stated limits a six-decimal intent is admitted exactly when size times price is a whole number, and its row then always shows the order as entered |

## Left out

- ExactlyOnceRecording: is about calm runs; what happens without calm is exactly RecordingIsBackedIff and BackedWhileNotMisled.
- RecordingIsBackedIff: is about orders created unfilled and one matcher; an order created with a fill starts with part of its stored amount used but none of its signed one, so the chain's cap and the store's differ from the start.
- FinalizeNeverFails: is about one matcher; RecordingsNeverFailIff says that this is needed.
- RunVolume: assumes a book whose resting orders have room, do not expire and convert at one pair of scales, and a chain in step with the trade rows.
- ParseIsExact: is about a positive tick size; the constructor also accepts a zero tick, on which Parse would divide by zero.
- FormatDecimal: is about non-negative values; the spot contract prints magnitudes only.
- TranslateSpotUIIntent: takes the side and the values of the UI's price and size texts as parameters, because big.Rat also reads fractions and exponents.
- DeriveSpotOrderContractEchoFromEngine: reads plain decimals, which is all a stored price or amount can be.
- AdmitOrder: is about orders that state no filled amount; it takes the values of the amount text, and of the price text stated beside an intent, as parameters, because big.Rat also reads fractions and exponents.
- SubmitMatchForMarket: is the environment's stated cap rule; the contract on chain, the request it is sent, the status, acceptance and error fields of the response and its transport are not modelled.
- AcquireMatchCandidate: has no error result, because the reservation count it checks can never fall short inside the transaction; a database error before commit is a tick that does nothing, and one after it a matcher that forgets its pair.
- Rows hold the integers their amount, tick and time texts spell; the text helpers are shown to be integer arithmetic on such texts, but malformed texts in the table are not modelled. A sub id is the configured instrument's text, the only one an order is admitted with.
- The JSON around the signed payload, field checks on addresses and nonces, custody checks, HTTP, configuration and logging.
- The displayed price of a variance market, which is floating point; trade rows here carry the maker's limit price.
- Postgres itself: transactions are atomic and selections mean what they say.
- Order listing, diagnostics, trade statistics, funding, oracles, migrations and the quarantine script.
- Lower-casing of addresses is modelled on ASCII letters.
