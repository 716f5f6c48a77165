# Trading research and smoke-run logic, modelled and proved in Dafny

A model of the deterministic core of a trading research repository, with proofs of what it is for. Prices,
money and quantities are exact integers, rationals or reals.

* **Stress-cost reducer** (`Rational`, `TickTable`, `StressReducer`): exact rationals over piecewise tick
  tables. The run-time check that a tick-rounded target recovers the entry cost is a theorem here, so its
  failure branch is unreachable.
* **Canonical identity** (`CanonicalJson`, `CanonicalHash`, `CanonicalDomain`, `ExperimentIdentity`): the typed
  encoder, what it accepts and how to read it back, and its JSON text, proved injective through a reader for it.
* **Backtest engine, strategy and reports** (`Engine`, `Backtest`, `Drawdown`, `NoLookAhead`, `Strategy`,
  `StrategyRuns`, `HoldingLimit`, `SixHeld`, `Report`, `RoundTrips`, `ReportRuns`): conservation, no look-ahead,
  the strategy's entries, exits, position limit and cooldown over whole runs, and exactly when the log replays
  agree with the engine.
* **Offline gate** (`FalseDiscovery`, `Combinatorics`, `Overfitting`, `Gate`): the step-up rule, the
  combinatorial overfitting probability, selection and the promotion decision.
* **Order lifecycles** (`OrderLedger`, `LotStep`, `FuturesLifecycle`, `HoldingsSmoke`): protocols against a broker
  that may answer anything. A run is a trace of ledger writes and broker answers; the code is proved to extend a lawful
  trace lawfully, and the theorems are about all lawful traces.
* **Telegram splitter** (`TelegramText`): the greedy split is a shortest one.

`Wrappers`, `Arithmetic`, `Sorting`, `Strings` and `MapSums` hold what several of these need.

`dafny verify dfyconfig.toml` checks the whole project.

## Conventions

* Loops and in-place updates of the source are methods with loops, or classes with fields, proved against a
  specification function; expressions are functions.
* Callers' duties: tick tables are ordered and contiguous with positive ticks and an open-ended last band, and
  cost rates are non-negative (what the sealed inputs promise); fees lie in [0, 1] and price impact in
  [0, 10000) basis points; frames hold one row per date; dict keys are unique.
* A non-finite open is `None`; an absent or malformed number in the gate's evidence is `None`.
* Indicator votes, broker answers, the digest function and the strategy (in the engine's own theorems) are
  arbitrary parameters.
* Dates are day numbers.

## Where the code is weaker than it looks

* The gate compares the registered information cutoff only when it is a datetime; the contract of
  `Gate.ValidatePitEvidence` says what is checked in either case.
* The maximum drawdown looks at falls from a running peak only, and those are the deepest exactly under the
  condition on the curve of `Drawdown.DeepestOnCurve`: a negative equity can hide a deeper one (`Drawdown.NegativeEquityHidesAFall`). Runs on
  non-negative closes have none (`Drawdown.RunDrawdownIsDeepest`).
* The position limit is kept when every pending sale finds a valid open (`HoldingLimit.PositionLimit`); how many
  positions a bar ends with otherwise is `HoldingLimit.PositionsAfterBar`, and `SixHeld.SixAreHeld` is a run that
  holds six.
* Both report replays treat what a sale leaves, up to 1e-12, as nothing held. They agree with the engine exactly
  when no sale leaves that (`Report.ReplayMatchesExactly`, `ReportRuns.RepositionExactly`); what they still hold is
  said of the log alone (`Report.ReplayedExactly`), and with it when days and PnL agree
  (`ReportRuns.TimeInMarketAgrees`, `Report.RoundTripsConservePnl`, `Report.DustLosesPnl`). Runs of the shipped
  strategy never leave dust (`ReportRuns.ShippedRunsAgree`).
* Quantizing to the quantity precision changes step-floored quantities exactly when the precision has fewer
  decimals than the step (`LotStep.GridKeptExactly`), against what the docstring says.
* In the mock holdings run the correction of exit 0 to exit 2 after a rejected buy can never apply
  (`HoldingsSmoke.Client.Confirm`).

## Model

| member | source | states |
|---|---|---|
| `TelegramText.TelegramTextLength` | app/telegram_contract.py:20-22 | half the little-endian UTF-16 byte count is the number of code units of section 2.1 of RFC 2781, counted character by character |
| `TelegramText.SplitTelegramText` | app/telegram_contract.py:29-49 | when each error is raised, exactly; otherwise the chunks concatenate to the text, none is empty (for non-empty text), each is within the limit, and no valid split has fewer chunks |
| `TelegramText.SplitNonEmpty` | app/telegram_contract.py:36-49 | the one-pass greedy loop: fails exactly when some character is wider than the limit, else yields a shortest valid split |
| `TelegramText.CutIsForced` | app/telegram_contract.py:43-47 | why cutting late is optimal: when the open chunk and the next character are too wide together, any split reaching past that character has spent one more chunk |
| `TelegramText.SplittableOnlyIfEveryCharacterFits` | app/telegram_contract.py:41-42 | the error on a too-wide character is raised only when no valid split exists at all |
| `FalseDiscovery.BenjaminiHochberg` | research_contracts/honest_offline_gate.py:647-672 | each reason code exactly when its input fault is present; otherwise the sorted, duplicate-free keys are the step-up set: p <= alpha*k/m for the largest k that has at least k such p-values |
| `FalseDiscovery.PrefixIsRejected` | research_contracts/honest_offline_gate.py:666-671 | the rank the one-pass loop ends with is the largest qualifying rank, and the prefix it cuts off is the step-up set |
| `FalseDiscovery.ThresholdExactly` | research_contracts/honest_offline_gate.py:666-671 | m times the k-th threshold is k times alpha |
| `FalseDiscovery.OrderIrrelevant` | research_contracts/honest_offline_gate.py:666-671 | the rejected set does not depend on the order of the mapping, nor on the key tie-break |
| `FalseDiscovery.TiesShareFate` | research_contracts/honest_offline_gate.py:666-671 | hypotheses with equal p-values are rejected together or not at all |
| `FalseDiscovery.RejectionMonotone` | research_contracts/honest_offline_gate.py:666-671 | lowering p-values or raising alpha never shrinks the rejected set |
| `Overfitting.ProbabilityOfOverfitting` | research_contracts/honest_offline_gate.py:585-644 | a value or a reason code, never both or neither; the input checks in their order; otherwise the share of half-splits whose unique in-sample winner ranks in the lower half, in [0,1], or ambiguous exactly when some split is |
| `Overfitting.InputReason` | research_contracts/honest_offline_gate.py:585-605 | no reason exactly for two or more named candidates of finite observations, equally many and enough for an even number of slices from 4; each other reason on its own condition |
| `Overfitting.CountOverfit` | research_contracts/honest_offline_gate.py:614-644 | the loop over all half-splits: a fraction exactly when every split has a unique winner and no out-of-sample tie |
| `Overfitting.SlicesPartition` | research_contracts/honest_offline_gate.py:607-613 | the slices are contiguous and together give back the series |
| `Overfitting.SliceOf` | research_contracts/honest_offline_gate.py:607-613 | every slice is non-empty |
| `Combinatorics.CombinationsAreAllChoices` | research_contracts/honest_offline_gate.py:617 | the visited in-sample halves are exactly the increasing choices of half of the slices |
| `Combinatorics.CombinationsDistinct` | research_contracts/honest_offline_gate.py:617 | no half is visited twice |
| `Combinatorics.ComplementIsTheRest` | research_contracts/honest_offline_gate.py:618 | the out-of-sample half holds exactly the slices the in-sample half leaves out, in order |
| `Overfitting.JudgeSplitMeaning` | research_contracts/honest_offline_gate.py:619-640 | what the sorts, the index and omega <= 0.5 decide about one split, stated by counting: ambiguous unless one candidate alone is best in sample and no two tie out of sample; overfit when that winner beats at most half of the field |
| `Overfitting.MeanOfOne` | research_contracts/honest_offline_gate.py:619-624 | the mean of one observation is that observation |
| `Overfitting.MeanOfParts` | research_contracts/honest_offline_gate.py:619-624 | means of parts, weighted by their sizes, add up to the mean of the whole weighted by its size |
| `Overfitting.MeanPermuted` | research_contracts/honest_offline_gate.py:619-624 | a mean does not depend on the order of the observations |
| `Overfitting.SplitKeepsTotal` | research_contracts/honest_offline_gate.py:617-634 | the in-sample and out-of-sample scores of a split, weighted by the sizes of its halves, give the total of the series |
| `Overfitting.SliceStartExactly` | research_contracts/honest_offline_gate.py:607-613 | a slice starts at the whole part of its share of the observations |
| `Overfitting.OverfittingPermuted` | research_contracts/honest_offline_gate.py:585-644 | the statistic does not change when the candidates are reordered |
| `Overfitting.OverfittingRescaled` | research_contracts/honest_offline_gate.py:585-644 | the statistic does not change under one common positive affine rescaling of all returns |
| `Rational.MakeRatio` | scripts/krb1_c_stress_independent_verify.py:89-96 | fails exactly for a zero denominator; otherwise the reduced pair with the same cross product |
| `Rational.Reduce` | scripts/krb1_c_stress_independent_verify.py:89-96 | the pair stands for the same quotient, with a positive denominator coprime to the numerator |
| `Rational.ReducedFormUnique` | scripts/krb1_c_stress_independent_verify.py:89-96 | two pairs in reduced form are equal exactly when they stand for the same number, so tuple equality is value equality |
| `Rational.Add` | scripts/krb1_c_stress_independent_verify.py:99-103 | exact sum, in reduced form |
| `Rational.Subtract` | scripts/krb1_c_stress_independent_verify.py:106-110 | exact difference, in reduced form |
| `Rational.Multiply` | scripts/krb1_c_stress_independent_verify.py:113-114 | exact product, in reduced form |
| `Rational.Divide` | scripts/krb1_c_stress_independent_verify.py:117-118 | exact quotient, in reduced form |
| `Rational.Greater` | scripts/krb1_c_stress_independent_verify.py:121-122 | cross multiplication decides the order of the values |
| `TickTable.TickAt` | scripts/krb1_c_stress_independent_verify.py:148-154 | the tick of the first band holding the price, or the missing-band error |
| `TickTable.FirstBandIsTheBand` | scripts/krb1_c_stress_independent_verify.py:148-154 | in a contiguous table the first band holding a price is the only one |
| `TickTable.AlignedCeiling` | scripts/krb1_c_stress_independent_verify.py:157-158 | the next multiple of the step at or above an integer, less than one step away |
| `TickTable.TickCeilRatio` | scripts/krb1_c_stress_independent_verify.py:161-169 | on a well-formed table it never falls through and returns the least legal price at or above the rational |
| `TickTable.LeastLegalMonotone` | scripts/krb1_c_stress_independent_verify.py:161-169 | that price is monotone in the rational and is the rational itself when it is legal |
| `TickTable.DirectPrices` | scripts/krb1_c_stress_independent_verify.py:172-183 | exactly the legal prices in [5000, 400000], strictly increasing; fails exactly when there are none |
| `TickTable.IndependentExitWitness` | scripts/krb1_c_stress_independent_verify.py:186-209 | the maximum of tick(p)/p over the unbounded set of legal prices p at or above the entry, at the smallest such price; fails exactly when there is no such price |
| `TickTable.ExitWitnessUnique` | scripts/krb1_c_stress_independent_verify.py:186-209 | the witness depends on the set of bands only, so the visiting order and the tie rule cannot show |
| `StressReducer.RatesNonNegative` | scripts/krb1_c_stress_independent_verify.py:212-231 | the worst rates of non-negative cost records are non-negative |
| `StressReducer.RatesExactly` | scripts/krb1_c_stress_independent_verify.py:212-231 | an error exactly when the market has no record; otherwise each rate is that of some record of the market and at least that of every one, a record's tax being the total of its components, by the laws of a total |
| `StressReducer.SumIsTotal` | scripts/krb1_c_stress_independent_verify.py:227-230 | the sum taken over the components obeys those laws |
| `StressReducer.PriceEntry` | scripts/krb1_c_stress_independent_verify.py:268-296 | one entry priced: tick, exit witness, multipliers and round-trip cost; fails exactly when the exit multiplier is not positive |
| `StressReducer.PriceMarket` | scripts/krb1_c_stress_independent_verify.py:261-303 | every legal entry of a market priced once in increasing order, with the first row of highest cost |
| `StressReducer.CapBp` | scripts/krb1_c_stress_independent_verify.py:320-321 | the least whole number of basis points that covers the raw worst cost |
| `StressReducer.CostNonNegative` | scripts/krb1_c_stress_independent_verify.py:274-282 | with non-negative rates every priced entry has a positive cost |
| `StressReducer.WitnessBoundsTicks` | scripts/krb1_c_stress_independent_verify.py:338-351 | no legal target at or above the entry has a worse tick ratio than the exit witness |
| `StressReducer.TargetRecovers` | scripts/krb1_c_stress_independent_verify.py:338-359 | the theorem behind the run-time check: if the cap covers the row's own cost, leaving at the tick-rounded target recovers the entry cost |
| `StressReducer.TargetCheck` | scripts/krb1_c_stress_independent_verify.py:342-359 | the reduced-rational comparison decides exactly that inequality over the reals |
| `StressReducer.CheckTarget` | scripts/krb1_c_stress_independent_verify.py:336-359 | the failure branch of the check is unreachable |
| `StressReducer.ExpectedRows` | scripts/krb1_c_stress_independent_verify.py:234-389 | the whole reduction: both markets priced at the worst rates of their records, raw rate the higher of the two worst costs, least covering cap, every row with its least legal recovering target; any failure is a fault of the inputs, and never the target check |
| `StressReducer.PricingExcludesFault` | scripts/krb1_c_stress_independent_verify.py:274-281 | a market that can be priced has no entry with a non-positive exit multiplier: the two outcomes exclude each other |
| `StressReducer.ReductionExcludesFault` | scripts/krb1_c_stress_independent_verify.py:234-389 | a reduction and a fault exclude each other, so the run succeeds exactly when neither market has a fault |
| `CanonicalJson.ReadPrinted` | research_contracts/canonical_hash.py:144-158 | a reader following sections 5 to 7 of RFC 8259 gives back any printed AST and stops where it ends, whatever follows |
| `CanonicalJson.TextRoundTrip` | research_contracts/canonical_hash.py:144-158 | parsing the text of an AST gives the AST back |
| `CanonicalJson.EscapedExactly` | research_contracts/canonical_hash.py:144-158 | which characters of a string are written as themselves, by one letter, or by their code with lower-case digits |
| `CanonicalJson.IntegerExactly` | research_contracts/canonical_hash.py:144-158 | an integer carries a minus sign exactly when negative and starts with a zero exactly when it is zero |
| `CanonicalJson.TextInjective` | research_contracts/canonical_hash.py:144-158 | two ASTs have the same text exactly when they are equal |
| `CanonicalHash.EncodeSame` | research_contracts/canonical_hash.py:72-141 | two supported values have the same AST exactly when they are the same typed value: list, tuple and set, the scalar kinds and tagged look-alike strings kept apart, dict and set order ignored |
| `CanonicalHash.CanonicalTextDecides` | research_contracts/canonical_hash.py:166-168 | two supported values have the same canonical text exactly when they are the same typed value |
| `CanonicalHash.AmbiguousSetDecides` | research_contracts/canonical_hash.py:130-140 | a set is rejected exactly when two of its members are the same typed value |
| `CanonicalHash.TagsTellKindsApart` | research_contracts/canonical_hash.py:72-141 | the type tags keep the supported kinds apart |
| `CanonicalDomain.EncodeExactly` | research_contracts/canonical_hash.py:72-141 | a value is encoded exactly when it is supported (finite floats and decimals, string keys, no unsupported kind, no set with two members that are the same typed value); any other gives the error of its first fault |
| `CanonicalDomain.DecodeEncoded` | research_contracts/canonical_hash.py:72-141 | reading the encoding back by the table of tags gives the same typed value |
| `CanonicalDomain.DictWrittenInOrder` | research_contracts/canonical_hash.py:111-122 | the pairs of a dict are written by rising keys, in code point order, each key once |
| `CanonicalDomain.SetWrittenInOrder` | research_contracts/canonical_hash.py:127-140 | the members of a set are written by rising text |
| `ExperimentIdentity.ManifestHashesAgree` | research_contracts/canonical_hash.py:176-201 | hashing the encoded manifest gives the same component hashes as hashing the raw components, and both succeed together |
| `ExperimentIdentity.HashesExactly` | research_contracts/canonical_hash.py:176-201 | hashes exist exactly when every identity component given is supported; each is the digest of that component's canonical text, null standing for one not given |
| `ExperimentIdentity.StoredManifestHashesAgree` | research_contracts/canonical_hash.py:176-201 | the same when the manifest is stored as text, read back and hashed without encoding again |
| `ExperimentIdentity.ComponentHashDecides` | research_contracts/canonical_hash.py:161-173 | with a collision-free digest, component hashes agree exactly when the components are the same typed value |
| `ExperimentIdentity.ExperimentIdDecides` | research_contracts/canonical_hash.py:204-224 | with a collision-free digest, two experiments share an id exactly when strategy key, version and all eleven components agree |
| `Engine.ExecuteSignal` | backtest/prepare.py:488-586 | the in-place update of the copied state is the trade the signal turns into, applied: cash, quantity, average price, entry date and log |
| `Engine.BarsExactly` | backtest/prepare.py:660-692 | bar_data of a date holds exactly one bar per frame with a row of that date, in the order of the frames: the row of that date, with as many of the frame's rows up to it as the lookback allows, in order and ending with it |
| `Engine.PriceExactly` | backtest/prepare.py:397-412 | a buy is never filled below the open nor a sale above it; ten thousand times the distance is the open times the basis points |
| `Engine.QuantityExactly` | backtest/prepare.py:419-442 | the largest quantity worth no more than the weight's part of the portfolio and, with its fee, no more than the cash |
| `Engine.FillTerms` | backtest/prepare.py:488-584 | a fill is of the signal's symbol, side and reason, dated by the bar, priced from its valid open, with the fee on its amount |
| `Engine.BuyAffordable` | backtest/prepare.py:419-442 | the quantity is capped so that price and fee never exceed the cash |
| `Engine.BuyFills` | backtest/prepare.py:509-546 | the check on the cash after sizing never refuses a buy when there is cash, a valid open and something to buy |
| `Engine.SellWithinHolding` | backtest/prepare.py:445-462 | a sale is between nothing and the whole holding, and the whole holding for weights of 1 or more |
| `Engine.AverageCostIsCost` | backtest/prepare.py:465-475 | new quantity times new average is old quantity times old average plus the total paid, fee included |
| `Engine.UpdateAveragePrice` | backtest/prepare.py:465-475 | averaging at the effective price (total over quantity) averages the total itself |
| `Engine.SettledExactly` | backtest/prepare.py:519-587 | a buy takes price and fee from the cash and adds its quantity, a sale brings in price less fee, takes its quantity and forgets the symbol when nothing is left; no other symbol changes and the log grows by the trade |
| `Engine.AveragedExactly` | backtest/prepare.py:522-532 | the average after a buy times the quantity then held is what was paid, fees included, for all of it |
| `Engine.ApplyBalances` | backtest/prepare.py:509-584 | a trade moves cash plus cost basis by exactly its logged PnL |
| `Engine.ExecutedSound` | backtest/prepare.py:488-586 | one signal keeps the accounts: conservation, no debt, positive quantities, three maps with the same keys |
| `Backtest.WindowDates` | backtest/prepare.py:612-616 | the dates of all frames, each once, in increasing order |
| `Backtest.Mark` | backtest/prepare.py:694-719 | cash plus quantity times quote over the held symbols that have one, whatever the visiting order |
| `Backtest.RunBacktest` | backtest/prepare.py:612-751 | the loop over dates is the step function folded over the dates, and the time-in-market percentage is its count over the number of dates |
| `Backtest.ValueIsWorth` | backtest/prepare.py:694-719 | cash, and for every position with a quote its quantity times that quote: taking any one position away takes its part away |
| `Backtest.QuotesExactly` | backtest/prepare.py:694-719 | positions are valued at finite positive opens before the fills and at closes after; a symbol with no such quote counts nothing |
| `Backtest.DateExactly` | backtest/prepare.py:662-739 | on every date of every run: bars are the frames' windows, yesterday's signals are filled in order at a worth taken at today's opens, the strategy sees the very portfolio the date ends with, marked at the closes, and its signals wait for the next date |
| `Backtest.HeldSinceLastBuy` | backtest/prepare.py:532-569 | at every date of every run each held symbol is dated by its last buy in the log |
| `Backtest.EveryRunIsSound` | backtest/prepare.py:705-739 | over every run of every strategy, at every date and after its fills: cash plus quantity times average price equals initial capital plus logged realized PnL, cash never negative, held quantities positive, three maps sharing their keys |
| `Drawdown.MaxDrawdown` | backtest/prepare.py:826-840 | divides by zero exactly when the running peak is 0 at some date after the first; otherwise the deepest fall from a positive running peak, attained by one and bounding all of them, or 0 when no equity is positive |
| `Drawdown.PeakDrawdownUnique` | backtest/prepare.py:826-840 | that determines the answer, for negative equities too |
| `Drawdown.DropFromPeak` | backtest/prepare.py:834-838 | a fall that starts below the peak is no deeper than the fall from the peak exactly when its end is not negative, or it starts level with the peak |
| `Drawdown.PeakFallIsDeepest` | backtest/prepare.py:834-838 | at each date the fall from the running peak is the deepest one exactly when the equity there is not negative or no positive equity before it is below the peak |
| `Drawdown.DeepestExactly` | backtest/prepare.py:826-840 | only the falls from the lowest positive equity to negative ones can be missed: the answer is the deepest fall exactly when it bounds those |
| `Drawdown.DeepestOnCurve` | backtest/prepare.py:826-840 | as a condition on the curve: to every negative equity, the fall from the lowest positive equity before it is no deeper than some fall to a negative equity before which all positive equities were equal |
| `Drawdown.NegativeEquityHidesAFall` | backtest/prepare.py:826-840 | otherwise it is not: on 1, 2, -10 the answer is 600 percent, and the fall from 1 is 1100 |
| `Drawdown.RunDrawdownIsDeepest` | backtest/prepare.py:705-739 | every run on non-negative closes, from positive capital, has no negative equity, so the code never divides by zero and its answer is the deepest fall |
| `NoLookAhead.NoLookAheadAtOpen` | backtest/prepare.py:660-713 | two data sets that agree on all rows before a date and on its opens and bar presence give the same portfolio (cash, positions, log) after that date's fills |
| `NoLookAhead.NoLookAheadAtClose` | backtest/prepare.py:660-739 | two data sets that agree through a date give the same run through it, equity and emitted signals included, although the frames may hold later rows |
| `NoLookAhead.SameBars` | backtest/prepare.py:661-692 | bars and their history windows on an earlier date come from the agreeing rows only |
| `Strategy.Strategy.OnBar` | backtest/strategy.py:582-795 | the loop that edits the position set, the signal list and the stop-loss table in place computes the scan the theorems are about |
| `StrategyRuns.SignalsFit` | backtest/strategy.py:582-795 | a bar emits only full sales of held symbols and buys of others, one per symbol, and never more than MAX_POSITIONS symbols once carried out |
| `StrategyRuns.ExitsFire` | backtest/strategy.py:612-669 | over every run, a held symbol whose bar is evaluated is to be sold in full: closing more than two percent below its average price, with the stop-loss reason; else on RSI recovery, after 21 days, or on bear votes; and otherwise it gets no signal |
| `StrategyRuns.EntryExactly` | backtest/strategy.py:671-795 | a symbol not held is bought, at the weight the votes give, exactly when they say so, fewer than five symbols are then held or bought, and no stop-loss of it in the table is less than 15 days old |
| `HoldingLimit.PositionsAfterBar` | backtest/strategy.py:671-795 | over every run, a bar ends with as many positions as its signals aimed at, one more per unfilled sale and one less per unfilled buy; so the limit holds exactly when the unfilled sales outnumber the unfilled buys by no more than the room the aim leaves |
| `HoldingLimit.FillsMissTarget` | backtest/prepare.py:488-586 | the fills of a bar leave exactly the symbols aimed at, with the unfilled sales and without the unfilled buys |
| `HoldingLimit.UnfilledSales` | backtest/prepare.py:497-507 | exactly the sales whose symbol has no valid open stay unfilled |
| `HoldingLimit.UnfilledBuy` | backtest/prepare.py:509-546 | a buy stays unfilled exactly when its symbol has no valid open, no cash is left, or it asks for nothing |
| `HoldingLimit.PositionLimit` | backtest/strategy.py:671-795 | as long as every pending sale finds a valid open, no bar ends with more than MAX_POSITIONS positions |
| `HoldingLimit.AlwaysOpenLimit` | backtest/strategy.py:671-795 | in particular when every symbol has a valid open on every date |
| `HoldingLimit.UnfilledSaleBreaksTheLimit` | backtest/strategy.py:671 | with the limit reached, a sale without a valid open and the buy that was to replace it pass the limit by one |
| `SixHeld.SixAreHeld` | backtest/strategy.py:671 | a run of the shipped strategy, from no positions, that holds six symbols after its third date |
| `StrategyRuns.EveryRunAlternates` | backtest/prepare.py:509-584 | with or without missing bars, every symbol's log alternates buy and full sale, ending at the quantity held |
| `StrategyRuns.AlternationInFull` | backtest/prepare.py:509-584 | spelled out: neighbouring trades of a symbol are a buy and a sale, and a sale sells what was bought |
| `StrategyRuns.FirstTradeBuys` | backtest/prepare.py:509-584 | a symbol's first trade is a buy |
| `StrategyRuns.OnlyStopLosses` | backtest/strategy.py:610-680 | on every date of a run a symbol is in the cooldown table only if it was there before for the same date, or its stop-loss is signalled on this one |
| `StrategyRuns.Cooldown` | backtest/strategy.py:612-680 | on daily dates no buy is signalled within COOLDOWN_DAYS of a stop-loss signal of the same symbol, over the whole run |
| `Report.BuildRoundTrips` | backtest/report.py:23-85 | grouping by first trade, sorting by date, replaying and the final sort, as one specification |
| `RoundTrips.TripsTold` | backtest/report.py:33-82 | every round trip of a log an engine can write runs from a buy of its symbol to the sale that leaves at most 1e-12 of what was bought since: its dates and reasons are theirs, its days those between them, its PnL and return those of the trades in between |
| `RoundTrips.TripsInOrder` | backtest/report.py:84-85 | round trips are listed by exit date, and by symbol within a date |
| `Report.ReplayInStep` | backtest/report.py:33-82 | when no sale leaves dust, one symbol's replay keeps the engine's quantity, its trips and open PnL make up its realized PnL, and it has one trip per return to flat |
| `Report.RoundTripsAccount` | backtest/report.py:23-85 | on every log an engine can write, the PnL of completed trips, the pending PnL and the PnL of the sales before which no buy of their symbol is live make up the realized PnL |
| `Report.ReplayedExactly` | backtest/report.py:265-276 | a replay holds a symbol exactly when the log has a live buy of it: one after which no sale leaves 1e-12 or less of what was bought since |
| `Report.OpenExactly` | backtest/report.py:33-82 | the round-trip replay has a position open exactly under the same condition |
| `Report.RoundTripsConservePnl` | backtest/report.py:23-85 | trips plus pending PnL are the realized PnL exactly when the sales without a live buy realized nothing on balance; so when no sale leaves dust |
| `Report.OneTripPerReturn` | backtest/report.py:23-85 | each symbol has one completed trip per return to flat, when no sale leaves dust |
| `Report.DustIsForgotten` | backtest/report.py:57-82 | buying, selling all but dust and selling the dust: PnL is conserved exactly when the last sale realized nothing |
| `Report.DustLosesPnl` | backtest/report.py:57-82 | a log an engine can write on which it is not: the trip is worth 0 and the log realized 1e-12 |
| `Report.ReplayMatchesExactly` | backtest/report.py:265-276 | the positions replayed from a log are what the log nets out to after every trade exactly when no sale leaves dust |
| `Report.TimeInMarketPct` | backtest/report.py:252-277 | the bar-by-bar replay of the log, as a specification |
| `ReportRuns.RepositionExactly` | backtest/report.py:265-276 | one replayed trade moves the positions as the engine does exactly unless it is a sale leaving more than nothing and at most 1e-12 |
| `ReportRuns.TimeInMarketAgrees` | backtest/report.py:252-277 | over every run the replayed days are the engine's count less the dates at whose end the log holds something but has no live buy; the two agree exactly when there is no such date, and so when no sale leaves dust |
| `ReportRuns.DustIsDropped` | backtest/report.py:265-276 | of a portfolio with one position, its sale empties the replay but not the engine exactly when it leaves dust |
| `ReportRuns.EveryRunRecounted` | backtest/prepare.py:705-739 | every run's log is in date order, sells no more than is held and nets out to the positions; the replayed days and the missed ones make up the engine's count |
| `ReportRuns.RunReplayExactly` | backtest/report.py:265-276 | over every run the replay agrees with the log after every trade exactly when no sale left dust |
| `ReportRuns.RunTripsConservePnl` | backtest/report.py:23-85 | over every run: trips plus pending PnL are the realized PnL exactly when the sales without a live buy realized nothing, and one trip per return to flat when no sale leaves dust |
| `ReportRuns.ShippedRunsAgree` | backtest/report.py:252-277 | on runs of the shipped strategy no sale leaves dust, so days in market, PnL, trips and replayed positions all agree with the engine |
| `Gate.SelectParameters` | research_contracts/honest_offline_gate.py:444-465 | fails exactly on no candidates, bad keys or non-finite scores; otherwise a permutation by falling score and then key, led by a best candidate |
| `Gate.SelectionIgnoresOrder` | research_contracts/honest_offline_gate.py:455-458 | the ranking does not depend on the order the candidates are listed in |
| `Gate.ReasonsSorted` | research_contracts/honest_offline_gate.py:141-142 | reason codes come out sorted and once each |
| `Gate.ValidatePitEvidence` | research_contracts/honest_offline_gate.py:468-521 | no reason exactly for evidence with the expected hash, all timestamps zoned and at or before the cutoff, and the cutoff equal to the registered one; a registered cutoff that is no datetime is not compared |
| `Gate.EvidenceReasons` | research_contracts/honest_offline_gate.py:745-855 | no reason exactly when every check on baselines, costs, stress and drawdown is met, and each failed threshold is named by its code |
| `Gate.BuildGateArtifact` | research_contracts/honest_offline_gate.py:675-888 | promotable exactly when nothing was reported from outside, the point-in-time evidence is sound and every own check is met; each failed threshold is named |
| `Gate.JudgeCandidate` | app/services/research_offline_gate_service.py:641-702 | the statistics and the artifact put together: promotable exactly when nothing was found beforehand, DSR is at its threshold, the overfitting share of the given series at most its bound, the selected key in the step-up set of the given p-values, the evidence passes every check of its own, and the point-in-time evidence is sound |
| `Gate.EvidenceExactly` | research_contracts/honest_offline_gate.py:708-888 | the gate's own checks pass exactly when every field is well formed, baselines, costs and seeds are those of the frozen campaign, and the results clear its thresholds |
| `Gate.SilentStatisticPasses` | research_contracts/honest_offline_gate.py:726-732 | a statistic with neither value nor reason passes whatever the threshold, which is why the statistics must answer |
| `OrderLedger.ClosedMeansFilled` | app/services/brokers/binance/demo/ledger/service.py:56-66 | a row that ends closed went through planned, previewed, validated, submitted and filled: no row is closed without being filled |
| `OrderLedger.ReconciledHistory` | app/services/brokers/binance/demo/ledger/service.py:56-66 | a row that ends reconciled went through the whole chain, or was cancelled before any fill |
| `FuturesLifecycle.Session.PollOrderFilled` | scripts/binance_futures_demo_smoke.py:518-565 | at most five questions, failures retried, True only for an observed FILLED, and False only after the fifth or a terminal answer |
| `FuturesLifecycle.Session.ReleaseUnsubmittedRoot` | scripts/binance_futures_demo_smoke.py:568-583 | the root goes planned, cancelled, reconciled |
| `FuturesLifecycle.Session.ExecuteConfirmLifecycle` | scripts/binance_futures_demo_smoke.py:586-857 | for every broker: all ledger writes legal and every exit code means what it should; 1 exactly for a blocked reservation, with no broker call and no write; 0 with no answer that stops the run, 2 with one or without evidence of the close fill, and with the anomaly on the row it belongs to |
| `FuturesLifecycle.ReleasedExactly` | scripts/binance_futures_demo_smoke.py:647-700 | a reserved run ends with the root released exactly when the mode was unreadable or hedge, or the leverage was refused |
| `FuturesLifecycle.CheckedBeforeSent` | scripts/binance_futures_demo_smoke.py:656-760 | before any order is sent the account was last seen one-way, the leverage was last accepted, and that same order passed the last test, with no order sent since |
| `FuturesLifecycle.CleanExactly` | scripts/binance_futures_demo_smoke.py:586-1124 | a reserved run exits 0 exactly when no answer stopped it and the fill of its close order was shown |
| `FuturesLifecycle.Session.AfterOpen` | scripts/binance_futures_demo_smoke.py:772-857 | the open fill is resolved by status, poll or a non-flat position before the row is filled; every exit code means what it should |
| `FuturesLifecycle.Session.CloseFromPosition` | scripts/binance_futures_demo_smoke.py:787-857 | a flat or unreadable position is an anomaly; otherwise the position seen is closed |
| `FuturesLifecycle.Session.CloseWithReduceOnly` | scripts/binance_futures_demo_smoke.py:861-998 | the close order is sent on the other side, reduce-only and for the observed position rounded down; failures leave anomalies |
| `FuturesLifecycle.Session.Reconcile` | scripts/binance_futures_demo_smoke.py:1001-1124 | exit 0 only with no open orders, a flat position and a proven close fill |
| `FuturesLifecycle.RowsLegal` | scripts/binance_futures_demo_smoke.py:586-1124 | over every run each row's history is legal |
| `FuturesLifecycle.FillsHaveEvidence` | scripts/binance_futures_demo_smoke.py:773-831 | no fill is recorded before a FILLED answer for that order, asked for while it was the last order sent, or, for the open order, a non-flat position seen after it was sent and before the close order was |
| `FuturesLifecycle.SecondOrderReduces` | scripts/binance_futures_demo_smoke.py:834-998 | at most two orders are sent; the second is on the opposite side, reduce-only and for a position seen after the first, rounded down to the quantum and so no larger |
| `FuturesLifecycle.ClosesWholePosition` | scripts/binance_futures_demo_smoke.py:836-844 | a position of whole steps is closed in full unless the quantity precision has fewer decimals than the step |
| `FuturesLifecycle.AnomaliesExactly` | scripts/binance_futures_demo_smoke.py:600-1124 | past the checks, exit 2 leaves the open row an anomaly exactly when an answer stopped the run other than a refused test of the close order, and the close row exactly when its order was refused or nothing stopped the run |
| `FuturesLifecycle.CleanExit` | scripts/binance_futures_demo_smoke.py:1001-1124 | exit 0: both rows went through all seven states, and after the last order the broker was seen without open orders and flat |
| `LotStep.Quantize` | scripts/binance_futures_demo_smoke.py:1207-1232 | rounds down to a whole number of quanta, by less than one quantum |
| `LotStep.KeptExactly` | scripts/binance_futures_demo_smoke.py:1207-1232 | a quantity keeps its value exactly when it is a whole number of quanta |
| `LotStep.GridKeptExactly` | scripts/binance_futures_demo_smoke.py:1217-1232 | all quantities on the step grid keep their value exactly when there is no quantity precision or it has at least as many decimals as the step |
| `LotStep.CoarsePrecision` | scripts/binance_futures_demo_smoke.py:1223-1224 | otherwise not: with a step of 0.001 and two decimals 0.123 becomes 0.12 |
| `HoldingsSmoke.ClassifyFillMeaning` | app/services/kis_mock_holdings_reconciler.py:85-105 | full exactly when the holdings moved by the order or more in its direction, credit clamped to the order, no credit the other way, sells mirror buys |
| `HoldingsSmoke.Client.AwaitEntryFill` | scripts/kis_mock_overseas_holdings_delta_smoke.py:275-316 | polls at most max(max_poll, 1) times; confirmed exactly when a poll reads the full fill; gives up only on a failed read or after the last poll |
| `HoldingsSmoke.Client.AwaitFlat` | scripts/kis_mock_overseas_holdings_delta_smoke.py:319-330 | polls until at or below the baseline, a failed read or the last poll, and never less, and returns the last read |
| `HoldingsSmoke.Client.CancelRestingBuy` | scripts/kis_mock_overseas_holdings_delta_smoke.py:333-368 | success exactly for an acknowledged cancel, otherwise exit 3 |
| `HoldingsSmoke.Client.CleanupAndVerify` | scripts/kis_mock_overseas_holdings_delta_smoke.py:371-544 | every exit code: 3 exactly for an answer that stops the cleanup or a surplus left after the sale; else the holdings were last read at the baseline, 0 after a confirmed full fill and 2 without one and nothing resting |
| `HoldingsSmoke.Client.Confirm` | scripts/kis_mock_overseas_holdings_delta_smoke.py:700-781 | for every sequence of reads and replies: exit 0 exactly for a confirmed fill back at the baseline; a rejected or unacknowledged buy never exits 0, so the correction of a 0 to a 2 is dead |
| `HoldingsSmoke.TheOneSale` | scripts/kis_mock_overseas_holdings_delta_smoke.py:417-510 | at most one sale, of all whole shares in the surplus of the last holdings read, and of an unconfirmed acknowledged buy only after its cancel is acknowledged |
| `HoldingsSmoke.ExitExactly` | scripts/kis_mock_overseas_holdings_delta_smoke.py:371-544 | the exit code from the events alone: 0 exactly when the full fill of the buy was read, no answer stopped the cleanup and the holdings were last read at their baseline; 2 exactly when nothing was bought or the rest went so without a full fill, the cancel of an acknowledged buy then being acknowledged; else 3 |

## Left out

- Floating-point rounding: engine, gate and protocol arithmetic is over the reals, and `Decimal` context precision in quantizing is not modelled.
- NaN and infinite closes, and duplicate dates in a frame: closes are reals and rows have one date each.
- Strategies that change the portfolio they are handed: a strategy is a function of its state, the bars and the portfolio.
- Technical indicators, vote thresholds, buy-weight tables and the text of signal reasons in the strategy: their outcome is an arbitrary function of the bars.
- Intraday timestamps in the strategy: `_days_between` answers 999 for them; dates here are days.
- Sharpe ratio, total return, win rate and the monthly and risk tables: formulas read off their bodies.
- `deflated_sharpe_ratio` and trial statistics: only that they give a value or a reason, never neither; `Gate.JudgeCandidate` takes the answer as a parameter.
- The nested normalization of fold metrics and of the frozen configuration in the gate, and the artifact's payload and hash: their validity is a flag of the submission.
- `str(float(m))` of the stress multipliers: the configuration holds the labels.
- SHA-256, `float.hex`, `Decimal` and date texts: injective texts or an arbitrary digest; lone surrogates, which the encoder cannot hash, are not Dafny characters.
- The integer-to-text digit limit of the interpreter, and a top-level manifest mapping passed to the JSON printer.
- Ledger write failures, the local order preview, leverage mismatch against other leverage failures, and the order type and price of the open order: they share one branch or do not affect the claims.
- Steps of the mock run before the order: market-hours gate, exchange resolution, quote freshness and the baseline read; they end without an order. The derived fill price is evidence only.
- Everything done over networks, databases, files, argument parsing and logging.
