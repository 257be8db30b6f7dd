# A verified model of the retail analytics backend

The repository is a retail analytics backend in Python with a small React
front end. Its stores keep three MongoDB collections: returns
(`DEVOLUCAO`), cancellations (`CANCELAMENTO`) and stock adjustments
(`AJUSTES ESTOQUE`). The backend does the following with them:

- it looks for fraud in those collections (`DetectorFraude`);
- it answers questions about them in Portuguese (the MongoDB query agent);
- it imports CSV files and Google Sheets into the database;
- it cleans uploaded datasets and reconciles them against each other;
- it cuts datasets into chunks for indexing;
- its data agent renders query results as Markdown tables, and its insight
  agent reads those tables back into a report.

This project models these pieces in Dafny and proves what they promise.

## What each piece promises

**The fraud detector.** It runs five detectors in a fixed order:
1. volume anomalies of returns per `sku_loja` group;
2. SKUs that have both a stock adjustment and a return within 24 hours;
3. per-store shares of exchanges and cancellations;
4. neighbouring movements of one group at most 24 hours apart;
5. repeat customers and repeat products.

It concatenates their findings and tallies them by type and by risk. It
summarises the high-risk share and picks canned recommendations.

The model reproduces the following quirks:
- The string group key `f"{sku}_{loja}"` is split back at its first `_`. Two
  different (SKU, store) pairs can therefore share a key
  (`FraudFindings.KeyCollision`).
- Dates are sorted as raw strings.
- Only the last adjustment of a SKU is kept.
- The sort raises on a null date, and that loses the whole detector's
  output.
- Two recommendation checks test type names that no detector emits.

The report's totals are proved to agree with its tallies. The findings are
proved to come out in detector order.

**The two tolerant normalisers.** `_converter_valor` and `_datas_proximas`
never raise.
- `_converter_valor("1.234,56")` gives 0.0, because the text reaches
  `float()` as `1.234.56`. The documented behaviour of the system gives 1234.56 here. The model
  follows the code (`FraudValues.ThousandsSeparatorExample`,
  `FraudValues.TwoSeparatorsGiveZero`).
- On two `DD/MM/YYYY` texts, `_datas_proximas` with 24 hours holds exactly
  when they name the same day or consecutive days.

**The query agent.** The model covers:
- the keyword rules that pick an amount, with 25 tried before 20;
- the date normalisation, with the current year as the parameter `thisYear`;
- the keyword priority that classifies a question, and the collections it
  names;
- the collection and grouping of a ranking;
- a FIFO result cache of at most fifty entries, as a class;
- the HTML table, whose cells are escaped so that no cell can contain a tag;
- the inconsistency search, proved to find every inconsistency once and to
  show at most ten of them.

**The Markdown tables.**
- The data agent's Markdown writer and its SELECT guard.
- The insight agent's table scanner, its summary and recommendation
  builders, and its pattern analyser.
- Reading back the data agent's tables gives their row count, their column
  names and their rows (`TableReading`).

**Ingestion** (both copies of `utils.py`, the datasets router and the
importer's `normalizer.py`):
- delimiter sniffing;
- the Google Sheets export link, with `parse_qs`'s percent-decoding;
- the repair table for text misread as cp1252;
- frame normalisation;
- UTF-8 validity of the 1024-byte sample (section 4 of RFC 3629);
- gzip detection (section 2.3.1 of RFC 1952);
- the dtype-to-SQL mapping;
- exact-value remaps chosen by the file name.

**Cleaning, reconciliation and chunking.**
- Column names come out in snake case, and renaming is idempotent.
- The three de-duplication strategies are idempotent.
- A stable sort by absolute score feeds the top ten of the reconciliation
  summary.
- The chunk windows tile the rows.

**The front end.** The pagination state of `DataTable.tsx` is a class.
Turning through every page shows each row exactly once.

Python library behaviour that these pieces rely on is modelled where a
property depends on it:
- `float(str)`: `PyFloat`;
- `strptime` and `fromisoformat`: `Calendar`;
- UTF-8: `Utf8`;
- `unquote`: `UrlQuote`;
- the stable `list.sort`: `Sorting`;
- insertion-ordered `dict`: `Dicts`;
- `defaultdict` grouping: `Grouping`;
- `str` methods: `Text`.

Code that updates state step by step is modelled as methods with loops,
proved against the functions that specify them. Objects that are updated in
place are classes: `QueryCache.Cache`, `DataAgent.SessionMemory` and
`DataTable.Pager`.

## Model

| member | source | states |
|---|---|---|
| FraudValues.ConvertFalsy | backend/app/modules/detector_fraude.py:463-464 | null or empty text converts to 0.0 |
| FraudValues.CleanMoneyDots | backend/app/modules/detector_fraude.py:466 | the cleaned text holds as many points as the input holds points and commas together |
| FraudValues.TwoSeparatorsGiveZero | backend/app/modules/detector_fraude.py:466-469 | an amount with a thousands point and a decimal comma converts to 0.0, so the thousands separator is not handled |
| FraudValues.ThousandsSeparatorExample | backend/app/modules/detector_fraude.py:466-469 | `1.234,56` converts to 0.0, not 1234.56 |
| FraudValues.ConvertNumeral | backend/app/modules/detector_fraude.py:466-467 | a plain decimal numeral converts to its own value |
| FraudValues.CurrencyExample | backend/app/modules/detector_fraude.py:466-467 | `R$ 10,00` converts to 10 |
| FraudValues.DatesCloseSymmetric | backend/app/modules/detector_fraude.py:471-484 | the test is symmetric in its two dates |
| FraudValues.DatesCloseNeedsParse | backend/app/modules/detector_fraude.py:474-479 | an empty or null field, or a text neither parser accepts, is close to nothing |
| FraudValues.MixedAwarenessNotClose | backend/app/modules/detector_fraude.py:481-484 | a naive and an aware time are never close, because subtracting them raises |
| FraudValues.DayGapWithin24Hours | backend/app/modules/detector_fraude.py:481-482 | whole days are within 24 hours exactly when they are at most one day apart |
| FraudValues.SlashDatesGap | backend/app/modules/detector_fraude.py:478-482 | midnights of two `DD/MM/YYYY` texts are close exactly when their day ordinals differ by at most `horas / 24` |
| FraudValues.SlashDatesClose | backend/app/modules/detector_fraude.py:471-484 | with 24 hours two zero-padded `DD/MM/YYYY` texts are close exactly when they are the same day or consecutive calendar days |
| FraudFindings.GroupKeyParts | backend/app/modules/detector_fraude.py:73-99 | a key split at its first `_` joins back to the key, and gives back SKU and store exactly when the SKU has no `_` |
| FraudFindings.KeyCollision | backend/app/modules/detector_fraude.py:73 | two different (SKU, store) pairs can share a key when the SKU holds a `_` |
| FraudEvents.StoreCountsSplit | backend/app/modules/detector_fraude.py:486-520 | a store's movements are its returns plus its cancellations, its cancellations are its cancellation documents, and its exchanges are among its returns |
| FraudEvents.EntityCountsSplit | backend/app/modules/detector_fraude.py:522-612 | a customer's or product's occurrences are its returns, cancellations and adjustments together; cancellations and adjustments are counted on their own, and its exchanges are among its returns |
| FraudEvents.RaisesPrefix | backend/app/modules/detector_fraude.py:486-612 | a document that makes a pass raise stops it wherever it sits |
| FraudStats.StoreStatistics | backend/app/modules/detector_fraude.py:486-520 | `None` when the pass raises, or else each non-empty store in insertion order with the counters of its documents |
| FraudStats.StoreTally | backend/app/modules/detector_fraude.py:496-518 | the loops leave the store dictionary equal to the tally of the documents |
| FraudStats.CountStore | backend/app/modules/detector_fraude.py:498-518 | one loop body: the store's entry is created when new and its counters are bumped |
| FraudStats.EntityStatistics | backend/app/modules/detector_fraude.py:522-612 | the customer pass (`IDUSUARIO`) and the product pass (`SKU`): `None` when the pass raises, or else the entities with the counters of their documents |
| FraudStats.EntityTally | backend/app/modules/detector_fraude.py:530-610 | the three loops leave the entity dictionary equal to the tally of the documents |
| FraudStats.CountEntity | backend/app/modules/detector_fraude.py:534-606 | one loop body for a document with a key |
| FraudVolume.FlagEach | backend/app/modules/detector_fraude.py:95-115 | the second pass gives exactly the findings of the groups, in insertion order |
| FraudVolume.FlagGroups | backend/app/modules/detector_fraude.py:65-119 | the two passes give the detector's findings |
| FraudVolume.DetectVolumeAnomalies | backend/app/modules/detector_fraude.py:45-123 | the method returns `VolumeFindings(db)` |
| FraudVolume.VolumeKinds | backend/app/modules/detector_fraude.py:103-115 | every finding is a volume anomaly |
| FraudVolume.VolumeFindingFacts | backend/app/modules/detector_fraude.py:95-115 | every finding names a group and carries its member count and the mean; the count lies above three times the mean; the tier is ALTO exactly above five times the mean |
| FraudVolume.VolumeFlagged | backend/app/modules/detector_fraude.py:95-99 | a group is reported exactly when its size times the number of groups exceeds three times the number of returns |
| FraudVolume.VolumeHighRisk | backend/app/modules/detector_fraude.py:105 | a reported group is ALTO exactly when its size times the number of groups exceeds five times the number of returns |
| FraudVolume.FewGroupsNoFindings | backend/app/modules/detector_fraude.py:58-99 | with fewer than four groups nothing is reported, and in particular nothing when there are no returns |
| FraudVolume.AnomaliesNeedFourGroups | backend/app/modules/detector_fraude.py:95-99 | over at most three groups no group exceeds three times the mean, so the flagging pass reports nothing |
| FraudVolume.VolumeCountsSum | backend/app/modules/detector_fraude.py:65-93 | the group sizes add up to the number of returns |
| FraudCross.ScanAdjustments | backend/app/modules/detector_fraude.py:140-146 | the first pass gives the set of adjustment SKUs and the last adjustment of each |
| FraudCross.ScanReturns | backend/app/modules/detector_fraude.py:153-159 | the second pass gives the set of return SKUs and each SKU's returns in order |
| FraudCross.MatchReturns | backend/app/modules/detector_fraude.py:166-186 | the returns of one SKU that are close to its adjustment, each as a finding |
| FraudCross.DetectAdjustmentsWithReturns | backend/app/modules/detector_fraude.py:125-193 | for every visiting order of the common SKUs, the detector's findings in that order |
| FraudCross.LastAdjustmentIsLast | backend/app/modules/detector_fraude.py:141-146 | the kept adjustment of a SKU carries that SKU and no later adjustment does |
| FraudCross.CrossKinds | backend/app/modules/detector_fraude.py:168-184 | every finding, in any visiting order, pairs an adjustment with a return |
| FraudCross.CrossFindingFacts | backend/app/modules/detector_fraude.py:162-186 | every finding is ALTO, names a non-empty SKU held by both the adjustments and the returns, and pairs that SKU's last adjustment with a return of it whose date is close |
| FraudCross.CrossFindingComplete | backend/app/modules/detector_fraude.py:162-186 | conversely every return on a common SKU whose date is close to that SKU's last adjustment is reported |
| FraudRates.StoreFindingsAppended | backend/app/modules/detector_fraude.py:211-236 | the two conditional appends add exactly the store's findings |
| FraudRates.FlagStores | backend/app/modules/detector_fraude.py:209-238 | the loop over the store statistics gives the findings of every store in order |
| FraudRates.DetectRateAnomalies | backend/app/modules/detector_fraude.py:195-245 | the method returns `RateFindings(db)` |
| FraudRates.RateBounds | backend/app/modules/detector_fraude.py:211-212 | a share of a whole lies between 0 and 1 |
| FraudRates.Thresholds | backend/app/modules/detector_fraude.py:214-236 | the four thresholds as integer comparisons: exchanges above 3/20 (ALTO above 1/4), cancellations above 1/10 (ALTO above 3/20) |
| FraudRates.StoreShares | backend/app/modules/detector_fraude.py:486-520 | every listed store has a movement, and both its shares lie in [0, 1] |
| FraudRates.StoreFindingFacts | backend/app/modules/detector_fraude.py:214-236 | a store's findings carry its name, its counters, the share that crossed its threshold and the tier that share implies |
| FraudRates.RateKinds | backend/app/modules/detector_fraude.py:214-236 | every finding is an exchange share or a cancellation share |
| FraudRates.RateFindingFacts | backend/app/modules/detector_fraude.py:209-238 | every finding names a listed store and carries its counters and a share in [0, 1] above the threshold |
| FraudRates.RateFindingsOfStore | backend/app/modules/detector_fraude.py:209-238 | the findings that name a listed store are exactly its own two checks |
| FraudRates.StoreFlagged | backend/app/modules/detector_fraude.py:214-236 | a store gets an exchange finding exactly when exchanges exceed 3/20 of its movements, and a cancellation finding exactly when cancellations exceed 1/10 |
| FraudRates.RateFlagged | backend/app/modules/detector_fraude.py:209-238 | the same two if-and-only-ifs for every listed store, within the detector's output |
| FraudRates.AtMostTwoPerStore | backend/app/modules/detector_fraude.py:209-238 | each store name is named by at most two findings, and a name that is no listed store by none |
| FraudRates.StoreNamedTwice | backend/app/modules/detector_fraude.py:209-238 | one store name is named by at most two findings, none if no listed store carries it |
| FraudInterval.AppendMovements | backend/app/modules/detector_fraude.py:263-303 | one collecting loop appends every document of its collection as a movement |
| FraudInterval.CollectMovements | backend/app/modules/detector_fraude.py:263-303 | the three loops give the returns', adjustments' and cancellations' movements, in that order |
| FraudInterval.SortByDate | backend/app/modules/detector_fraude.py:318 | the group sorted stably by its raw date texts |
| FraudInterval.FlagPairs | backend/app/modules/detector_fraude.py:320-343 | the neighbour loop gives one finding per close neighbour pair |
| FraudInterval.FlagGroup | backend/app/modules/detector_fraude.py:314-343 | `None` when sorting the group raises, or else its findings |
| FraudInterval.FlagIntervals | backend/app/modules/detector_fraude.py:312-345 | the loop over the groups gives the detector's findings, or nothing once a sort raises |
| FraudInterval.DetectShortIntervals | backend/app/modules/detector_fraude.py:247-350 | the method returns `IntervalFindings(db)` |
| FraudInterval.PairFindingFacts | backend/app/modules/detector_fraude.py:325-339 | a pair's finding carries the group's SKU and store and the first movement's user |
| FraudInterval.PairsBound | backend/app/modules/detector_fraude.py:320 | a sorted group of `n` movements gives at most `n - 1` findings, one per neighbouring pair |
| FraudInterval.SortedNeighbours | backend/app/modules/detector_fraude.py:318 | sorting keeps the movements of the group and puts them in date order |
| FraudInterval.IntervalKinds | backend/app/modules/detector_fraude.py:325-339 | every finding is a short-interval finding |
| FraudInterval.IntervalFindingFacts | backend/app/modules/detector_fraude.py:305-343 | every finding is a pair of date-sorted neighbours of one SKU-and-store group without null dates, no more than 24 hours apart, carrying the first movement's user and the SKU and store that join back to the group key |
| FraudInterval.CloseNeighboursFlagged | backend/app/modules/detector_fraude.py:320-343 | two close neighbours of a sorted group are reported |
| FraudInterval.ShortIntervalFlagged | backend/app/modules/detector_fraude.py:320-343 | when no sort raises, a pair of neighbours in a sorted group is reported exactly when their dates are at most 24 hours apart |
| FraudInterval.IntervalFlagged | backend/app/modules/detector_fraude.py:305-343 | two neighbours of a sorted group are reported exactly when their dates are at most 24 hours apart, provided no group raises |
| FraudInterval.NullDateSilences | backend/app/modules/detector_fraude.py:318-349 | a null date in a group of two or more silences the whole detector |
| FraudInterval.NoNullDates | backend/app/modules/detector_fraude.py:318 | without null dates among the grouped movements no sort raises |
| FraudInterval.GroupStepBound | backend/app/modules/detector_fraude.py:320 | a group of `n` movements yields at most `n - 1` findings |
| FraudInterval.IntervalCount | backend/app/modules/detector_fraude.py:305-343 | the findings and the groups together number at most the grouped movements |
| FraudRepeat.FlagEntities | backend/app/modules/detector_fraude.py:366-401 | the loop over the statistics gives one finding per entity with at least three occurrences |
| FraudRepeat.EntityFindingFacts | backend/app/modules/detector_fraude.py:370-398 | the finding of one entity names that entity and carries its counters; it needs at least three occurrences, and it is ALTO exactly above 10 for a customer or 15 for a product |
| FraudRepeat.RunPass | backend/app/modules/detector_fraude.py:362-401 | one pass gives the statistics and then the findings, or `None` when it raises |
| FraudRepeat.DetectRepeats | backend/app/modules/detector_fraude.py:352-408 | the method returns `RepeatFindings(db)` |
| FraudRepeat.PassFindingFacts | backend/app/modules/detector_fraude.py:366-401 | every finding of a pass names a listed entity with at least three occurrences; it is ALTO exactly above 10 for customers and 15 for products |
| FraudRepeat.RepeatKinds | backend/app/modules/detector_fraude.py:368-388 | every finding is a repeat customer or a repeat product |
| FraudRepeat.RepeatFindingFacts | backend/app/modules/detector_fraude.py:352-408 | every finding of the detector is one of a pass's findings |
| FraudRepeat.RepeatFlagged | backend/app/modules/detector_fraude.py:366-401 | a listed entity is reported exactly when it has at least three occurrences |
| FraudRepeat.CustomersFirst | backend/app/modules/detector_fraude.py:366-401 | customers' findings come before products' findings |
| FraudRepeat.PassBound | backend/app/modules/detector_fraude.py:366-401 | one pass yields no more findings than it lists entities |
| FraudRepeat.AtMostOnePerEntity | backend/app/modules/detector_fraude.py:366-401 | for each kind and each name, at most one finding of that kind names it; none when it is not a listed entity of that kind |
| FraudRepeat.PassNamesOnce | backend/app/modules/detector_fraude.py:366-401 | within one pass, a listed entity is named at most once and any other name never |
| FraudReport.RunDetector | backend/app/modules/detector_fraude.py:433-438 | running a detector gives its findings; the detectors catch their own exceptions, so the `except` adds nothing |
| FraudReport.RunDetectors | backend/app/modules/detector_fraude.py:431-438 | the loop over `algoritmos` concatenates the detectors' findings in order |
| FraudReport.AnalyseAll | backend/app/modules/detector_fraude.py:410-458 | the report is `ReportOf` of every detector's findings in the order of `algoritmos` |
| FraudReport.DetectorOrder | backend/app/modules/detector_fraude.py:423-429 | an earlier finding never comes from a later detector |
| FraudReport.CountBy | backend/app/modules/detector_fraude.py:614-626 | the `Counter` loop gives the tally of the findings by type or by risk |
| FraudReport.TallyTotal | backend/app/modules/detector_fraude.py:614-626 | a tally's counts add up to the number of findings, and each label is counted as often as it occurs |
| FraudReport.ReportTotals | backend/app/modules/detector_fraude.py:444-452 | `total_suspeitas` equals the sum of the tally by type, the sum of the tally by risk, and the summary's total |
| FraudReport.SummaryMatchesTally | backend/app/modules/detector_fraude.py:628-640 | the summary's high and medium counts are the risk tally's, and they add up to the total |
| FraudReport.RiskLabels | backend/app/modules/detector_fraude.py:621-626 | the risk tally has no labels besides ALTO and MÉDIO |
| FraudReport.PercentBounds | backend/app/modules/detector_fraude.py:636 | `h / max(n, 1) * 100` lies in [0, 100]; it is 0 exactly when `h` is 0, and 100 exactly when `h == n > 0` |
| FraudReport.HighPercentBounds | backend/app/modules/detector_fraude.py:628-640 | `percentual_alto_risco` lies in [0, 100] and is 0 without high-risk findings, in particular without findings |
| FraudReport.AdviseMember | backend/app/modules/detector_fraude.py:642-672 | a recommendation is in the list exactly when its test holds, and the all-clear line is given alone |
| FraudReport.AdviseFirst | backend/app/modules/detector_fraude.py:652-653 | the ATENÇÃO line, when given, is first |
| FraudReport.NothingFoundAlone | backend/app/modules/detector_fraude.py:646-648 | without findings the list is exactly the all-clear line; with findings that line is absent |
| FraudReport.HighRiskFirst | backend/app/modules/detector_fraude.py:650-653 | any high-risk finding puts the ATENÇÃO line first; without one that line is absent |
| FraudReport.TypeNames | backend/app/modules/detector_fraude.py:642-672 | which type name each kind of finding carries; none carries the three names checked at :657 and :669 |
| FraudReport.TypesMember | backend/app/modules/detector_fraude.py:655 | a type name is in `tipos_fraude` exactly when a finding of its kind is reported |
| FraudReport.DeadAdvice | backend/app/modules/detector_fraude.py:657-670 | the balance and history recommendations are never given |
| FraudReport.TypeAdvice | backend/app/modules/detector_fraude.py:660-667 | the three live type checks: each of those recommendations is given exactly when a finding of its type is reported |
| FraudReport.AdviseOthers | backend/app/modules/detector_fraude.py:642-672 | the lines other than the balance and history lines do not depend on those two tests |
| FraudReport.FixedBalance | backend/app/modules/detector_fraude.py:657-658 | with the test aimed at the volume detector's type, the balance line is given exactly when a volume anomaly is reported |
| FraudReport.FixedHistory | backend/app/modules/detector_fraude.py:669-670 | with the test aimed at the recidivism types, the history line is given exactly when a repeat customer or product is reported |
| FraudReport.FixedOthers | backend/app/modules/detector_fraude.py:642-672 | the corrected tests leave every other line as the code gives it |
| PyFloat.TwoDotsRejected | backend/app/modules/detector_fraude.py:467 | `float` rejects any text that holds two decimal points |
| PyFloat.DecimalRoundTrip | backend/app/modules/detector_fraude.py:467 | the decimal rendering of every natural number parses back to that number |
| PyFloat.PlainDecimal | backend/app/modules/detector_fraude.py:467 | an unpadded text that starts with a digit and spells no special word is read as a decimal literal |
| PyFloat.TenExample | backend/app/modules/detector_fraude.py:467 | `float("10.00") == 10.0` |
| Calendar.NextDayOrdinal | backend/app/modules/detector_fraude.py:481 | the next calendar day is one ordinal further |
| Calendar.OrdinalMonotone | backend/app/modules/detector_fraude.py:481 | the day ordinal increases strictly along the calendar |
| Calendar.NextDayIsLeast | backend/app/modules/detector_fraude.py:481 | no date lies strictly between a date and the next day |
| Calendar.AdjacentDays | backend/app/modules/detector_fraude.py:481-482 | two dates are at most one ordinal apart exactly when they are the same day or consecutive days |
| Calendar.ParseDayMonthYear | backend/app/modules/detector_fraude.py:478 | `strptime(text, '%d/%m/%Y')`: any date it accepts exists in the calendar |
| Calendar.ParseIso | backend/app/modules/detector_fraude.py:478 | `fromisoformat(text)`: any date it accepts exists in the calendar |
| Calendar.ParseDateText | backend/app/modules/detector_fraude.py:478-479 | `strptime` when the text holds `/`, otherwise `fromisoformat`; any date either accepts exists in the calendar |
| Calendar.DayMonthYearRoundTrip | backend/app/modules/detector_fraude.py:478 | `strptime` reads back every date written as zero-padded `DD/MM/YYYY` |
| Grouping.GroupBy | backend/app/modules/detector_fraude.py:67-93 | one pass fills a `defaultdict(list)`: the distinct keys in order of first appearance, each with its members in input order |
| Grouping.GroupSizesSum | backend/app/modules/detector_fraude.py:67-93 | the group sizes add up to the input's length |
| Grouping.MembersMember | backend/app/modules/detector_fraude.py:67-93 | an element is in group `k` exactly when it is in the input with key `k` |
| Grouping.GroupWhere | backend/app/modules/detector_fraude.py:305-310 | the grouping loop that skips the elements the guard rejects |
| Sorting.SortByPermutes | backend/app/modules/detector_fraude.py:318 | the sort permutes its input |
| Sorting.SortBySorted | backend/app/modules/detector_fraude.py:318 | the sort orders by non-decreasing key |
| Sorting.SortByStable | backend/app/modules/detector_fraude.py:318 | elements with equal keys keep their input order |
| Sorting.SortByUnique | backend/app/modules/detector_fraude.py:318 | any sorted, stable arrangement of the input is `SortBy`'s |
| Sorting.SortInPlace | backend/app/modules/detector_fraude.py:318 | an in-place stable insertion sort leaves the array equal to `SortBy` of its old contents |
| QueryAgent.QuantityFirstRule | backend/app/agents/mongodb_agent.py:1227-1244 | the first rule that holds decides the amount |
| QueryAgent.QuantityFromNumber | backend/app/agents/mongodb_agent.py:1248-1250 | with no rule, the amount is the leftmost standalone number |
| QueryAgent.QuantityDefault | backend/app/agents/mongodb_agent.py:1253 | with neither a rule nor a number, the amount is 10 |
| QueryAgent.TwentyFiveBeforeTwenty | backend/app/agents/mongodb_agent.py:1231-1234 | `vinte e cinco` also satisfies the 20 rule, so only trying 25 first makes it mean 25 |
| QueryAgent.WordAt | backend/app/agents/mongodb_agent.py:1227-1243 | a `\bword\b` pattern matches where the word stands between boundaries |
| QueryAgent.NormalizeDateNone | backend/app/agents/mongodb_agent.py:1112-1116 | no date is found exactly when `re.search` of the date pattern finds nothing |
| QueryAgent.NormalizeDateShape | backend/app/agents/mongodb_agent.py:1118-1129 | two-digit day and month worth what the text wrote; a two-digit year becomes `20yy`, a missing one the current year, and a three- or four-digit one is kept |
| QueryAgent.NormalizeDateFixpoint | backend/app/agents/mongodb_agent.py:1098-1129 | normalising a normalised date gives it back |
| QueryAgent.ReadBack | backend/app/agents/mongodb_agent.py:1112-1120 | a `DD/MM/Y` text is read back as its three fields |
| QueryAgent.YearLength | backend/app/agents/mongodb_agent.py:1120-1127 | for a current year of one, three or four digits, the year field has one, three or four digits, and one only when the text gave no year |
| QueryAgent.ClassifyFirstRule | backend/app/agents/mongodb_agent.py:189-204 | a question is of rule `k`'s kind exactly when rule `k` holds and no earlier rule does |
| QueryAgent.ClassifyFallback | backend/app/agents/mongodb_agent.py:205-215 | the pattern dictionary is consulted only when no rule holds |
| QueryAgent.PeriodHoldsDate | backend/app/agents/mongodb_agent.py:193-196 | every period question also satisfies the date rule, so trying the period first is what tells them apart |
| QueryAgent.MentionedCollectionsMeaning | backend/app/agents/mongodb_agent.py:226-232 | each collection is listed exactly when the question names it; it is listed once, in the fixed order |
| QueryAgent.InterpretQuestion | backend/app/agents/mongodb_agent.py:177-240 | the kind, the amount, whether a table is wanted, the original question and the collections it names |
| QueryAgent.DateQueryTypeMeaning | backend/app/agents/mongodb_agent.py:1082-1096 | returns win over the others and cancellations over adjustments; a question naming none is about returns |
| QueryAgent.RankingSourceMeaning | backend/app/agents/mongodb_agent.py:501-510 | the collection: cancellations before adjustments before returns, or none |
| QueryAgent.RankingGroupingMeaning | backend/app/agents/mongodb_agent.py:513-563 | the grouping: stores before dates before users before SKUs, by stores by default |
| QueryAgent.RankingField | backend/app/agents/mongodb_agent.py:513-563 | a ranking by date groups by the date field the dated queries use for that collection |
| QueryPatterns.FirstNumberMeaning | backend/app/agents/mongodb_agent.py:1248 | the leftmost standalone number is found, and none is found exactly when there is none |
| QueryPatterns.StandaloneRun | backend/app/agents/mongodb_agent.py:1248 | a `\d+` match between boundaries is the whole run of digits |
| QueryPatterns.DateAtMatches | backend/app/agents/mongodb_agent.py:1112 | a date is found at a position exactly where the date pattern matches there |
| QueryPatterns.FirstDateMeaning | backend/app/agents/mongodb_agent.py:1113 | the first date found is where the leftmost match starts |
| QueryPatterns.FirstDateNone | backend/app/agents/mongodb_agent.py:1113-1116 | the search finds nothing exactly when `re.search` finds nothing |
| QueryCache.Saved | backend/app/agents/mongodb_agent.py:1313-1322 | after a save the key holds the result, and the dictionary stays well formed |
| QueryCache.SavedBound | backend/app/agents/mongodb_agent.py:1315-1318 | a save never takes the cache beyond fifty entries |
| QueryCache.SavedRoom | backend/app/agents/mongodb_agent.py:1313-1322 | below the bound a save is a plain assignment |
| QueryCache.SavedEvictsOldest | backend/app/agents/mongodb_agent.py:1315-1318 | at the bound the oldest entry goes unless it is the key being saved; every other entry keeps its value; no key besides the saved one appears |
| QueryCache.SavedQueues | backend/app/agents/mongodb_agent.py:1315-1322 | a new key saved into a full cache goes after every survivor, so eviction is first in, first out |
| QueryCache.Cache.constructor | backend/app/agents/mongodb_agent.py:43-44 | the cache starts empty and valid |
| QueryCache.Cache.Get | backend/app/agents/mongodb_agent.py:1306-1311 | the stored answer of a key, or nothing on a miss |
| QueryCache.Cache.Save | backend/app/agents/mongodb_agent.py:1313-1322 | keeps the bound, and leaves the cache equal to `Saved` of the old one |
| QueryTable.EscapeIsEach | backend/app/agents/mongodb_agent.py:1287 | the three passes escape each character once; the entities the later passes write are never escaped again |
| QueryTable.EscapeNoTags | backend/app/agents/mongodb_agent.py:1287 | an escaped cell holds no angle bracket |
| QueryTable.UnescapeEscape | backend/app/agents/mongodb_agent.py:1287 | the escaped cell displays exactly the cell's text |
| QueryTable.DataCellsTags | backend/app/agents/mongodb_agent.py:1284-1289 | a row's cells hold their markup's angle brackets and no others |
| QueryTable.RowsTags | backend/app/agents/mongodb_agent.py:1278-1291 | the tags in the body depend only on its shape, never on what the cells say |
| QueryTable.HeaderTags | backend/app/agents/mongodb_agent.py:1268-1270 | column names are not escaped; a header adds only its own markup's tags when its names hold no `<` |
| QueryTable.AppendHeader | backend/app/agents/mongodb_agent.py:1268-1270 | the header loop appends one `<th>` per column |
| QueryTable.AppendCells | backend/app/agents/mongodb_agent.py:1284-1289 | the inner loop appends one escaped `<td>` per cell |
| QueryTable.AppendRow | backend/app/agents/mongodb_agent.py:1279-1290 | one row: its `<tr>`, shaded on even rows, then its cells and its `</tr>` |
| QueryTable.AppendRows | backend/app/agents/mongodb_agent.py:1278-1291 | the outer loop appends one `<tr>` per row |
| QueryTable.FormatWith | backend/app/agents/mongodb_agent.py:1255-1299 | the fragments built in order make up `Table` |
| QueryTable.FormatTable | backend/app/agents/mongodb_agent.py:1255-1299 | `_formatar_como_tabela` with the page's own markup |
| Inconsistencies.CountSkuPositive | backend/app/agents/mongodb_agent.py:1154-1155 | the count is positive exactly when some document carries the SKU |
| Inconsistencies.AllInconsistenciesMeaning | backend/app/agents/mongodb_agent.py:1140-1162 | the set of all inconsistencies holds exactly the inconsistent entries |
| Inconsistencies.CheckSku | backend/app/agents/mongodb_agent.py:1150-1162 | for one SKU, the entries added are exactly the other existing collections that lack it, with no repeats |
| Inconsistencies.CollectSkus | backend/app/agents/mongodb_agent.py:1142-1146 | the set of the collection's non-empty SKUs |
| Inconsistencies.CheckCollection | backend/app/agents/mongodb_agent.py:1140-1162 | in any visiting order of its SKUs, one collection adds exactly its inconsistencies, with no repeats |
| Inconsistencies.FindAll | backend/app/agents/mongodb_agent.py:1137-1162 | every inconsistency, once each |
| Inconsistencies.Summarise | backend/app/agents/mongodb_agent.py:1164-1195 | the all-clear when nothing was found, or else the first `min(10, n)` entries and the count `n` |
| Inconsistencies.Analyse | backend/app/agents/mongodb_agent.py:1131-1215 | the all-clear exactly when there is no inconsistency; otherwise the full count and at most ten distinct inconsistencies shown |
| InsightAgent.ClassifyCellMeaning | backend/app/agents/insight_agent.py:47-64 | a pair gives its header a `data_types` entry; `N/D` counts a missing value, and any other value lists the header as numeric or categorical by whether `float` accepts it |
| InsightAgent.AddOnceMeaning | backend/app/agents/insight_agent.py:60-64 | `append` under `not in` keeps what the list held, in order; it adds `x` and repeats nothing new |
| InsightAgent.SeparatorTestDead | backend/app/agents/insight_agent.py:35-42 | the `| ---` test can never fail, because such a line is no table line at all |
| InsightAgent.DashLineNotCounted | backend/app/agents/insight_agent.py:35 | a line that contains `---` never changes the metrics |
| InsightAgent.PipeLineIgnored | backend/app/agents/insight_agent.py:35-68 | a pipe line that is no table line leaves the scan as it is |
| InsightAgent.ClosingLine | backend/app/agents/insight_agent.py:67-68 | a line that does not start with `|` closes the table and changes nothing else |
| InsightAgent.OpeningLine | backend/app/agents/insight_agent.py:36-39 | outside a table, a table line opens one; its cells become the headers and columns, and nothing is counted |
| InsightAgent.RecordLine | backend/app/agents/insight_agent.py:40-64 | inside a table every table line is one more record, its pairs classified |
| InsightAgent.TableScan | backend/app/agents/insight_agent.py:31-68 | after a header, a separator and `k` rows the scan is inside the table with `k` records counted |
| InsightAgent.KeyMetricsGood | backend/app/agents/insight_agent.py:6-70 | no header is listed twice, and every listed header has its `data_types` entry |
| InsightAgent.ExtractKeyMetrics | backend/app/agents/insight_agent.py:6-70 | the loop over the lines gives `KeyMetrics(context)` |
| InsightAgent.ScanLines | backend/app/agents/insight_agent.py:31-68 | the loop gives the scan after every line |
| InsightAgent.ReadLine | backend/app/agents/insight_agent.py:32-68 | the loop body gives the step function's result |
| InsightAgent.ClassifyRow | backend/app/agents/insight_agent.py:47-64 | the nested loop over `zip(headers, values)` gives the classified pairs |
| InsightReport.TotalMissingPositive | backend/app/agents/insight_agent.py:96-123 | the missing total is positive exactly when some column has a missing value counted |
| InsightReport.Nearest | backend/app/agents/insight_agent.py:99 | `.1f` rounding: no integer is closer to `n / d`, and a tie goes to the even one |
| InsightReport.PercentTextReads | backend/app/agents/insight_agent.py:99 | the text is digits, a point and one digit, and reads back as the nearest tenth of `100 * total / cells` |
| InsightReport.SummaryMeaning | backend/app/agents/insight_agent.py:72-101 | raises `division by zero` exactly when a value is missing and the divisor is zero; otherwise the volume and structure lines, the type lines when their lists are non-empty, and the quality line when a value is missing |
| InsightReport.ExecutiveSummary | backend/app/agents/insight_agent.py:72-101 | the lines appended one by one give `Summary(metrics)` |
| InsightReport.AdviceTextInjective | backend/app/agents/insight_agent.py:117-143 | no two recommendations share a line |
| InsightReport.AdvicesMeaning | backend/app/agents/insight_agent.py:103-145 | small sample below 100 records and high volume above 10000; critical quality above 20% missing and moderate above 5%; multivariate with two numeric columns and segmentation with two categorical ones; the topic lines |
| InsightReport.TextsLines | backend/app/agents/insight_agent.py:103-145 | a recommendation's line is among the lines exactly when it is selected, and no line repeats |
| InsightReport.AdvicesOrdered | backend/app/agents/insight_agent.py:103-145 | the recommendations come in the order of the code's tests |
| InsightReport.RecommendationsLines | backend/app/agents/insight_agent.py:103-145 | a recommendation's line is among the lines `generate_recommendations` returns exactly when it is selected, and no line repeats |
| InsightReport.VolumeAdvice | backend/app/agents/insight_agent.py:117-120 | the loop body's small-sample and high-volume lines, by record count |
| InsightReport.QualityAdvice | backend/app/agents/insight_agent.py:123-129 | the loop body's critical and moderate quality lines, compared against the missing share |
| InsightReport.TypeAdvice | backend/app/agents/insight_agent.py:132-136 | the column-type lines |
| InsightReport.TopicAdvice | backend/app/agents/insight_agent.py:139-143 | the lines for contexts that speak of finance or clients |
| InsightReport.GenerateRecommendations | backend/app/agents/insight_agent.py:103-145 | the parts appended in order give `Recommendations(metrics, context)` |
| InsightReport.ReportSections | backend/app/agents/insight_agent.py:273-280 | a report starts with the summary heading and its first two lines, and ends with the recommendations section and then the patterns section |
| InsightReport.ReportIsNoError | backend/app/agents/insight_agent.py:273-285 | a report and an error line differ in their first character |
| InsightReport.InsightsLayout | backend/app/agents/insight_agent.py:249-285 | the result is the error line exactly when a value is missing and there are no cells, otherwise the three sections |
| InsightReport.ProcessInsights | backend/app/agents/insight_agent.py:249-285 | the metrics, the two lists and the patterns, then the response built section by section, give `Insights(context)` |
| InsightPatterns.ColumnValuesMembers | backend/app/agents/insight_agent.py:183 | a value occurs in the column exactly when some row long enough holds it there |
| InsightPatterns.ConstantMeans | backend/app/agents/insight_agent.py:186-187 | a column of two or more values is reported constant, with its first value, exactly when every row that has the column holds that value |
| InsightPatterns.LowMeans | backend/app/agents/insight_agent.py:186-189 | reported as little varied exactly when not constant and with fewer distinct values than half its values; at most one line per column |
| InsightPatterns.ColumnsPatternsCount | backend/app/agents/insight_agent.py:180-189 | at most one line per column of the first row |
| InsightPatterns.DataPatterns | backend/app/agents/insight_agent.py:147-194 | never empty; the default line is either the whole output or absent from it |
| InsightPatterns.ReportsOnlyOnClose | backend/app/agents/insight_agent.py:176-189 | only a line that closes a table reports, and it reports the patterns of the rows collected |
| InsightPatterns.CollectsRow | backend/app/agents/insight_agent.py:171-174 | inside a table each table line is one more row of stripped cells |
| InsightPatterns.BodyRowsAre | backend/app/agents/insight_agent.py:171-174 | the collected rows are exactly the lines split into their cells |
| InsightPatterns.TableReported | backend/app/agents/insight_agent.py:176-189 | the line after a table closes it and reports exactly the patterns of its rows |
| InsightPatterns.TableLines | backend/app/agents/insight_agent.py:187-189 | every line a table reports names a column |
| InsightPatterns.TableNoDefault | backend/app/agents/insight_agent.py:191-192 | no table reports the default line |
| InsightPatterns.AnalyzeDataPatterns | backend/app/agents/insight_agent.py:147-194 | the loop gives `DataPatterns(context)` |
| InsightPatterns.ScanPatterns | backend/app/agents/insight_agent.py:164-189 | the loop gives the scan after every line |
| InsightPatterns.AnalyzeTable | backend/app/agents/insight_agent.py:182-189 | the loop over the columns gives their patterns in order |
| InsightPatterns.AnalyzeColumn | backend/app/agents/insight_agent.py:183-189 | one column's values, their set and the test |
| TableReading.StripPadded | backend/app/agents/data_agent.py:28-33 | the spaces the data agent puts around a cell are stripped away |
| TableReading.LineNoRun | backend/app/agents/data_agent.py:28-33 | a line written from cells without `---` has no run of three dashes |
| TableReading.LineIsTableLine | backend/app/agents/insight_agent.py:35 | such a line is a table line, and stripping leaves it as it is |
| TableReading.DashLineStarts | backend/app/agents/data_agent.py:29 | the separator line begins with `| ---` |
| TableReading.MarkdownShape | backend/app/agents/insight_agent.py:27-68 | the lines of a data agent table have the shape the scan reads |
| TableReading.MarkdownMetrics | backend/app/agents/insight_agent.py:6-70 | the metrics of a data agent table count its rows and name its columns, stripped |
| TableReading.BodyIsRead | backend/app/agents/insight_agent.py:171-174 | the rows collected from a data agent table are the frame's rows as written |
| TableReading.MarkdownPatterns | backend/app/agents/insight_agent.py:147-194 | the patterns of a data agent table are those of its rows read back, or the default line |
| DataAgent.FormatTableMarkdown | backend/app/agents/data_agent.py:14-35 | the header, the separator and the row lines built in a loop give `Markdown(df)` |
| DataAgent.MarkdownLines | backend/app/agents/data_agent.py:28-33 | a non-empty result has `rows + 2` lines and nothing after the last line break |
| DataAgent.LineCells | backend/app/agents/data_agent.py:28-33 | splitting a line at `|` gives one padded cell per column between two empty pieces |
| DataAgent.RefusedBeforeDatabase | backend/app/agents/data_agent.py:48-49 | a query that is not a SELECT is refused whatever the database holds, and is never run |
| DataAgent.MissingTableNotRun | backend/app/agents/data_agent.py:59-64 | without the session's table the query is not run |
| DataAgent.RunsSessionQuery | backend/app/agents/data_agent.py:52-67 | the query runs with the session's table in place of `ds_clean` |
| DataAgent.GuardOnStripped | backend/app/agents/data_agent.py:48 | a query whose stripped text starts with any casing of `select` passes |
| DataAgent.GuardIgnoresIndent | backend/app/agents/data_agent.py:48 | leading spaces never change the guard's answer |
| DataAgent.IndentedSelect | backend/app/agents/data_agent.py:48 | `  SeLeCt ...` passes |
| DataAgent.DeleteRefused | backend/app/agents/data_agent.py:48-49 | a query that begins with another statement is refused |
| DataAgent.SessionMemory.constructor | backend/app/agents/data_agent.py:150-160 | the memo starts empty |
| DataAgent.SessionMemory.GetDataAgent | backend/app/agents/data_agent.py:150-215 | the stored agent of a known session, or else the new one, which is then stored |
| DataAgent.Lookup | backend/app/agents/data_agent.py:150-161 | the answered agent is the one stored under the session afterwards; the keys grow by that session only and every stored agent is kept |
| DataAgent.SessionMemory.ClearSession | backend/app/agents/data_agent.py:217-220 | forgets that session and no other |
| DataAgent.SessionMemory.ClearAll | backend/app/agents/data_agent.py:222-224 | forgets every session |
| DataAgent.LookupStable | backend/app/agents/data_agent.py:160-161 | asking twice for a session gives the same agent and stores nothing more |
| DataAgent.ClearForgetsOnly | backend/app/agents/data_agent.py:217-220 | clearing one session forgets only it; it then gets a fresh agent |
| DataTable.TotalPages | frontend/src/components/DataTable.tsx:29 | `Math.ceil(length / pageSize)` |
| DataTable.Slice | frontend/src/components/DataTable.tsx:32 | `Array.prototype.slice`: from a non-negative `start` each element is the one `start` places on; between non-negative indices there are as many elements as lie below both `end` and the length, and none when `end` is not after `start` |
| DataTable.SliceFromEnd | frontend/src/components/DataTable.tsx:32 | a negative index of `slice` counts back from the end, down to 0 |
| DataTable.SliceNegativeExample | frontend/src/components/DataTable.tsx:32 | `[1,2,3].slice(-2, 3)` is `[2,3]` and `[1,2,3].slice(0, -1)` is `[1,2]` |
| DataTable.Window | frontend/src/components/DataTable.tsx:31-32 | `slice(start, start + width)`: at most `width` rows, exactly `width` when they all exist, each the row `start` places on |
| DataTable.PageIsRange | frontend/src/components/DataTable.tsx:31-32 | the window from row `s` is the run of rows from `s` to `s + pageSize`, both cut at the length |
| DataTable.PageRows | frontend/src/components/DataTable.tsx:30-32 | a page holds at most `pageSize` rows, exactly `pageSize` when it ends within the data, its `i`-th row being row `(page - 1) * pageSize + i` |
| DataTable.PagesPrefix | frontend/src/components/DataTable.tsx:30-32 | the first `count` pages hold the first `count * pageSize` rows |
| DataTable.RowsShownOnce | frontend/src/components/DataTable.tsx:29-32 | turning through every page shows each row exactly once, in order |
| DataTable.Render | frontend/src/components/DataTable.tsx:20-91 | the no-data text, or the page's rows with `N/D` for null cells and the navigation shown only with two or more pages |
| DataTable.CellText | frontend/src/components/DataTable.tsx:71-75 | a cell shows `N/D` exactly when it is null or undefined or its own text is `N/D`; any other value shows its text |
| DataTable.LabelMatchesRows | frontend/src/components/DataTable.tsx:89-90 | on a page in range the label names exactly the rows shown |
| DataTable.Pager.constructor | frontend/src/components/DataTable.tsx:15-18 | starts on page 1 with the given data, columns and page size |
| DataTable.Pager.SetProps | frontend/src/components/DataTable.tsx:12-18 | new `data`, `columns` and `pageSize` props replace the old ones and keep the current page |
| DataTable.Pager.GoToPage | frontend/src/components/DataTable.tsx:35-39 | a page in range becomes current; any other is ignored |
| DataTable.Pager.GoToFirstPage | frontend/src/components/DataTable.tsx:41 | goes to page 1 when there is a page |
| DataTable.Pager.GoToLastPage | frontend/src/components/DataTable.tsx:42 | goes to the last page when there is one |
| DataTable.Pager.GoToNextPage | frontend/src/components/DataTable.tsx:43 | one page on, nothing on the last page |
| DataTable.Pager.GoToPreviousPage | frontend/src/components/DataTable.tsx:44 | one page back, nothing on the first page |
| DataTable.StalePageShowsNothing | frontend/src/components/DataTable.tsx:18-32 | when the data shrinks under a later page, the page is kept and the body comes out empty |
| Datasets.DetectEncoding | backend/app/routers/datasets.py:17-27 | `utf-8` when the sample decodes strictly, `latin1` otherwise |
| Datasets.Sample | backend/app/routers/datasets.py:22-23 | the first 1024 bytes, or the whole content when it is shorter |
| Datasets.ShortFileEncoding | backend/app/routers/datasets.py:22-27 | a file of at most 1024 bytes is reported as UTF-8 exactly when it is well formed |
| Datasets.CutSampleIsLatin1 | backend/app/routers/datasets.py:22-23 | a well-formed file whose 1024th byte starts a multi-byte character is reported as Latin-1 |
| Datasets.CutSampleExample | backend/app/routers/datasets.py:22-23 | such a file exists |
| Datasets.SafeDecode | backend/app/routers/datasets.py:29-35 | the strict decoding when it succeeds, otherwise Latin-1 |
| Datasets.SafeDecodeLossless | backend/app/routers/datasets.py:29-35 | encoding the text the way it was decoded gives the content back |
| Datasets.DetectCompression | backend/app/routers/datasets.py:40-44 | `gzip` for `1f 8b`, `zip` for `PK`, `none` otherwise |
| Datasets.DetectDelimiterAndCompression | backend/app/routers/datasets.py:37-53 | the delimiter is always a comma |
| Datasets.GzipRecognised | backend/app/routers/datasets.py:41-42 | a gzip member is always recognised |
| Datasets.TextIsNotGzip | backend/app/routers/datasets.py:41-42 | well-formed UTF-8 is never taken for gzip |
| Datasets.InferSchema | backend/app/routers/datasets.py:68-111 | every column gets the SQL type of the first marker its dtype name holds, in column order |
| Datasets.SqlTypeOf | backend/app/routers/datasets.py:71-78 | INTEGER exactly when the dtype name holds the integer marker, DOUBLE exactly when it holds the float marker and not the integer one, TIMESTAMP exactly when it holds only the date marker |
| Datasets.SchemaColumns | backend/app/routers/datasets.py:68-111 | the schema has exactly the columns, in order, each with its type |
| Datasets.SchemaOrder | backend/app/routers/datasets.py:69-78 | with distinct column names the schema dict lists them in column order |
| Datasets.NullableIntIsText | backend/app/routers/datasets.py:68-78 | pandas' nullable `Int64` dtype name holds no lower-case `int` marker, so the pandas mapping types it as VARCHAR |
| Datasets.CheckUpload | backend/app/routers/datasets.py:126-134 | the name check first, then the empty-content check |
| Datasets.UpperCaseExtension | backend/app/routers/datasets.py:126 | any casing of `.csv` passes the name check |
| Datasets.DatasetIdIsIdentifier | backend/app/routers/datasets.py:154 | the id is eleven identifier characters starting `ds_` |
| Datasets.SerialiseKeeps | backend/app/routers/datasets.py:299-305 | None, int, float, str and bool are kept; anything else becomes its text |
| Datasets.PreviewRow | backend/app/routers/datasets.py:296-306 | one dict per row with every column, in column order |
| Datasets.Preview | backend/app/routers/datasets.py:294-315 | one dict per fetched row, in order, and their number as `total_rows` |
| Cruzamentos.MissingColumn | backend/app/pipeline/cruzamentos.py:45-51 | a required column missing after renaming fails the column check, so the rule returns `[]` |
| Cruzamentos.StockScoreMeaning | backend/app/pipeline/cruzamentos.py:83-89 | with stock on hand the score is positive exactly when the row is flagged |
| Cruzamentos.StockResult | backend/app/pipeline/cruzamentos.py:78-101 | one merged row gives the `estoque_vs_vendas` result with its SKU, period, stock, sales and score, flagged exactly when sales exceed stock |
| Cruzamentos.NoStockScore | backend/app/pipeline/cruzamentos.py:86-89 | with no stock on hand, a non-zero sale no larger than the (negative) stock scores 1 although the row is not flagged |
| Cruzamentos.StockVsSales | backend/app/pipeline/cruzamentos.py:13-109 | the column checks, then one result per merged row |
| Cruzamentos.DivergenceCrossMultiplied | backend/app/pipeline/cruzamentos.py:182-185 | with a finite threshold a row is flagged exactly when the cross-multiplied gap exceeds it |
| Cruzamentos.DivergencesFromRows | backend/app/pipeline/cruzamentos.py:173-201 | every result comes from a scorable merged row, in order |
| Cruzamentos.NaNThresholdFlagsNothing | backend/app/pipeline/cruzamentos.py:185 | a NaN threshold flags nothing |
| Cruzamentos.Threshold | backend/app/pipeline/cruzamentos.py:165-168 | the parsed environment value, or 10.0 when it is absent or rejected |
| Cruzamentos.PriceDivergence | backend/app/pipeline/cruzamentos.py:111-208 | the column checks, then the results of the scorable rows |
| Cruzamentos.ExecuteRules | backend/app/pipeline/cruzamentos.py:210-277 | rule 1's results, then rule 2's, each when its keys are given and its tables exist |
| Cruzamentos.NoSalesNoRules | backend/app/pipeline/cruzamentos.py:227-248 | without `vendas_id` no rule runs |
| Cruzamentos.CountsByRuleCount | backend/app/pipeline/cruzamentos.py:302-305 | each rule present counts its results, and a rule with none is absent |
| Cruzamentos.CountsSum | backend/app/pipeline/cruzamentos.py:302-305 | the counts add up to the number of results |
| Cruzamentos.SortByMagnitudePermutes | backend/app/pipeline/cruzamentos.py:308 | the sort permutes its input |
| Cruzamentos.SortByMagnitudeSorted | backend/app/pipeline/cruzamentos.py:308 | the sort orders by non-increasing magnitude |
| Cruzamentos.SortByMagnitudeStable | backend/app/pipeline/cruzamentos.py:308 | ties keep their input order |
| Cruzamentos.TopTenMeaning | backend/app/pipeline/cruzamentos.py:308-309 | the top list is ordered and drawn from the results; no result left out is larger than one kept |
| Cruzamentos.CountRules | backend/app/pipeline/cruzamentos.py:302-305 | the counting loop gives `CountsByRule` |
| Cruzamentos.FormatTop | backend/app/pipeline/cruzamentos.py:312-320 | one formatted entry per top result, in order |
| Cruzamentos.Summarise | backend/app/pipeline/cruzamentos.py:284-326 | the total, the counts and the formatted top ten |
| Cruzamentos.EmptySummary | backend/app/pipeline/cruzamentos.py:294-299 | no results: total 0, no counts, no top list |
| Limpeza.Deaccent | backend/app/pipeline/limpeza.py:25-26 | stripping accents never lengthens a name and leaves ASCII text as it is |
| Limpeza.UnderscoreNameChars | backend/app/pipeline/limpeza.py:30 | turning runs of white space into `_` leaves only name characters when only lower-case letters, digits and white space came in |
| Limpeza.SqueezeNameChars | backend/app/pipeline/limpeza.py:33 | squeezing `_` runs keeps only name characters |
| Limpeza.SqueezeSingle | backend/app/pipeline/limpeza.py:33 | no two underscores in a row remain |
| Limpeza.NormalizedIsSnake | backend/app/pipeline/limpeza.py:24-34 | every name comes out in snake case |
| Limpeza.SnakeNameFixed | backend/app/pipeline/limpeza.py:24-34 | a snake-case name is its own normal form |
| Limpeza.NormalizeNameIdempotent | backend/app/pipeline/limpeza.py:16 | normalising a name twice is normalising it once |
| Limpeza.RenameColumns | backend/app/pipeline/limpeza.py:22-38 | the loop renames every column in order |
| Limpeza.NormalizeColumns | backend/app/pipeline/limpeza.py:13-39 | the frame with every column renamed |
| Limpeza.NormalizeColumnsIdempotent | backend/app/pipeline/limpeza.py:16 | names change but not their number or order, and a second pass changes nothing |
| Limpeza.DropDuplicates | backend/app/pipeline/limpeza.py:223-237 | each distinct row once, at its first occurrence |
| Limpeza.DropDuplicatesEmbeds | backend/app/pipeline/limpeza.py:223 | the kept rows lie in the input in order |
| Limpeza.CleanRowsSubsequence | backend/app/pipeline/limpeza.py:221-238 | every strategy keeps a subsequence of the rows |
| Limpeza.CleanRowsIdempotent | backend/app/pipeline/limpeza.py:208 | every strategy is idempotent |
| Limpeza.StrategiesNested | backend/app/pipeline/limpeza.py:221-238 | strict keeps no row that smart drops, and smart none that conservative drops |
| Limpeza.DropDupesAndNas | backend/app/pipeline/limpeza.py:204-266 | `ZeroDivisionError` exactly when the frame has no rows, otherwise the cleaned frame |
| Limpeza.EmptyFrameRaises | backend/app/pipeline/limpeza.py:264 | a frame with a header and no rows makes every strategy raise |
| Limpeza.DropDupesAndNasFixed | backend/app/pipeline/limpeza.py:204-266 | an empty frame comes back empty, and other frames as the code cleans them |
| Vectors.RowPartsFromCells | backend/app/vectors.py:40-43 | every part names a present cell and its value |
| Vectors.CompleteRowParts | backend/app/vectors.py:40-43 | a row with no missing cell gives one part per column, in order |
| Vectors.RowTextParts | backend/app/vectors.py:40-43 | the loop over `row.items()` |
| Vectors.UniquesMeaning | backend/app/vectors.py:75 | each present value occurs once among the uniques, and nothing else does |
| Vectors.ColumnSummaryOmits | backend/app/vectors.py:76 | a column is left out exactly when it has no value in the window |
| Vectors.WindowPartsCount | backend/app/vectors.py:74-80 | only columns with a value contribute, one part each |
| Vectors.WindowTextParts | backend/app/vectors.py:74-80 | the loop over the window's columns |
| Vectors.ColumnSummaryLists | backend/app/vectors.py:76-80 | a column lists its values exactly when it has one to five distinct ones, else counts them |
| Vectors.SkuListMeaning | backend/app/vectors.py:93-96 | between one and ten distinct values of the window's `sku` column, when it has any |
| Vectors.FewSkusAllListed | backend/app/vectors.py:93-96 | a window with at most ten distinct SKUs lists them all |
| Vectors.RowChunks | backend/app/vectors.py:37-65 | the per-row loop gives `PerRow` |
| Vectors.MakeRowChunk | backend/app/vectors.py:39-65 | row `i`'s text, metadata and row data |
| Vectors.WindowChunks | backend/app/vectors.py:66-102 | the window loop gives `Windows` |
| Vectors.MakeWindowChunk | backend/app/vectors.py:69-102 | one window's text, metadata and rows |
| Vectors.CreateTextChunks | backend/app/vectors.py:23-104 | one chunk per row for a table that fits, one per window otherwise |
| Vectors.SmallTableChunks | backend/app/vectors.py:37-65 | one chunk per row, in order, each knowing its row and the table size |
| Vectors.SingleRows | backend/app/vectors.py:37-65 | those chunks together hold all the rows |
| Vectors.WindowsPartitionRows | backend/app/vectors.py:68-70 | `ceil(n / size)` windows, the `k`-th from `k * size`; together they hold every row once |
| Vectors.WindowsMeta | backend/app/vectors.py:85-90 | window `k` carries its bounds, its size and the table size |
| Ranges.SpansInRange | backend/app/vectors.py:68-69 | every span lies within the rows and holds at least one |
| Ranges.SpanBounds | backend/app/vectors.py:68-69 | span `k` runs from `k * size` to `min(k * size + size, n)` |
| Ranges.SpanCount | backend/app/vectors.py:68 | the spans are the fewest that cover the rows |
| Ranges.LastSpanEnds | backend/app/vectors.py:69 | the last span ends at the last row |
| Ranges.SpansPartition | backend/app/vectors.py:68-69 | the spans tile the rows |
| CsvUtils.DetectDelimiter | backend/app/utils/utils.py:30-40 | `;` exactly when the first line holds more semicolons than commas, `,` otherwise |
| CsvUtils.DelimiterFirstLineOnly | ImportacaoMongoDB/utils/utils.py:9-20 | only the first line matters |
| CsvUtils.FirstParam | backend/app/utils/utils.py:51-52 | `parse_qs` keeps no blank value, so a value found is never empty |
| CsvUtils.AdjustSheetsLink | backend/app/utils/utils.py:43-54 | the export link, sheet id and gid for a Sheets link; the link itself otherwise |
| CsvUtils.SheetIdIsSegment | backend/app/utils/utils.py:49 | the sheet id is the segment after the first `/d/` |
| CsvUtils.GidNonBlank | backend/app/utils/utils.py:52 | the gid is never blank |
| CsvUtils.GidClean | backend/app/utils/utils.py:51-53 | for a query without `%`, the gid holds no `&`, `#`, `+` or space |
| CsvUtils.FragmentGidIgnored | ImportacaoMongoDB/utils/utils.py:30-32 | a gid given only in the fragment is ignored, giving gid 0 |
| CsvUtils.ExportGid | backend/app/utils/utils.py:53 | the gid read back from an export link is the gid written, unquoted |
| CsvUtils.ExportSheetId | backend/app/utils/utils.py:49-53 | the sheet id read back from an export link is the one written |
| CsvUtils.AdjustIdempotent | backend/app/utils/utils.py:43-54 | for a gid without `%`, rewriting an export link gives it back |
| CsvUtils.AdjustNotIdempotent | backend/app/utils/utils.py:52-53 | the gid is unquoted when read but written as it is, so an escaped gid loses a level of escaping on each rewrite |
| CsvUtils.CollectionName | backend/app/utils/utils.py:123 | the name is taken from the last path segment, so it holds no `/` |
| CsvUtils.CollectionOfFile | ImportacaoMongoDB/utils/utils.py:96 | `dir/stem.csv` goes into collection `stem` |
| CsvUtils.RepairColumn | backend/app/utils/utils.py:24-25 | the inner loop applies the repair table in order to one column |
| CsvUtils.RepairEncoding | backend/app/utils/utils.py:9-27 | every cell of an object column as text, repaired; other columns untouched |
| CsvUtils.RepairKeepsCleanText | backend/app/utils/utils.py:13-25 | text with none of the broken spellings stays as it is |
| CsvUtils.RepairOrder | backend/app/utils/utils.py:17-18 | the tab-terminated spelling is repaired whole, before the shorter key |
| CsvUtils.RepairSaida | backend/app/utils/utils.py:14 | `Sa?a` becomes `Saída`, which no later key touches |
| CsvUtils.CleanNames | backend/app/utils/utils.py:141 | every name stripped and upper-cased |
| CsvUtils.NormalizedRows | backend/app/utils/utils.py:133-161 | names stripped and upper-cased, date columns converted, and only rows holding a value kept |
| CsvUtils.NormalizedWithoutDates | backend/app/utils/utils.py:141-144 | a frame without date columns only loses its empty rows |
| CsvUtils.NormalizeFrame | backend/app/utils/utils.py:133-161 | the loop over the columns gives `NormalizedRows` |
| CsvUtils.ConvertColumn | backend/app/utils/utils.py:148-154 | one date column parsed as `%d/%m/%Y`, unparseable cells becoming NaT |
| UrlQuote.Unquote | backend/app/utils/utils.py:51 | `unquote` as `parse_qs` applies it never empties a non-empty text |
| UrlQuote.ShortcutAgrees | backend/app/utils/utils.py:51 | the no-`%` shortcut changes nothing |
| UrlQuote.MalformedReplaced | backend/app/utils/utils.py:51 | a malformed byte sequence becomes U+FFFD |
| UrlQuote.UnquoteQuote | backend/app/utils/utils.py:51 | `unquote` undoes the full escaping of any text |
| Normalizer.NormalizeCommon | ImportacaoMongoDB/modules/normalizer.py:8-13 | `SKU` as text and `DATA` parsed as `%d/%m/%Y`, when present |
| Normalizer.ApplyRule | ImportacaoMongoDB/modules/normalizer.py:15-38 | the remaps of the first rule whose name the lower-cased file name holds |
| Normalizer.RuleFor | ImportacaoMongoDB/modules/normalizer.py:16-33 | the adjustments rule exactly when the lower-cased name holds `ajustes_estoque_2025`, else returns exactly on `devolucao`, else cancellations exactly on `cancelamento` |
| Normalizer.Remap | ImportacaoMongoDB/modules/normalizer.py:22 | `replace(mapeamento)` on one cell: only a text equal to a key changes, to the value of the first such key |
| Normalizer.NormalizeImport | ImportacaoMongoDB/modules/normalizer.py:3-40 | the common step, then the file's rule |
| Normalizer.CancellationColumns | ImportacaoMongoDB/modules/normalizer.py:35-38 | the flag remap applies at a column exactly when it is the first `ATIVO_CANCELADO` or `CONFIRMADO_CANCELADO` column, and no column is both |
| Normalizer.StagesDisjoint | ImportacaoMongoDB/modules/normalizer.py:8-38 | no rule remaps `SKU` or `DATA` |
| Normalizer.AbsentTargetsUnchanged | ImportacaoMongoDB/modules/normalizer.py:16-38 | a rule whose columns are absent changes nothing |
| Normalizer.OnlyCancellationsRemapFlags | ImportacaoMongoDB/modules/normalizer.py:16-38 | the two cancellation flag columns are remapped only under the cancellations rule: a file whose name selects no rule or an earlier one keeps their cells |
| Normalizer.DateColumnParsed | ImportacaoMongoDB/modules/normalizer.py:12-13 | a zero-padded `DD/MM/YYYY` becomes that date, and text `strptime` rejects becomes NaT |
| Normalizer.RemapIdempotent | ImportacaoMongoDB/modules/normalizer.py:17-33 | every remap of every rule is idempotent: no mapped value is remapped again |
| Normalizer.ImportIdempotent | ImportacaoMongoDB/modules/normalizer.py:3-40 | normalising a frame twice changes nothing more |
| Utf8.Decode | backend/app/routers/datasets.py:23 | strict UTF-8 decoding: the text, or `None` where Python raises |
| Utf8.EncodeThenDecode | backend/app/routers/datasets.py:23-32 | encoding then decoding gives the text back |
| Utf8.DecodeThenEncode | backend/app/routers/datasets.py:23-32 | decoding well-formed bytes and encoding the text gives the bytes back |
| Utf8.CutCharacter | backend/app/routers/datasets.py:22-23 | well-formed text followed by a lone multi-byte lead byte is not well formed |
| Utf8.Latin1RoundTrip | backend/app/routers/datasets.py:35 | Latin-1 decoding loses nothing |
| Dicts.FromPairsLookup | backend/app/routers/datasets.py:68-78 | after `d[k] = v` over the pairs, a pair's key is present and holds that pair's value when no later pair has the key |
| Dicts.FromPairsOrder | backend/app/routers/datasets.py:68-78 | there are no more keys than pairs, and with distinct keys the keys come out in the pairs' order |

## Left out

- Floating point: every float is an exact rational. This covers `PyFloat.ParseFloat`, the shares in `FraudRates`, `FraudReport` `highPercent`, the scores and deltas in `Cruzamentos`, and the missing percentage in `InsightReport`. Binary64 rounding, overflow and underflow are not modelled. The `.1f` format is modelled as round-half-even on the exact rational (`InsightReport.Nearest`).
- `round(..., 2)` display fields of the findings (`percentual_acima_media`, `media_geral`) and the report's clock fields (`timestamp_analise`, `tempo_analise_segundos`) are not modelled: they need floating point or the clock.
- Text.Lower: case mapping and the `\w`/`isspace` classes are exact for ASCII and Latin-1 only. Other characters are left alone, so `"ſelect x"`, which Python upper-cases to `SELECT X`, fails `DataAgent.IsSelect`.
- Limpeza.Deaccent: accent stripping covers the Latin-1 precomposed letters and the combining marks U+0300-U+036F, not the full NFD decomposition and `unicodedata.combining`. `"ăb"` gives `"b"` in the model and `"ab"` in Python. `"a⃗b"` gives `"a_b"` in the model and `"ab"` in Python.
- Records.Value: documents hold only text or null. A numeric SKU, which compares unequal to its text in the cross-category detector's sets, cannot be represented.
- Calendar.ParseIso: `fromisoformat` follows the CPython 3.7-3.10 grammar. Later grammars and embedded NUL characters are not modelled.
- `\d` in the query patterns is an ASCII digit only. Python also accepts other Unicode decimal digits.
- PyFloat.ParseFloat: only ASCII digits are recognised. Python's `float` also reads other Unicode decimal digits, so `float("١٢")` is 12.0 where the model rejects the text; `InsightAgent` then counts such a cell as categorical rather than numeric.
- Vectors.UniquesMeaning: uniqueness compares the values' text, not pandas values, so `"1"` and `1` are one value in the model and two in pandas.
- Vectors.MakeRowChunk: `row_index` is the row's position; the program uses `int(idx)` of the frame's index.
- Datasets.Read: preview cells have no NaN or infinity among the floats.
- QueryAgent.Classify: the verdict of the `padroes_perguntas` regex dictionary is taken as the parameter `pattern`. Its regular expressions are not modelled.
- QueryAgent.NormalizeDateFixpoint: proved only for a current year of one, three or four digits. A two-digit current year flips to `20yy` on the second pass.
- QueryAgent.NormalizeDate: `datetime.now().year` is the parameter `thisYear`.
- Inconsistencies.CheckCollection: iteration over a Python set is modelled as any order (`:|`), so which ten entries are shown is left open. The contracts hold for every order. Likewise the cross-category detector takes the order of its common SKUs as a parameter.
- Inconsistencies.Analyse: the HTML text of the answer and its exception path are not modelled.
- CsvUtils.GidClean: stated only for queries without `%`, because `parse_qs` unquotes the value and `%2B`, `%26` or `%23` decode to `+`, `&` or `#`.
- CsvUtils.AdjustIdempotent: stated only for queries without `%`, because each rewrite unquotes the gid once more (`CsvUtils.AdjustNotIdempotent`).
- `_get_cache_key` is not modelled: it uses `hash()`, which Python randomises per process.
- QueryTable.FormatTable: the `formata_dados` callback is applied by the caller; the rows arrive already formatted.
- MongoDB, DuckDB and HTTP are not modelled, nor are logging and `print`. A database is a map from collection names to document sequences. `SHOW TABLES`, query execution, table existence and the frames that pandas reads are parameters.
- Cruzamentos: `pd.merge`, `groupby(...).sum()`, `to_period('M')` and the date conversion are not modelled. The rules start from the merged rows.
- Datasets.InferSchema: the dtype names come in as text; the CSV readers that produce them are not modelled. The uuid text of the dataset id is a parameter.
- DataAgent.SessionMemory: the `Agent` object is opaque; the agent built for a new session is a parameter.
- InsightReport: the `Agent` object and its instructions are not modelled.
- Limpeza: only the pandas branch of `drop_dupes_and_nas` is modelled, as POLARS `unique()` does not keep row order.
- `gerar_excel_relatorio_fraude`, the Excel export, is not modelled.

## Findings

| source | as written | input that shows it | evidently intended | confidence | as-written member | corrected member |
|---|---|---|---|---|---|---|
| backend/app/pipeline/limpeza.py:264 | the closing log line divides `final_rows` by `initial_rows` | a frame with a header and no rows, for any strategy | an empty frame comes back empty | high, not executed | Limpeza.EmptyFrameRaises | Limpeza.DropDupesAndNasFixed |
| backend/app/modules/detector_fraude.py:657 | tests `'Trocas com mais saídas que entradas'`, a type no detector emits (the volume detector emits `'Volume anômalo de devoluções'`, :104) | any findings that include a volume anomaly | the balance recommendation follows the volume detector, `detectar_trocas_mais_saidas_que_entradas` (:45), whose label at :424 is 'Trocas desbalanceadas' | medium, not executed | FraudReport.DeadAdvice | FraudReport.FixedBalance |
| backend/app/modules/detector_fraude.py:669 | tests `'Cliente reincidente'` and `'Produto reincidente'` for set membership, while the emitted types carry the suffix `em trocas/divergências` (:369, :389) | any findings that include a repeat customer | the history recommendation follows the two recidivism types | high, not executed | FraudReport.DeadAdvice | FraudReport.FixedHistory |
