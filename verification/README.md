# Betting-pipeline core in Dafny

This project models the pure core of a football-betting pipeline written in
JavaScript, and proves properties of it. The pipeline works in these steps:

1. **Builders** turn each fixture into at most one leg per market: a draw
   safety, an over-1.5 first-half goals, an implied under-2.5, and a strict
   both-teams-to-score. The legs all go through one shared constructor,
   `createBuilderLeg`.
2. The **registry** runs the four builders over every fixture and tags each
   leg with the builder that made it.
3. The **rule engine** filters the legs:
   - it keeps legs with odds in [1.08, 1.5] and statistics available;
   - it moves the top-five-league legs to the front with a stable sort;
   - it keeps at most two legs per market family and two per league, scanning
     greedily;
   - it attaches a league weight of 1.25 or 1.0.
4. The **meta model** gives each leg a confidence. The confidence starts from
   a base derived from the odd, adds a boost from the form/xG/shots/momentum/h2h
   signals, and is capped at 100. The model then attaches the HIGH_ODD and
   LOW_CONFIDENCE risk flags and drops legs below 62.
5. The **mixer** enumerates three-leg combinations in lexicographic order (at
   most 60 of them). It scores each ticket with a total odd rounded to two
   decimals and a rounded average confidence. It sorts the tickets by average
   confidence with a stable sort and keeps the top three.
6. The **Telegram view** adds a hashtag, a colour and a fallback marker to
   each ticket.
7. **Evaluation** happens two ways:
   - the daily streak update counts the day's wins and losses and extends or
     resets the streak;
   - prediction settlement matches predictions to finished matches by fixture
     id, decides OVER_1_5 and BTTS_YES, and reports the hit rate.
8. The **prediction validator** checks a JSON array against the prediction
   schema and reports path-tagged errors.

The modules follow the source layout:

| module | file |
|---|---|
| `Seqs` | generic sequence lemmas: filter, flatten, subsequence, map |
| `JsValues` | JavaScript value semantics: truthiness, `Math.round` and `toFixed(2)` |
| `Legs` | `createBuilderLeg` |
| `Builders` | the four builders |
| `Registry` | the registry |
| `RuleEngine` | the rule engine |
| `MetaModel` | the meta model |
| `Combinations` | `generateCombinations` |
| `Tickets` | `scoreTicket` and the ranking |
| `Mixer` | `mixAndRank` |
| `TicketOutput` | the Telegram mapping |
| `Streak` | `evaluateTickets` |
| `Settlement` | prediction settlement |
| `Validation` | the validator |

Several operations get a partner that states the same thing independently:

- The stable sort gets a reference partition.
- The greedy caps are a pure reference function `Capped`. An imperative
  `ApplyCaps` with counter maps is proved equal to it.
- The combination loops are proved to emit a prefix of the lexicographic list
  of all index triples.
- The validator's error list is proved empty exactly when a declarative
  `AllValid` holds.

The model also proves a consequence of the source's constants: with the
signals `mixAndRank` passes in, no leg that survives the rule engine reaches
confidence 62. So `mixAndRank` returns no tickets (`Mixer.MixAndRank`).

## Model

| member | source | states |
|---|---|---|
| `Legs.CreateBuilderLeg` | core/builders/utils.js:1-24 | No leg unless there is a fixture, its fixture id, league id and both teams are truthy, and the odd is a number (not NaN). Otherwise every field is copied from the fixture, the team labels are resolved, and the meta takes the builder's values with the nullish and falsy defaults: statistics available, league weight 1, and a derived family. |
| `Legs.TeamLabel` | core/builders/utils.js:13-14 | A team object with a non-empty name becomes its name. Any other value is kept. A truthy team stays truthy. |
| `Legs.DeriveFamily` | core/builders/utils.js:21 | The derived family is the market's first three ASCII letters (all of them if fewer), each upper-cased. Digits and separators are skipped. It is empty exactly when the market has no ASCII letter. |
| `Legs.DeriveFamilyUnderSafe` | core/builders/utils.js:21 | The market U25_SAFE gets the family USA. |
| `Legs.DeriveFamilyLowerCase` | core/builders/utils.js:21 | The market o1.5_ht gets the family OHT: lower-case letters are upper-cased. |
| `Legs.DeriveFamilyShort` | core/builders/utils.js:21 | The market 1X2 gets the one-letter family X. |
| `Legs.DeriveFamilyIdempotent` | core/builders/utils.js:21 | Deriving a family from a derived family changes nothing. |
| `Builders.DrawSafety` | core/builders/builder_draw_safety.js:3-9 | At most one leg. It is absent exactly when the identity fails or the draw odd is not a number. Otherwise it is market DRAW_SFTY, family 1X2, with the fixture's draw odd. |
| `Builders.FirstHalfGoals` | core/builders/builder_first_half_goals.js:3-9 | At most one leg. It is absent exactly when the identity fails or the first-half over-1.5 odd is not a number. Otherwise it is market O15_HT, family GOALS. |
| `Builders.ImpliedUnder` | core/builders/builder_under_safe.js:6 | The implied under odd is 1.8 minus the over-2.5 odd, but never below 1.01. |
| `Builders.UnderSafe` | core/builders/builder_under_safe.js:3-11 | A falsy over-2.5 odd (missing, 0 or NaN) yields no leg. Otherwise there is one leg when the identity holds, with the implied under odd. |
| `Builders.BttsPick` | core/builders/builder_btts_strict.js:4 | The BTTS "no" odd is used when it is truthy, and otherwise the "yes" odd. A missing BTTS block gives no odd. |
| `Builders.BttsStrict` | core/builders/builder_btts_strict.js:3-9 | At most one leg. It is absent exactly when the identity fails or the picked BTTS odd is not a number. |
| `Registry.NonNull` | core/builders/registry.js:18-19 | Null entries in a builder's result are skipped. The result lists the non-null entries one for one, in their order, duplicates included, and nothing else. |
| `Registry.Tag` | core/builders/registry.js:20 | Each leg is copied with the builder's name and nothing else changes. |
| `Registry.PresentReturned` | core/builders/registry.js:17-21 | A builder that returns its legs as a list contributes exactly those legs. |
| `Registry.ReferenceOrder` | core/builders/registry.js:6-11 | Per fixture, the output is the draw-safety, first-half-goals, under-safe and BTTS-strict legs, in that order, each tagged with its builder. |
| `Registry.RunBuildersAppend` | core/builders/registry.js:13-26 | Running over two fixture lists gives the two outputs concatenated, so fixture order is preserved. |
| `Registry.AtMostFourPerFixture` | core/builders/registry.js:13-26 | The registry yields at most four legs per fixture. |
| `Registry.Provenance` | core/builders/registry.js:13-26 | Every output leg is a leg some builder produced for some fixture, tagged with that builder's name. |
| `RuleEngine.LeagueWeight` | core/mixer/ruleEngine.js:11-13 | The weight is 1.25 exactly for the five top leagues and 1.0 exactly for the others. |
| `RuleEngine.Eligible` | core/mixer/ruleEngine.js:19-21 | Exactly the input legs with odds in [1.08, 1.5] and statistics available pass: every kept leg is such an input leg, and every such input leg is kept. |
| `RuleEngine.SortByWeight` | core/mixer/ruleEngine.js:22 | The result is sorted top leagues first and is a permutation of the input. Within each class the input order is kept (stability). |
| `RuleEngine.StableSortUnique` | core/mixer/ruleEngine.js:22 | Any ordering that is sorted and keeps each class's order is the sort's result, so the stable sort is unique. |
| `RuleEngine.FamilyKey` | core/mixer/ruleEngine.js:24 | The cap key is the leg's family, or its market when the family is empty. |
| `RuleEngine.Counter` | core/mixer/ruleEngine.js:27-30 | A counter map reads 0 for an absent key. |
| `RuleEngine.Admit` | core/mixer/ruleEngine.js:27-35 | A leg is kept exactly when both its family count and its league count are below 2. Keeping a leg increments both counters, and dropping it leaves them unchanged. |
| `RuleEngine.ApplyCaps` | core/mixer/ruleEngine.js:16-36 | The imperative filter with counter maps equals the reference greedy scan, and leaves no family or league more than twice. |
| `RuleEngine.CappedWithinCaps` | core/mixer/ruleEngine.js:27-35 | After the greedy scan no family and no league appears more than twice. |
| `RuleEngine.CappedSubseq` | core/mixer/ruleEngine.js:23-36 | The kept legs are a subsequence of the input, in input order. |
| `RuleEngine.CappedPrefix` | core/mixer/ruleEngine.js:23-36 | The scan is online: the legs kept from a prefix of the input are a prefix of the legs kept from all of it. |
| `RuleEngine.CappedKeepsAdmitted` | core/mixer/ruleEngine.js:27-35 | A leg that fits the caps when it is reached is kept. |
| `RuleEngine.CappedMaximal` | core/mixer/ruleEngine.js:27-35 | A dropped leg's family or league is full, with exactly two kept. |
| `RuleEngine.AttachWeight` | core/mixer/ruleEngine.js:37-43 | Only the meta's league weight changes, and it is set from the league. |
| `RuleEngine.WeightedCounts` | core/mixer/ruleEngine.js:37-43 | Attaching weights changes no family or league count. |
| `RuleEngine.ApplyRules` | core/mixer/ruleEngine.js:15-44 | Every kept leg is eligible and carries its league's weight. The result is top-leagues-first, within both caps, no longer than the input, and a subsequence of the weighted sorted eligible legs. |
| `RuleEngine.ApplyRulesProvenance` | core/mixer/ruleEngine.js:15-44 | Each output leg is an eligible input leg with its weight attached. |
| `MetaModel.Base` | core/ai/metaModel.js:2 | The base is (1.6 − odd)·100 clamped to [30, 85], with each side of the clamp stated separately. |
| `MetaModel.EffectiveWeight` | core/ai/metaModel.js:8 | The league weight is used when it is non-zero, and 1 otherwise. |
| `MetaModel.Confidence` | core/ai/metaModel.js:10-15 | The confidence never exceeds 100. It is at least 30 when the signals and the weight are non-negative. |
| `MetaModel.RiskFlags` | core/ai/metaModel.js:17-19 | HIGH_ODD is present exactly when the odd exceeds 1.4. LOW_CONFIDENCE is present exactly when the confidence is below 62. |
| `MetaModel.ScoreLeg` | core/ai/metaModel.js:1-31 | Scoring changes only the confidence and the risk flags. The flags agree with the new confidence and the odd. |
| `MetaModel.ScoreAntitoneInOdd` | core/ai/metaModel.js:1-15 | With everything else fixed, a higher odd never gives a higher confidence. |
| `MetaModel.ExampleLowOdd` | core/ai/metaModel.js:1-19 | Odd 1.10, weight 1 and no signals score 55 with only LOW_CONFIDENCE. |
| `MetaModel.ExampleTopLeague` | core/ai/metaModel.js:2-15 | Odd 1.20, weight 1.25 and no signals score 46. |
| `MetaModel.ScoreLegs` | core/ai/metaModel.js:33-37 | The retained legs are exactly the scored legs at confidence 62 or more, in input order. |
| `MetaModel.ThresholdAlone` | core/ai/metaModel.js:36 | The LOW_CONFIDENCE test in the filter is redundant: the result equals filtering by the threshold alone. |
| `Combinations.TriplesShape` | core/mixer/mixerEngine.js:6-8 | The full triple list has n(n−1)(n−2)/6 entries, each with i < j < k < n, in strictly increasing lexicographic order. |
| `Combinations.TriplesMembers` | core/mixer/mixerEngine.js:6-8 | A triple is listed exactly when i < j < k < n. |
| `Combinations.TriplesEmptyIff` | core/mixer/mixerEngine.js:6-8 | There is no triple exactly when there are fewer than three legs. |
| `Combinations.Pick` | core/mixer/mixerEngine.js:9 | Each combination is the three legs at its triple's indices. |
| `Combinations.GenerateCombinations` | core/mixer/mixerEngine.js:4-17 | With three legs per ticket, the loops emit the legs of the first `targetCount` triples in lexicographic order. A non-positive target or any other ticket size gives none. |
| `Tickets.OddFactor` | core/mixer/mixerEngine.js:20 | A zero (falsy) odd counts as 1 in the product. |
| `Tickets.OddProduct` | core/mixer/mixerEngine.js:20 | A product of odds that are all at least 1 is at least 1. |
| `Tickets.AverageConfidence` | core/mixer/mixerEngine.js:21 | There is no average (NaN) exactly when the ticket has no legs. Otherwise the value is the mean rounded half up, and it lies between the smallest and largest leg confidence. |
| `Tickets.ScoreTicket` | core/mixer/mixerEngine.js:19-33 | The ticket keeps its legs and counts them. Its total odd is within 0.005 of the product and a whole number of hundredths, and it stays at least 1 when every odd is. |
| `Tickets.SortDesc` | core/mixer/mixerEngine.js:46 | The result is sorted by descending average confidence and is a permutation of the tickets. |
| `Tickets.SortStable` | core/mixer/mixerEngine.js:46 | Tickets with equal average keep their relative order. |
| `Tickets.RankTickets` | core/mixer/mixerEngine.js:46-47 | The result has min(n, 3) tickets, sorted, all from the input. No left-out ticket ranks above a kept one. |
| `Mixer.ReferenceSignals` | core/mixer/mixerEngine.js:37-43 | The signals are form = 10·weight, xG = 8·weight, shots 5, momentum 6 and h2h 4. |
| `Mixer.ReferenceScoreCeiling` | core/mixer/mixerEngine.js:36-43 | With these signals, a leg with odd at least 1.08 and weight at most 1.25 scores at most 61. |
| `Mixer.NoLegSurvives` | core/mixer/mixerEngine.js:36-43 | No leg that passes the rule engine survives the 62 threshold. |
| `Mixer.ScoreTickets` | core/mixer/mixerEngine.js:46 | There is one scored ticket per combination, in order. |
| `Mixer.Mix` | core/mixer/mixerEngine.js:45-47 | The tickets are exactly the ranking (stable sort by average confidence, top three) of the scored tickets built from the first 60 lexicographic index triples of the scored legs. So there are min(3, number of triples) of them, sorted, each made of three legs drawn in index order. |
| `Mixer.MixAndRankWith` | core/mixer/mixerEngine.js:35-48 | For any signal provider, the result is exactly the ranking of the scored tickets built from the first 60 lexicographic triples of the legs that pass the rule engine and the confidence threshold: at most three sorted tickets drawn from those legs, and none exactly when fewer than three legs are retained. |
| `Mixer.MixAndRank` | core/mixer/mixerEngine.js:35-48 | With the source's own signals, no ticket is produced. |
| `TicketOutput.Tag` | outputs/generateTickets.js:37 | The tag is `#` followed by the markets joined by `_`. |
| `TicketOutput.SplitJoin` | outputs/generateTickets.js:37 | Joining parts that contain no separator, then splitting, returns the parts. |
| `TicketOutput.JoinSplit` | outputs/generateTickets.js:37 | Splitting any string, then joining, returns the string. |
| `TicketOutput.TagRecoversMarkets` | outputs/generateTickets.js:37 | When no market contains `_`, the markets can be read back from the tag. |
| `TicketOutput.TagAmbiguous` | outputs/generateTickets.js:37 | DRAW_SFTY alone and DRAW followed by SFTY give the same tag, so tags can be ambiguous. |
| `TicketOutput.EmojiFor` | outputs/generateTickets.js:38 | Green exactly when the average exists and is above 75. |
| `TicketOutput.FallbackFor` | outputs/generateTickets.js:39 | "HT-only" exactly when the ticket has fewer than three legs. |
| `TicketOutput.Telegram` | outputs/generateTickets.js:35-40 | There is one view per ticket, in order, holding the ticket unchanged with its tag, colour and fallback. |
| `Streak.EvaluateTickets` | cron_jobs/evaluate.js:25-35 | One day record is appended and history is kept. Wins plus losses equal the day's result count. The streak grows by one exactly when every result of the day is a win, and is reset to 0 otherwise. |
| `Streak.AllWinsIff` | cron_jobs/evaluate.js:28-30 | "wins equals the day's count" holds exactly when every result of the day is a win. |
| `Streak.LossesAreNonWins` | cron_jobs/evaluate.js:29 | Losses, computed by subtraction, equal the number of the day's results that are not wins. |
| `Streak.OtherDaysIgnored` | cron_jobs/evaluate.js:27 | Results dated on other days change nothing. |
| `Settlement.FixtureMap` | agents/evaluate_results.js:26-31 | Every entry is a match from the input, stored under its own fixture id. |
| `Settlement.FixtureMapKeys` | agents/evaluate_results.js:26-31 | An id is a key exactly when some match carries it. |
| `Settlement.FixtureMapLastWins` | agents/evaluate_results.js:26-31 | For a repeated id, the last match with that id is the one stored. |
| `Settlement.Goals` | agents/evaluate_results.js:43-44 | A goal count that is not a number is read as 0. |
| `Settlement.Hit` | agents/evaluate_results.js:47-52 | OVER_1_5 hits exactly when there are at least two goals. BTTS_YES hits exactly when both sides score. Every other market misses. |
| `Settlement.Settle` | agents/evaluate_results.js:43-65 | The item keeps the prediction and records the goals read and the hit verdict for them. |
| `Settlement.SettleAll` | agents/evaluate_results.js:35-66 | The items are exactly the predictions with a known match, in order, each settled against its match. |
| `Settlement.Summarise` | agents/evaluate_results.js:68-71 | The item count is the total and hits plus misses equal it. Hits count the hit items. The rate lies in [0, 100] and is 0 without items. |
| `Settlement.HitRate` | agents/evaluate_results.js:71 | The rate is within 0.005 of hits/total·100 and in [0, 100]. |
| `Settlement.Evaluate` | agents/evaluate_results.js:26-71 | The total is the number of predictions whose fixture id has a match, and hits plus misses equal it. |
| `Settlement.UnknownPredictionIgnored` | agents/evaluate_results.js:36-41 | A prediction without a known match leaves the whole summary unchanged. |
| `Settlement.AbsentIdNeverSettled` | agents/evaluate_results.js:36-41 | A prediction whose id no match carries is never settled. |
| `Validation.TypeOf` | scripts/validate_predictions.js:50 | `typeof` is "object" exactly for null, arrays and objects, and "string", "boolean" and "number" exactly for their kinds. |
| `Validation.TypeNames` | scripts/validate_predictions.js:45-51 | `typeMatches`: "integer" admits exactly the whole numbers, "string" and "boolean" admit exactly their kinds, and "undefined" admits nothing. |
| `Validation.OwnDefinition` | scripts/validate_predictions.js:74-75 | The corrected lookup finds a definition exactly when the schema itself declares the key. |
| `Validation.InheritedDefinition` | scripts/validate_predictions.js:74-75 | The lookup as written also finds the Object.prototype members, whose definition has no `type`. |
| `Validation.RequiredErrors` | scripts/validate_predictions.js:64-71 | The errors are exactly one "required" error per absent required key, in the schema's `required` order. There are none when every required key is present. |
| `Validation.EntryErrors` | scripts/validate_predictions.js:73-101 | A wrong type gives only the type error. A defined key is error-free exactly when its value satisfies type, length and range. An unknown key errors exactly when extra properties are forbidden. |
| `Validation.EntriesErrors` | scripts/validate_predictions.js:73-102 | An object's entries are error-free exactly when each entry is. |
| `Validation.ItemErrors` | scripts/validate_predictions.js:53-60 | A non-object item gives exactly one "must be an object" error at its index. |
| `Validation.ItemsErrorsOrdered` | scripts/validate_predictions.js:113-115 | Errors come out grouped by item, in index order. |
| `Validation.ValidateWith` | scripts/validate_predictions.js:105-118 | A non-array root gives exactly the root error. Otherwise every error points at an existing index. |
| `Validation.Validate` | scripts/validate_predictions.js:105-118 | The same holds for the corrected validator. |
| `Validation.ValidateEmptyIff` | scripts/validate_predictions.js:53-118 | The corrected validator reports nothing exactly when the root is an array of objects, each holding every required key and only declared keys that satisfy their definitions. |
| `Validation.MissingReported` | scripts/validate_predictions.js:64-71 | An absent required key is always reported at `/index/key`. |
| `Validation.UnexpectedReported` | scripts/validate_predictions.js:96-101 | An undeclared key is always reported as unexpected. |
| `Validation.ConfidenceAboveMaximum` | scripts/validate_predictions.js:93-95 | An integer confidence above 100 gives exactly the maximum error. |
| `Validation.EmptyTeamTooShort` | scripts/validate_predictions.js:85-87 | An empty team name gives exactly the minimum-length error. |
| `Validation.InheritedKeyMisreported` | scripts/validate_predictions.js:74-83 | As written, an own key "constructor" is reported as "tip mora biti undefined". The corrected lookup reports it as unexpected. |
| `Validation.SameVerdict` | scripts/validate_predictions.js:105-118 | Both lookups accept exactly the same inputs: the defect changes messages, not the verdict. |
| `Validation.RequiredNotInherited` | scripts/validate_predictions.js:65 | No required key is an Object.prototype member, so `key in item` means an own key here. |
| `Validation.ParseNatToString` | scripts/validate_predictions.js:67 | The index rendered into a path reads back as the same number. |
| `Validation.Message` | scripts/validate_predictions.js:55-100 | The type error reads "tip mora biti " followed by the type, and the unexpected-key error reads "neočekivano polje". Every message is non-empty. |

## Left out

- The following are parameters or are left out:
  - File and network I/O: reading fixtures, matches, predictions and results; writing outputs; `process.exit`; logging.
  - The clock: `today` is a parameter of `Streak.EvaluateTickets`.
  - The ticket id built from the date and `Math.random`: it is a parameter of `Tickets.ScoreTicket` and `Mixer.Mix`.
  - The signal provider: it is a parameter of `MetaModel.ScoreLegs`, and `mixAndRank`'s own provider is `Mixer.ReferenceSignals`.
- The ticket `date`, the `summary` string, the leg `reason` strings and the settlement `result` string ("h:a") are not modelled; they are formatting only.
- Numbers are exact reals. IEEE binary rounding, Infinity and `-0` are not modelled. NaN is modelled only where the source tests it: an odd that is not a number, and a ticket with no legs whose average is NaN.
- Legs.CreateBuilderLeg: odds are numbers or absent. A truthy non-numeric over-2.5 odd, which `1.8 - over25` in builder_under_safe.js would coerce to a number, is not modelled; the ingest step's `parseNumber` only delivers numbers or null.
- Tickets.Key: a ticket with no legs, whose average is NaN, ranks as 0. The comparator returns NaN there and the engine's order is then unspecified. `mixAndRank` only builds three-leg tickets, so this case does not arise.
- Streak.EvaluateTickets: `win` is a boolean rather than any truthy value. A `date` that is present but not a string, which would throw, is read as missing. A stored `streak` that is not a number is not modelled. The in-place mutation of `evaluation` is modelled as returning the updated record.
- Settlement: fixture ids are integers. String ids, and `Map`'s SameValueZero key equality between strings and numbers, are not modelled. JSON cannot hold NaN goal counts, so NaN goals are not modelled.
- Validation: an object's entries are taken in `Object.entries` order, which lists array-index keys such as "7" first in ascending order and then the other keys in insertion order. Producing that order from the parsed text is not modelled. Duplicate keys, which `JSON.parse` collapses, are not modelled. `formatErrors`, `loadPredictions` and the script's `main` are I/O and are left out.
- Validation.Message: states the two messages the finding is about and that every message is non-empty. It does not state every message's exact text.
- `readMergedForDate` and the rest of `outputs/generateTickets.js` outside the Telegram mapping are not part of this model, and neither are the ingest, data-fetching and tip-generation agents.

## Findings

| source | as written | input that shows it | evidently intended | confidence | as-written member | corrected member |
|---|---|---|---|---|---|---|
| scripts/validate_predictions.js:74 | `properties[key]` also finds the keys every object inherits from Object.prototype | an item with an own key `"constructor"` (or `"toString"`, `"__proto__"`, …) | look up only the schema's own properties, so that such a key is reported as "neočekivano polje" | not executed | `Validation.InheritedKeyMisreported` | `Validation.Validate` |
