# Lab report analysis, modelled in Dafny

This project models the core of a lab-report assistant. The assistant reads a
blood-test report as text and extracts (test name, value) pairs from its lines.
It matches each name against a fixed catalogue of reference ranges and
classifies each value as Low, Normal or High, with a severity tier. It then
computes a health score from 0 to 100 and writes a rule-based summary and
health guidance. The web front end adds small pure pieces:

- the score colour and the status banner;
- the status badge and the order of the results table;
- the grouping of the results into risk categories;
- the small Markdown-to-HTML converter used for the summary cards.

Modules, leaves first:

| module | file | models |
|---|---|---|
| `Optional`, `Text` | text.dfy | the Python string built-ins the core relies on (`lower`, `title`, `strip`, `split`, `splitlines`, `join`, `str(int)`), ASCII only |
| `Sequences` | sequences.dfy | list comprehensions with a condition |
| `StableSort` | stable_sort.dfy | Python's stable `sorted` for a key with a few values |
| `RangeTable`, `KeyBlocks`, `RangeTableFacts` | range_table.dfy, key_blocks.dfy, range_table_facts.dfy | `NORMAL_RANGES`: 54 tests, their ranges, units and aliases, and the facts that no spelling occurs twice and every range is ordered |
| `NormalRanges` | normal_ranges.dfy | `_build_alias_map` and `lookup` |
| `Patterns` | patterns.dfy | the two line regexes of the parser, as recognisers proved equal to the regex semantics (lazy name group, greedy value group, `\b`) |
| `Parser` | parser.dfy | the noise filter, `_clean_name`, `_add` and `parse_lab_values` with first-occurrence deduplication |
| `Analyzer` | analyzer.dfy | `_classify`, `_severity_level`, `_explain`, `_compute_health_score` and `analyze` |
| `AdviceRules`, `AiSummary` | advice_rules.dfy, ai_summary.dfy | the diet and lifestyle tables, the rule-based summary and guidance, `_split_ai_response`, and the choice between a model's reply and the rule-based text |
| `App` | app.dfy | `_score_color`, the status banner, `_status_badge`, the results-table order, `_RISK_CATEGORIES` and `_categorize_risks` |
| `AppMarkdown` | app_markdown.dfy | `_md_to_safe` |

Python floats are modelled as Dafny `real`s. Rounding is modelled
explicitly: `round(x)` rounds half to even, and `round(x, 1)` rounds to the
nearest tenth. The model's reply, the API key and the number formatting of
f-strings are parameters.

## Model

| member | source | states |
|---|---|---|
| Text.Lower | normal_ranges.py:448 | `str.lower` keeps the length and lower-cases each character on its own, so it maps letters to letters and spaces to spaces |
| Text.LowerIdempotent | normal_ranges.py:448 | lower-casing a second time changes nothing |
| Text.Title | ai_summary.py:239 | `str.title` keeps the length and changes only letter case |
| Text.Strip | normal_ranges.py:448 | `str.strip` leaves no whitespace at either end and never lengthens the text; `Text.StripIsSlice` states that only surrounding whitespace is cut |
| Text.StripIsSlice | parser.py:153 | the stripped text is one contiguous slice of the input, everything cut away before and after it is whitespace, and it starts at 0 when the input does not open with whitespace |
| Text.StripIdempotent | normal_ranges.py:448 | stripping a second time changes nothing |
| Text.StripLower | normal_ranges.py:448 | stripping and lower-casing commute, so the lookup key does not depend on their order |
| Text.Split | app.py:1425 | `split('\n')` gives at least one piece, and no piece holds the separator |
| Text.JoinSplit | app.py:1425 | joining the pieces of a split with the separator gives the text back |
| Text.SplitJoin | app.py:1442 | splitting a join of separator-free parts gives the parts back |
| Text.SplitLines | parser.py:191 | `splitlines()` is empty exactly for the empty text, and no line holds a line boundary |
| Text.SplitLinesJoin | parser.py:191 | lines joined with LF split back into the same lines when the last one is not empty |
| Text.NatToString | ai_summary.py:244 | `str(n)` for a natural number is a non-empty run of digits without a leading zero |
| Text.NatToStringValue | ai_summary.py:244 | reading the digits of `str(n)` back gives `n` |
| Text.IntToString | app.py:1133 | `str(n)` carries a minus sign exactly when `n` is negative, followed by the digits of its magnitude |
| NormalRanges.LowerAll | normal_ranges.py:432-433 | the aliases are lower-cased one by one, in order |
| NormalRanges.AddAliasesSpec | normal_ranges.py:432-433 | after the alias loop the map holds the earlier keys and the lower-cased aliases; every alias points at its canonical name; every other key keeps its target |
| NormalRanges.RangesOfOwner | normal_ranges.py:33-419 | every key of the dictionary comes from an entry with that canonical name, and maps to that entry's range |
| NormalRanges.RangesOfHas | normal_ranges.py:33-419 | every entry's canonical name is a key of the dictionary |
| NormalRanges.AliasMapValues | normal_ranges.py:427-434 | every target of the alias map is a dictionary key, so `NORMAL_RANGES[canonical]` in `lookup` cannot fail |
| NormalRanges.AliasMapKeys | normal_ranges.py:427-434 | the alias map answers exactly the canonical names and lower-cased aliases of the table |
| NormalRanges.AliasMapOwner | normal_ranges.py:427-434 | when no spelling occurs twice, each spelling of an entry leads to that entry's canonical name, so no later entry overwrites it |
| NormalRanges.KeysApart | normal_ranges.py:33-419 | when no spelling occurs twice, two different entries share no spelling and no canonical name |
| NormalRanges.CanonicalUnique | normal_ranges.py:33-419 | no canonical name belongs to two entries |
| NormalRanges.RangesOfEntry | normal_ranges.py:33-419 | the dictionary holds each entry's own range under its canonical name |
| NormalRanges.Lookup | normal_ranges.py:440-452 | a found test is a catalogue key together with that key's own range |
| NormalRanges.CanonicalLookup | normal_ranges.py:440-452 | every canonical name resolves to itself and its range |
| NormalRanges.AliasLookup | normal_ranges.py:427-452 | every alias resolves exactly as its canonical name does |
| NormalRanges.LookupNormalises | normal_ranges.py:448 | letter case and surrounding whitespace of the name make no difference to the answer |
| NormalRanges.LookupFound | normal_ranges.py:448-451 | a name is found exactly when its stripped, lower-cased form is a canonical name or alias of the table |
| NormalRanges.LookupClosed | normal_ranges.py:440-452 | looking up the canonical name a lookup returned gives the same answer again |
| NormalRanges.CatalogueRanges | normal_ranges.py:33-419 | no catalogue range is inverted or negative |
| NormalRanges.CatalogueEntries | normal_ranges.py:33-419 | every table entry is in the dictionary with its own range |
| NormalRanges.FastingGlucoseLookup | normal_ranges.py:245-249 | "Fasting Glucose" resolves to "fasting glucose", 70 to 100 mg/dL |
| RangeTableFacts.TableKeys | normal_ranges.py:33-419 | across the whole catalogue, no canonical name or lower-cased alias occurs twice, and each is already stripped and lower-case |
| RangeTableFacts.TableRanges | normal_ranges.py:33-419 | every catalogue range has `0 <= min_value <= max_value` |
| Patterns.SkipWhile | parser.py:128 | a greedy run of one character class: it ends at the end of the line or at the first character outside the class |
| Patterns.SkipWhileAt | parser.py:128 | a run that stops at a character outside the class ends exactly there |
| Patterns.ValueEnd | parser.py:131-132 | the value group starts with a digit and ends after it |
| Patterns.ValueEndSound | parser.py:131-132 | what the value group takes is a literal `\d+(\.\d+)?` followed by a word boundary |
| Patterns.ValueEndGreatest | parser.py:131-132 | every end the regex could give the value group lies at or before the one taken, so the group is greedy |
| Patterns.LazyFrom | parser.py:129 | the lazy name group ends where the rest of the pattern succeeds |
| Patterns.LazyFound | parser.py:129 | the lazy name group ends at the first position at which the rest of the pattern succeeds |
| Patterns.LazySome | parser.py:129 | if the rest succeeds anywhere over name characters, the lazy search succeeds |
| Patterns.ColonRestSound | parser.py:143-145 | what follows the colon pattern's name is `\s*:\s*` and then a value |
| Patterns.ColonRestComplete | parser.py:143-145 | whenever `\s*:\s*` and a value follow, the recogniser finds them |
| Patterns.ColonMatch | parser.py:138-148 | a colon match has a name of at least two characters and a non-empty value |
| Patterns.ColonMatchComplete | parser.py:138-148 | whenever the colon regex can match the line, the recogniser matches |
| Patterns.ColonMatchLeast | parser.py:142 | the name group is the shortest one the regex admits |
| Patterns.TabRestSound | parser.py:130-132 | what follows the tabular pattern's name is `\s*[:.\-–—]*\s+` and then a value |
| Patterns.TabRestComplete | parser.py:130-132 | whenever such a separator and a value follow, the recogniser finds them |
| Patterns.TabMatch | parser.py:125-135 | a tabular match has a non-empty name and a non-empty value |
| Patterns.TabMatchComplete | parser.py:125-135 | whenever the tabular regex can match the line, the recogniser matches |
| Patterns.TabMatchLeast | parser.py:129 | the name group is the shortest one the regex admits |
| Patterns.ColonMatchWellFormed | parser.py:142-144 | the colon name starts with a letter and holds only name characters, and the value is a decimal literal |
| Patterns.TabMatchWellFormed | parser.py:129-131 | the same for the tabular pattern |
| Patterns.DecimalValue | parser.py:184 | `float(value)` of a decimal literal is not negative |
| Patterns.DecimalValueOfNat | parser.py:184 | a whole number written in decimal reads back as itself |
| Parser.NoiseIgnoresCase | parser.py:94-117 | the noise filter gives the same answer for the lower-cased line (`re.IGNORECASE`) |
| Parser.NoiseIgnoresSurroundingSpace | parser.py:112-117 | the noise filter gives the same answer for the stripped line |
| Parser.CollapseSpaces | parser.py:153 | `re.sub(r"\s+", " ", s)` leaves only single plain spaces; it is empty exactly when the input is, and opens with whitespace exactly when the input does |
| Parser.CollapseKeepsText | parser.py:153 | collapsing whitespace keeps every other character, in order |
| Parser.CollapseOfSingleSpaced | parser.py:153 | a single-spaced string collapses to itself |
| Parser.StripNameTrail | parser.py:154 | `rstrip(":.- ")` removes a suffix made only of those characters and leaves none of them last |
| Parser.CleanName | parser.py:151-155 | the cleaned name has no surrounding whitespace, single spaces only, and no trailing `:.- `; it keeps the first character of a name that opens with one |
| Parser.CleanNameFixed | parser.py:151-155 | a name is left unchanged exactly when it is already clean |
| Parser.CleanNameIdempotent | parser.py:151-155 | cleaning twice is cleaning once |
| Parser.NumericGuardNeverFires | parser.py:181-182 | a name either pattern captures still starts with a letter after cleaning, so the purely-numeric check never rejects it |
| Parser.Accept | parser.py:176-189 | `_add` keeps a match exactly when the cleaned name has two or more characters, and keeps it under the cleaned name |
| Parser.ParseLine | parser.py:191-204 | an entry a line yields is well parsed and carries the stripped line |
| Parser.NoiseYieldsNothing | parser.py:192-193 | a noise line yields nothing |
| Parser.ParseLineSource | parser.py:195-204 | an entry comes from a non-noise line: from the colon pattern when it matches, and from the tabular pattern only when it does not |
| Parser.ColonShadowsTabular | parser.py:196-199 | a colon match whose name is rejected still stops the line (the `continue`), so the tabular pattern is not tried |
| Parser.CandidatesWellParsed | parser.py:176-204 | every candidate is well parsed and comes from a non-noise line of the text |
| Parser.FirstOccurrencesKeys | parser.py:187-189 | deduplication keeps exactly the lower-cased names of its input |
| Parser.FirstOccurrencesDistinct | parser.py:187-189 | no two kept entries share a lower-cased name |
| Parser.FirstOccurrencesFirst | parser.py:187-189 | each kept entry is the first candidate with its lower-cased name |
| Parser.FirstOccurrencesOrdered | parser.py:206 | kept entries appear in the order their names first occur (dictionary insertion order) |
| Parser.DedupStep | parser.py:187-189 | one step of the `seen` dictionary adds an entry exactly when its key is new |
| Parser.ParseLabValues | parser.py:158-208 | the result is the first entry for each lower-cased name, in order of first appearance, each well parsed, with no name twice |
| Analyzer.RoundHalfEven | analyzer.py:148 | `round(y)` lies within one half of `y` |
| Analyzer.RoundHalfEvenMonotone | analyzer.py:148 | `round` never reverses the order of two numbers |
| Analyzer.Round1 | analyzer.py:77 | `round(x, 1)` lies within 0.05 of `x` |
| Analyzer.Round1Monotone | analyzer.py:81 | `round(x, 1)` never reverses the order of two numbers |
| Analyzer.SpanOf | analyzer.py:75 | the divisor is never zero: the boundary, or 1.0 when the boundary is 0 |
| Analyzer.Classify | analyzer.py:72-82 | Low exactly below the minimum; High exactly above the maximum and not below the minimum; Normal exactly within the range, with deviation 0; the deviation is never negative for a sound range |
| Analyzer.ClassifyMonotoneLow | analyzer.py:74-77 | below the range, a lower value never has a smaller deviation |
| Analyzer.ClassifyMonotoneHigh | analyzer.py:78-81 | above the range, a higher value never has a smaller deviation |
| Analyzer.SeverityLevel | analyzer.py:85-100 | Normal exactly for a normal status; High breaks at 10 and 30, Low at 10 and 25 |
| Analyzer.SeverityMonotone | analyzer.py:85-100 | in a fixed direction the severity never falls as the deviation grows |
| Analyzer.Explain | analyzer.py:103-115 | within the range exactly for Normal; otherwise "below" exactly for Low, measured from the minimum for Low and from the maximum for High |
| Analyzer.SoftCurveBound | analyzer.py:144-145 | `raw / (raw + 20)` for a capped deviation lies between 0 and 5/6 |
| Analyzer.Penalty | analyzer.py:142-146 | a test's penalty is 0 when it is normal and less than its share otherwise |
| Analyzer.TotalPenaltyBounds | analyzer.py:140-146 | the summed penalty lies between 0 and 5/6 of the shares, and is 0 when every test is normal |
| Analyzer.ShareCap | analyzer.py:138 | `n` shares of `100 / n` capped at 5/6 add up to 500/6 |
| Analyzer.HealthScore | analyzer.py:123-149 | the score lies in 0..100, is 100 when every test is normal, and is at least 17 when there are tests, so `max(0, …)` never takes effect |
| Analyzer.HealthScoreNormalise | analyzer.py:123-149 | making one test normal never lowers the score |
| Analyzer.AnalyzeOne | analyzer.py:177-192 | a result copies the name, value and range; its status and deviation are those of `_classify`, its severity is `_severity_level` of them and its explanation `_explain` of the status; it is Normal exactly when the value is within the range, and its severity is Normal exactly when its status is |
| Analyzer.Abnormal | ai_summary.py:228 | the abnormal tests are all not normal and no more than the tests |
| Analyzer.AbnormalSpec | ai_summary.py:228 | the abnormal tests are exactly the tests that are not normal, in input order |
| Analyzer.AbnormalEmpty | ai_summary.py:231 | no test is abnormal exactly when every test is normal |
| Analyzer.Partition | analyzer.py:171-175 | the two lists together hold as many tests as the input |
| Analyzer.PartitionMatched | analyzer.py:171-193 | the recognised tests are exactly those the catalogue finds, once each, in input order |
| Analyzer.PartitionUnrecognized | analyzer.py:172-175 | the unrecognised tests are exactly those the catalogue does not find, in input order |
| Analyzer.Results | analyzer.py:177-193 | one result per recognised test, each with a deviation that is not negative and a severity that agrees with its status |
| Analyzer.Lookups | analyzer.py:172 | each test is looked up by its raw name, and every answer carries a sound range |
| Analyzer.Report | analyzer.py:168-196 | given what the catalogue answers for each test: every test is matched or unrecognised; every result has a non-negative deviation and a severity that agrees with its status; the score lies in 0..100 |
| Analyzer.ReportMatched | analyzer.py:170-193 | the results are the analyses of the tests the catalogue found, each with its own answer, one per found test, in input order |
| Analyzer.ReportUnrecognized | analyzer.py:170-174 | the tests set aside are exactly those the catalogue did not find, in input order |
| Analyzer.ReportIgnoresNone | analyzer.py:170-195 | one more test that was not found changes neither the results nor the score and is appended to the unrecognised tests |
| Analyzer.ReportSingle | analyzer.py:168-196 | the report on one found test has that test's result, nothing unrecognised, and the score of that result |
| Analyzer.Analyze | analyzer.py:157-196 | every test is matched or unrecognised; every result has a non-negative deviation and a severity that agrees with its status; the score lies in 0..100 |
| Analyzer.AnalyzeMatched | analyzer.py:171-193 | each result is the analysis of a recognised test with its own catalogue entry (status and deviation by `_classify`, severity by `_severity_level`, explanation by `_explain`), one per recognised test, in input order |
| Analyzer.AnalyzeUnrecognized | analyzer.py:172-175 | the unrecognised list holds exactly the tests the catalogue does not know, in input order |
| Analyzer.AnalyzeIgnoresUnrecognized | analyzer.py:171-196 | an extra unknown test changes neither the results nor the score, and is appended to the unrecognised list |
| Analyzer.SingleHighScore | analyzer.py:137-148 | one High test 18% out of range scores 53 |
| Analyzer.HighGlucoseResult | analyzer.py:78-94 | 118 against 70–100 is High, 18.0% out, Moderate |
| Analyzer.AnalyzeSingle | analyzer.py:169-196 | a one-test report whose test is found has that test's result, nothing unrecognised, and its score |
| Analyzer.FastingGlucoseReport | analyzer.py:157-196 | a report of "Fasting Glucose" at 118 gives one High, Moderate result for "fasting glucose" and a score of 53 |
| AiSummary.AdviceLines | ai_summary.py:249-254 | no more bullets than tests |
| AiSummary.AdviceLinesSpec | ai_summary.py:249-254 | one bullet for each test with a truthy rule, in order, carrying that rule's text |
| AiSummary.AdviceLinesEmpty | ai_summary.py:253-255 | there are no bullets exactly when no test has a rule |
| AiSummary.AttentionItems | ai_summary.py:238-240 | one overview item per abnormal test, in order |
| AiSummary.OverviewAllNormal | ai_summary.py:231-236 | the overview is the fixed all-normal text exactly when no test is abnormal |
| AiSummary.OverviewCounts | ai_summary.py:241-243 | with abnormal tests, the overview opens with the number of recognised tests and the number needing attention |
| AiSummary.OverviewScore | ai_summary.py:244 | with abnormal tests, the overview gives the score as `**N/100**` |
| AiSummary.OverviewItems | ai_summary.py:238-243 | with abnormal tests, the overview names every abnormal test with its status |
| AiSummary.SectionSpec | ai_summary.py:255 | a section is its default exactly when no test has a rule, and otherwise holds every test's bullet |
| AiSummary.RuleBasedSummary | ai_summary.py:271-276 | the rule-based summary is marked "rule-based" |
| AiSummary.RuleBasedDiet | ai_summary.py:248-255 | the diet section is the default exactly when no abnormal test has a diet rule, and otherwise holds each such test's bullet |
| AiSummary.RuleBasedLifestyle | ai_summary.py:258-268 | the same for the lifestyle section and table |
| AiSummary.NextBreak | ai_summary.py:320 | the first place where a newline is followed by one to three `#` and whitespace |
| AiSummary.HeadingSplit | ai_summary.py:320 | `re.split(r"\n(?=#{1,3}\s)", text)` gives at least one piece |
| AiSummary.HeadingSplitJoin | ai_summary.py:320 | joining the pieces with newlines gives the reply back |
| AiSummary.HeadingSplitNoBreak | ai_summary.py:320 | no piece holds a separator |
| AiSummary.HeadingSplitHeads | ai_summary.py:320 | every piece after the first begins with `#` |
| AiSummary.PartKey | ai_summary.py:322-328 | a piece opens the overview, diet or lifestyle section, or none |
| AiSummary.PartKeyIgnoresCase | ai_summary.py:322 | the section words are matched without regard to case |
| AiSummary.Fill | ai_summary.py:321-328 | only sections some piece opens get filled |
| AiSummary.FillFirstWins | ai_summary.py:321-328 | a section is filled exactly when some piece opens it, and then holds the first such piece, stripped (`setdefault`) |
| AiSummary.SplitAiResponse | ai_summary.py:314-334 | the result has only overview, diet and lifestyle keys, and is never empty |
| AiSummary.SplitAiResponseSpec | ai_summary.py:314-334 | when no piece opens a section the whole stripped reply is the overview; otherwise each section holds the first piece that opens it and is missing when none does |
| AiSummary.GenerateSummary | ai_summary.py:284-311 | without a key the summary is the rule-based one; it is marked "openai" exactly when there is a key and a non-empty reply |
| AiSummary.Direction | ai_summary.py:407 | the direction word is "low" exactly for a Low status |
| AiSummary.Explanations | ai_summary.py:403-412 | one explanation line per abnormal test, or the single all-normal line |
| AiSummary.OrDefault | ai_summary.py:423-424 | the section lines, or the single default line when there are none |
| AiSummary.LayoutSpec | ai_summary.py:400-446 | the four headings stand at fixed places, each section's lines sit between its heading and the next, and every line that is not a body line is one of the headings |
| AiSummary.GuidanceSpec | ai_summary.py:403-412 | the explanation section holds exactly one line per abnormal test, in order, between the first two headings |
| AiSummary.GuidanceDefaults | ai_summary.py:414-438 | the food and lifestyle sections are their default line exactly when no abnormal test has a rule in the table |
| AiSummary.GuidanceBodies | ai_summary.py:403-438 | every section line is a body line, starting with neither `#` nor a newline |
| AiSummary.GuidanceHeadingsInOrder | ai_summary.py:397-448 | in the joined guidance text the four headings appear in order |
| AiSummary.GenerateHealthGuidance | ai_summary.py:451-485 | the all-clear text when every test is normal; without a key and with abnormal tests, the rule-based guidance for the abnormal tests |
| AiSummary.GuidanceAllClear | ai_summary.py:467-485 | without a key the guidance is the all-clear text exactly when every test is normal |
| App.ScoreColor | app.py:1073-1078 | green exactly from 80, red exactly below 60, amber otherwise |
| App.StatusBanner | app.py:1128-1136 | "banner-good" exactly from 80, "banner-risk" exactly below 60, "banner-moderate" otherwise |
| App.ColorAndBannerAgree | app.py:1128-1136 | two scores get the same colour exactly when they get the same banner class |
| App.BannerCountsValues | app.py:1132-1136 | below 80 the message counts the abnormal values, with "value" plural exactly when the count is not 1 |
| App.SeverityKeyIsLower | app.py:1086 | the class writes the severity as `severity.value.lower()` |
| App.StatusBadge | app.py:1081-1090 | the badge opens with its class and the status word |
| App.BadgeClasses | app.py:1082-1088 | "badge-normal" exactly for Normal; otherwise one of the three high or three low classes |
| App.BadgeClassesOfAnalysis | app.py:1147 | every analysed test gets the class of its status: "badge-normal" when normal, one of the three high classes when High, one of the three low classes when Low |
| App.BadgeClassInjective | app.py:1082-1088 | for a severity that agrees with its status, the class tells both apart |
| App.PairRankOrder | app.py:1144 | ranking the key pairs respects Python's tuple order exactly |
| App.TableOrderSpec | app.py:1144 | the table is a permutation of the tests; no Low row comes before a High row; only Normal rows follow a Normal row; rows of equal status keep their order |
| App.TableRankIsStatus | app.py:1144 | two tests share a sort key exactly when they share a status |
| App.LevelMatchesRatio | app.py:1228-1236 | the level is normal exactly for ratio 0, low below 0.4, moderate from 0.4 to below 0.7, and high from 0.7 |
| App.Details | app.py:1237-1245 | one detail row per matched test, in order |
| App.Entry | app.py:1222-1253 | an entry carries the category name and icon, the number of matched and abnormal tests, one detail per match, and the level "normal" exactly when no match is abnormal |
| App.Entries | app.py:1221-1253 | no more entries than categories |
| App.EntriesSpec | app.py:1221-1225 | one entry for each category that matches some test, in category order, built from the tests it matches |
| App.InCategorySpec | app.py:1223 | the matched tests are the tests named in the category, and none exactly when no test is named in it |
| App.CategorizeRisksSpec | app.py:1254-1256 | the result is a permutation of the entries, sorted high, moderate, low, normal, with entries of equal level in category order |
| App.LevelRankInjective | app.py:1255 | the order gives each level its own rank |
| AppMarkdown.CloseFrom | app.py:1421 | the lazy `.+?` stops at the first `**` on the same line, and fails exactly when no `**` follows before a newline |
| AppMarkdown.BoldWithoutStars | app.py:1421 | text without `**` is left alone |
| AppMarkdown.BoldKeepsNewlines | app.py:1421 | the bold substitution keeps every newline |
| AppMarkdown.LinesCount | app.py:1421-1425 | the list pass sees one line per line of the input |
| AppMarkdown.HeadingOpensTag | app.py:1422-1423 | a heading line becomes an element opening with `<h3` or `<h2`, which the list pass keeps unwrapped |
| AppMarkdown.Lines | app.py:1421-1425 | one line after the heading substitutions per piece of the split |
| AppMarkdown.ItemsNested | app.py:1426-1441 | the items nest properly: lists never nest, `<li>` appears only inside a list, no list is empty, and none is left open |
| AppMarkdown.RenderNested | app.py:1428-1441 | the same, from either state of `in_list` |
| AppMarkdown.ItemsContents | app.py:1428-1440 | reading the items back gives every non-blank stripped line, in order: only blank lines are dropped and only tags are added |
| AppMarkdown.RenderContents | app.py:1428-1441 | the same, from either state of `in_list` |
| AppMarkdown.MdToSafeLines | app.py:1442 | the output's lines are exactly the items, and no items give "" |
| StableSort.SortByKeySorted | app.py:1256 | the listing by key is ordered by the key |
| StableSort.SortByKeyStable | app.py:1256 | elements with equal keys keep their input order |
| StableSort.SortByKeyPermutation | app.py:1256 | when every key is below the bound the listing is a permutation of the input |
| Sequences.FilterSpec | app.py:1223 | a comprehension keeps exactly the elements that satisfy its condition, in order |
| Sequences.FilterEmpty | app.py:1224 | it keeps nothing exactly when no element satisfies the condition |

## Left out

- PDF reading (`extract_text_from_pdf`, parser.py:51-86) is I/O. The parser starts from the extracted text.
- The OpenAI calls and their prompts (ai_summary.py:46-100, 341-394) are network I/O. The reply is a parameter, and a missing or empty reply stands for a failed call.
- Logging is left out.
- The Streamlit page is left out: layout, CSS, charts, the SVG score ring and the metric cards.
- The banner and badge are modelled as their class and text, without the surrounding `<div>`/`<span>` markup.
- Float formatting in f-strings is a parameter (`fmt`) or left out, because Python's shortest-repr printing of floats is not modelled.
- Binary floating point is not modelled. Values are reals, and `round` is exact half-to-even on reals.
- App.LevelMatchesRatio: `_categorize_risks` compares the float quotient `abnormal / total` with the float constants 0.4 and 0.7. The model compares exact ratios instead. The two agree whenever the total is below 2^26.
- Case mapping, `strip`, `\s`, `\d`, `\w` and `\b` cover ASCII only. Non-ASCII letters, whitespace and decimal digits (which Python's `\d` and `float()` also accept) are not modelled.
- The advice tables and the risk categories are parameters of the functions that read them. The literal tables are in `AdviceRules` and `App.RiskCategories`.
- The unused `health_score` parameter of `_rule_based_health_guidance` is kept, but nothing reads it.
- The heading substitutions of `_md_to_safe` use `re.MULTILINE`. They are modelled line by line on the pieces of the newline split. The bold substitution is modelled as a left-to-right scan, and BoldKeepsNewlines proves that it keeps the lines.
- AiSummary.HeadingSplitHeads: says only that each later piece starts with `#`, not that it starts with a whole heading. The look-ahead can cut a heading short, e.g. in "x\n#\n# a".
- Analyzer.HealthScore: the `max(0, …)` floor is modelled, but the contract proves it is never needed.
- Whether the ten risk categories are pairwise disjoint is not proved. The categories' test sets are data, and no property of `_categorize_risks` depends on it.
- The sample-report generator (generate_sample_report.py) is test tooling and is not part of this model.
