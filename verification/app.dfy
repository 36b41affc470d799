/**
 * The deterministic helpers of the web front end: the colour and banner
 * for a health score, the badge for a test's status, the order of the
 * results table and the grouping of results into risk categories.
 */
module App {
  import opened Text
  import opened Analyzer
  import opened StableSort
  import opened Sequences

  // ------------------------------------------------------------------
  // Score colour and status banner
  // ------------------------------------------------------------------

  /** `_score_color(score)`: green from 80, amber from 60, red below. */
  function ScoreColor(score: int): (c: string)
    ensures c == "#22c55e" <==> score >= 80
    ensures c == "#ef4444" <==> score < 60
    ensures c in {"#22c55e", "#f59e0b", "#ef4444"}
  {
    if score >= 80 then "#22c55e"
    else if score >= 60 then "#f59e0b"
    else "#ef4444"
  }

  /** The CSS class and the message of the status banner. */
  datatype Banner = Banner(cssClass: string, message: string)

  /** `'s' if n != 1 else ''`. */
  function Plural(n: int): string { if n != 1 then "s" else "" }

  /** How the count of abnormal values is written in the banner. */
  function ValuesPhrase(abnormal: int): string {
    IntToString(abnormal) + " value" + Plural(abnormal)
  }

  /** `_render_status_banner(score, abnormal)`, without the surrounding
      markup. */
  function StatusBanner(score: int, abnormal: int): (b: Banner)
    ensures b.cssClass == "banner-good" <==> score >= 80
    ensures b.cssClass == "banner-risk" <==> score < 60
    ensures b.cssClass in {"banner-good", "banner-moderate", "banner-risk"}
  {
    if score >= 80 then
      Banner("banner-good", "Overall Good - Your results look healthy. Keep it up!")
    else if score >= 60 then
      Banner("banner-moderate",
        "Moderate Risk - " + (ValuesPhrase(abnormal) + " need attention. See recommendations below."))
    else
      Banner("banner-risk",
        "High Risk - " + (ValuesPhrase(abnormal) + " are outside normal range. Please consult a doctor."))
  }

  /** The score circle and the banner cut the scores at the same places:
      two scores get the same colour exactly when they get the same banner. */
  lemma ColorAndBannerAgree(s1: int, s2: int, a1: int, a2: int)
    ensures ScoreColor(s1) == ScoreColor(s2) <==> StatusBanner(s1, a1).cssClass == StatusBanner(s2, a2).cssClass
  {
  }

  /** Below 80 the banner counts the abnormal values, with "value" in the
      singular exactly for one. */
  lemma BannerCountsValues(score: int, abnormal: int)
    requires score < 80
    ensures Contains(StatusBanner(score, abnormal).message, IntToString(abnormal) + " value" + Plural(abnormal))
    ensures Plural(abnormal) == "" <==> abnormal == 1
  {
    var phrase := ValuesPhrase(abnormal);
    var head := if score >= 60 then "Moderate Risk - " else "High Risk - ";
    var tail := if score >= 60 then " need attention. See recommendations below."
                else " are outside normal range. Please consult a doctor.";
    assert StatusBanner(score, abnormal).message == head + (phrase + tail);
    PrefixOfAppend(phrase, tail);
    ContainsAt(phrase + tail, phrase, 0);
    ContainsRight(head, phrase + tail, phrase);
  }

  // ------------------------------------------------------------------
  // Status badge
  // ------------------------------------------------------------------

  /** The severity as the class names write it. */
  function SeverityKey(s: Severity): string {
    match s
    case Normal => "normal"
    case Mild => "mild"
    case Moderate => "moderate"
    case Critical => "critical"
  }

  /** The class names write the severity as `severity.value.lower()`. */
  lemma SeverityKeyIsLower(s: Severity)
    ensures SeverityKey(s) == Lower(SeverityValue(s))
  {
    var v := SeverityValue(s);
    assert LowerChar(v[0]) == v[0] + ('a' - 'A');
  }

  /** The CSS class `_status_badge` gives a status and severity. */
  function BadgeClass(status: Status, severity: Severity): string {
    if status == Status.Normal then "badge-normal"
    else "badge-" + (if status == Status.High then "high" else "low") + "-" + SeverityKey(severity)
  }

  /** What `_status_badge` shows after the status: for an abnormal status
      the severity in parentheses. */
  function SeverityNote(status: Status, severity: Severity): string {
    if status == Status.Normal then ""
    else " <span class=\"sev-label\">(" + SeverityValue(severity) + ")</span>"
  }

  /** `_status_badge(status, severity)`: the class, then the status and its
      severity note as the label. */
  function StatusBadge(status: Status, severity: Severity): (r: string)
    ensures StartsWith(r, "<span class=\"badge " + BadgeClass(status, severity) + "\">" + StatusValue(status))
  {
    var head := "<span class=\"badge " + BadgeClass(status, severity) + "\">" + StatusValue(status);
    var tail := SeverityNote(status, severity) + "</span>";
    PrefixOfAppend(head, tail);
    head + tail
  }

  /** The three classes of a high value. */
  lemma BadgeClassHigh(v: Severity)
    requires v != Severity.Normal
    ensures BadgeClass(Status.High, v) in {"badge-high-mild", "badge-high-moderate", "badge-high-critical"}
    ensures BadgeClass(Status.High, v)[6] == 'h'
  {
    match v
    case Mild => assert BadgeClass(Status.High, v) == "badge-high-mild";
    case Moderate => assert BadgeClass(Status.High, v) == "badge-high-moderate";
    case Critical => assert BadgeClass(Status.High, v) == "badge-high-critical";
  }

  /** The three classes of a low value. */
  lemma BadgeClassLow(v: Severity)
    requires v != Severity.Normal
    ensures BadgeClass(Status.Low, v) in {"badge-low-mild", "badge-low-moderate", "badge-low-critical"}
    ensures BadgeClass(Status.Low, v)[6] == 'l'
  {
    match v
    case Mild => assert BadgeClass(Status.Low, v) == "badge-low-mild";
    case Moderate => assert BadgeClass(Status.Low, v) == "badge-low-moderate";
    case Critical => assert BadgeClass(Status.Low, v) == "badge-low-critical";
  }

  /** With a severity that agrees with the status there are seven classes:
      `badge-normal` for the normal status alone, and three for each
      direction. */
  lemma BadgeClasses(s: Status, v: Severity)
    requires v == Severity.Normal <==> s == Status.Normal
    ensures s == Status.Normal ==> BadgeClass(s, v) == "badge-normal"
    ensures s == Status.High ==> BadgeClass(s, v) in {"badge-high-mild", "badge-high-moderate", "badge-high-critical"}
    ensures s == Status.Low ==> BadgeClass(s, v) in {"badge-low-mild", "badge-low-moderate", "badge-low-critical"}
    ensures BadgeClass(s, v) == "badge-normal" <==> s == Status.Normal
  {
    if s == Status.High {
      BadgeClassHigh(v);
      assert "badge-normal"[6] == 'n';
    } else if s == Status.Low {
      BadgeClassLow(v);
      assert "badge-normal"[6] == 'n';
    }
  }

  /** Every test `analyze` returns gets one of the seven classes. */
  lemma BadgeClassesOfAnalysis(tests: seq<Parser.ExtractedTest>, i: nat)
    requires i < |Analyze(tests).matched|
    ensures var t := Analyze(tests).matched[i];
      && (t.status == Status.Normal ==> BadgeClass(t.status, t.severity) == "badge-normal")
      && (t.status == Status.High ==> BadgeClass(t.status, t.severity) in {"badge-high-mild", "badge-high-moderate", "badge-high-critical"})
      && (t.status == Status.Low ==> BadgeClass(t.status, t.severity) in {"badge-low-mild", "badge-low-moderate", "badge-low-critical"})
  {
    var t := Analyze(tests).matched[i];
    assert SeverityAgrees(t);
    BadgeClasses(t.status, t.severity);
  }

  /** For a severity that agrees with its status the class tells both
      apart: different badges never share a class. */
  lemma BadgeClassInjective(s1: Status, v1: Severity, s2: Status, v2: Severity)
    requires v1 == Severity.Normal <==> s1 == Status.Normal
    requires v2 == Severity.Normal <==> s2 == Status.Normal
    requires BadgeClass(s1, v1) == BadgeClass(s2, v2)
    ensures s1 == s2 && v1 == v2
  {
    var c := BadgeClass(s1, v1);
    if s1 == Status.Normal || s2 == Status.Normal {
      assert c[6] == 'n' <==> s1 == Status.Normal;
      assert c[6] == 'n' <==> s2 == Status.Normal;
    } else {
      assert c[6] == 'h' <==> s1 == Status.High;
      assert c[6] == 'h' <==> s2 == Status.High;
      var k := if s1 == Status.High then 11 else 10;
      assert c[k + 1] == 'i' <==> v1 == Severity.Mild;
      assert c[k + 1] == 'i' <==> v2 == Severity.Mild;
      assert c[k] == 'c' <==> v1 == Severity.Critical;
      assert c[k] == 'c' <==> v2 == Severity.Critical;
    }
  }

  // ------------------------------------------------------------------
  // Results table order
  // ------------------------------------------------------------------

  /** The sort key `(x.status != Status.HIGH, x.status != Status.LOW)`. */
  function TableKey(t: AnalyzedTest): (bool, bool) {
    (t.status != Status.High, t.status != Status.Low)
  }

  /** Python's `<` on pairs of booleans: lexicographic, `False` first. */
  predicate PairLess(a: (bool, bool), b: (bool, bool)) {
    (!a.0 && b.0) || (a.0 == b.0 && !a.1 && b.1)
  }

  /** The position of a pair of booleans in Python's order. */
  function PairRank(p: (bool, bool)): nat {
    (if p.0 then 2 else 0) + (if p.1 then 1 else 0)
  }

  /** Ranking the pairs respects Python's order exactly. */
  lemma PairRankOrder(a: (bool, bool), b: (bool, bool))
    ensures PairLess(a, b) <==> PairRank(a) < PairRank(b)
    ensures a == b <==> PairRank(a) == PairRank(b)
  {
  }

  function TableRank(t: AnalyzedTest): nat { PairRank(TableKey(t)) }

  /** `sorted(tests, key=...)` in `_render_results_table`. */
  function TableOrder(tests: seq<AnalyzedTest>): seq<AnalyzedTest> {
    SortByKey(tests, TableRank, 4)
  }

  /** The table lists the same tests, high values first, then low values,
      then normal ones; within each status in the order of the report. */
  lemma TableOrderSpec(tests: seq<AnalyzedTest>)
    ensures multiset(TableOrder(tests)) == multiset(tests)
    ensures forall i, j :: 0 <= i < j < |TableOrder(tests)| ==>
      (TableOrder(tests)[i].status == Status.Low ==> TableOrder(tests)[j].status != Status.High)
      && (TableOrder(tests)[i].status == Status.Normal ==> TableOrder(tests)[j].status == Status.Normal)
    ensures forall k :: 0 <= k < 4 ==> Bucket(TableOrder(tests), TableRank, k) == Bucket(tests, TableRank, k)
  {
    var r := TableOrder(tests);
    SortByKeySorted(tests, TableRank, 4);
    assert KeysBelow(tests, TableRank, 4);
    SortByKeyPermutation(tests, TableRank, 4);
    forall i, j | 0 <= i < j < |r|
      ensures (r[i].status == Status.Low ==> r[j].status != Status.High)
        && (r[i].status == Status.Normal ==> r[j].status == Status.Normal)
    {
      assert TableRank(r[i]) <= TableRank(r[j]);
    }
    forall k | 0 <= k < 4
      ensures Bucket(r, TableRank, k) == Bucket(tests, TableRank, k)
    {
      SortByKeyStable(tests, TableRank, 4, k);
    }
  }

  /** Tests share a table rank exactly when they share a status, so each
      bucket above holds the tests of one status. */
  lemma TableRankIsStatus(t: AnalyzedTest, u: AnalyzedTest)
    ensures TableRank(t) == TableRank(u) <==> t.status == u.status
  {
  }

  // ------------------------------------------------------------------
  // Risk categories
  // ------------------------------------------------------------------

  /** An entry of `_RISK_CATEGORIES`: its name, icon and test names. */
  datatype Category = Category(name: string, icon: string, tests: set<string>)

  /** `_RISK_CATEGORIES`, in declaration order. */
  const RiskCategories: seq<Category> := [
    Category("Cardiovascular", "❤️",
      {"total cholesterol", "ldl", "hdl", "triglycerides", "vldl"}),
    Category("Metabolic / Diabetes", "\U{1F36C}",
      {"fasting glucose", "random glucose", "hba1c", "pp glucose"}),
    Category("Kidney", "\U{1FAD8}",
      {"creatinine", "bun", "urea", "uric acid", "egfr"}),
    Category("Liver", "\U{1FAC1}",
      {"sgot", "sgpt", "alkaline phosphatase", "total bilirubin", "direct bilirubin",
       "albumin", "globulin", "total protein", "ag ratio", "ggt"}),
    Category("Thyroid", "\U{1F98B}",
      {"tsh", "t3", "t4", "free t3", "free t4"}),
    Category("Bone & Minerals", "\U{1F9B4}",
      {"vitamin d", "calcium", "phosphorus", "magnesium"}),
    Category("Blood (CBC)", "\U{1FA78}",
      {"hemoglobin", "hematocrit", "rbc", "wbc", "platelets", "mcv", "mch", "mchc", "rdw", "mpv"}),
    Category("Iron & Vitamins", "\U{1F48A}",
      {"iron", "ferritin", "tibc", "vitamin b12", "folate"}),
    Category("Electrolytes", "⚡",
      {"sodium", "potassium", "chloride"}),
    Category("Inflammation", "\U{1F525}",
      {"esr", "crp"})
  ]

  /** The risk levels, written "normal", "low", "moderate" and "high". */
  datatype RiskLevel = NoRisk | LowRisk | ModerateRisk | HighRisk

  function LevelName(l: RiskLevel): string {
    match l
    case NoRisk => "normal"
    case LowRisk => "low"
    case ModerateRisk => "moderate"
    case HighRisk => "high"
  }

  /** The level for `abnormal` out of `total` tests, comparing the ratio
      with 0.4 and 0.7 by cross-multiplication; no tests count as ratio 0. */
  function Level(abnormal: nat, total: nat): RiskLevel {
    if total == 0 || abnormal == 0 then NoRisk
    else if 10 * abnormal < 4 * total then LowRisk
    else if 10 * abnormal < 7 * total then ModerateRisk
    else HighRisk
  }

  /** The cross-multiplied comparisons pick the level the ratio
      `abnormal / total` picks. */
  lemma LevelMatchesRatio(abnormal: nat, total: nat)
    requires total > 0
    ensures var ratio := abnormal as real / total as real;
      && (Level(abnormal, total) == NoRisk <==> ratio == 0.0)
      && (Level(abnormal, total) == LowRisk <==> 0.0 < ratio < 0.4)
      && (Level(abnormal, total) == ModerateRisk <==> 0.4 <= ratio < 0.7)
      && (Level(abnormal, total) == HighRisk <==> 0.7 <= ratio)
  {
    var a, t := abnormal as real, total as real;
    DivLess(a, t, 0.4);
    DivLess(a, t, 0.7);
    DivLess(a, t, 0.0);
    DivEq(a, t, 0.0);
    assert a < 0.4 * t <==> 10 * abnormal < 4 * total;
    assert a < 0.7 * t <==> 10 * abnormal < 7 * total;
  }

  /** A quotient by a positive number is below `c` exactly when the
      dividend is below `c` times the divisor. */
  lemma DivLess(a: real, t: real, c: real)
    requires t > 0.0
    ensures a / t < c <==> a < c * t
  {
    var r := a / t;
    assert r * t == a;
    ScaleLess(r, c, t);
  }

  /** A quotient by a positive number is `c` exactly when the dividend is
      `c` times the divisor. */
  lemma DivEq(a: real, t: real, c: real)
    requires t > 0.0
    ensures a / t == c <==> a == c * t
  {
    var r := a / t;
    assert r * t == a;
    ScaleLess(r, c, t);
    ScaleLess(c, r, t);
  }

  /** Multiplying by a positive number keeps the order. */
  lemma ScaleLess(x: real, y: real, t: real)
    requires t > 0.0
    ensures x < y <==> x * t < y * t
  {
    assert y * t - x * t == (y - x) * t;
    if x < y {
      assert (y - x) * t > 0.0;
    } else {
      assert (x - y) * t >= 0.0;
    }
  }

  /** A row of `test_details`. */
  datatype Detail = Detail(name: string, value: real, unit: string, status: string, severity: string)

  /** A row of the result of `_categorize_risks`. */
  datatype RiskEntry = RiskEntry(
    category: string,
    icon: string,
    level: RiskLevel,
    abnormal: nat,
    total: nat,
    details: seq<Detail>)

  function DetailOf(t: AnalyzedTest): Detail {
    Detail(Title(t.canonicalName), t.value, t.unit, StatusValue(t.status), SeverityValue(t.severity))
  }

  function Details(tests: seq<AnalyzedTest>): (r: seq<Detail>)
    ensures |r| == |tests|
    ensures forall i :: 0 <= i < |tests| ==> r[i] == DetailOf(tests[i])
  {
    seq(|tests|, i requires 0 <= i < |tests| => DetailOf(tests[i]))
  }

  /** The tests whose canonical name is one of the category's. */
  function InCategory(cat: Category, tests: seq<AnalyzedTest>): seq<AnalyzedTest> {
    Filter(tests, (t: AnalyzedTest) => t.canonicalName in cat.tests)
  }

  /** The entry for a category and the tests matched to it. */
  function Entry(cat: Category, matched: seq<AnalyzedTest>): (e: RiskEntry)
    ensures e.category == cat.name && e.icon == cat.icon
    ensures e.total == |matched| && e.abnormal == |Abnormal(matched)| && e.abnormal <= e.total
    ensures |e.details| == |matched|
    ensures e.level == NoRisk <==> forall k :: 0 <= k < |matched| ==> matched[k].status == Status.Normal
  {
    var abnormal := |Abnormal(matched)|;
    AbnormalEmpty(matched);
    RiskEntry(cat.name, cat.icon, Level(abnormal, |matched|), abnormal, |matched|, Details(matched))
  }

  /** Whether a category matches some of the tests. */
  function MatchesSome(tests: seq<AnalyzedTest>): Category -> bool {
    (cat: Category) => |InCategory(cat, tests)| > 0
  }

  /** The loop over the categories: one entry for each category that
      matches some test, in category order. */
  function Entries(cats: seq<Category>, tests: seq<AnalyzedTest>): (r: seq<RiskEntry>)
    ensures |r| <= |cats|
  {
    var kept := Filter(cats, MatchesSome(tests));
    seq(|kept|, i requires 0 <= i < |kept| => Entry(kept[i], InCategory(kept[i], tests)))
  }

  /** Each entry belongs to a category that matches some test, in category
      order, and every such category has one. */
  lemma EntriesSpec(cats: seq<Category>, tests: seq<AnalyzedTest>) returns (idx: seq<nat>)
    ensures |idx| == |Entries(cats, tests)|
    ensures forall i :: 0 <= i < |idx| ==>
      && idx[i] < |cats|
      && |InCategory(cats[idx[i]], tests)| > 0
      && Entries(cats, tests)[i] == Entry(cats[idx[i]], InCategory(cats[idx[i]], tests))
    ensures forall i, j :: 0 <= i < j < |idx| ==> idx[i] < idx[j]
    ensures forall k :: 0 <= k < |cats| && |InCategory(cats[k], tests)| > 0 ==> k in idx
  {
    idx := FilterSpec(cats, MatchesSome(tests));
  }

  /** A category's entry counts the tests named in it. */
  lemma InCategorySpec(cat: Category, tests: seq<AnalyzedTest>)
    ensures |InCategory(cat, tests)| == 0 <==> forall k :: 0 <= k < |tests| ==> tests[k].canonicalName !in cat.tests
    ensures forall i :: 0 <= i < |InCategory(cat, tests)| ==> InCategory(cat, tests)[i].canonicalName in cat.tests
  {
    FilterEmpty(tests, (t: AnalyzedTest) => t.canonicalName in cat.tests);
  }

  /** `order[risk_level]`: high first, then moderate, low and normal. */
  function LevelRank(l: RiskLevel): nat {
    match l
    case HighRisk => 0
    case ModerateRisk => 1
    case LowRisk => 2
    case NoRisk => 3
  }

  function EntryRank(e: RiskEntry): nat { LevelRank(e.level) }

  /** `_categorize_risks` over a list of categories. */
  function CategorizeRisksWith(cats: seq<Category>, tests: seq<AnalyzedTest>): seq<RiskEntry> {
    SortByKey(Entries(cats, tests), EntryRank, 4)
  }

  /** `_categorize_risks(tests)`. */
  function CategorizeRisks(tests: seq<AnalyzedTest>): seq<RiskEntry> {
    CategorizeRisksWith(RiskCategories, tests)
  }

  /** The result lists the category entries, high risk first, then
      moderate, low and normal, each level in category order. */
  lemma CategorizeRisksSpec(cats: seq<Category>, tests: seq<AnalyzedTest>)
    ensures multiset(CategorizeRisksWith(cats, tests)) == multiset(Entries(cats, tests))
    ensures forall i, j :: 0 <= i < j < |CategorizeRisksWith(cats, tests)| ==>
      LevelRank(CategorizeRisksWith(cats, tests)[i].level) <= LevelRank(CategorizeRisksWith(cats, tests)[j].level)
    ensures forall k :: 0 <= k < 4 ==>
      Bucket(CategorizeRisksWith(cats, tests), EntryRank, k) == Bucket(Entries(cats, tests), EntryRank, k)
  {
    var es := Entries(cats, tests);
    SortByKeySorted(es, EntryRank, 4);
    assert KeysBelow(es, EntryRank, 4);
    SortByKeyPermutation(es, EntryRank, 4);
    forall k | 0 <= k < 4
      ensures Bucket(CategorizeRisksWith(cats, tests), EntryRank, k) == Bucket(es, EntryRank, k)
    {
      SortByKeyStable(es, EntryRank, 4, k);
    }
  }

  /** Entries share a rank exactly when they share a level. */
  lemma LevelRankInjective(a: RiskLevel, b: RiskLevel)
    ensures LevelRank(a) == LevelRank(b) <==> a == b
  {
  }
}
