/**
 * The derived views of the admin portal: the class statistics and P&L chart, the
 * student directory filter, the trade journal filter and its analytics, and the
 * defaults that stand in for missing business-metric series.
 */
module AdminPortal {
  import opened Wrappers
  import opened Text
  import opened Seqs
  import opened AdminData
  import Grouping

  // ---------------------------------------------------------------------------
  // Class statistics
  // ---------------------------------------------------------------------------

  /** The two bar colours of the P&L chart. */
  datatype Shade = Gain | Loss {
    function Hex(): string {
      match this
      case Gain => "#10b981"
      case Loss => "#ef4444"
    }
  }
  const UnknownName := "Unknown"

  /** One bar of the P&L distribution chart. */
  datatype PnlPoint = PnlPoint(name: string, pnl: int, color: Shade)

  datatype ClassStats = ClassStats(
    totalPnL: int, avgWinRate: int, atRiskCount: nat, totalVolume: int, pnlData: seq<PnlPoint>)

  function StudentPnL(s: Student): int { s.stats.totalPnL }

  function StudentWinRate(s: Student): int { s.stats.winRate }

  function StudentVolume(s: Student): int { s.stats.tradesCount }

  predicate AtRisk(s: Student) { s.status == "at-risk" }

  function PointPnl(p: PnlPoint): int { p.pnl }

  /**
   * The chart label of a student: the text before the first space of the name, or
   * "Unknown" when there is no name.
   */
  function FirstName(name: string): (r: string)
    ensures name == "" ==> r == UnknownName
    ensures name != "" ==> ' ' !in r && |r| <= |name| && r == name[..|r|]
    ensures name != "" && |r| < |name| ==> name[|r|] == ' '
  {
    if name == "" then UnknownName
    else
      SplitFirstPiece(name, ' ');
      Split(name, ' ')[0]
  }

  /** A name without spaces is its own label. */
  lemma FirstNameWithoutSpace(name: string)
    requires name != "" && ' ' !in name
    ensures FirstName(name) == name
  {
  }

  function PointOf(s: Student): PnlPoint {
    PnlPoint(FirstName(s.name), s.stats.totalPnL, if s.stats.totalPnL >= 0 then Gain else Loss)
  }

  /**
   * The class statistics recomputed whenever the student list changes; the average
   * win rate divides by one for an empty class.
   */
  function ComputeClassStats(students: seq<Student>): (r: ClassStats)
    ensures r.totalPnL == SumBy(students, StudentPnL)
    ensures r.totalVolume == SumBy(students, StudentVolume)
    ensures r.atRiskCount == Count(students, AtRisk) && r.atRiskCount <= |students|
    ensures |students| == 0 ==> r.avgWinRate == 0
    ensures |students| > 0 ==> r.avgWinRate == RoundDiv(SumBy(students, StudentWinRate), |students|)
    ensures r.pnlData == PnlChart(students)
  {
    ClassStats(
      SumBy(students, StudentPnL),
      RoundDiv(SumBy(students, StudentWinRate), if |students| == 0 then 1 else |students|),
      Count(students, AtRisk),
      SumBy(students, StudentVolume),
      PnlChart(students))
  }

  /**
   * The P&L distribution: one bar per student, green for a gain or break-even and
   * red for a loss, largest P&L first.
   */
  function PnlChart(students: seq<Student>): (r: seq<PnlPoint>)
    ensures |r| == |students|
    ensures multiset(r) == multiset(Map(students, PointOf))
    ensures SortedDesc(r, PointPnl)
    ensures forall i :: 0 <= i < |r| ==> (r[i].color == Gain <==> r[i].pnl >= 0)
  {
    var points := Map(students, PointOf);
    assert forall p | p in points :: p.color == Gain <==> p.pnl >= 0;
    var sorted := SortDesc(points, PointPnl);
    assert forall p | p in multiset(sorted) :: p in points;
    sorted
  }

  lemma {:induction false} SumWithin(students: seq<Student>)
    requires forall i :: 0 <= i < |students| ==> 0 <= students[i].stats.winRate <= 100
    ensures 0 <= SumBy(students, StudentWinRate) <= 100 * |students|
  {
    if |students| > 0 {
      SumWithin(students[1..]);
    }
  }

  /** With every win rate a percentage, the class average is a percentage too. */
  lemma AverageWinRateWithin(students: seq<Student>)
    requires forall i :: 0 <= i < |students| ==> 0 <= students[i].stats.winRate <= 100
    ensures 0 <= ComputeClassStats(students).avgWinRate <= 100
  {
    if |students| > 0 {
      SumWithin(students);
      RoundDivWithin(SumBy(students, StudentWinRate), |students|, 0, 100);
    }
  }

  /** Every student has exactly one bar, whatever the order. */
  lemma PnlDataHasEveryStudent(students: seq<Student>, s: Student)
    requires s in students
    ensures PointOf(s) in PnlChart(students)
  {
    var points := Map(students, PointOf);
    var i :| 0 <= i < |students| && students[i] == s;
    assert points[i] == PointOf(s);
    assert PointOf(s) in multiset(points);
  }

  // ---------------------------------------------------------------------------
  // Student directory
  // ---------------------------------------------------------------------------

  /**
   * A student is listed when the search text occurs, ignoring case, in a present
   * name or a present email, and the status filter is "all" or the student's status.
   */
  predicate Listed(s: Student, search: string, statusFilter: string) {
    ((s.name != "" && IncludesIgnoringCase(s.name, search))
      || (s.email != "" && IncludesIgnoringCase(s.email, search)))
    && (statusFilter == "all" || s.status == statusFilter)
  }

  function IsListed(search: string, statusFilter: string): Student -> bool {
    (s: Student) => Listed(s, search, statusFilter)
  }

  function DirectoryStudents(students: seq<Student>, search: string, statusFilter: string): (r: seq<Student>)
    ensures IsSubsequence(r, students)
    ensures forall s :: s in r <==> s in students && Listed(s, search, statusFilter)
  {
    FilterIsSubsequence(students, IsListed(search, statusFilter));
    Filter(students, IsListed(search, statusFilter))
  }

  /**
   * With an empty search and the "all" filter the directory lists exactly the
   * students that have a name or an email.
   */
  lemma EmptySearchListsContactable(students: seq<Student>, s: Student)
    requires s in students
    ensures s in DirectoryStudents(students, "", "all") <==> s.name != "" || s.email != ""
  {
    IncludesEmpty(ToLower(s.name));
    IncludesEmpty(ToLower(s.email));
  }

  /** A student with neither name nor email never appears, whatever the search. */
  lemma NamelessNeverListed(students: seq<Student>, search: string, statusFilter: string, s: Student)
    requires s.name == "" && s.email == ""
    ensures s !in DirectoryStudents(students, search, statusFilter)
  {
  }

  // ---------------------------------------------------------------------------
  // Trade journal
  // ---------------------------------------------------------------------------

  /** The distinct pairs of the journal, first occurrence first, for the pair filter. */
  function UniquePairs(trades: seq<Trade>): (r: seq<string>)
    ensures NoDuplicates(r)
    ensures forall p :: p in r <==> exists t :: t in trades && t.pair == p
    ensures IsSubsequence(r, Map(trades, PairOf))
    ensures FirstOccurrenceOrder(r, Map(trades, PairOf))
  {
    var pairs := Map(trades, PairOf);
    MapMembers(trades, PairOf);
    DedupMembers(pairs);
    Dedup(pairs)
  }

  /** The pair of the first trade heads the pair filter's options. */
  lemma FirstPairFirst(trades: seq<Trade>)
    requires |trades| > 0
    ensures |UniquePairs(trades)| > 0 && UniquePairs(trades)[0] == trades[0].pair
  {
    var r := UniquePairs(trades);
    var pairs := Map(trades, PairOf);
    assert pairs[0] == trades[0].pair;
    var j :| 0 <= j < |r| && r[j] == trades[0].pair;
  }

  /**
   * A trade is shown when the search text occurs, ignoring case, in its present pair,
   * student name or notes; the pair filter is "all" or equals its present pair; and
   * the outcome filter is "all" or equals its present status.
   */
  predicate Shown(t: Trade, search: string, pairFilter: string, outcomeFilter: string) {
    ((t.pair != "" && IncludesIgnoringCase(t.pair, search))
      || (t.studentName != "" && IncludesIgnoringCase(t.studentName, search))
      || (t.notes != "" && IncludesIgnoringCase(t.notes, search)))
    && (pairFilter == "all" || (t.pair != "" && t.pair == pairFilter))
    && (outcomeFilter == "all" || (t.status != "" && t.status == outcomeFilter))
  }

  function IsShown(search: string, pairFilter: string, outcomeFilter: string): Trade -> bool {
    (t: Trade) => Shown(t, search, pairFilter, outcomeFilter)
  }

  /** The journal: the shown trades, newest first. */
  function JournalTrades(trades: seq<Trade>, search: string, pairFilter: string, outcomeFilter: string)
    : (r: seq<Trade>)
    ensures forall t :: t in r <==> t in trades && Shown(t, search, pairFilter, outcomeFilter)
    ensures SortedDesc(r, DateOf)
    ensures multiset(r) == multiset(Filter(trades, IsShown(search, pairFilter, outcomeFilter)))
  {
    var shown := Filter(trades, IsShown(search, pairFilter, outcomeFilter));
    var r := SortDesc(shown, DateOf);
    assert forall t | t in r :: t in multiset(shown);
    assert forall t | t in shown :: t in multiset(r);
    r
  }

  /**
   * The journal is the whole journal in date order with the hidden trades removed:
   * the filters never reorder trades of equal date.
   */
  lemma JournalIsSortedThenFiltered(trades: seq<Trade>, search: string, pairFilter: string, outcomeFilter: string)
    ensures JournalTrades(trades, search, pairFilter, outcomeFilter)
         == Filter(SortDesc(trades, DateOf), IsShown(search, pairFilter, outcomeFilter))
  {
    SortFilter(trades, DateOf, IsShown(search, pairFilter, outcomeFilter));
  }

  /** Choosing a pair only ever shows trades of that pair. */
  lemma PairFilterNarrows(trades: seq<Trade>, search: string, pair: string, outcomeFilter: string, t: Trade)
    requires pair != "all"
    requires t in JournalTrades(trades, search, pair, outcomeFilter)
    ensures t.pair == pair && t in JournalTrades(trades, search, "all", outcomeFilter)
  {
  }

  // ---------------------------------------------------------------------------
  // Trade analytics
  // ---------------------------------------------------------------------------

  predicate IsWin(t: Trade) { t.status == "win" }

  predicate IsLoss(t: Trade) { t.status == "loss" }

  /** A win rate: a whole percentage, or the JavaScript `NaN`. */
  datatype Rate = Percent(value: int) | NotANumber

  /**
   * The journal's win rate: zero without trades, otherwise the rounded share of wins
   * among the decided trades — which divides zero by zero, giving `NaN`, when every
   * shown trade is undecided. Whenever it is a number it is a percentage.
   */
  function JournalWinRate(total: nat, wins: nat, losses: nat): (r: Rate)
    ensures total == 0 ==> r == Percent(0)
    ensures r == NotANumber <==> total > 0 && wins + losses == 0
    ensures total > 0 && wins + losses > 0 ==> r == Percent(RoundDiv(100 * wins, wins + losses))
    ensures r.Percent? ==> 0 <= r.value <= 100
  {
    if total == 0 then Percent(0)
    else if wins + losses == 0 then NotANumber
    else
      RoundedPercentBounds(wins, wins + losses);
      Percent(RoundDiv(100 * wins, wins + losses))
  }

  /** A journal showing a single open trade has a win rate of `NaN`. */
  lemma OpenTradeWinRate(t: Trade)
    requires t.status == "open"
    ensures Analyse([t]).winRate == NotANumber
  {
    assert [t][1..] == [];
  }

  /** Only wins rate 100; only losses rate 0. */
  lemma WinRateExtremes(total: nat, wins: nat, losses: nat)
    requires total > 0
    ensures losses == 0 && wins > 0 ==> JournalWinRate(total, wins, losses) == Percent(100)
    ensures wins == 0 && losses > 0 ==> JournalWinRate(total, wins, losses) == Percent(0)
  {
    if losses == 0 && wins > 0 {
      RoundDivWithin(100 * wins, wins, 100, 100);
    }
    if wins == 0 && losses > 0 {
      RoundDivWithin(0, losses, 0, 0);
    }
  }

  datatype TradeAnalytics = TradeAnalytics(
    total: nat, wins: nat, losses: nat, winRate: Rate, netPnL: int,
    pairData: seq<Grouping.Group<string>>)

  /** Two predicates no element satisfies together count at most the whole sequence. */
  lemma {:induction false} CountDisjoint(s: seq<Trade>, p: Trade -> bool, q: Trade -> bool)
    requires forall t :: !(p(t) && q(t))
    ensures Count(s, p) + Count(s, q) <= |s|
  {
    if |s| > 0 {
      CountDisjoint(s[1..], p, q);
    }
  }

  /**
   * The analytics of the shown trades: counts, win rate, net P&L, and one entry per
   * pair with that pair's total P&L, largest first.
   */
  function Analyse(shown: seq<Trade>): (r: TradeAnalytics)
    ensures r.total == |shown| && r.wins == Count(shown, IsWin) && r.losses == Count(shown, IsLoss)
    ensures r.wins + r.losses <= r.total
    ensures r.winRate == JournalWinRate(r.total, r.wins, r.losses)
    ensures r.netPnL == SumBy(shown, PnlOf)
    ensures SortedDesc(r.pairData, Grouping.GroupValue)
    ensures multiset(r.pairData) == multiset(Grouping.GroupBy(shown, PairOf, PnlOf))
  {
    CountDisjoint(shown, IsWin, IsLoss);
    var wins, losses := Count(shown, IsWin), Count(shown, IsLoss);
    TradeAnalytics(
      |shown|, wins, losses, JournalWinRate(|shown|, wins, losses), SumBy(shown, PnlOf),
      SortDesc(Grouping.GroupBy(shown, PairOf, PnlOf), Grouping.GroupValue))
  }

  /** The pair totals add up to the net P&L. */
  lemma PairDataSumsToNet(shown: seq<Trade>)
    ensures SumBy(Analyse(shown).pairData, Grouping.GroupValue) == Analyse(shown).netPnL
  {
    Grouping.GroupBySum(shown, PairOf, PnlOf);
    SumBySort(Grouping.GroupBy(shown, PairOf, PnlOf), Grouping.GroupValue, Grouping.GroupValue);
  }

  /** The group of pair `k`, which the name alone determines. */
  lemma GroupEntry(shown: seq<Trade>, g: Grouping.Group<string>)
    requires g in Grouping.GroupBy(shown, PairOf, PnlOf)
    ensures g.name in Grouping.Keys(shown, PairOf)
    ensures g == Grouping.Group(g.name, Grouping.GroupTotal(shown, PairOf, PnlOf, g.name))
  {
    var i :| 0 <= i < |Grouping.GroupBy(shown, PairOf, PnlOf)| && Grouping.GroupBy(shown, PairOf, PnlOf)[i] == g;
  }

  /** Each entry of the pair chart is the pair of some shown trade with its total P&L. */
  lemma PairEntriesAreShownPairs(shown: seq<Trade>, g: Grouping.Group<string>)
    requires g in Analyse(shown).pairData
    ensures exists t :: t in shown && t.pair == g.name
    ensures g.value == Grouping.GroupTotal(shown, PairOf, PnlOf, g.name)
  {
    assert g in multiset(Grouping.GroupBy(shown, PairOf, PnlOf));
    GroupEntry(shown, g);
    KeyOfShownTrade(shown, g.name);
  }

  /** A key of the grouping is the pair of some trade. */
  lemma KeyOfShownTrade(shown: seq<Trade>, k: string)
    requires k in Grouping.Keys(shown, PairOf)
    ensures exists t :: t in shown && t.pair == k
  {
    var pairs := Map(shown, PairOf);
    var i :| 0 <= i < |pairs| && pairs[i] == k;
    assert shown[i].pair == k;
  }

  /** Every pair of a shown trade has its entry in the pair chart. */
  lemma EveryShownPairCharted(shown: seq<Trade>, t: Trade)
    requires t in shown
    ensures Grouping.Group(t.pair, Grouping.GroupTotal(shown, PairOf, PnlOf, t.pair)) in Analyse(shown).pairData
  {
    var groups := Grouping.GroupBy(shown, PairOf, PnlOf);
    var pairs := Map(shown, PairOf);
    var keys := Grouping.Keys(shown, PairOf);
    var i :| 0 <= i < |shown| && shown[i] == t;
    assert pairs[i] == t.pair;
    var k :| 0 <= k < |keys| && keys[k] == t.pair;
    assert groups[k] in multiset(Analyse(shown).pairData);
  }

  /** No pair has two entries in the pair chart. */
  lemma PairNamesDistinct(shown: seq<Trade>)
    ensures var d := Analyse(shown).pairData;
      forall i, j :: 0 <= i < j < |d| ==> d[i].name != d[j].name
  {
    var groups := Grouping.GroupBy(shown, PairOf, PnlOf);
    var d := Analyse(shown).pairData;
    GroupsDistinct(shown);
    PermutationNoDuplicates(groups, d);
    forall i, j | 0 <= i < j < |d| ensures d[i].name != d[j].name {
      assert d[i] in multiset(groups) && d[j] in multiset(groups);
      GroupEntry(shown, d[i]);
      GroupEntry(shown, d[j]);
    }
  }

  /** The groups are distinct because their names are. */
  lemma GroupsDistinct(shown: seq<Trade>)
    ensures NoDuplicates(Grouping.GroupBy(shown, PairOf, PnlOf))
  {
    var groups := Grouping.GroupBy(shown, PairOf, PnlOf);
    var keys := Grouping.Keys(shown, PairOf);
    forall i, j | 0 <= i < j < |groups| ensures groups[i] != groups[j] {
      assert groups[i].name == keys[i] && groups[j].name == keys[j];
    }
  }

  // ---------------------------------------------------------------------------
  // Business metrics defaults
  // ---------------------------------------------------------------------------

  datatype RevenuePoint = RevenuePoint(month: string, revenue: int)

  /** A course-completion row as fetched: the name may be absent (""), the rate missing. */
  datatype CourseInput = CourseInput(name: string, completion: Option<int>)

  datatype CourseRow = CourseRow(name: string, completion: int)

  datatype ViolationInput = ViolationInput(rule: string, count: Option<int>)

  datatype ViolationRow = ViolationRow(rule: string, count: int)

  /** The series of the business-metrics dashboard after defaults are filled in. */
  datatype ChartSeries = ChartSeries(
    revenueGrowth: seq<RevenuePoint>, courseCompletion: seq<CourseRow>, violations: seq<ViolationRow>)

  const Months := ["Jan 2023", "Feb 2023", "Mar 2023", "Apr 2023", "May 2023", "Jun 2023"]
  const UnknownModule := "Unknown Module"
  const NoCourseData := "No data available"
  const UnknownRule := "Unknown Rule"
  const NoViolations := "No violations recorded"
  const Ellipsis := "..."

  function ZeroRevenue(month: string): RevenuePoint { RevenuePoint(month, 0) }

  /** Six zero-revenue months for a missing or empty revenue series. */
  function DefaultRevenue(): (r: seq<RevenuePoint>)
    ensures |r| == 6
    ensures forall i :: 0 <= i < 6 ==> r[i] == RevenuePoint(Months[i], 0)
  {
    Map(Months, ZeroRevenue)
  }

  /** A chart label for a course: long names cut to 20 characters and an ellipsis. */
  function CourseLabel(name: string): (r: string)
    ensures name == "" ==> r == UnknownModule
    ensures 0 < |name| <= 20 ==> r == name
    ensures |name| > 20 ==> |r| == 23 && r[..20] == name[..20] && r[20..] == Ellipsis
    ensures 0 < |r| <= 23
  {
    if name != "" && |name| > 20 then name[..20] + Ellipsis
    else if name != "" then name
    else UnknownModule
  }

  function CourseRowOf(c: CourseInput): CourseRow {
    CourseRow(CourseLabel(c.name), c.completion.GetOr(0))
  }

  function ViolationRowOf(v: ViolationInput): ViolationRow {
    ViolationRow(if v.rule != "" then v.rule else UnknownRule, v.count.GetOr(0))
  }

  /** The revenue series: the fetched one unless missing or empty. */
  function RevenueSeries(revenue: Option<seq<RevenuePoint>>): (r: seq<RevenuePoint>)
    ensures revenue.Some? && |revenue.value| > 0 ==> r == revenue.value
    ensures !(revenue.Some? && |revenue.value| > 0) ==> r == DefaultRevenue()
    ensures |r| > 0
  {
    if revenue.Some? && |revenue.value| > 0 then revenue.value else DefaultRevenue()
  }

  /** The course series: one labelled row per fetched course, or the placeholder row. */
  function CourseSeries(courses: Option<seq<CourseInput>>): (r: seq<CourseRow>)
    ensures courses.Some? && |courses.value| > 0 ==>
      |r| == |courses.value|
      && forall i :: 0 <= i < |courses.value| ==>
        r[i] == CourseRow(CourseLabel(courses.value[i].name), courses.value[i].completion.GetOr(0))
    ensures !(courses.Some? && |courses.value| > 0) ==> r == [CourseRow(NoCourseData, 0)]
    ensures |r| > 0 && forall i :: 0 <= i < |r| ==> r[i].name != ""
  {
    if courses.Some? && |courses.value| > 0 then Map(courses.value, CourseRowOf)
    else [CourseRow(NoCourseData, 0)]
  }

  /** The violation series: one row per fetched rule, or the placeholder row. */
  function ViolationSeries(violations: Option<seq<ViolationInput>>): (r: seq<ViolationRow>)
    ensures violations.Some? && |violations.value| > 0 ==>
      |r| == |violations.value|
      && forall i :: 0 <= i < |violations.value| ==> r[i] == ViolationRowOf(violations.value[i])
    ensures !(violations.Some? && |violations.value| > 0) ==> r == [ViolationRow(NoViolations, 0)]
    ensures |r| > 0 && forall i :: 0 <= i < |r| ==> r[i].rule != ""
  {
    if violations.Some? && |violations.value| > 0 then Map(violations.value, ViolationRowOf)
    else [ViolationRow(NoViolations, 0)]
  }

  /**
   * The series with defaults: a missing or empty series becomes its placeholder; a
   * present one keeps one row per fetched row, in order, with names and counts
   * defaulted.
   */
  function ChartSeriesOf(
    revenue: Option<seq<RevenuePoint>>, courses: Option<seq<CourseInput>>,
    violations: Option<seq<ViolationInput>>): (r: ChartSeries)
    ensures revenue.Some? && |revenue.value| > 0 ==> r.revenueGrowth == revenue.value
    ensures !(revenue.Some? && |revenue.value| > 0) ==> r.revenueGrowth == DefaultRevenue()
    ensures courses.Some? && |courses.value| > 0 ==>
      |r.courseCompletion| == |courses.value|
      && forall i :: 0 <= i < |courses.value| ==>
        r.courseCompletion[i] == CourseRow(CourseLabel(courses.value[i].name), courses.value[i].completion.GetOr(0))
    ensures !(courses.Some? && |courses.value| > 0) ==> r.courseCompletion == [CourseRow(NoCourseData, 0)]
    ensures violations.Some? && |violations.value| > 0 ==>
      |r.violations| == |violations.value|
      && forall i :: 0 <= i < |violations.value| ==> r.violations[i] == ViolationRowOf(violations.value[i])
    ensures !(violations.Some? && |violations.value| > 0) ==> r.violations == [ViolationRow(NoViolations, 0)]
    ensures |r.revenueGrowth| > 0 && |r.courseCompletion| > 0 && |r.violations| > 0
    ensures forall i :: 0 <= i < |r.courseCompletion| ==> r.courseCompletion[i].name != ""
    ensures forall i :: 0 <= i < |r.violations| ==> r.violations[i].rule != ""
  {
    ChartSeries(RevenueSeries(revenue), CourseSeries(courses), ViolationSeries(violations))
  }
}
