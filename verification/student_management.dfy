/**
 * The student-management tab of the admin portal: each student's statistics
 * recomputed from the journal, the table rows with their display defaults, the
 * search and tier filter, the edit/save/cancel cycle with its error messages, the
 * delete action, and the tier and status badges.
 */
module StudentManagement {
  import opened Wrappers
  import opened Text
  import opened Seqs
  import opened AdminData

  // ---------------------------------------------------------------------------
  // Statistics from the journal
  // ---------------------------------------------------------------------------

  /** A student with recomputed statistics and the first three of their trades. */
  datatype Enhanced = Enhanced(student: Student, recentTrades: seq<Trade>)

  function TradeOf(id: string): Trade -> bool {
    (t: Trade) => t.studentId == id
  }

  predicate IsWin(t: Trade) { t.status == "win" }

  function Min(a: int, b: int): int { if a <= b then a else b }

  /** The rounded percentage of wins among all trades, 0 without trades. */
  function WinShare(wins: nat, total: nat): (r: int)
    requires wins <= total
    ensures 0 <= r <= 100
    ensures total == 0 ==> r == 0
    ensures total > 0 ==> r == RoundDiv(100 * wins, total)
  {
    if total == 0 then 0
    else
      RoundedPercentBounds(wins, total);
      RoundDiv(100 * wins, total)
  }

  /**
   * The student's journal statistics: trade count, the rounded share of wins among
   * all their trades (0 without trades), and the sum of their trades' P&L; the risk
   * to reward and the profile fields are kept.
   */
  function Enhance(s: Student, trades: seq<Trade>): (r: Enhanced)
    ensures var own := Filter(trades, TradeOf(s.id));
      && r.student.stats.tradesCount == |own|
      && r.student.stats.totalPnL == SumBy(own, PnlOf)
      && (|own| == 0 ==> r.student.stats.winRate == 0)
      && (|own| > 0 ==> r.student.stats.winRate == RoundDiv(100 * Count(own, IsWin), |own|))
      && r.recentTrades == own[..Min(3, |own|)]
    ensures 0 <= r.student.stats.winRate <= 100
    ensures r.student.stats.avgRiskReward == s.stats.avgRiskReward
    ensures r.student.(stats := s.stats) == s
    ensures |r.recentTrades| <= 3
    ensures forall t :: t in r.recentTrades ==> t in trades && t.studentId == s.id
  {
    var own := Filter(trades, TradeOf(s.id));
    var wins := Count(own, IsWin);
    var rate := WinShare(wins, |own|);
    Enhanced(
      s.(stats := s.stats.(tradesCount := |own|, winRate := rate, totalPnL := SumBy(own, PnlOf))),
      own[..Min(3, |own|)])
  }

  /** Another student's trades never change a student's statistics. */
  lemma EnhanceIgnoresOthers(s: Student, trades: seq<Trade>, t: Trade)
    requires t.studentId != s.id
    ensures Enhance(s, trades + [t]) == Enhance(s, trades)
  {
    FilterAppend(trades, [t], TradeOf(s.id));
    assert Filter([t], TradeOf(s.id)) == [];
    assert Filter(trades, TradeOf(s.id)) + [] == Filter(trades, TradeOf(s.id));
  }

  // ---------------------------------------------------------------------------
  // Table rows
  // ---------------------------------------------------------------------------

  const UnknownName := "Unknown"
  const FreeTier := "free"
  const InactiveStatus := "inactive"

  /** A table row; the win rate is the number shown before its "%" sign. */
  datatype Row = Row(
    id: string, name: string, email: string, tier: string, status: string, joinDate: string,
    trades: int, winRate: int, totalPnL: int, avgRiskReward: int, recentTrades: seq<Trade>)

  function OrDefault(s: string, d: string): string { if s != "" then s else d }

  /** A row of the table: absent name, tier and status get their display defaults. */
  function RowOf(e: Enhanced): (r: Row)
    ensures r.id == e.student.id && r.email == e.student.email && r.joinDate == e.student.joinedDate
    ensures r.name != "" && r.tier != "" && r.status != ""
    ensures e.student.name != "" ==> r.name == e.student.name
    ensures e.student.name == "" ==> r.name == UnknownName
    ensures e.student.tier != "" ==> r.tier == e.student.tier
    ensures e.student.tier == "" ==> r.tier == FreeTier
    ensures e.student.status != "" ==> r.status == e.student.status
    ensures e.student.status == "" ==> r.status == InactiveStatus
    ensures r.trades == e.student.stats.tradesCount && r.winRate == e.student.stats.winRate
    ensures r.totalPnL == e.student.stats.totalPnL && r.recentTrades == e.recentTrades
  {
    var st := e.student;
    Row(
      st.id, OrDefault(st.name, UnknownName), st.email, OrDefault(st.tier, FreeTier),
      OrDefault(st.status, InactiveStatus), st.joinedDate, st.stats.tradesCount,
      st.stats.winRate, st.stats.totalPnL, st.stats.avgRiskReward, e.recentTrades)
  }

  function EnhanceWith(trades: seq<Trade>): Student -> Enhanced {
    (s: Student) => Enhance(s, trades)
  }

  /** The table: one row per student, in the order of the student list. */
  function Table(students: seq<Student>, trades: seq<Trade>): (r: seq<Row>)
    ensures |r| == |students|
    ensures forall i :: 0 <= i < |students| ==> r[i] == RowOf(Enhance(students[i], trades))
  {
    Map(Map(students, EnhanceWith(trades)), RowOf)
  }

  /**
   * A row is shown when the search text occurs, ignoring case, in its name, email or
   * tier, and the tier filter is "all" or the row's tier.
   */
  predicate RowShown(r: Row, search: string, tierFilter: string) {
    (IncludesIgnoringCase(r.name, search) || IncludesIgnoringCase(r.email, search)
      || IncludesIgnoringCase(r.tier, search))
    && (tierFilter == "all" || r.tier == tierFilter)
  }

  function IsRowShown(search: string, tierFilter: string): Row -> bool {
    (r: Row) => RowShown(r, search, tierFilter)
  }

  function FilterRows(rows: seq<Row>, search: string, tierFilter: string): (r: seq<Row>)
    ensures IsSubsequence(r, rows)
    ensures forall x :: x in r <==> x in rows && RowShown(x, search, tierFilter)
  {
    FilterIsSubsequence(rows, IsRowShown(search, tierFilter));
    Filter(rows, IsRowShown(search, tierFilter))
  }

  /** With an empty search and the "all" filter every row is shown. */
  lemma EmptySearchShowsAll(rows: seq<Row>, x: Row)
    requires x in rows
    ensures x in FilterRows(rows, "", "all")
  {
    IncludesEmpty(ToLower(x.name));
  }

  /** A student without a tier is listed under the "free" filter, as the default says. */
  lemma TierlessCountsAsFree(s: Student, trades: seq<Trade>)
    requires s.tier == ""
    ensures var row := RowOf(Enhance(s, trades));
      row in FilterRows([row], "", FreeTier)
  {
    var row := RowOf(Enhance(s, trades));
    IncludesEmpty(ToLower(row.name));
  }

  // ---------------------------------------------------------------------------
  // Editing
  // ---------------------------------------------------------------------------

  /** The profile fields the edit form holds. */
  datatype Form = Form(id: string, name: string, email: string, tier: string, status: string)

  /** What the tab asks the admin service to change: name, email and tier only. */
  datatype ProfilePatch = ProfilePatch(name: string, email: string, tier: string)

  /** The banners the tab can show. */
  datatype Notice =
    | Updated | Deleted
    | ProfileMissing | UpdateDenied | UpdateFailed
    | DeleteDenied | DeleteFailed
  {
    function Text(): string {
      match this
      case Updated => "Student profile updated successfully!"
      case Deleted => "Student profile deleted successfully!"
      case ProfileMissing => "Student profile not found. The user may have been deleted."
      case UpdateDenied => "Permission denied. You may not have access to modify this profile."
      case UpdateFailed => "Failed to update student profile. Please try again."
      case DeleteDenied => "Permission denied. You may not have access to delete this profile."
      case DeleteFailed => "Failed to delete student profile. Please try again."
    }
  }

  datatype TabState = TabState(
    editingId: string, edited: Option<Form>, loading: bool,
    error: Option<Notice>, success: Option<Notice>)

  /** A call the tab makes to the admin service. */
  datatype Call = NoCall | UpdateProfile(id: string, patch: ProfilePatch) | DeleteProfile(id: string)

  /** The state after a handler, the call it made, and whether it refreshed the portal. */
  datatype Step = Step(state: TabState, call: Call, refreshed: bool)

  function StartEdit(st: TabState, row: Row): (r: TabState)
    ensures r.editingId == row.id
    ensures r.edited == Some(Form(row.id, row.name, row.email, row.tier, row.status))
    ensures r.(editingId := st.editingId, edited := st.edited) == st
  {
    st.(editingId := row.id, edited := Some(Form(row.id, row.name, row.email, row.tier, row.status)))
  }

  function CancelEdit(st: TabState): (r: TabState)
    ensures r.editingId == "" && r.edited.None?
    ensures r.(editingId := st.editingId, edited := st.edited) == st
  {
    st.(editingId := "", edited := None)
  }

  /** Cancelling an edit restores the editing fields to what they were before it. */
  lemma CancelUndoesEdit(st: TabState, row: Row)
    requires st.editingId == "" && st.edited.None?
    ensures CancelEdit(StartEdit(st, row)) == st
  {
  }

  /** A thrown service error that mentions a missing profile. */
  const NoProfile := "No profile found"
  const PermissionWord := "permission"
  const Forbidden := "403"

  predicate DeniedError(e: ServiceError) {
    e.code == Forbidden || (e.message != "" && Includes(e.message, PermissionWord))
  }

  /** The banner for a failed save: missing profile first, then permission, else generic. */
  function UpdateNotice(e: ServiceError): (r: Notice)
    ensures r in {ProfileMissing, UpdateDenied, UpdateFailed}
    ensures r == ProfileMissing <==> e.message != "" && Includes(e.message, NoProfile)
    ensures r == UpdateDenied <==> !(e.message != "" && Includes(e.message, NoProfile)) && DeniedError(e)
  {
    if e.message != "" && Includes(e.message, NoProfile) then ProfileMissing
    else if DeniedError(e) then UpdateDenied
    else UpdateFailed
  }

  /** The banner for a failed delete: permission, else generic. */
  function DeleteNotice(e: ServiceError): (r: Notice)
    ensures r in {DeleteDenied, DeleteFailed}
    ensures r == DeleteDenied <==> DeniedError(e)
  {
    if DeniedError(e) then DeleteDenied else DeleteFailed
  }

  /** Save and delete agree on what a permission error is, unless the profile is missing. */
  lemma DeniedAlike(e: ServiceError)
    requires UpdateNotice(e) != ProfileMissing
    ensures UpdateNotice(e) == UpdateDenied <==> DeleteNotice(e) == DeleteDenied
  {
  }

  /**
   * Saving the edit form. Without a form or an id nothing happens. Otherwise the
   * form's name, email and tier are sent; on success editing ends, the success
   * banner shows and the portal refreshes; on failure the form stays open and the
   * error banner classifies the error. Loading is off afterwards either way.
   */
  function SaveEdit(st: TabState, outcome: Option<ServiceError>): (r: Step)
    ensures st.edited.None? || st.editingId == "" ==> r == Step(st, NoCall, false)
    ensures st.edited.Some? && st.editingId != "" ==>
      && r.call == UpdateProfile(st.editingId, ProfilePatch(st.edited.value.name, st.edited.value.email, st.edited.value.tier))
      && !r.state.loading
      && r.refreshed == outcome.None?
      && (outcome.None? ==> r.state == st.(editingId := "", edited := None, loading := false, error := None, success := Some(Updated)))
      && (outcome.Some? ==> r.state == st.(loading := false, error := Some(UpdateNotice(outcome.value))))
  {
    if st.edited.None? || st.editingId == "" then Step(st, NoCall, false)
    else
      var f := st.edited.value;
      var call := UpdateProfile(st.editingId, ProfilePatch(f.name, f.email, f.tier));
      match outcome
      case None => Step(st.(editingId := "", edited := None, loading := false, error := None, success := Some(Updated)), call, true)
      case Some(e) => Step(st.(loading := false, error := Some(UpdateNotice(e))), call, false)
  }

  /** The status field of the form is never sent: forms that differ only in status save alike. */
  lemma StatusNeverSaved(st: TabState, f: Form, status: string, outcome: Option<ServiceError>)
    requires st.edited == Some(f)
    ensures SaveEdit(st.(edited := Some(f.(status := status))), outcome).call == SaveEdit(st, outcome).call
  {
  }

  /**
   * Editing a student without a name and saving unchanged writes the display default
   * "Unknown" as the name.
   */
  lemma SavingNamelessWritesUnknown(st: TabState, s: Student, trades: seq<Trade>)
    requires s.name == "" && s.id != ""
    ensures var row := RowOf(Enhance(s, trades));
      SaveEdit(StartEdit(st, row), None).call.patch.name == UnknownName
  {
  }

  /**
   * Deleting a student after the confirmation: declined, nothing happens; otherwise
   * the profile is deleted and on success the banner shows and the portal refreshes.
   */
  function DeleteStudent(st: TabState, id: string, confirmed: bool, outcome: Option<ServiceError>): (r: Step)
    ensures !confirmed ==> r == Step(st, NoCall, false)
    ensures confirmed ==> r.call == DeleteProfile(id) && !r.state.loading && r.refreshed == outcome.None?
    ensures confirmed && outcome.None? ==> r.state == st.(loading := false, error := None, success := Some(Deleted))
    ensures confirmed && outcome.Some? ==> r.state == st.(loading := false, error := Some(DeleteNotice(outcome.value)))
  {
    if !confirmed then Step(st, NoCall, false)
    else
      match outcome
      case None => Step(st.(loading := false, error := None, success := Some(Deleted)), DeleteProfile(id), true)
      case Some(e) => Step(st.(loading := false, error := Some(DeleteNotice(e))), DeleteProfile(id), false)
  }

  // ---------------------------------------------------------------------------
  // Badges
  // ---------------------------------------------------------------------------

  /** The colour classes of a tier or status badge. */
  datatype Badge = Purple | Blue | Green | Yellow | Gray {
    function Classes(): string {
      match this
      case Purple => "bg-purple-500/20 text-purple-400"
      case Blue => "bg-blue-500/20 text-blue-400"
      case Green => "bg-green-500/20 text-green-400"
      case Yellow => "bg-yellow-500/20 text-yellow-400"
      case Gray => "bg-gray-500/20 text-gray-400"
    }
  }

  /** The tier badge, by the lower-cased tier: anything unrecognised is gray like "free". */
  function TierBadge(tier: string): (r: Badge)
    ensures r == Purple <==> ToLower(tier) == "elite"
    ensures r == Blue <==> ToLower(tier) == "professional"
    ensures r == Green <==> ToLower(tier) == "foundation"
    ensures r != Yellow
  {
    var t := ToLower(tier);
    if t == "elite" then Purple
    else if t == "professional" then Blue
    else if t == "foundation" then Green
    else Gray
  }

  /** The status badge, by the lower-cased status: anything unrecognised is gray like "inactive". */
  function StatusBadge(status: string): (r: Badge)
    ensures r == Green <==> ToLower(status) == "active"
    ensures r == Yellow <==> ToLower(status) == "at-risk"
    ensures r != Purple && r != Blue
  {
    var t := ToLower(status);
    if t == "active" then Green
    else if t == "at-risk" then Yellow
    else Gray
  }

  /** Badges ignore case: a name and its lower-case form get the same badge. */
  lemma BadgesIgnoreCase(s: string)
    ensures TierBadge(ToLower(s)) == TierBadge(s)
    ensures StatusBadge(ToLower(s)) == StatusBadge(s)
  {
    ToLowerIdempotent(s);
  }
}
