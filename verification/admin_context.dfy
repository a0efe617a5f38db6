/**
 * The shared state of the admin portal: which tab is open (restored from the last
 * visit when the saved name is valid), the all-or-nothing loading of the portal's
 * ten data series, and the profile update and delete calls that refetch the
 * students on success and pass a failure on to the caller.
 *
 * The browser's storage and the admin service are not modelled: their answers are
 * parameters.
 */
module AdminContext {
  import opened Wrappers
  import opened AdminData
  import StudentManagement

  // ---------------------------------------------------------------------------
  // Tabs
  // ---------------------------------------------------------------------------

  datatype AdminTab =
    | Overview | Directory | Trades | Analytics | Content | Rules | Journal | AdminAnalytics | Settings
  {
    /** The tab's name, as stored and as the portal's links use it. */
    function Name(): string {
      match this
      case Overview => "overview"
      case Directory => "directory"
      case Trades => "trades"
      case Analytics => "analytics"
      case Content => "content"
      case Rules => "rules"
      case Journal => "journal"
      case AdminAnalytics => "admin-analytics"
      case Settings => "settings"
    }
  }

  /** The names a saved tab may have. */
  const TabNames := [
    "overview", "directory", "trades", "analytics",
    "content", "rules", "journal", "admin-analytics", "settings"]

  predicate IsValidTab(name: string) {
    name in TabNames
  }

  /** The tab a name stands for, if any. */
  function ParseTab(name: string): (r: Option<AdminTab>)
    ensures r.Some? <==> IsValidTab(name)
    ensures r.Some? ==> r.value.Name() == name
  {
    if name == "overview" then Some(Overview)
    else if name == "directory" then Some(Directory)
    else if name == "trades" then Some(Trades)
    else if name == "analytics" then Some(Analytics)
    else if name == "content" then Some(Content)
    else if name == "rules" then Some(Rules)
    else if name == "journal" then Some(Journal)
    else if name == "admin-analytics" then Some(AdminAnalytics)
    else if name == "settings" then Some(Settings)
    else None
  }

  /** Every tab's name parses back to that tab, so exactly the nine names are valid. */
  lemma TabNamesRoundTrip(tab: AdminTab)
    ensures IsValidTab(tab.Name())
    ensures ParseTab(tab.Name()) == Some(tab)
  {
  }

  const InitialTab := Overview

  /**
   * The tab on opening the portal: the saved name when there is one and it is valid,
   * otherwise the overview.
   */
  function RestoreTab(saved: Option<string>): (r: AdminTab)
    ensures saved.Some? && IsValidTab(saved.value) ==> r.Name() == saved.value
    ensures !(saved.Some? && IsValidTab(saved.value)) ==> r == InitialTab
  {
    if saved.Some? && saved.value != "" then
      match ParseTab(saved.value)
      case Some(tab) => tab
      case None => InitialTab
    else InitialTab
  }

  /** The tab that was open when the portal was left is the tab it reopens on. */
  lemma ReopensOnSavedTab(tab: AdminTab)
    ensures RestoreTab(Some(tab.Name())) == tab
  {
    TabNamesRoundTrip(tab);
  }

  // ---------------------------------------------------------------------------
  // Loading the portal's data
  // ---------------------------------------------------------------------------

  /** A row of a series the portal only passes on: its fields by name. */
  type Record = map<string, string>

  datatype PortalData = PortalData(
    students: seq<Student>, trades: seq<Trade>, links: seq<Record>, plans: seq<Record>,
    metrics: Record, revenue: seq<Record>, enrollment: seq<Record>, violations: seq<Record>,
    penalties: seq<Record>, penaltyTrends: seq<Record>)

  /** What the ten fetches returned when all succeeded; `None` where a fetch gave null. */
  datatype Fetched = Fetched(
    students: Option<seq<Student>>, trades: Option<seq<Trade>>, links: Option<seq<Record>>,
    plans: Option<seq<Record>>, metrics: Option<Record>, revenue: Option<seq<Record>>,
    enrollment: Option<seq<Record>>, violations: Option<seq<Record>>,
    penalties: Option<seq<Record>>, penaltyTrends: Option<seq<Record>>)

  datatype Portal = Portal(
    tab: AdminTab, refreshing: bool, data: PortalData, loading: bool, error: Option<string>)

  const LoadFailed := "Failed to load data."

  const EmptyData := PortalData([], [], [], [], map[], [], [], [], [], [])

  function InitialPortal(saved: Option<string>): Portal {
    Portal(RestoreTab(saved), false, EmptyData, true, None)
  }

  /** The fetched series with a null one replaced by its empty default. */
  function Defaulted(f: Fetched): (r: PortalData)
    ensures f.students.Some? ==> r.students == f.students.value
    ensures f.students.None? ==> r.students == []
    ensures f.trades.Some? ==> r.trades == f.trades.value
    ensures f.trades.None? ==> r.trades == []
    ensures f.metrics.Some? ==> r.metrics == f.metrics.value
    ensures f.metrics.None? ==> r.metrics == map[]
    ensures f.links.Some? ==> r.links == f.links.value
    ensures f.links.None? ==> r.links == []
    ensures f.plans.Some? ==> r.plans == f.plans.value
    ensures f.plans.None? ==> r.plans == []
    ensures f.revenue.Some? ==> r.revenue == f.revenue.value
    ensures f.revenue.None? ==> r.revenue == []
    ensures f.enrollment.Some? ==> r.enrollment == f.enrollment.value
    ensures f.enrollment.None? ==> r.enrollment == []
    ensures f.violations.Some? ==> r.violations == f.violations.value
    ensures f.violations.None? ==> r.violations == []
    ensures f.penalties.Some? ==> r.penalties == f.penalties.value
    ensures f.penalties.None? ==> r.penalties == []
    ensures f.penaltyTrends.Some? ==> r.penaltyTrends == f.penaltyTrends.value
    ensures f.penaltyTrends.None? ==> r.penaltyTrends == []
  {
    PortalData(
      f.students.GetOr([]), f.trades.GetOr([]), f.links.GetOr([]), f.plans.GetOr([]),
      f.metrics.GetOr(map[]), f.revenue.GetOr([]), f.enrollment.GetOr([]),
      f.violations.GetOr([]), f.penalties.GetOr([]), f.penaltyTrends.GetOr([]))
  }

  /**
   * Loading every series at once: when all ten fetches succeed every series is
   * replaced and the error cleared; when any fails nothing is replaced and the error
   * is set. Loading is over either way; an earlier error stays until a success.
   */
  function FetchData(p: Portal, outcome: Option<Fetched>): (r: Portal)
    ensures !r.loading && r.tab == p.tab && r.refreshing == p.refreshing
    ensures outcome.Some? ==> r.data == Defaulted(outcome.value) && r.error.None?
    ensures outcome.None? ==> r.data == p.data && r.error == Some(LoadFailed)
  {
    match outcome
    case Some(f) => p.(data := Defaulted(f), error := None, loading := false)
    case None => p.(error := Some(LoadFailed), loading := false)
  }

  /** Refreshing is loading again with the refresh indicator on for the duration. */
  function RefreshData(p: Portal, outcome: Option<Fetched>): (r: Portal)
    ensures !r.refreshing && !r.loading && r.tab == p.tab
    ensures outcome.Some? ==> r.data == Defaulted(outcome.value) && r.error.None?
    ensures outcome.None? ==> r.data == p.data && r.error == Some(LoadFailed)
  {
    FetchData(p.(refreshing := true), outcome).(refreshing := false)
  }

  /** Refreshing twice with the same answers is refreshing once. */
  lemma RefreshIdempotent(p: Portal, outcome: Option<Fetched>)
    ensures RefreshData(RefreshData(p, outcome), outcome) == RefreshData(p, outcome)
  {
  }

  /** A failed refresh after a successful one keeps every series of the successful one. */
  lemma FailureKeepsLastGoodData(p: Portal, f: Fetched)
    ensures RefreshData(RefreshData(p, Some(f)), None).data == Defaulted(f)
    ensures RefreshData(RefreshData(p, None), Some(f)) == RefreshData(p, Some(f))
  {
  }

  // ---------------------------------------------------------------------------
  // Students
  // ---------------------------------------------------------------------------

  /** Reloading the students alone: a failure is swallowed and changes nothing. */
  function FetchStudents(p: Portal, reply: Attempt<Option<seq<Student>>>): (r: Portal)
    ensures reply.Succeeded? ==> r == p.(data := p.data.(students := reply.value.GetOr([])))
    ensures reply.Threw? ==> r == p
  {
    match reply
    case Succeeded(list) => p.(data := p.data.(students := list.GetOr([])))
    case Threw(_) => p
  }

  /** The portal after a profile change, what it throws to its caller, and whether it refetched. */
  datatype Change = Change(portal: Portal, thrown: Option<ServiceError>, refetched: bool)

  /**
   * A profile update or delete: when the service call succeeds the students are
   * refetched and nothing is thrown; when it fails the error is thrown on unchanged
   * and nothing is refetched.
   */
  function ChangeProfile(p: Portal, serviceError: Option<ServiceError>, refetch: Attempt<Option<seq<Student>>>)
    : (r: Change)
    ensures r.thrown == serviceError
    ensures r.refetched <==> serviceError.None?
    ensures serviceError.Some? ==> r.portal == p
    ensures serviceError.None? ==> r.portal == FetchStudents(p, refetch)
    ensures r.portal.(data := r.portal.data.(students := p.data.students)) == p
  {
    match serviceError
    case Some(e) => Change(p, Some(e), false)
    case None => Change(FetchStudents(p, refetch), None, true)
  }

  /**
   * Saving an edit through the portal: the tab's banner reports exactly the service's
   * outcome; a refetch that fails after a successful save still shows success while
   * the student list stays as it was.
   */
  lemma SaveThroughPortal(
    tab: StudentManagement.TabState, p: Portal, serviceError: Option<ServiceError>,
    refetch: Attempt<Option<seq<Student>>>)
    requires tab.edited.Some? && tab.editingId != ""
    ensures var c := ChangeProfile(p, serviceError, refetch);
      var s := StudentManagement.SaveEdit(tab, c.thrown);
      && (serviceError.None? ==> s.state.success == Some(StudentManagement.Updated))
      && (serviceError.Some? ==> s.state.error == Some(StudentManagement.UpdateNotice(serviceError.value)))
      && (serviceError.None? && refetch.Threw? ==> c.portal == p)
  {
  }
}
