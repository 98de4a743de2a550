/** The quota-capped duty planner of the web worker (src/worker.js).

    For one month it collects the Monday–Friday workdays that are not
    holidays, groups them into weeks, gives every person of the roster a
    quota of duty days, and then, week by week and day by day, picks a crew
    of `CrewSize` people among those still eligible, preferring the least
    loaded. The functions below are the specification (an explicit fold over
    weeks and days); the methods at the end follow the source's loops and
    are proved equal to them. */
module Worker {
  import opened Wrappers
  import opened Seqs
  import opened Calendar

  /** A person is known by name only. */
  type Person = string

  /** People on duty each workday. */
  const CrewSize := 4

  /** How many of the least-loaded eligible people the random pick ranges over. */
  const PoolWidth := 6

  /** The random reordering `candidates.sort(() => Math.random() - 0.5)`:
      given the date and the candidates, some order of the candidates. */
  type Shuffle = (Date, seq<Person>) -> seq<Person>

  /** A reordering never adds, drops or repeats a candidate. */
  ghost predicate IsShuffle(shuffle: Shuffle) {
    forall d, s :: multiset(shuffle(d, s)) == multiset(s)
  }

  /** The people away on given dates: those in `office` are unavailable on
      the dates `officeDates` lists for them, those in `onLeave` on the dates
      `leaveDates` lists for them. */
  datatype Absences = Absences(
    office: seq<Person>,
    onLeave: seq<Person>,
    officeDates: map<Person, seq<Date>>,
    leaveDates: map<Person, seq<Date>>)

  predicate IsAbsent(a: Absences, p: Person, d: Date) {
    (p in a.office && p in a.officeDates && d in a.officeDates[p])
    || (p in a.onLeave && p in a.leaveDates && d in a.leaveDates[p])
  }

  /** One cell of a week's plan, indexed by weekday (0 is Monday): the date
      it was filled for and the crew, or `None` and no one. */
  datatype Slot = Slot(date: Option<Date>, people: seq<Person>)

  /** `Array(5).fill().map(() => ({ date: null, people: [] }))`. */
  function EmptyWeek(): (w: seq<Slot>)
    ensures |w| == 5 && forall i :: 0 <= i < 5 ==> w[i] == Slot(None, [])
  {
    seq(5, _ => Slot(None, []))
  }

  /** What a month's run returns: the week plans, the final duty counts and
      the crew of the last Friday planned (or the seed, if none was). */
  datatype MonthPlan = MonthPlan(plan: seq<seq<Slot>>, shiftCounts: map<Person, nat>, lastFriday: Option<seq<Person>>)

  /** The run stops at the first workday with fewer than `CrewSize` eligible people. */
  datatype Failure = InfeasibleDay(date: Date)

  /** What stays fixed during a month's run: the roster in input order, the
      absences, the quota table and the random source. */
  datatype Env = Env(roster: seq<Person>, absences: Absences, quota: map<Person, nat>, shuffle: Shuffle)

  /** What changes from day to day: the duty counts, who has served in the
      current week, and the most recent Friday crew. */
  datatype State = State(counts: map<Person, nat>, weekAssigned: set<Person>, lastFriday: Option<seq<Person>>)

  // ---------------------------------------------------------------------
  // Weeks
  // ---------------------------------------------------------------------

  /** Whether date `d` opens a new group, given the first date of the open group. */
  type Breaker = (Date, Date) -> bool

  /** The source's test: a new week starts at a workday that is a Monday. */
  predicate MondayBreak(first: Date, d: Date) {
    DayOfWeek(d) == Monday
  }

  /** The corrected test: a new week starts at the first workday of a
      different ISO week. */
  predicate CalendarWeekBreak(first: Date, d: Date) {
    WeekStart(d) != WeekStart(first)
  }

  /** A left-to-right scan in progress: the closed groups and the open one. */
  datatype Scan = Scan(closed: seq<seq<Date>>, open: seq<Date>)

  /** One date of the scan: close the open group first if `brk` says `d`
      starts a new one, then add `d` to the open group. */
  function Step(sc: Scan, d: Date, brk: Breaker): Scan {
    if |sc.open| > 0 && brk(sc.open[0], d) then Scan(sc.closed + [sc.open], [d])
    else Scan(sc.closed, sc.open + [d])
  }

  function ScanDates(ws: seq<Date>, brk: Breaker): Scan {
    if ws == [] then Scan([], []) else Step(ScanDates(ws[..|ws| - 1], brk), ws[|ws| - 1], brk)
  }

  /** The groups of `ws`: the closed groups and, if non-empty, the open one. */
  function Group(ws: seq<Date>, brk: Breaker): seq<seq<Date>> {
    var sc := ScanDates(ws, brk);
    if |sc.open| > 0 then sc.closed + [sc.open] else sc.closed
  }

  /** The weeks as src/worker.js:31-42 forms them. */
  function MondayWeeks(ws: seq<Date>): seq<seq<Date>> {
    Group(ws, MondayBreak)
  }

  /** The weeks as the planner uses them: one group per ISO week. */
  function CalendarWeeks(ws: seq<Date>): seq<seq<Date>> {
    Group(ws, CalendarWeekBreak)
  }

  /** What a scan of `ws` has established. */
  ghost predicate ScanInvariant(sc: Scan, ws: seq<Date>, brk: Breaker) {
    && Flatten(sc.closed) + sc.open == ws
    && (ws != [] ==> sc.open != [])
    && (forall k :: 0 <= k < |sc.closed| ==> sc.closed[k] != [])
    && (forall k, j :: 0 <= k < |sc.closed| && 0 < j < |sc.closed[k]| ==> !brk(sc.closed[k][0], sc.closed[k][j]))
    && (forall j :: 0 < j < |sc.open| ==> !brk(sc.open[0], sc.open[j]))
    && (forall k :: 0 < k < |sc.closed| ==> brk(sc.closed[k - 1][0], sc.closed[k][0]))
    && (|sc.closed| > 0 && sc.open != [] ==> brk(sc.closed[|sc.closed| - 1][0], sc.open[0]))
  }

  lemma StepCloses(sc: Scan, ws: seq<Date>, d: Date, brk: Breaker)
    requires ScanInvariant(sc, ws, brk) && |sc.open| > 0 && brk(sc.open[0], d)
    ensures ScanInvariant(Step(sc, d, brk), ws + [d], brk)
  {
    CloseOpen(sc, ws, brk);
    var closed := sc.closed + [sc.open];
    assert Step(sc, d, brk) == Scan(closed, [d]);
    assert closed[|closed| - 1] == sc.open;
  }

  lemma StepExtends(sc: Scan, ws: seq<Date>, d: Date, brk: Breaker)
    requires ScanInvariant(sc, ws, brk) && !(|sc.open| > 0 && brk(sc.open[0], d))
    ensures ScanInvariant(Step(sc, d, brk), ws + [d], brk)
  {
    var open := sc.open + [d];
    assert Flatten(sc.closed) + open == ws + [d];
    assert forall j :: 0 <= j < |sc.open| ==> open[j] == sc.open[j];
  }

  lemma {:induction false} ScanDatesInvariant(ws: seq<Date>, brk: Breaker)
    ensures ScanInvariant(ScanDates(ws, brk), ws, brk)
  {
    if ws != [] {
      var init := ws[..|ws| - 1];
      var d := ws[|ws| - 1];
      ScanDatesInvariant(init, brk);
      assert init + [d] == ws;
      var sc := ScanDates(init, brk);
      if |sc.open| > 0 && brk(sc.open[0], d) {
        StepCloses(sc, init, d, brk);
      } else {
        StepExtends(sc, init, d, brk);
      }
    }
  }

  /** Grouping splits `ws` into non-empty consecutive runs whose
      concatenation gives `ws` back; every run after the first begins at a
      date the test accepts, and no later date of a run passes the test. */
  lemma GroupPartition(ws: seq<Date>, brk: Breaker)
    ensures var g := Group(ws, brk);
      && Flatten(g) == ws
      && (forall k :: 0 <= k < |g| ==> g[k] != [])
      && (forall k, j :: 0 <= k < |g| && 0 < j < |g[k]| ==> !brk(g[k][0], g[k][j]))
      && (forall k :: 0 < k < |g| ==> brk(g[k - 1][0], g[k][0]))
  {
    ScanDatesInvariant(ws, brk);
    var sc := ScanDates(ws, brk);
    if |sc.open| > 0 {
      CloseOpen(sc, ws, brk);
    }
  }

  /** Closing the open group of a finished scan keeps the runs' properties. */
  lemma CloseOpen(sc: Scan, ws: seq<Date>, brk: Breaker)
    requires ScanInvariant(sc, ws, brk) && |sc.open| > 0
    ensures var g := sc.closed + [sc.open];
      && Flatten(g) == ws
      && (forall k :: 0 <= k < |g| ==> g[k] != [])
      && (forall k, j :: 0 <= k < |g| && 0 < j < |g[k]| ==> !brk(g[k][0], g[k][j]))
      && (forall k :: 0 < k < |g| ==> brk(g[k - 1][0], g[k][0]))
  {
    var g := sc.closed + [sc.open];
    var n := |sc.closed|;
    assert g[..n] == sc.closed && g[n] == sc.open;
    assert Flatten(g) == Flatten(sc.closed) + sc.open;
    forall k | 0 <= k < n ensures g[k] == sc.closed[k] {
    }
  }

  /** Every date of a group is one of the grouped dates. */
  lemma GroupMembers(ws: seq<Date>, brk: Breaker)
    ensures forall k, j :: 0 <= k < |Group(ws, brk)| && 0 <= j < |Group(ws, brk)[k]| ==> Group(ws, brk)[k][j] in ws
  {
    GroupPartition(ws, brk);
    var g := Group(ws, brk);
    forall k, j | 0 <= k < |g| && 0 <= j < |g[k]| ensures g[k][j] in ws {
      InFlatten(g, k, g[k][j]);
    }
  }

  // ---------------------------------------------------------------------
  // Quotas
  // ---------------------------------------------------------------------

  /** `Math.floor(total / n)`; with an empty roster the value is never read. */
  function ShareBase(total: nat, n: nat): nat {
    if n == 0 then 0 else total / n
  }

  /** `total % n`; with an empty roster the value is never read. */
  function ShareExtra(total: nat, n: nat): nat {
    if n == 0 then 0 else total % n
  }

  /** The quota table after the first `k` roster positions: position `i`
      gets one more than the base while `i < extra`; a repeated name keeps
      the value of its last position. */
  function QuotaPrefix(roster: seq<Person>, total: nat, k: nat): map<Person, nat>
    requires k <= |roster|
  {
    if k == 0 then map[]
    else
      var n := |roster|;
      QuotaPrefix(roster, total, k - 1)[roster[k - 1] := ShareBase(total, n) + (if k - 1 < ShareExtra(total, n) then 1 else 0)]
  }

  function Quotas(roster: seq<Person>, total: nat): map<Person, nat> {
    QuotaPrefix(roster, total, |roster|)
  }

  /** The continuity raise: a person whose carried count exceeds their
      planned quota gets the carried count as quota. Names that are not in
      the table stay out of it. */
  function Raise(quota: map<Person, nat>, carried: map<Person, nat>): map<Person, nat> {
    map p | p in quota :: if p in carried && quota[p] < carried[p] then carried[p] else quota[p]
  }

  /** The month's quota table for `workdayCount` workdays. */
  function MonthQuota(roster: seq<Person>, workdayCount: nat, carried: Option<map<Person, nat>>): map<Person, nat> {
    var planned := Quotas(roster, workdayCount * CrewSize);
    if carried.Some? then Raise(planned, carried.value) else planned
  }

  // ---------------------------------------------------------------------
  // One day
  // ---------------------------------------------------------------------

  /** The filter of src/worker.js:78-86. */
  predicate IsEligible(env: Env, st: State, d: Date, p: Person) {
    && p !in st.weekAssigned
    && !IsAbsent(env.absences, p, d)
    && !(DayOfWeek(d) == Friday && st.lastFriday.Some? && p in st.lastFriday.value)
    && Get(st.counts, p) < Get(env.quota, p)
  }

  /** The eligible people on date `d`, in roster order. */
  function Eligible(env: Env, st: State, d: Date): seq<Person> {
    Filter(env.roster, p => IsEligible(env, st, d, p))
  }

  /** The least-loaded eligible people, at most `PoolWidth` of them. */
  function Pool(env: Env, st: State, d: Date): seq<Person> {
    var available := Eligible(env, st, d);
    SortByCount(available, st.counts)[..Min(|available|, PoolWidth)]
  }

  /** The state after `crew` is committed on date `d`. */
  function Commit(st: State, crew: seq<Person>, d: Date): State {
    State(
      Bump(st.counts, crew),
      st.weekAssigned + set p | p in crew,
      if DayOfWeek(d) == Friday then Some(crew) else st.lastFriday)
  }

  /** Plans date `d`: the crew is the first `CrewSize` of the shuffled pool. */
  function AssignDay(env: Env, st: State, d: Date): Result<(seq<Person>, State), Failure>
    requires IsShuffle(env.shuffle)
  {
    if |Eligible(env, st, d)| < CrewSize then Failure(InfeasibleDay(d))
    else
      var pool := Pool(env, st, d);
      var shuffled := env.shuffle(d, pool);
      assert |shuffled| == |multiset(shuffled)| == |pool|;
      var crew := shuffled[..CrewSize];
      Success((crew, Commit(st, crew, d)))
  }

  /** `weekPlan[dayIndex] = { date, people }` with `dayIndex` the weekday
      less one; a date that is not Monday–Friday has no cell. */
  function PutSlot(slots: seq<Slot>, d: Date, crew: seq<Person>): seq<Slot> {
    var i := DayOfWeek(d) - 1;
    if 0 <= i < |slots| then slots[i := Slot(Some(d), crew)] else slots
  }

  // ---------------------------------------------------------------------
  // Weeks of days, and the month
  // ---------------------------------------------------------------------

  /** Plans `days[i..]` from state `st` with week plan `slots` so far. */
  function RunDays(env: Env, days: seq<Date>, i: nat, st: State, slots: seq<Slot>): Result<(seq<Slot>, State), Failure>
    requires IsShuffle(env.shuffle) && i <= |days|
    decreases |days| - i
  {
    if i == |days| then Success((slots, st))
    else
      match AssignDay(env, st, days[i])
      case Failure(e) => Failure(e)
      case Success((crew, st')) => RunDays(env, days, i + 1, st', PutSlot(slots, days[i], crew))
  }

  /** One step of `RunDays`: a failing day ends the week with its failure,
      a successful one moves on to the next day. */
  lemma RunDaysStep(env: Env, days: seq<Date>, i: nat, st: State, slots: seq<Slot>)
    requires IsShuffle(env.shuffle) && i < |days|
    ensures AssignDay(env, st, days[i]).Failure? ==>
      RunDays(env, days, i, st, slots) == Failure(AssignDay(env, st, days[i]).error)
    ensures AssignDay(env, st, days[i]).Success? ==>
      var (crew, st') := AssignDay(env, st, days[i]).value;
      RunDays(env, days, i, st, slots) == RunDays(env, days, i + 1, st', PutSlot(slots, days[i], crew))
  {
  }

  /** Plans one week: nobody has served yet this week, every cell is empty. */
  function RunWeek(env: Env, week: seq<Date>, counts: map<Person, nat>, lastFriday: Option<seq<Person>>): Result<(seq<Slot>, State), Failure>
    requires IsShuffle(env.shuffle)
  {
    RunDays(env, week, 0, State(counts, {}, lastFriday), EmptyWeek())
  }

  /** Plans `weeks[i..]`, given the counts, the last Friday crew and the week
      plans so far. */
  function RunWeeks(env: Env, weeks: seq<seq<Date>>, i: nat, counts: map<Person, nat>, lastFriday: Option<seq<Person>>, plan: seq<seq<Slot>>): Result<MonthPlan, Failure>
    requires IsShuffle(env.shuffle) && i <= |weeks|
    decreases |weeks| - i
  {
    if i == |weeks| then Success(MonthPlan(plan, counts, lastFriday))
    else
      match RunWeek(env, weeks[i], counts, lastFriday)
      case Failure(e) => Failure(e)
      case Success((slots, st)) => RunWeeks(env, weeks, i + 1, st.counts, st.lastFriday, plan + [slots])
  }

  /** `createPlanForMonth`, with the weeks formed by `weekBreak`:
      `MondayBreak` gives the run as written, `CalendarWeekBreak` the run
      with the corrected week test. Every count starts at 0, whatever was
      carried. */
  function PlanForMonth(
    weekBreak: Breaker, month: int, year: int, roster: seq<Person>, absences: Absences, holidays: seq<Date>,
    previousFriday: Option<seq<Person>>, prevShiftCounts: Option<map<Person, nat>>, shuffle: Shuffle): Result<MonthPlan, Failure>
    requires 1 <= month <= 12 && IsShuffle(shuffle)
  {
    var workdays := MonthWorkdays(year, month, holidays);
    var env := Env(roster, absences, MonthQuota(roster, |workdays|, prevShiftCounts), shuffle);
    RunWeeks(env, Group(workdays, weekBreak), 0, ZeroCounts(roster), previousFriday, [])
  }

  datatype TwoMonths = TwoMonths(current: MonthPlan, next: MonthPlan)

  /** The two-month chain of `self.onmessage`: the requested month from no
      carried state, then the following month seeded with the first month's
      last Friday crew and final counts. A failure in either month is the
      result. */
  function PlanTwoMonths(
    weekBreak: Breaker, month: int, year: int, nextMonth: int, nextYear: int, roster: seq<Person>, absences: Absences,
    holidays: seq<Date>, shuffle: Shuffle): Result<TwoMonths, Failure>
    requires 1 <= month <= 12 && 1 <= nextMonth <= 12 && IsShuffle(shuffle)
  {
    match PlanForMonth(weekBreak, month, year, roster, absences, holidays, None, None, shuffle)
    case Failure(e) => Failure(e)
    case Success(current) =>
      match PlanForMonth(weekBreak, nextMonth, nextYear, roster, absences, holidays, current.lastFriday, Some(current.shiftCounts), shuffle)
      case Failure(e) => Failure(e)
      case Success(next) => Success(TwoMonths(current, next))
  }

  // ---------------------------------------------------------------------
  // The steps of createPlanForMonth, as the source performs them
  // ---------------------------------------------------------------------

  /** src/worker.js:20-28: days 1..daysInMonth, keeping Monday–Friday non-holidays. */
  method CollectWorkdays(year: int, month: int, holidays: seq<Date>) returns (workdays: seq<Date>)
    requires 1 <= month <= 12
    ensures workdays == MonthWorkdays(year, month, holidays)
  {
    workdays := [];
    var daysInMonth := DaysInMonth(year, month);
    var d := 1;
    while d <= daysInMonth
      invariant 1 <= d <= daysInMonth + 1
      invariant workdays == Workdays(year, month, holidays, d - 1)
    {
      var dt := DateOf(year, month, d);
      var day := DayOfWeek(dt);
      if day >= 1 && day <= 5 && dt !in holidays {
        workdays := workdays + [dt];
      }
      d := d + 1;
    }
  }

  /** src/worker.js:31-42: a week is closed and a new one opened when
      `weekBreak` says so (`MondayBreak` is the source's test `day === 1`). */
  method SplitIntoWeeks(weekBreak: Breaker, workdays: seq<Date>) returns (weeks: seq<seq<Date>>)
    ensures weeks == Group(workdays, weekBreak)
  {
    weeks := [];
    var currentWeekDays: seq<Date> := [];
    for i := 0 to |workdays|
      invariant Scan(weeks, currentWeekDays) == ScanDates(workdays[..i], weekBreak)
    {
      var dateStr := workdays[i];
      assert workdays[..i + 1][..i] == workdays[..i];
      if |currentWeekDays| > 0 && weekBreak(currentWeekDays[0], dateStr) {
        weeks := weeks + [currentWeekDays];
        currentWeekDays := [];
      }
      currentWeekDays := currentWeekDays + [dateStr];
    }
    assert workdays[..|workdays|] == workdays;
    if |currentWeekDays| > 0 {
      weeks := weeks + [currentWeekDays];
    }
  }

  /** src/worker.js:45-53: `base` to everyone, one more to the first `extra`. */
  method PlanQuotas(roster: seq<Person>, totalShiftsNeeded: nat) returns (totalShifts: map<Person, nat>)
    ensures totalShifts == Quotas(roster, totalShiftsNeeded)
  {
    var totalPeople := |roster|;
    var base := ShareBase(totalShiftsNeeded, totalPeople);
    var extra := ShareExtra(totalShiftsNeeded, totalPeople);
    totalShifts := map[];
    for idx := 0 to |roster|
      invariant totalShifts == QuotaPrefix(roster, totalShiftsNeeded, idx)
    {
      totalShifts := totalShifts[roster[idx] := base + (if idx < extra then 1 else 0)];
    }
  }

  /** src/worker.js:56-62: each carried name raises its own quota if it is
      larger; the order of the names does not matter. */
  method RaiseQuotas(planned: map<Person, nat>, prevShiftCounts: map<Person, nat>) returns (totalShifts: map<Person, nat>)
    ensures totalShifts == Raise(planned, prevShiftCounts)
  {
    totalShifts := planned;
    var keys := prevShiftCounts.Keys;
    while keys != {}
      invariant keys <= prevShiftCounts.Keys
      invariant totalShifts.Keys == planned.Keys
      invariant forall p :: p in totalShifts ==>
        totalShifts[p] == if p in prevShiftCounts && p !in keys && planned[p] < prevShiftCounts[p] then prevShiftCounts[p] else planned[p]
      decreases keys
    {
      var p :| p in keys;
      if p in totalShifts && totalShifts[p] < prevShiftCounts[p] {
        totalShifts := totalShifts[p := prevShiftCounts[p]];
      }
      keys := keys - {p};
    }
  }

  /** src/worker.js:98-101: each member of the crew gets one more duty and
      counts as assigned for the rest of the week. */
  method CommitCrew(counts: map<Person, nat>, served: set<Person>, selected: seq<Person>)
    returns (shiftCounts: map<Person, nat>, weekAssigned: set<Person>)
    ensures shiftCounts == Bump(counts, selected)
    ensures weekAssigned == served + set p | p in selected
  {
    shiftCounts, weekAssigned := counts, served;
    var k := 0;
    while k < |selected|
      invariant 0 <= k <= |selected|
      invariant Bump(shiftCounts, selected[k..]) == Bump(counts, selected)
      invariant weekAssigned == served + set p | p in selected[..k]
    {
      assert selected[k..][1..] == selected[k + 1..];
      shiftCounts := shiftCounts[selected[k] := Get(shiftCounts, selected[k]) + 1];
      assert selected[..k + 1] == selected[..k] + [selected[k]];
      weekAssigned := weekAssigned + {selected[k]};
      k := k + 1;
    }
    assert selected[..k] == selected;
  }

  /** One day of src/worker.js:72-106: filter, sort by load, keep the first
      `PoolWidth`, shuffle, take `CrewSize`, commit. */
  method PlanDay(env: Env, st: State, dateStr: Date) returns (r: Result<(seq<Person>, State), Failure>)
    requires IsShuffle(env.shuffle)
    ensures r == AssignDay(env, st, dateStr)
  {
    var available := Eligible(env, st, dateStr);
    if |available| < CrewSize {
      return Failure(InfeasibleDay(dateStr));
    }
    var sorted := SortByCount(available, st.counts);
    var candidates := sorted[..Min(|available|, PoolWidth)];
    var shuffled := env.shuffle(dateStr, candidates);
    assert |shuffled| == |multiset(shuffled)| == |candidates|;
    var selected := shuffled[..CrewSize];
    var shiftCounts, weekAssigned := CommitCrew(st.counts, st.weekAssigned, selected);
    var lastFriday := if DayOfWeek(dateStr) == Friday then Some(selected) else st.lastFriday;
    r := Success((selected, State(shiftCounts, weekAssigned, lastFriday)));
  }

  /** The body of `weeks.forEach` (src/worker.js:67-109): one week, day by day. */
  method PlanWeek(env: Env, weekDays: seq<Date>, counts: map<Person, nat>, lastFriday: Option<seq<Person>>)
    returns (r: Result<(seq<Slot>, State), Failure>)
    requires IsShuffle(env.shuffle)
    requires forall k :: 0 <= k < |weekDays| ==> IsWeekday(weekDays[k])
    ensures r == RunWeek(env, weekDays, counts, lastFriday)
  {
    var shiftCounts: map<Person, nat> := counts;
    var previousWeekFriday := lastFriday;
    var weekAssigned: set<Person> := {};
    var weekPlan := new Slot[5](_ => Slot(None, []));
    ghost var slots := EmptyWeek();
    assert weekPlan[..] == slots;
    var i := 0;
    while i < |weekDays|
      invariant 0 <= i <= |weekDays|
      invariant weekPlan[..] == slots
      invariant RunDays(env, weekDays, i, State(shiftCounts, weekAssigned, previousWeekFriday), slots)
             == RunWeek(env, weekDays, counts, lastFriday)
    {
      var dateStr := weekDays[i];
      var dayIndex := DayOfWeek(dateStr) - 1;
      var st := State(shiftCounts, weekAssigned, previousWeekFriday);
      var day := PlanDay(env, st, dateStr);
      RunDaysStep(env, weekDays, i, st, slots);
      if day.Failure? {
        return Failure(day.error);
      }
      var (selected, st') := day.value;
      shiftCounts, weekAssigned, previousWeekFriday := st'.counts, st'.weekAssigned, st'.lastFriday;
      slots := PutSlot(slots, dateStr, selected);
      weekPlan[dayIndex] := Slot(Some(dateStr), selected);
      i := i + 1;
    }
    r := Success((weekPlan[..], State(shiftCounts, weekAssigned, previousWeekFriday)));
  }

  /** `createPlanForMonth` (src/worker.js:3-113); with `MondayBreak` this
      is the program as written. */
  method CreatePlanForMonth(
    weekBreak: Breaker, month: int, year: int, roster: seq<Person>, absences: Absences, holidays: seq<Date>,
    previousFriday: Option<seq<Person>>, prevShiftCounts: Option<map<Person, nat>>, shuffle: Shuffle)
    returns (r: Result<MonthPlan, Failure>)
    requires 1 <= month <= 12 && IsShuffle(shuffle)
    ensures r == PlanForMonth(weekBreak, month, year, roster, absences, holidays, previousFriday, prevShiftCounts, shuffle)
  {
    var plan: seq<seq<Slot>> := [];
    var shiftCounts := ZeroCounts(roster);
    var workdays := CollectWorkdays(year, month, holidays);
    var weeks := SplitIntoWeeks(weekBreak, workdays);
    var totalShifts := PlanQuotas(roster, |workdays| * CrewSize);
    if prevShiftCounts.Some? {
      totalShifts := RaiseQuotas(totalShifts, prevShiftCounts.value);
    }
    var previousWeekFriday := previousFriday;
    var env := Env(roster, absences, totalShifts, shuffle);
    MonthWorkdaysExact(year, month, holidays);
    GroupMembers(workdays, weekBreak);
    var w := 0;
    while w < |weeks|
      invariant 0 <= w <= |weeks|
      invariant RunWeeks(env, weeks, w, shiftCounts, previousWeekFriday, plan)
             == RunWeeks(env, weeks, 0, ZeroCounts(roster), previousFriday, [])
    {
      var result := PlanWeek(env, weeks[w], shiftCounts, previousWeekFriday);
      if result.Failure? {
        return Failure(result.error);
      }
      var (weekPlan, st) := result.value;
      shiftCounts, previousWeekFriday := st.counts, st.lastFriday;
      plan := plan + [weekPlan];
      w := w + 1;
    }
    r := Success(MonthPlan(plan, shiftCounts, previousWeekFriday));
  }
}
