/** The older greedy planner of the page component (src/App.jsx): the
    name-list helpers behind its input boxes, the availability test against
    the office and vacation ranges, and `createMonthlyPlan`, which walks the
    Monday–Friday days of a month and takes up to four of the least-loaded
    eligible people each day, then fills any gap from everyone available. */
module Planner {
  import opened Wrappers
  import opened Seqs
  import opened Calendar

  type Name = string

  /** Strict `YYYY-MM-DD` parsing: the date a string denotes, or `None` when
      it is not a valid date in that format. */
  type Parser = string -> Option<Date>

  /** A row of the office or vacation list: a name and the bounds of its
      range as the date inputs hold them (`null` is `None`). */
  datatype Entry = Entry(name: Name, from: Option<string>, to: Option<string>)

  /** The two bounds a date input can change. */
  datatype Field = From | To

  // ---------------------------------------------------------------------
  // Name lists
  // ---------------------------------------------------------------------

  /** The characters of the pattern `/[\n,]+/`. */
  predicate IsSeparator(c: char) {
    c == '\n' || c == ','
  }

  /** The characters `String.prototype.trim` removes: ECMAScript white space
      and line terminators. */
  predicate IsSpace(c: char) {
    || c == '\t' || c == '\n' || c == '\U{000B}' || c == '\U{000C}' || c == '\r' || c == ' '
    || c == '\U{00A0}' || c == '\U{1680}' || ('\U{2000}' <= c <= '\U{200A}')
    || c == '\U{2028}' || c == '\U{2029}' || c == '\U{202F}' || c == '\U{205F}'
    || c == '\U{3000}' || c == '\U{FEFF}'
  }

  /** Drops leading white space. */
  function TrimStart(s: string): string {
    if s != [] && IsSpace(s[0]) then TrimStart(s[1..]) else s
  }

  /** Drops trailing white space. */
  function TrimEnd(s: string): string {
    if s != [] && IsSpace(s[|s| - 1]) then TrimEnd(s[..|s| - 1]) else s
  }

  /** `String.prototype.trim`. */
  function Trim(s: string): string {
    TrimEnd(TrimStart(s))
  }

  /** `s.split(c)` for every separator character: the pieces between single
      separators, empty ones included. */
  function Split(s: string): (r: seq<string>)
    ensures |r| >= 1
  {
    if s == [] then [""]
    else
      var rest := Split(s[1..]);
      if IsSeparator(s[0]) then [""] + rest else [[s[0]] + rest[0]] + rest[1..]
  }

  /** `s.split(/[\n,]+/)`: a run of separators splits once, so the empty
      pieces between adjacent separators disappear; an empty piece before a
      leading or after a trailing run stays. */
  function SplitRuns(s: string): seq<string> {
    var p := Split(s);
    if |p| <= 1 then p else [p[0]] + NonEmpty(p[1..|p| - 1]) + [p[|p| - 1]]
  }

  /** `.map((n) => n.trim())`. */
  function TrimAll(ss: seq<string>): (r: seq<string>)
    ensures |r| == |ss| && forall i :: 0 <= i < |ss| ==> r[i] == Trim(ss[i])
  {
    seq(|ss|, i requires 0 <= i < |ss| => Trim(ss[i]))
  }

  /** `.filter(Boolean)` on strings. */
  function NonEmpty(ss: seq<string>): seq<string> {
    Filter(ss, (s: string) => s != "")
  }

  /** `handleBulkAdd`: the trimmed non-empty pieces of the input. */
  function BulkNames(input: string): seq<Name> {
    NonEmpty(TrimAll(SplitRuns(input)))
  }

  function FreshEntries(names: seq<Name>): (r: seq<Entry>)
    ensures |r| == |names|
  {
    if names == [] then [] else [Entry(names[0], None, None)] + FreshEntries(names[1..])
  }

  /** `initializeNameListWithDates`: one entry without a range per trimmed
      non-empty name. */
  function InitEntries(names: seq<string>): seq<Entry> {
    FreshEntries(NonEmpty(TrimAll(names)))
  }

  function SetField(e: Entry, field: Field, v: Option<string>): Entry {
    match field
    case From => e.(from := v)
    case To => e.(to := v)
  }

  /** `value || null`: an empty date input is stored as `null`. */
  function Stored(value: string): Option<string> {
    if value == "" then None else Some(value)
  }

  /** `handleDateChange`: every entry named `name` gets `value || null` in
      `field`; the others stay as they are. */
  function DateChange(list: seq<Entry>, name: Name, field: Field, value: string): (r: seq<Entry>)
    ensures |r| == |list|
  {
    if list == [] then []
    else
      [if list[0].name == name then SetField(list[0], field, Stored(value)) else list[0]] + DateChange(list[1..], name, field, value)
  }

  // ---------------------------------------------------------------------
  // Availability
  // ---------------------------------------------------------------------

  /** `list.find((o) => o.name === name)`. */
  function FindByName(list: seq<Entry>, name: Name): Option<Entry> {
    if list == [] then None
    else if list[0].name == name then Some(list[0])
    else FindByName(list[1..], name)
  }

  /** A bound the date inputs left empty is `null` or `""`. */
  predicate Blank(b: Option<string>) {
    b.None? || b.value == ""
  }

  /** `isDateInRange`: `d` is a formatted day, so it always parses to itself. */
  function IsDateInRange(d: Date, from: Option<string>, to: Option<string>, parse: Parser): bool {
    if Blank(from) || Blank(to) then false
    else
      var start := parse(from.value);
      var end := parse(to.value);
      if start.None? || end.None? then false
      else start.value <= d <= end.value
  }

  /** `isAvailable`: only the first office entry and the first vacation
      entry of a name are consulted. */
  function IsAvailable(office: seq<Entry>, vacation: seq<Entry>, parse: Parser, name: Name, d: Date): bool {
    var inOffice := FindByName(office, name);
    var onVacation := FindByName(vacation, name);
    if inOffice.Some? && IsDateInRange(d, inOffice.value.from, inOffice.value.to, parse) then false
    else if onVacation.Some? && IsDateInRange(d, onVacation.value.from, onVacation.value.to, parse) then false
    else true
  }

  // ---------------------------------------------------------------------
  // The monthly plan
  // ---------------------------------------------------------------------

  /** The page's lists: directors, office and vacation rows, and the parser
      the range bounds go through. */
  datatype Lists = Lists(directors: seq<Name>, office: seq<Entry>, vacation: seq<Entry>, parse: Parser)

  function Names(list: seq<Entry>): (r: seq<Name>)
    ensures |r| == |list| && forall i :: 0 <= i < |list| ==> r[i] == list[i].name
  {
    if list == [] then [] else [list[0].name] + Names(list[1..])
  }

  /** `[...new Set(s)]`: each element at its first occurrence. */
  function Dedup<T(==)>(s: seq<T>): seq<T> {
    if s == [] then []
    else
      var r := Dedup(s[..|s| - 1]);
      if s[|s| - 1] in r then r else r + [s[|s| - 1]]
  }

  function AllPeople(lists: Lists): seq<Name> {
    Dedup(lists.directors + Names(lists.office) + Names(lists.vacation))
  }

  function Available(lists: Lists, name: Name, d: Date): bool {
    IsAvailable(lists.office, lists.vacation, lists.parse, name, d)
  }

  /** A plan row: the date, its weekday (1 is Monday) and the crew. */
  datatype PlanEntry = PlanEntry(date: Date, weekday: int, people: seq<Name>)

  /** `counts` and `lastWeekDuties`: duties so far and the weekdays served. */
  datatype Tally = Tally(counts: map<Name, nat>, duties: map<Name, seq<int>>)

  /** `lastWeekDuties[name] || []`. */
  function Duties(t: Tally, name: Name): seq<int> {
    if name in t.duties then t.duties[name] else []
  }

  /** `counts[name]++` and `lastWeekDuties[name].push(weekday)`. */
  function Record(t: Tally, name: Name, weekday: int): Tally {
    Tally(t.counts[name := Get(t.counts, name) + 1], t.duties[name := Duties(t, name) + [weekday]])
  }

  /** `plan.find((p) => p.date === d)`. */
  function FindEntry(plan: seq<PlanEntry>, d: Date): Option<PlanEntry> {
    if plan == [] then None
    else if plan[0].date == d then Some(plan[0])
    else FindEntry(plan[1..], d)
  }

  /** `name` served on the previous workday of the list and the pair of
      days is Friday→Monday or Monday→Tuesday. */
  predicate RepeatsAdjacent(plan: seq<PlanEntry>, days: seq<Date>, index: nat, name: Name)
    requires index < |days|
  {
    if index == 0 then false
    else
      var prevAssigned := FindEntry(plan, days[index - 1]);
      var prevDayIndex := DayOfWeek(days[index - 1]);
      var weekdayIndex := DayOfWeek(days[index]);
      && prevAssigned.Some? && name in prevAssigned.value.people
      && ((prevDayIndex == Friday && weekdayIndex == Monday) || (prevDayIndex == Monday && weekdayIndex == Tuesday))
  }

  /** The filter of the main pass. */
  predicate MainEligible(lists: Lists, plan: seq<PlanEntry>, t: Tally, days: seq<Date>, index: nat, name: Name)
    requires index < |days|
  {
    && Available(lists, name, days[index])
    && DayOfWeek(days[index]) !in Duties(t, name)
    && !RepeatsAdjacent(plan, days, index, name)
  }

  function MainSorted(lists: Lists, people: seq<Name>, plan: seq<PlanEntry>, t: Tally, days: seq<Date>, index: nat): seq<Name>
    requires index < |days|
  {
    SortByCount(Filter(people, name => MainEligible(lists, plan, t, days, index, name)), t.counts)
  }

  /** The picks of a day so far: `selected`, `usedToday` and the tally. */
  datatype Pick = Pick(selected: seq<Name>, used: set<Name>, tally: Tally)

  function Take(p: Pick, name: Name, weekday: int): Pick {
    Pick(p.selected + [name], p.used + {name}, Record(p.tally, name, weekday))
  }

  /** The main loop from position `i`; `added` is the length of `selected`. */
  function MainPass(sorted: seq<Name>, i: nat, weekday: int, p: Pick): Pick
    decreases |sorted| - i
  {
    if i >= |sorted| || |p.selected| >= 4 then p
    else if sorted[i] !in p.used then MainPass(sorted, i + 1, weekday, Take(p, sorted[i], weekday))
    else MainPass(sorted, i + 1, weekday, p)
  }

  /** The fallback candidates: everyone available not used today, by the
      counts as they stand after the main pass. */
  function FallbackSorted(lists: Lists, people: seq<Name>, d: Date, used: set<Name>, t: Tally): seq<Name> {
    SortByCount(Filter(people, name => name !in used && Available(lists, name, d)), t.counts)
  }

  function FallbackPass(fallback: seq<Name>, i: nat, weekday: int, p: Pick): Pick
    decreases |fallback| - i
  {
    if i >= |fallback| || |p.selected| >= 4 then p
    else FallbackPass(fallback, i + 1, weekday, Take(p, fallback[i], weekday))
  }

  /** One day of `days.forEach`: the main pass, then the fallback if the
      crew is short. */
  function PlanDay(lists: Lists, people: seq<Name>, plan: seq<PlanEntry>, t: Tally, days: seq<Date>, index: nat): (PlanEntry, Tally)
    requires index < |days|
  {
    var d := days[index];
    var weekday := DayOfWeek(d);
    var main := MainPass(MainSorted(lists, people, plan, t, days, index), 0, weekday, Pick([], {}, t));
    var p := if |main.selected| < 4 then
        FallbackPass(FallbackSorted(lists, people, d, main.used, main.tally), 0, weekday, main)
      else main;
    (PlanEntry(d, weekday, p.selected), p.tally)
  }

  /** The callback of `days.forEach`: from the rows and the tally so far,
      the row for day `index` of the list and the new tally. */
  type DayStep = (seq<PlanEntry>, Tally, nat) --> (PlanEntry, Tally)

  /** `days.forEach(step)` over the first `k` days, collecting the rows. */
  function ForEachDay(step: DayStep, init: Tally, k: nat): (r: (seq<PlanEntry>, Tally))
    requires forall plan, t, i :: 0 <= i < k ==> step.requires(plan, t, i)
    ensures |r.0| == k
  {
    if k == 0 then ([], init)
    else
      var prev := ForEachDay(step, init, k - 1);
      var day := step(prev.0, prev.1, k - 1);
      (prev.0 + [day.0], day.1)
  }

  lemma ForEachDayStep(step: DayStep, init: Tally, k: nat)
    requires forall plan, t, i :: 0 <= i <= k ==> step.requires(plan, t, i)
    ensures var prev := ForEachDay(step, init, k);
            var day := step(prev.0, prev.1, k);
            ForEachDay(step, init, k + 1) == (prev.0 + [day.0], day.1)
  {
  }

  /** The body of the `forEach` in `createMonthlyPlan`. */
  function DayCallback(lists: Lists, people: seq<Name>, days: seq<Date>): DayStep {
    (plan: seq<PlanEntry>, t: Tally, index: nat) requires index < |days| => PlanDay(lists, people, plan, t, days, index)
  }

  /** The rows and the tally after the first `k` days, counts starting at 0. */
  function PlanUpTo(lists: Lists, people: seq<Name>, days: seq<Date>, k: nat): (seq<PlanEntry>, Tally)
    requires k <= |days|
  {
    ForEachDay(DayCallback(lists, people, days), Tally(ZeroCounts(people), map[]), k)
  }

  /** `createMonthlyPlan`: the plan and the tally for the month. */
  function MonthlyPlan(year: int, month: int, lists: Lists): (seq<PlanEntry>, Tally)
    requires 1 <= month <= 12
  {
    var days := MonthWorkdays(year, month, []);
    PlanUpTo(lists, AllPeople(lists), days, |days|)
  }

  // ---------------------------------------------------------------------
  // The loops, as the source performs them
  // ---------------------------------------------------------------------

  /** `getWeekdaysInMonth`: the Monday–Friday days of the month, ascending;
      holidays play no part. */
  method GetWeekdaysInMonth(year: int, month: int) returns (days: seq<Date>)
    requires 1 <= month <= 12
    ensures forall d :: d in days <==> InMonth(year, month, d) && IsWeekday(d)
    ensures StrictlyIncreasing(days)
    ensures days == MonthWorkdays(year, month, [])
  {
    var start := DateOf(year, month, 1);
    var end := DateOf(year, month, DaysInMonth(year, month));
    days := [];
    var day := start;
    while day <= end
      invariant start <= day <= end + 1
      invariant days == Workdays(year, month, [], day - start)
    {
      var dow := DayOfWeek(day);
      assert day == DateOf(year, month, day - start + 1);
      if dow >= 1 && dow <= 5 {
        days := days + [day];
      }
      day := day + 1;
    }
    MonthWorkdaysExact(year, month, []);
  }

  /** One pick of either loop: push onto `selected`, add to `usedToday`,
      bump the count and record the weekday. */
  method TakeName(selected: seq<Name>, usedToday: set<Name>, counts: map<Name, nat>, lastWeekDuties: map<Name, seq<int>>, name: Name, weekdayIndex: int)
    returns (selected': seq<Name>, usedToday': set<Name>, counts': map<Name, nat>, lastWeekDuties': map<Name, seq<int>>)
    ensures Pick(selected', usedToday', Tally(counts', lastWeekDuties')) == Take(Pick(selected, usedToday, Tally(counts, lastWeekDuties)), name, weekdayIndex)
  {
    selected' := selected + [name];
    usedToday' := usedToday + {name};
    counts' := counts[name := Get(counts, name) + 1];
    lastWeekDuties' := lastWeekDuties[name := Duties(Tally(counts, lastWeekDuties), name) + [weekdayIndex]];
  }

  /** The main loop of one day over the sorted eligible people. */
  method MainLoop(sorted: seq<Name>, weekdayIndex: int, t: Tally) returns (p: Pick)
    ensures p == MainPass(sorted, 0, weekdayIndex, Pick([], {}, t))
  {
    var selected: seq<Name> := [];
    var usedToday: set<Name> := {};
    var counts := t.counts;
    var lastWeekDuties := t.duties;
    var added := 0;
    var i := 0;
    while i < |sorted| && added < 4
      invariant 0 <= i <= |sorted| && added == |selected|
      invariant MainPass(sorted, i, weekdayIndex, Pick(selected, usedToday, Tally(counts, lastWeekDuties)))
             == MainPass(sorted, 0, weekdayIndex, Pick([], {}, t))
    {
      if sorted[i] !in usedToday {
        selected, usedToday, counts, lastWeekDuties := TakeName(selected, usedToday, counts, lastWeekDuties, sorted[i], weekdayIndex);
        added := added + 1;
      }
      i := i + 1;
    }
    p := Pick(selected, usedToday, Tally(counts, lastWeekDuties));
  }

  /** The fallback loop of one day, topping `p` up to four. */
  method FallbackLoop(fallback: seq<Name>, weekdayIndex: int, p: Pick) returns (p': Pick)
    ensures p' == FallbackPass(fallback, 0, weekdayIndex, p)
  {
    var selected := p.selected;
    var usedToday := p.used;
    var counts := p.tally.counts;
    var lastWeekDuties := p.tally.duties;
    var j := 0;
    while j < |fallback| && |selected| < 4
      invariant 0 <= j <= |fallback|
      invariant FallbackPass(fallback, j, weekdayIndex, Pick(selected, usedToday, Tally(counts, lastWeekDuties)))
             == FallbackPass(fallback, 0, weekdayIndex, p)
    {
      selected, usedToday, counts, lastWeekDuties := TakeName(selected, usedToday, counts, lastWeekDuties, fallback[j], weekdayIndex);
      j := j + 1;
    }
    p' := Pick(selected, usedToday, Tally(counts, lastWeekDuties));
  }

  /** `allPeople.forEach((n) => (counts[n] = 0))`. */
  method InitialCounts(allPeople: seq<Name>) returns (counts: map<Name, nat>)
    ensures counts == ZeroCounts(allPeople)
  {
    counts := map[];
    for k := 0 to |allPeople|
      invariant counts == ZeroCounts(allPeople[..k])
    {
      assert allPeople[..k + 1] == allPeople[..k] + [allPeople[k]];
      counts := counts[allPeople[k] := 0];
    }
    assert allPeople[..|allPeople|] == allPeople;
  }

  /** The body of `days.forEach` for the day at `index`. */
  method PlanOneDay(lists: Lists, allPeople: seq<Name>, plan: seq<PlanEntry>, t: Tally, days: seq<Date>, index: nat)
    returns (entry: PlanEntry, t': Tally)
    requires index < |days|
    ensures (entry, t') == PlanDay(lists, allPeople, plan, t, days, index)
  {
    var day := days[index];
    var weekdayIndex := DayOfWeek(day);
    var sorted := MainSorted(lists, allPeople, plan, t, days, index);
    var p := MainLoop(sorted, weekdayIndex, t);
    if |p.selected| < 4 {
      var fallback := FallbackSorted(lists, allPeople, day, p.used, p.tally);
      p := FallbackLoop(fallback, weekdayIndex, p);
    }
    entry := PlanEntry(day, weekdayIndex, p.selected);
    t' := p.tally;
  }

  /** `createMonthlyPlan`: the schedule and the duty counts it stores. */
  method CreateMonthlyPlan(year: int, month: int, lists: Lists) returns (plan: seq<PlanEntry>, counts: map<Name, nat>)
    requires 1 <= month <= 12
    ensures plan == MonthlyPlan(year, month, lists).0
    ensures counts == MonthlyPlan(year, month, lists).1.counts
  {
    var days := GetWeekdaysInMonth(year, month);
    plan := [];
    counts := map[];
    var lastWeekDuties: map<Name, seq<int>> := map[];
    var allPeople := AllPeople(lists);
    counts := InitialCounts(allPeople);
    var index := 0;
    while index < |days|
      invariant 0 <= index <= |days|
      invariant plan == PlanUpTo(lists, allPeople, days, index).0
      invariant Tally(counts, lastWeekDuties) == PlanUpTo(lists, allPeople, days, index).1
    {
      var entry, t := PlanOneDay(lists, allPeople, plan, Tally(counts, lastWeekDuties), days, index);
      ForEachDayStep(DayCallback(lists, allPeople, days), Tally(ZeroCounts(allPeople), map[]), index);
      plan := plan + [entry];
      counts, lastWeekDuties := t.counts, t.duties;
      index := index + 1;
    }
  }
}
