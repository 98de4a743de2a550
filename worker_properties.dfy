/** What the duty planner of src/worker.js guarantees: the week split, the
    quota table and its raise, the choice of one day's crew, and the
    invariants of a whole month's run and of the two-month chain. */
module WorkerProperties {
  import opened Wrappers
  import opened Seqs
  import opened Calendar
  import opened Worker

  // ---------------------------------------------------------------------
  // Weeks
  // ---------------------------------------------------------------------

  /** As written, the week split partitions the workdays, and every week
      after the first begins on a Monday. */
  lemma MondayWeeksPartition(ws: seq<Date>)
    ensures Flatten(MondayWeeks(ws)) == ws
    ensures forall k :: 0 <= k < |MondayWeeks(ws)| ==> MondayWeeks(ws)[k] != []
    ensures forall k :: 0 < k < |MondayWeeks(ws)| ==> DayOfWeek(MondayWeeks(ws)[k][0]) == Monday
    ensures forall k, j :: 0 <= k < |MondayWeeks(ws)| && 0 < j < |MondayWeeks(ws)[k]| ==> DayOfWeek(MondayWeeks(ws)[k][j]) != Monday
  {
    GroupPartition(ws, MondayBreak);
    var g := MondayWeeks(ws);
    forall k | 0 < k < |g| ensures DayOfWeek(g[k][0]) == Monday {
      assert MondayBreak(g[k - 1][0], g[k][0]);
    }
  }

  /** A week in which every weekday occurs once at most, in order. */
  ghost predicate AscendingWeekdays(days: seq<Date>) {
    && (forall j :: 0 <= j < |days| ==> IsWeekday(days[j]))
    && (forall a, b :: 0 <= a < b < |days| ==> DayOfWeek(days[a]) < DayOfWeek(days[b]))
  }

  /** The corrected split partitions ascending workdays into ISO weeks: the
      dates of a week share their Monday, consecutive weeks do not, and
      inside a week the weekdays ascend, so no two dates of a week share a
      cell of the week plan. */
  lemma CalendarWeeksPartition(ws: seq<Date>)
    requires StrictlyIncreasing(ws) && forall j :: 0 <= j < |ws| ==> IsWeekday(ws[j])
    ensures Flatten(CalendarWeeks(ws)) == ws
    ensures forall k :: 0 <= k < |CalendarWeeks(ws)| ==> CalendarWeeks(ws)[k] != []
    ensures forall k, j :: 0 <= k < |CalendarWeeks(ws)| && 0 <= j < |CalendarWeeks(ws)[k]| ==>
      WeekStart(CalendarWeeks(ws)[k][j]) == WeekStart(CalendarWeeks(ws)[k][0])
    ensures forall k :: 0 < k < |CalendarWeeks(ws)| ==>
      WeekStart(CalendarWeeks(ws)[k - 1][0]) != WeekStart(CalendarWeeks(ws)[k][0])
    ensures forall k :: 0 <= k < |CalendarWeeks(ws)| ==> AscendingWeekdays(CalendarWeeks(ws)[k])
  {
    GroupPartition(ws, CalendarWeekBreak);
    CalendarWeeksAscend(ws);
  }

  /** Each corrected week of increasing weekdays has ascending weekday numbers. */
  lemma CalendarWeeksAscend(ws: seq<Date>)
    requires StrictlyIncreasing(ws) && forall j :: 0 <= j < |ws| ==> IsWeekday(ws[j])
    ensures forall k :: 0 <= k < |CalendarWeeks(ws)| ==> AscendingWeekdays(CalendarWeeks(ws)[k])
  {
    var g := CalendarWeeks(ws);
    GroupPartition(ws, CalendarWeekBreak);
    GroupMembers(ws, CalendarWeekBreak);
    FlattenIncreasing(g);
    forall k | 0 <= k < |g| ensures AscendingWeekdays(g[k]) {
      CalendarWeekAscends(g[k], ws);
    }
  }

  /** A non-empty run of increasing workdays in the calendar week of its
      first day has ascending weekday numbers. */
  lemma CalendarWeekAscends(week: seq<Date>, ws: seq<Date>)
    requires StrictlyIncreasing(week) && week != []
    requires forall j :: 0 <= j < |ws| ==> IsWeekday(ws[j])
    requires forall j :: 0 <= j < |week| ==> week[j] in ws
    requires forall j :: 0 < j < |week| ==> !CalendarWeekBreak(week[0], week[j])
    ensures AscendingWeekdays(week)
  {
    forall j | 0 <= j < |week| ensures IsWeekday(week[j]) && WeekStart(week[j]) == WeekStart(week[0]) {
      assert week[j] in ws;
    }
    WeekAscends(week);
  }

  /** Increasing weekdays sharing their Monday have increasing weekday numbers. */
  lemma WeekAscends(week: seq<Date>)
    requires StrictlyIncreasing(week)
    requires forall j :: 0 <= j < |week| ==> IsWeekday(week[j]) && WeekStart(week[j]) == WeekStart(week[0])
    ensures AscendingWeekdays(week)
  {
    forall a, b | 0 <= a < b < |week| ensures DayOfWeek(week[a]) < DayOfWeek(week[b]) {
      SameWeekWeekdays(week[a], week[b]);
    }
  }

  /** The weeks of a month's workdays, each with ascending weekdays. */
  lemma MonthWeeks(year: int, month: int, holidays: seq<Date>)
    requires 1 <= month <= 12
    ensures Flatten(CalendarWeeks(MonthWorkdays(year, month, holidays))) == MonthWorkdays(year, month, holidays)
    ensures forall k :: 0 <= k < |CalendarWeeks(MonthWorkdays(year, month, holidays))| ==>
      CalendarWeeks(MonthWorkdays(year, month, holidays))[k] != [] &&
      AscendingWeekdays(CalendarWeeks(MonthWorkdays(year, month, holidays))[k])
  {
    var ws := MonthWorkdays(year, month, holidays);
    MonthWorkdaysExact(year, month, holidays);
    assert forall j :: 0 <= j < |ws| ==> ws[j] in ws;
    CalendarWeeksPartition(ws);
  }

  /** With a holiday on the Monday between them, the Tuesday of one week
      and the Tuesday of the next fall into a single week as written, and
      the second overwrites the first in that week's plan; the corrected
      split keeps them in two weeks. */
  lemma MondayHolidayMergesWeeks(monday: Date, first: seq<Person>, second: seq<Person>)
    requires DayOfWeek(monday) == Monday
    ensures var ws := [monday + 1, monday + 8];
      && MondayWeeks(ws) == [ws]
      && DayOfWeek(ws[0]) == DayOfWeek(ws[1]) == Tuesday
      && PutSlot(PutSlot(EmptyWeek(), ws[0], first), ws[1], second) == PutSlot(EmptyWeek(), ws[1], second)
      && CalendarWeeks(ws) == [[monday + 1], [monday + 8]]
  {
    var ws := [monday + 1, monday + 8];
    assert DayOfWeek(monday + 1) == Tuesday && DayOfWeek(monday + 8) == Tuesday;
    assert ws[..1] == [monday + 1] && [monday + 1][..0] == [];
    assert ScanDates([monday + 1], MondayBreak) == Scan([], [monday + 1]);
    assert ScanDates(ws, MondayBreak) == Scan([], ws);
    assert WeekStart(monday + 1) == monday && WeekStart(monday + 8) == monday + 7;
    assert ScanDates([monday + 1], CalendarWeekBreak) == Scan([], [monday + 1]);
    assert ScanDates(ws, CalendarWeekBreak) == Scan([[monday + 1]], [monday + 8]);
  }

  // ---------------------------------------------------------------------
  // Quotas
  // ---------------------------------------------------------------------

  lemma {:induction false} QuotaPrefixShares(roster: seq<Person>, total: nat, k: nat)
    requires k <= |roster|
    ensures forall p :: p in QuotaPrefix(roster, total, k) <==> p in roster[..k]
    ensures forall p :: p in QuotaPrefix(roster, total, k) ==>
      QuotaPrefix(roster, total, k)[p] == ShareBase(total, |roster|) || QuotaPrefix(roster, total, k)[p] == ShareBase(total, |roster|) + 1
    ensures NoDup(roster) ==> forall i :: 0 <= i < k ==>
      QuotaPrefix(roster, total, k)[roster[i]] == ShareBase(total, |roster|) + (if i < ShareExtra(total, |roster|) then 1 else 0)
  {
    if k > 0 {
      QuotaPrefixShares(roster, total, k - 1);
      assert roster[..k] == roster[..k - 1] + [roster[k - 1]];
    }
  }

  /** Everyone on the roster gets a quota of `base` or `base + 1`, and (for
      a roster without repeated names) exactly the first `extra` positions
      get `base + 1`. */
  lemma QuotaShares(roster: seq<Person>, total: nat)
    ensures forall p :: p in Quotas(roster, total) <==> p in roster
    ensures forall p :: p in Quotas(roster, total) ==>
      Quotas(roster, total)[p] == ShareBase(total, |roster|) || Quotas(roster, total)[p] == ShareBase(total, |roster|) + 1
    ensures NoDup(roster) ==> forall i :: 0 <= i < |roster| ==>
      Quotas(roster, total)[roster[i]] == ShareBase(total, |roster|) + (if i < ShareExtra(total, |roster|) then 1 else 0)
  {
    QuotaPrefixShares(roster, total, |roster|);
    assert roster[..|roster|] == roster;
  }

  /** The quotas of positions `i..` add up to a base each plus one for each
      position still before `e`. */
  lemma {:induction false} QuotaSuffixSum(roster: seq<Person>, q: map<Person, nat>, b: nat, e: nat, i: nat)
    requires i <= |roster| && e <= |roster|
    requires forall j :: i <= j < |roster| ==> Get(q, roster[j]) == b + (if j < e then 1 else 0)
    ensures SumOver(roster[i..], q) == (|roster| - i) * b + (if i < e then e - i else 0)
    decreases |roster| - i
  {
    if i < |roster| {
      assert roster[i..][0] == roster[i] && roster[i..][1..] == roster[i + 1..];
      QuotaSuffixSum(roster, q, b, e, i + 1);
      assert (|roster| - i) * b == b + (|roster| - (i + 1)) * b;
    }
  }

  /** Before the raise the quotas of a roster without repeated names add up
      to the number of duty places to fill. */
  lemma QuotaSum(roster: seq<Person>, total: nat)
    requires NoDup(roster) && |roster| > 0
    ensures SumOver(roster, Quotas(roster, total)) == total
  {
    var n, b, e := |roster|, ShareBase(total, |roster|), ShareExtra(total, |roster|);
    var q := Quotas(roster, total);
    QuotaShares(roster, total);
    assert forall j :: 0 <= j < n ==> Get(q, roster[j]) == b + (if j < e then 1 else 0);
    QuotaSuffixSum(roster, q, b, e, 0);
    assert roster[0..] == roster;
    assert SumOver(roster, Quotas(roster, total)) == n * b + e;
    ShareTotal(total, n);
  }

  /** The base share of each of `n` people and the remainder make up the total. */
  lemma ShareTotal(total: nat, n: nat)
    requires n > 0
    ensures n * ShareBase(total, n) + ShareExtra(total, n) == total
  {
  }

  /** The month's quota: a carried count never lowers a planned quota and
      is itself covered, and a rostered person's quota is the larger of
      their planned quota and their carried count, or the planned quota
      when nothing is carried for them; names off the roster get no quota. */
  lemma MonthQuotaCovers(roster: seq<Person>, workdayCount: nat, carried: Option<map<Person, nat>>)
    ensures forall p :: p in MonthQuota(roster, workdayCount, carried) <==> p in roster
    ensures forall p :: p in roster ==>
      Get(Quotas(roster, workdayCount * CrewSize), p) <= Get(MonthQuota(roster, workdayCount, carried), p)
    ensures carried.Some? ==> forall p :: p in roster && p in carried.value ==>
      carried.value[p] <= Get(MonthQuota(roster, workdayCount, carried), p)
    ensures carried.None? ==> MonthQuota(roster, workdayCount, carried) == Quotas(roster, workdayCount * CrewSize)
    ensures forall p :: p in roster ==>
      Get(MonthQuota(roster, workdayCount, carried), p) ==
        if carried.Some? && p in carried.value && Get(Quotas(roster, workdayCount * CrewSize), p) < carried.value[p]
        then carried.value[p] else Get(Quotas(roster, workdayCount * CrewSize), p)
  {
    QuotaShares(roster, workdayCount * CrewSize);
  }

  // ---------------------------------------------------------------------
  // One day
  // ---------------------------------------------------------------------

  /** The pool is the `min(|eligible|, PoolWidth)` eligible people with the
      lowest counts: nobody left out of it has a lower count than anyone in it. */
  lemma PoolLeastLoaded(env: Env, st: State, d: Date)
    ensures |Pool(env, st, d)| == Min(|Eligible(env, st, d)|, PoolWidth)
    ensures multiset(Pool(env, st, d)) <= multiset(Eligible(env, st, d))
    ensures forall p, q :: p in Pool(env, st, d) && multiset(Pool(env, st, d))[q] < multiset(Eligible(env, st, d))[q] ==>
      Get(st.counts, p) <= Get(st.counts, q)
  {
    var available := Eligible(env, st, d);
    var sorted := SortByCount(available, st.counts);
    var w := Min(|available|, PoolWidth);
    SortedPrefixLeastCopies(sorted, st.counts, w);
    PrefixMultiset(sorted, w);
  }

  /** A day fails exactly when fewer than `CrewSize` people are eligible, and
      then with its own date. On success the crew is `CrewSize` eligible
      roster members drawn from the pool, distinct when the roster is. */
  lemma AssignDayCrew(env: Env, st: State, d: Date)
    requires IsShuffle(env.shuffle)
    ensures AssignDay(env, st, d).Failure? <==> |Eligible(env, st, d)| < CrewSize
    ensures AssignDay(env, st, d).Failure? ==> AssignDay(env, st, d).error == InfeasibleDay(d)
    ensures AssignDay(env, st, d).Success? ==>
      var crew := AssignDay(env, st, d).value.0;
      && |crew| == CrewSize
      && multiset(crew) <= multiset(Pool(env, st, d))
      && (forall p :: p in crew ==> p in env.roster && IsEligible(env, st, d, p))
      && (NoDup(env.roster) ==> NoDup(crew))
  {
    if AssignDay(env, st, d).Success? {
      var available := Eligible(env, st, d);
      var pool := Pool(env, st, d);
      var shuffled := env.shuffle(d, pool);
      PoolLeastLoaded(env, st, d);
      assert |shuffled| == |multiset(shuffled)| == |pool| >= CrewSize;
      var crew := shuffled[..CrewSize];
      assert crew == AssignDay(env, st, d).value.0;
      DrawnPrefix(shuffled, pool, available, env.roster, CrewSize);
      forall p | p in crew ensures IsEligible(env, st, d, p) {
        assert p in available;
      }
    }
  }

  /** Committing a crew without repeats raises exactly the crew's counts by
      one and adds no key but theirs. */
  lemma CommitCounts(st: State, crew: seq<Person>, d: Date)
    requires NoDup(crew)
    ensures forall p :: Get(Commit(st, crew, d).counts, p) == Get(st.counts, p) + (if p in crew then 1 else 0)
    ensures forall p :: p in Commit(st, crew, d).counts <==> p in st.counts || p in crew
  {
    BumpCounts(st.counts, crew);
    forall p ensures multiset(crew)[p] == if p in crew then 1 else 0 {
      NoDupToMultiset(crew, p);
    }
  }

  /** A successful day commits its crew: the state after it is the state
      before with the crew counted, marked as served this week, and, exactly
      on a Friday, recorded as the last Friday crew. */
  lemma AssignDayCommits(env: Env, st: State, d: Date)
    requires IsShuffle(env.shuffle) && AssignDay(env, st, d).Success? && NoDup(env.roster)
    ensures var (crew, st') := AssignDay(env, st, d).value;
      && (forall p :: Get(st'.counts, p) == Get(st.counts, p) + (if p in crew then 1 else 0))
      && (forall p :: p in st'.counts <==> p in st.counts || p in crew)
      && st'.weekAssigned == st.weekAssigned + (set p | p in crew)
      && st'.lastFriday == (if DayOfWeek(d) == Friday then Some(crew) else st.lastFriday)
  {
    AssignDayCrew(env, st, d);
    var (crew, st') := AssignDay(env, st, d).value;
    CommitCounts(st, crew, d);
  }

  // ---------------------------------------------------------------------
  // One week
  // ---------------------------------------------------------------------

  /** A cell of a week plan is empty, or filled for one of `days` at that
      date's own weekday with `CrewSize` distinct roster members of whom
      none is absent on the date. */
  ghost predicate CellOk(roster: seq<Person>, absences: Absences, days: seq<Date>, c: int, s: Slot) {
    if s.date.None? then s.people == []
    else
      && s.date.value in days
      && DayOfWeek(s.date.value) == c + 1
      && |s.people| == CrewSize && NoDup(s.people)
      && forall p :: p in s.people ==> p in roster && !IsAbsent(absences, p, s.date.value)
  }

  /** A week plan filled for `days[..i]`: five sound cells, each of those
      days in its cell, nobody in two cells, and nobody of the Friday crew
      before the week (`friday0`) in the Friday cell. */
  ghost predicate SlotsOk(roster: seq<Person>, absences: Absences, days: seq<Date>, i: nat, friday0: Option<seq<Person>>, slots: seq<Slot>) {
    && i <= |days| && |slots| == 5
    && (forall c :: 0 <= c < 5 ==> CellOk(roster, absences, days[..i], c, slots[c]))
    && (forall j :: 0 <= j < i && IsWeekday(days[j]) ==> slots[DayOfWeek(days[j]) - 1].date == Some(days[j]))
    && (forall c1, c2 :: 0 <= c1 < c2 < 5 ==> Disjoint(slots[c1].people, slots[c2].people))
    && (friday0.Some? ==> Disjoint(slots[4].people, friday0.value))
  }

  /** The counts cover exactly the roster and stay within the quotas. */
  ghost predicate CountsOk(env: Env, counts: map<Person, nat>) {
    && (forall p :: p in counts <==> p in env.roster)
    && (forall p :: p in env.roster ==> Get(counts, p) <= Get(env.quota, p))
  }

  /** The state of a week's run after `days[..i]`. */
  ghost predicate WeekInv(env: Env, days: seq<Date>, i: nat, friday0: Option<seq<Person>>, st: State, slots: seq<Slot>) {
    && SlotsOk(env.roster, env.absences, days, i, friday0, slots)
    && CountsOk(env, st.counts)
    && (forall c, p :: 0 <= c < 5 && p in slots[c].people ==> p in st.weekAssigned)
    && st.lastFriday == (if slots[4].date.Some? then Some(slots[4].people) else friday0)
  }

  /** The cells filled so far lie before the cell of the next day. */
  lemma EarlierCells(roster: seq<Person>, absences: Absences, days: seq<Date>, i: nat, friday0: Option<seq<Person>>, slots: seq<Slot>)
    requires i < |days| && AscendingWeekdays(days) && SlotsOk(roster, absences, days, i, friday0, slots)
    ensures forall c :: 0 <= c < 5 && slots[c].date.Some? ==> c < DayOfWeek(days[i]) - 1
  {
    forall c | 0 <= c < 5 && slots[c].date.Some? ensures c < DayOfWeek(days[i]) - 1 {
      assert CellOk(roster, absences, days[..i], c, slots[c]);
      var j :| 0 <= j < i && days[..i][j] == slots[c].date.value;
      assert days[j] == slots[c].date.value;
    }
  }

  /** Writing a fresh crew into the cell of the next day keeps the week
      plan sound. */
  lemma PlaceCrew(roster: seq<Person>, absences: Absences, days: seq<Date>, i: nat, friday0: Option<seq<Person>>,
                  slots: seq<Slot>, served: set<Person>, crew: seq<Person>)
    requires i < |days| && AscendingWeekdays(days) && SlotsOk(roster, absences, days, i, friday0, slots)
    requires forall c, p :: 0 <= c < 5 && p in slots[c].people ==> p in served
    requires |crew| == CrewSize && NoDup(crew)
    requires forall p :: p in crew ==> p in roster && !IsAbsent(absences, p, days[i]) && p !in served
    requires DayOfWeek(days[i]) == Friday && friday0.Some? ==> Disjoint(crew, friday0.value)
    ensures SlotsOk(roster, absences, days, i + 1, friday0, PutSlot(slots, days[i], crew))
  {
    var d := days[i];
    var c0 := DayOfWeek(d) - 1;
    EarlierCells(roster, absences, days, i, friday0, slots);
    var slots' := PutSlot(slots, d, crew);
    assert slots' == slots[c0 := Slot(Some(d), crew)];
    assert days[..i + 1] == days[..i] + [d];
    assert slots[c0].people == [];
    forall c | 0 <= c < 5 ensures CellOk(roster, absences, days[..i + 1], c, slots'[c]) {
      assert CellOk(roster, absences, days[..i], c, slots[c]);
    }
    forall j | 0 <= j < i && IsWeekday(days[j]) ensures slots'[DayOfWeek(days[j]) - 1].date == Some(days[j]) {
      assert DayOfWeek(days[j]) < DayOfWeek(d);
    }
    forall c1, c2 | 0 <= c1 < c2 < 5 ensures Disjoint(slots'[c1].people, slots'[c2].people) {
    }
  }

  lemma DayStepCounts(env: Env, st: State, d: Date)
    requires IsShuffle(env.shuffle) && NoDup(env.roster) && CountsOk(env, st.counts) && AssignDay(env, st, d).Success?
    ensures CountsOk(env, AssignDay(env, st, d).value.1.counts)
    ensures SumOver(env.roster, AssignDay(env, st, d).value.1.counts) == SumOver(env.roster, st.counts) + CrewSize
  {
    AssignDayCrew(env, st, d);
    AssignDayCommits(env, st, d);
    var crew := AssignDay(env, st, d).value.0;
    SumOverBump(env.roster, st.counts, crew);
  }

  lemma DayStep(env: Env, days: seq<Date>, i: nat, friday0: Option<seq<Person>>, st: State, slots: seq<Slot>)
    requires IsShuffle(env.shuffle) && NoDup(env.roster) && i < |days| && AscendingWeekdays(days)
    requires WeekInv(env, days, i, friday0, st, slots) && AssignDay(env, st, days[i]).Success?
    ensures var (crew, st') := AssignDay(env, st, days[i]).value;
      && WeekInv(env, days, i + 1, friday0, st', PutSlot(slots, days[i], crew))
      && SumOver(env.roster, st'.counts) == SumOver(env.roster, st.counts) + CrewSize
  {
    var d := days[i];
    AssignDayCrew(env, st, d);
    AssignDayCommits(env, st, d);
    DayStepCounts(env, st, d);
    var (crew, st') := AssignDay(env, st, d).value;
    forall p | p in crew ensures p in env.roster && !IsAbsent(env.absences, p, d) && p !in st.weekAssigned {
      assert IsEligible(env, st, d, p);
    }
    if DayOfWeek(d) == Friday && friday0.Some? {
      assert st.lastFriday == friday0;
      forall p | p in crew ensures p !in friday0.value {
        assert IsEligible(env, st, d, p);
      }
    }
    PlaceDay(env, days, i, friday0, st, slots, crew, st');
  }

  /** Writing an eligible crew into the next day's cell, and committing it,
      keeps the week's invariant. */
  lemma PlaceDay(env: Env, days: seq<Date>, i: nat, friday0: Option<seq<Person>>, st: State, slots: seq<Slot>,
                 crew: seq<Person>, st': State)
    requires i < |days| && AscendingWeekdays(days) && WeekInv(env, days, i, friday0, st, slots)
    requires |crew| == CrewSize && NoDup(crew)
    requires forall p :: p in crew ==> p in env.roster && !IsAbsent(env.absences, p, days[i]) && p !in st.weekAssigned
    requires DayOfWeek(days[i]) == Friday && friday0.Some? ==> Disjoint(crew, friday0.value)
    requires CountsOk(env, st'.counts)
    requires st'.weekAssigned == st.weekAssigned + (set p | p in crew)
    requires st'.lastFriday == (if DayOfWeek(days[i]) == Friday then Some(crew) else st.lastFriday)
    ensures WeekInv(env, days, i + 1, friday0, st', PutSlot(slots, days[i], crew))
  {
    var d := days[i];
    EarlierCells(env.roster, env.absences, days, i, friday0, slots);
    PlaceCrew(env.roster, env.absences, days, i, friday0, slots, st.weekAssigned, crew);
    var slots' := PutSlot(slots, d, crew);
    assert slots' == slots[DayOfWeek(d) - 1 := Slot(Some(d), crew)];
  }

  /** A successful week from a sound state ends in a sound state, with
      `CrewSize` more duties per day planned. */
  lemma {:induction false} RunDaysSound(env: Env, days: seq<Date>, i: nat, friday0: Option<seq<Person>>, st: State, slots: seq<Slot>)
    requires IsShuffle(env.shuffle) && NoDup(env.roster) && i <= |days| && AscendingWeekdays(days)
    requires WeekInv(env, days, i, friday0, st, slots) && RunDays(env, days, i, st, slots).Success?
    ensures var (slots', st') := RunDays(env, days, i, st, slots).value;
      && WeekInv(env, days, |days|, friday0, st', slots')
      && SumOver(env.roster, st'.counts) == SumOver(env.roster, st.counts) + CrewSize * (|days| - i)
    decreases |days| - i
  {
    if i < |days| {
      DayStep(env, days, i, friday0, st, slots);
      var (crew, st1) := AssignDay(env, st, days[i]).value;
      RunDaysSound(env, days, i + 1, friday0, st1, PutSlot(slots, days[i], crew));
    }
  }

  /** The counts half of `RunDaysSound`, for any days in any order: the
      counts stay sound and grow by `CrewSize` per day planned. */
  lemma {:induction false} RunDaysCounts(env: Env, days: seq<Date>, i: nat, st: State, slots: seq<Slot>)
    requires IsShuffle(env.shuffle) && NoDup(env.roster) && i <= |days|
    requires CountsOk(env, st.counts) && RunDays(env, days, i, st, slots).Success?
    ensures var st' := RunDays(env, days, i, st, slots).value.1;
      && CountsOk(env, st'.counts)
      && SumOver(env.roster, st'.counts) == SumOver(env.roster, st.counts) + CrewSize * (|days| - i)
    decreases |days| - i
  {
    if i < |days| {
      DayStepCounts(env, st, days[i]);
      var (crew, st1) := AssignDay(env, st, days[i]).value;
      RunDaysCounts(env, days, i + 1, st1, PutSlot(slots, days[i], crew));
    }
  }

  /** A successful week of any days, grouped by any week test, from sound
      counts: the counts stay sound and grow by `CrewSize` per day. */
  lemma WeekCounts(env: Env, days: seq<Date>, counts: map<Person, nat>, lastFriday: Option<seq<Person>>)
    requires IsShuffle(env.shuffle) && NoDup(env.roster)
    requires CountsOk(env, counts) && RunWeek(env, days, counts, lastFriday).Success?
    ensures var st := RunWeek(env, days, counts, lastFriday).value.1;
      && CountsOk(env, st.counts)
      && SumOver(env.roster, st.counts) == SumOver(env.roster, counts) + CrewSize * |days|
  {
    RunDaysCounts(env, days, 0, State(counts, {}, lastFriday), EmptyWeek());
  }

  // ---------------------------------------------------------------------
  // One month
  // ---------------------------------------------------------------------

  /** The crew of the last filled Friday cell in weeks `plan[..k]`, or the
      seed if there is none: the `previousWeekFriday` week `k` starts with. */
  function FridayBefore(seed: Option<seq<Person>>, plan: seq<seq<Slot>>, k: nat): Option<seq<Person>>
    requires k <= |plan|
  {
    if k == 0 then seed
    else if |plan[k - 1]| == 5 && plan[k - 1][4].date.Some? then Some(plan[k - 1][4].people)
    else FridayBefore(seed, plan, k - 1)
  }

  lemma FridayBeforeExtend(seed: Option<seq<Person>>, plan: seq<seq<Slot>>, slots: seq<Slot>, k: nat)
    requires k <= |plan|
    ensures FridayBefore(seed, plan + [slots], k) == FridayBefore(seed, plan, k)
  {
    if k > 0 {
      assert (plan + [slots])[k - 1] == plan[k - 1];
      FridayBeforeExtend(seed, plan, slots, k - 1);
    }
  }

  /** The state of a month's run after `weeks[..i]`. */
  ghost predicate MonthInv(env: Env, weeks: seq<seq<Date>>, i: nat, seed: Option<seq<Person>>, counts: map<Person, nat>, lastFriday: Option<seq<Person>>, plan: seq<seq<Slot>>) {
    && i <= |weeks| && |plan| == i
    && CountsOk(env, counts)
    && (forall k :: 0 <= k < i ==> SlotsOk(env.roster, env.absences, weeks[k], |weeks[k]|, FridayBefore(seed, plan, k), plan[k]))
    && lastFriday == FridayBefore(seed, plan, i)
    && SumOver(env.roster, counts) == CrewSize * |Flatten(weeks[..i])|
  }

  /** Appending a sound week plan keeps every earlier week's plan sound
      against the same Friday crew as before. */
  lemma ExtendPlan(roster: seq<Person>, absences: Absences, weeks: seq<seq<Date>>, i: nat, seed: Option<seq<Person>>,
                   plan: seq<seq<Slot>>, slots: seq<Slot>)
    requires i < |weeks| && |plan| == i
    requires forall k :: 0 <= k < i ==> SlotsOk(roster, absences, weeks[k], |weeks[k]|, FridayBefore(seed, plan, k), plan[k])
    requires SlotsOk(roster, absences, weeks[i], |weeks[i]|, FridayBefore(seed, plan, i), slots)
    ensures forall k :: 0 <= k < i + 1 ==>
      SlotsOk(roster, absences, weeks[k], |weeks[k]|, FridayBefore(seed, plan + [slots], k), (plan + [slots])[k])
    ensures FridayBefore(seed, plan + [slots], i + 1) == if slots[4].date.Some? then Some(slots[4].people) else FridayBefore(seed, plan, i)
  {
    forall k | 0 <= k < i + 1
      ensures SlotsOk(roster, absences, weeks[k], |weeks[k]|, FridayBefore(seed, plan + [slots], k), (plan + [slots])[k])
    {
      FridayBeforeExtend(seed, plan, slots, k);
      var week := if k < i then plan[k] else slots;
      assert (plan + [slots])[k] == week;
      assert SlotsOk(roster, absences, weeks[k], |weeks[k]|, FridayBefore(seed, plan, k), week);
    }
    FridayBeforeExtend(seed, plan, slots, i);
    assert (plan + [slots])[i] == slots;
  }

  lemma WeekStep(env: Env, weeks: seq<seq<Date>>, i: nat, seed: Option<seq<Person>>, counts: map<Person, nat>, lastFriday: Option<seq<Person>>, plan: seq<seq<Slot>>)
    requires IsShuffle(env.shuffle) && NoDup(env.roster) && i < |weeks| && AscendingWeekdays(weeks[i])
    requires MonthInv(env, weeks, i, seed, counts, lastFriday, plan) && RunWeek(env, weeks[i], counts, lastFriday).Success?
    ensures var (slots, st) := RunWeek(env, weeks[i], counts, lastFriday).value;
      MonthInv(env, weeks, i + 1, seed, st.counts, st.lastFriday, plan + [slots])
  {
    WeekSound(env, weeks[i], counts, lastFriday);
    var (slots, st) := RunWeek(env, weeks[i], counts, lastFriday).value;
    MonthStep(env, weeks, i, seed, counts, lastFriday, plan, slots, st);
  }

  /** A successful week from sound counts: its plan is sound against the
      Friday crew it started from, the counts stay sound and grow by
      `CrewSize` per day, and the last Friday crew is this week's Friday
      cell when it has one. */
  lemma WeekSound(env: Env, days: seq<Date>, counts: map<Person, nat>, lastFriday: Option<seq<Person>>)
    requires IsShuffle(env.shuffle) && NoDup(env.roster) && AscendingWeekdays(days)
    requires CountsOk(env, counts) && RunWeek(env, days, counts, lastFriday).Success?
    ensures var (slots, st) := RunWeek(env, days, counts, lastFriday).value;
      && SlotsOk(env.roster, env.absences, days, |days|, lastFriday, slots)
      && CountsOk(env, st.counts)
      && st.lastFriday == (if slots[4].date.Some? then Some(slots[4].people) else lastFriday)
      && SumOver(env.roster, st.counts) == SumOver(env.roster, counts) + CrewSize * |days|
  {
    var st0 := State(counts, {}, lastFriday);
    EmptyWeekInv(env, days, counts, lastFriday);
    RunDaysSound(env, days, 0, lastFriday, st0, EmptyWeek());
  }

  /** A week starts sound: no cell filled, nobody served. */
  lemma EmptyWeekInv(env: Env, days: seq<Date>, counts: map<Person, nat>, lastFriday: Option<seq<Person>>)
    requires CountsOk(env, counts)
    ensures WeekInv(env, days, 0, lastFriday, State(counts, {}, lastFriday), EmptyWeek())
  {
    var w := EmptyWeek();
    forall c | 0 <= c < 5 ensures CellOk(env.roster, env.absences, days[..0], c, w[c]) {
      assert w[c] == Slot(None, []);
    }
  }

  /** Appending a sound week to a sound month prefix gives a sound prefix
      one week longer. */
  lemma MonthStep(env: Env, weeks: seq<seq<Date>>, i: nat, seed: Option<seq<Person>>, counts: map<Person, nat>,
                  lastFriday: Option<seq<Person>>, plan: seq<seq<Slot>>, slots: seq<Slot>, st: State)
    requires i < |weeks| && MonthInv(env, weeks, i, seed, counts, lastFriday, plan)
    requires SlotsOk(env.roster, env.absences, weeks[i], |weeks[i]|, lastFriday, slots)
    requires CountsOk(env, st.counts)
    requires st.lastFriday == (if slots[4].date.Some? then Some(slots[4].people) else lastFriday)
    requires SumOver(env.roster, st.counts) == SumOver(env.roster, counts) + CrewSize * |weeks[i]|
    ensures MonthInv(env, weeks, i + 1, seed, st.counts, st.lastFriday, plan + [slots])
  {
    ExtendPlan(env.roster, env.absences, weeks, i, seed, plan, slots);
    FlattenPrefixStep(weeks, i);
  }

  lemma {:induction false} RunWeeksSound(env: Env, weeks: seq<seq<Date>>, i: nat, seed: Option<seq<Person>>, counts: map<Person, nat>, lastFriday: Option<seq<Person>>, plan: seq<seq<Slot>>)
    requires IsShuffle(env.shuffle) && NoDup(env.roster) && i <= |weeks|
    requires forall k :: 0 <= k < |weeks| ==> AscendingWeekdays(weeks[k])
    requires MonthInv(env, weeks, i, seed, counts, lastFriday, plan) && RunWeeks(env, weeks, i, counts, lastFriday, plan).Success?
    ensures var mp := RunWeeks(env, weeks, i, counts, lastFriday, plan).value;
      MonthInv(env, weeks, |weeks|, seed, mp.shiftCounts, mp.lastFriday, mp.plan)
    decreases |weeks| - i
  {
    if i < |weeks| {
      WeekStep(env, weeks, i, seed, counts, lastFriday, plan);
      var (slots, st) := RunWeek(env, weeks[i], counts, lastFriday).value;
      RunWeeksSound(env, weeks, i + 1, seed, st.counts, st.lastFriday, plan + [slots]);
    }
  }

  /** A successful month over a roster without repeated names: one week plan
      per calendar week; every week plan sound for its week (every workday
      in its cell with four distinct roster members present that day, nobody
      twice in a week, nobody of the previous Friday crew on Friday); no
      count above its quota; all counts together equal to four per workday;
      and the returned last Friday crew is the one the next week would
      start with. */
  lemma PlanForMonthSound(
    month: int, year: int, roster: seq<Person>, absences: Absences, holidays: seq<Date>,
    previousFriday: Option<seq<Person>>, prevShiftCounts: Option<map<Person, nat>>, shuffle: Shuffle)
    requires 1 <= month <= 12 && IsShuffle(shuffle) && NoDup(roster)
    requires PlanForMonth(CalendarWeekBreak, month, year, roster, absences, holidays, previousFriday, prevShiftCounts, shuffle).Success?
    ensures var mp := PlanForMonth(CalendarWeekBreak, month, year, roster, absences, holidays, previousFriday, prevShiftCounts, shuffle).value;
      var ws := MonthWorkdays(year, month, holidays);
      var weeks := CalendarWeeks(ws);
      var quota := MonthQuota(roster, |ws|, prevShiftCounts);
      && |mp.plan| == |weeks|
      && (forall p :: p in mp.shiftCounts <==> p in roster)
      && (forall p :: p in roster ==> Get(mp.shiftCounts, p) <= Get(quota, p))
      && SumOver(roster, mp.shiftCounts) == CrewSize * |ws|
      && (forall k :: 0 <= k < |weeks| ==> SlotsOk(roster, absences, weeks[k], |weeks[k]|, FridayBefore(previousFriday, mp.plan, k), mp.plan[k]))
      && mp.lastFriday == FridayBefore(previousFriday, mp.plan, |mp.plan|)
  {
    var ws := MonthWorkdays(year, month, holidays);
    var weeks := CalendarWeeks(ws);
    var env := Env(roster, absences, MonthQuota(roster, |ws|, prevShiftCounts), shuffle);
    MonthWeeks(year, month, holidays);
    RunMonthSound(env, weeks, previousFriday);
    var mp := PlanForMonth(CalendarWeekBreak, month, year, roster, absences, holidays, previousFriday, prevShiftCounts, shuffle).value;
    FinishedMonth(env, weeks, previousFriday, mp);
  }

  /** `MonthInv` after the last week, read off the month plan. */
  lemma FinishedMonth(env: Env, weeks: seq<seq<Date>>, seed: Option<seq<Person>>, mp: MonthPlan)
    requires MonthInv(env, weeks, |weeks|, seed, mp.shiftCounts, mp.lastFriday, mp.plan)
    ensures |mp.plan| == |weeks|
    ensures forall p :: p in mp.shiftCounts <==> p in env.roster
    ensures forall p :: p in env.roster ==> Get(mp.shiftCounts, p) <= Get(env.quota, p)
    ensures SumOver(env.roster, mp.shiftCounts) == CrewSize * |Flatten(weeks)|
    ensures forall k :: 0 <= k < |weeks| ==> SlotsOk(env.roster, env.absences, weeks[k], |weeks[k]|, FridayBefore(seed, mp.plan, k), mp.plan[k])
    ensures mp.lastFriday == FridayBefore(seed, mp.plan, |mp.plan|)
  {
    assert weeks[..|weeks|] == weeks;
  }

  /** The weeks run from zero counts and the given Friday crew end in a
      sound month. */
  lemma RunMonthSound(env: Env, weeks: seq<seq<Date>>, seed: Option<seq<Person>>)
    requires IsShuffle(env.shuffle) && NoDup(env.roster)
    requires forall k :: 0 <= k < |weeks| ==> AscendingWeekdays(weeks[k])
    requires RunWeeks(env, weeks, 0, ZeroCounts(env.roster), seed, []).Success?
    ensures var mp := RunWeeks(env, weeks, 0, ZeroCounts(env.roster), seed, []).value;
      MonthInv(env, weeks, |weeks|, seed, mp.shiftCounts, mp.lastFriday, mp.plan)
  {
    SumOverZero(env.roster, ZeroCounts(env.roster));
    assert weeks[..0] == [];
    assert MonthInv(env, weeks, 0, seed, ZeroCounts(env.roster), seed, []);
    RunWeeksSound(env, weeks, 0, seed, ZeroCounts(env.roster), seed, []);
  }

  /** The counts half of `RunWeeksSound`, for any grouping of the days into
      weeks. */
  lemma {:induction false} RunWeeksCounts(env: Env, weeks: seq<seq<Date>>, i: nat, counts: map<Person, nat>, lastFriday: Option<seq<Person>>, plan: seq<seq<Slot>>)
    requires IsShuffle(env.shuffle) && NoDup(env.roster) && i <= |weeks|
    requires CountsOk(env, counts) && SumOver(env.roster, counts) == CrewSize * |Flatten(weeks[..i])|
    requires RunWeeks(env, weeks, i, counts, lastFriday, plan).Success?
    ensures var mp := RunWeeks(env, weeks, i, counts, lastFriday, plan).value;
      && CountsOk(env, mp.shiftCounts)
      && SumOver(env.roster, mp.shiftCounts) == CrewSize * |Flatten(weeks)|
    decreases |weeks| - i
  {
    if i < |weeks| {
      WeekCounts(env, weeks[i], counts, lastFriday);
      FlattenPrefixStep(weeks, i);
      var (slots, st) := RunWeek(env, weeks[i], counts, lastFriday).value;
      RunWeeksCounts(env, weeks, i + 1, st.counts, st.lastFriday, plan + [slots]);
    } else {
      assert weeks[..i] == weeks;
    }
  }

  /** A successful month over a roster without repeated names, whatever the
      week test (the one as written included): the counts cover exactly the
      roster, none is above its quota, and together they are four per
      workday. */
  lemma PlanForMonthCounts(
    weekBreak: Breaker, month: int, year: int, roster: seq<Person>, absences: Absences, holidays: seq<Date>,
    previousFriday: Option<seq<Person>>, prevShiftCounts: Option<map<Person, nat>>, shuffle: Shuffle)
    requires 1 <= month <= 12 && IsShuffle(shuffle) && NoDup(roster)
    requires PlanForMonth(weekBreak, month, year, roster, absences, holidays, previousFriday, prevShiftCounts, shuffle).Success?
    ensures var mp := PlanForMonth(weekBreak, month, year, roster, absences, holidays, previousFriday, prevShiftCounts, shuffle).value;
      var ws := MonthWorkdays(year, month, holidays);
      var quota := MonthQuota(roster, |ws|, prevShiftCounts);
      && (forall p :: p in mp.shiftCounts <==> p in roster)
      && (forall p :: p in roster ==> Get(mp.shiftCounts, p) <= Get(quota, p))
      && SumOver(roster, mp.shiftCounts) == CrewSize * |ws|
  {
    var ws := MonthWorkdays(year, month, holidays);
    var weeks := Group(ws, weekBreak);
    var env := Env(roster, absences, MonthQuota(roster, |ws|, prevShiftCounts), shuffle);
    GroupPartition(ws, weekBreak);
    MonthQuotaCovers(roster, |ws|, prevShiftCounts);
    SumOverZero(roster, ZeroCounts(roster));
    assert weeks[..0] == [];
    RunWeeksCounts(env, weeks, 0, ZeroCounts(roster), previousFriday, []);
  }

  /** Without carried counts, and whatever the week test, every person ends
      the month with exactly their quota: the counts stay within the quotas
      and add up to the same total. */
  lemma FirstMonthMeetsQuotas(
    weekBreak: Breaker, month: int, year: int, roster: seq<Person>, absences: Absences, holidays: seq<Date>,
    previousFriday: Option<seq<Person>>, shuffle: Shuffle)
    requires 1 <= month <= 12 && IsShuffle(shuffle) && NoDup(roster) && |roster| > 0
    requires PlanForMonth(weekBreak, month, year, roster, absences, holidays, previousFriday, None, shuffle).Success?
    ensures var mp := PlanForMonth(weekBreak, month, year, roster, absences, holidays, previousFriday, None, shuffle).value;
      var quota := Quotas(roster, |MonthWorkdays(year, month, holidays)| * CrewSize);
      forall p :: p in roster ==> p in quota && Get(mp.shiftCounts, p) == quota[p]
  {
    var mp := PlanForMonth(weekBreak, month, year, roster, absences, holidays, previousFriday, None, shuffle).value;
    var total := |MonthWorkdays(year, month, holidays)| * CrewSize;
    PlanForMonthCounts(weekBreak, month, year, roster, absences, holidays, previousFriday, None, shuffle);
    QuotaShares(roster, total);
    QuotaSum(roster, total);
    SumOverPointwise(roster, mp.shiftCounts, Quotas(roster, total));
  }

  /** Every workday of a successful month has a cell at its weekday in
      some week plan. */
  lemma WorkdaysArePlanned(
    month: int, year: int, roster: seq<Person>, absences: Absences, holidays: seq<Date>,
    previousFriday: Option<seq<Person>>, prevShiftCounts: Option<map<Person, nat>>, shuffle: Shuffle)
    requires 1 <= month <= 12 && IsShuffle(shuffle) && NoDup(roster)
    requires PlanForMonth(CalendarWeekBreak, month, year, roster, absences, holidays, previousFriday, prevShiftCounts, shuffle).Success?
    ensures var plan := PlanForMonth(CalendarWeekBreak, month, year, roster, absences, holidays, previousFriday, prevShiftCounts, shuffle).value.plan;
      forall d :: d in MonthWorkdays(year, month, holidays) ==>
        exists k, c :: 0 <= k < |plan| && 0 <= c < |plan[k]| && c == DayOfWeek(d) - 1 && plan[k][c].date == Some(d)
  {
    var ws := MonthWorkdays(year, month, holidays);
    var weeks := CalendarWeeks(ws);
    var plan: seq<seq<Slot>> := PlanForMonth(CalendarWeekBreak, month, year, roster, absences, holidays, previousFriday, prevShiftCounts, shuffle).value.plan;
    PlanForMonthSound(month, year, roster, absences, holidays, previousFriday, prevShiftCounts, shuffle);
    MonthWeeks(year, month, holidays);
    forall k, j | 0 <= k < |weeks| && 0 <= j < |weeks[k]|
      ensures IsWeekday(weeks[k][j]) && |plan[k]| == 5 && plan[k][DayOfWeek(weeks[k][j]) - 1].date == Some(weeks[k][j])
    {
      assert AscendingWeekdays(weeks[k]);
      assert SlotsOk(roster, absences, weeks[k], |weeks[k]|, FridayBefore(previousFriday, plan, k), plan[k]);
    }
    CellsCoverDays(weeks, plan);
  }

  /** When each week plan holds each of its week's days in that day's cell,
      every day of the weeks has a cell. */
  lemma CellsCoverDays(weeks: seq<seq<Date>>, plan: seq<seq<Slot>>)
    requires |plan| == |weeks|
    requires forall k, j :: 0 <= k < |weeks| && 0 <= j < |weeks[k]| ==>
      IsWeekday(weeks[k][j]) && |plan[k]| == 5 && plan[k][DayOfWeek(weeks[k][j]) - 1].date == Some(weeks[k][j])
    ensures forall d :: d in Flatten(weeks) ==>
      exists k, c :: 0 <= k < |plan| && 0 <= c < |plan[k]| && c == DayOfWeek(d) - 1 && plan[k][c].date == Some(d)
  {
    forall d | d in Flatten(weeks)
      ensures exists k, c :: 0 <= k < |plan| && 0 <= c < |plan[k]| && c == DayOfWeek(d) - 1 && plan[k][c].date == Some(d)
    {
      FlattenMember(weeks, d);
      var k, j :| 0 <= k < |weeks| && 0 <= j < |weeks[k]| && weeks[k][j] == d;
      assert plan[k][DayOfWeek(d) - 1].date == Some(d);
    }
  }

  /** Every filled cell of a successful month holds a workday of the month. */
  lemma PlannedAreWorkdays(
    month: int, year: int, roster: seq<Person>, absences: Absences, holidays: seq<Date>,
    previousFriday: Option<seq<Person>>, prevShiftCounts: Option<map<Person, nat>>, shuffle: Shuffle)
    requires 1 <= month <= 12 && IsShuffle(shuffle) && NoDup(roster)
    requires PlanForMonth(CalendarWeekBreak, month, year, roster, absences, holidays, previousFriday, prevShiftCounts, shuffle).Success?
    ensures var plan := PlanForMonth(CalendarWeekBreak, month, year, roster, absences, holidays, previousFriday, prevShiftCounts, shuffle).value.plan;
      forall k, c :: 0 <= k < |plan| && 0 <= c < |plan[k]| && plan[k][c].date.Some? ==>
        plan[k][c].date.value in MonthWorkdays(year, month, holidays)
  {
    var ws := MonthWorkdays(year, month, holidays);
    var weeks := CalendarWeeks(ws);
    var plan: seq<seq<Slot>> := PlanForMonth(CalendarWeekBreak, month, year, roster, absences, holidays, previousFriday, prevShiftCounts, shuffle).value.plan;
    PlanForMonthSound(month, year, roster, absences, holidays, previousFriday, prevShiftCounts, shuffle);
    GroupMembers(ws, CalendarWeekBreak);
    forall k, c | 0 <= k < |plan| && 0 <= c < |plan[k]| && plan[k][c].date.Some?
      ensures plan[k][c].date.value in ws
    {
      assert SlotsOk(roster, absences, weeks[k], |weeks[k]|, FridayBefore(previousFriday, plan, k), plan[k]);
      assert CellOk(roster, absences, weeks[k][..|weeks[k]|], c, plan[k][c]);
      assert weeks[k][..|weeks[k]|] == weeks[k];
      var j :| 0 <= j < |weeks[k]| && weeks[k][j] == plan[k][c].date.value;
    }
  }

  lemma {:induction false} RunDaysFailure(env: Env, days: seq<Date>, i: nat, st: State, slots: seq<Slot>)
    requires IsShuffle(env.shuffle) && i <= |days| && RunDays(env, days, i, st, slots).Failure?
    ensures exists j :: i <= j < |days| && RunDays(env, days, i, st, slots).error == InfeasibleDay(days[j])
    decreases |days| - i
  {
    if i < |days| {
      AssignDayCrew(env, st, days[i]);
      if AssignDay(env, st, days[i]).Success? {
        var (crew, st') := AssignDay(env, st, days[i]).value;
        RunDaysFailure(env, days, i + 1, st', PutSlot(slots, days[i], crew));
      }
    }
  }

  lemma {:induction false} RunWeeksFailure(env: Env, weeks: seq<seq<Date>>, i: nat, counts: map<Person, nat>, lastFriday: Option<seq<Person>>, plan: seq<seq<Slot>>)
    requires IsShuffle(env.shuffle) && i <= |weeks| && RunWeeks(env, weeks, i, counts, lastFriday, plan).Failure?
    ensures exists k, j :: i <= k < |weeks| && 0 <= j < |weeks[k]| && RunWeeks(env, weeks, i, counts, lastFriday, plan).error == InfeasibleDay(weeks[k][j])
    decreases |weeks| - i
  {
    if i < |weeks| {
      var r := RunWeek(env, weeks[i], counts, lastFriday);
      if r.Failure? {
        RunDaysFailure(env, weeks[i], 0, State(counts, {}, lastFriday), EmptyWeek());
      } else {
        var (slots, st) := r.value;
        RunWeeksFailure(env, weeks, i + 1, st.counts, st.lastFriday, plan + [slots]);
      }
    }
  }

  /** A failed month names a workday of that month, however its weeks are
      formed. */
  lemma PlanForMonthFailsOnWorkday(
    weekBreak: Breaker, month: int, year: int, roster: seq<Person>, absences: Absences, holidays: seq<Date>,
    previousFriday: Option<seq<Person>>, prevShiftCounts: Option<map<Person, nat>>, shuffle: Shuffle)
    requires 1 <= month <= 12 && IsShuffle(shuffle)
    requires PlanForMonth(weekBreak, month, year, roster, absences, holidays, previousFriday, prevShiftCounts, shuffle).Failure?
    ensures var d := PlanForMonth(weekBreak, month, year, roster, absences, holidays, previousFriday, prevShiftCounts, shuffle).error.date;
      d in MonthWorkdays(year, month, holidays) && InMonth(year, month, d) && IsWorkday(d, holidays)
  {
    var ws := MonthWorkdays(year, month, holidays);
    var env := Env(roster, absences, MonthQuota(roster, |ws|, prevShiftCounts), shuffle);
    RunWeeksFailure(env, Group(ws, weekBreak), 0, ZeroCounts(roster), previousFriday, []);
    GroupMembers(ws, weekBreak);
    MonthWorkdaysExact(year, month, holidays);
  }

  /** With fewer than four people on the roster a month with any workday
      fails on its first workday, however its weeks are formed. */
  lemma SmallRosterFails(
    weekBreak: Breaker, month: int, year: int, roster: seq<Person>, absences: Absences, holidays: seq<Date>,
    previousFriday: Option<seq<Person>>, prevShiftCounts: Option<map<Person, nat>>, shuffle: Shuffle)
    requires 1 <= month <= 12 && IsShuffle(shuffle)
    requires |roster| < CrewSize && MonthWorkdays(year, month, holidays) != []
    ensures PlanForMonth(weekBreak, month, year, roster, absences, holidays, previousFriday, prevShiftCounts, shuffle)
         == Failure(InfeasibleDay(MonthWorkdays(year, month, holidays)[0]))
  {
    var ws := MonthWorkdays(year, month, holidays);
    var weeks := Group(ws, weekBreak);
    var env := Env(roster, absences, MonthQuota(roster, |ws|, prevShiftCounts), shuffle);
    GroupPartition(ws, weekBreak);
    assert weeks != [];
    FlattenHead(weeks);
    var st0 := State(ZeroCounts(roster), {}, previousFriday);
    assert |Eligible(env, st0, weeks[0][0])| <= |roster|;
    assert RunWeek(env, weeks[0], ZeroCounts(roster), previousFriday) == Failure(InfeasibleDay(ws[0]));
  }

  /** The two-month chain over a roster without repeated names: the first
      month fills every quota exactly; the second month's quotas cover the
      first month's counts; the second month's counts start again from zero
      and so add up to four per workday of that month; and the Friday rule
      carries across the month boundary. */
  lemma PlanTwoMonthsSound(
    month: int, year: int, nextMonth: int, nextYear: int, roster: seq<Person>, absences: Absences,
    holidays: seq<Date>, shuffle: Shuffle)
    requires 1 <= month <= 12 && 1 <= nextMonth <= 12 && IsShuffle(shuffle) && NoDup(roster)
    requires PlanTwoMonths(CalendarWeekBreak, month, year, nextMonth, nextYear, roster, absences, holidays, shuffle).Success?
    ensures var tm := PlanTwoMonths(CalendarWeekBreak, month, year, nextMonth, nextYear, roster, absences, holidays, shuffle).value;
      var ws := MonthWorkdays(year, month, holidays);
      var ws' := MonthWorkdays(nextYear, nextMonth, holidays);
      && (|roster| > 0 ==> forall p :: p in roster ==> Get(tm.current.shiftCounts, p) == Get(Quotas(roster, |ws| * CrewSize), p))
      && tm.current.lastFriday == FridayBefore(None, tm.current.plan, |tm.current.plan|)
      && (forall p :: p in roster ==> Get(tm.current.shiftCounts, p) <= Get(MonthQuota(roster, |ws'|, Some(tm.current.shiftCounts)), p))
      && (forall p :: p in roster ==> Get(tm.next.shiftCounts, p) <= Get(MonthQuota(roster, |ws'|, Some(tm.current.shiftCounts)), p))
      && SumOver(roster, tm.next.shiftCounts) == CrewSize * |ws'|
      && |tm.next.plan| == |CalendarWeeks(ws')|
      && (forall k :: 0 <= k < |tm.next.plan| ==>
            SlotsOk(roster, absences, CalendarWeeks(ws')[k], |CalendarWeeks(ws')[k]|, FridayBefore(tm.current.lastFriday, tm.next.plan, k), tm.next.plan[k]))
      && (|tm.next.plan| > 0 && |tm.next.plan[0]| == 5 && tm.current.lastFriday.Some? ==>
            Disjoint(tm.next.plan[0][4].people, tm.current.lastFriday.value))
  {
    var r := PlanForMonth(CalendarWeekBreak, month, year, roster, absences, holidays, None, None, shuffle);
    assert r.Success?;
    var current := r.value;
    var r' := PlanForMonth(CalendarWeekBreak, nextMonth, nextYear, roster, absences, holidays, current.lastFriday, Some(current.shiftCounts), shuffle);
    assert r'.Success?;
    var tm := PlanTwoMonths(CalendarWeekBreak, month, year, nextMonth, nextYear, roster, absences, holidays, shuffle).value;
    assert tm == TwoMonths(current, r'.value);
    var ws := MonthWorkdays(year, month, holidays);
    var ws' := MonthWorkdays(nextYear, nextMonth, holidays);
    PlanForMonthSound(month, year, roster, absences, holidays, None, None, shuffle);
    if |roster| > 0 {
      FirstMonthMeetsQuotas(CalendarWeekBreak, month, year, roster, absences, holidays, None, shuffle);
    }
    PlanForMonthSound(nextMonth, nextYear, roster, absences, holidays, current.lastFriday, Some(current.shiftCounts), shuffle);
    MonthQuotaCovers(roster, |ws'|, Some(current.shiftCounts));
    if |tm.next.plan| > 0 && |tm.next.plan[0]| == 5 && tm.current.lastFriday.Some? {
      assert SlotsOk(roster, absences, CalendarWeeks(ws')[0], |CalendarWeeks(ws')[0]|, FridayBefore(tm.current.lastFriday, tm.next.plan, 0), tm.next.plan[0]);
    }
  }

  /** The count half of `PlanTwoMonthsSound`, for any week test (the one as
      written included): the first month fills every quota exactly; the
      second month's quotas cover the first month's counts and bound the
      second month's counts, which add up to four per workday of that
      month. */
  lemma PlanTwoMonthsCounts(
    weekBreak: Breaker, month: int, year: int, nextMonth: int, nextYear: int, roster: seq<Person>, absences: Absences,
    holidays: seq<Date>, shuffle: Shuffle)
    requires 1 <= month <= 12 && 1 <= nextMonth <= 12 && IsShuffle(shuffle) && NoDup(roster)
    requires PlanTwoMonths(weekBreak, month, year, nextMonth, nextYear, roster, absences, holidays, shuffle).Success?
    ensures var tm := PlanTwoMonths(weekBreak, month, year, nextMonth, nextYear, roster, absences, holidays, shuffle).value;
      var ws := MonthWorkdays(year, month, holidays);
      var ws' := MonthWorkdays(nextYear, nextMonth, holidays);
      var quota' := MonthQuota(roster, |ws'|, Some(tm.current.shiftCounts));
      && (|roster| > 0 ==> forall p :: p in roster ==> Get(tm.current.shiftCounts, p) == Get(Quotas(roster, |ws| * CrewSize), p))
      && (forall p :: p in roster ==> Get(tm.current.shiftCounts, p) <= Get(quota', p))
      && (forall p :: p in roster ==> Get(tm.next.shiftCounts, p) <= Get(quota', p))
      && SumOver(roster, tm.next.shiftCounts) == CrewSize * |ws'|
  {
    var r := PlanForMonth(weekBreak, month, year, roster, absences, holidays, None, None, shuffle);
    assert r.Success?;
    var current := r.value;
    var r' := PlanForMonth(weekBreak, nextMonth, nextYear, roster, absences, holidays, current.lastFriday, Some(current.shiftCounts), shuffle);
    assert r'.Success?;
    var ws' := MonthWorkdays(nextYear, nextMonth, holidays);
    if |roster| > 0 {
      FirstMonthMeetsQuotas(weekBreak, month, year, roster, absences, holidays, None, shuffle);
    }
    PlanForMonthCounts(weekBreak, month, year, roster, absences, holidays, None, None, shuffle);
    PlanForMonthCounts(weekBreak, nextMonth, nextYear, roster, absences, holidays, current.lastFriday, Some(current.shiftCounts), shuffle);
    MonthQuotaCovers(roster, |ws'|, Some(current.shiftCounts));
  }
}
