/** What the page component's helpers and its greedy planner guarantee:
    the range and availability tests, the name-list helpers, the people
    list, and the per-day and per-month facts of `createMonthlyPlan`. */
module PlannerProperties {
  import opened Wrappers
  import opened Seqs
  import opened Calendar
  import opened Planner

  // ---------------------------------------------------------------------
  // Date ranges and availability
  // ---------------------------------------------------------------------

  /** With both bounds parsed, the range is the closed interval between them. */
  lemma RangeIsClosedInterval(from: string, to: string, parse: Parser, start: Date, end: Date)
    requires from != "" && to != ""
    requires parse(from) == Some(start) && parse(to) == Some(end)
    ensures forall d :: IsDateInRange(d, Some(from), Some(to), parse) <==> start <= d <= end
    ensures start <= end ==> IsDateInRange(start, Some(from), Some(to), parse) && IsDateInRange(end, Some(from), Some(to), parse)
  {
  }

  /** A range whose start lies after its end contains no day. */
  lemma InvertedRangeIsEmpty(from: string, to: string, parse: Parser)
    requires parse(from).Some? && parse(to).Some? && parse(from).value > parse(to).value
    ensures forall d :: !IsDateInRange(d, Some(from), Some(to), parse)
  {
  }

  /** A missing, empty or unparsable bound makes the range contain no day. */
  lemma IncompleteRangeIsEmpty(from: Option<string>, to: Option<string>, parse: Parser)
    requires Blank(from) || Blank(to) || parse(from.value).None? || parse(to.value).None?
    ensures forall d :: !IsDateInRange(d, from, to, parse)
  {
  }

  /** The entry of `list` at `i` is the first one named `name`. */
  predicate FirstNamed(list: seq<Entry>, name: Name, i: int) {
    0 <= i < |list| && list[i].name == name && forall j :: 0 <= j < i ==> list[j].name != name
  }

  /** `find` returns the first entry with the name, and nothing when no
      entry has it. */
  lemma {:induction false} FindByNameFirst(list: seq<Entry>, name: Name)
    ensures FindByName(list, name).None? <==> name !in Names(list)
    ensures FindByName(list, name).Some? ==>
      exists i :: FirstNamed(list, name, i) && list[i] == FindByName(list, name).value
  {
    if list != [] {
      FindByNameFirst(list[1..], name);
      assert Names(list) == [list[0].name] + Names(list[1..]);
      if list[0].name != name && FindByName(list, name).Some? {
        var i :| FirstNamed(list[1..], name, i) && list[1..][i] == FindByName(list, name).value;
        assert FirstNamed(list, name, i + 1);
      } else if list[0].name == name {
        assert FirstNamed(list, name, 0);
      }
    }
  }

  /** The first entry named `name` has a range containing `d`. */
  ghost predicate Blocks(list: seq<Entry>, name: Name, d: Date, parse: Parser) {
    exists i :: FirstNamed(list, name, i) && IsDateInRange(d, list[i].from, list[i].to, parse)
  }

  lemma FirstNamedUnique(list: seq<Entry>, name: Name, i: int, k: int)
    requires FirstNamed(list, name, i) && FirstNamed(list, name, k)
    ensures i == k
  {
  }

  lemma FindBlocks(list: seq<Entry>, name: Name, d: Date, parse: Parser)
    ensures Blocks(list, name, d, parse) <==>
      FindByName(list, name).Some? && IsDateInRange(d, FindByName(list, name).value.from, FindByName(list, name).value.to, parse)
  {
    FindByNameFirst(list, name);
    if Blocks(list, name, d, parse) {
      var i :| FirstNamed(list, name, i) && IsDateInRange(d, list[i].from, list[i].to, parse);
      assert Names(list)[i] == list[i].name;
      var k :| FirstNamed(list, name, k) && list[k] == FindByName(list, name).value;
      FirstNamedUnique(list, name, i, k);
    }
  }

  /** `isAvailable` is false exactly when the first office entry or the
      first vacation entry of the name has a range containing the day. */
  lemma AvailabilityExact(office: seq<Entry>, vacation: seq<Entry>, parse: Parser, name: Name, d: Date)
    ensures !IsAvailable(office, vacation, parse, name, d) <==>
      Blocks(office, name, d, parse) || Blocks(vacation, name, d, parse)
  {
    FindBlocks(office, name, d, parse);
    FindBlocks(vacation, name, d, parse);
  }

  lemma {:induction false} FreshEntriesUnbounded(names: seq<Name>, name: Name)
    ensures FindByName(FreshEntries(names), name).Some? ==> FindByName(FreshEntries(names), name).value.from.None?
  {
    if names != [] {
      assert FreshEntries(names)[1..] == FreshEntries(names[1..]);
      FreshEntriesUnbounded(names[1..], name);
    }
  }

  /** Lists just built from names carry no ranges, so they block nobody. */
  lemma FreshListsBlockNobody(officeNames: seq<string>, vacationNames: seq<string>, parse: Parser, name: Name, d: Date)
    ensures IsAvailable(InitEntries(officeNames), InitEntries(vacationNames), parse, name, d)
  {
    FreshEntriesUnbounded(NonEmpty(TrimAll(officeNames)), name);
    FreshEntriesUnbounded(NonEmpty(TrimAll(vacationNames)), name);
  }

  // ---------------------------------------------------------------------
  // Editing a range
  // ---------------------------------------------------------------------

  /** `handleDateChange` changes only `field` of the entries named `name`,
      to `value` or to `null` when `value` is empty; names, the other field
      and every other entry stay as they were. */
  lemma {:induction false} DateChangeFrame(list: seq<Entry>, name: Name, field: Field, value: string)
    ensures var r := DateChange(list, name, field, value);
      && |r| == |list|
      && forall i :: 0 <= i < |list| ==>
        && r[i].name == list[i].name
        && (list[i].name != name ==> r[i] == list[i])
        && (list[i].name == name && field == From ==> r[i].from == Stored(value) && r[i].to == list[i].to)
        && (list[i].name == name && field == To ==> r[i].to == Stored(value) && r[i].from == list[i].from)
  {
    if list != [] {
      DateChangeFrame(list[1..], name, field, value);
      var r := DateChange(list, name, field, value);
      assert r[1..] == DateChange(list[1..], name, field, value);
      forall i | 0 < i < |list| ensures r[i] == r[1..][i - 1] && list[i] == list[1..][i - 1] { }
    }
  }

  /** Setting the same value twice is no different from setting it once. */
  lemma {:induction false} DateChangeIdempotent(list: seq<Entry>, name: Name, field: Field, value: string)
    ensures DateChange(DateChange(list, name, field, value), name, field, value) == DateChange(list, name, field, value)
  {
    if list != [] {
      DateChangeIdempotent(list[1..], name, field, value);
      assert DateChange(list, name, field, value)[1..] == DateChange(list[1..], name, field, value);
    }
  }

  lemma {:induction false} FindAfterDateChange(list: seq<Entry>, name: Name, field: Field, value: string, who: Name)
    ensures who != name ==> FindByName(DateChange(list, name, field, value), who) == FindByName(list, who)
    ensures FindByName(DateChange(list, name, field, value), name) ==
      if FindByName(list, name).None? then None else Some(SetField(FindByName(list, name).value, field, Stored(value)))
  {
    if list != [] {
      FindAfterDateChange(list[1..], name, field, value, who);
      assert DateChange(list, name, field, value)[1..] == DateChange(list[1..], name, field, value);
    }
  }

  /** Editing one person's range leaves everyone else's availability alone. */
  lemma DateChangeKeepsOthers(office: seq<Entry>, vacation: seq<Entry>, parse: Parser, name: Name, field: Field, value: string, who: Name, d: Date)
    requires who != name
    ensures IsAvailable(DateChange(office, name, field, value), vacation, parse, who, d) == IsAvailable(office, vacation, parse, who, d)
    ensures IsAvailable(office, DateChange(vacation, name, field, value), parse, who, d) == IsAvailable(office, vacation, parse, who, d)
  {
    FindAfterDateChange(office, name, field, value, who);
    FindAfterDateChange(vacation, name, field, value, who);
  }

  /** Clearing a bound of a person's office and vacation entries makes the
      person available on every day. */
  lemma ClearingBoundsFrees(office: seq<Entry>, vacation: seq<Entry>, parse: Parser, name: Name, officeField: Field, vacationField: Field, d: Date)
    ensures IsAvailable(DateChange(office, name, officeField, ""), DateChange(vacation, name, vacationField, ""), parse, name, d)
  {
    FindAfterDateChange(office, name, officeField, "", name);
    FindAfterDateChange(vacation, name, vacationField, "", name);
  }

  // ---------------------------------------------------------------------
  // Bulk name input
  // ---------------------------------------------------------------------

  /** A name as the bulk input yields them: non-empty, without separators
      and without white space at either end. */
  predicate CleanName(n: string) {
    && n != ""
    && !IsSpace(n[0]) && !IsSpace(n[|n| - 1])
    && forall i :: 0 <= i < |n| ==> !IsSeparator(n[i])
  }

  predicate NoSeparator(s: string) {
    forall i :: 0 <= i < |s| ==> !IsSeparator(s[i])
  }

  lemma {:induction false} SplitPiecesHaveNoSeparator(s: string)
    ensures forall p :: p in Split(s) ==> NoSeparator(p)
  {
    if s != [] {
      SplitPiecesHaveNoSeparator(s[1..]);
      var rest := Split(s[1..]);
      if !IsSeparator(s[0]) {
        assert rest[0] in rest;
        var head := [s[0]] + rest[0];
        assert forall i :: 0 < i < |head| ==> head[i] == rest[0][i - 1];
        assert forall p :: p in rest[1..] ==> p in rest;
      }
    }
  }

  lemma {:induction false} TrimStartExact(s: string)
    ensures var r := TrimStart(s);
      && |r| <= |s| && r == s[|s| - |r|..]
      && (r == [] || !IsSpace(r[0]))
      && forall i :: 0 <= i < |s| - |r| ==> IsSpace(s[i])
  {
    if s != [] && IsSpace(s[0]) {
      TrimStartExact(s[1..]);
      assert forall i :: 1 <= i < |s| ==> s[i] == s[1..][i - 1];
    }
  }

  lemma {:induction false} TrimEndExact(s: string)
    ensures var r := TrimEnd(s);
      && |r| <= |s| && r == s[..|r|]
      && (r == [] || !IsSpace(r[|r| - 1]))
      && forall i :: |r| <= i < |s| ==> IsSpace(s[i])
  {
    if s != [] && IsSpace(s[|s| - 1]) {
      TrimEndExact(s[..|s| - 1]);
    }
  }

  /** `trim` keeps the stretch of `s` between its leading and its trailing
      white space, and that stretch neither starts nor ends with white space. */
  lemma TrimExact(s: string)
    ensures exists i, j ::
      && 0 <= i <= j <= |s| && Trim(s) == s[i..j]
      && (forall k :: 0 <= k < i ==> IsSpace(s[k]))
      && (forall k :: j <= k < |s| ==> IsSpace(s[k]))
    ensures Trim(s) != [] ==> !IsSpace(Trim(s)[0]) && !IsSpace(Trim(s)[|Trim(s)| - 1])
  {
    var a := TrimStart(s);
    TrimStartExact(s);
    TrimEndExact(a);
    var r := TrimEnd(a);
    var i := |s| - |a|;
    var j := i + |r|;
    assert r == s[i..j];
    forall k | j <= k < |s| ensures IsSpace(s[k]) {
      assert s[k] == a[k - i];
    }
    if r != [] {
      assert r[0] == a[0];
    }
  }

  lemma TrimmedClean(s: string)
    requires NoSeparator(s)
    ensures NoSeparator(Trim(s))
    ensures Trim(s) != "" ==> !IsSpace(Trim(s)[0]) && !IsSpace(Trim(s)[|Trim(s)| - 1])
  {
    TrimExact(s);
    var i, j :| 0 <= i <= j <= |s| && Trim(s) == s[i..j];
    forall k | 0 <= k < |Trim(s)| ensures !IsSeparator(Trim(s)[k]) {
      assert Trim(s)[k] == s[i + k];
    }
  }

  lemma {:induction false} TrimAllMember(ss: seq<string>, n: string)
    requires n in TrimAll(ss)
    ensures exists x :: x in ss && n == Trim(x)
  {
    if n != Trim(ss[0]) {
      assert n in TrimAll(ss[1..]);
      TrimAllMember(ss[1..], n);
      var x :| x in ss[1..] && n == Trim(x);
      assert x in ss;
    }
  }

  /** Every name the bulk input yields is clean. */
  lemma BulkNamesAreClean(input: string)
    ensures forall n :: n in BulkNames(input) ==> CleanName(n)
  {
    RunsHaveNoSeparator(input);
    forall n | n in BulkNames(input) ensures CleanName(n) {
      TrimmedPieceClean(SplitRuns(input), n);
    }
  }

  /** A non-empty trimmed piece of separator-free pieces is a clean name. */
  lemma TrimmedPieceClean(pieces: seq<string>, n: string)
    requires forall x :: x in pieces ==> NoSeparator(x)
    requires n in TrimAll(pieces) && n != ""
    ensures CleanName(n)
  {
    TrimAllMember(pieces, n);
    var x :| x in pieces && n == Trim(x);
    TrimmedClean(x);
  }

  /** Dropping the empty inner pieces keeps only pieces of the split. */
  lemma RunsHaveNoSeparator(input: string)
    ensures forall x :: x in SplitRuns(input) ==> NoSeparator(x)
  {
    var p := Split(input);
    SplitPiecesHaveNoSeparator(input);
    if |p| > 1 {
      forall x | x in SplitRuns(input) ensures x in p {
        if x in NonEmpty(p[1..|p| - 1]) {
          assert x in p[1..|p| - 1];
        }
      }
    }
  }

  lemma NonEmptyCons(n: string, rest: seq<string>)
    ensures NonEmpty([n] + rest) == (if n == "" then [] else [n]) + NonEmpty(rest)
  {
    assert ([n] + rest)[1..] == rest;
  }

  lemma TrimAllCons(n: string, rest: seq<string>)
    ensures TrimAll([n] + rest) == [Trim(n)] + TrimAll(rest)
  {
    assert forall i :: 0 < i <= |rest| ==> ([n] + rest)[i] == rest[i - 1];
  }

  lemma {:induction false} NonEmptyConcat(a: seq<string>, b: seq<string>)
    ensures NonEmpty(a + b) == NonEmpty(a) + NonEmpty(b)
  {
    if a != [] {
      assert a + b == [a[0]] + (a[1..] + b);
      assert a == [a[0]] + a[1..];
      NonEmptyCons(a[0], a[1..] + b);
      NonEmptyCons(a[0], a[1..]);
      NonEmptyConcat(a[1..], b);
    } else {
      assert a + b == b;
    }
  }

  lemma TrimAllConcat(a: seq<string>, b: seq<string>)
    ensures TrimAll(a + b) == TrimAll(a) + TrimAll(b)
  {
    assert forall i :: |a| <= i < |a| + |b| ==> (a + b)[i] == b[i - |a|];
  }

  /** Empty pieces trim to empty pieces, so dropping them first changes nothing. */
  lemma {:induction false} DropEmptyBeforeTrim(x: seq<string>)
    ensures NonEmpty(TrimAll(NonEmpty(x))) == NonEmpty(TrimAll(x))
  {
    if x != [] {
      var head, rest := x[0], x[1..];
      assert x == [head] + rest;
      DropEmptyBeforeTrim(rest);
      TrimAllCons(head, rest);
      NonEmptyCons(Trim(head), TrimAll(rest));
      NonEmptyCons(head, rest);
      if head == "" {
        assert Trim(head) == "";
        assert NonEmpty(x) == NonEmpty(rest);
      } else {
        assert NonEmpty(x) == [head] + NonEmpty(rest);
        TrimAllCons(head, NonEmpty(rest));
        NonEmptyCons(Trim(head), TrimAll(NonEmpty(rest)));
      }
    }
  }

  lemma TrimNamesOfThree(a: seq<string>, m: seq<string>, b: seq<string>)
    ensures NonEmpty(TrimAll(a + m + b)) == NonEmpty(TrimAll(a)) + NonEmpty(TrimAll(m)) + NonEmpty(TrimAll(b))
  {
    TrimAllConcat(a + m, b);
    TrimAllConcat(a, m);
    NonEmptyConcat(TrimAll(a) + TrimAll(m), TrimAll(b));
    NonEmptyConcat(TrimAll(a), TrimAll(m));
  }

  /** Dropping the empty inner pieces of a split does not change its names. */
  lemma DropEmptyInner(p: seq<string>)
    requires |p| > 1
    ensures NonEmpty(TrimAll([p[0]] + NonEmpty(p[1..|p| - 1]) + [p[|p| - 1]])) == NonEmpty(TrimAll(p))
  {
    var a, mid, b := [p[0]], p[1..|p| - 1], [p[|p| - 1]];
    assert p == a + mid + b;
    calc {
      NonEmpty(TrimAll(a + NonEmpty(mid) + b));
      { TrimNamesOfThree(a, NonEmpty(mid), b); }
      NonEmpty(TrimAll(a)) + NonEmpty(TrimAll(NonEmpty(mid))) + NonEmpty(TrimAll(b));
      { DropEmptyBeforeTrim(mid); }
      NonEmpty(TrimAll(a)) + NonEmpty(TrimAll(mid)) + NonEmpty(TrimAll(b));
      { TrimNamesOfThree(a, mid, b); }
      NonEmpty(TrimAll(p));
    }
  }

  /** Splitting on runs of separators instead of single ones only drops
      empty pieces, so the names are the same either way. */
  lemma SplitRunsSameNames(input: string)
    ensures BulkNames(input) == NonEmpty(TrimAll(Split(input)))
  {
    var p := Split(input);
    if |p| > 1 {
      DropEmptyInner(p);
    }
  }

  /** Names written back separated by commas. */
  function Join(names: seq<string>): string {
    if |names| == 0 then ""
    else if |names| == 1 then names[0]
    else names[0] + [','] + Join(names[1..])
  }

  lemma {:induction false} SplitAfterPiece(a: string, s: string)
    requires NoSeparator(a)
    ensures Split(a + s) == [a + Split(s)[0]] + Split(s)[1..]
  {
    if a != [] {
      assert (a + s)[1..] == a[1..] + s;
      SplitAfterPiece(a[1..], s);
      assert [a[0]] + (a[1..] + Split(s)[0]) == a + Split(s)[0];
    } else {
      assert a + s == s;
      assert a + Split(s)[0] == Split(s)[0];
      assert Split(s) == [Split(s)[0]] + Split(s)[1..];
    }
  }

  lemma {:induction false} SplitJoin(names: seq<string>)
    requires |names| >= 1 && forall n :: n in names ==> NoSeparator(n)
    ensures Split(Join(names)) == names
  {
    if |names| == 1 {
      SplitAfterPiece(names[0], "");
      assert names[0] + "" == names[0];
    } else {
      SplitJoin(names[1..]);
      var rest := [','] + Join(names[1..]);
      assert names[0] + [','] + Join(names[1..]) == names[0] + rest;
      SplitAfterPiece(names[0], rest);
      assert rest[1..] == Join(names[1..]);
      assert Split(rest) == [""] + names[1..];
      assert names[0] + "" == names[0];
      assert names == [names[0]] + names[1..];
    }
  }

  lemma CleanIsTrimmed(n: string)
    requires CleanName(n)
    ensures Trim(n) == n
  {
  }

  lemma {:induction false} CleanNamesSurvive(names: seq<string>)
    requires forall n :: n in names ==> CleanName(n)
    ensures NonEmpty(TrimAll(names)) == names
  {
    if names != [] {
      assert names == [names[0]] + names[1..];
      CleanIsTrimmed(names[0]);
      CleanNamesSurvive(names[1..]);
      TrimAllCons(names[0], names[1..]);
      NonEmptyCons(names[0], TrimAll(names[1..]));
    }
  }

  /** Clean names joined with commas come back out of the bulk input
      unchanged and in order. */
  lemma BulkNamesOfJoin(names: seq<string>)
    requires forall n :: n in names ==> CleanName(n)
    ensures BulkNames(Join(names)) == names
  {
    if names == [] {
      assert Trim("") == "";
    } else {
      SplitJoin(names);
      SplitRunsSameNames(Join(names));
      CleanNamesSurvive(names);
    }
  }

  lemma {:induction false} NamesOfFresh(names: seq<Name>)
    ensures Names(FreshEntries(names)) == names
    ensures forall i :: 0 <= i < |names| ==> FreshEntries(names)[i].from.None? && FreshEntries(names)[i].to.None?
  {
    if names != [] {
      NamesOfFresh(names[1..]);
      assert FreshEntries(names)[1..] == FreshEntries(names[1..]);
    }
  }

  /** The office and vacation boxes hold one range-less entry for each name
      the bulk input would yield. */
  lemma EntriesFromInput(input: string)
    ensures Names(InitEntries(SplitRuns(input))) == BulkNames(input)
    ensures forall e :: e in InitEntries(SplitRuns(input)) ==> e.from.None? && e.to.None?
  {
    NamesOfFresh(BulkNames(input));
  }

  // ---------------------------------------------------------------------
  // The people list
  // ---------------------------------------------------------------------

  lemma {:induction false} DedupMembers<T>(s: seq<T>)
    ensures forall x :: x in Dedup(s) <==> x in s
  {
    if s != [] {
      DedupMembers(s[..|s| - 1]);
      assert s == s[..|s| - 1] + [s[|s| - 1]];
    }
  }

  lemma {:induction false} DedupNoDup<T>(s: seq<T>)
    ensures NoDup(Dedup(s))
  {
    if s != [] {
      var q := Dedup(s[..|s| - 1]);
      DedupNoDup(s[..|s| - 1]);
      var r := Dedup(s);
      if s[|s| - 1] !in q {
        forall i, j | 0 <= i < j < |r| ensures r[i] != r[j] {
          assert r[i] == q[i] && r[i] in q;
          if j < |q| {
            assert r[j] == q[j];
          }
        }
      }
    }
  }

  /** The elements first seen in the first `k` positions come first, in
      the same order. */
  lemma {:induction false} DedupPrefix<T>(s: seq<T>, k: nat)
    requires k <= |s|
    ensures Dedup(s[..k]) <= Dedup(s)
  {
    if k < |s| {
      var p := s[..|s| - 1];
      assert p[..k] == s[..k];
      DedupPrefix(p, k);
      assert Dedup(p) <= Dedup(s);
    } else {
      assert s[..k] == s;
    }
  }

  /** `[...new Set(s)]` keeps each element once, in the order of first
      occurrences: what the first `k` elements contribute is a prefix. */
  lemma DedupExact<T>(s: seq<T>)
    ensures NoDup(Dedup(s))
    ensures forall x :: x in Dedup(s) <==> x in s
    ensures forall k :: 0 <= k <= |s| ==> Dedup(s[..k]) <= Dedup(s)
  {
    DedupMembers(s);
    DedupNoDup(s);
    forall k | 0 <= k <= |s| ensures Dedup(s[..k]) <= Dedup(s) {
      DedupPrefix(s, k);
    }
  }

  // ---------------------------------------------------------------------
  // One day of the plan
  // ---------------------------------------------------------------------

  /** The tally after recording `names` one after another. */
  function RecordAll(t: Tally, names: seq<Name>, weekday: int): Tally
    decreases |names|
  {
    if names == [] then t else RecordAll(Record(t, names[0], weekday), names[1..], weekday)
  }

  lemma {:induction false} RecordAllConcat(t: Tally, a: seq<Name>, b: seq<Name>, weekday: int)
    ensures RecordAll(t, a + b, weekday) == RecordAll(RecordAll(t, a, weekday), b, weekday)
    decreases |a|
  {
    if a != [] {
      assert (a + b)[1..] == a[1..] + b;
      RecordAllConcat(Record(t, a[0], weekday), a[1..], b, weekday);
    } else {
      assert a + b == b;
    }
  }

  lemma RecordAllSnoc(t: Tally, names: seq<Name>, x: Name, weekday: int)
    ensures RecordAll(t, names + [x], weekday) == Record(RecordAll(t, names, weekday), x, weekday)
  {
    RecordAllConcat(t, names, [x], weekday);
  }

  lemma NoDupTail<T>(s: seq<T>)
    requires s != [] && NoDup(s)
    ensures NoDup(s[1..]) && s[0] !in s[1..]
  {
    forall i, j | 0 <= i < j < |s[1..]| ensures s[1..][i] != s[1..][j] {
      assert s[1..][i] == s[i + 1] && s[1..][j] == s[j + 1];
    }
    forall j | 0 <= j < |s[1..]| ensures s[1..][j] != s[0] {
      assert s[1..][j] == s[j + 1];
    }
  }

  /** Recording distinct names adds one duty and one weekday to each of
      them and leaves everybody else's entries alone. */
  lemma RecordAllEffect(t: Tally, names: seq<Name>, weekday: int)
    requires NoDup(names)
    ensures var r := RecordAll(t, names, weekday);
      && r.counts == Bump(t.counts, names)
      && (forall n :: Get(r.counts, n) == Get(t.counts, n) + (if n in names then 1 else 0))
      && (forall n :: n in r.counts <==> n in t.counts || n in names)
      && (forall n :: Duties(r, n) == Duties(t, n) + (if n in names then [weekday] else []))
  {
    RecordAllCounts(t, names, weekday);
    BumpCounts(t.counts, names);
    forall n ensures multiset(names)[n] == if n in names then 1 else 0 {
      NoDupToMultiset(names, n);
    }
    RecordAllDuties(t, names, weekday);
  }

  /** The counts of a recorded tally are the counts bumped by the names. */
  lemma {:induction false} RecordAllCounts(t: Tally, names: seq<Name>, weekday: int)
    ensures RecordAll(t, names, weekday).counts == Bump(t.counts, names)
    decreases |names|
  {
    if names != [] {
      RecordAllCounts(Record(t, names[0], weekday), names[1..], weekday);
    }
  }

  /** Recording distinct names appends the weekday once to each of them. */
  lemma {:induction false} RecordAllDuties(t: Tally, names: seq<Name>, weekday: int)
    requires NoDup(names)
    ensures forall n :: Duties(RecordAll(t, names, weekday), n) == Duties(t, n) + (if n in names then [weekday] else [])
    decreases |names|
  {
    if names != [] {
      NoDupTail(names);
      var t1 := Record(t, names[0], weekday);
      RecordAllDuties(t1, names[1..], weekday);
      assert forall n :: n in names <==> n == names[0] || n in names[1..];
    }
  }

  lemma NoDupPrefix<T>(s: seq<T>, k: nat)
    requires NoDup(s) && k <= |s|
    ensures NoDup(s[..k])
  {
    forall i, j | 0 <= i < j < k ensures s[..k][i] != s[..k][j] {
      assert s[..k][i] == s[i] && s[..k][j] == s[j];
    }
  }

  lemma NoDupConcat<T>(a: seq<T>, b: seq<T>)
    requires NoDup(a) && NoDup(b) && forall x :: x in b ==> x !in a
    ensures NoDup(a + b)
  {
    var s := a + b;
    forall i, j | 0 <= i < j < |s| ensures s[i] != s[j] {
      if j >= |a| {
        assert s[j] == b[j - |a|] && s[j] in b;
        if i >= |a| {
          assert s[i] == b[i - |a|];
        } else {
          assert s[i] == a[i] && s[i] in a;
        }
      } else {
        assert s[i] == a[i] && s[j] == a[j];
      }
    }
  }

  /** The names of a sequence, as the `usedToday` set holds them. */
  function Members(s: seq<Name>): set<Name> {
    set x | x in s
  }

  /** With distinct candidates the main loop takes the first four, or all
      of them when there are fewer. */
  lemma {:induction false} MainPassTakesPrefix(sorted: seq<Name>, i: nat, weekday: int, t: Tally, p: Pick)
    requires NoDup(sorted) && i <= |sorted| && i <= 4
    requires p.selected == sorted[..i] && p.used == Members(sorted[..i])
    requires p.tally == RecordAll(t, sorted[..i], weekday)
    ensures var q := MainPass(sorted, i, weekday, p);
      var m := Min(4, |sorted|);
      && q.selected == sorted[..m]
      && q.used == Members(sorted[..m])
      && q.tally == RecordAll(t, sorted[..m], weekday)
    decreases |sorted| - i
  {
    if i < |sorted| && i < 4 {
      forall j | 0 <= j < i ensures sorted[..i][j] != sorted[i] {
        assert sorted[..i][j] == sorted[j];
      }
      assert sorted[i] !in p.used;
      assert sorted[..i + 1] == sorted[..i] + [sorted[i]];
      RecordAllSnoc(t, sorted[..i], sorted[i], weekday);
      MainPassTakesPrefix(sorted, i + 1, weekday, t, Take(p, sorted[i], weekday));
    }
  }

  /** The fallback loop appends the first candidates until the crew has four. */
  lemma {:induction false} FallbackPassTakesPrefix(fallback: seq<Name>, i: nat, weekday: int, base: Pick, p: Pick)
    requires i <= |fallback| && |base.selected| + i <= 4
    requires p.selected == base.selected + fallback[..i]
    requires p.tally == RecordAll(base.tally, fallback[..i], weekday)
    ensures var q := FallbackPass(fallback, i, weekday, p);
      var m := Min(|fallback|, 4 - |base.selected|);
      && q.selected == base.selected + fallback[..m]
      && q.tally == RecordAll(base.tally, fallback[..m], weekday)
    decreases |fallback| - i
  {
    if i < |fallback| && |p.selected| < 4 {
      assert fallback[..i + 1] == fallback[..i] + [fallback[i]];
      assert base.selected + fallback[..i + 1] == p.selected + [fallback[i]];
      RecordAllSnoc(base.tally, fallback[..i], fallback[i], weekday);
      FallbackPassTakesPrefix(fallback, i + 1, weekday, base, Take(p, fallback[i], weekday));
    }
  }

  /** The main candidates are distinct, eligible, and ordered by load. */
  lemma MainSortedFacts(lists: Lists, people: seq<Name>, plan: seq<PlanEntry>, t: Tally, days: seq<Date>, index: nat)
    requires NoDup(people) && index < |days|
    ensures var r := MainSorted(lists, people, plan, t, days, index);
      && NoDup(r) && SortedByCount(r, t.counts)
      && forall x :: x in r <==> x in people && MainEligible(lists, plan, t, days, index, x)
  {
    var f := Filter(people, name => MainEligible(lists, plan, t, days, index, name));
    var r := SortByCount(f, t.counts);
    assert multiset(r) <= multiset(people);
    NoDupSubMultiset(r, people);
    forall x ensures x in r <==> x in f {
      assert x in r <==> x in multiset(r);
      assert x in f <==> x in multiset(f);
    }
  }

  /** The fallback candidates are distinct, available and not used yet. */
  lemma FallbackSortedFacts(lists: Lists, people: seq<Name>, d: Date, used: set<Name>, t: Tally)
    requires NoDup(people)
    ensures var r := FallbackSorted(lists, people, d, used, t);
      && NoDup(r) && SortedByCount(r, t.counts)
      && forall x :: x in r <==> x in people && x !in used && Available(lists, x, d)
  {
    var f := Filter(people, name => name !in used && Available(lists, name, d));
    var r := SortByCount(f, t.counts);
    assert multiset(r) <= multiset(people);
    NoDupSubMultiset(r, people);
    forall x ensures x in r <==> x in f {
      assert x in r <==> x in multiset(r);
      assert x in f <==> x in multiset(f);
    }
  }

  lemma MainOfDay(lists: Lists, people: seq<Name>, plan: seq<PlanEntry>, t: Tally, days: seq<Date>, index: nat)
    requires NoDup(people) && index < |days|
    ensures var sorted := MainSorted(lists, people, plan, t, days, index);
      var m := Min(4, |sorted|);
      var main := MainPass(sorted, 0, DayOfWeek(days[index]), Pick([], {}, t));
      && main.selected == sorted[..m]
      && main.used == Members(sorted[..m])
      && main.tally == RecordAll(t, sorted[..m], DayOfWeek(days[index]))
  {
    var sorted := MainSorted(lists, people, plan, t, days, index);
    MainSortedFacts(lists, people, plan, t, days, index);
    MainPassTakesPrefix(sorted, 0, DayOfWeek(days[index]), t, Pick([], {}, t));
  }

  /** A day whose main pass fills the crew. */
  lemma FullMainPass(lists: Lists, people: seq<Name>, plan: seq<PlanEntry>, t: Tally, days: seq<Date>, index: nat)
    requires NoDup(people) && index < |days|
    requires |MainSorted(lists, people, plan, t, days, index)| >= 4
    ensures var r := PlanDay(lists, people, plan, t, days, index);
      var sorted := MainSorted(lists, people, plan, t, days, index);
      && r.0.people == sorted[..4]
      && r.1 == RecordAll(t, sorted[..4], DayOfWeek(days[index]))
  {
    MainOfDay(lists, people, plan, t, days, index);
  }

  /** A day whose main pass leaves the crew short. */
  lemma ShortMainPass(lists: Lists, people: seq<Name>, plan: seq<PlanEntry>, t: Tally, days: seq<Date>, index: nat)
    requires NoDup(people) && index < |days|
    requires |MainSorted(lists, people, plan, t, days, index)| < 4
    ensures var r := PlanDay(lists, people, plan, t, days, index);
      var sorted := MainSorted(lists, people, plan, t, days, index);
      var weekday := DayOfWeek(days[index]);
      var fallback := FallbackSorted(lists, people, days[index], Members(sorted), RecordAll(t, sorted, weekday));
      var extra := fallback[..Min(|fallback|, 4 - |sorted|)];
      && r.0.people == sorted + extra
      && r.1 == RecordAll(t, sorted + extra, weekday)
  {
    var weekday := DayOfWeek(days[index]);
    var sorted := MainSorted(lists, people, plan, t, days, index);
    MainSortedFacts(lists, people, plan, t, days, index);
    ShortPasses(sorted, FallbackSorted(lists, people, days[index], Members(sorted), RecordAll(t, sorted, weekday)), weekday, t);
  }

  /** With fewer than four distinct main candidates the main loop takes
      them all, and the fallback loop appends the first of its candidates
      until the crew has four. */
  lemma ShortPasses(sorted: seq<Name>, fallback: seq<Name>, weekday: int, t: Tally)
    requires NoDup(sorted) && |sorted| < 4
    ensures var main := MainPass(sorted, 0, weekday, Pick([], {}, t));
      var q := FallbackPass(fallback, 0, weekday, main);
      var extra := fallback[..Min(|fallback|, 4 - |sorted|)];
      && main == Pick(sorted, Members(sorted), RecordAll(t, sorted, weekday))
      && q.selected == sorted + extra
      && q.tally == RecordAll(t, sorted + extra, weekday)
  {
    ShortMain(sorted, weekday, t);
    var main := Pick(sorted, Members(sorted), RecordAll(t, sorted, weekday));
    assert MainPass(sorted, 0, weekday, Pick([], {}, t)) == main;
    ShortFallback(fallback, weekday, main);
    var extra := fallback[..Min(|fallback|, 4 - |main.selected|)];
    var q := FallbackPass(fallback, 0, weekday, main);
    assert q.selected == sorted + extra && q.tally == RecordAll(main.tally, extra, weekday);
    RecordAllConcat(t, sorted, extra, weekday);
  }

  /** The main loop over fewer than four distinct candidates takes them all. */
  lemma ShortMain(sorted: seq<Name>, weekday: int, t: Tally)
    requires NoDup(sorted) && |sorted| < 4
    ensures MainPass(sorted, 0, weekday, Pick([], {}, t)) == Pick(sorted, Members(sorted), RecordAll(t, sorted, weekday))
  {
    assert sorted[..0] == [] && Members(sorted[..0]) == {};
    MainPassTakesPrefix(sorted, 0, weekday, t, Pick([], {}, t));
    assert sorted[..|sorted|] == sorted;
  }

  /** The fallback loop after a short main pass appends its first
      candidates until the crew has four. */
  lemma ShortFallback(fallback: seq<Name>, weekday: int, main: Pick)
    requires |main.selected| < 4
    ensures var q := FallbackPass(fallback, 0, weekday, main);
      var extra := fallback[..Min(|fallback|, 4 - |main.selected|)];
      && q.selected == main.selected + extra
      && q.tally == RecordAll(main.tally, extra, weekday)
  {
    assert fallback[..0] == [];
    assert main.selected + fallback[..0] == main.selected;
    FallbackPassTakesPrefix(fallback, 0, weekday, main, main);
  }

  /** Each day's crew: at most four distinct people from the list, all
      available that day, and everybody available when fewer than four;
      the tally records exactly that crew on that weekday. */
  lemma DayCrew(lists: Lists, people: seq<Name>, plan: seq<PlanEntry>, t: Tally, days: seq<Date>, index: nat)
    requires NoDup(people) && index < |days|
    ensures var r := PlanDay(lists, people, plan, t, days, index);
      var d := days[index];
      && r.0.date == d && r.0.weekday == DayOfWeek(d)
      && |r.0.people| <= 4 && NoDup(r.0.people)
      && (forall x :: x in r.0.people ==> x in people && Available(lists, x, d))
      && (|r.0.people| < 4 ==> forall x :: x in people && Available(lists, x, d) ==> x in r.0.people)
      && r.1 == RecordAll(t, r.0.people, DayOfWeek(d))
  {
    if |MainSorted(lists, people, plan, t, days, index)| >= 4 {
      DayCrewFull(lists, people, plan, t, days, index);
    } else {
      DayCrewShort(lists, people, plan, t, days, index);
    }
  }

  /** `DayCrew` when the main pass fills the crew. */
  lemma DayCrewFull(lists: Lists, people: seq<Name>, plan: seq<PlanEntry>, t: Tally, days: seq<Date>, index: nat)
    requires NoDup(people) && index < |days|
    requires |MainSorted(lists, people, plan, t, days, index)| >= 4
    ensures var r := PlanDay(lists, people, plan, t, days, index);
      var d := days[index];
      && r.0.date == d && r.0.weekday == DayOfWeek(d)
      && |r.0.people| <= 4 && NoDup(r.0.people)
      && (forall x :: x in r.0.people ==> x in people && Available(lists, x, d))
      && (|r.0.people| < 4 ==> forall x :: x in people && Available(lists, x, d) ==> x in r.0.people)
      && r.1 == RecordAll(t, r.0.people, DayOfWeek(d))
  {
    var sorted := MainSorted(lists, people, plan, t, days, index);
    MainSortedFacts(lists, people, plan, t, days, index);
    FullMainPass(lists, people, plan, t, days, index);
    NoDupPrefix(sorted, 4);
    assert forall x :: x in sorted[..4] ==> x in sorted;
  }

  /** `DayCrew` when the main pass leaves the crew short. */
  lemma DayCrewShort(lists: Lists, people: seq<Name>, plan: seq<PlanEntry>, t: Tally, days: seq<Date>, index: nat)
    requires NoDup(people) && index < |days|
    requires |MainSorted(lists, people, plan, t, days, index)| < 4
    ensures var r := PlanDay(lists, people, plan, t, days, index);
      var d := days[index];
      && r.0.date == d && r.0.weekday == DayOfWeek(d)
      && |r.0.people| <= 4 && NoDup(r.0.people)
      && (forall x :: x in r.0.people ==> x in people && Available(lists, x, d))
      && (|r.0.people| < 4 ==> forall x :: x in people && Available(lists, x, d) ==> x in r.0.people)
      && r.1 == RecordAll(t, r.0.people, DayOfWeek(d))
  {
    var d := days[index];
    var weekday := DayOfWeek(d);
    var sorted := MainSorted(lists, people, plan, t, days, index);
    MainSortedFacts(lists, people, plan, t, days, index);
    ShortMainPass(lists, people, plan, t, days, index);
    var fallback := FallbackSorted(lists, people, d, Members(sorted), RecordAll(t, sorted, weekday));
    FallbackSortedFacts(lists, people, d, Members(sorted), RecordAll(t, sorted, weekday));
    var r := PlanDay(lists, people, plan, t, days, index);
    ShortCrew(lists, people, d, sorted, fallback, r.0.people);
  }

  /** The main candidates followed by the first fallback candidates, up to
      four: distinct, available, and everybody available when short. */
  lemma ShortCrew(lists: Lists, people: seq<Name>, d: Date, sorted: seq<Name>, fallback: seq<Name>, crew: seq<Name>)
    requires NoDup(sorted) && |sorted| < 4
    requires forall x :: x in sorted ==> x in people && Available(lists, x, d)
    requires NoDup(fallback)
    requires forall x :: x in fallback <==> x in people && x !in Members(sorted) && Available(lists, x, d)
    requires crew == sorted + fallback[..Min(|fallback|, 4 - |sorted|)]
    ensures |crew| <= 4 && NoDup(crew)
    ensures forall x :: x in crew ==> x in people && Available(lists, x, d)
    ensures |crew| < 4 ==> forall x :: x in people && Available(lists, x, d) ==> x in crew
  {
    var k := Min(|fallback|, 4 - |sorted|);
    var extra := fallback[..k];
    NoDupPrefix(fallback, k);
    assert forall x :: x in extra ==> x in fallback;
    NoDupConcat(sorted, extra);
    assert forall x :: x in crew <==> x in sorted || x in extra;
    if |crew| < 4 {
      assert extra == fallback;
    }
  }

  /** The main pass of a day takes the (at most) four least-loaded people
      who are available, have not yet served this weekday in the month and
      are not repeating Friday→Monday or Monday→Tuesday; they lead the crew. */
  lemma DayMainPicks(lists: Lists, people: seq<Name>, plan: seq<PlanEntry>, t: Tally, days: seq<Date>, index: nat)
    requires NoDup(people) && index < |days|
    ensures var r := PlanDay(lists, people, plan, t, days, index);
      var sorted := MainSorted(lists, people, plan, t, days, index);
      var m := Min(4, |sorted|);
      && m <= |r.0.people| && r.0.people[..m] == sorted[..m]
      && (forall x :: x in sorted[..m] ==> MainEligible(lists, plan, t, days, index, x))
      && (forall x, y :: x in sorted[..m] && y in people && MainEligible(lists, plan, t, days, index, y) && y !in sorted[..m] ==>
            Get(t.counts, x) <= Get(t.counts, y))
  {
    var sorted := MainSorted(lists, people, plan, t, days, index);
    var m := Min(4, |sorted|);
    MainSortedFacts(lists, people, plan, t, days, index);
    if |sorted| >= 4 {
      FullMainPass(lists, people, plan, t, days, index);
    } else {
      ShortMainPass(lists, people, plan, t, days, index);
      assert sorted[..m] == sorted;
    }
    SortedPrefixLeast(sorted, t.counts, m);
  }

  // ---------------------------------------------------------------------
  // The month
  // ---------------------------------------------------------------------

  /** How many rows of the plan name `n`. */
  function Served(plan: seq<PlanEntry>, n: Name): nat {
    if plan == [] then 0
    else Served(plan[..|plan| - 1], n) + (if n in plan[|plan| - 1].people then 1 else 0)
  }

  /** The weekdays of the rows naming `n`, in plan order. */
  function ServedWeekdays(plan: seq<PlanEntry>, n: Name): seq<int> {
    if plan == [] then []
    else ServedWeekdays(plan[..|plan| - 1], n) + (if n in plan[|plan| - 1].people then [plan[|plan| - 1].weekday] else [])
  }

  /** The number of crew places the plan fills. */
  function Slots(plan: seq<PlanEntry>): nat {
    if plan == [] then 0 else Slots(plan[..|plan| - 1]) + |plan[|plan| - 1].people|
  }

  /** Row `i` is the day `days[i]` with a crew as `DayCrew` describes. */
  ghost predicate RowOk(lists: Lists, people: seq<Name>, days: seq<Date>, plan: seq<PlanEntry>, i: nat)
    requires i < |plan| && i < |days|
  {
    var row := plan[i];
    && row.date == days[i] && row.weekday == DayOfWeek(days[i])
    && |row.people| <= 4 && NoDup(row.people)
    && (forall x :: x in row.people ==> x in people && Available(lists, x, days[i]))
    && (|row.people| < 4 ==> forall x :: x in people && Available(lists, x, days[i]) ==> x in row.people)
  }

  ghost predicate RowsOk(lists: Lists, people: seq<Name>, days: seq<Date>, plan: seq<PlanEntry>)
    requires |plan| <= |days|
  {
    forall i :: 0 <= i < |plan| ==> RowOk(lists, people, days, plan, i)
  }

  /** The tally counts each person's rows and lists their weekdays. */
  ghost predicate TallyOk(people: seq<Name>, plan: seq<PlanEntry>, t: Tally) {
    && (forall n :: n in t.counts <==> n in people)
    && (forall n :: Get(t.counts, n) == Served(plan, n))
    && (forall n :: Duties(t, n) == ServedWeekdays(plan, n))
    && SumOver(people, t.counts) == Slots(plan)
  }

  /** The plan after `k` days: one good row per day and a faithful tally. */
  ghost predicate PlanOk(lists: Lists, people: seq<Name>, days: seq<Date>, k: nat, plan: seq<PlanEntry>, t: Tally) {
    && k <= |days| && |plan| == k
    && RowsOk(lists, people, days, plan)
    && TallyOk(people, plan, t)
  }

  lemma RowsStep(lists: Lists, people: seq<Name>, days: seq<Date>, plan: seq<PlanEntry>, row: PlanEntry)
    requires |plan| < |days|
    requires RowsOk(lists, people, days, plan)
    requires RowOk(lists, people, days, plan + [row], |plan|)
    ensures RowsOk(lists, people, days, plan + [row])
  {
    var plan' := plan + [row];
    forall i | 0 <= i < |plan| ensures RowOk(lists, people, days, plan', i) {
      assert plan'[i] == plan[i];
      assert RowOk(lists, people, days, plan, i);
    }
  }

  lemma TallyStep(people: seq<Name>, plan: seq<PlanEntry>, t: Tally, row: PlanEntry)
    requires NoDup(people) && NoDup(row.people) && forall x :: x in row.people ==> x in people
    requires TallyOk(people, plan, t)
    ensures TallyOk(people, plan + [row], RecordAll(t, row.people, row.weekday))
  {
    RecordAllEffect(t, row.people, row.weekday);
    PlanSnoc(plan, row);
    SumOverBump(people, t.counts, row.people);
  }

  /** One more row adds its crew to what the plan says each person served. */
  lemma PlanSnoc(plan: seq<PlanEntry>, row: PlanEntry)
    ensures forall n :: Served(plan + [row], n) == Served(plan, n) + (if n in row.people then 1 else 0)
    ensures forall n :: ServedWeekdays(plan + [row], n) == ServedWeekdays(plan, n) + (if n in row.people then [row.weekday] else [])
    ensures Slots(plan + [row]) == Slots(plan) + |row.people|
  {
    assert (plan + [row])[..|plan|] == plan;
  }

  lemma PlanStep(lists: Lists, people: seq<Name>, days: seq<Date>, k: nat, plan: seq<PlanEntry>, t: Tally, row: PlanEntry, t': Tally)
    requires NoDup(people) && k < |days|
    requires PlanOk(lists, people, days, k, plan, t)
    requires RowOk(lists, people, days, plan + [row], k)
    requires t' == RecordAll(t, row.people, row.weekday)
    ensures PlanOk(lists, people, days, k + 1, plan + [row], t')
  {
    RowsStep(lists, people, days, plan, row);
    TallyStep(people, plan, t, row);
  }

  lemma DayRowOk(lists: Lists, people: seq<Name>, days: seq<Date>, k: nat, plan: seq<PlanEntry>, t: Tally)
    requires NoDup(people) && k < |days| && |plan| == k
    ensures var r := PlanDay(lists, people, plan, t, days, k);
      && RowOk(lists, people, days, plan + [r.0], k)
      && r.1 == RecordAll(t, r.0.people, r.0.weekday)
  {
    DayCrew(lists, people, plan, t, days, k);
  }

  /** Each call of the `forEach` callback extends the rows by one and
      leaves the earlier rows as they were. */
  lemma {:induction false} ForEachDayPrefix(step: DayStep, init: Tally, k: nat, k': nat)
    requires k <= k'
    requires forall plan, t, i :: 0 <= i < k' ==> step.requires(plan, t, i)
    ensures ForEachDay(step, init, k').0[..k] == ForEachDay(step, init, k).0
    decreases k'
  {
    if k < k' {
      ForEachDayPrefix(step, init, k, k' - 1);
      var p := ForEachDay(step, init, k' - 1).0;
      var p' := ForEachDay(step, init, k').0;
      assert p'[..k] == p[..k];
    } else {
      assert ForEachDay(step, init, k').0[..k] == ForEachDay(step, init, k').0;
    }
  }

  /** Row `k` of the finished loop is what the callback made from the
      first `k` rows, which the loop leaves in place. */
  lemma ForEachDayRow(step: DayStep, init: Tally, k: nat, n: nat)
    requires k < n
    requires forall plan, t, i :: 0 <= i < n ==> step.requires(plan, t, i)
    ensures var prev := ForEachDay(step, init, k);
      && ForEachDay(step, init, n).0[..k] == prev.0
      && ForEachDay(step, init, n).0[k] == step(prev.0, prev.1, k).0
  {
    ForEachDayPrefix(step, init, k, n);
    ForEachDayPrefix(step, init, k + 1, n);
    var p := ForEachDay(step, init, k + 1).0;
    assert ForEachDay(step, init, n).0[k] == ForEachDay(step, init, n).0[..k + 1][k];
  }

  /** A callback that keeps `PlanOk` from one day to the next keeps it for
      the whole loop. */
  lemma {:induction false} ForEachDaySound(lists: Lists, people: seq<Name>, days: seq<Date>, step: DayStep, init: Tally, k: nat)
    requires k <= |days|
    requires forall plan, t, i :: 0 <= i < |days| ==> step.requires(plan, t, i)
    requires PlanOk(lists, people, days, 0, [], init)
    requires forall plan, t, i :: 0 <= i < |days| && PlanOk(lists, people, days, i, plan, t) ==>
               PlanOk(lists, people, days, i + 1, plan + [step(plan, t, i).0], step(plan, t, i).1)
    ensures PlanOk(lists, people, days, k, ForEachDay(step, init, k).0, ForEachDay(step, init, k).1)
  {
    if k > 0 {
      ForEachDaySound(lists, people, days, step, init, k - 1);
      var prev := ForEachDay(step, init, k - 1);
      assert PlanOk(lists, people, days, k - 1, prev.0, prev.1);
    }
  }

  /** The `createMonthlyPlan` callback keeps `PlanOk` from one day to the next. */
  lemma DayCallbackKeepsPlanOk(lists: Lists, people: seq<Name>, days: seq<Date>)
    requires NoDup(people)
    ensures forall plan, t, i :: 0 <= i < |days| && PlanOk(lists, people, days, i, plan, t) ==>
              PlanOk(lists, people, days, i + 1,
                     plan + [DayCallback(lists, people, days)(plan, t, i).0], DayCallback(lists, people, days)(plan, t, i).1)
  {
    forall plan, t, i | 0 <= i < |days| && PlanOk(lists, people, days, i, plan, t)
      ensures PlanOk(lists, people, days, i + 1,
                     plan + [DayCallback(lists, people, days)(plan, t, i).0], DayCallback(lists, people, days)(plan, t, i).1)
    {
      DayRowOk(lists, people, days, i, plan, t);
      var r := PlanDay(lists, people, plan, t, days, i);
      assert DayCallback(lists, people, days)(plan, t, i) == r;
      PlanStep(lists, people, days, i, plan, t, r.0, r.1);
    }
  }

  /** After `k` days the rows are good and the tally is faithful. */
  lemma PlanUpToSound(lists: Lists, people: seq<Name>, days: seq<Date>, k: nat)
    requires NoDup(people) && k <= |days|
    ensures PlanOk(lists, people, days, k, PlanUpTo(lists, people, days, k).0, PlanUpTo(lists, people, days, k).1)
  {
    var init := Tally(ZeroCounts(people), map[]);
    SumOverZero(people, ZeroCounts(people));
    assert PlanOk(lists, people, days, 0, [], init);
    DayCallbackKeepsPlanOk(lists, people, days);
    ForEachDaySound(lists, people, days, DayCallback(lists, people, days), init, k);
  }

  /** A finished faithful plan over the Monday–Friday days of a month has
      one row per such day, in date order. */
  lemma FinishedPlan(year: int, month: int, lists: Lists, plan: seq<PlanEntry>, t: Tally)
    requires 1 <= month <= 12
    requires var days := MonthWorkdays(year, month, []);
      PlanOk(lists, AllPeople(lists), days, |days|, plan, t)
    ensures forall i :: 0 <= i < |plan| ==> InMonth(year, month, plan[i].date) && IsWeekday(plan[i].date)
    ensures forall i, j :: 0 <= i < j < |plan| ==> plan[i].date < plan[j].date
    ensures forall d :: InMonth(year, month, d) && IsWeekday(d) ==> exists i :: 0 <= i < |plan| && plan[i].date == d
  {
    var days := MonthWorkdays(year, month, []);
    var people := AllPeople(lists);
    MonthWorkdaysExact(year, month, []);
    forall i | 0 <= i < |plan| ensures plan[i].date == days[i] && days[i] in days {
      assert RowOk(lists, people, days, plan, i);
    }
    forall d | InMonth(year, month, d) && IsWeekday(d) ensures exists i :: 0 <= i < |plan| && plan[i].date == d {
      assert d in days;
      var i :| 0 <= i < |days| && days[i] == d;
      assert plan[i].date == d;
    }
  }

  /** `createMonthlyPlan` gives one row per Monday–Friday day of the month
      in date order, each with a good crew; every person of the list has a
      count equal to the number of rows naming them and a weekday list of
      those rows, and the counts add up to the places filled. */
  lemma MonthlyPlanSound(year: int, month: int, lists: Lists)
    requires 1 <= month <= 12
    ensures var r := MonthlyPlan(year, month, lists);
      var plan := r.0;
      var days := MonthWorkdays(year, month, []);
      var people := AllPeople(lists);
      && |plan| == |days|
      && (forall i :: 0 <= i < |plan| ==> InMonth(year, month, plan[i].date) && IsWeekday(plan[i].date))
      && (forall i, j :: 0 <= i < j < |plan| ==> plan[i].date < plan[j].date)
      && (forall d :: InMonth(year, month, d) && IsWeekday(d) ==> exists i :: 0 <= i < |plan| && plan[i].date == d)
      && (forall i :: 0 <= i < |plan| ==> RowOk(lists, people, days, plan, i))
      && (forall n :: n in r.1.counts <==> n in people)
      && (forall n :: Get(r.1.counts, n) == Served(plan, n))
      && (forall n :: Duties(r.1, n) == ServedWeekdays(plan, n))
      && SumOver(people, r.1.counts) == Slots(plan)
  {
    var days := MonthWorkdays(year, month, []);
    var people := AllPeople(lists);
    DedupNoDup(lists.directors + Names(lists.office) + Names(lists.vacation));
    PlanUpToSound(lists, people, days, |days|);
    var r := MonthlyPlan(year, month, lists);
    FinishedPlan(year, month, lists, r.0, r.1);
  }

  lemma {:induction false} ServedWeekdaysHas(plan: seq<PlanEntry>, n: Name, j: nat)
    requires j < |plan| && n in plan[j].people
    ensures plan[j].weekday in ServedWeekdays(plan, n)
  {
    var p := plan[..|plan| - 1];
    if j < |plan| - 1 {
      assert p[j] == plan[j];
      ServedWeekdaysHas(p, n, j);
    }
  }

  lemma {:induction false} FindEntryFirst(plan: seq<PlanEntry>, d: Date, j: nat)
    requires j < |plan| && plan[j].date == d
    requires forall i :: 0 <= i < j ==> plan[i].date != d
    ensures FindEntry(plan, d) == Some(plan[j])
  {
    if j > 0 {
      assert plan[0].date != d;
      FindEntryFirst(plan[1..], d, j - 1);
    }
  }

  /** The people the main pass picks for day `k`. */
  ghost function MainCrew(lists: Lists, people: seq<Name>, days: seq<Date>, k: nat): seq<Name>
    requires k < |days|
  {
    var pr := PlanUpTo(lists, people, days, k);
    var sorted := MainSorted(lists, people, pr.0, pr.1, days, k);
    sorted[..Min(4, |sorted|)]
  }

  /** On a faithful plan, a person eligible for the main pass of day `k`
      has not served on that weekday before and would not make a
      Friday→Monday or Monday→Tuesday pair with the previous row. */
  lemma EligibleFair(lists: Lists, people: seq<Name>, days: seq<Date>, k: nat, plan: seq<PlanEntry>, t: Tally, x: Name)
    requires k < |days| && StrictlyIncreasing(days)
    requires PlanOk(lists, people, days, k, plan, t)
    requires MainEligible(lists, plan, t, days, k, x)
    ensures forall j :: 0 <= j < k && x in plan[j].people ==> plan[j].weekday != DayOfWeek(days[k])
    ensures k > 0 && x in plan[k - 1].people ==>
              !(plan[k - 1].weekday == Friday && DayOfWeek(days[k]) == Monday)
              && !(plan[k - 1].weekday == Monday && DayOfWeek(days[k]) == Tuesday)
  {
    forall j | 0 <= j < k && x in plan[j].people ensures plan[j].weekday != DayOfWeek(days[k]) {
      ServedWeekdaysHas(plan, x, j);
    }
    if k > 0 {
      assert RowOk(lists, people, days, plan, k - 1);
      forall i | 0 <= i < k - 1 ensures plan[i].date != days[k - 1] {
        assert RowOk(lists, people, days, plan, i);
        assert days[i] < days[k - 1];
      }
      FindEntryFirst(plan, days[k - 1], k - 1);
    }
  }

  /** On a faithful plan, the main-pass picks of the next day lead its crew,
      none of them served on that weekday before or serves two rows that make
      a Friday→Monday or Monday→Tuesday pair, and each has served no more
      rows than anyone eligible who was left out. */
  lemma DayFair(lists: Lists, people: seq<Name>, days: seq<Date>, k: nat, plan: seq<PlanEntry>, t: Tally)
    requires NoDup(people) && k < |days| && StrictlyIncreasing(days)
    requires PlanOk(lists, people, days, k, plan, t)
    ensures var row := PlanDay(lists, people, plan, t, days, k).0;
      var sorted := MainSorted(lists, people, plan, t, days, k);
      var main := sorted[..Min(4, |sorted|)];
      && row.weekday == DayOfWeek(days[k])
      && main <= row.people
      && (forall x :: x in main ==>
        && (forall j :: 0 <= j < k && x in plan[j].people ==> plan[j].weekday != row.weekday)
        && (k > 0 && x in plan[k - 1].people ==>
              !(plan[k - 1].weekday == Friday && row.weekday == Monday)
              && !(plan[k - 1].weekday == Monday && row.weekday == Tuesday)))
      && (forall x, y :: x in main && y in people && MainEligible(lists, plan, t, days, k, y) && y !in main ==>
            Served(plan, x) <= Served(plan, y))
  {
    var sorted := MainSorted(lists, people, plan, t, days, k);
    var main := sorted[..Min(4, |sorted|)];
    DayMainPicks(lists, people, plan, t, days, k);
    forall x | x in main
      ensures forall j :: 0 <= j < k && x in plan[j].people ==> plan[j].weekday != DayOfWeek(days[k])
      ensures k > 0 && x in plan[k - 1].people ==>
              !(plan[k - 1].weekday == Friday && DayOfWeek(days[k]) == Monday)
              && !(plan[k - 1].weekday == Monday && DayOfWeek(days[k]) == Tuesday)
    {
      EligibleFair(lists, people, days, k, plan, t, x);
    }
  }

  /** `DayFair` read off a row `k` of a longer plan whose earlier rows are
      the rows `PlanDay` was given. */
  lemma RowFair(lists: Lists, people: seq<Name>, days: seq<Date>, k: nat, plan: seq<PlanEntry>, prev: seq<PlanEntry>, t: Tally)
    requires NoDup(people) && k < |days| && StrictlyIncreasing(days)
    requires PlanOk(lists, people, days, k, prev, t)
    requires k < |plan| && plan[..k] == prev && plan[k] == PlanDay(lists, people, prev, t, days, k).0
    ensures var sorted := MainSorted(lists, people, prev, t, days, k);
      var main := sorted[..Min(4, |sorted|)];
      && main <= plan[k].people
      && (forall x :: x in main ==>
        && (forall j :: 0 <= j < k && x in plan[j].people ==> plan[j].weekday != plan[k].weekday)
        && (k > 0 && x in plan[k - 1].people ==>
              !(plan[k - 1].weekday == Friday && plan[k].weekday == Monday)
              && !(plan[k - 1].weekday == Monday && plan[k].weekday == Tuesday)))
      && (forall x, y :: x in main && y in people && MainEligible(lists, prev, t, days, k, y) && y !in main ==>
            Served(prev, x) <= Served(prev, y))
  {
    DayFair(lists, people, days, k, prev, t);
    forall j | 0 <= j < k ensures plan[j] == prev[j] {
      assert plan[..k][j] == plan[j];
    }
  }

  /** The crew of each day of the month starts with its main-pass picks;
      none of them served on the same weekday earlier in the month or serves
      a Friday→Monday or Monday→Tuesday pair of consecutive rows, and each
      has served no more rows so far than anyone eligible who was left out. */
  lemma MonthlyMainPicksFair(year: int, month: int, lists: Lists, k: nat)
    requires 1 <= month <= 12
    requires k < |MonthWorkdays(year, month, [])|
    ensures var plan := MonthlyPlan(year, month, lists).0;
      var days := MonthWorkdays(year, month, []);
      var people := AllPeople(lists);
      var pr := PlanUpTo(lists, people, days, k);
      var main := MainCrew(lists, people, days, k);
      && |plan| == |days|
      && main <= plan[k].people
      && (forall x :: x in main ==>
        && (forall j :: 0 <= j < k && x in plan[j].people ==> plan[j].weekday != plan[k].weekday)
        && (k > 0 && x in plan[k - 1].people ==>
              !(plan[k - 1].weekday == Friday && plan[k].weekday == Monday)
              && !(plan[k - 1].weekday == Monday && plan[k].weekday == Tuesday)))
      && (forall x, y :: x in main && y in people && MainEligible(lists, plan[..k], pr.1, days, k, y) && y !in main ==>
            Served(plan[..k], x) <= Served(plan[..k], y))
  {
    var days := MonthWorkdays(year, month, []);
    var people := AllPeople(lists);
    DedupNoDup(lists.directors + Names(lists.office) + Names(lists.vacation));
    var pr := PlanUpTo(lists, people, days, k);
    var plan := MonthlyPlan(year, month, lists).0;
    PlanUpToSound(lists, people, days, k);
    MonthWorkdaysExact(year, month, []);
    ForEachDayRow(DayCallback(lists, people, days), Tally(ZeroCounts(people), map[]), k, |days|);
    RowFair(lists, people, days, k, plan, pr.0, pr.1);
  }
}
