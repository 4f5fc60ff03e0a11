/** The earnings figures of the three star dashboards and the revenue sums of the admin
    panel. Each earnings handler loads the counted orders of the star, sums them with a
    `reduce`, and then walks them once, adding each amount into a per-weekday table, a
    per-month `Map` and a per-tag `Map` (video type title or product name). A JavaScript
    `Map` keeps its keys in first-insertion order, so a group-by result is a sequence of
    buckets with distinct tags, in the order their tags first occurred. */
module Earnings {
  import opened Common
  import opened Lifecycle

  /** `Date.getDay()`: 0 is Sunday. */
  type Weekday = d: int | 0 <= d < 7
  /** `Date.getMonth()`: 0 is January. */
  type Month = m: int | 0 <= m < 12

  const DayNames: seq<string> := ["Ned", "Pon", "Uto", "Sre", "Čet", "Pet", "Sub"]
  const MonthNames: seq<string> := ["Jan", "Feb", "Mar", "Apr", "Maj", "Jun", "Jul", "Avg", "Sep", "Okt", "Nov", "Dec"]

  /** One counted order as the loop sees it: its amount, its group tag, and the calendar
      buckets of its `created_at` — the weekday when it falls within the last seven days and
      the month when it falls within the last six months, `None` otherwise. */
  datatype Line = Line(amount: int, group: string, weekday: Option<Weekday>, month: Option<Month>)

  datatype Bucket = Bucket(tag: string, amount: int, count: nat)

  /** The two `Map`s keyed by a string: by group tag, and by month name. */
  datatype Dim = ByGroup | ByMonth

  datatype DayAmount = DayAmount(day: string, amount: int)

  /** The response body: total, number of counted orders, number of pending orders, and the
      three tables. The month buckets' `count` is kept by the model only; the response sends
      month and amount. */
  datatype Summary = Summary(
    total: int, counted: nat, pending: nat,
    weekly: seq<DayAmount>, monthly: seq<Bucket>, byGroup: seq<Bucket>)

  function Key(l: Line, dim: Dim): Option<string>
  {
    match dim
    case ByGroup => Some(l.group)
    case ByMonth => if l.month.Some? then Some(MonthNames[l.month.value]) else None
  }

  /** The `reduce` that produces the total. */
  function Total(lines: seq<Line>): int
    decreases |lines|
  {
    if lines == [] then 0 else Total(lines[..|lines| - 1]) + lines[|lines| - 1].amount
  }

  // ---------------------------------------------------------------- group-by

  predicate HasTag(groups: seq<Bucket>, tag: string)
  {
    exists i :: 0 <= i < |groups| && groups[i].tag == tag
  }

  predicate Distinct(groups: seq<Bucket>)
  {
    forall i, j :: 0 <= i < j < |groups| ==> groups[i].tag != groups[j].tag
  }

  /** `map.set(tag, existing + amount)`: a tag already present is updated where it
      stands, a new one is appended at the end. */
  function AddTo(groups: seq<Bucket>, tag: string, amount: int): (r: seq<Bucket>)
    ensures Distinct(groups) && HasTag(groups, tag) ==>
      |r| == |groups| &&
      (forall i :: 0 <= i < |groups| ==>
        r[i] == (if groups[i].tag == tag then Bucket(tag, groups[i].amount + amount, groups[i].count + 1)
                 else groups[i]))
    ensures !HasTag(groups, tag) ==> r == groups + [Bucket(tag, amount, 1)]
    ensures Distinct(groups) ==> Distinct(r)
    decreases |groups|
  {
    if groups == [] then [Bucket(tag, amount, 1)]
    else if groups[0].tag == tag then
      [Bucket(tag, groups[0].amount + amount, groups[0].count + 1)] + groups[1..]
    else
      HasTagTail(groups, tag);
      [groups[0]] + AddTo(groups[1..], tag, amount)
  }

  /** Past a first bucket with another tag, the tag is present iff it is in the rest. */
  lemma HasTagTail(groups: seq<Bucket>, tag: string)
    requires groups != [] && groups[0].tag != tag
    ensures HasTag(groups, tag) <==> HasTag(groups[1..], tag)
  {
    if HasTag(groups, tag) {
      var i :| 0 <= i < |groups| && groups[i].tag == tag;
      assert groups[1..][i - 1] == groups[i];
    }
  }

  /** The `Map` a loop over `lines` builds along dimension `dim`. */
  function GroupBy(lines: seq<Line>, dim: Dim): seq<Bucket>
    decreases |lines|
  {
    if lines == [] then []
    else
      var prev := GroupBy(lines[..|lines| - 1], dim);
      var l := lines[|lines| - 1];
      match Key(l, dim)
      case Some(k) => AddTo(prev, k, l.amount)
      case None => prev
  }

  /** Reference definitions, independent of the loop: the sum of the amounts and the number
      of the lines that carry `tag` along `dim`. */
  function SumFor(lines: seq<Line>, dim: Dim, tag: string): int
    decreases |lines|
  {
    if lines == [] then 0
    else
      SumFor(lines[..|lines| - 1], dim, tag) +
      (if Key(lines[|lines| - 1], dim) == Some(tag) then lines[|lines| - 1].amount else 0)
  }

  function CountFor(lines: seq<Line>, dim: Dim, tag: string): nat
    decreases |lines|
  {
    if lines == [] then 0
    else
      CountFor(lines[..|lines| - 1], dim, tag) +
      (if Key(lines[|lines| - 1], dim) == Some(tag) then 1 else 0)
  }

  lemma {:induction false} NoCountNoSum(lines: seq<Line>, dim: Dim, tag: string)
    requires CountFor(lines, dim, tag) == 0
    ensures SumFor(lines, dim, tag) == 0
    decreases |lines|
  {
    if lines != [] {
      NoCountNoSum(lines[..|lines| - 1], dim, tag);
    }
  }

  /** `g` is the group-by of `lines` along `dim` as the reference definitions describe it:
      distinct tags, each bucket holding exactly the amount and the number of the lines with
      its tag, and a bucket for a tag exactly when some line carries it. */
  ghost predicate Characterizes(g: seq<Bucket>, lines: seq<Line>, dim: Dim)
  {
    Distinct(g) &&
    (forall i :: 0 <= i < |g| ==>
      g[i].amount == SumFor(lines, dim, g[i].tag) && g[i].count == CountFor(lines, dim, g[i].tag)) &&
    (forall tag :: HasTag(g, tag) <==> CountFor(lines, dim, tag) > 0)
  }

  /** The reference sums of `lines` for `tag` are those of its prefix plus the last line. */
  lemma LastLine(lines: seq<Line>, dim: Dim, k: string, tag: string)
    requires lines != [] && Key(lines[|lines| - 1], dim) == Some(k)
    ensures SumFor(lines, dim, tag) ==
      SumFor(lines[..|lines| - 1], dim, tag) + (if tag == k then lines[|lines| - 1].amount else 0)
    ensures CountFor(lines, dim, tag) == CountFor(lines[..|lines| - 1], dim, tag) + (if tag == k then 1 else 0)
  {
  }

  /** One step of the loop for a line whose tag already has a bucket. */
  lemma StepExisting(lines: seq<Line>, dim: Dim, k: string)
    requires lines != [] && Key(lines[|lines| - 1], dim) == Some(k)
    requires Characterizes(GroupBy(lines[..|lines| - 1], dim), lines[..|lines| - 1], dim)
    requires HasTag(GroupBy(lines[..|lines| - 1], dim), k)
    ensures Characterizes(GroupBy(lines, dim), lines, dim)
  {
    var prefix := lines[..|lines| - 1];
    var l := lines[|lines| - 1];
    var prev := GroupBy(prefix, dim);
    var g := AddTo(prev, k, l.amount);
    assert g == GroupBy(lines, dim);
    assert |g| == |prev|;
    forall i | 0 <= i < |g|
      ensures g[i].amount == SumFor(lines, dim, g[i].tag) && g[i].count == CountFor(lines, dim, g[i].tag)
    {
      var t := prev[i].tag;
      LastLine(lines, dim, k, t);
      if t == k {
        assert g[i] == Bucket(k, prev[i].amount + l.amount, prev[i].count + 1);
      } else {
        assert g[i] == prev[i];
      }
    }
    forall tag ensures HasTag(g, tag) <==> CountFor(lines, dim, tag) > 0 {
      LastLine(lines, dim, k, tag);
      if HasTag(g, tag) {
        var i :| 0 <= i < |g| && g[i].tag == tag;
        assert prev[i].tag == tag;
      }
      if HasTag(prev, tag) {
        var i :| 0 <= i < |prev| && prev[i].tag == tag;
        assert g[i].tag == tag;
      }
    }
  }

  /** Appending a bucket for the last line's new tag keeps every bucket's sums exact. */
  lemma AppendedSums(lines: seq<Line>, dim: Dim, k: string, prev: seq<Bucket>)
    requires lines != [] && Key(lines[|lines| - 1], dim) == Some(k)
    requires !HasTag(prev, k) && CountFor(lines[..|lines| - 1], dim, k) == 0
    requires forall i :: 0 <= i < |prev| ==>
      prev[i].amount == SumFor(lines[..|lines| - 1], dim, prev[i].tag) &&
      prev[i].count == CountFor(lines[..|lines| - 1], dim, prev[i].tag)
    ensures var g := prev + [Bucket(k, lines[|lines| - 1].amount, 1)];
      forall i :: 0 <= i < |g| ==>
        g[i].amount == SumFor(lines, dim, g[i].tag) && g[i].count == CountFor(lines, dim, g[i].tag)
  {
    var g := prev + [Bucket(k, lines[|lines| - 1].amount, 1)];
    NoCountNoSum(lines[..|lines| - 1], dim, k);
    forall i | 0 <= i < |g|
      ensures g[i].amount == SumFor(lines, dim, g[i].tag) && g[i].count == CountFor(lines, dim, g[i].tag)
    {
      LastLine(lines, dim, k, g[i].tag);
      if i < |prev| {
        assert g[i] == prev[i];
        assert prev[i].tag != k;
      }
    }
  }

  /** Appending a bucket for the last line's tag gives a bucket to exactly the tags some
      line carries. */
  lemma AppendedTags(lines: seq<Line>, dim: Dim, k: string, prev: seq<Bucket>)
    requires lines != [] && Key(lines[|lines| - 1], dim) == Some(k)
    requires forall tag :: HasTag(prev, tag) <==> CountFor(lines[..|lines| - 1], dim, tag) > 0
    ensures var g := prev + [Bucket(k, lines[|lines| - 1].amount, 1)];
      forall tag :: HasTag(g, tag) <==> CountFor(lines, dim, tag) > 0
  {
    var g := prev + [Bucket(k, lines[|lines| - 1].amount, 1)];
    forall tag ensures HasTag(g, tag) <==> CountFor(lines, dim, tag) > 0 {
      LastLine(lines, dim, k, tag);
      if HasTag(g, tag) {
        var i :| 0 <= i < |g| && g[i].tag == tag;
        if i < |prev| { assert prev[i].tag == tag; }
      }
      if HasTag(prev, tag) {
        var i :| 0 <= i < |prev| && prev[i].tag == tag;
        assert g[i].tag == tag;
      }
      if tag == k { assert g[|prev|].tag == tag; }
    }
  }

  /** One step of the loop for a line whose tag has no bucket yet. */
  lemma StepNew(lines: seq<Line>, dim: Dim, k: string)
    requires lines != [] && Key(lines[|lines| - 1], dim) == Some(k)
    requires Characterizes(GroupBy(lines[..|lines| - 1], dim), lines[..|lines| - 1], dim)
    requires !HasTag(GroupBy(lines[..|lines| - 1], dim), k)
    ensures Characterizes(GroupBy(lines, dim), lines, dim)
  {
    var prefix := lines[..|lines| - 1];
    var prev := GroupBy(prefix, dim);
    var g := AddTo(prev, k, lines[|lines| - 1].amount);
    assert g == GroupBy(lines, dim);
    assert g == prev + [Bucket(k, lines[|lines| - 1].amount, 1)];
    AppendedSums(lines, dim, k, prev);
    AppendedTags(lines, dim, k, prev);
  }

  /** Each bucket of a group-by holds exactly the amount and the number of the lines with
      its tag; the tags are distinct; and a tag has a bucket exactly when some line
      carries it. */
  lemma {:induction false} GroupByCharacterized(lines: seq<Line>, dim: Dim)
    ensures Distinct(GroupBy(lines, dim))
    ensures forall i :: 0 <= i < |GroupBy(lines, dim)| ==>
      GroupBy(lines, dim)[i].amount == SumFor(lines, dim, GroupBy(lines, dim)[i].tag) &&
      GroupBy(lines, dim)[i].count == CountFor(lines, dim, GroupBy(lines, dim)[i].tag)
    ensures forall tag :: HasTag(GroupBy(lines, dim), tag) <==> CountFor(lines, dim, tag) > 0
    decreases |lines|
  {
    if lines != [] {
      var prefix := lines[..|lines| - 1];
      GroupByCharacterized(prefix, dim);
      match Key(lines[|lines| - 1], dim)
      case None =>
      case Some(k) =>
        if HasTag(GroupBy(prefix, dim), k) { StepExisting(lines, dim, k); }
        else { StepNew(lines, dim, k); }
    }
  }

  function SumAmounts(groups: seq<Bucket>): int
    decreases |groups|
  {
    if groups == [] then 0 else groups[0].amount + SumAmounts(groups[1..])
  }

  function SumCounts(groups: seq<Bucket>): nat
    decreases |groups|
  {
    if groups == [] then 0 else groups[0].count + SumCounts(groups[1..])
  }

  lemma {:induction false} AddToSums(groups: seq<Bucket>, tag: string, amount: int)
    ensures SumAmounts(AddTo(groups, tag, amount)) == SumAmounts(groups) + amount
    ensures SumCounts(AddTo(groups, tag, amount)) == SumCounts(groups) + 1
    decreases |groups|
  {
    if groups == [] {
    } else if groups[0].tag == tag {
      var r := AddTo(groups, tag, amount);
      assert r[1..] == groups[1..];
    } else {
      var r := AddTo(groups, tag, amount);
      AddToSums(groups[1..], tag, amount);
      assert r[1..] == AddTo(groups[1..], tag, amount);
    }
  }

  /** The total equals the sum of the per-tag amounts, and the per-tag counts add up to
      the number of counted orders. */
  lemma {:induction false} GroupTotals(lines: seq<Line>)
    ensures SumAmounts(GroupBy(lines, ByGroup)) == Total(lines)
    ensures SumCounts(GroupBy(lines, ByGroup)) == |lines|
    decreases |lines|
  {
    if lines != [] {
      var prefix := lines[..|lines| - 1];
      var l := lines[|lines| - 1];
      GroupTotals(prefix);
      AddToSums(GroupBy(prefix, ByGroup), l.group, l.amount);
    }
  }

  // ---------------------------------------------------------------- weekly table

  /** Reference definition of one weekday's amount. */
  function DayTotal(lines: seq<Line>, d: Weekday): int
    decreases |lines|
  {
    if lines == [] then 0
    else
      DayTotal(lines[..|lines| - 1], d) +
      (if lines[|lines| - 1].weekday == Some(d) then lines[|lines| - 1].amount else 0)
  }

  /** The weekly table as sent: seven entries in the fixed order Ned..Sub. */
  function Weekly(lines: seq<Line>): (w: seq<DayAmount>)
    ensures |w| == 7
    ensures forall d :: 0 <= d < 7 ==> w[d].day == DayNames[d]
  {
    seq(7, (d: int) requires 0 <= d < 7 => DayAmount(DayNames[d], DayTotal(lines, d)))
  }

  lemma {:induction false} DayTotalZero(lines: seq<Line>, d: Weekday)
    requires forall i :: 0 <= i < |lines| ==> lines[i].weekday != Some(d)
    ensures DayTotal(lines, d) == 0
    decreases |lines|
  {
    if lines != [] {
      var prefix := lines[..|lines| - 1];
      forall i | 0 <= i < |prefix| ensures prefix[i].weekday != Some(d) {
        assert prefix[i] == lines[i];
      }
      DayTotalZero(prefix, d);
    }
  }

  /** A weekday on which no counted order falls still has its entry, with amount 0. */
  lemma WeeklyZeroWhereNoOrders(lines: seq<Line>, d: Weekday)
    requires forall i :: 0 <= i < |lines| ==> lines[i].weekday != Some(d)
    ensures Weekly(lines)[d] == DayAmount(DayNames[d], 0)
  {
    DayTotalZero(lines, d);
  }

  // ---------------------------------------------------------------- the loop

  /** The response of an earnings handler for the counted `lines` and `pending` pending
      orders. */
  function SummaryOf(lines: seq<Line>, pending: nat): Summary
  {
    Summary(Total(lines), |lines|, pending, Weekly(lines),
            GroupBy(lines, ByMonth), GroupBy(lines, ByGroup))
  }

  /** What every earnings response satisfies: the total is the sum of the per-group
      amounts, the per-group counts add up to the number of counted orders, group and month
      labels are not repeated, and the weekly table has its seven days. */
  lemma SummaryConsistent(lines: seq<Line>, pending: nat)
    ensures var s := SummaryOf(lines, pending);
      s.total == SumAmounts(s.byGroup) && s.counted == SumCounts(s.byGroup) &&
      Distinct(s.byGroup) && Distinct(s.monthly) && |s.weekly| == 7 && s.pending == pending
  {
    GroupTotals(lines);
    GroupByCharacterized(lines, ByGroup);
    GroupByCharacterized(lines, ByMonth);
  }

  /** The body shared by `getEarnings`, `getMerchEarnings` and `getDigitalEarnings`: the
      `reduce` for the total, then one pass filling the three tables. */
  /** One more line: the group-by over the longer prefix adds that line to the buckets of
      the shorter one, and each weekday total gains its amount on its day. */
  lemma StepPrefix(lines: seq<Line>, i: int)
    requires 0 <= i < |lines|
    ensures GroupBy(lines[..i + 1], ByMonth) ==
      if lines[i].month.Some? then AddTo(GroupBy(lines[..i], ByMonth), MonthNames[lines[i].month.value], lines[i].amount)
      else GroupBy(lines[..i], ByMonth)
    ensures GroupBy(lines[..i + 1], ByGroup) == AddTo(GroupBy(lines[..i], ByGroup), lines[i].group, lines[i].amount)
    ensures forall d: Weekday ::
      DayTotal(lines[..i + 1], d) == DayTotal(lines[..i], d) + (if lines[i].weekday == Some(d) then lines[i].amount else 0)
  {
    assert lines[..i + 1][..i] == lines[..i];
    assert lines[..i + 1][i] == lines[i];
  }

  method Summarize(lines: seq<Line>, pending: nat) returns (s: Summary)
    ensures s == SummaryOf(lines, pending)
  {
    var total := Total(lines);
    var days: seq<int> := [0, 0, 0, 0, 0, 0, 0];
    var monthly: seq<Bucket> := [];
    var groups: seq<Bucket> := [];
    var i := 0;
    while i < |lines|
      invariant 0 <= i <= |lines|
      invariant |days| == 7
      invariant forall d :: 0 <= d < 7 ==> days[d] == DayTotal(lines[..i], d)
      invariant monthly == GroupBy(lines[..i], ByMonth)
      invariant groups == GroupBy(lines[..i], ByGroup)
    {
      var l := lines[i];
      StepPrefix(lines, i);
      if l.weekday.Some? {
        var d := l.weekday.value;
        days := days[d := days[d] + l.amount];
      }
      if l.month.Some? {
        monthly := AddTo(monthly, MonthNames[l.month.value], l.amount);
      }
      groups := AddTo(groups, l.group, l.amount);
      i := i + 1;
    }
    assert lines[..|lines|] == lines;
    var weekly := seq(7, (d: int) requires 0 <= d < 7 => DayAmount(DayNames[d], days[d]));
    s := Summary(total, |lines|, pending, weekly, monthly, groups);
  }

  // ---------------------------------------------------------------- admin revenue

  /** A row the admin revenue queries read: its status, amount and creation time. */
  datatype Sale = Sale(status: Status, amount: int, createdAt: int)

  predicate Counted(s: Sale, counted: set<Status>, since: Option<int>)
  {
    s.status in counted && (since.None? || since.value <= s.createdAt)
  }

  /** The admin revenue `reduce`: the sum of `amount` over the rows whose status is one of
      `counted` and, when `since` is given, created no earlier than it. */
  function Revenue(rows: seq<Sale>, counted: set<Status>, since: Option<int>): int
    decreases |rows|
  {
    if rows == [] then 0
    else
      Revenue(rows[..|rows| - 1], counted, since) +
      (if Counted(rows[|rows| - 1], counted, since) then rows[|rows| - 1].amount else 0)
  }

  /** Revenue is additive over any split of the rows, so the order the database returns
      them in does not matter to the sum. */
  lemma {:induction false} RevenueAppend(a: seq<Sale>, b: seq<Sale>, counted: set<Status>, since: Option<int>)
    ensures Revenue(a + b, counted, since) == Revenue(a, counted, since) + Revenue(b, counted, since)
    decreases |b|
  {
    if b == [] {
      assert a + b == a;
    } else {
      var b' := b[..|b| - 1];
      assert (a + b)[..|a + b| - 1] == a + b';
      assert (a + b)[|a + b| - 1] == b[|b| - 1];
      RevenueAppend(a, b', counted, since);
    }
  }

  /** Rows outside the counted statuses (or older than `since`) add nothing, whatever
      their amount; counted rows add exactly their amount. */
  lemma RevenueRow(rows: seq<Sale>, s: Sale, counted: set<Status>, since: Option<int>)
    ensures Revenue(rows + [s], counted, since) ==
      Revenue(rows, counted, since) + (if Counted(s, counted, since) then s.amount else 0)
  {
    assert (rows + [s])[..|rows + [s]| - 1] == rows;
  }

  /** With non-negative amounts revenue is non-negative, and counting more statuses never
      lowers it. */
  lemma {:induction false} RevenueMonotone(rows: seq<Sale>, counted: set<Status>, wider: set<Status>, since: Option<int>)
    requires forall i :: 0 <= i < |rows| ==> rows[i].amount >= 0
    requires counted <= wider
    ensures 0 <= Revenue(rows, counted, since) <= Revenue(rows, wider, since)
    decreases |rows|
  {
    if rows != [] {
      var prefix := rows[..|rows| - 1];
      forall i | 0 <= i < |prefix| ensures prefix[i].amount >= 0 { assert prefix[i] == rows[i]; }
      RevenueMonotone(prefix, counted, wider, since);
    }
  }
}
