/** Local midnight in a time zone, found by bisection, and the date filters built on it. Instants are milliseconds since
    the epoch, days are numbered from it, and a zone gives its offset at every instant. */
module CalendarDate {
  import opened Basics

  const HOUR := 3600000
  const DAY := 24 * HOUR

  type Zone = int -> int

  function LocalDay(zone: Zone, t: int): int { (t + zone(t)) / DAY }

  /** Offsets stay under a day. */
  ghost predicate Bounded(zone: Zone) { forall t :: -DAY < zone(t) < DAY }

  /** Local days never run backwards. */
  ghost predicate Monotone(zone: Zone) { forall s, t :: s <= t ==> LocalDay(zone, s) <= LocalDay(zone, t) }

  // ---- The bisection ----

  function Search(zone: Zone, n: int, low: int, high: int): int
    requires low <= high
    decreases high - low
  {
    if low == high then low
    else
      var mid := (low + high) / 2;
      if LocalDay(zone, mid) < n then Search(zone, n, mid + 1, high) else Search(zone, n, low, mid)
  }

  function Boundary(zone: Zone, n: int): int { Search(zone, n, n * DAY - 2 * DAY, n * DAY + 2 * DAY) }

  /** The first instant of a day; nothing for a day the zone skips. */
  function DateInZone(zone: Zone, n: int): Option<int> {
    if LocalDay(zone, Boundary(zone, n)) == n then Some(Boundary(zone, n)) else None
  }

  method FindDateInZone(zone: Zone, n: int) returns (r: Option<int>)
    ensures r == DateInZone(zone, n)
  {
    var low, high := n * DAY - 2 * DAY, n * DAY + 2 * DAY;
    while low < high
      invariant low <= high && Search(zone, n, low, high) == Boundary(zone, n)
    {
      var mid := (low + high) / 2;
      if LocalDay(zone, mid) < n {
        low := mid + 1;
      } else {
        high := mid;
      }
    }
    r := if LocalDay(zone, low) == n then Some(low) else None;
  }

  lemma {:induction false} SearchFindsCrossing(zone: Zone, n: int, low: int, high: int)
    requires low <= high && LocalDay(zone, low - 1) < n <= LocalDay(zone, high)
    ensures var t := Search(zone, n, low, high);
            low <= t <= high && LocalDay(zone, t - 1) < n <= LocalDay(zone, t)
    decreases high - low
  {
    if low < high {
      var mid := (low + high) / 2;
      if LocalDay(zone, mid) < n {
        SearchFindsCrossing(zone, n, mid + 1, high);
      } else {
        SearchFindsCrossing(zone, n, low, mid);
      }
    }
  }

  /** In any zone, the bisection ends where a day earlier than n turns into n or a later one. */
  lemma BoundaryIsCrossing(zone: Zone, n: int)
    requires Bounded(zone)
    ensures LocalDay(zone, Boundary(zone, n) - 1) < n <= LocalDay(zone, Boundary(zone, n))
  {
    var low, high := n * DAY - 2 * DAY, n * DAY + 2 * DAY;
    DayOf(zone, low - 1, n);
    DayOf(zone, high, n);
    SearchFindsCrossing(zone, n, low, high);
  }

  lemma DayOf(zone: Zone, t: int, n: int)
    requires Bounded(zone)
    ensures t < n * DAY - DAY ==> LocalDay(zone, t) < n
    ensures t >= n * DAY + DAY ==> LocalDay(zone, t) >= n
  {
    assert -DAY < zone(t) < DAY;
  }

  /** From the boundary on, and only from there, it is day n or later. */
  ghost predicate Exact(zone: Zone, n: int) {
    forall t :: t >= Boundary(zone, n) <==> LocalDay(zone, t) >= n
  }

  /** Day n, once reached, is never left for an earlier one. */
  ghost predicate CrossedOnce(zone: Zone, n: int) {
    forall s, t :: s <= t && LocalDay(zone, s) >= n ==> LocalDay(zone, t) >= n
  }

  /** The boundary separates earlier days from day n on exactly when the zone crosses into day n once. */
  lemma ExactWhenCrossedOnce(zone: Zone, n: int)
    requires Bounded(zone)
    ensures Exact(zone, n) <==> CrossedOnce(zone, n)
  {
    BoundaryIsCrossing(zone, n);
    var b := Boundary(zone, n);
    if CrossedOnce(zone, n) {
      forall t ensures t >= b <==> LocalDay(zone, t) >= n {
        assert t < b && LocalDay(zone, t) >= n ==> LocalDay(zone, b - 1) >= n;
      }
    }
  }

  lemma MonotoneCrossesOnce(zone: Zone, n: int)
    requires Monotone(zone)
    ensures CrossedOnce(zone, n)
  {
    forall s, t | s <= t && LocalDay(zone, s) >= n ensures LocalDay(zone, t) >= n {
      assert LocalDay(zone, s) <= LocalDay(zone, t);
    }
  }

  /** The zone goes from an earlier day straight to a later one. */
  ghost predicate JumpsOver(zone: Zone, n: int) {
    exists t :: LocalDay(zone, t - 1) < n < LocalDay(zone, t)
  }

  /** In a zone that crosses into the day once, the result is its first instant, and there is none exactly when the zone
      jumps over the day. */
  lemma FirstOfCrossing(zone: Zone, n: int)
    requires Bounded(zone) && CrossedOnce(zone, n)
    ensures DateInZone(zone, n) == None <==> JumpsOver(zone, n)
    ensures DateInZone(zone, n).Some? ==>
              && LocalDay(zone, DateInZone(zone, n).value) == n
              && forall t :: t < DateInZone(zone, n).value <==> LocalDay(zone, t) < n
  {
    ExactWhenCrossedOnce(zone, n);
    BoundaryIsCrossing(zone, n);
    if t :| LocalDay(zone, t - 1) < n < LocalDay(zone, t) {
      assert t == Boundary(zone, n);
    }
  }

  lemma SkippedIsJumped(zone: Zone, n: int)
    requires Bounded(zone) && Monotone(zone)
    ensures JumpsOver(zone, n) <==> !exists t :: LocalDay(zone, t) == n
  {
    MonotoneCrossesOnce(zone, n);
    FirstOfCrossing(zone, n);
    BoundaryIsCrossing(zone, n);
    if t :| LocalDay(zone, t) == n {
      ExactWhenCrossedOnce(zone, n);
      assert t >= Boundary(zone, n);
      assert LocalDay(zone, Boundary(zone, n)) <= LocalDay(zone, t);
    }
  }

  /** Where days do not run backwards, the result is the first instant of the day, and there is none exactly when the
      zone skips the day. */
  lemma FirstInstant(zone: Zone, n: int)
    requires Bounded(zone) && Monotone(zone)
    ensures DateInZone(zone, n).Some? <==> exists t :: LocalDay(zone, t) == n
    ensures DateInZone(zone, n).Some? ==>
              && LocalDay(zone, DateInZone(zone, n).value) == n
              && forall t :: t < DateInZone(zone, n).value <==> LocalDay(zone, t) < n
  {
    MonotoneCrossesOnce(zone, n);
    FirstOfCrossing(zone, n);
    SkippedIsJumped(zone, n);
  }

  /** Where clocks show universal time a day starts at a multiple of 86400000. */
  lemma UniversalDay(n: int)
    ensures DateInZone(_ => 0, n) == Some(n * 86400000)
  {
    var zone: Zone := _ => 0;
    forall s, t | s <= t ensures LocalDay(zone, s) <= LocalDay(zone, t) {
      Days(s, t, n);
    }
    assert LocalDay(zone, n * DAY) == n;
    FirstInstant(zone, n);
    var v := DateInZone(zone, n).value;
    Days(v, v, n);
    assert n * DAY < v <==> LocalDay(zone, n * DAY) < n;
  }

  // ---- Filters ----

  datatype Filter = Between(from: Option<int>, before: Option<int>) | NoSuchDay

  /** Days from and to, both included; the bound after the last day is the start of the next. */
  function BuildDateFilter(zone: Zone, from: Option<int>, to: Option<int>): Filter {
    var first := if from.Some? then DateInZone(zone, from.value) else None;
    var next := if to.Some? then DateInZone(zone, to.value + 1) else None;
    if (from.Some? && first == None) || (to.Some? && next == None) then NoSuchDay else Between(first, next)
  }

  predicate Passes(f: Filter, t: int) {
    f.Between? && (f.from.Some? ==> t >= f.from.value) && (f.before.Some? ==> t < f.before.value)
  }

  predicate InDays(zone: Zone, from: Option<int>, to: Option<int>, t: int) {
    && (from.Some? ==> from.value <= LocalDay(zone, t))
    && (to.Some? ==> LocalDay(zone, t) <= to.value)
  }

  ghost predicate BoundsCrossedOnce(zone: Zone, from: Option<int>, to: Option<int>) {
    && (from.Some? ==> CrossedOnce(zone, from.value))
    && (to.Some? ==> CrossedOnce(zone, to.value + 1))
  }

  ghost predicate FilterExact(zone: Zone, from: Option<int>, to: Option<int>) {
    forall t :: Passes(BuildDateFilter(zone, from, to), t) <==> InDays(zone, from, to, t)
  }

  /** Where the zone crosses into the first day and into the day after the last once, an accepted filter lets through
      exactly the instants whose local day lies in the range; the filter is refused exactly when the zone jumps over
      one of these two days. For a single bound, once is also necessary. */
  lemma FilterIsByLocalDay(zone: Zone, from: Option<int>, to: Option<int>)
    requires Bounded(zone)
    ensures BuildDateFilter(zone, from, to) != NoSuchDay && BoundsCrossedOnce(zone, from, to) ==>
            FilterExact(zone, from, to)
    ensures BoundsCrossedOnce(zone, from, to) ==>
              (BuildDateFilter(zone, from, to) == NoSuchDay <==>
               (from.Some? && JumpsOver(zone, from.value)) || (to.Some? && JumpsOver(zone, to.value + 1)))
    ensures BuildDateFilter(zone, from, to) != NoSuchDay && (from == None || to == None) ==>
              (FilterExact(zone, from, to) <==> BoundsCrossedOnce(zone, from, to))
  {
    hide DateInZone, LocalDay, CrossedOnce, JumpsOver, Bounded;
    if from.Some? {
      BoundIsExact(zone, from.value);
    }
    if to.Some? {
      BoundIsExact(zone, to.value + 1);
    }
    if BuildDateFilter(zone, from, to) != NoSuchDay && (from == None || to == None) && FilterExact(zone, from, to) {
      OneBound(zone, from, to);
    }
  }

  lemma BoundIsExact(zone: Zone, n: int)
    requires Bounded(zone)
    ensures DateInZone(zone, n).Some? ==>
              (CrossedOnce(zone, n) <==> forall t :: t >= DateInZone(zone, n).value <==> LocalDay(zone, t) >= n)
    ensures CrossedOnce(zone, n) ==> (DateInZone(zone, n) == None <==> JumpsOver(zone, n))
  {
    ExactWhenCrossedOnce(zone, n);
    if CrossedOnce(zone, n) {
      FirstOfCrossing(zone, n);
    }
  }

  lemma OneBound(zone: Zone, from: Option<int>, to: Option<int>)
    requires Bounded(zone) && BuildDateFilter(zone, from, to) != NoSuchDay && (from == None || to == None)
    requires FilterExact(zone, from, to)
    ensures BoundsCrossedOnce(zone, from, to)
  {
    hide DateInZone, LocalDay, CrossedOnce, JumpsOver, Bounded;
    var f := BuildDateFilter(zone, from, to);
    if from.Some? {
      BoundIsExact(zone, from.value);
      forall t ensures t >= f.from.value <==> LocalDay(zone, t) >= from.value {
        assert Passes(f, t) <==> InDays(zone, from, to, t);
      }
    }
    if to.Some? {
      BoundIsExact(zone, to.value + 1);
      forall t ensures t >= f.before.value <==> LocalDay(zone, t) >= to.value + 1 {
        assert Passes(f, t) <==> InDays(zone, from, to, t);
      }
    }
  }

  /** The instants whose local day lies in the range are one stretch. */
  ghost predicate OneStretch(zone: Zone, first: int, last: int) {
    forall s, t, u :: s <= t <= u && first <= LocalDay(zone, s) <= last && first <= LocalDay(zone, u) <= last ==>
                        first <= LocalDay(zone, t) <= last
  }

  lemma BoundaryInDay(zone: Zone, n: int)
    requires Bounded(zone) && DateInZone(zone, n).Some?
    ensures DateInZone(zone, n) == Some(Boundary(zone, n)) && LocalDay(zone, Boundary(zone, n)) == n
    ensures LocalDay(zone, Boundary(zone, n) - 1) < n
  {
    BoundaryIsCrossing(zone, n);
  }

  /** With both bounds an accepted filter is exact exactly when the instants of its days are one stretch, which lasts
      until just before the upper bound; for an inverted range, exactly when its bounds are inverted too. */
  lemma TwoBoundsExactly(zone: Zone, first: int, last: int)
    requires Bounded(zone) && BuildDateFilter(zone, Some(first), Some(last)) != NoSuchDay
    ensures FilterExact(zone, Some(first), Some(last)) <==>
            if first <= last
            then OneStretch(zone, first, last) && LocalDay(zone, Boundary(zone, last + 1) - 1) >= first
            else Boundary(zone, last + 1) <= Boundary(zone, first)
  {
    hide DateInZone, Boundary, LocalDay, Bounded;
    var f, a, b := BuildDateFilter(zone, Some(first), Some(last)), Boundary(zone, first), Boundary(zone, last + 1);
    BoundaryInDay(zone, first);
    BoundaryInDay(zone, last + 1);
    assert f == Between(Some(a), Some(b));
    if FilterExact(zone, Some(first), Some(last)) {
      forall t ensures a <= t < b <==> first <= LocalDay(zone, t) <= last {
        assert Passes(f, t) <==> InDays(zone, Some(first), Some(last), t);
      }
      ExactIsStretch(zone, first, last, a, b);
    } else {
      var t :| Passes(f, t) != InDays(zone, Some(first), Some(last), t);
      if first <= last && LocalDay(zone, b - 1) >= first {
        StretchBreaks(zone, first, last, a, b, t);
      }
    }
  }

  lemma ExactIsStretch(zone: Zone, first: int, last: int, a: int, b: int)
    requires forall t :: a <= t < b <==> first <= LocalDay(zone, t) <= last
    requires LocalDay(zone, a) == first && LocalDay(zone, b) == last + 1
    ensures OneStretch(zone, first, last)
    ensures if first <= last then LocalDay(zone, b - 1) >= first else b <= a
  {
    hide LocalDay;
  }

  /** An instant on the wrong side of a bound breaks the stretch. */
  lemma StretchBreaks(zone: Zone, first: int, last: int, a: int, b: int, t: int)
    requires LocalDay(zone, a - 1) < first == LocalDay(zone, a) <= last
    requires first <= LocalDay(zone, b - 1) <= last < LocalDay(zone, b)
    requires (a <= t < b) != (first <= LocalDay(zone, t) <= last)
    ensures !OneStretch(zone, first, last)
  {
    hide LocalDay;
    var (s, m, u) := if b <= a then (b - 1, a - 1, a) else if t < a then (t, a - 1, a)
                     else if t < b then (a, t, b - 1) else (b - 1, b, t);
    assert s <= m <= u && first <= LocalDay(zone, s) <= last && first <= LocalDay(zone, u) <= last;
  }

  // ---- Where it goes wrong ----

  /** A zone that moves its calendar forward by a day at midnight, as Samoa did at the end of 2011. */
  function SkippingZone(n: int): Zone { t => if t < n * DAY + 10 * HOUR then -10 * HOUR else 14 * HOUR }

  lemma Days(x: int, y: int, n: int)
    ensures x / DAY < n <==> x < n * DAY
    ensures x <= y ==> x / DAY <= y / DAY
  {
  }

  lemma SkippedDay(n: int, t: int)
    ensures if t < n * DAY + 10 * HOUR then LocalDay(SkippingZone(n), t) < n else LocalDay(SkippingZone(n), t) > n
  {
    Days(t - 10 * HOUR, 0, n);
    Days(t + 14 * HOUR, 0, n + 1);
  }

  lemma SkippingIsMonotone(n: int)
    ensures Bounded(SkippingZone(n)) && Monotone(SkippingZone(n))
  {
    var zone := SkippingZone(n);
    forall s, t | s <= t ensures LocalDay(zone, s) <= LocalDay(zone, t) {
      SkippedDay(n, s);
      SkippedDay(n, t);
      Days(s + zone(s), t + zone(t), n);
    }
  }

  /** A range ending the day before a skipped day is refused, although all its days exist. */
  lemma DayBeforeSkippedIsRefused(n: int)
    ensures var zone := SkippingZone(n);
            && Bounded(zone) && Monotone(zone)
            && (exists t :: LocalDay(zone, t) == n - 1)
            && (forall t :: LocalDay(zone, t) != n)
            && BuildDateFilter(zone, Some(n - 1), Some(n - 1)) == NoSuchDay
  {
    hide SkippingZone, DateInZone;
    var zone := SkippingZone(n);
    SkippingIsMonotone(n);
    forall t ensures LocalDay(zone, t) != n {
      SkippedDay(n, t);
    }
    BeforeTheSkip(n);
    FirstInstant(zone, n);
  }

  lemma BeforeTheSkip(n: int)
    ensures LocalDay(SkippingZone(n), n * DAY + 10 * HOUR - 1) == n - 1
  {
    Days(n * DAY - 1, 0, n);
    Days(n * DAY - 1, 0, n - 1);
  }

  /** A zone that turns its clock back over midnight, from one minute past to a minute past eleven. */
  function FoldingZone(n: int): Zone { t => if t < n * DAY + 60000 then 0 else -HOUR }

  /** There the filter for a day also lets through an hour of the evening before. */
  lemma FoldedEveningPasses(n: int)
    ensures var zone := FoldingZone(n);
            && Bounded(zone) && !CrossedOnce(zone, n)
            && exists t :: Passes(BuildDateFilter(zone, Some(n), None), t) && LocalDay(zone, t) == n - 1
  {
    var zone := FoldingZone(n);
    var evening := n * DAY + 60000;
    assert LocalDay(zone, n * DAY) == n && LocalDay(zone, evening) == n - 1;
    SearchStopsAt(zone, n, n * DAY - 2 * DAY, n * DAY);
    assert Boundary(zone, n) == n * DAY;
    assert Passes(BuildDateFilter(zone, Some(n), None), evening);
  }

  lemma {:induction false} SearchStopsAt(zone: Zone, n: int, low: int, high: int)
    requires low <= high && forall t :: low <= t < high ==> LocalDay(zone, t) < n
    ensures Search(zone, n, low, high) == high
    decreases high - low
  {
    if low < high {
      SearchStopsAt(zone, n, (low + high) / 2 + 1, high);
    }
  }

  // ---- Expense ranges: days or exact timestamps ----

  datatype Bound = OnDay(day: int) | AtInstant(instant: int)

  datatype Range = Range(from: Option<int>, to: Option<int>, inclusive: bool) | MissingDay | Inverted

  function BoundInstant(zone: Zone, b: Bound): Option<int> {
    match b
    case OnDay(n) => DateInZone(zone, n)
    case AtInstant(t) => Some(t)
  }

  /** A day as upper bound is included by stopping before the next; a timestamp is included itself. */
  function ExpenseRange(zone: Zone, dateFrom: Option<Bound>, dateTo: Option<Bound>): Range {
    var from := if dateFrom.Some? then BoundInstant(zone, dateFrom.value) else None;
    if dateFrom.Some? && from == None then MissingDay
    else
      var inclusive := dateTo.Some? && dateTo.value.AtInstant?;
      var to := if dateTo == None then None
                else if inclusive then Some(dateTo.value.instant)
                else DateInZone(zone, dateTo.value.day + 1);
      if dateTo.Some? && to == None then MissingDay
      else if from.Some? && to.Some? &&
              (if inclusive then from.value > to.value else from.value >= to.value) then Inverted
      else Range(from, to, inclusive)
  }

  predicate InRange(r: Range, t: int) {
    && r.Range?
    && (r.from.Some? ==> t >= r.from.value)
    && (r.to.Some? ==> if r.inclusive then t <= r.to.value else t < r.to.value)
  }

  predicate NotBefore(zone: Zone, b: Option<Bound>, t: int) {
    match b
    case None => true
    case Some(OnDay(n)) => n <= LocalDay(zone, t)
    case Some(AtInstant(x)) => x <= t
  }

  predicate NotAfter(zone: Zone, b: Option<Bound>, t: int) {
    match b
    case None => true
    case Some(OnDay(n)) => LocalDay(zone, t) <= n
    case Some(AtInstant(x)) => t <= x
  }

  lemma BoundMeaning(zone: Zone, b: Bound)
    requires Bounded(zone)
    ensures b.OnDay? && CrossedOnce(zone, b.day) ==> (BoundInstant(zone, b) == None <==> JumpsOver(zone, b.day))
    ensures b.AtInstant? ==> BoundInstant(zone, b).Some?
    ensures BoundInstant(zone, b).Some? && (b.OnDay? ==> CrossedOnce(zone, b.day)) ==>
              forall t :: t >= BoundInstant(zone, b).value <==> NotBefore(zone, Some(b), t)
    ensures b.OnDay? && CrossedOnce(zone, b.day + 1) ==>
              (DateInZone(zone, b.day + 1) == None <==> JumpsOver(zone, b.day + 1))
    ensures b.OnDay? && CrossedOnce(zone, b.day + 1) && DateInZone(zone, b.day + 1).Some? ==>
              forall t :: t < DateInZone(zone, b.day + 1).value <==> NotAfter(zone, Some(b), t)
  {
    if b.OnDay? {
      BoundIsExact(zone, b.day);
      BoundIsExact(zone, b.day + 1);
    }
  }

  /** A range of days and timestamps, where the zone crosses into its first day and into the day after its last once,
      holds exactly the instants between its bounds, local days counting whole. It is refused as inverted exactly when
      both bounds are given and nothing lies between them, and otherwise only where the zone jumps over its first day,
      or over the day after its last. */
  lemma RangeIsBetweenBounds(zone: Zone, dateFrom: Option<Bound>, dateTo: Option<Bound>)
    requires Bounded(zone)
    requires dateFrom.Some? && dateFrom.value.OnDay? ==> CrossedOnce(zone, dateFrom.value.day)
    requires dateTo.Some? && dateTo.value.OnDay? ==> CrossedOnce(zone, dateTo.value.day + 1)
    ensures var r := ExpenseRange(zone, dateFrom, dateTo);
            && (r == MissingDay <==>
                  || (dateFrom.Some? && dateFrom.value.OnDay? && JumpsOver(zone, dateFrom.value.day))
                  || (dateTo.Some? && dateTo.value.OnDay? && JumpsOver(zone, dateTo.value.day + 1)))
            && (r == Inverted ==> dateFrom.Some? && dateTo.Some?)
            && (r == Inverted ==> forall t :: !(NotBefore(zone, dateFrom, t) && NotAfter(zone, dateTo, t)))
            && (r.Range? ==> forall t :: InRange(r, t) <==> NotBefore(zone, dateFrom, t) && NotAfter(zone, dateTo, t))
            && (r.Range? && dateFrom.Some? ==> exists t :: NotBefore(zone, dateFrom, t) && NotAfter(zone, dateTo, t))
  {
    hide DateInZone, LocalDay, CrossedOnce, JumpsOver, Bounded;
    if dateFrom.Some? {
      BoundMeaning(zone, dateFrom.value);
    }
    if dateTo.Some? {
      BoundMeaning(zone, dateTo.value);
    }
    var r := ExpenseRange(zone, dateFrom, dateTo);
    if r.Range? && dateFrom.Some? {
      assert InRange(r, r.from.value);
    }
  }
}
