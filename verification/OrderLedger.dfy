/** The financial events of one order: an append-only ledger, each event under an idempotency key of its own.
    Amounts are integers, scaled to the four decimals the ledger stores. */
module OrderLedger {
  import opened Basics

  datatype Kind = RevenueRecognized | RevenueReversed | RevenueReinstated | ShippingLoss | DamageLoss

  /** Events have no identity but their position, which later keys refer to. */
  datatype Key =
    | RecognizedKey
    | ReversedKey
    | ReversedAfter(reinstatement: nat)
    | ReinstatedFor(reversal: nat)
    | ShippingLossKey
    | LossKey(line: LineId)
    | LossChangeKey(line: LineId, uuid: nat)

  datatype Event = Event(kind: Kind, key: Key, revenue: int, productCost: int, shippingCost: int, damageCost: int,
                         giftCost: int, packagingCost: int, profit: int)

  type Events = seq<Event>

  /** What a delivery is worth at the moment it is recognized. */
  datatype Terms = Terms(collected: int, productCost: int, giftCost: int, packagingCost: int)

  /** The courier's fee when known, otherwise the shipping the customer was charged. */
  datatype Charge = Charge(fee: Option<int>, shipping: int) {
    function Amount(): int { if fee.Some? then fee.value else shipping }
  }

  // ---- Looking events up ----

  function Find(s: Events, key: Key): (r: Option<nat>)
    ensures r.Some? ==> r.value < |s| && s[r.value].key == key
    ensures r == None <==> forall k :: 0 <= k < |s| ==> s[k].key != key
  {
    if s == [] then None
    else if s[|s| - 1].key == key then Some(|s| - 1)
    else
      assert forall k :: 0 <= k < |s| - 1 ==> s[..|s| - 1][k] == s[k];
      Find(s[..|s| - 1], key)
  }

  /** The latest event of a kind. */
  function LastOf(s: Events, kind: Kind): (r: Option<nat>)
    ensures r.Some? ==> r.value < |s| && s[r.value].kind == kind
  {
    if s == [] then None
    else if s[|s| - 1].kind == kind then Some(|s| - 1)
    else LastOf(s[..|s| - 1], kind)
  }

  predicate IsLossOf(e: Event, line: LineId) {
    e.kind.DamageLoss? && (e.key == LossKey(line) || (e.key.LossChangeKey? && e.key.line == line))
  }

  predicate HasLoss(s: Events, line: LineId) {
    s != [] && (IsLossOf(s[|s| - 1], line) || HasLoss(s[..|s| - 1], line))
  }

  function BookedLoss(s: Events, line: LineId): int {
    if s == [] then 0
    else BookedLoss(s[..|s| - 1], line) + (if IsLossOf(s[|s| - 1], line) then s[|s| - 1].damageCost else 0)
  }

  // ---- The entries ----

  function Recognition(t: Terms, shippingCost: int): Event {
    Event(RevenueRecognized, RecognizedKey, t.collected, t.productCost, shippingCost, 0, t.giftCost, t.packagingCost,
          t.collected - t.productCost - shippingCost - t.giftCost - t.packagingCost)
  }

  function Reinstatement(recognized: Event, reversal: nat): Event {
    Event(RevenueReinstated, ReinstatedFor(reversal), recognized.revenue, recognized.productCost, 0, 0, 0, 0,
          recognized.revenue - recognized.productCost)
  }

  function Reversal(recognized: Event, key: Key): Event {
    Event(RevenueReversed, key, recognized.revenue, recognized.productCost, 0, 0, 0, 0,
          -(recognized.profit + recognized.shippingCost + recognized.giftCost + recognized.packagingCost))
  }

  function ShippingEntry(amount: int): Event {
    Event(ShippingLoss, ShippingLossKey, 0, 0, amount, 0, 0, 0, -amount)
  }

  function LossEntry(key: Key, delta: int): Event { Event(DamageLoss, key, 0, 0, 0, delta, 0, 0, -delta) }

  function Upsert(s: Events, e: Event): Events { if Find(s, e.key).Some? then s else s + [e] }

  // ---- The operations ----

  function Recognize(s: Events, t: Terms, c: Charge): Events {
    match Find(s, RecognizedKey)
    case None => s + [Recognition(t, if Find(s, ShippingLossKey).Some? then 0 else c.Amount())]
    case Some(first) =>
      match LastOf(s, RevenueReversed)
      case None => s
      case Some(reversal) => Upsert(s, Reinstatement(s[first], reversal))
  }

  function ReverseUnder(s: Events, key: Key): Events {
    match Find(s, RecognizedKey)
    case None => s
    case Some(first) => s + [Reversal(s[first], key)]
  }

  function Reverse(s: Events): Events {
    if Find(s, ReversedKey) == None then ReverseUnder(s, ReversedKey)
    else
      match LastOf(s, RevenueReinstated)
      case None => s
      case Some(r) => if Find(s, ReversedAfter(r)).Some? then s else ReverseUnder(s, ReversedAfter(r))
  }

  function ChargeShipping(s: Events, c: Charge): Events {
    if Find(s, RecognizedKey).Some? || Find(s, ShippingLossKey).Some? || c.Amount() <= 0 then s
    else s + [ShippingEntry(c.Amount())]
  }

  function SetLoss(s: Events, line: LineId, target: int, uuid: nat): Events {
    var delta := target - BookedLoss(s, line);
    if delta == 0 then s
    else Upsert(s, LossEntry(if HasLoss(s, line) then LossChangeKey(line, uuid) else LossKey(line), delta))
  }

  /** What the couriers, the platform timeline and the warehouse report, in any order and any number of times. */
  datatype Report =
    | Delivered(terms: Terms, charge: Charge)
    | Failed(shipped: bool, charge: Charge)
    | Loss(line: LineId, target: int, uuid: nat)

  function Book(s: Events, r: Report): Events {
    match r
    case Delivered(t, c) => Recognize(s, t, c)
    case Failed(shipped, c) => if shipped then ChargeShipping(Reverse(s), c) else Reverse(s)
    case Loss(line, target, uuid) => SetLoss(s, line, target, uuid)
  }

  function BookAll(s: Events, reports: seq<Report>): Events {
    if reports == [] then s else Book(BookAll(s, reports[..|reports| - 1]), reports[|reports| - 1])
  }

  // ---- The shape of every ledger ----

  predicate IsOutcome(kind: Kind) { kind.RevenueRecognized? || kind.RevenueReversed? || kind.RevenueReinstated? }

  function LastOutcome(s: Events): Option<Kind> {
    if s == [] then None
    else if IsOutcome(s[|s| - 1].kind) then Some(s[|s| - 1].kind)
    else LastOutcome(s[..|s| - 1])
  }

  /** When an event may follow a ledger: outcomes alternate, starting with the one recognition, reversals and
      reinstatements repeat its amounts under a key that names what they answer, and shipping is charged by the
      recognition or by one shipping loss before it. */
  ghost predicate Follows(s: Events, e: Event) {
    && Find(s, e.key) == None
    && match e.kind
       case RevenueRecognized =>
         && LastOutcome(s) == None && e.key == RecognizedKey && e.damageCost == 0
         && (Find(s, ShippingLossKey).Some? ==> e.shippingCost == 0)
         && e.profit == e.revenue - e.productCost - e.shippingCost - e.giftCost - e.packagingCost
       case RevenueReversed =>
         && (LastOutcome(s) == Some(RevenueRecognized) || LastOutcome(s) == Some(RevenueReinstated))
         && Find(s, RecognizedKey).Some?
         && e.key == (match LastOf(s, RevenueReinstated) case None => ReversedKey case Some(r) => ReversedAfter(r))
         && e == Reversal(s[Find(s, RecognizedKey).value], e.key)
       case RevenueReinstated =>
         && LastOutcome(s) == Some(RevenueReversed)
         && Find(s, RecognizedKey).Some? && LastOf(s, RevenueReversed).Some?
         && e == Reinstatement(s[Find(s, RecognizedKey).value], LastOf(s, RevenueReversed).value)
       case ShippingLoss => LastOutcome(s) == None && e.shippingCost > 0 && e == ShippingEntry(e.shippingCost)
       case DamageLoss => (e.key.LossKey? || e.key.LossChangeKey?) && e == LossEntry(e.key, e.damageCost)
  }

  ghost predicate WellBooked(s: Events) {
    s != [] ==> WellBooked(s[..|s| - 1]) && Follows(s[..|s| - 1], s[|s| - 1])
  }

  lemma Appended(s: Events, e: Event)
    ensures forall key :: Find(s + [e], key) == if key == e.key then Some(|s|) else Find(s, key)
    ensures forall kind :: LastOf(s + [e], kind) == if kind == e.kind then Some(|s|) else LastOf(s, kind)
    ensures LastOutcome(s + [e]) == if IsOutcome(e.kind) then Some(e.kind) else LastOutcome(s)
    ensures WellBooked(s + [e]) <==> WellBooked(s) && Follows(s, e)
  {
    assert (s + [e])[..|s|] == s;
  }

  /** What the keys of a ledger say about its last outcome. */
  ghost predicate Linked(s: Events) {
    && (Find(s, RecognizedKey).Some? <==> LastOutcome(s).Some?)
    && (Find(s, ReversedKey).Some? <==> LastOf(s, RevenueReversed).Some?)
    && (LastOf(s, RevenueReinstated).Some? ==> LastOf(s, RevenueReversed).Some?)
    && (LastOf(s, RevenueReversed).Some? ==> LastOutcome(s).Some?)
    && (forall k: nat :: Find(s, ReinstatedFor(k)).Some? || Find(s, ReversedAfter(k)).Some? ==> k < |s|)
    && (LastOutcome(s) == Some(RevenueRecognized) ==> LastOf(s, RevenueReversed) == None)
    && (LastOutcome(s) == Some(RevenueReversed) ==>
          && LastOf(s, RevenueReversed).Some?
          && Find(s, ReinstatedFor(LastOf(s, RevenueReversed).value)) == None
          && (LastOf(s, RevenueReinstated).Some? ==> Find(s, ReversedAfter(LastOf(s, RevenueReinstated).value)).Some?))
    && (LastOutcome(s) == Some(RevenueReinstated) ==>
          && LastOf(s, RevenueReversed).Some? && LastOf(s, RevenueReinstated).Some?
          && Find(s, ReinstatedFor(LastOf(s, RevenueReversed).value)).Some?
          && Find(s, ReversedAfter(LastOf(s, RevenueReinstated).value)) == None)
  }

  lemma LinkedNext(s: Events, e: Event)
    requires Linked(s) && Follows(s, e)
    ensures Linked(s + [e])
  {
    hide Find, LastOf, LastOutcome, WellBooked;
    Appended(s, e);
  }

  lemma {:induction false} KeysLink(s: Events)
    requires WellBooked(s)
    ensures Linked(s)
  {
    hide Linked, Follows;
    if s == [] {
      NothingLinked();
    } else {
      KeysLink(s[..|s| - 1]);
      LinkedNext(s[..|s| - 1], s[|s| - 1]);
      assert s[..|s| - 1] + [s[|s| - 1]] == s;
    }
  }

  lemma NothingLinked()
    ensures Linked([])
  {
  }

  // ---- The operations as a two-state switch ----

  predicate IsDelivered(s: Events) {
    LastOutcome(s) == Some(RevenueRecognized) || LastOutcome(s) == Some(RevenueReinstated)
  }

  /** A delivery report books exactly when the order does not stand as delivered: a recognition the first time, a
      reinstatement of the first amounts after a reversal. The keys stop every repeat. */
  lemma RecognizeSwitches(s: Events, t: Terms, c: Charge)
    requires WellBooked(s)
    ensures var after := Recognize(s, t, c);
            && WellBooked(after) && IsDelivered(after)
            && (IsDelivered(s) ==> after == s)
            && (LastOutcome(s) == None ==>
                  after == s + [Recognition(t, if Find(s, ShippingLossKey).Some? then 0 else c.Amount())])
            && (LastOutcome(s) == Some(RevenueReversed) ==>
                  && Find(s, RecognizedKey).Some? && LastOf(s, RevenueReversed).Some?
                  && after == s + [Reinstatement(s[Find(s, RecognizedKey).value], LastOf(s, RevenueReversed).value)])
  {
    hide Find, LastOf, LastOutcome, WellBooked;
    KeysLink(s);
    OutcomeKind(s);
    if Recognize(s, t, c) != s {
      Appended(s, Recognize(s, t, c)[|s|]);
    }
  }

  /** A failure report books exactly when the order stands as delivered: a reversal of the recognized amounts. */
  lemma ReverseSwitches(s: Events)
    requires WellBooked(s)
    ensures var after := Reverse(s);
            && WellBooked(after) && !IsDelivered(after)
            && (!IsDelivered(s) ==> after == s)
            && (IsDelivered(s) ==>
                  && Find(s, RecognizedKey).Some? && after != s
                  && after == s + [Reversal(s[Find(s, RecognizedKey).value], after[|s|].key)])
  {
    hide Find, LastOf, LastOutcome, WellBooked;
    KeysLink(s);
    OutcomeKind(s);
    if Reverse(s) != s {
      Appended(s, Reverse(s)[|s|]);
    }
  }

  lemma {:induction false} OutcomeKind(s: Events)
    ensures LastOutcome(s).Some? ==> IsOutcome(LastOutcome(s).value)
  {
    if s != [] {
      OutcomeKind(s[..|s| - 1]);
    }
  }

  lemma ChargeKeepsBooks(s: Events, c: Charge)
    requires WellBooked(s)
    ensures WellBooked(ChargeShipping(s, c)) && LastOutcome(ChargeShipping(s, c)) == LastOutcome(s)
  {
    hide Find, LastOf, LastOutcome, WellBooked;
    KeysLink(s);
    Appended(s, ShippingEntry(c.Amount()));
  }

  lemma {:induction false} LossKeys(s: Events, line: LineId)
    requires WellBooked(s)
    ensures Find(s, LossKey(line)).Some? ==> HasLoss(s, line)
  {
    if s != [] {
      LossKeys(s[..|s| - 1], line);
    }
  }

  lemma LossAppended(s: Events, e: Event, line: LineId)
    ensures BookedLoss(s + [e], line) == BookedLoss(s, line) + if IsLossOf(e, line) then e.damageCost else 0
  {
    assert (s + [e])[..|s|] == s;
  }

  /** Setting a line's loss brings what is booked to the target, unless the random key of a correction was used
      before; it leaves the outcome and every other line alone. */
  lemma SetLossReachesTarget(s: Events, line: LineId, target: int, uuid: nat)
    requires WellBooked(s)
    ensures var after := SetLoss(s, line, target, uuid);
            && WellBooked(after) && LastOutcome(after) == LastOutcome(s)
            && (BookedLoss(after, line) == target <==>
                BookedLoss(s, line) == target || !HasLoss(s, line) || Find(s, LossChangeKey(line, uuid)) == None)
            && (forall other :: other != line ==> BookedLoss(after, other) == BookedLoss(s, other))
            && (BookedLoss(s, line) == target ==> after == s)
  {
    hide Find, LastOf, LastOutcome, WellBooked, BookedLoss, HasLoss;
    LossKeys(s, line);
    var delta := target - BookedLoss(s, line);
    var e := LossEntry(if HasLoss(s, line) then LossChangeKey(line, uuid) else LossKey(line), delta);
    Appended(s, e);
    forall other
      ensures BookedLoss(s + [e], other) == BookedLoss(s, other) + if IsLossOf(e, other) then e.damageCost else 0
    {
      LossAppended(s, e, other);
    }
  }

  // ---- Every run ----

  lemma BookKeepsBooks(s: Events, r: Report)
    requires WellBooked(s)
    ensures WellBooked(Book(s, r))
    ensures r.Delivered? ==> IsDelivered(Book(s, r))
    ensures r.Failed? ==> !IsDelivered(Book(s, r))
    ensures r.Loss? ==> LastOutcome(Book(s, r)) == LastOutcome(s)
    ensures s <= Book(s, r)
  {
    hide WellBooked, LastOutcome, Find, LastOf, HasLoss, BookedLoss;
    match r {
      case Delivered(t, c) => RecognizeSwitches(s, t, c);
      case Failed(_, c) =>
        ReverseSwitches(s);
        ChargeKeepsBooks(Reverse(s), c);
      case Loss(line, target, uuid) => SetLossReachesTarget(s, line, target, uuid);
    }
  }

  lemma {:induction false} RunsKeepBooks(s: Events, reports: seq<Report>)
    requires WellBooked(s)
    ensures WellBooked(BookAll(s, reports)) && s <= BookAll(s, reports)
  {
    if reports != [] {
      RunsKeepBooks(s, reports[..|reports| - 1]);
      BookKeepsBooks(BookAll(s, reports[..|reports| - 1]), reports[|reports| - 1]);
    }
  }

  // ---- Alternation ----

  function Outcomes(s: Events): seq<Kind> {
    if s == [] then []
    else Outcomes(s[..|s| - 1]) + (if IsOutcome(s[|s| - 1].kind) then [s[|s| - 1].kind] else [])
  }

  /** The sum behind the delivered filter of the reports. */
  function OutcomeBalance(s: Events): int {
    if s == [] then 0
    else
      OutcomeBalance(s[..|s| - 1]) +
      match s[|s| - 1].kind
      case RevenueRecognized => 1
      case RevenueReinstated => 1
      case RevenueReversed => -1
      case _ => 0
  }

  /** Recognized, then reversed and reinstated in turn. */
  predicate Alternates(kinds: seq<Kind>) {
    forall k :: 0 <= k < |kinds| ==>
      kinds[k] == if k == 0 then RevenueRecognized else if k % 2 == 1 then RevenueReversed else RevenueReinstated
  }

  ghost predicate Alternating(s: Events) {
    var kinds := Outcomes(s);
    && Alternates(kinds)
    && LastOutcome(s) == (if kinds == [] then None else Some(kinds[|kinds| - 1]))
    && OutcomeBalance(s) == if IsDelivered(s) then 1 else 0
  }

  lemma OutcomeAppended(s: Events, e: Event)
    ensures Outcomes(s + [e]) == if IsOutcome(e.kind) then Outcomes(s) + [e.kind] else Outcomes(s)
    ensures OutcomeBalance(s + [e]) ==
            OutcomeBalance(s) +
            match e.kind
            case RevenueRecognized => 1
            case RevenueReinstated => 1
            case RevenueReversed => -1
            case _ => 0
  {
    assert (s + [e])[..|s|] == s;
  }

  lemma AlternatingNext(s: Events, e: Event)
    requires Alternating(s) && Follows(s, e)
    ensures Alternating(s + [e])
  {
    hide Find, LastOf, LastOutcome, WellBooked, Outcomes, OutcomeBalance;
    Appended(s, e);
    OutcomeAppended(s, e);
  }

  lemma {:induction false} OutcomesAlternate(s: Events)
    requires WellBooked(s)
    ensures Alternating(s)
  {
    hide Follows;
    if s != [] {
      OutcomesAlternate(s[..|s| - 1]);
      AlternatingNext(s[..|s| - 1], s[|s| - 1]);
      assert s[..|s| - 1] + [s[|s| - 1]] == s;
    }
  }

  /** Over every run of reports, with any repeats: outcomes strictly alternate from a single recognition, and the
      filter's sum is positive exactly when the latest outcome is not a reversal. */
  lemma LedgerAlternates(reports: seq<Report>)
    ensures var s := BookAll([], reports);
            && Alternates(Outcomes(s))
            && (OutcomeBalance(s) == 0 || OutcomeBalance(s) == 1)
            && (OutcomeBalance(s) > 0 <==> Outcomes(s) != [] && Outcomes(s)[|Outcomes(s)| - 1] != RevenueReversed)
  {
    hide BookAll, WellBooked, Outcomes, OutcomeBalance, LastOutcome;
    RunsKeepBooks([], reports);
    OutcomesAlternate(BookAll([], reports));
  }

  // ---- Reports ----

  datatype Summary = Summary(revenue: int, productCost: int, shippingCost: int, damageCost: int, giftCost: int,
                             packagingCost: int, netProfit: int)

  function AddEvent(t: Summary, e: Event): Summary {
    var u := t.(netProfit := t.netProfit + e.profit);
    match e.kind
    case RevenueReversed =>
      u.(revenue := u.revenue - e.revenue, productCost := u.productCost - e.productCost,
         shippingCost := u.shippingCost - e.shippingCost)
    case DamageLoss => u.(damageCost := u.damageCost + e.damageCost)
    case ShippingLoss => u.(shippingCost := u.shippingCost + e.shippingCost)
    case _ =>
      u.(revenue := u.revenue + e.revenue, productCost := u.productCost + e.productCost,
         shippingCost := u.shippingCost + e.shippingCost, giftCost := u.giftCost + e.giftCost,
         packagingCost := u.packagingCost + e.packagingCost)
  }

  function SummaryOf(s: Events): Summary {
    if s == [] then Summary(0, 0, 0, 0, 0, 0, 0) else AddEvent(SummaryOf(s[..|s| - 1]), s[|s| - 1])
  }

  function TotalOf(s: Events, amount: Event -> int): int {
    if s == [] then 0 else TotalOf(s[..|s| - 1], amount) + amount(s[|s| - 1])
  }

  predicate IsDelivery(e: Event) { e.kind == RevenueRecognized || e.kind == RevenueReinstated }

  /** An amount that deliveries count and reversals take back. */
  function Signed(e: Event, amount: int): int {
    if IsDelivery(e) then amount else if e.kind == RevenueReversed then -amount else 0
  }

  /** On every ledger: net profit is the sum of what the events say, whatever their kind; damage cost the sum of the
      losses; revenue and product cost those of deliveries less reversals, shipping likewise and with shipping losses;
      gift and packaging those of deliveries. */
  lemma {:induction false} SummaryTotals(s: Events)
    ensures SummaryOf(s).netProfit == TotalOf(s, (e: Event) => e.profit)
    ensures SummaryOf(s).damageCost == TotalOf(s, (e: Event) => if e.kind == DamageLoss then e.damageCost else 0)
    ensures SummaryOf(s).revenue == TotalOf(s, (e: Event) => Signed(e, e.revenue))
    ensures SummaryOf(s).productCost == TotalOf(s, (e: Event) => Signed(e, e.productCost))
    ensures SummaryOf(s).shippingCost ==
            TotalOf(s, (e: Event) => if e.kind == ShippingLoss then e.shippingCost else Signed(e, e.shippingCost))
    ensures SummaryOf(s).giftCost == TotalOf(s, (e: Event) => if IsDelivery(e) then e.giftCost else 0)
    ensures SummaryOf(s).packagingCost == TotalOf(s, (e: Event) => if IsDelivery(e) then e.packagingCost else 0)
  {
    if s != [] {
      SummaryTotals(s[..|s| - 1]);
    }
  }

  function LossesOf(s: Events, lines: seq<LineId>): int {
    if lines == [] then 0 else LossesOf(s, lines[..|lines| - 1]) + BookedLoss(s, lines[|lines| - 1])
  }

  lemma {:induction false} LossesAppended(s: Events, e: Event, lines: seq<LineId>)
    requires forall j, k :: 0 <= j < k < |lines| ==> lines[j] != lines[k]
    ensures LossesOf(s + [e], lines) ==
            LossesOf(s, lines) + if exists l :: l in lines && IsLossOf(e, l) then e.damageCost else 0
  {
    if lines != [] {
      var rest, l := lines[..|lines| - 1], lines[|lines| - 1];
      assert lines == rest + [l] && l !in rest;
      LossesAppended(s, e, rest);
      LossAppended(s, e, l);
    }
  }

  /** The summary's damage cost is what is booked for the lines, over any list of lines that has each line with a loss
      once. */
  lemma {:induction false} DamageIsLosses(s: Events, lines: seq<LineId>)
    requires WellBooked(s) && forall j, k :: 0 <= j < k < |lines| ==> lines[j] != lines[k]
    requires forall e, l :: e in s && IsLossOf(e, l) ==> l in lines
    ensures SummaryOf(s).damageCost == LossesOf(s, lines)
  {
    if s == [] {
      NoLosses(lines);
    } else {
      var rest, e := s[..|s| - 1], s[|s| - 1];
      assert s == rest + [e];
      DamageIsLosses(rest, lines);
      LossesAppended(rest, e, lines);
      if e.kind.DamageLoss? {
        assert IsLossOf(e, e.key.line) && e.key.line in lines;
      }
    }
  }

  lemma {:induction false} NoLosses(lines: seq<LineId>)
    ensures LossesOf([], lines) == 0
  {
    if lines != [] {
      NoLosses(lines[..|lines| - 1]);
    }
  }

  /** The courier-cost report's own sum over the same events. */
  function CourierShipping(s: Events): int {
    if s == [] then 0
    else
      CourierShipping(s[..|s| - 1]) +
      match s[|s| - 1].kind
      case RevenueReversed => -s[|s| - 1].shippingCost
      case DamageLoss => 0
      case _ => s[|s| - 1].shippingCost
  }

  function ShippingCharges(s: Events): nat {
    if s == [] then 0 else ShippingCharges(s[..|s| - 1]) + if s[|s| - 1].shippingCost != 0 then 1 else 0
  }

  function Recognized(s: Events): Event
    requires Find(s, RecognizedKey).Some?
  {
    s[Find(s, RecognizedKey).value]
  }

  /** What a ledger's totals say, whatever was reported in which order. */
  ghost predicate Balanced(s: Events) {
    var t := SummaryOf(s);
    && t.netProfit == t.revenue - t.productCost - t.shippingCost - t.giftCost - t.packagingCost - t.damageCost
    && match LastOutcome(s)
       case None => t.revenue == t.productCost == t.giftCost == t.packagingCost == 0
       case Some(k) =>
         && Find(s, RecognizedKey).Some?
         && var e := Recognized(s);
         && t.revenue == (if k.RevenueReversed? then 0 else e.revenue)
         && t.productCost == (if k.RevenueReversed? then 0 else e.productCost)
         && t.giftCost == e.giftCost && t.packagingCost == e.packagingCost
         && e.profit == e.revenue - e.productCost - e.shippingCost - e.giftCost - e.packagingCost
  }

  lemma SummaryAppended(s: Events, e: Event)
    ensures SummaryOf(s + [e]) == AddEvent(SummaryOf(s), e)
    ensures Find(s, RecognizedKey).Some? && e.key != RecognizedKey ==>
              Find(s + [e], RecognizedKey).Some? && Recognized(s + [e]) == Recognized(s)
  {
    assert (s + [e])[..|s|] == s;
  }

  lemma BalancedNext(s: Events, e: Event)
    requires Balanced(s) && Follows(s, e)
    ensures Balanced(s + [e])
  {
    hide Find, LastOf, LastOutcome, SummaryOf, WellBooked;
    Appended(s, e);
    SummaryAppended(s, e);
  }

  /** The accounting identity on every ledger: profit is revenue less all costs; revenue and product cost are the
      recognized ones while the order stands as delivered and nothing otherwise; gift and packaging stay spent. */
  lemma {:induction false} LedgerBalances(s: Events)
    requires WellBooked(s)
    ensures Balanced(s)
  {
    if s != [] {
      LedgerBalances(s[..|s| - 1]);
      BalancedNext(s[..|s| - 1], s[|s| - 1]);
      assert s[..|s| - 1] + [s[|s| - 1]] == s;
    }
  }

  /** Shipping is charged by at most one event, and both reports agree on it. */
  lemma {:induction false} ShippingChargedOnce(s: Events)
    requires WellBooked(s)
    ensures SummaryOf(s).shippingCost == CourierShipping(s)
    ensures ShippingCharges(s) <= 1
    ensures LastOutcome(s) == None ==> ShippingCharges(s) == if Find(s, ShippingLossKey).Some? then 1 else 0
  {
    if s != [] {
      ShippingChargedOnce(s[..|s| - 1]);
    }
  }

  /** The same for every run of reports from an empty ledger. */
  lemma RunsBalance(reports: seq<Report>)
    ensures var s := BookAll([], reports);
            && Balanced(s) && ShippingCharges(s) <= 1 && SummaryOf(s).shippingCost == CourierShipping(s)
  {
    RunsKeepBooks([], reports);
    LedgerBalances(BookAll([], reports));
    ShippingChargedOnce(BookAll([], reports));
  }

  // ---- Losses telescope ----

  function LastTarget(reports: seq<Report>, line: LineId): int {
    if reports == [] then 0
    else
      match reports[|reports| - 1]
      case Loss(l, target, _) => if l == line then target else LastTarget(reports[..|reports| - 1], line)
      case _ => LastTarget(reports[..|reports| - 1], line)
  }

  /** Random keys do not repeat. */
  predicate DistinctUuids(reports: seq<Report>) {
    forall j, k :: 0 <= j < k < |reports| && reports[j].Loss? && reports[k].Loss? ==> reports[j].uuid != reports[k].uuid
  }

  lemma ReportKeepsUuids(s: Events, r: Report, line: LineId, uuid: nat)
    requires Find(s, LossChangeKey(line, uuid)) == None && (r.Loss? ==> r.uuid != uuid)
    ensures Find(Book(s, r), LossChangeKey(line, uuid)) == None
  {
  }

  lemma {:induction false} UnusedUuid(reports: seq<Report>, line: LineId, uuid: nat)
    requires forall k :: 0 <= k < |reports| && reports[k].Loss? ==> reports[k].uuid != uuid
    ensures Find(BookAll([], reports), LossChangeKey(line, uuid)) == None
  {
    if reports != [] {
      UnusedUuid(reports[..|reports| - 1], line, uuid);
      ReportKeepsUuids(BookAll([], reports[..|reports| - 1]), reports[|reports| - 1], line, uuid);
    }
  }

  lemma OtherReportsKeepLoss(s: Events, r: Report, line: LineId)
    requires WellBooked(s) && !r.Loss?
    ensures BookedLoss(Book(s, r), line) == BookedLoss(s, line)
  {
    hide WellBooked, LastOutcome, Find, LastOf, HasLoss, BookedLoss;
    match r {
      case Delivered(t, c) =>
        RecognizeSwitches(s, t, c);
        if Recognize(s, t, c) != s {
          LossAppended(s, Recognize(s, t, c)[|s|], line);
        }
      case Failed(_, c) =>
        ReverseSwitches(s);
        LossAppended(Reverse(s), ShippingEntry(c.Amount()), line);
        if Reverse(s) != s {
          LossAppended(s, Reverse(s)[|s|], line);
        }
    }
  }

  /** After any run, each line's booked losses sum to the last loss set for it: corrections replace, never stack. */
  lemma {:induction false} LossesTelescope(reports: seq<Report>, line: LineId)
    requires DistinctUuids(reports)
    ensures BookedLoss(BookAll([], reports), line) == LastTarget(reports, line)
  {
    if reports != [] {
      var n := |reports| - 1;
      var s, r := BookAll([], reports[..n]), reports[n];
      LossesTelescope(reports[..n], line);
      RunsKeepBooks([], reports[..n]);
      if r.Loss? {
        UnusedUuid(reports[..n], r.line, r.uuid);
        SetLossReachesTarget(s, r.line, r.target, r.uuid);
      } else {
        OtherReportsKeepLoss(s, r, line);
      }
    }
  }

  /** What the losses of a line took from the order's profit. */
  function LossProfit(s: Events, line: LineId): int {
    if s == [] then 0
    else LossProfit(s[..|s| - 1], line) + (if IsLossOf(s[|s| - 1], line) then s[|s| - 1].profit else 0)
  }

  lemma {:induction false} LossIsTakenFromProfit(s: Events, line: LineId)
    requires WellBooked(s)
    ensures LossProfit(s, line) == -BookedLoss(s, line)
  {
    if s != [] {
      LossIsTakenFromProfit(s[..|s| - 1], line);
    }
  }

  // ---- The service ----

  /** What a first delivery adds to the summary: what was collected, less the product, gift and packaging cost and the
      shipping, which is the courier's fee when known, otherwise what the customer was charged, and nothing when a
      shipping loss is already booked. */
  ghost predicate FirstDelivery(b: Summary, a: Summary, t: Terms, c: Charge, charged: bool) {
    var shipping := if charged then 0 else if c.fee.Some? then c.fee.value else c.shipping;
    && a.revenue == b.revenue + t.collected
    && a.productCost == b.productCost + t.productCost
    && a.shippingCost == b.shippingCost + shipping
    && a.giftCost == b.giftCost + t.giftCost
    && a.packagingCost == b.packagingCost + t.packagingCost
    && a.damageCost == b.damageCost
    && a.netProfit == b.netProfit + t.collected - t.productCost - shipping - t.giftCost - t.packagingCost
  }

  /** A delivery after a reversal counts the recognized revenue and product cost again, and nothing else. */
  ghost predicate Reinstated(b: Summary, a: Summary, first: Event) {
    a == b.(revenue := first.revenue, productCost := first.productCost,
            netProfit := b.netProfit + first.revenue - first.productCost)
  }

  lemma DeliverySummary(s: Events, t: Terms, c: Charge)
    requires WellBooked(s)
    ensures var b, a := SummaryOf(s), SummaryOf(Recognize(s, t, c));
            && (LastOutcome(s) == None ==> FirstDelivery(b, a, t, c, Find(s, ShippingLossKey).Some?))
            && (LastOutcome(s) == Some(RevenueReversed) ==>
                  && Find(s, RecognizedKey).Some? && Find(Recognize(s, t, c), RecognizedKey).Some?
                  && Recognized(Recognize(s, t, c)) == Recognized(s) && Reinstated(b, a, Recognized(s)))
  {
    hide WellBooked, LastOutcome, Find, LastOf, SummaryOf;
    RecognizeSwitches(s, t, c);
    LedgerBalances(s);
    if Recognize(s, t, c) != s {
      SummaryAppended(s, Recognize(s, t, c)[|s|]);
    }
  }

  /** What a delivery leaves behind: the recognized revenue and product cost count, and only new events were added. */
  lemma DeliveryCounts(s: Events, t: Terms, c: Charge)
    requires WellBooked(s)
    ensures var after := Recognize(s, t, c);
            && WellBooked(after) && IsDelivered(after) && s <= after
            && (IsDelivered(s) ==> after == s)
            && Find(after, RecognizedKey).Some?
            && SummaryOf(after).revenue == Recognized(after).revenue
            && SummaryOf(after).productCost == Recognized(after).productCost
            && (LastOutcome(s) == None ==> Recognized(after).revenue == t.collected)
  {
    hide WellBooked, LastOutcome, Find, LastOf, SummaryOf;
    RecognizeSwitches(s, t, c);
    var after := Recognize(s, t, c);
    LedgerBalances(after);
    OutcomeKind(after);
    if LastOutcome(s) == None {
      FirstRecognized(s, Recognition(t, if Find(s, ShippingLossKey).Some? then 0 else c.Amount()));
    }
  }

  lemma FirstRecognized(s: Events, e: Event)
    requires e.key == RecognizedKey
    ensures Find(s + [e], RecognizedKey).Some? && Recognized(s + [e]) == e
  {
    assert (s + [e])[..|s|] == s;
  }

  /** What a failure leaves behind: no revenue and no product cost, whatever was recognized before. Shipping, gift,
      packaging and damage stay spent, so profit falls by what revenue was above product cost. */
  lemma FailureCountsNothing(s: Events)
    requires WellBooked(s)
    ensures var after := Reverse(s);
            && WellBooked(after) && !IsDelivered(after) && s <= after
            && (!IsDelivered(s) ==> after == s)
            && var b := SummaryOf(s);
            SummaryOf(after) == b.(revenue := 0, productCost := 0, netProfit := b.netProfit - b.revenue + b.productCost)
  {
    hide WellBooked, LastOutcome, Find, LastOf, SummaryOf;
    ReverseSwitches(s);
    LedgerBalances(s);
    if Reverse(s) != s {
      SummaryAppended(s, Reverse(s)[|s|]);
    }
    LedgerBalances(Reverse(s));
    OutcomeKind(Reverse(s));
  }

  /** Shipping is charged once: before any recognition a positive amount, the courier's fee when known and otherwise
      what the customer was charged, is taken from profit unless one already was. */
  lemma ShippingIsCharged(s: Events, c: Charge)
    requires WellBooked(s)
    ensures var after := ChargeShipping(s, c);
            && WellBooked(after) && LastOutcome(after) == LastOutcome(s) && s <= after
            && ShippingCharges(after) <= 1
            && (LastOutcome(s) == None && c.Amount() > 0 ==> ShippingCharges(after) == 1)
            && (ShippingCharges(s) == 1 ==> after == s)
            && var b, amount := SummaryOf(s), if c.fee.Some? then c.fee.value else c.shipping;
            SummaryOf(after) == if LastOutcome(s) == None && ShippingCharges(s) == 0 && amount > 0
                                then b.(shippingCost := b.shippingCost + amount, netProfit := b.netProfit - amount)
                                else b
  {
    hide WellBooked, LastOutcome, LastOf;
    ChargeKeepsBooks(s, c);
    KeysLink(s);
    SummaryAppended(s, ShippingEntry(c.Amount()));
    ShippingChargedOnce(s);
    ShippingChargedOnce(ChargeShipping(s, c));
  }

  /** Setting a line's loss moves damage cost by the difference from what is booked, and profit by its negative. */
  lemma LossSummary(s: Events, line: LineId, target: int, uuid: nat)
    requires WellBooked(s) && Find(s, LossChangeKey(line, uuid)) == None
    ensures var b, delta := SummaryOf(s), target - BookedLoss(s, line);
            SummaryOf(SetLoss(s, line, target, uuid)) ==
            b.(damageCost := b.damageCost + delta, netProfit := b.netProfit - delta)
  {
    hide WellBooked, Find, BookedLoss, HasLoss, SummaryOf;
    LossKeys(s, line);
    if SetLoss(s, line, target, uuid) != s {
      SummaryAppended(s, SetLoss(s, line, target, uuid)[|s|]);
    }
  }

  /** An order's ledger. Every method keeps it well booked and only appends. */
  class OrderLedgerService {
    var events: Events

    ghost predicate Valid()
      reads this
    {
      WellBooked(events)
    }

    constructor ()
      ensures Valid() && events == []
    {
      events := [];
    }

    /** The order stands as delivered, with the recognized revenue and product cost counted once. */
    method ApplyRevenueRecognition(t: Terms, c: Charge)
      requires Valid()
      modifies this
      ensures Valid() && IsDelivered(events) && old(events) <= events
      ensures IsDelivered(old(events)) ==> events == old(events)
      ensures Find(events, RecognizedKey).Some?
      ensures SummaryOf(events).revenue == Recognized(events).revenue
      ensures SummaryOf(events).productCost == Recognized(events).productCost
      ensures LastOutcome(old(events)) == None ==>
                FirstDelivery(SummaryOf(old(events)), SummaryOf(events), t, c, Find(old(events), ShippingLossKey).Some?)
      ensures LastOutcome(old(events)) == Some(RevenueReversed) ==>
                Reinstated(SummaryOf(old(events)), SummaryOf(events), Recognized(events))
      ensures events == Recognize(old(events), t, c)
    {
      hide WellBooked, LastOutcome, Find, LastOf, SummaryOf, FirstDelivery, Reinstated;
      DeliveryCounts(events, t, c);
      DeliverySummary(events, t, c);
      var existing := Find(events, RecognizedKey);
      if existing.Some? {
        var reversal := LastOf(events, RevenueReversed);
        if reversal == None {
          return;
        }
        UpsertEvent(Reinstatement(events[existing.value], reversal.value));
        return;
      }
      var shippingCost := c.Amount();
      if Find(events, ShippingLossKey).Some? {
        shippingCost := 0;
      }
      events := events + [Recognition(t, shippingCost)];
    }

    /** The order does not stand as delivered, and neither revenue nor product cost counts. */
    method ApplyRevenueReversal()
      requires Valid()
      modifies this
      ensures Valid() && !IsDelivered(events) && old(events) <= events
      ensures !IsDelivered(old(events)) ==> events == old(events)
      ensures var b := SummaryOf(old(events));
              SummaryOf(events) ==
              b.(revenue := 0, productCost := 0, netProfit := b.netProfit - b.revenue + b.productCost)
      ensures events == Reverse(old(events))
    {
      hide WellBooked, LastOutcome, Find, LastOf, SummaryOf;
      FailureCountsNothing(events);
      var key := ReversedKey;
      if Find(events, ReversedKey).Some? {
        var reinstated := LastOf(events, RevenueReinstated);
        if reinstated == None {
          return;
        }
        key := ReversedAfter(reinstated.value);
        if Find(events, key).Some? {
          return;
        }
      }
      var recognized := Find(events, RecognizedKey);
      if recognized == None {
        return;
      }
      events := events + [Reversal(events[recognized.value], key)];
    }

    /** Before any recognition a positive amount ends up charged, by exactly one event. */
    method ApplyShippingLoss(c: Charge)
      requires Valid()
      modifies this
      ensures Valid() && LastOutcome(events) == LastOutcome(old(events)) && old(events) <= events
      ensures ShippingCharges(events) <= 1
      ensures LastOutcome(old(events)) == None && c.Amount() > 0 ==> ShippingCharges(events) == 1
      ensures ShippingCharges(old(events)) == 1 ==> events == old(events)
      ensures var b, amount := SummaryOf(old(events)), if c.fee.Some? then c.fee.value else c.shipping;
              SummaryOf(events) ==
              if LastOutcome(old(events)) == None && ShippingCharges(old(events)) == 0 && amount > 0
              then b.(shippingCost := b.shippingCost + amount, netProfit := b.netProfit - amount) else b
      ensures events == ChargeShipping(old(events), c)
    {
      hide WellBooked, LastOutcome, Find, LastOf, ShippingCharges, SummaryOf;
      ShippingIsCharged(events, c);
      if Find(events, RecognizedKey).Some? || Find(events, ShippingLossKey).Some? {
        return;
      }
      if c.Amount() <= 0 {
        return;
      }
      UpsertEvent(ShippingEntry(c.Amount()));
    }

    /** The line's booked losses sum to the target, unless a correction reuses a random key; other lines and the
        outcome stay as they are, and repeating the target books nothing. */
    method SetLineLoss(line: LineId, target: int, uuid: nat)
      requires Valid()
      modifies this
      ensures Valid() && LastOutcome(events) == LastOutcome(old(events)) && old(events) <= events
      ensures Find(old(events), LossChangeKey(line, uuid)) == None ==> BookedLoss(events, line) == target
      ensures forall other :: other != line ==> BookedLoss(events, other) == BookedLoss(old(events), other)
      ensures BookedLoss(old(events), line) == target ==> events == old(events)
      ensures Find(old(events), LossChangeKey(line, uuid)) == None ==>
                var b, delta := SummaryOf(old(events)), target - BookedLoss(old(events), line);
                SummaryOf(events) == b.(damageCost := b.damageCost + delta, netProfit := b.netProfit - delta)
      ensures events == SetLoss(old(events), line, target, uuid)
    {
      hide WellBooked, LastOutcome, Find, LastOf, BookedLoss, HasLoss, SummaryOf;
      SetLossReachesTarget(events, line, target, uuid);
      if Find(events, LossChangeKey(line, uuid)) == None {
        LossSummary(events, line, target, uuid);
      }
      var delta := target - BookedLoss(events, line);
      if delta == 0 {
        return;
      }
      UpsertEvent(LossEntry(if HasLoss(events, line) then LossChangeKey(line, uuid) else LossKey(line), delta));
    }

    method UpsertEvent(e: Event)
      modifies this
      ensures events == Upsert(old(events), e)
    {
      if Find(events, e.key) == None {
        events := events + [e];
      }
    }

    method GetSummary() returns (t: Summary)
      ensures t == SummaryOf(events) && (Valid() ==> Balanced(events))
      ensures t.netProfit == TotalOf(events, (e: Event) => e.profit)
      ensures t.damageCost == TotalOf(events, (e: Event) => if e.kind == DamageLoss then e.damageCost else 0)
    {
      hide TotalOf, Balanced, WellBooked, Signed;
      if Valid() {
        LedgerBalances(events);
      }
      SummaryTotals(events);
      var revenue, productCost, shippingCost, damageCost := 0, 0, 0, 0;
      var giftCost, packagingCost, netProfit := 0, 0, 0;
      for k := 0 to |events|
        invariant SummaryOf(events[..k]) ==
                  Summary(revenue, productCost, shippingCost, damageCost, giftCost, packagingCost, netProfit)
      {
        assert events[..k + 1][..k] == events[..k];
        var e := events[k];
        netProfit := netProfit + e.profit;
        if e.kind.RevenueRecognized? || e.kind.RevenueReinstated? {
          revenue := revenue + e.revenue;
          productCost := productCost + e.productCost;
          shippingCost := shippingCost + e.shippingCost;
          giftCost := giftCost + e.giftCost;
          packagingCost := packagingCost + e.packagingCost;
        } else if e.kind.RevenueReversed? {
          revenue := revenue - e.revenue;
          productCost := productCost - e.productCost;
          shippingCost := shippingCost - e.shippingCost;
        } else if e.kind.DamageLoss? {
          damageCost := damageCost + e.damageCost;
        } else if e.kind.ShippingLoss? {
          shippingCost := shippingCost + e.shippingCost;
        }
      }
      assert events[..|events|] == events;
      t := Summary(revenue, productCost, shippingCost, damageCost, giftCost, packagingCost, netProfit);
    }
  }
}
