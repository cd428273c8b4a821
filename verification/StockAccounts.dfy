/** One inventory item: its balance and its append-only movement log.
    Every movement of the order flows reads and writes a single item, so the store's
    stock is a map from items to accounts (see OrderStock). */
module StockAccounts {
  import opened Basics

  datatype Bucket = OnHand | Reserved | Damaged

  datatype MovementType =
    | OrderReserved | OrderReleased | OrderDelivered | PackagingConsumed
    | ReturnGood | ReturnDamaged | ReturnLost
    | OtherMovement

  predicate IsReturn(kind: MovementType) { kind.ReturnGood? || kind.ReturnDamaged? || kind.ReturnLost? }

  /** The idempotency keys, unique per item. */
  datatype MoveKey =
    | ReserveKey(line: LineId)
    | SettleKey(line: LineId)
    | DeliverKey(line: LineId)
    | PackagingKey(line: LineId)
    | ReleaseKey(line: LineId)
    | AllocationKey(line: LineId, revision: int, index: nat)
    | ExternalKey(id: nat)

  datatype Balance = Balance(onHand: int, reserved: int, damaged: int) {
    function Get(k: Bucket): int {
      match k
      case OnHand => onHand
      case Reserved => reserved
      case Damaged => damaged
    }

    function Plus(k: Bucket, delta: int): Balance {
      match k
      case OnHand => this.(onHand := onHand + delta)
      case Reserved => this.(reserved := reserved + delta)
      case Damaged => this.(damaged := damaged + delta)
    }

    function Available(): int { onHand - reserved - damaged }

    predicate Valid() {
      0 <= reserved && 0 <= damaged && reserved + damaged <= onHand
    }
  }

  /** x is a part of d: it lies between 0 and d. */
  predicate PartOf(x: int, d: int) { 0 <= x <= d || d <= x <= 0 }

  /** What a movement may actually change. */
  function Clamp(b: Balance, k: Bucket, delta: int): int {
    var available := Max(b.Available(), 0);
    if delta > 0 then
      if k.Reserved? || k.Damaged? then Min(delta, available) else delta
    else
      var reducible := if k.OnHand? then available else Max(b.Get(k), 0);
      -Min(-delta, reducible)
  }

  /** Exactly the largest part of delta that keeps the balance valid. */
  lemma ClampIsLargest(b: Balance, k: Bucket, delta: int)
    requires b.Valid()
    ensures PartOf(Clamp(b, k, delta), delta)
    ensures forall x :: PartOf(x, delta) ==> (b.Plus(k, x).Valid() <==> PartOf(x, Clamp(b, k, delta)))
  {
  }

  datatype Row = Row(kind: MovementType, bucket: Bucket, delta: int, resulting: int,
                     line: Option<LineId>, key: MoveKey)

  /** The movement table of one item, oldest row innermost. */
  datatype Log = Empty | Then(prior: Log, row: Row)

  /** The where-clauses of the sums taken over the log. */
  datatype Filter =
    | InBucket(bucket: Bucket)
    | LineIn(line: LineId, bucket: Bucket)
    | ReturnOf(line: LineId, bucket: Bucket)
    | External(bucket: Bucket)

  predicate Selects(f: Filter, r: Row) {
    r.bucket == f.bucket &&
    match f
    case InBucket(_) => true
    case LineIn(l, _) => r.line == Some(l)
    case ReturnOf(l, _) => r.line == Some(l) && IsReturn(r.kind)
    case External(_) => r.line == None
  }

  function Total(log: Log, f: Filter): int {
    match log
    case Empty => 0
    case Then(prior, r) => Total(prior, f) + (if Selects(f, r) then r.delta else 0)
  }

  function NetReserved(log: Log, l: LineId): int { Total(log, LineIn(l, Reserved)) }
  function NetReturned(log: Log, l: LineId, k: Bucket): int { Total(log, ReturnOf(l, k)) }

  predicate HasKey(log: Log, key: MoveKey) {
    match log
    case Empty => false
    case Then(prior, r) => r.key == key || HasKey(prior, key)
  }

  function DeltaAt(log: Log, key: MoveKey): int
    requires HasKey(log, key)
  {
    if log.row.key == key then log.row.delta else DeltaAt(log.prior, key)
  }

  /** after continues before: rows are only ever appended. */
  predicate Extends(before: Log, after: Log) {
    before == after || (after.Then? && Extends(before, after.prior))
  }

  datatype Account = Account(item: ItemId, opening: Balance, balance: Balance, log: Log)

  const NO_STOCK := Balance(0, 0, 0)

  function EmptyAccount(i: ItemId): Account { Account(i, NO_STOCK, NO_STOCK, Empty) }

  datatype Request = Request(kind: MovementType, bucket: Bucket, delta: int, line: LineId, key: MoveKey)

  /** The movement transaction: nothing for a known key or a fully clamped delta, one row otherwise. */
  function Move(a: Account, m: Request): Account {
    var applied := Clamp(a.balance, m.bucket, m.delta);
    if HasKey(a.log, m.key) || applied == 0 then a
    else
      var balance := a.balance.Plus(m.bucket, applied);
      Account(a.item, a.opening, balance,
              Then(a.log, Row(m.kind, m.bucket, applied, balance.Get(m.bucket), Some(m.line), m.key)))
  }

  /** What the movement transaction reports as moved. */
  function Moved(a: Account, m: Request): int {
    if HasKey(a.log, m.key) then DeltaAt(a.log, m.key) else Clamp(a.balance, m.bucket, m.delta)
  }

  // ---- Which logs the flows can write ----

  function Replay(opening: Balance, log: Log): Balance {
    match log
    case Empty => opening
    case Then(prior, r) => Replay(opening, prior).Plus(r.bucket, r.delta)
  }

  /** What a movement of this key may ask for, given the log so far, and the type it is booked as. */
  predicate FlowLegal(log: Log, kind: MovementType, bucket: Bucket, delta: int, line: LineId, key: MoveKey) {
    match key
    case ReserveKey(l) => l == line && bucket == Reserved && kind == OrderReserved && delta > 0
    case SettleKey(l) => l == line && bucket == Reserved && kind == OrderDelivered && delta == -NetReserved(log, l) < 0
    case ReleaseKey(l) => l == line && bucket == Reserved && kind == OrderReleased && delta == -NetReserved(log, l) < 0
    case DeliverKey(l) => l == line && bucket == OnHand && kind == OrderDelivered && delta <= 0
    case PackagingKey(l) => l == line && bucket == OnHand && kind == PackagingConsumed && delta <= 0
    case AllocationKey(l, _, _) =>
      l == line && (if bucket == OnHand then kind == (if delta > 0 then ReturnGood else ReturnLost)
                    else bucket == Damaged && kind == ReturnDamaged && NetReturned(log, l, Damaged) + delta >= 0)
    case ExternalKey(_) => false
  }

  /** Stock changes outside the order flows carry no line and leave enough for what the lines hold. */
  predicate ExternalLegal(opening: Balance, log: Log, bucket: Bucket, delta: int) {
    bucket == Reserved || bucket == Damaged ==> opening.Get(bucket) + Total(log, External(bucket)) + delta >= 0
  }

  predicate LineLegal(opening: Balance, log: Log, r: Row) {
    match r.line
    case Some(l) => FlowLegal(log, r.kind, r.bucket, r.delta, l, r.key)
    case None => r.key.ExternalKey? && ExternalLegal(opening, log, r.bucket, r.delta)
  }

  predicate RowLegal(opening: Balance, prior: Log, before: Balance, r: Row) {
    && !HasKey(prior, r.key) && r.delta != 0
    && before.Plus(r.bucket, r.delta).Valid()
    && r.resulting == before.Plus(r.bucket, r.delta).Get(r.bucket)
    && LineLegal(opening, prior, r)
  }

  predicate LogLegal(opening: Balance, log: Log) {
    match log
    case Empty => opening.Valid()
    case Then(prior, r) => LogLegal(opening, prior) && RowLegal(opening, prior, Replay(opening, prior), r)
  }

  predicate Legal(a: Account) { LogLegal(a.opening, a.log) && a.balance == Replay(a.opening, a.log) }

  lemma LegalIsValid(a: Account)
    requires Legal(a)
    ensures a.balance.Valid()
  {
  }

  /** A log as an exact history: keys never repeat, and every row records what its bucket held right after it, which
      is the opening plus the deltas up to it, in a balance that was valid. */
  predicate History(opening: Balance, log: Log) {
    match log
    case Empty => true
    case Then(prior, r) =>
      && History(opening, prior)
      && !HasKey(prior, r.key)
      && r.resulting == opening.Get(r.bucket) + Total(log, InBucket(r.bucket))
      && Balance(opening.onHand + Total(log, InBucket(OnHand)), opening.reserved + Total(log, InBucket(Reserved)),
                 opening.damaged + Total(log, InBucket(Damaged))).Valid()
  }

  lemma {:induction false} ReplaySums(opening: Balance, log: Log, k: Bucket)
    ensures Replay(opening, log).Get(k) == opening.Get(k) + Total(log, InBucket(k))
  {
    if log.Then? {
      ReplaySums(opening, log.prior, k);
    }
  }

  lemma {:induction false} LogIsHistory(opening: Balance, log: Log)
    requires LogLegal(opening, log)
    ensures History(opening, log)
  {
    if log.Then? {
      LogIsHistory(opening, log.prior);
      ReplaySums(opening, log, OnHand);
      ReplaySums(opening, log, Reserved);
      ReplaySums(opening, log, Damaged);
    }
  }

  /** A line's reservation on an item is a single positive row, undone at most once and then in full. */
  lemma {:induction false} ReservationShape(opening: Balance, log: Log, l: LineId)
    requires LogLegal(opening, log)
    ensures NetReserved(log, l) >= 0
    ensures NetReserved(log, l) > 0 ==>
              HasKey(log, ReserveKey(l)) && !HasKey(log, SettleKey(l)) && !HasKey(log, ReleaseKey(l))
    ensures !HasKey(log, ReserveKey(l)) ==> !HasKey(log, SettleKey(l)) && !HasKey(log, ReleaseKey(l))
    ensures NetReturned(log, l, Damaged) == Total(log, LineIn(l, Damaged)) >= 0
  {
    if log.Then? {
      ReservationShape(opening, log.prior, l);
    }
  }

  // ---- The bucket is shared out among the lines ----

  function LinesOf(log: Log): set<LineId> {
    match log
    case Empty => {}
    case Then(prior, r) => LinesOf(prior) + (if r.line.Some? then {r.line.value} else {})
  }

  /** The sum over a set of lines of what each holds in a bucket. */
  ghost function HeldBy(log: Log, lines: set<LineId>, k: Bucket): int {
    if lines == {} then 0
    else
      var l :| l in lines;
      Total(log, LineIn(l, k)) + HeldBy(log, lines - {l}, k)
  }

  lemma {:induction false} HeldByPick(log: Log, lines: set<LineId>, k: Bucket, l: LineId)
    requires l in lines
    ensures HeldBy(log, lines, k) == Total(log, LineIn(l, k)) + HeldBy(log, lines - {l}, k)
    decreases lines
  {
    var p :| p in lines && HeldBy(log, lines, k) == Total(log, LineIn(p, k)) + HeldBy(log, lines - {p}, k);
    if p != l {
      HeldByPick(log, lines - {p}, k, l);
      HeldByPick(log, lines - {l}, k, p);
      assert lines - {p} - {l} == lines - {l} - {p};
    }
  }

  lemma {:induction false} HeldByAppend(log: Log, r: Row, lines: set<LineId>, k: Bucket)
    ensures HeldBy(Then(log, r), lines, k) ==
            HeldBy(log, lines, k) + (if r.bucket == k && r.line.Some? && r.line.value in lines then r.delta else 0)
    decreases lines
  {
    if lines != {} {
      var l :| l in lines;
      HeldByPick(Then(log, r), lines, k, l);
      HeldByPick(log, lines, k, l);
      HeldByAppend(log, r, lines - {l}, k);
    }
  }

  lemma {:induction false} NothingHeld(lines: set<LineId>, k: Bucket)
    ensures HeldBy(Empty, lines, k) == 0
    decreases lines
  {
    if lines != {} {
      var l :| l in lines;
      HeldByPick(Empty, lines, k, l);
      NothingHeld(lines - {l}, k);
    }
  }

  /** A bucket is what came from outside plus what the lines hold. */
  lemma {:induction false} BucketIsShared(log: Log, lines: set<LineId>, k: Bucket)
    requires LinesOf(log) <= lines
    ensures Total(log, InBucket(k)) == Total(log, External(k)) + HeldBy(log, lines, k)
  {
    match log {
      case Empty => NothingHeld(lines, k);
      case Then(prior, r) =>
        BucketIsShared(prior, lines, k);
        HeldByAppend(prior, r, lines, k);
    }
  }

  lemma {:induction false} HeldNonNegative(opening: Balance, log: Log, lines: set<LineId>, k: Bucket)
    requires LogLegal(opening, log) && (k == Reserved || k == Damaged)
    ensures HeldBy(log, lines, k) >= 0
    decreases lines
  {
    if lines != {} {
      var l :| l in lines;
      HeldByPick(log, lines, k, l);
      HeldNonNegative(opening, log, lines - {l}, k);
      ReservationShape(opening, log, l);
    }
  }

  lemma {:induction false} ExternalNonNegative(opening: Balance, log: Log, k: Bucket)
    requires LogLegal(opening, log) && (k == Reserved || k == Damaged)
    ensures opening.Get(k) + Total(log, External(k)) >= 0
  {
    if log.Then? {
      ExternalNonNegative(opening, log.prior, k);
    }
  }

  /** Reserved stock is exactly the outside part plus the sum over the lines of non-negative
      reservations, so no line holds more than the bucket; likewise for damaged returns. */
  lemma ReservedIsShared(a: Account, l: LineId)
    requires Legal(a)
    ensures a.balance.reserved ==
            a.opening.reserved + Total(a.log, External(Reserved)) + HeldBy(a.log, LinesOf(a.log), Reserved)
    ensures 0 <= NetReserved(a.log, l) <= a.balance.reserved
    ensures 0 <= NetReturned(a.log, l, Damaged) <= a.balance.damaged
  {
    var all := LinesOf(a.log) + {l};
    ReservationShape(a.opening, a.log, l);
    BucketIsShared(a.log, LinesOf(a.log), Reserved);
    ReplaySums(a.opening, a.log, Reserved);
    forall k | k == Reserved || k == Damaged
      ensures Total(a.log, LineIn(l, k)) <= a.balance.Get(k)
    {
      ReplaySums(a.opening, a.log, k);
      BucketIsShared(a.log, all, k);
      HeldByPick(a.log, all, k, l);
      HeldNonNegative(a.opening, a.log, all - {l}, k);
      ExternalNonNegative(a.opening, a.log, k);
    }
    assert a.balance.Get(Reserved) == a.balance.reserved && a.balance.Get(Damaged) == a.balance.damaged;
  }

  // ---- Every legal request keeps the account legal ----

  predicate RequestLegal(a: Account, m: Request) {
    FlowLegal(a.log, m.kind, m.bucket, m.delta, m.line, m.key)
  }

  lemma MoveKeepsLegal(a: Account, m: Request)
    requires Legal(a) && RequestLegal(a, m)
    ensures Legal(Move(a, m))
    ensures (m.key.SettleKey? || m.key.ReleaseKey?) && !HasKey(a.log, m.key) ==>
              Clamp(a.balance, m.bucket, m.delta) == m.delta
  {
    LegalIsValid(a);
    ReservedIsShared(a, m.line);
    ReservationShape(a.opening, a.log, m.line);
    ClampIsLargest(a.balance, m.bucket, m.delta);
  }

  /** What a movement means: a known key changes nothing; otherwise the balance moves by the largest part of the request
      that keeps it valid, and a lawful request keeps the account legal. */
  ghost predicate MovedAsAsked(a: Account, b: Account, m: Request, moved: int) {
    && Extends(a.log, b.log)
    && (HasKey(a.log, m.key) ==> b == a && moved == DeltaAt(a.log, m.key))
    && (!HasKey(a.log, m.key) ==> b.balance == a.balance.Plus(m.bucket, moved) && PartOf(moved, m.delta))
    && (!HasKey(a.log, m.key) && a.balance.Valid() ==>
          forall x :: PartOf(x, m.delta) ==> (a.balance.Plus(m.bucket, x).Valid() <==> PartOf(x, moved)))
    && (Legal(a) && RequestLegal(a, m) ==> Legal(b))
  }

  lemma MoveMeans(a: Account, m: Request)
    requires a.balance.Valid()
    ensures MovedAsAsked(a, Move(a, m), m, Moved(a, m))
  {
    ClampIsLargest(a.balance, m.bucket, m.delta);
    assert a.balance.Plus(m.bucket, 0) == a.balance;
    if Legal(a) && RequestLegal(a, m) {
      MoveKeepsLegal(a, m);
    }
  }

  /** A manual or purchasing change: validated, never clamped. */
  predicate ExternalAccepted(a: Account, k: Bucket, delta: int, key: MoveKey) {
    !HasKey(a.log, key) && delta != 0 && a.balance.Plus(k, delta).Valid()
  }

  function ExternalMove(a: Account, k: Bucket, delta: int, key: MoveKey): Account {
    if !ExternalAccepted(a, k, delta, key) then a
    else
      var balance := a.balance.Plus(k, delta);
      Account(a.item, a.opening, balance, Then(a.log, Row(OtherMovement, k, delta, balance.Get(k), None, key)))
  }

  lemma ExternalKeepsLegal(a: Account, k: Bucket, delta: int, id: nat)
    requires Legal(a) && ExternalLegal(a.opening, a.log, k, delta)
    ensures Legal(ExternalMove(a, k, delta, ExternalKey(id)))
  {
  }
}
