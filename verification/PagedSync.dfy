/** Pulling a platform's orders page by page, five pages at a time, resumable after any failure. */
module PagedSync {
  import opened Basics

  type ExternalId = nat

  datatype PlatformOrder = PlatformOrder(id: ExternalId, data: nat)

  /** What a platform reports for a window: at least one page, the same on every request. A cursor is the position of
      the next page. */
  type Pages = p: seq<seq<PlatformOrder>> | p != [] witness [[]]
  type Provider = (Option<int>, int) -> Pages

  const MAX_PAGES := 5

  /** A connection's stored sync fields and orders. */
  datatype Connection = Connection(cursor: Option<nat>, syncFrom: Option<int>, syncStartedAt: Option<int>,
                                   lastSyncedAt: Option<int>, failed: bool, inRevenue: bool,
                                   orders: map<ExternalId, PlatformOrder>)

  /** How one page request ends: well, or failing in the fetch, part-way through storing (keeping some orders), for want
      of a cursor to go on, or when saving the progress. */
  datatype Outcome = Fine | FetchFails | StoreFails(kept: set<ExternalId>) | NoCursor | SaveFails

  /** One outcome per page of a chunk. */
  type Weather = nat -> Outcome

  function Upsert(orders: map<ExternalId, PlatformOrder>, page: seq<PlatformOrder>): map<ExternalId, PlatformOrder> {
    if page == [] then orders
    else Upsert(orders, page[..|page| - 1])[page[|page| - 1].id := page[|page| - 1]]
  }

  function Kept(page: seq<PlatformOrder>, kept: set<ExternalId>): seq<PlatformOrder> {
    if page == [] then []
    else Kept(page[..|page| - 1], kept) + (if page[|page| - 1].id in kept then [page[|page| - 1]] else [])
  }

  function Position(c: Connection): nat { if c.cursor.Some? then c.cursor.value else 0 }

  /** A chunk: the pages from the k-th request on. */
  function Chunk(c: Connection, pages: Pages, started: int, weather: Weather, k: nat): Connection
    requires Position(c) < |pages|
    decreases MAX_PAGES - k
  {
    if k >= MAX_PAGES then c
    else
      var page, broken, outcome := pages[Position(c)], c.(failed := true), weather(k);
      if outcome.FetchFails? then broken
      else if outcome.StoreFails? then broken.(orders := Upsert(c.orders, Kept(page, outcome.kept)))
      else
        var stored := c.(orders := Upsert(c.orders, page));
        if Position(c) + 1 == |pages| then
          if outcome == SaveFails then stored.(failed := true)
          else
            stored.(cursor := None, syncFrom := None, syncStartedAt := None, lastSyncedAt := Some(started),
                    failed := false, inRevenue := true)
        else if outcome != Fine then stored.(failed := true)
        else Chunk(stored.(cursor := Some(Position(c) + 1)), pages, started, weather, k + 1)
  }

  /** Starts a window, or resumes the one that was started. */
  function Started(c: Connection, now: int): Connection {
    c.(syncFrom := if c.syncStartedAt.Some? then c.syncFrom else c.lastSyncedAt,
       syncStartedAt := if c.syncStartedAt.Some? then c.syncStartedAt else Some(now), failed := false)
  }

  function WindowPages(c: Connection, provider: Provider): Pages
    requires c.syncStartedAt.Some?
  {
    provider(c.syncFrom, c.syncStartedAt.value)
  }

  /** A cursor points into the window it belongs to. */
  predicate Resumable(c: Connection, provider: Provider) {
    if c.syncStartedAt.Some? then Position(c) < |WindowPages(c, provider)| else c.cursor == None && c.syncFrom == None
  }

  function RunSync(c: Connection, provider: Provider, now: int, weather: Weather): Connection
    requires Resumable(c, provider)
  {
    var s := Started(c, now);
    Chunk(s, WindowPages(s, provider), s.syncStartedAt.value, weather, 0)
  }

  class SyncService {
    var connection: Connection

    constructor (c: Connection)
      ensures connection == c
    {
      connection := c;
    }

    method PersistOrders(page: seq<PlatformOrder>)
      modifies this
      ensures connection == old(connection).(orders := Upsert(old(connection).orders, page))
    {
      ghost var before := connection;
      for j := 0 to |page|
        invariant connection == before.(orders := Upsert(before.orders, page[..j]))
      {
        assert page[..j + 1][..j] == page[..j];
        connection := connection.(orders := connection.orders[page[j].id := page[j]]);
      }
      assert page[..|page|] == page;
    }

    method Sync(provider: Provider, now: int, weather: Weather)
      requires Resumable(connection, provider)
      modifies this
      ensures connection == RunSync(old(connection), provider, now, weather)
    {
      hide Upsert, Kept;
      ghost var before := connection;
      var started := if connection.syncStartedAt.Some? then connection.syncStartedAt.value else now;
      var from := if connection.syncStartedAt.Some? then connection.syncFrom else connection.lastSyncedAt;
      connection := connection.(syncFrom := from, syncStartedAt := Some(started), failed := false);
      var pages := provider(from, started);
      for k := 0 to MAX_PAGES
        invariant Position(connection) < |pages|
        invariant Chunk(connection, pages, started, weather, k) == RunSync(before, provider, now, weather)
      {
        var position := Position(connection);
        var outcome := weather(k);
        if outcome == FetchFails {
          connection := connection.(failed := true);
          return;
        }
        if outcome.StoreFails? {
          PersistOrders(Kept(pages[position], outcome.kept));
          connection := connection.(failed := true);
          return;
        }
        PersistOrders(pages[position]);
        if position + 1 == |pages| && outcome != SaveFails {
          connection := connection.(cursor := None, syncFrom := None, syncStartedAt := None,
                                    lastSyncedAt := Some(started), failed := false, inRevenue := true);
          return;
        }
        if outcome != Fine {
          connection := connection.(failed := true);
          return;
        }
        connection := connection.(cursor := Some(position + 1));
      }
    }
  }

  // ---- Coverage ----

  predicate Has(orders: map<ExternalId, PlatformOrder>, page: seq<PlatformOrder>) {
    forall o :: o in page ==> o.id in orders
  }

  /** All pages before the cursor are stored. */
  predicate Covered(orders: map<ExternalId, PlatformOrder>, pages: seq<seq<PlatformOrder>>, k: nat) {
    forall j :: 0 <= j < k && j < |pages| ==> Has(orders, pages[j])
  }

  lemma {:induction false} UpsertStores(orders: map<ExternalId, PlatformOrder>, page: seq<PlatformOrder>)
    ensures orders.Keys <= Upsert(orders, page).Keys
    ensures Has(Upsert(orders, page), page)
  {
    if page != [] {
      assert page == page[..|page| - 1] + [page[|page| - 1]];
      UpsertStores(orders, page[..|page| - 1]);
    }
  }

  lemma {:induction false} UpsertIsIdempotent(orders: map<ExternalId, PlatformOrder>, page: seq<PlatformOrder>)
    ensures Upsert(Upsert(orders, page), page) == Upsert(orders, page)
  {
    var once := Upsert(orders, page);
    UpsertStores(orders, page);
    forall id ensures id in Upsert(once, page) <==> id in once {
      UpsertIs(orders, page, id);
      UpsertIs(once, page, id);
    }
    forall id | id in once ensures Upsert(once, page)[id] == once[id] {
      UpsertIs(orders, page, id);
      UpsertIs(once, page, id);
    }
  }

  function LastOf(page: seq<PlatformOrder>, id: ExternalId): Option<PlatformOrder> {
    if page == [] then None
    else if page[|page| - 1].id == id then Some(page[|page| - 1])
    else LastOf(page[..|page| - 1], id)
  }

  lemma {:induction false} UpsertIs(orders: map<ExternalId, PlatformOrder>, page: seq<PlatformOrder>, id: ExternalId)
    ensures id in Upsert(orders, page) <==> id in orders || LastOf(page, id).Some?
    ensures id in Upsert(orders, page) ==>
              Upsert(orders, page)[id] == if LastOf(page, id).Some? then LastOf(page, id).value else orders[id]
  {
    if page != [] {
      UpsertIs(orders, page[..|page| - 1], id);
    }
  }

  /** What a chunk does from any state of its window: it completes the window with every page stored, or stops further
      on in the same window with every page before its cursor stored. Orders are never lost. */
  ghost predicate ChunkDone(c: Connection, after: Connection, pages: Pages, started: int) {
    && c.orders.Keys <= after.orders.Keys
    && if after.syncStartedAt == None
       then && Covered(after.orders, pages, |pages|)
            && after.cursor == None && after.syncFrom == None && after.lastSyncedAt == Some(started)
            && !after.failed && after.inRevenue
       else && after.syncFrom == c.syncFrom && after.syncStartedAt == c.syncStartedAt
            && after.lastSyncedAt == c.lastSyncedAt && after.inRevenue == c.inRevenue
            && Position(c) <= Position(after) < |pages| && Covered(after.orders, pages, Position(after))
  }

  lemma CoveredGrows(orders: map<ExternalId, PlatformOrder>, more: map<ExternalId, PlatformOrder>, pages: Pages, k: nat)
    requires Covered(orders, pages, k) && orders.Keys <= more.Keys
    ensures Covered(more, pages, k)
  {
    forall j | 0 <= j < k && j < |pages| ensures Has(more, pages[j]) {
      assert Has(orders, pages[j]);
    }
  }

  lemma {:induction false} ChunkCovers(c: Connection, pages: Pages, started: int, weather: Weather, k: nat)
    requires Position(c) < |pages| && c.syncStartedAt.Some? && Covered(c.orders, pages, Position(c))
    ensures ChunkDone(c, Chunk(c, pages, started, weather, k), pages, started)
    decreases MAX_PAGES - k
  {
    hide Upsert, Kept, Has;
    if k < MAX_PAGES {
      var position := Position(c);
      var page := pages[position];
      UpsertStores(c.orders, page);
      if weather(k).StoreFails? {
        var kept := Kept(page, weather(k).kept);
        UpsertStores(c.orders, kept);
        CoveredGrows(c.orders, Upsert(c.orders, kept), pages, position);
      } else if !weather(k).FetchFails? {
        var stored := c.(orders := Upsert(c.orders, page));
        CoveredGrows(c.orders, stored.orders, pages, position);
        if weather(k) == Fine && position + 1 < |pages| {
          ChunkCovers(stored.(cursor := Some(position + 1)), pages, started, weather, k + 1);
        }
      }
    }
  }

  /** A chunk that stops short in its window without recording a failure has used all its requests, and a recorded
      failure is one of its requests'. */
  lemma {:induction false} FailureIsRecorded(c: Connection, pages: Pages, started: int, weather: Weather, k: nat)
    requires Position(c) < |pages| && c.syncStartedAt.Some? && !c.failed && k <= MAX_PAGES
    ensures var after := Chunk(c, pages, started, weather, k);
            && (after.failed ==> exists j :: k <= j < MAX_PAGES && weather(j) != Fine)
            && (after.syncStartedAt.Some? && !after.failed ==> Position(after) == Position(c) + MAX_PAGES - k)
    decreases MAX_PAGES - k
  {
    hide Upsert, Kept;
    if k < MAX_PAGES && weather(k) == Fine && Position(c) + 1 < |pages| {
      var next := c.(orders := Upsert(c.orders, pages[Position(c)]), cursor := Some(Position(c) + 1));
      FailureIsRecorded(next, pages, started, weather, k + 1);
    }
  }

  // ---- Runs ----

  /** Chunks with any clock and any failures; other writers add and change orders but never remove them. */
  datatype Step = SyncStep(now: int, weather: Weather) | OutsideWrite(order: PlatformOrder)

  datatype Window = Window(from: Option<int>, to: int)

  /** A connection between chunks: an open window starts at the watermark and is stored up to its cursor. */
  ghost predicate Steady(c: Connection, provider: Provider) {
    && Resumable(c, provider)
    && (c.syncStartedAt.Some? ==>
          c.syncFrom == c.lastSyncedAt && Covered(c.orders, WindowPages(c, provider), Position(c)))
  }

  function After(c: Connection, provider: Provider, step: Step): Connection
    requires Resumable(c, provider)
  {
    match step
    case SyncStep(now, weather) => RunSync(c, provider, now, weather)
    case OutsideWrite(o) => c.(orders := c.orders[o.id := o])
  }

  function OpenWindow(c: Connection, now: int): Window {
    if c.syncStartedAt.Some? then Window(c.syncFrom, c.syncStartedAt.value) else Window(c.lastSyncedAt, now)
  }

  /** The window a step completes, if any. */
  function Completed(c: Connection, provider: Provider, step: Step): Option<Window>
    requires Resumable(c, provider)
  {
    if step.SyncStep? && After(c, provider, step).syncStartedAt == None then Some(OpenWindow(c, step.now)) else None
  }

  function WithCompleted(first: Option<Window>, rest: seq<Window>): seq<Window> {
    if first.Some? then [first.value] + rest else rest
  }

  ghost predicate Runs(c: Connection, provider: Provider, steps: seq<Step>, end: Connection, windows: seq<Window>)
    decreases |steps|
  {
    if steps == [] then end == c && windows == []
    else
      && Resumable(c, provider)
      && exists rest: seq<Window> ::
           windows == WithCompleted(Completed(c, provider, steps[0]), rest) &&
           Runs(After(c, provider, steps[0]), provider, steps[1..], end, rest)
  }

  /** Each window starts where the one before ended. */
  predicate Tile(from: Option<int>, windows: seq<Window>, to: Option<int>)
    decreases |windows|
  {
    if windows == [] then to == from else windows[0].from == from && Tile(Some(windows[0].to), windows[1..], to)
  }

  predicate WindowStored(orders: map<ExternalId, PlatformOrder>, provider: Provider, w: Window) {
    forall page :: page in provider(w.from, w.to) ==> Has(orders, page)
  }

  lemma SyncCovers(c: Connection, provider: Provider, now: int, weather: Weather)
    requires Steady(c, provider)
    ensures var s := Started(c, now);
            ChunkDone(s, RunSync(c, provider, now, weather), WindowPages(s, provider), s.syncStartedAt.value)
  {
    var s := Started(c, now);
    ChunkCovers(s, WindowPages(s, provider), s.syncStartedAt.value, weather, 0);
  }

  /** One step: the window is fixed until it completes, completion advances the watermark from the window's start to its
      end with every page of it stored, and nothing stored is lost. */
  lemma StepKeepsSteady(c: Connection, provider: Provider, step: Step)
    requires Steady(c, provider)
    ensures var after := After(c, provider, step);
            && Steady(after, provider) && c.orders.Keys <= after.orders.Keys
            && match Completed(c, provider, step)
               case None =>
                 && after.lastSyncedAt == c.lastSyncedAt
                 && (c.syncStartedAt.Some? ==>
                     OpenWindow(after, 0) == OpenWindow(c, 0) && Position(c) <= Position(after))
               case Some(w) =>
                 && w.from == c.lastSyncedAt && after.lastSyncedAt == Some(w.to)
                 && WindowStored(after.orders, provider, w)
  {
    hide Chunk, Upsert, Has;
    match step {
      case SyncStep(now, weather) => SyncCovers(c, provider, now, weather);
      case OutsideWrite(o) =>
        if c.syncStartedAt.Some? {
          CoveredGrows(c.orders, c.orders[o.id := o], WindowPages(c, provider), Position(c));
        }
    }
  }

  lemma StoredStays(orders: map<ExternalId, PlatformOrder>, more: map<ExternalId, PlatformOrder>, provider: Provider,
                    w: Window)
    requires WindowStored(orders, provider, w) && orders.Keys <= more.Keys
    ensures WindowStored(more, provider, w)
  {
    forall page | page in provider(w.from, w.to) ensures Has(more, page) {
      assert Has(orders, page);
    }
  }

  /** Over every run of chunks with any failures and other writers in between, against a platform that answers alike on
      every request: completed windows tile time from the first watermark to the last without a gap, and all that the
      platform reported for any of them is stored. */
  lemma {:induction false} WindowsTile(c: Connection, provider: Provider, steps: seq<Step>, end: Connection,
                                       windows: seq<Window>)
    requires Steady(c, provider) && Runs(c, provider, steps, end, windows)
    ensures Steady(end, provider) && c.orders.Keys <= end.orders.Keys
    ensures Tile(c.lastSyncedAt, windows, end.lastSyncedAt)
    ensures forall w :: w in windows ==> WindowStored(end.orders, provider, w)
    decreases |steps|
  {
    hide Steady, After, Completed, WindowStored;
    if steps != [] {
      var next, first := After(c, provider, steps[0]), Completed(c, provider, steps[0]);
      var rest: seq<Window> :| windows == WithCompleted(first, rest) && Runs(next, provider, steps[1..], end, rest);
      StepKeepsSteady(c, provider, steps[0]);
      WindowsTile(next, provider, steps[1..], end, rest);
      if first.Some? {
        StoredStays(next.orders, end.orders, provider, first.value);
        assert windows[1..] == rest;
      }
    }
  }

  // ---- Contents ----

  /** What a list of pages reports, in order. */
  function Flat(pages: seq<seq<PlatformOrder>>): seq<PlatformOrder> {
    if pages == [] then [] else pages[0] + Flat(pages[1..])
  }

  /** Each reported order holds what was reported of it last, and every other order is as it was. */
  ghost predicate UpdatedBy(before: map<ExternalId, PlatformOrder>, after: map<ExternalId, PlatformOrder>,
                            reported: seq<PlatformOrder>) {
    forall id ::
      && (id in after <==> id in before || LastOf(reported, id).Some?)
      && (id in after ==> after[id] == if LastOf(reported, id).Some? then LastOf(reported, id).value else before[id])
  }

  lemma {:induction false} LastOfBoth(first: seq<PlatformOrder>, second: seq<PlatformOrder>, id: ExternalId)
    ensures LastOf(first + second, id) == if LastOf(second, id).Some? then LastOf(second, id) else LastOf(first, id)
  {
    if second == [] {
      assert first + second == first;
    } else {
      assert (first + second)[..|first + second| - 1] == first + second[..|second| - 1];
      LastOfBoth(first, second[..|second| - 1], id);
    }
  }

  lemma {:induction false} LastIsReported(reported: seq<PlatformOrder>, id: ExternalId)
    ensures LastOf(reported, id) == None <==> forall o :: o in reported ==> o.id != id
    ensures LastOf(reported, id).Some? ==> LastOf(reported, id).value in reported && LastOf(reported, id).value.id == id
  {
    if reported != [] {
      assert reported == reported[..|reported| - 1] + [reported[|reported| - 1]];
      LastIsReported(reported[..|reported| - 1], id);
    }
  }

  lemma UpsertUpdates(orders: map<ExternalId, PlatformOrder>, page: seq<PlatformOrder>)
    ensures UpdatedBy(orders, Upsert(orders, page), page)
  {
    forall id {
      UpsertIs(orders, page, id);
    }
  }

  lemma UpdatedTwice(x: map<ExternalId, PlatformOrder>, y: map<ExternalId, PlatformOrder>,
                     z: map<ExternalId, PlatformOrder>, first: seq<PlatformOrder>, second: seq<PlatformOrder>)
    requires UpdatedBy(x, y, first) && UpdatedBy(y, z, second)
    ensures UpdatedBy(x, z, first + second)
  {
    hide LastOf;
    forall id {
      LastOfBoth(first, second, id);
    }
  }

  /** Orders of a page, in its order. */
  ghost predicate SomeOf(part: seq<PlatformOrder>, page: seq<PlatformOrder>) { forall o :: o in part ==> o in page }

  lemma {:induction false} KeptIsPart(page: seq<PlatformOrder>, kept: set<ExternalId>)
    ensures SomeOf(Kept(page, kept), page)
  {
    if page != [] {
      assert page == page[..|page| - 1] + [page[|page| - 1]];
      KeptIsPart(page[..|page| - 1], kept);
    }
  }

  /** What a chunk stored: all pages it passed, and at most some orders of the page at which it stopped. */
  ghost predicate ChunkUpdated(c: Connection, after: Connection, pages: Pages, extra: seq<PlatformOrder>) {
    if after.syncStartedAt == None
    then Position(c) < |pages| && UpdatedBy(c.orders, after.orders, Flat(pages[Position(c)..]))
    else && Position(c) <= Position(after) < |pages| && SomeOf(extra, pages[Position(after)])
         && UpdatedBy(c.orders, after.orders, Flat(pages[Position(c)..Position(after)]) + extra)
  }

  lemma StoppedAt(c: Connection, after: Connection, pages: Pages, extra: seq<PlatformOrder>)
    requires Position(c) == Position(after) < |pages| && after.syncStartedAt.Some?
    requires SomeOf(extra, pages[Position(c)]) && UpdatedBy(c.orders, after.orders, extra)
    ensures ChunkUpdated(c, after, pages, extra)
  {
    assert pages[Position(c)..Position(c)] == [] && Flat([]) + extra == extra;
  }

  lemma CompletedAt(c: Connection, after: Connection, pages: Pages)
    requires Position(c) + 1 == |pages| && after.syncStartedAt == None
    requires UpdatedBy(c.orders, after.orders, pages[Position(c)])
    ensures ChunkUpdated(c, after, pages, [])
  {
    var page := pages[Position(c)];
    assert pages[Position(c)..] == [page] && [page][1..] == [] && page + [] == page;
    assert Flat([page]) == page + Flat([]);
  }

  lemma PassedPage(c: Connection, next: Connection, after: Connection, pages: Pages, extra: seq<PlatformOrder>)
    requires Position(next) == Position(c) + 1 < |pages| && UpdatedBy(c.orders, next.orders, pages[Position(c)])
    requires ChunkUpdated(next, after, pages, extra)
    ensures ChunkUpdated(c, after, pages, extra)
  {
    hide UpdatedBy;
    var p := Position(c);
    if after.syncStartedAt == None {
      UpdatedTwice(c.orders, next.orders, after.orders, pages[p], Flat(pages[p + 1..]));
      assert pages[p..][0] == pages[p] && pages[p..][1..] == pages[p + 1..];
    } else {
      var q := Position(after);
      UpdatedTwice(c.orders, next.orders, after.orders, pages[p], Flat(pages[p + 1..q]) + extra);
      assert pages[p..q][0] == pages[p] && pages[p..q][1..] == pages[p + 1..q];
      assert pages[p] + (Flat(pages[p + 1..q]) + extra) == Flat(pages[p..q]) + extra;
    }
  }

  lemma NothingReported(orders: map<ExternalId, PlatformOrder>)
    ensures UpdatedBy(orders, orders, [])
  {
  }

  /** Whatever fails, a chunk brings every order of the pages it passed to what the last of them reported, and touches
      nothing but those and orders of the page at which it stopped. */
  lemma {:induction false} ChunkUpdates(c: Connection, pages: Pages, started: int, weather: Weather, k: nat)
      returns (extra: seq<PlatformOrder>)
    requires Position(c) < |pages| && c.syncStartedAt.Some?
    ensures ChunkUpdated(c, Chunk(c, pages, started, weather, k), pages, extra)
    decreases MAX_PAGES - k
  {
    hide Upsert, Kept, UpdatedBy, ChunkUpdated, SomeOf;
    var page, after := pages[Position(c)], Chunk(c, pages, started, weather, k);
    if k >= MAX_PAGES || weather(k).FetchFails? {
      extra := [];
      NothingReported(c.orders);
      NoneOf(page);
      StoppedAt(c, after, pages, extra);
    } else if weather(k).StoreFails? {
      extra := Kept(page, weather(k).kept);
      KeptIsPart(page, weather(k).kept);
      UpsertUpdates(c.orders, extra);
      StoppedAt(c, after, pages, extra);
    } else {
      UpsertUpdates(c.orders, page);
      if Position(c) + 1 == |pages| && weather(k) != SaveFails {
        extra := [];
        CompletedAt(c, after, pages);
      } else if weather(k) != Fine {
        extra := page;
        AllOf(page);
        StoppedAt(c, after, pages, extra);
      } else {
        var next := c.(orders := Upsert(c.orders, page), cursor := Some(Position(c) + 1));
        extra := ChunkUpdates(next, pages, started, weather, k + 1);
        PassedPage(c, next, after, pages, extra);
      }
    }
  }

  lemma NoneOf(page: seq<PlatformOrder>)
    ensures SomeOf([], page)
  {
  }

  lemma AllOf(page: seq<PlatformOrder>)
    ensures SomeOf(page, page)
  {
  }

  // ---- Contents over runs ----

  /** All that completed windows reported, of the first only what was still to come. */
  function Reported(c: Connection, provider: Provider, windows: seq<Window>): seq<PlatformOrder> {
    if windows == [] then []
    else
      var pages := provider(windows[0].from, windows[0].to);
      Flat(pages[Min(Position(c), |pages|)..]) + AllReported(provider, windows[1..])
  }

  function AllReported(provider: Provider, windows: seq<Window>): seq<PlatformOrder> {
    if windows == [] then [] else Flat(provider(windows[0].from, windows[0].to)) + AllReported(provider, windows[1..])
  }

  /** The order is one that the window still open has reported. */
  ghost predicate OpenReports(c: Connection, provider: Provider, o: PlatformOrder) {
    c.syncStartedAt.Some? && exists page :: page in WindowPages(c, provider) && o in page
  }

  /** How an order stands at the end of a run nobody else wrote it in: as completed windows reported it last, or as it
      was when none did, unless a window still open has updated it already. */
  ghost predicate Follows(c: Connection, end: Connection, provider: Provider, windows: seq<Window>, id: ExternalId) {
    var last := LastOf(Reported(c, provider, windows), id);
    || (id in end.orders && end.orders[id].id == id && OpenReports(end, provider, end.orders[id]))
    || (if last.Some? then id in end.orders && end.orders[id] == last.value
        else (id in end.orders <==> id in c.orders) && (id in end.orders ==> end.orders[id] == c.orders[id]))
  }

  predicate Writes(step: Step, id: ExternalId) { step.OutsideWrite? && step.order.id == id }

  lemma OutsideFollows(c: Connection, end: Connection, provider: Provider, o: PlatformOrder, windows: seq<Window>,
                       id: ExternalId)
    requires o.id != id && Follows(c.(orders := c.orders[o.id := o]), end, provider, windows, id)
    ensures Follows(c, end, provider, windows, id)
  {
    hide LastOf, Flat;
  }

  lemma {:induction false} FlatSplit(pages: seq<seq<PlatformOrder>>, p: nat)
    requires p <= |pages|
    ensures Flat(pages) == Flat(pages[..p]) + Flat(pages[p..])
  {
    if p == 0 {
      assert pages[..0] == [] && pages[0..] == pages;
    } else {
      FlatSplit(pages[1..], p - 1);
      assert pages[..p][1..] == pages[1..][..p - 1] && pages[1..][p - 1..] == pages[p..];
    }
  }

  lemma {:induction false} FlatHolds(pages: seq<seq<PlatformOrder>>, o: PlatformOrder)
    ensures o in Flat(pages) <==> exists page :: page in pages && o in page
  {
    if pages != [] {
      FlatHolds(pages[1..], o);
      assert pages == [pages[0]] + pages[1..];
    }
  }

  /** An open window is the first to complete, and stays open until it does. */
  lemma {:induction false} OpenWindowStays(c: Connection, provider: Provider, steps: seq<Step>, end: Connection,
                                           windows: seq<Window>)
    requires Steady(c, provider) && Runs(c, provider, steps, end, windows) && c.syncStartedAt.Some?
    ensures if windows == [] then end.syncFrom == c.syncFrom && end.syncStartedAt == c.syncStartedAt
            else windows[0] == OpenWindow(c, 0)
    decreases |steps|
  {
    hide Steady, After, Completed;
    if steps != [] {
      var next, first := After(c, provider, steps[0]), Completed(c, provider, steps[0]);
      var rest: seq<Window> :| windows == WithCompleted(first, rest) && Runs(next, provider, steps[1..], end, rest);
      StepKeepsSteady(c, provider, steps[0]);
      StepKeepsWindow(c, provider, steps[0]);
      if first == None {
        OpenWindowStays(next, provider, steps[1..], end, rest);
      }
    }
  }

  lemma StepKeepsWindow(c: Connection, provider: Provider, step: Step)
    requires Steady(c, provider)
    ensures var after := After(c, provider, step);
            && (c.syncStartedAt.Some? && Completed(c, provider, step).Some? ==>
                  Completed(c, provider, step) == Some(OpenWindow(c, 0)))
            && (c.syncStartedAt.Some? && Completed(c, provider, step) == None ==>
                  after.syncStartedAt == c.syncStartedAt && after.syncFrom == c.syncFrom)
  {
    hide Chunk, Upsert, Covered;
    if step.SyncStep? {
      SyncCovers(c, provider, step.now, step.weather);
    }
  }

  /** A chunk that completes its window, and then the rest of the run. */
  lemma CompletedFollows(c: Connection, next: Connection, end: Connection, provider: Provider, w: Window,
                         rest: seq<Window>, id: ExternalId)
    requires Position(c) < |provider(w.from, w.to)| && next.cursor == None
    requires UpdatedBy(c.orders, next.orders, Flat(provider(w.from, w.to)[Position(c)..]))
    requires Follows(next, end, provider, rest, id)
    ensures Follows(c, end, provider, [w] + rest, id)
  {
    hide LastOf, Flat, OpenReports;
    var first := Flat(provider(w.from, w.to)[Position(c)..]);
    assert ([w] + rest)[1..] == rest;
    assert Reported(c, provider, [w] + rest) == first + AllReported(provider, rest);
    WholeWindows(next, provider, rest);
    LastOfBoth(first, AllReported(provider, rest), id);
  }

  lemma WholeWindows(c: Connection, provider: Provider, windows: seq<Window>)
    requires Position(c) == 0
    ensures Reported(c, provider, windows) == AllReported(provider, windows)
  {
    hide Flat;
    if windows != [] {
      var pages := provider(windows[0].from, windows[0].to);
      assert pages[0..] == pages;
    }
  }

  /** A chunk that goes on in its window, and then the rest of the run. */
  lemma ResumedFollows(c: Connection, next: Connection, end: Connection, provider: Provider, windows: seq<Window>,
                       extra: seq<PlatformOrder>, id: ExternalId)
    requires next.syncStartedAt.Some? && var pages := WindowPages(next, provider);
             && Position(c) <= Position(next) < |pages| && SomeOf(extra, pages[Position(next)])
             && UpdatedBy(c.orders, next.orders, Flat(pages[Position(c)..Position(next)]) + extra)
    requires windows == [] ==> end.syncFrom == next.syncFrom && end.syncStartedAt == next.syncStartedAt
    requires windows != [] ==> windows[0] == OpenWindow(next, 0)
    requires Follows(next, end, provider, windows, id)
    ensures Follows(c, end, provider, windows, id)
  {
    hide Flat, LastOf, UpdatedBy;
    var pages, p, q := WindowPages(next, provider), Position(c), Position(next);
    var passed := Flat(pages[p..q]);
    LastOfBoth(passed, extra, id);
    if windows == [] {
      UnfinishedFollows(c, next, end, provider, extra, id);
    } else {
      FlatSplit(pages[p..], q - p);
      assert pages[p..][..q - p] == pages[p..q] && pages[p..][q - p..] == pages[q..];
      var later := Flat(pages[q..]) + AllReported(provider, windows[1..]);
      assert Reported(next, provider, windows) == later;
      assert Reported(c, provider, windows) == passed + later;
      LastOfBoth(passed, later, id);
      if LastOf(later, id) == None {
        NotInExtra(pages, q, extra, later, id);
        UpdatedAt(c.orders, next.orders, passed + extra, id);
      }
    }
  }

  lemma UpdatedAt(before: map<ExternalId, PlatformOrder>, after: map<ExternalId, PlatformOrder>,
                  reported: seq<PlatformOrder>, id: ExternalId)
    requires UpdatedBy(before, after, reported)
    ensures id in after <==> id in before || LastOf(reported, id).Some?
    ensures id in after ==> after[id] == if LastOf(reported, id).Some? then LastOf(reported, id).value else before[id]
  {
  }

  /** What comes again of the page at which a chunk stopped is not in its extra orders alone. */
  lemma NotInExtra(pages: Pages, q: nat, extra: seq<PlatformOrder>, later: seq<PlatformOrder>, id: ExternalId)
    requires q < |pages| && SomeOf(extra, pages[q]) && Flat(pages[q..]) <= later && LastOf(later, id) == None
    ensures LastOf(extra, id) == None
  {
    hide LastOf;
    LastIsReported(later, id);
    LastIsReported(extra, id);
    forall o | o in extra ensures o.id != id {
      assert pages[q] in pages[q..] && o in pages[q];
      FlatHolds(pages[q..], o);
      var k :| 0 <= k < |Flat(pages[q..])| && Flat(pages[q..])[k] == o;
      assert later[k] == o;
    }
  }

  lemma UnfinishedFollows(c: Connection, next: Connection, end: Connection, provider: Provider,
                          extra: seq<PlatformOrder>, id: ExternalId)
    requires next.syncStartedAt.Some? && var pages := WindowPages(next, provider);
             && Position(c) <= Position(next) < |pages| && SomeOf(extra, pages[Position(next)])
             && UpdatedBy(c.orders, next.orders, Flat(pages[Position(c)..Position(next)]) + extra)
    requires end.syncFrom == next.syncFrom && end.syncStartedAt == next.syncStartedAt
    requires Follows(next, end, provider, [], id)
    ensures Follows(c, end, provider, [], id)
  {
    hide Flat, LastOf, UpdatedBy;
    var pages := WindowPages(next, provider);
    var stored := Flat(pages[Position(c)..Position(next)]) + extra;
    assert LastOf([], id) == None by {
      LastIsReported([], id);
    }
    UpdatedAt(c.orders, next.orders, stored, id);
    LastIsReported(stored, id);
    if LastOf(stored, id).Some? {
      var o := LastOf(stored, id).value;
      StoredIsReported(pages, Position(c), Position(next), extra, o);
    }
  }

  lemma StoredIsReported(pages: Pages, p: nat, q: nat, extra: seq<PlatformOrder>, o: PlatformOrder)
    requires p <= q < |pages| && SomeOf(extra, pages[q]) && o in Flat(pages[p..q]) + extra
    ensures exists page :: page in pages && o in page
  {
    if o in extra {
      assert pages[q] in pages && o in pages[q];
    } else {
      FlatHolds(pages[p..q], o);
      var page :| page in pages[p..q] && o in page;
      assert page in pages;
    }
  }

  lemma SyncFollows(c: Connection, provider: Provider, now: int, weather: Weather, end: Connection,
                    rest: seq<Window>, id: ExternalId)
    requires Steady(c, provider) && Follows(RunSync(c, provider, now, weather), end, provider, rest, id)
    requires var next := RunSync(c, provider, now, weather);
             next.syncStartedAt.Some? ==>
               if rest == [] then end.syncFrom == next.syncFrom && end.syncStartedAt == next.syncStartedAt
               else rest[0] == OpenWindow(next, 0)
    ensures Follows(c, end, provider, WithCompleted(Completed(c, provider, SyncStep(now, weather)), rest), id)
  {
    hide Chunk, Follows, UpdatedBy, Flat, SomeOf, Covered;
    var s, next := Started(c, now), RunSync(c, provider, now, weather);
    var pages := WindowPages(s, provider);
    SyncCovers(c, provider, now, weather);
    var extra := ChunkUpdates(s, pages, s.syncStartedAt.value, weather, 0);
    if next.syncStartedAt == None {
      CompletedFollows(s, next, end, provider, OpenWindow(c, now), rest, id);
      SameStart(s, c, end, provider, [OpenWindow(c, now)] + rest, id);
    } else {
      ResumedFollows(s, next, end, provider, rest, extra, id);
      SameStart(s, c, end, provider, rest, id);
    }
  }

  lemma SameStart(s: Connection, c: Connection, end: Connection, provider: Provider, windows: seq<Window>,
                  id: ExternalId)
    requires s.orders == c.orders && Position(s) == Position(c) && Follows(s, end, provider, windows, id)
    ensures Follows(c, end, provider, windows, id)
  {
    hide Flat, LastOf, OpenReports;
  }

  /** Over every run of chunks with any failures, an order nobody else wrote ends with the contents that completed
      windows reported last for it, or as it was when none of them did; only a window still open may have updated it
      already. */
  lemma {:induction false} ContentsFollow(c: Connection, provider: Provider, steps: seq<Step>, end: Connection,
                                          windows: seq<Window>, id: ExternalId)
    requires Steady(c, provider) && Runs(c, provider, steps, end, windows)
    requires forall k :: 0 <= k < |steps| ==> !Writes(steps[k], id)
    ensures Follows(c, end, provider, windows, id)
    decreases |steps|
  {
    hide Steady, RunSync, Follows;
    if steps == [] {
      NothingFollows(c, provider, id);
    } else {
      var next, first := After(c, provider, steps[0]), Completed(c, provider, steps[0]);
      var rest: seq<Window> :| windows == WithCompleted(first, rest) && Runs(next, provider, steps[1..], end, rest);
      StepKeepsSteady(c, provider, steps[0]);
      assert !Writes(steps[0], id);
      ContentsFollow(next, provider, steps[1..], end, rest, id);
      match steps[0] {
        case SyncStep(now, weather) =>
          if next.syncStartedAt.Some? {
            OpenWindowStays(next, provider, steps[1..], end, rest);
          }
          SyncFollows(c, provider, now, weather, end, rest, id);
        case OutsideWrite(o) => OutsideFollows(c, end, provider, o, rest, id);
      }
    }
  }

  lemma NothingFollows(c: Connection, provider: Provider, id: ExternalId)
    ensures Follows(c, c, provider, [], id)
  {
  }

  /** Once a window completes, every order it reported and nobody else wrote meanwhile holds what the window reported of
      it last. */
  lemma WindowContents(c: Connection, provider: Provider, steps: seq<Step>, end: Connection, windows: seq<Window>,
                       w: Window, id: ExternalId)
    requires Steady(c, provider) && c.syncStartedAt == None && end.syncStartedAt == None
    requires Runs(c, provider, steps, end, windows + [w])
    requires forall k :: 0 <= k < |steps| ==> !Writes(steps[k], id)
    ensures var reported := LastOf(Flat(provider(w.from, w.to)), id);
            reported.Some? ==> id in end.orders && end.orders[id] == reported.value
  {
    hide Runs, LastOf, Flat;
    ContentsFollow(c, provider, steps, end, windows + [w], id);
    WholeWindows(c, provider, windows + [w]);
    LastWindow(provider, windows, w);
    LastOfBoth(AllReported(provider, windows), Flat(provider(w.from, w.to)), id);
  }

  lemma {:induction false} LastWindow(provider: Provider, windows: seq<Window>, w: Window)
    ensures AllReported(provider, windows + [w]) == AllReported(provider, windows) + Flat(provider(w.from, w.to))
  {
    hide Flat;
    if windows == [] {
      assert [w][1..] == [];
      assert AllReported(provider, [w]) == Flat(provider(w.from, w.to)) + AllReported(provider, []);
    } else {
      assert (windows + [w])[1..] == windows[1..] + [w];
      LastWindow(provider, windows[1..], w);
    }
  }

  // ---- Progress ----

  lemma {:induction false} FineChunk(c: Connection, pages: Pages, started: int, weather: Weather, k: nat)
    requires Position(c) < |pages| && k <= MAX_PAGES && c.syncStartedAt.Some?
    requires forall j :: weather(j) == Fine
    ensures var after := Chunk(c, pages, started, weather, k);
            if |pages| - Position(c) <= MAX_PAGES - k then after.syncStartedAt == None
            else && after.syncStartedAt == c.syncStartedAt && after.syncFrom == c.syncFrom
                 && Position(after) == Position(c) + MAX_PAGES - k
    decreases MAX_PAGES - k
  {
    hide Upsert;
    if k < MAX_PAGES && Position(c) + 1 < |pages| {
      var next := c.(orders := Upsert(c.orders, pages[Position(c)]), cursor := Some(Position(c) + 1));
      FineChunk(next, pages, started, weather, k + 1);
    }
  }

  /** The connection after n failure-free chunks, or fewer if the window completes before. */
  function FineChunks(c: Connection, provider: Provider, now: int, n: nat): (r: Connection)
    requires Resumable(c, provider) && Steady(c, provider)
    ensures Steady(r, provider)
  {
    if n == 0 then c
    else
      var before := FineChunks(c, provider, now, n - 1);
      if before.syncStartedAt == None && n > 1 then before
      else
        StepKeepsSteady(before, provider, SyncStep(now, _ => Fine));
        RunSync(before, provider, now, _ => Fine)
  }

  /** Without failures a window of n pages takes exactly a fifth of n chunks, rounded up. */
  lemma {:induction false} ChunksNeeded(c: Connection, provider: Provider, now: int, n: nat)
    requires Steady(c, provider) && n > 0
    ensures var pages := WindowPages(Started(c, now), provider);
            var after := FineChunks(c, provider, now, n);
            var left := |pages| - Position(c);
            if n >= (left + 4) / 5 then after.syncStartedAt == None
            else && OpenWindow(after, now) == OpenWindow(c, now) && after.syncStartedAt.Some?
                 && Position(after) == Position(c) + 5 * n
  {
    hide Chunk, Covered;
    var before := FineChunks(c, provider, now, n - 1);
    if n == 1 {
      var s := Started(c, now);
      FineChunk(s, WindowPages(s, provider), s.syncStartedAt.value, _ => Fine, 0);
    } else {
      ChunksNeeded(c, provider, now, n - 1);
      if before.syncStartedAt.Some? {
        var s := Started(before, now);
        FineChunk(s, WindowPages(s, provider), s.syncStartedAt.value, _ => Fine, 0);
      }
    }
  }
}
