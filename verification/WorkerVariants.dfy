/** Two designs the worker rejects: sending paths before the commit, and session-scoped advisory locks. */
module EagerRevalidation {
  import opened WorkerProtocol
  import opened WorkerTheorems

  /** As the protocol, except that the paths are delivered as soon as the job returns them. */
  function EagerStep(site: Site, w: World, a: Action): World {
    if a.Return? && Enabled(site, w, a) then
      var x := w.firings[a.f];
      w.(firings := w.firings[a.f := x.(phase := Returned, paths := a.paths, delivered := Pages(a.paths), queue := [])],
         cache := w.cache - Pages(a.paths))
    else
      Step(site, w, a)
  }

  function EagerExec(site: Site, w: World, trace: seq<Action>): World {
    if trace == [] then w
    else EagerStep(site, EagerExec(site, w, trace[..|trace| - 1]), trace[|trace| - 1])
  }

  lemma EagerOneMore(site: Site, w: World, trace: seq<Action>, a: Action)
    ensures EagerExec(site, w, trace + [a]) == EagerStep(site, EagerExec(site, w, trace), a)
  {
    assert (trace + [a])[..|trace + [a]| - 1] == trace;
  }

  /**
   A render between the delivery and the commit re-caches the old row. Nothing throws, crashes or goes
   undelivered, every firing is over, and yet the page is stale.
   */
  lemma EagerRevalidationGoesStale() returns (site: Site, rows: Rows, trace: seq<Action>, page: Page)
    ensures StaleThoughAllDelivered(site, EagerExec(site, Start(rows), trace), page) && NoFault(trace)
  {
    page, rows := "/leeds", map["tier" := "old"];
    site := Site(map[page := {"tier"}], (name: string) => 0, true);
    trace := EagerFront(page) + EagerTail(page);
    TierPageGoesStale(site, rows, page);
  }

  predicate NoFault(trace: seq<Action>) {
    forall a | a in trace ::
      !a.Crash? && !a.Throw? && !a.ConnectionLost? && !a.CommitUnacknowledged? && !a.RecordOkThrows?
  }

  function EagerFront(page: Page): seq<Action> {
    [Begin(0, SYNC), TryLock(0)] + [Write(0, "tier", "new")] + [Return(0, [page])]
  }

  function EagerTail(page: Page): seq<Action> {
    [Render(page), Commit(0), RecordOk(0), Finish(0)]
  }

  lemma TierPageGoesStale(site: Site, rows: Rows, page: Page)
    requires site.sources == map[page := {"tier"}] && site.lockKey("subscription-sync") == 0
    requires rows == map["tier" := "old"]
    ensures StaleThoughAllDelivered(site, EagerExec(site, Start(rows), EagerFront(page) + EagerTail(page)), page)
  {
    var w := DeliveredBeforeCommit(site, rows, page);
    RenderThenCommit(site, w, page);
    EagerThenFour(site, Start(rows), EagerFront(page), EagerTail(page));
  }

  ghost predicate StaleThoughAllDelivered(site: Site, w: World, page: Page) {
    && Stale(site, w, page)
    && forall f | f in w.firings ::
         w.firings[f].phase.Over? && w.firings[f].committed && w.firings[f].delivered == Pages(w.firings[f].paths)
  }

  lemma EagerThenFour(site: Site, w: World, front: seq<Action>, tail: seq<Action>)
    requires |tail| == 4
    ensures EagerExec(site, w, front + tail) ==
            EagerStep(site, EagerStep(site, EagerStep(site, EagerStep(site, EagerExec(site, w, front),
              tail[0]), tail[1]), tail[2]), tail[3])
  {
    var t1 := front + [tail[0]];
    var t2 := t1 + [tail[1]];
    var t3 := t2 + [tail[2]];
    assert front + tail == t3 + [tail[3]];
    EagerOneMore(site, w, front, tail[0]);
    EagerOneMore(site, w, t1, tail[1]);
    EagerOneMore(site, w, t2, tail[2]);
    EagerOneMore(site, w, t3, tail[3]);
  }

  lemma InsideTheJob(site: Site, rows: Rows)
    requires site.lockKey("subscription-sync") == 0
    ensures EagerExec(site, Start(rows), [Begin(0, SYNC), TryLock(0)]) ==
            World([rows], [], map[0 := Firing(SYNC, 0, InJob, map[], [], false, {}, [], false)],
                       map[0 := 0], map[], [])
  {
    var w1 := EagerStep(site, Start(rows), Begin(0, SYNC));
    EagerOneMore(site, Start(rows), [], Begin(0, SYNC));
    assert [Begin(0, SYNC)] == [] + [Begin(0, SYNC)];
    var w2 := EagerStep(site, w1, TryLock(0));
    assert w2 == World([rows], [], map[0 := Firing(SYNC, 0, InJob, map[], [], false, {}, [], false)],
                       map[0 := 0], map[], []);
    EagerOneMore(site, Start(rows), [Begin(0, SYNC)], TryLock(0));
    assert [Begin(0, SYNC), TryLock(0)] == [Begin(0, SYNC)] + [TryLock(0)];
  }

  lemma DeliveredBeforeCommit(site: Site, rows: Rows, page: Page) returns (w: World)
    requires site.sources == map[page := {"tier"}] && site.lockKey("subscription-sync") == 0
    ensures w == EagerExec(site, Start(rows), EagerFront(page))
    ensures w == World([rows], [],
                       map[0 := Firing(SYNC, 0, Returned, map["tier" := "new"], [page], false, {page}, [], false)],
                       map[0 := 0], map[], [])
  {
    InsideTheJob(site, rows);
    var w2 := EagerExec(site, Start(rows), [Begin(0, SYNC), TryLock(0)]);
    var w3 := EagerStep(site, w2, Write(0, "tier", "new"));
    assert w3.firings[0].writes == map["tier" := "new"];
    EagerOneMore(site, Start(rows), [Begin(0, SYNC), TryLock(0)], Write(0, "tier", "new"));
    assert Pages([page]) == {page};
    w := EagerStep(site, w3, Return(0, [page]));
    EagerOneMore(site, Start(rows), [Begin(0, SYNC), TryLock(0)] + [Write(0, "tier", "new")], Return(0, [page]));
  }

  lemma RenderThenCommit(site: Site, w: World, page: Page)
    requires site.sources == map[page := {"tier"}]
    requires w == World([map["tier" := "old"]], [],
                        map[0 := Firing(SYNC, 0, Returned, map["tier" := "new"], [page], false, {page}, [], false)],
                        map[0 := 0], map[], [])
    ensures StaleThoughAllDelivered(
              site,
              EagerStep(site, EagerStep(site, EagerStep(site, EagerStep(site, w, Render(page)), Commit(0)),
                                        RecordOk(0)), Finish(0)),
              page)
  {
    var rows, updated := map["tier" := "old"], map["tier" := "new"];
    assert RenderPage(site, page, rows) == rows;
    var w1 := EagerStep(site, w, Render(page));
    assert w1 == w.(cache := map[page := Cached(0, rows)]);
    var w2 := EagerCommit(site, w1, rows, updated, page);
    RecordThenFinish(site, w2, page);
  }

  lemma RecordThenFinish(site: Site, w: World, page: Page)
    requires site.sources == map[page := {"tier"}]
    requires w == World([map["tier" := "old"], map["tier" := "new"]], [0],
                        map[0 := Firing(SYNC, 0, Committed, map["tier" := "new"], [page], true, {page}, [], false)],
                        map[], map[page := Cached(0, map["tier" := "old"])], [])
    ensures StaleThoughAllDelivered(site, EagerStep(site, EagerStep(site, w, RecordOk(0)), Finish(0)), page)
  {
    var x := w.firings[0];
    var w3 := EagerStep(site, w, RecordOk(0));
    assert w3.firings == map[0 := x.(phase := Recorded)];
    var w4 := EagerStep(site, w3, Finish(0));
    assert w4.firings == map[0 := x.(phase := Over)];
    assert w4.versions == w.versions && w4.cache == w.cache;
    assert RenderPage(site, page, Live(w4))["tier"] == "new";
  }

  lemma EagerCommit(site: Site, w: World, rows: Rows, updated: Rows, page: Page) returns (w': World)
    requires rows.Keys == updated.Keys
    requires w == World([rows], [], map[0 := Firing(SYNC, 0, Returned, updated, [page], false, {page}, [], false)],
                        map[0 := 0], map[page := Cached(0, rows)], [])
    ensures w' == EagerStep(site, w, Commit(0))
    ensures w' == World([rows, updated], [0],
                        map[0 := Firing(SYNC, 0, Committed, updated, [page], true, {page}, [], false)],
                        map[], map[page := Cached(0, rows)], [])
  {
    var x := w.firings[0];
    assert NextLocks(w.locks, 0, x, x.(phase := Committed)) == map[];
    assert rows + updated == updated;
    w' := EagerStep(site, w, Commit(0));
  }
}

/**
 The earlier design: pg_try_advisory_lock and pg_advisory_unlock, each on whichever pooled connection
 it is given. A session may take its own lock again; unlocking on another session does nothing.
 */
module SessionLocks {
  import opened LockKeys
  import opened Wrappers

  type Connection = nat

  datatype Held = Held(on: Connection, count: nat)
  datatype World = World(held: map<Int64, Held>, inJob: map<Id, Int64>)
  datatype Action = Acquire(f: Id, key: Int64, on: Connection) | Unlock(f: Id, on: Connection)

  const EMPTY := World(map[], map[])

  function Step(w: World, a: Action): World {
    match a
    case Acquire(f, key, on) =>
      if f in w.inJob then w
      else if key !in w.held then World(w.held[key := Held(on, 1)], w.inJob[f := key])
      else if w.held[key].on == on then World(w.held[key := Held(on, w.held[key].count + 1)], w.inJob[f := key])
      else w
    case Unlock(f, on) =>
      if f !in w.inJob then w
      else
        var key := w.inJob[f];
        var inJob := w.inJob - {f};
        if key in w.held && w.held[key].on == on && w.held[key].count > 1 then
          World(w.held[key := Held(on, w.held[key].count - 1)], inJob)
        else if key in w.held && w.held[key].on == on then World(w.held - {key}, inJob)
        else World(w.held, inJob)
  }

  function Exec(w: World, trace: seq<Action>): World
    decreases |trace|
  {
    if trace == [] then w else Exec(Step(w, trace[0]), trace[1..])
  }

  function Count(w: World, key: Int64): nat {
    if key in w.held then w.held[key].count else 0
  }

  function Users(w: World, key: Int64): set<Id> {
    set f | f in w.inJob && w.inJob[f] == key
  }

  /** How many times a key is held beyond the firings that are running under it. */
  function Leaked(w: World, key: Int64): int {
    Count(w, key) - |Users(w, key)|
  }

  ghost predicate Counted(w: World) {
    forall k | k in w.held :: w.held[k].count >= 1
  }

  lemma UsersOnEntry(w: World, f: Id, entered: Int64, w': World, key: Int64)
    requires f !in w.inJob && w'.inJob == w.inJob[f := entered]
    ensures |Users(w', key)| == |Users(w, key)| + if entered == key then 1 else 0
  {
    assert Users(w', key) == if entered == key then Users(w, key) + {f} else Users(w, key);
  }

  lemma UsersOnExit(w: World, f: Id, w': World, key: Int64)
    requires f in w.inJob && w'.inJob == w.inJob - {f}
    ensures |Users(w', key)| == |Users(w, key)| - if w.inJob[f] == key then 1 else 0
  {
    assert Users(w', key) == if w.inJob[f] == key then Users(w, key) - {f} else Users(w, key);
  }

  lemma CountAfter(w: World, a: Action, key: Int64)
    requires Counted(w)
    ensures var w' := Step(w, a);
            && Counted(w')
            && (if w'.inJob == w.inJob then w' == w
                else if a.Acquire? then
                  a.f !in w.inJob && w'.inJob == w.inJob[a.f := a.key]
                  && Count(w', key) == Count(w, key) + if a.key == key then 1 else 0
                else
                  a.f in w.inJob && w'.inJob == w.inJob - {a.f}
                  && (Count(w', key) == Count(w, key)
                      || (w.inJob[a.f] == key && Count(w', key) == Count(w, key) - 1)))
  {
  }

  lemma StepNeverRepairs(w: World, a: Action, key: Int64)
    requires Counted(w)
    ensures Counted(Step(w, a))
    ensures Leaked(Step(w, a), key) >= Leaked(w, key)
  {
    var w' := Step(w, a);
    CountAfter(w, a, key);
    if w'.inJob != w.inJob {
      if a.Acquire? {
        UsersOnEntry(w, a.f, a.key, w', key);
      } else {
        UsersOnExit(w, a.f, w', key);
      }
    }
  }

  /** A leaked key stays held on its connection for good: every firing on another connection is refused. */
  lemma {:induction false} LeakIsForever(w: World, key: Int64, trace: seq<Action>)
    requires Counted(w) && Leaked(w, key) >= 1
    decreases |trace|
    ensures var w' := Exec(w, trace);
            && key in w.held && key in w'.held && w'.held[key].on == w.held[key].on
            && forall f, on | on != w.held[key].on && f !in w'.inJob :: f !in Step(w', Acquire(f, key, on)).inJob
  {
    if trace != [] {
      var a := trace[0];
      StepNeverRepairs(w, a, key);
      assert Step(w, a).held[key].on == w.held[key].on;
      LeakIsForever(Step(w, a), key, trace[1..]);
    }
  }

  /** One firing, unlocked on another connection of the pool, leaks its key with nothing running. */
  lemma SessionLockLeaks(key: Int64)
    ensures var w := Exec(EMPTY, [Acquire(0, key, 0), Unlock(0, 1)]);
            w.inJob == map[] && Counted(w) && Leaked(w, key) == 1
  {
    var w1 := Step(EMPTY, Acquire(0, key, 0));
    assert [Acquire(0, key, 0), Unlock(0, 1)][1..] == [Unlock(0, 1)];
    var w2 := Step(w1, Unlock(0, 1));
    assert w2 == World(map[key := Held(0, 1)], map[]);
    assert Users(w2, key) == {};
    assert Exec(w2, []) == w2;
    assert [Unlock(0, 1)][1..] == [];
  }

  /** Two firings given the same connection are both inside the job. */
  lemma SessionLockOverlaps(key: Int64)
    ensures Exec(EMPTY, [Acquire(0, key, 0), Acquire(1, key, 0)]).inJob == map[0 := key, 1 := key]
  {
    var w1 := Step(EMPTY, Acquire(0, key, 0));
    assert [Acquire(0, key, 0), Acquire(1, key, 0)][1..] == [Acquire(1, key, 0)];
    var w2 := Step(w1, Acquire(1, key, 0));
    assert [Acquire(1, key, 0)][1..] == [];
    assert Exec(w2, []) == w2;
  }
}
