/**
 The worker's run protocol as a transition system: firings of scheduled jobs, each in its own
 transaction under a transaction-scoped advisory lock, the rows they commit, the job_runs log, and
 the web container's page cache. Any action of any firing may happen next, and so may a render.
 */
module WorkerProtocol {
  import opened LockKeys
  import opened Wrappers

  type Row = string
  type Value = string  // a deleted row is a row holding a tombstone value
  type Rows = map<Row, Value>
  type Page = string

  /** A schedule() call: `lock` defaults to the job's own name. */
  datatype Job = Job(name: string, lock: Option<string>) {
    function LockName(): string {
      if lock.Some? then lock.value else name
    }
  }

  /**
   Which rows each page is rendered from, the key a lock name hashes to, and whether the revalidation
   secret and the web container's address are set.
   */
  datatype Site = Site(sources: map<Page, set<Row>>, lockKey: string -> Int64, configured: bool)

  datatype Phase =
    | Opened     // transaction open, lock not tried yet
    | Refused    // lock held elsewhere, empty transaction still open
    | InJob      // lock held, the job is running
    | Returned   // the job returned its paths, transaction still open
    | Severed    // the connection was lost under the running job: rolled back, lock gone, nobody told it
    | Committed  // the transaction call came back, the ok row is not inserted yet
    | Recorded   // ok row inserted, revalidation may still have batches to send
    | Failing    // in the catch block
    | Over

  /**
   `paths` is what the job returned, `queue` what is still to be sent of it, and `refused` whether the lock was
   held elsewhere when it was tried.
   */
  datatype Firing = Firing(job: Job, key: Int64, phase: Phase, writes: Rows, paths: seq<Page>,
                           committed: bool, delivered: set<Page>, queue: seq<Page>, refused: bool) {
    predicate InsideJob() {
      phase.InJob? || phase.Returned?
    }
    /** Its callback has the lock's word that it may run, whether or not the transaction still stands. */
    predicate Running() {
      InsideJob() || phase.Severed?
    }
    predicate TransactionOpen() {
      phase.Opened? || phase.Refused? || InsideJob()
    }
  }

  /** What a page was rendered from: the number of the committed version, and its content. */
  datatype Cached = Cached(version: nat, content: Rows)

  datatype RunRow = RunRow(firing: Id, job: string, ok: bool, key: Int64)

  /** versions[j + 1] is what commits[j] made of versions[j]; the last version is what is live. */
  datatype World = World(versions: seq<Rows>, commits: seq<Id>, firings: map<Id, Firing>,
                         locks: map<Int64, Id>, cache: map<Page, Cached>, runs: seq<RunRow>)

  datatype Action =
    | Begin(f: Id, job: Job)
    | BeginFails(f: Id, job: Job)
    | TryLock(f: Id)
    | Write(f: Id, row: Row, value: Value)
    | Return(f: Id, paths: seq<Page>)
    | Throw(f: Id)                      // the lock query, the job or COMMIT itself throws
    | ConnectionLost(f: Id)             // the server ends the transaction under the running job
    | Commit(f: Id)
    | CommitUnacknowledged(f: Id)       // committed by the database, reported as a throw
    | RecordOk(f: Id)
    | RecordOkThrows(f: Id, stored: bool)  // its answer may be all that is lost
    | Deliver(f: Id, accepted: bool)    // the web container takes the next slice of paths, or does not
    | Finish(f: Id)
    | RecordFailed(f: Id, stored: bool)
    | Crash(f: Id)
    | Render(page: Page)

  function RenderPage(site: Site, page: Page, rows: Rows): Rows
    requires page in site.sources
  {
    map r | r in rows && r in site.sources[page] :: rows[r]
  }

  /** A job returns every page that reads a row it wrote. */
  predicate Covers(site: Site, writes: Rows, paths: seq<Page>) {
    forall p | p in site.sources && p !in paths :: site.sources[p] !! writes.Keys
  }

  const MAX_PATHS_PER_REQUEST := 100

  /** Each path once, in order of first occurrence. */
  function Unique(paths: seq<Page>): seq<Page> {
    if paths == [] then []
    else
      var front, last := paths[..|paths| - 1], paths[|paths| - 1];
      Unique(front) + if last in front then [] else [last]
  }

  lemma {:induction false} UniqueKeepsMembers(paths: seq<Page>, page: Page)
    ensures page in Unique(paths) <==> page in paths
  {
    if paths != [] {
      var front, last := paths[..|paths| - 1], paths[|paths| - 1];
      UniqueKeepsMembers(front, page);
      assert paths == front + [last];
    }
  }

  function Pages(paths: seq<Page>): set<Page> {
    set p | p in paths
  }

  function SliceLength(queue: seq<Page>): nat {
    if |queue| < MAX_PATHS_PER_REQUEST then |queue| else MAX_PATHS_PER_REQUEST
  }

  /** The paths of the next request. */
  function NextSlice(queue: seq<Page>): seq<Page> {
    queue[..SliceLength(queue)]
  }

  function Start(rows: Rows): World {
    World([rows], [], map[], map[], map[], [])
  }

  function Live(w: World): Rows
    requires w.versions != []
  {
    w.versions[|w.versions| - 1]
  }

  predicate In(w: World, f: Id, phase: Phase) {
    f in w.firings && w.firings[f].phase == phase
  }

  /** The code's program order: which action a firing in a given phase can take next. */
  predicate CanMove(site: Site, x: Firing, a: Action) {
    match a
    case TryLock(_) => x.phase.Opened?
    case Write(_, _, _) => x.phase.InJob?
    case Return(_, paths) => x.phase.InJob? && Covers(site, x.writes, paths)
    case Throw(_) => x.TransactionOpen() || x.phase.Severed?
    case ConnectionLost(_) => x.InsideJob()
    case Commit(_) => x.phase.Returned? || x.phase.Refused?
    case CommitUnacknowledged(_) => x.phase.Returned?
    case RecordOk(_) => x.phase.Committed?
    case RecordOkThrows(_, _) => x.phase.Committed?
    case Deliver(_, _) => x.phase.Recorded? && site.configured && x.queue != []
    case Finish(_) => x.phase.Recorded? && (x.queue == [] || !site.configured)
    case RecordFailed(_, _) => x.phase.Failing?
    case Crash(_) => !x.phase.Over?
    case Begin(_, _) => false
    case BeginFails(_, _) => false
    case Render(_) => false
  }

  predicate Enabled(site: Site, w: World, a: Action) {
    && w.versions != []
    && if a.Render? then a.page in site.sources
       else if a.f in w.firings then CanMove(site, w.firings[a.f], a)
       else a.Begin? || a.BeginFails?
  }

  function NewFiring(site: Site, job: Job, phase: Phase): Firing {
    Firing(job, site.lockKey(job.LockName()), phase, map[], [], false, {}, [], false)
  }

  /** A rollback drops the transaction's writes; a firing without an open transaction has none to drop. */
  function RolledBack(x: Firing, next: Phase): Firing {
    if x.TransactionOpen() then x.(phase := next, writes := map[]) else x.(phase := next)
  }

  function Move(x: Firing, a: Action, lockFree: bool): Firing {
    match a
    case TryLock(_) => x.(phase := if lockFree then InJob else Refused, refused := !lockFree)
    case Write(_, row, value) => x.(writes := x.writes[row := value])
    case Return(_, paths) => x.(phase := Returned, paths := paths, queue := Unique(paths))
    case Throw(_) => RolledBack(x, Failing)
    case ConnectionLost(_) => RolledBack(x, Severed)
    case Commit(_) =>
      if x.phase.Refused? then x.(phase := Over) else x.(phase := Committed, committed := true)
    case CommitUnacknowledged(_) => x.(phase := Failing, committed := true)
    case RecordOk(_) => x.(phase := Recorded)
    case RecordOkThrows(_, _) => x.(phase := Failing)
    case Deliver(_, accepted) =>
      x.(delivered := x.delivered + if accepted then Pages(NextSlice(x.queue)) else {},
         queue := x.queue[SliceLength(x.queue)..])
    case Finish(_) => x.(phase := Over)
    case RecordFailed(_, _) => x.(phase := Over)
    case Crash(_) => RolledBack(x, Over)
    case Begin(_, _) => x
    case BeginFails(_, _) => x
    case Render(_) => x
  }

  /** The database takes a key for the transaction that asked and drops it when that transaction ends. */
  function NextLocks(locks: map<Int64, Id>, f: Id, x: Firing, x': Firing): map<Int64, Id> {
    if x.InsideJob() == x'.InsideJob() then locks
    else if x'.InsideJob() then locks[x.key := f]
    else map k | k in locks && locks[k] != f :: locks[k]
  }

  /** The status of the row an action leaves in job_runs, if it leaves one. */
  function StatusLeft(a: Action): Option<bool> {
    if a.RecordOk? || (a.RecordOkThrows? && a.stored) then Some(true)
    else if a.RecordFailed? && a.stored then Some(false)
    else None
  }

  function RunsAfter(w: World, f: Id, x: Firing, status: Option<bool>): seq<RunRow> {
    if status.Some? then w.runs + [RunRow(f, x.job.name, status.value, x.key)] else w.runs
  }

  function Apply(site: Site, w: World, a: Action): World
    requires Enabled(site, w, a)
  {
    if a.Render? then
      w.(cache := w.cache[a.page := Cached(|w.versions| - 1, RenderPage(site, a.page, Live(w)))])
    else if a.f !in w.firings then
      w.(firings := w.firings[a.f := NewFiring(site, a.job, if a.Begin? then Opened else Failing)])
    else
      var x := w.firings[a.f];
      var x' := Move(x, a, x.key !in w.locks);
      var commits := x'.committed && !x.committed;
      World(if commits then w.versions + [Live(w) + x.writes] else w.versions,
            if commits then w.commits + [a.f] else w.commits,
            w.firings[a.f := x'],
            NextLocks(w.locks, a.f, x, x'),
            if a.Deliver? && a.accepted then w.cache - Pages(NextSlice(x.queue)) else w.cache,
            RunsAfter(w, a.f, x, StatusLeft(a)))
  }

  /** An action that is not possible now changes nothing, so every action sequence is an interleaving. */
  function Step(site: Site, w: World, a: Action): World {
    if Enabled(site, w, a) then Apply(site, w, a) else w
  }

  function Exec(site: Site, w: World, trace: seq<Action>): World {
    if trace == [] then w
    else Step(site, Exec(site, w, trace[..|trace| - 1]), trace[|trace| - 1])
  }

  lemma {:induction false} ExecAppend(site: Site, w: World, a: seq<Action>, b: seq<Action>)
    ensures Exec(site, w, a + b) == Exec(site, Exec(site, w, a), b)
  {
    if b == [] {
      assert a + b == a;
    } else {
      var front := b[..|b| - 1];
      ExecAppend(site, w, a, front);
      assert (a + b)[..|a + b| - 1] == a + front;
    }
  }

  // ---- What every step keeps -------------------------------------------------------------------

  ghost predicate FiringOk(site: Site, x: Firing) {
    && x.key == site.lockKey(x.job.LockName())
    && (forall p | p in x.delivered :: p in x.paths)
    && (forall p | p in x.queue :: p in x.paths)
    && (x.phase.Returned? || x.phase.Committed? ==> x.queue == Unique(x.paths))
    && (!x.committed ==> x.delivered == {})
    && (x.TransactionOpen() ==> !x.committed)
    && (x.phase.Committed? || x.phase.Recorded? ==> x.committed)
    && (x.phase.Returned? || x.committed ==> Covers(site, x.writes, x.paths))
    && (x.phase.Committed? || x.phase.Failing? ==> x.delivered == {})
    && (x.phase.Severed? ==> !x.committed)
    && (x.refused ==> !x.committed && (x.phase.Refused? || x.phase.Failing? || x.phase.Over?))
    && (x.phase.Refused? ==> x.refused)
  }

  ghost predicate FiringsOk(site: Site, w: World) {
    forall f | f in w.firings :: FiringOk(site, w.firings[f])
  }

  /** The lock table holds exactly the keys of the firings inside their jobs. */
  ghost predicate LocksOk(w: World) {
    && (forall k | k in w.locks ::
          w.locks[k] in w.firings && w.firings[w.locks[k]].InsideJob() && w.firings[w.locks[k]].key == k)
    && (forall f | f in w.firings && w.firings[f].InsideJob() ::
          w.firings[f].key in w.locks && w.locks[w.firings[f].key] == f)
  }

  ghost predicate HistoryOk(w: World) {
    && |w.versions| == |w.commits| + 1
    && (forall j | 0 <= j < |w.commits| ::
          w.commits[j] in w.firings && w.firings[w.commits[j]].committed
          && w.versions[j + 1] == w.versions[j] + w.firings[w.commits[j]].writes)
    && (forall i, j | 0 <= i < j < |w.commits| :: w.commits[i] != w.commits[j])
    && (forall f | f in w.firings && w.firings[f].committed :: f in w.commits)
  }

  /** A cached page is a whole committed version, and no later commit that named it has been delivered. */
  ghost predicate CacheOk(site: Site, w: World)
    requires HistoryOk(w)
  {
    forall p | p in w.cache ::
      && p in site.sources
      && w.cache[p].version < |w.versions|
      && w.cache[p].content == RenderPage(site, p, w.versions[w.cache[p].version])
      && forall j | w.cache[p].version <= j < |w.commits| :: p !in w.firings[w.commits[j]].delivered
  }

  /** What a firing that has a row of a status must have come to. */
  predicate Earned(x: Firing, ok: bool) {
    if ok then x.committed && (x.phase.Recorded? || x.phase.Failing? || x.phase.Over?) else x.phase.Over?
  }

  /** A firing's second row, if it has one, is a failed row after an ok one. */
  ghost predicate RunsOk(w: World) {
    && (forall i | 0 <= i < |w.runs| ::
          w.runs[i].firing in w.firings
          && var x := w.firings[w.runs[i].firing];
             w.runs[i].job == x.job.name && w.runs[i].key == x.key && Earned(x, w.runs[i].ok))
    && (forall i, j | 0 <= i < j < |w.runs| && w.runs[i].firing == w.runs[j].firing ::
          w.runs[i].ok && !w.runs[j].ok)
    && (forall f | f in w.firings && w.firings[f].phase.Recorded? ::
          exists i :: 0 <= i < |w.runs| && w.runs[i].firing == f && w.runs[i].ok)
  }

  ghost predicate Inv(site: Site, w: World) {
    FiringsOk(site, w) && LocksOk(w) && HistoryOk(w) && CacheOk(site, w) && RunsOk(w)
  }

  lemma MoveKeepsFiringOk(site: Site, x: Firing, a: Action, lockFree: bool)
    requires FiringOk(site, x) && CanMove(site, x, a)
    ensures var x' := Move(x, a, lockFree);
            && FiringOk(site, x')
            && x'.job == x.job && x'.key == x.key
            && (x.committed ==> x'.committed)
            && (x'.committed ==> x'.writes == x.writes)
            && (x'.InsideJob() && !x.InsideJob() ==> lockFree)
            && (forall ok :: Earned(x, ok) ==> Earned(x', ok))
            && (x'.phase.Recorded? ==> x.phase.Recorded? || a.RecordOk?)
            && (!(a.Deliver? && a.accepted) ==> x'.delivered == x.delivered)
  {
    if a.Return? {
      forall p | p in Unique(a.paths) ensures p in a.paths {
        UniqueKeepsMembers(a.paths, p);
      }
    }
  }

  lemma MoveKeepsLocks(w: World, w': World, f: Id, x': Firing)
    requires LocksOk(w) && f in w.firings && w'.firings == w.firings[f := x']
    requires x'.key == w.firings[f].key && w'.locks == NextLocks(w.locks, f, w.firings[f], x')
    requires x'.InsideJob() && !w.firings[f].InsideJob() ==> x'.key !in w.locks
    ensures LocksOk(w')
  {
  }

  lemma MoveKeepsHistory(w: World, w': World, f: Id, x': Firing)
    requires HistoryOk(w) && f in w.firings && w'.firings == w.firings[f := x']
    requires w.firings[f].committed == x'.committed
    requires x'.committed ==> x'.writes == w.firings[f].writes
    requires w'.versions == w.versions && w'.commits == w.commits
    ensures HistoryOk(w')
  {
  }

  lemma CommitKeepsHistory(w: World, w': World, f: Id, x': Firing)
    requires HistoryOk(w) && f in w.firings && w'.firings == w.firings[f := x']
    requires !w.firings[f].committed && x'.committed && x'.writes == w.firings[f].writes
    requires w'.versions == w.versions + [Live(w) + x'.writes] && w'.commits == w.commits + [f]
    ensures HistoryOk(w')
  {
    assert f !in w.commits;
    assert w'.commits[|w.commits|] == f;
    forall g | g in w'.firings && w'.firings[g].committed ensures g in w'.commits {
      assert g != f ==> g in w.commits;
    }
    forall j | 0 <= j < |w'.commits|
      ensures w'.commits[j] in w'.firings && w'.firings[w'.commits[j]].committed
              && w'.versions[j + 1] == w'.versions[j] + w'.firings[w'.commits[j]].writes
    {
      assert j < |w.commits| ==> w'.commits[j] == w.commits[j] && w.commits[j] != f;
    }
  }

  /** Nothing new delivered; a commit, if any, is of a firing that has delivered nothing. */
  lemma MoveKeepsCache(site: Site, w: World, w': World, f: Id)
    requires HistoryOk(w) && CacheOk(site, w) && HistoryOk(w')
    requires f in w.firings && f in w'.firings && w'.firings == w.firings[f := w'.firings[f]]
    requires w'.cache == w.cache && w'.firings[f].delivered == w.firings[f].delivered
    requires w.versions <= w'.versions
    requires w'.commits == w.commits || (w'.commits == w.commits + [f] && w.firings[f].delivered == {})
    ensures CacheOk(site, w')
  {
    forall p, j | p in w'.cache && w'.cache[p].version <= j < |w'.commits|
      ensures p !in w'.firings[w'.commits[j]].delivered
    {
      if j < |w.commits| {
        assert w'.commits[j] == w.commits[j];
      }
    }
    forall p | p in w'.cache
      ensures w'.cache[p].content == RenderPage(site, p, w'.versions[w'.cache[p].version])
    {
      assert w'.versions[w.cache[p].version] == w.versions[w.cache[p].version];
    }
  }

  lemma DeliverKeepsCache(site: Site, w: World, w': World, f: Id, batch: set<Page>)
    requires HistoryOk(w) && CacheOk(site, w) && HistoryOk(w')
    requires f in w.firings && f in w'.firings && w'.firings == w.firings[f := w'.firings[f]]
    requires w'.firings[f].delivered == w.firings[f].delivered + batch
    requires w'.versions == w.versions && w'.commits == w.commits && w'.cache == w.cache - batch
    ensures CacheOk(site, w')
  {
    forall p, j | p in w'.cache && w'.cache[p].version <= j < |w'.commits|
      ensures p !in w'.firings[w'.commits[j]].delivered
    {
      assert p in w.cache && p !in batch;
    }
  }

  lemma MoveKeepsRuns(w: World, w': World, f: Id, x': Firing)
    requires RunsOk(w) && f in w.firings && w'.firings == w.firings[f := x'] && w'.runs == w.runs
    requires var x := w.firings[f];
             && x'.job == x.job && x'.key == x.key
             && (forall ok :: Earned(x, ok) ==> Earned(x', ok))
             && (x'.phase.Recorded? ==> x.phase.Recorded?)
    ensures RunsOk(w')
  {
    forall g | g in w'.firings && w'.firings[g].phase.Recorded?
      ensures exists i :: 0 <= i < |w'.runs| && w'.runs[i].firing == g && w'.runs[i].ok
    {
      assert g in w.firings && w.firings[g].phase.Recorded?;
    }
  }

  lemma RecordKeepsRuns(w: World, w': World, f: Id, x': Firing, ok: bool)
    requires RunsOk(w) && f in w.firings && w'.firings == w.firings[f := x']
    requires w'.runs == RunsAfter(w, f, w.firings[f], Some(ok))
    requires var x := w.firings[f];
             && x'.job == x.job && x'.key == x.key
             && (if ok then x.phase.Committed? else x.phase.Failing?)
             && Earned(x', ok) && (Earned(x, true) ==> Earned(x', true))
             && (x'.phase.Recorded? ==> ok)
    ensures RunsOk(w')
  {
    forall g | g in w'.firings && w'.firings[g].phase.Recorded?
      ensures exists i :: 0 <= i < |w'.runs| && w'.runs[i].firing == g && w'.runs[i].ok
    {
      if g == f {
        assert w'.runs[|w.runs|].firing == f;
      } else {
        assert g in w.firings && w.firings[g].phase.Recorded?;
        var i :| 0 <= i < |w.runs| && w.runs[i].firing == g && w.runs[i].ok;
        assert w'.runs[i] == w.runs[i];
      }
    }
  }

  lemma RenderKeepsInv(site: Site, w: World, page: Page)
    requires Inv(site, w) && page in site.sources
    ensures Inv(site, Apply(site, w, Render(page)))
  {
    var w' := Apply(site, w, Render(page));
    assert w'.firings == w.firings && w'.locks == w.locks && w'.runs == w.runs;
    assert w'.versions == w.versions && w'.commits == w.commits;
  }

  lemma BeginKeepsInv(site: Site, w: World, a: Action)
    requires Inv(site, w) && (a.Begin? || a.BeginFails?) && a.f !in w.firings
    ensures Inv(site, Apply(site, w, a))
  {
    var x := NewFiring(site, a.job, if a.Begin? then Opened else Failing);
    NewFiringKeepsTables(site, w, a.f, x);
    NewFiringKeepsCacheAndLog(site, w, a.f, x);
  }

  lemma NewFiringKeepsTables(site: Site, w: World, f: Id, x: Firing)
    requires FiringsOk(site, w) && LocksOk(w) && HistoryOk(w) && f !in w.firings
    requires FiringOk(site, x) && !x.InsideJob() && !x.committed
    ensures var w' := w.(firings := w.firings[f := x]); FiringsOk(site, w') && LocksOk(w') && HistoryOk(w')
  {
  }

  lemma NewFiringKeepsCacheAndLog(site: Site, w: World, f: Id, x: Firing)
    requires HistoryOk(w) && CacheOk(site, w) && RunsOk(w) && f !in w.firings && !x.phase.Recorded?
    requires HistoryOk(w.(firings := w.firings[f := x]))
    ensures var w' := w.(firings := w.firings[f := x]); CacheOk(site, w') && RunsOk(w')
  {
    var w' := w.(firings := w.firings[f := x]);
    forall g | g in w'.firings && w'.firings[g].phase.Recorded?
      ensures exists i :: 0 <= i < |w'.runs| && w'.runs[i].firing == g && w'.runs[i].ok
    {
      assert g in w.firings && w.firings[g].phase.Recorded?;
    }
  }

  /** What an action of a firing that has begun makes of the world, part by part. */
  ghost predicate Moved(site: Site, w: World, a: Action, w': World)
    requires w.versions != [] && !a.Render? && a.f in w.firings
  {
    var x := w.firings[a.f];
    var x' := Move(x, a, x.key !in w.locks);
    var commits := x'.committed && !x.committed;
    && w'.firings == w.firings[a.f := x'] && w'.locks == NextLocks(w.locks, a.f, x, x')
    && w'.versions == (if commits then w.versions + [Live(w) + x.writes] else w.versions)
    && w'.commits == (if commits then w.commits + [a.f] else w.commits)
    && w'.cache == (if a.Deliver? && a.accepted then w.cache - Pages(NextSlice(x.queue)) else w.cache)
    && w'.runs == RunsAfter(w, a.f, x, StatusLeft(a))
  }

  lemma MovedKeepsFiringsAndLocks(site: Site, w: World, a: Action, w': World)
    requires FiringsOk(site, w) && LocksOk(w) && Enabled(site, w, a) && !a.Render? && a.f in w.firings
    requires Moved(site, w, a, w')
    ensures FiringsOk(site, w') && LocksOk(w')
  {
    var x := w.firings[a.f];
    assert FiringOk(site, x);
    MoveKeepsFiringOk(site, x, a, x.key !in w.locks);
    MoveKeepsLocks(w, w', a.f, w'.firings[a.f]);
  }

  lemma MovedKeepsHistory(site: Site, w: World, a: Action, w': World)
    requires FiringsOk(site, w) && HistoryOk(w) && Enabled(site, w, a) && !a.Render? && a.f in w.firings
    requires Moved(site, w, a, w')
    ensures HistoryOk(w')
  {
    var x, x' := w.firings[a.f], w'.firings[a.f];
    assert FiringOk(site, x);
    MoveKeepsFiringOk(site, x, a, x.key !in w.locks);
    if x'.committed && !x.committed {
      CommitKeepsHistory(w, w', a.f, x');
    } else {
      MoveKeepsHistory(w, w', a.f, x');
    }
  }

  lemma MovedKeepsCache(site: Site, w: World, a: Action, w': World)
    requires FiringsOk(site, w) && HistoryOk(w) && CacheOk(site, w) && HistoryOk(w')
    requires Enabled(site, w, a) && !a.Render? && a.f in w.firings && Moved(site, w, a, w')
    ensures CacheOk(site, w')
  {
    var x := w.firings[a.f];
    assert FiringOk(site, x);
    MoveKeepsFiringOk(site, x, a, x.key !in w.locks);
    if a.Deliver? && a.accepted {
      DeliverKeepsCache(site, w, w', a.f, Pages(NextSlice(x.queue)));
    } else {
      MoveKeepsCache(site, w, w', a.f);
    }
  }

  lemma MovedKeepsRuns(site: Site, w: World, a: Action, w': World)
    requires FiringsOk(site, w) && RunsOk(w)
    requires Enabled(site, w, a) && !a.Render? && a.f in w.firings && Moved(site, w, a, w')
    ensures RunsOk(w')
  {
    var x, x' := w.firings[a.f], w'.firings[a.f];
    assert FiringOk(site, x);
    MoveKeepsFiringOk(site, x, a, x.key !in w.locks);
    if StatusLeft(a).None? {
      MoveKeepsRuns(w, w', a.f, x');
    } else {
      RecordKeepsRuns(w, w', a.f, x', StatusLeft(a).value);
    }
  }

  lemma ApplyMoves(site: Site, w: World, a: Action)
    requires Enabled(site, w, a) && !a.Render? && a.f in w.firings
    ensures Moved(site, w, a, Apply(site, w, a))
  {
  }

  lemma LaterActionKeepsInv(site: Site, w: World, a: Action, w': World)
    requires Inv(site, w) && Enabled(site, w, a) && !a.Render? && a.f in w.firings && Moved(site, w, a, w')
    ensures Inv(site, w')
  {
    MovedKeepsFiringsAndLocks(site, w, a, w');
    MovedKeepsHistory(site, w, a, w');
    MovedKeepsCache(site, w, a, w');
    MovedKeepsRuns(site, w, a, w');
  }

  lemma StepKeepsInv(site: Site, w: World, a: Action)
    requires Inv(site, w)
    ensures Inv(site, Step(site, w, a))
  {
    if Enabled(site, w, a) {
      if a.Render? {
        RenderKeepsInv(site, w, a.page);
      } else if a.f !in w.firings {
        BeginKeepsInv(site, w, a);
      } else {
        ApplyMoves(site, w, a);
        LaterActionKeepsInv(site, w, a, Apply(site, w, a));
      }
    }
  }

  lemma {:induction false} EveryReachableWorld(site: Site, rows: Rows, trace: seq<Action>)
    ensures Inv(site, Exec(site, Start(rows), trace))
  {
    if trace != [] {
      var front := trace[..|trace| - 1];
      EveryReachableWorld(site, rows, front);
      StepKeepsInv(site, Exec(site, Start(rows), front), trace[|trace| - 1]);
    }
  }
}
