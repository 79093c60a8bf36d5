/** What the run protocol guarantees over every interleaving of firings, throws, crashes and renders. */
module WorkerTheorems {
  import opened LockKeys
  import opened WorkerProtocol
  import opened Wrappers

  ghost predicate Stale(site: Site, w: World, page: Page) {
    && page in w.cache && page in site.sources && w.versions != []
    && w.cache[page].content != RenderPage(site, page, Live(w))
  }

  /** Commit j was made after the cached copy, changed the page, named it, and has not been delivered. */
  ghost predicate Owes(site: Site, w: World, j: nat, page: Page) {
    && page in w.cache && page in site.sources
    && w.cache[page].version <= j < |w.commits| && j + 1 < |w.versions|
    && RenderPage(site, page, w.versions[j]) != RenderPage(site, page, w.versions[j + 1])
    && w.commits[j] in w.firings
    && var x := w.firings[w.commits[j]]; x.committed && page in x.paths && page !in x.delivered
  }

  lemma {:induction false} SomeCommitChangedThePage(site: Site, versions: seq<Rows>, page: Page, from: nat, to: nat)
    returns (j: nat)
    requires page in site.sources && from <= to < |versions|
    requires RenderPage(site, page, versions[from]) != RenderPage(site, page, versions[to])
    ensures from <= j < to
    ensures RenderPage(site, page, versions[j]) != RenderPage(site, page, versions[j + 1])
  {
    if RenderPage(site, page, versions[to - 1]) != RenderPage(site, page, versions[to]) {
      j := to - 1;
    } else {
      j := SomeCommitChangedThePage(site, versions, page, from, to - 1);
    }
  }

  lemma StaleInAnyInvariantWorld(site: Site, w: World, page: Page) returns (j: nat)
    requires Inv(site, w) && Stale(site, w, page)
    ensures Owes(site, w, j, page)
  {
    j := SomeCommitChangedThePage(site, w.versions, page, w.cache[page].version, |w.commits|);
    var x := w.firings[w.commits[j]];
    assert FiringOk(site, x);
  }

  /**
   Safety over all runs: whatever has happened, a cached page that differs from the committed rows was
   changed, after it was rendered, by a committed run that returned it and whose revalidation of it has
   not reached the cache.
   */
  lemma StalePageAwaitsItsRevalidation(site: Site, rows: Rows, trace: seq<Action>, page: Page)
    ensures var w := Exec(site, Start(rows), trace);
            Stale(site, w, page) ==> exists j: nat :: Owes(site, w, j, page)
  {
    EveryReachableWorld(site, rows, trace);
    var w := Exec(site, Start(rows), trace);
    if Stale(site, w, page) {
      var j := StaleInAnyInvariantWorld(site, w, page);
    }
  }

  /** A page is never assembled from two versions, and never older than a commit already delivered for it. */
  lemma CachedPageIsOneVersionPastEveryDelivery(site: Site, rows: Rows, trace: seq<Action>, page: Page, j: nat)
    requires var w := Exec(site, Start(rows), trace);
             && page in w.cache && j < |w.commits| && w.commits[j] in w.firings
             && page in w.firings[w.commits[j]].delivered
    ensures var w := Exec(site, Start(rows), trace);
            && page in site.sources
            && j < w.cache[page].version < |w.versions|
            && w.cache[page].content == RenderPage(site, page, w.versions[w.cache[page].version])
  {
    EveryReachableWorld(site, rows, trace);
  }

  // ---- When nothing is lost ---------------------------------------------------------------------

  /**
   The four ways a committed run's paths are lost on a configured site: its worker dies, its ok row cannot
   be inserted, its commit is not acknowledged, or a request of its revalidation is not accepted. Throwing
   jobs are not among them.
   */
  predicate Reliable(w: World, a: Action) {
    match a
    case Crash(f) => f in w.firings ==> !w.firings[f].committed
    case RecordOkThrows(_, _) => false
    case CommitUnacknowledged(_) => false
    case Deliver(_, accepted) => accepted
    case _ => true
  }

  predicate ReliableRun(site: Site, w: World, trace: seq<Action>) {
    trace == [] ||
    (var front := trace[..|trace| - 1];
     ReliableRun(site, w, front) && Reliable(Exec(site, w, front), trace[|trace| - 1]))
  }

  /** Nothing returned is neither delivered nor still in the queue. */
  ghost predicate NothingDropped(x: Firing) {
    forall p | p in x.paths :: p in x.delivered || p in x.queue
  }

  ghost predicate Sends(x: Firing) {
    && (x.committed ==> NothingDropped(x))
    && (x.committed ==> x.phase.Committed? || x.phase.Recorded? || (x.phase.Over? && x.queue == []))
  }

  ghost predicate CommittedRunsSend(w: World) {
    forall f | f in w.firings :: Sends(w.firings[f])
  }

  lemma QueueStartsWhole(x: Firing)
    requires x.queue == Unique(x.paths)
    ensures NothingDropped(x)
  {
    forall p | p in x.paths ensures p in x.queue {
      UniqueKeepsMembers(x.paths, p);
    }
  }

  lemma SliceOrRest(x: Firing, x': Firing)
    requires NothingDropped(x) && x'.paths == x.paths && x'.queue == x.queue[SliceLength(x.queue)..]
    requires x'.delivered == x.delivered + Pages(NextSlice(x.queue))
    ensures NothingDropped(x')
  {
    assert x.queue == NextSlice(x.queue) + x'.queue;
  }

  lemma ActorStillSends(site: Site, w: World, a: Action)
    requires Enabled(site, w, a) && !a.Render? && Reliable(w, a) && site.configured
    requires a.f in w.firings ==> FiringOk(site, w.firings[a.f]) && Sends(w.firings[a.f])
    ensures a.f in Step(site, w, a).firings && Sends(Step(site, w, a).firings[a.f])
  {
    if a.f in w.firings {
      var x, x' := w.firings[a.f], Step(site, w, a).firings[a.f];
      if a.Commit? && x.phase.Returned? {
        QueueStartsWhole(x');
      } else if a.Deliver? {
        SliceOrRest(x, x');
      }
    }
  }

  /** Every committed run has all its paths delivered or in the queue, and an over one has sent them. */
  lemma {:induction false} ReliableRunsSend(site: Site, rows: Rows, trace: seq<Action>)
    requires ReliableRun(site, Start(rows), trace) && site.configured
    ensures CommittedRunsSend(Exec(site, Start(rows), trace))
  {
    if trace != [] {
      var front := trace[..|trace| - 1];
      ReliableRunsSend(site, rows, front);
      EveryReachableWorld(site, rows, front);
      var w, a := Exec(site, Start(rows), front), trace[|trace| - 1];
      if Enabled(site, w, a) && !a.Render? {
        ActorStillSends(site, w, a);
      }
    }
  }

  /** Without those losses, a stale page always has a committed run that is still going to revalidate it. */
  lemma StaleOnlyUntilRevalidate(site: Site, rows: Rows, trace: seq<Action>, page: Page)
    requires ReliableRun(site, Start(rows), trace) && site.configured
    ensures var w := Exec(site, Start(rows), trace);
            Stale(site, w, page) ==>
              exists j: nat :: Owes(site, w, j, page)
                && (In(w, w.commits[j], Committed) || In(w, w.commits[j], Recorded))
  {
    EveryReachableWorld(site, rows, trace);
    ReliableRunsSend(site, rows, trace);
    var w := Exec(site, Start(rows), trace);
    if Stale(site, w, page) {
      var j := StaleInAnyInvariantWorld(site, w, page);
      assert Owes(site, w, j, page) && (In(w, w.commits[j], Committed) || In(w, w.commits[j], Recorded));
    }
  }

  /** Once every firing is over, the whole cache agrees with the committed rows. */
  lemma QuietSystemIsCoherent(site: Site, rows: Rows, trace: seq<Action>, page: Page)
    requires ReliableRun(site, Start(rows), trace) && site.configured
    requires var w := Exec(site, Start(rows), trace); forall f | f in w.firings :: w.firings[f].phase.Over?
    ensures !Stale(site, Exec(site, Start(rows), trace), page)
  {
    StaleOnlyUntilRevalidate(site, rows, trace, page);
  }

  // ---- What each stale page owes its state to ----------------------------------------------------------

  /** This step loses that page of f: its worker dies, its ok row or COMMIT's answer is lost, or its slice refused. */
  predicate LosesPage(site: Site, w: World, a: Action, f: Id, page: Page) {
    && Enabled(site, w, a) && !a.Render? && a.f == f && f in w.firings
    && match a
       case Crash(_) => w.firings[f].committed
       case RecordOkThrows(_, _) => true
       case CommitUnacknowledged(_) => true
       case Deliver(_, accepted) => !accepted && page in NextSlice(w.firings[f].queue)
       case _ => false
  }

  predicate PageLost(site: Site, w: World, trace: seq<Action>, f: Id, page: Page) {
    trace != [] &&
    (var front := trace[..|trace| - 1];
     PageLost(site, w, front, f, page) || LosesPage(site, Exec(site, w, front), trace[|trace| - 1], f, page))
  }

  predicate StillToSend(x: Firing, page: Page) {
    (x.phase.Committed? || x.phase.Recorded?) && page in x.queue
  }

  /** A committed run's page is delivered, still to be sent, or lost. */
  ghost predicate Accounted(x: Firing, page: Page, lost: bool) {
    x.committed && page in x.paths ==> page in x.delivered || StillToSend(x, page) || lost
  }

  lemma MoveAccounts(site: Site, x: Firing, a: Action, lockFree: bool, page: Page, lost: bool, loses: bool)
    requires FiringOk(site, x) && CanMove(site, x, a) && site.configured && Accounted(x, page, lost)
    requires loses <==> (a.Crash? && x.committed) || a.RecordOkThrows? || a.CommitUnacknowledged?
                        || (a.Deliver? && !a.accepted && page in NextSlice(x.queue))
    ensures Accounted(Move(x, a, lockFree), page, lost || loses)
  {
    if a.Commit? && page in x.paths {
      UniqueKeepsMembers(x.paths, page);
    } else if a.Deliver? && page in x.queue {
      assert x.queue == NextSlice(x.queue) + x.queue[SliceLength(x.queue)..];
    }
  }

  lemma StepAccounts(site: Site, w: World, a: Action, f: Id, w': World, page: Page, lost: bool)
    requires FiringsOk(site, w) && site.configured && FiringFollows(site, w, a, f, w')
    requires f in w.firings ==> Accounted(w.firings[f], page, lost)
    ensures f in w'.firings ==> Accounted(w'.firings[f], page, lost || LosesPage(site, w, a, f, page))
  {
    if f in w.firings && Acts(site, w, a, f) {
      var x := w.firings[f];
      assert FiringOk(site, x);
      MoveAccounts(site, x, a, x.key !in w.locks, page, lost, LosesPage(site, w, a, f, page));
    }
  }

  lemma {:induction false} EveryPageIsAccounted(site: Site, rows: Rows, trace: seq<Action>, f: Id, page: Page)
    requires site.configured
    ensures var w := Exec(site, Start(rows), trace);
            f in w.firings ==> Accounted(w.firings[f], page, PageLost(site, Start(rows), trace, f, page))
  {
    if trace != [] {
      var front, last := trace[..|trace| - 1], trace[|trace| - 1];
      EveryPageIsAccounted(site, rows, front, f, page);
      EveryReachableWorld(site, rows, front);
      var w, w' := Exec(site, Start(rows), front), Exec(site, Start(rows), trace);
      StepFollowsFiring(site, w, last, f, w');
      StepAccounts(site, w, last, f, w', page, PageLost(site, Start(rows), front, f, page));
    }
  }

  /**
   Page by page, whatever happens to the others: on a configured site a stale page has an owing run that still
   has the page to send, or that itself lost it.
   */
  lemma StalePageIsComingOrWasLost(site: Site, rows: Rows, trace: seq<Action>, page: Page)
    requires site.configured && Stale(site, Exec(site, Start(rows), trace), page)
    ensures var w := Exec(site, Start(rows), trace);
            exists j: nat :: Owes(site, w, j, page)
              && (StillToSend(w.firings[w.commits[j]], page)
                  || PageLost(site, Start(rows), trace, w.commits[j], page))
  {
    EveryReachableWorld(site, rows, trace);
    var w := Exec(site, Start(rows), trace);
    var j := StaleInAnyInvariantWorld(site, w, page);
    EveryPageIsAccounted(site, rows, trace, w.commits[j], page);
    assert Owes(site, w, j, page);
  }

  /** So once every firing is over, each stale page was lost by a run that owes it. */
  lemma StaleAtRestWasLost(site: Site, rows: Rows, trace: seq<Action>, page: Page)
    requires site.configured && Stale(site, Exec(site, Start(rows), trace), page)
    requires var w := Exec(site, Start(rows), trace); forall f | f in w.firings :: w.firings[f].phase.Over?
    ensures var w := Exec(site, Start(rows), trace);
            exists j: nat :: Owes(site, w, j, page) && PageLost(site, Start(rows), trace, w.commits[j], page)
  {
    StalePageIsComingOrWasLost(site, rows, trace, page);
  }

  // ---- Locks ------------------------------------------------------------------------------------

  /** At most one firing per key is inside its job. */
  lemma MutualExclusion(site: Site, rows: Rows, trace: seq<Action>, f: Id, g: Id)
    requires var w := Exec(site, Start(rows), trace);
             && f in w.firings && g in w.firings
             && w.firings[f].InsideJob() && w.firings[g].InsideJob() && w.firings[f].key == w.firings[g].key
    ensures f == g
  {
    EveryReachableWorld(site, rows, trace);
  }

  const NEIGHBOURHOODS_LOCK := "neighbourhoods.assign"
  const NIGHTLY := Job("neighbourhoods.assign", Some(NEIGHBOURHOODS_LOCK))
  const QUEUE_DRAIN := Job("neighbourhoods.assign-queue", Some(NEIGHBOURHOODS_LOCK))

  /** The two assignment schedules never run together, whatever the digest function is. */
  lemma NightlyAndQueueNeverOverlap(site: Site, rows: Rows, trace: seq<Action>, f: Id, g: Id)
    requires var w := Exec(site, Start(rows), trace);
             && f in w.firings && g in w.firings
             && w.firings[f].job == NIGHTLY && w.firings[g].job == QUEUE_DRAIN
    ensures var w := Exec(site, Start(rows), trace);
            !(w.firings[f].InsideJob() && w.firings[g].InsideJob())
  {
    EveryReachableWorld(site, rows, trace);
    var w := Exec(site, Start(rows), trace);
    assert FiringOk(site, w.firings[f]) && FiringOk(site, w.firings[g]);
    if w.firings[f].InsideJob() && w.firings[g].InsideJob() {
      MutualExclusion(site, rows, trace, f, g);
    }
  }

  /** Two callbacks of one key run at once only if one of them has lost its connection and does not know it yet. */
  lemma OverlapNeedsALostConnection(site: Site, rows: Rows, trace: seq<Action>, f: Id, g: Id)
    requires var w := Exec(site, Start(rows), trace);
             && f in w.firings && g in w.firings && f != g
             && w.firings[f].Running() && w.firings[g].Running() && w.firings[f].key == w.firings[g].key
    ensures var w := Exec(site, Start(rows), trace); In(w, f, Severed) || In(w, g, Severed)
  {
    var w := Exec(site, Start(rows), trace);
    if w.firings[f].InsideJob() && w.firings[g].InsideJob() {
      MutualExclusion(site, rows, trace, f, g);
    }
  }

  function SeveredRun(): seq<Action> {
    [Begin(0, NIGHTLY), TryLock(0), ConnectionLost(0)] + [Begin(1, QUEUE_DRAIN), TryLock(1)]
  }

  lemma RunsUpToTheLoss(site: Site, rows: Rows) returns (w: World)
    ensures w == Exec(site, Start(rows), [Begin(0, NIGHTLY), TryLock(0), ConnectionLost(0)])
    ensures w.versions == [rows] && w.locks == map[] && w.firings.Keys == {0} && w.firings[0].job == NIGHTLY
    ensures w.firings[0].phase.Severed? && w.firings[0].key == site.lockKey(NEIGHBOURHOODS_LOCK)
  {
    var w1 := Step(site, Start(rows), Begin(0, NIGHTLY));
    var w2 := Step(site, w1, TryLock(0));
    assert w2.locks == map[site.lockKey(NEIGHBOURHOODS_LOCK) := 0];
    w := Step(site, w2, ConnectionLost(0));
    UnrollThree(site, Start(rows), [Begin(0, NIGHTLY), TryLock(0), ConnectionLost(0)]);
  }

  lemma GetsTheFreedLock(site: Site, w: World) returns (w': World)
    requires w.versions != [] && w.locks == map[] && 1 !in w.firings
    ensures w' == Exec(site, w, [Begin(1, QUEUE_DRAIN), TryLock(1)])
    ensures In(w', 1, InJob) && w'.firings == w.firings[1 := w'.firings[1]]
    ensures w'.firings[1].job == QUEUE_DRAIN && w'.firings[1].key == site.lockKey(NEIGHBOURHOODS_LOCK)
  {
    w' := Step(site, Step(site, w, Begin(1, QUEUE_DRAIN)), TryLock(1));
    UnrollTwo(site, w, [Begin(1, QUEUE_DRAIN), TryLock(1)]);
  }

  /** And then they do: the server drops the lock with the transaction, while the first callback goes on. */
  lemma ALostConnectionOverlaps(site: Site, rows: Rows)
    ensures var w := Exec(site, Start(rows), SeveredRun());
            && 0 in w.firings && 1 in w.firings && w.firings[0].key == w.firings[1].key
            && w.firings[0].Running() && w.firings[1].Running()
            && w.firings[0].job == NIGHTLY && w.firings[1].job == QUEUE_DRAIN
  {
    var w3 := RunsUpToTheLoss(site, rows);
    var w5 := GetsTheFreedLock(site, w3);
    ExecAppend(site, Start(rows), [Begin(0, NIGHTLY), TryLock(0), ConnectionLost(0)],
               [Begin(1, QUEUE_DRAIN), TryLock(1)]);
  }

  /** A held key belongs to an open transaction that is inside its job, and to the job that hashes to it. */
  lemma HeldKeyHasOpenTransaction(site: Site, rows: Rows, trace: seq<Action>, key: Int64)
    requires key in Exec(site, Start(rows), trace).locks
    ensures var w := Exec(site, Start(rows), trace);
            && w.locks[key] in w.firings
            && var x := w.firings[w.locks[key]];
               x.TransactionOpen() && x.InsideJob() && !x.committed && site.lockKey(x.job.LockName()) == key
  {
    EveryReachableWorld(site, rows, trace);
    var w := Exec(site, Start(rows), trace);
    assert FiringOk(site, w.firings[w.locks[key]]);
  }

  /** No lock leaks: a firing that tries its lock gets it exactly when nobody is in a job with that key. */
  lemma TryLockSucceedsIffNobodyInside(site: Site, rows: Rows, trace: seq<Action>, f: Id)
    requires In(Exec(site, Start(rows), trace), f, Opened)
    ensures var w := Exec(site, Start(rows), trace);
            In(Step(site, w, TryLock(f)), f, InJob) <==>
              forall g | g in w.firings && w.firings[g].InsideJob() :: w.firings[g].key != w.firings[f].key
  {
    EveryReachableWorld(site, rows, trace);
  }

  // ---- The job_runs log -------------------------------------------------------------------------

  /**
   A firing has at most one ok row and at most one failed row, both under its own lock's key, and an ok row
   means its writes are committed.
   */
  lemma LogTellsTheTruthAboutOk(site: Site, rows: Rows, trace: seq<Action>, i: nat)
    requires i < |Exec(site, Start(rows), trace).runs|
    ensures var w := Exec(site, Start(rows), trace);
            var row := w.runs[i];
            && row.firing in w.firings
            && (row.ok ==> row.firing in w.commits)
            && row.key == site.lockKey(w.firings[row.firing].job.LockName())
            && forall k | 0 <= k < |w.runs| && w.runs[k].firing == row.firing && w.runs[k].ok == row.ok :: k == i
  {
    EveryReachableWorld(site, rows, trace);
    var w := Exec(site, Start(rows), trace);
    assert FiringOk(site, w.firings[w.runs[i].firing]);
  }

  lemma ExecOneMore(site: Site, w: World, trace: seq<Action>, a: Action)
    ensures Exec(site, w, trace + [a]) == Step(site, Exec(site, w, trace), a)
  {
    assert (trace + [a])[..|trace + [a]| - 1] == trace;
  }

  /** The statuses logged for one firing, oldest first. */
  function Logged(runs: seq<RunRow>, f: Id): seq<bool> {
    if runs == [] then []
    else
      var last := runs[|runs| - 1];
      Logged(runs[..|runs| - 1], f) + if last.firing == f then [last.ok] else []
  }

  lemma LoggedAppend(runs: seq<RunRow>, row: RunRow, f: Id)
    ensures Logged(runs + [row], f) == Logged(runs, f) + if row.firing == f then [row.ok] else []
  {
    assert (runs + [row])[..|runs|] == runs;
  }

  /** The action was taken, when it was possible, somewhere along the trace. */
  predicate Did(site: Site, w: World, trace: seq<Action>, a: Action) {
    trace != [] &&
    (var front, last := trace[..|trace| - 1], trace[|trace| - 1];
     Did(site, w, front, a) || (last == a && Enabled(site, Exec(site, w, front), a)))
  }

  /** The rows of a firing whose ok insert was answered, stored unanswered, and whose failed insert was stored. */
  function RowsOf(answered: bool, unanswered: bool, failed: bool): seq<bool> {
    (if answered || unanswered then [true] else []) + if failed then [false] else []
  }

  /** How far a firing must have come for these three to be so. */
  ghost predicate Told(phase: Phase, logged: seq<bool>, answered: bool, unanswered: bool, failed: bool) {
    && logged == RowsOf(answered, unanswered, failed)
    && (answered ==> phase.Recorded? || phase.Over?)
    && (unanswered ==> phase.Failing? || phase.Over?)
    && (failed ==> phase.Over?)
    && !(answered && (unanswered || failed))
  }

  ghost predicate RowsAreTold(w: World, f: Id, answered: bool, unanswered: bool, failed: bool) {
    if f in w.firings then Told(w.firings[f].phase, Logged(w.runs, f), answered, unanswered, failed)
    else Logged(w.runs, f) == [] && !answered && !unanswered && !failed
  }

  /** The row an action leaves, as a list. */
  function RowLeft(acts: bool, a: Action): seq<bool> {
    if acts && StatusLeft(a).Some? then [StatusLeft(a).value] else []
  }

  lemma RunsOfStep(site: Site, w: World, a: Action)
    ensures Step(site, w, a).runs ==
              if Enabled(site, w, a) && !a.Render? && a.f in w.firings
              then RunsAfter(w, a.f, w.firings[a.f], StatusLeft(a)) else w.runs
  {
  }

  lemma LoggedOfStep(site: Site, w: World, a: Action, f: Id, w': World)
    requires w'.runs == Step(site, w, a).runs
    ensures Logged(w'.runs, f) == Logged(w.runs, f) + RowLeft(f in w.firings && Acts(site, w, a, f), a)
  {
    RunsOfStep(site, w, a);
    if Enabled(site, w, a) && !a.Render? && a.f in w.firings && StatusLeft(a).Some? {
      var x := w.firings[a.f];
      LoggedAppend(w.runs, RunRow(a.f, x.job.name, StatusLeft(a).value, x.key), f);
    }
  }

  /** Each of the three comes from one action, in one phase. */
  lemma MoveTells(site: Site, x: Firing, a: Action, lockFree: bool, logged: seq<bool>,
                  answered: bool, unanswered: bool, failed: bool)
    requires CanMove(site, x, a) && Told(x.phase, logged, answered, unanswered, failed)
    ensures Told(Move(x, a, lockFree).phase, logged + RowLeft(true, a), answered || a.RecordOk?,
                 unanswered || (a.RecordOkThrows? && a.stored), failed || (a.RecordFailed? && a.stored))
  {
  }

  /** Whether this step is that action of f, taken. */
  predicate Takes(site: Site, w: World, a: Action, which: Action) {
    a == which && Enabled(site, w, a)
  }

  lemma ActingTells(site: Site, w: World, a: Action, f: Id, w': World,
                    answered: bool, unanswered: bool, failed: bool)
    requires f in w.firings && Acts(site, w, a, f) && RowsAreTold(w, f, answered, unanswered, failed)
    requires FiringFollows(site, w, a, f, w') && Logged(w'.runs, f) == Logged(w.runs, f) + RowLeft(true, a)
    ensures RowsAreTold(w', f, answered || a.RecordOk?,
                        unanswered || (a.RecordOkThrows? && a.stored), failed || (a.RecordFailed? && a.stored))
  {
    MoveTells(site, w.firings[f], a, w.firings[f].key !in w.locks, Logged(w.runs, f), answered, unanswered, failed);
  }

  lemma StepTells(site: Site, w: World, a: Action, f: Id, w': World,
                  answered: bool, unanswered: bool, failed: bool)
    requires RowsAreTold(w, f, answered, unanswered, failed) && FiringFollows(site, w, a, f, w')
    requires Logged(w'.runs, f) == Logged(w.runs, f) + RowLeft(f in w.firings && Acts(site, w, a, f), a)
    ensures RowsAreTold(w', f, answered || Takes(site, w, a, RecordOk(f)),
                        unanswered || Takes(site, w, a, RecordOkThrows(f, true)),
                        failed || Takes(site, w, a, RecordFailed(f, true)))
  {
    if f in w.firings && Acts(site, w, a, f) {
      ActingTells(site, w, a, f, w', answered, unanswered, failed);
    }
  }

  /** For every run of the system, a firing's rows are exactly those of its inserts that were stored, ok first. */
  lemma {:induction false} RowsAreWhatWasStored(site: Site, rows: Rows, trace: seq<Action>, f: Id)
    ensures RowsAreTold(Exec(site, Start(rows), trace), f, Did(site, Start(rows), trace, RecordOk(f)),
                        Did(site, Start(rows), trace, RecordOkThrows(f, true)),
                        Did(site, Start(rows), trace, RecordFailed(f, true)))
  {
    if trace != [] {
      var front, last := trace[..|trace| - 1], trace[|trace| - 1];
      RowsAreWhatWasStored(site, rows, front, f);
      var w, w' := Exec(site, Start(rows), front), Exec(site, Start(rows), trace);
      StepFollowsFiring(site, w, last, f, w');
      LoggedOfStep(site, w, last, f, w');
      StepTells(site, w, last, f, w', Did(site, Start(rows), front, RecordOk(f)),
                Did(site, Start(rows), front, RecordOkThrows(f, true)),
                Did(site, Start(rows), front, RecordFailed(f, true)));
    }
  }

  /**
   Exactly when one firing is logged twice: it has both an ok and a failed row if and only if its ok insert was
   stored with its answer lost, and its failed insert was stored.
   */
  lemma LoggedTwiceIff(site: Site, rows: Rows, trace: seq<Action>, f: Id)
    ensures Logged(Exec(site, Start(rows), trace).runs, f) == [true, false] <==>
              Did(site, Start(rows), trace, RecordOkThrows(f, true))
              && Did(site, Start(rows), trace, RecordFailed(f, true))
    ensures |Logged(Exec(site, Start(rows), trace).runs, f)| == 2 ==>
              Logged(Exec(site, Start(rows), trace).runs, f) == [true, false]
  {
    RowsAreWhatWasStored(site, rows, trace, f);
  }

  // ---- When a failed run has committed -----------------------------------------------------------

  /** The two ways a run that ends in the catch block has committed all the same. */
  predicate LosesItsCommit(site: Site, w: World, a: Action, f: Id) {
    Enabled(site, w, a) && (a.RecordOkThrows? || a.CommitUnacknowledged?) && a.f == f
  }

  predicate Lost(site: Site, w: World, trace: seq<Action>, f: Id) {
    trace != [] &&
    (var front := trace[..|trace| - 1];
     Lost(site, w, front, f) || LosesItsCommit(site, Exec(site, w, front), trace[|trace| - 1], f))
  }

  predicate LoggedFailed(w: World, f: Id) {
    exists i :: 0 <= i < |w.runs| && w.runs[i].firing == f && !w.runs[i].ok
  }

  /** Without a loss a firing in the catch block never committed; with one it committed and stays silent. */
  ghost predicate DecidedBy(x: Firing, lost: bool) {
    && (lost ==> x.committed && (x.phase.Failing? || x.phase.Over?) && x.delivered == {})
    && (!lost && x.phase.Failing? ==> !x.committed)
  }

  ghost predicate LossDecides(w: World, f: Id, lost: bool) {
    && (lost ==> f in w.firings)
    && (f in w.firings ==> DecidedBy(w.firings[f], lost))
    && (!lost && LoggedFailed(w, f) ==> f in w.firings && !w.firings[f].committed)
  }

  lemma MoveDecides(site: Site, x: Firing, a: Action, lockFree: bool, lost: bool)
    requires FiringOk(site, x) && CanMove(site, x, a) && DecidedBy(x, lost)
    ensures DecidedBy(Move(x, a, lockFree), lost || a.RecordOkThrows? || a.CommitUnacknowledged?)
    ensures x.phase.Failing? || x.phase.Over? ==> Move(x, a, lockFree).committed == x.committed
  {
  }

  lemma OneMoreRow(runs: seq<RunRow>, row: RunRow, w: World, w': World, f: Id)
    requires w.runs == runs && w'.runs == runs + [row] && LoggedFailed(w', f)
    ensures LoggedFailed(w, f) || (row.firing == f && !row.ok)
  {
    var i :| 0 <= i < |w'.runs| && w'.runs[i].firing == f && !w'.runs[i].ok;
    assert i < |runs| ==> w.runs[i] == w'.runs[i];
  }

  lemma LoggedFailedAfter(site: Site, w: World, a: Action, f: Id)
    ensures LoggedFailed(Step(site, w, a), f) ==> LoggedFailed(w, f) || In(w, f, Failing)
  {
    var w' := Step(site, w, a);
    if w'.runs != w.runs && LoggedFailed(w', f) {
      OneMoreRow(w.runs, w'.runs[|w.runs|], w, w', f);
    }
  }

  lemma FailedRowsAreOver(w: World, f: Id)
    requires RunsOk(w) && LoggedFailed(w, f)
    ensures f in w.firings && w.firings[f].phase.Over?
  {
    var i :| 0 <= i < |w.runs| && w.runs[i].firing == f && !w.runs[i].ok;
  }

  predicate Acts(site: Site, w: World, a: Action, f: Id) {
    Enabled(site, w, a) && !a.Render? && a.f == f
  }

  /** All a step changes in one firing's record. */
  ghost predicate FiringFollows(site: Site, w: World, a: Action, f: Id, w': World) {
    && (f in w.firings ==>
          f in w'.firings
          && w'.firings[f] == (if Acts(site, w, a, f)
                               then Move(w.firings[f], a, w.firings[f].key !in w.locks)
                               else w.firings[f]))
    && (f !in w.firings && f in w'.firings ==> !w'.firings[f].committed)
  }

  lemma StepFirings(site: Site, w: World, a: Action)
    ensures Step(site, w, a).firings ==
              if !Enabled(site, w, a) || a.Render? then w.firings
              else if a.f in w.firings then w.firings[a.f := Move(w.firings[a.f], a, w.firings[a.f].key !in w.locks)]
              else w.firings[a.f := NewFiring(site, a.job, if a.Begin? then Opened else Failing)]
  {
  }

  lemma StepFollowsFiring(site: Site, w: World, a: Action, f: Id, w': World)
    requires w'.firings == Step(site, w, a).firings
    ensures FiringFollows(site, w, a, f, w')
  {
    StepFirings(site, w, a);
  }

  ghost predicate Follows(site: Site, w: World, a: Action, f: Id, w': World) {
    && FiringFollows(site, w, a, f, w')
    && (LoggedFailed(w', f) ==> LoggedFailed(w, f) || In(w, f, Failing))
  }

  lemma StepFollows(site: Site, w: World, a: Action, f: Id, w': World)
    requires w' == Step(site, w, a)
    ensures Follows(site, w, a, f, w')
  {
    StepFollowsFiring(site, w, a, f, w');
    LoggedFailedAfter(site, w, a, f);
  }

  lemma NoLossOnceFailing(site: Site, w: World, a: Action, f: Id)
    requires f in w.firings && (w.firings[f].phase.Failing? || w.firings[f].phase.Over?)
    ensures !LosesItsCommit(site, w, a, f)
  {
  }

  lemma NextDecides(site: Site, x: Firing, a: Action, acts: bool, lockFree: bool, lost: bool)
    requires FiringOk(site, x) && DecidedBy(x, lost) && (acts ==> CanMove(site, x, a))
    ensures var x' := if acts then Move(x, a, lockFree) else x;
            && DecidedBy(x', lost || (acts && (a.RecordOkThrows? || a.CommitUnacknowledged?)))
            && (x.phase.Failing? || x.phase.Over? ==> x'.committed == x.committed)
  {
    if acts {
      MoveDecides(site, x, a, lockFree, lost);
    }
  }

  lemma LosingIsActing(site: Site, w: World, a: Action, f: Id)
    requires f in w.firings
    ensures LosesItsCommit(site, w, a, f) <==> Acts(site, w, a, f) && (a.RecordOkThrows? || a.CommitUnacknowledged?)
    ensures Acts(site, w, a, f) ==> CanMove(site, w.firings[f], a)
  {
  }

  lemma FollowedFiringDecides(site: Site, w: World, a: Action, f: Id, lost: bool, x: Firing, x': Firing)
    requires f in w.firings && x == w.firings[f] && FiringOk(site, x) && DecidedBy(x, lost)
    requires x' == if Acts(site, w, a, f) then Move(x, a, x.key !in w.locks) else x
    ensures DecidedBy(x', lost || LosesItsCommit(site, w, a, f))
    ensures x.phase.Failing? || x.phase.Over? ==> x'.committed == x.committed
  {
    LosingIsActing(site, w, a, f);
    NextDecides(site, x, a, Acts(site, w, a, f), x.key !in w.locks, lost);
  }

  lemma FollowedDecides(site: Site, w: World, a: Action, f: Id, lost: bool, w': World)
    requires FiringsOk(site, w) && RunsOk(w) && LossDecides(w, f, lost) && Follows(site, w, a, f, w')
    ensures LossDecides(w', f, lost || LosesItsCommit(site, w, a, f))
  {
    if LoggedFailed(w, f) {
      FailedRowsAreOver(w, f);
    }
    if f in w.firings {
      assert FiringOk(site, w.firings[f]);
      FollowedFiringDecides(site, w, a, f, lost, w.firings[f], w'.firings[f]);
      if w.firings[f].phase.Failing? || w.firings[f].phase.Over? {
        NoLossOnceFailing(site, w, a, f);
      }
    }
  }

  lemma {:induction false} EveryWorldDecides(site: Site, rows: Rows, trace: seq<Action>, f: Id)
    ensures LossDecides(Exec(site, Start(rows), trace), f, Lost(site, Start(rows), trace, f))
  {
    if trace != [] {
      var front, last := trace[..|trace| - 1], trace[|trace| - 1];
      EveryReachableWorld(site, rows, front);
      EveryWorldDecides(site, rows, front, f);
      var w := Exec(site, Start(rows), front);
      StepFollows(site, w, last, f, Step(site, w, last));
      FollowedDecides(site, w, last, f, Lost(site, Start(rows), front, f), Step(site, w, last));
    }
  }

  /**
   Exactly when "failed" hides a commit: a firing in the catch block, or with a failed row, has committed if
   and only if its ok row could not be inserted or its commit was not acknowledged.
   */
  lemma FailedHidesACommitIff(site: Site, rows: Rows, trace: seq<Action>, f: Id)
    requires var w := Exec(site, Start(rows), trace); In(w, f, Failing) || LoggedFailed(w, f)
    ensures var w := Exec(site, Start(rows), trace);
            f in w.firings && (w.firings[f].committed <==> Lost(site, Start(rows), trace, f))
  {
    EveryWorldDecides(site, rows, trace, f);
  }

  /** After such a loss, whatever follows: committed, never back out of the catch block, nothing sent for good. */
  lemma NothingIsSentAfterALoss(site: Site, rows: Rows, trace: seq<Action>, later: seq<Action>, f: Id)
    requires Lost(site, Start(rows), trace, f)
    ensures var w := Exec(site, Start(rows), trace + later);
            && f in w.firings && w.firings[f].committed && w.firings[f].delivered == {}
            && (w.firings[f].phase.Failing? || w.firings[f].phase.Over?)
  {
    LostForGood(site, Start(rows), trace, later, f);
    EveryWorldDecides(site, rows, trace + later, f);
  }

  lemma {:induction false} LostForGood(site: Site, w: World, trace: seq<Action>, later: seq<Action>, f: Id)
    requires Lost(site, w, trace, f)
    ensures Lost(site, w, trace + later, f)
  {
    if later == [] {
      assert trace + later == trace;
    } else {
      LostForGood(site, w, trace, later[..|later| - 1], f);
      assert (trace + later)[..|trace + later| - 1] == trace + later[..|later| - 1];
    }
  }

  lemma UnconfiguredStepSendsNothing(site: Site, w: World, a: Action, f: Id)
    requires !site.configured && (f in w.firings ==> w.firings[f].delivered == {})
    ensures var w' := Step(site, w, a); f in w'.firings ==> w'.firings[f].delivered == {}
  {
  }

  /** Without a secret or a site address nothing is ever delivered: those pages wait for their own expiry. */
  lemma {:induction false} AnUnconfiguredSiteSendsNothing(site: Site, rows: Rows, trace: seq<Action>, f: Id)
    requires !site.configured
    ensures var w := Exec(site, Start(rows), trace); f in w.firings ==> w.firings[f].delivered == {}
  {
    if trace != [] {
      var front := trace[..|trace| - 1];
      AnUnconfiguredSiteSendsNothing(site, rows, front, f);
      UnconfiguredStepSendsNothing(site, Exec(site, Start(rows), front), trace[|trace| - 1], f);
    }
  }

  /**
   A failed row does not mean nothing happened: when the ok insert throws, the committed run is logged as
   failed -- and as ok besides, if that insert was stored -- its paths are never sent, and the page it changed
   stays stale with every firing over.
   */
  lemma CommittedRunLoggedAsFailed(stored: bool) returns (site: Site, rows: Rows, trace: seq<Action>, page: Page)
    ensures LostItsOkRow(site, Exec(site, Start(rows), trace), page, stored) && NoFaultButTheInsert(trace)
  {
    page, rows := "/leeds", map["tier" := "old"];
    site := Site(map[page := {"tier"}], (name: string) => 0, true);
    trace := OneRun(page, "tier", "new") + LosingTail(stored);
    TierRunLosesItsOkRow(site, rows, page, stored);
  }

  predicate NoFaultButTheInsert(trace: seq<Action>) {
    forall a | a in trace :: !a.Crash? && !a.Throw? && !a.CommitUnacknowledged? && !a.ConnectionLost?
  }

  function LosingTail(stored: bool): seq<Action> {
    [Commit(0), RecordOkThrows(0, stored), RecordFailed(0, true)]
  }

  lemma TierRunLosesItsOkRow(site: Site, rows: Rows, page: Page, stored: bool)
    requires site.sources == map[page := {"tier"}] && site.lockKey("subscription-sync") == 0
    requires rows == map["tier" := "old"]
    ensures LostItsOkRow(site, Exec(site, Start(rows), OneRun(page, "tier", "new") + LosingTail(stored)), page, stored)
  {
    var w := RunsUpToReturn(site, rows, page, "tier", "new");
    CommitThenLoseTheOkRow(site, w, page, stored);
    ThenThree(site, Start(rows), OneRun(page, "tier", "new"), LosingTail(stored));
  }

  ghost predicate LostItsOkRow(site: Site, w: World, page: Page, stored: bool) {
    && Stale(site, w, page)
    && w.commits == [0] && w.runs == OkRowIf(stored) + [RunRow(0, "subscription-sync", false, 0)]
    && w.firings.Keys == {0} && w.firings[0].phase.Over? && w.firings[0].delivered == {}
  }

  function OkRowIf(stored: bool): seq<RunRow> {
    if stored then [RunRow(0, "subscription-sync", true, 0)] else []
  }

  lemma CommitThenLoseTheOkRow(site: Site, w: World, page: Page, stored: bool)
    requires site.sources == map[page := {"tier"}]
    requires w == Returning(map["tier" := "old"], page, "tier", "new", 0, Cached(0, map["tier" := "old"]))
    ensures var w1 := Step(site, w, Commit(0));
            var w2 := Step(site, w1, RecordOkThrows(0, stored));
            LostItsOkRow(site, Step(site, w2, RecordFailed(0, true)), page, stored)
  {
    var before := map["tier" := "old"];
    var w1 := CommitsTheReturningRun(site, before, page, "tier", "new", 0, Cached(0, before));
    LoseTheOkRow(site, w1, page, stored);
  }

  lemma LoseTheOkRow(site: Site, w: World, page: Page, stored: bool)
    requires site.sources == map[page := {"tier"}]
    requires w == World([map["tier" := "old"], map["tier" := "new"]], [0],
                        map[0 := Firing(SYNC, 0, Committed, map["tier" := "new"], [page], true, {}, [page], false)],
                        map[], map[page := Cached(0, map["tier" := "old"])], [])
    ensures var w2 := Step(site, w, RecordOkThrows(0, stored));
            LostItsOkRow(site, Step(site, w2, RecordFailed(0, true)), page, stored)
  {
    var w2 := ThrowsAtTheOkRow(site, w, stored);
    var w3 := Step(site, w2, RecordFailed(0, true));
    assert w3.versions == w.versions && w3.cache == w.cache;
    assert RenderPage(site, page, Live(w3))["tier"] == "new";
  }

  lemma ThrowsAtTheOkRow(site: Site, w: World, stored: bool) returns (w2: World)
    requires w.versions != [] && w.firings.Keys == {0} && w.runs == []
    requires var x := w.firings[0]; x.phase.Committed? && x.committed && x.job == SYNC && x.key == 0
    ensures w2 == Step(site, w, RecordOkThrows(0, stored))
    ensures w2 == w.(firings := map[0 := w.firings[0].(phase := Failing)], runs := OkRowIf(stored))
  {
    w2 := Step(site, w, RecordOkThrows(0, stored));
  }

  lemma CommitsTheReturningRun(site: Site, rows: Rows, page: Page, row: Row, value: Value, key: Int64, cached: Cached)
    returns (w: World)
    requires rows.Keys == {row}
    ensures w == Step(site, Returning(rows, page, row, value, key, cached), Commit(0))
    ensures w == World([rows, map[row := value]], [0],
                       map[0 := Firing(SYNC, key, Committed, map[row := value], [page], true, {}, [page], false)],
                       map[], map[page := cached], [])
  {
    var w0 := Returning(rows, page, row, value, key, cached);
    var x := w0.firings[0];
    assert NextLocks(w0.locks, 0, x, x.(phase := Committed)) == map[];
    assert rows + map[row := value] == map[row := value];
    w := Step(site, w0, Commit(0));
  }

  const SYNC := Job("subscription-sync", None)

  function OneRun(page: Page, row: Row, value: Value): seq<Action> {
    [Render(page), Begin(0, SYNC), TryLock(0)] + [Write(0, row, value), Return(0, [page])]
  }

  function Returning(rows: Rows, page: Page, row: Row, value: Value, key: Int64, cached: Cached): World {
    World([rows], [], map[0 := Firing(SYNC, key, Returned, map[row := value], [page], false, {}, [page], false)],
          map[key := 0], map[page := cached], [])
  }

  lemma OneIsUnique(page: Page)
    ensures Unique([page]) == [page]
  {
    assert [page][..0] == [];
  }

  /** A page is cached, then one firing gets its lock, writes a row the page reads, and returns the page. */
  lemma RunsUpToReturn(site: Site, rows: Rows, page: Page, row: Row, value: Value) returns (w: World)
    requires site.sources.Keys == {page} && site.sources[page] == {row} && rows.Keys == {row}
    ensures w == Exec(site, Start(rows), OneRun(page, row, value))
    ensures w == Returning(rows, page, row, value, site.lockKey("subscription-sync"), Cached(0, rows))
  {
    var w3 := GetsItsLock(site, rows, page, row);
    var w4 := Step(site, w3, Write(0, row, value));
    assert w4.firings[0].writes == map[row := value];
    OneIsUnique(page);
    w := Step(site, w4, Return(0, [page]));
    ExecAppend(site, Start(rows), [Render(page), Begin(0, SYNC), TryLock(0)],
               [Write(0, row, value), Return(0, [page])]);
    UnrollTwo(site, w3, [Write(0, row, value), Return(0, [page])]);
  }

  lemma GetsItsLock(site: Site, rows: Rows, page: Page, row: Row) returns (w: World)
    requires site.sources.Keys == {page} && site.sources[page] == {row} && rows.Keys == {row}
    ensures w == Exec(site, Start(rows), [Render(page), Begin(0, SYNC), TryLock(0)])
    ensures var key := site.lockKey("subscription-sync");
            w == World([rows], [], map[0 := Firing(SYNC, key, InJob, map[], [], false, {}, [], false)],
                       map[key := 0], map[page := Cached(0, rows)], [])
  {
    assert RenderPage(site, page, rows) == rows;
    var w1 := Step(site, Start(rows), Render(page));
    assert w1 == World([rows], [], map[], map[], map[page := Cached(0, rows)], []);
    var w2 := Step(site, w1, Begin(0, SYNC));
    w := Step(site, w2, TryLock(0));
    UnrollThree(site, Start(rows), [Render(page), Begin(0, SYNC), TryLock(0)]);
  }

  lemma UnrollTwo(site: Site, w: World, t: seq<Action>)
    requires |t| == 2
    ensures Exec(site, w, t) == Step(site, Step(site, w, t[0]), t[1])
  {
    assert t == [] + [t[0]] + [t[1]];
    ExecOneMore(site, w, [], t[0]);
    ExecOneMore(site, w, [] + [t[0]], t[1]);
  }

  lemma UnrollThree(site: Site, w: World, t: seq<Action>)
    requires |t| == 3
    ensures Exec(site, w, t) == Step(site, Step(site, Step(site, w, t[0]), t[1]), t[2])
  {
    assert t == t[..2] + [t[2]];
    UnrollTwo(site, w, t[..2]);
    ExecOneMore(site, w, t[..2], t[2]);
  }

  lemma ThenThree(site: Site, w: World, front: seq<Action>, tail: seq<Action>)
    requires |tail| == 3
    ensures var w1 := Step(site, Exec(site, w, front), tail[0]);
            Exec(site, w, front + tail) == Step(site, Step(site, w1, tail[1]), tail[2])
  {
    ExecAppend(site, w, front, tail);
    UnrollThree(site, Exec(site, w, front), tail);
  }
}
