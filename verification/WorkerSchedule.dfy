/** The body of one cron firing, statement by statement, interleaved with everything else at each await. */
module WorkerSchedule {
  import opened WorkerProtocol
  import opened WorkerTheorems
  import opened Wrappers

  /** A job whose connection is lost runs on until its next query throws. */
  datatype JobOutcome = Returns(paths: seq<Page>) | JobThrows | LosesConnection
  datatype OkInsert = Inserted | InsertedUnheard | NotInserted
  datatype CommitOutcome = Acknowledged | Unacknowledged | Aborted

  /** One revalidation request: taken and answered, taken with its answer lost, or not taken. */
  datatype Answer = Accepted | Unheard | Refused

  /** How each awaited call of the firing turns out; whether the lock is free is up to the world. */
  datatype Script = Script(begins: bool, lockQueryThrows: bool, writes: seq<(Row, Value)>, job: JobOutcome,
                           commit: CommitOutcome, okInsert: OkInsert, answers: nat -> Answer, failedInserts: bool)

  /** What everything else does during the n-th await of the firing. */
  type Environment = nat -> seq<Action>

  datatype Outcome = Skipped | Ok | Failed

  function WritesOf(writes: seq<(Row, Value)>): Rows {
    if writes == [] then map[]
    else var last := writes[|writes| - 1]; WritesOf(writes[..|writes| - 1])[last.0 := last.1]
  }

  lemma OneMoreWrite(writes: seq<(Row, Value)>, i: nat)
    requires i < |writes|
    ensures WritesOf(writes[..i + 1]) == WritesOf(writes[..i])[writes[i].0 := writes[i].1]
  {
    assert writes[..i + 1][..i] == writes[..i];
  }

  // ---- Slices of one hundred -----------------------------------------------------------------------

  function SliceTaken(queue: seq<Page>, answer: Answer): set<Page> {
    if answer.Refused? then {} else Pages(NextSlice(queue))
  }

  function SliceCounted(queue: seq<Page>, answer: Answer): nat {
    if answer.Accepted? then SliceLength(queue) else 0
  }

  /** What the requests from the k-th on deliver of a queue. */
  function Taken(queue: seq<Page>, answers: nat -> Answer, k: nat): set<Page>
    decreases |queue|
  {
    if queue == [] then {}
    else
      SliceTaken(queue, answers(k)) + Taken(queue[SliceLength(queue)..], answers, k + 1)
  }

  /** How many of those paths the client counts as sent. */
  function Counted(queue: seq<Page>, answers: nat -> Answer, k: nat): nat
    decreases |queue|
  {
    if queue == [] then 0
    else
      SliceCounted(queue, answers(k)) + Counted(queue[SliceLength(queue)..], answers, k + 1)
  }

  /** With `rest` still to send from the k-th request on, the counts so far fit the whole. */
  ghost predicate Underway(queue: seq<Page>, answers: nat -> Answer, k: nat, rest: seq<Page>,
                           sent: nat, delivered: set<Page>)
  {
    && sent + Counted(rest, answers, k) == Counted(queue, answers, 0)
    && delivered + Taken(rest, answers, k) == Taken(queue, answers, 0)
  }

  lemma OneSlice(queue: seq<Page>, answers: nat -> Answer, k: nat, rest: seq<Page>, sent: nat, delivered: set<Page>)
    requires Underway(queue, answers, k, rest, sent, delivered) && rest != []
    ensures Underway(queue, answers, k + 1, rest[SliceLength(rest)..],
                     sent + SliceCounted(rest, answers(k)), delivered + SliceTaken(rest, answers(k)))
  {
  }

  lemma AllSent(queue: seq<Page>, answers: nat -> Answer, k: nat, rest: seq<Page>, sent: nat, delivered: set<Page>)
    requires Underway(queue, answers, k, rest, sent, delivered) && rest == []
    ensures sent == Counted(queue, answers, 0) && delivered == Taken(queue, answers, 0)
  {
  }

  function Sending(x: Firing, delivered: set<Page>, queue: seq<Page>): Firing {
    x.(delivered := delivered, queue := queue)
  }

  /** Every request from the k-th on is taken. */
  predicate AllTaken(queue: seq<Page>, answers: nat -> Answer, k: nat)
    decreases |queue|
  {
    queue == [] || (!answers(k).Refused? && AllTaken(queue[SliceLength(queue)..], answers, k + 1))
  }

  ghost predicate NoRepeats(queue: seq<Page>) {
    forall i, j | 0 <= i < j < |queue| :: queue[i] != queue[j]
  }

  lemma {:induction false} UniqueHasNoRepeats(paths: seq<Page>)
    ensures NoRepeats(Unique(paths))
  {
    if paths != [] {
      var front, last := paths[..|paths| - 1], paths[|paths| - 1];
      UniqueHasNoRepeats(front);
      UniqueKeepsMembers(front, last);
      assert forall i | 0 <= i < |Unique(front)| :: Unique(front)[i] in Unique(front);
    }
  }

  lemma {:induction false} TakenIsFromTheQueue(queue: seq<Page>, answers: nat -> Answer, k: nat, p: Page)
    requires p in Taken(queue, answers, k)
    ensures p in queue
    decreases |queue|
  {
    if p in Taken(queue[SliceLength(queue)..], answers, k + 1) {
      TakenIsFromTheQueue(queue[SliceLength(queue)..], answers, k + 1, p);
    }
  }

  lemma SliceIsNotInTheRest(queue: seq<Page>, n: nat, p: Page)
    requires NoRepeats(queue) && n <= |queue| && p in queue[n..]
    ensures p !in queue[..n]
  {
    var j :| n <= j < |queue| && queue[j] == p;
  }

  lemma RefusedSliceStays(queue: seq<Page>, answers: nat -> Answer, k: nat)
    requires NoRepeats(queue) && queue != [] && answers(k).Refused?
    ensures queue[0] in queue && queue[0] !in Taken(queue, answers, k)
  {
    var n := SliceLength(queue);
    assert queue[0] == queue[..n][0];
    if queue[0] in Taken(queue[n..], answers, k + 1) {
      TakenIsFromTheQueue(queue[n..], answers, k + 1, queue[0]);
      SliceIsNotInTheRest(queue, n, queue[0]);
    }
  }

  /** Once a slice has been taken, the queue is delivered whole exactly when the rest of it is. */
  lemma TakenSliceLeavesTheRest(queue: seq<Page>, n: nat, taken: set<Page>)
    requires NoRepeats(queue) && n <= |queue| && forall p | p in taken :: p in queue[n..]
    ensures Pages(queue[..n]) + taken == Pages(queue) <==> taken == Pages(queue[n..])
  {
    assert queue == queue[..n] + queue[n..];
    if Pages(queue[..n]) + taken == Pages(queue) {
      forall p | p in queue[n..] ensures p in taken {
        SliceIsNotInTheRest(queue, n, p);
        assert p in Pages(queue);
      }
    }
  }

  /** The whole queue is delivered if and only if no slice of it is refused. */
  lemma {:induction false} DeliversAllIff(queue: seq<Page>, answers: nat -> Answer, k: nat)
    requires NoRepeats(queue)
    ensures Taken(queue, answers, k) == Pages(queue) <==> AllTaken(queue, answers, k)
    decreases |queue|
  {
    if queue != [] {
      var n := SliceLength(queue);
      DeliversAllIff(queue[n..], answers, k + 1);
      if answers(k).Refused? {
        RefusedSliceStays(queue, answers, k);
      } else {
        forall p | p in Taken(queue[n..], answers, k + 1) ensures p in queue[n..] {
          TakenIsFromTheQueue(queue[n..], answers, k + 1, p);
        }
        TakenSliceLeavesTheRest(queue, n, Taken(queue[n..], answers, k + 1));
      }
    }
  }

  /** A request holds a hundred paths, or all that are left if they are fewer. */
  lemma ARequestHoldsAHundred(queue: seq<Page>)
    ensures NextSlice(queue) <= queue && |NextSlice(queue)| <= 100
    ensures |NextSlice(queue)| == 100 || NextSlice(queue) == queue
  {
  }

  /** The q-th path is delivered if and only if request q / 100 is not refused. */
  lemma {:induction false} DeliveredByPosition(queue: seq<Page>, answers: nat -> Answer, k: nat, q: nat)
    requires NoRepeats(queue) && q < |queue|
    ensures queue[q] in Taken(queue, answers, k) <==> !answers(k + q / 100).Refused?
    decreases |queue|
  {
    var n := SliceLength(queue);
    var rest := queue[n..];
    if q < n {
      assert queue[..n][q] == queue[q];
      if queue[q] in Taken(rest, answers, k + 1) {
        TakenIsFromTheQueue(rest, answers, k + 1, queue[q]);
        SliceIsNotInTheRest(queue, n, queue[q]);
      }
    } else {
      assert n == 100 && q / 100 == (q - 100) / 100 + 1 && rest[q - 100] == queue[q];
      SliceIsNotInTheRest(queue, n, queue[q]);
      DeliveredByPosition(rest, answers, k + 1, q - 100);
    }
  }

  /** How many of the first m positions fall to a request, from the k-th on, that is answered. */
  function AnsweredPositions(answers: nat -> Answer, k: nat, m: nat): nat {
    if m == 0 then 0
    else AnsweredPositions(answers, k, m - 1) + if answers(k + (m - 1) / 100).Accepted? then 1 else 0
  }

  lemma {:induction false} FirstHundredPositions(answers: nat -> Answer, k: nat, m: nat)
    ensures AnsweredPositions(answers, k, m) ==
              if m <= 100 then if answers(k).Accepted? then m else 0
              else (if answers(k).Accepted? then 100 else 0) + AnsweredPositions(answers, k + 1, m - 100)
  {
    if m > 0 {
      FirstHundredPositions(answers, k, m - 1);
      if m > 100 {
        assert (m - 1) / 100 == (m - 101) / 100 + 1;
      }
    }
  }

  /** The client's count is the number of paths whose request is answered. */
  lemma {:induction false} CountedByPosition(queue: seq<Page>, answers: nat -> Answer, k: nat)
    ensures Counted(queue, answers, k) == AnsweredPositions(answers, k, |queue|)
    decreases |queue|
  {
    FirstHundredPositions(answers, k, |queue|);
    if queue != [] {
      CountedByPosition(queue[SliceLength(queue)..], answers, k + 1);
    }
  }

  /** Paths are sent in the order in which the job first named them. */
  lemma {:induction false} UniqueInOrder(paths: seq<Page>, i: nat, j: nat) returns (a: nat)
    requires i < j < |Unique(paths)|
    ensures a < |paths| && paths[a] == Unique(paths)[i] && Unique(paths)[j] !in paths[..a + 1]
  {
    var n := |paths| - 1;
    var front := paths[..n];
    if j < |Unique(front)| {
      a := UniqueInOrder(front, i, j);
      assert front[..a + 1] == paths[..a + 1];
    } else {
      assert Unique(front)[i] in Unique(front);
      UniqueKeepsMembers(front, Unique(front)[i]);
      a :| 0 <= a < n && front[a] == Unique(front)[i];
      assert forall p | p in paths[..a + 1] :: p in front;
    }
  }

  /** Every path a job returned is delivered, once or more often named, if and only if no request is refused. */
  lemma DeliversEveryPathIff(paths: seq<Page>, answers: nat -> Answer)
    ensures Taken(Unique(paths), answers, 0) == Pages(paths) <==> AllTaken(Unique(paths), answers, 0)
  {
    forall p ensures p in Unique(paths) <==> p in paths {
      UniqueKeepsMembers(paths, p);
    }
    assert Pages(Unique(paths)) == Pages(paths);
    UniqueHasNoRepeats(paths);
    DeliversAllIff(Unique(paths), answers, 0);
  }

  lemma {:induction false} NothingLogged(runs: seq<RunRow>, f: Id)
    requires forall i | 0 <= i < |runs| :: runs[i].firing != f
    ensures Logged(runs, f) == []
  {
    if runs != [] {
      NothingLogged(runs[..|runs| - 1], f);
    }
  }

  lemma NewFiringHasNoRow(site: Site, rows: Rows, trace: seq<Action>, f: Id)
    requires f !in Exec(site, Start(rows), trace).firings
    ensures Logged(Exec(site, Start(rows), trace).runs, f) == []
  {
    EveryReachableWorld(site, rows, trace);
    NothingLogged(Exec(site, Start(rows), trace).runs, f);
  }

  /** Recording the failure does not change whether the firing has committed, nor whether its commit was lost. */
  lemma FailureIsDecided(site: Site, rows: Rows, before: seq<Action>, after: seq<Action>, f: Id)
    requires before <= after && In(Exec(site, Start(rows), before), f, Failing)
    requires var w, w' := Exec(site, Start(rows), before), Exec(site, Start(rows), after);
             f in w'.firings && w'.firings[f].committed == w.firings[f].committed
    ensures Exec(site, Start(rows), after).firings[f].committed <==> Lost(site, Start(rows), after, f)
  {
    FailedHidesACommitIff(site, rows, before, f);
    if Lost(site, Start(rows), before, f) {
      assert after == before + after[|before|..];
      LostForGood(site, Start(rows), before, after[|before|..], f);
    }
    EveryWorldDecides(site, rows, after, f);
  }

  predicate NotOf(trace: seq<Action>, f: Id) {
    forall a | a in trace && !a.Render? :: a.f != f
  }

  lemma OneMoreAction(before: seq<Action>, actions: seq<Action>, i: nat)
    requires i < |actions|
    ensures before + actions[..i] + [actions[i]] == before + actions[..i + 1]
  {
  }

  ghost predicate Elsewhere(others: Environment, f: Id) {
    forall n :: NotOf(others(n), f)
  }

  /** Same firing record, same rows in the log. */
  ghost predicate SameFor(f: Id, w: World, w': World) {
    && (f in w'.firings <==> f in w.firings)
    && (f in w.firings ==> w'.firings[f] == w.firings[f])
    && Logged(w'.runs, f) == Logged(w.runs, f)
  }

  lemma OthersKeepTheFiring(site: Site, w: World, a: Action, f: Id)
    requires a.Render? || a.f != f
    ensures var w' := Step(site, w, a);
            && (f in w'.firings <==> f in w.firings)
            && (f in w.firings ==> w'.firings[f] == w.firings[f])
  {
    StepFirings(site, w, a);
  }

  lemma OthersLeaveItAlone(site: Site, w: World, a: Action, f: Id, w': World)
    requires (a.Render? || a.f != f) && w' == Step(site, w, a)
    ensures SameFor(f, w, w')
  {
    OthersKeepTheFiring(site, w, a, f);
    LoggedOfStep(site, w, a, f, w');
  }

  lemma CommittedQueueIsWhole(site: Site, rows: Rows, trace: seq<Action>, f: Id)
    requires In(Exec(site, Start(rows), trace), f, Committed)
    ensures var x := Exec(site, Start(rows), trace).firings[f]; x.committed && x.queue == Unique(x.paths)
  {
    EveryReachableWorld(site, rows, trace);
    assert FiringOk(site, Exec(site, Start(rows), trace).firings[f]);
  }

  /** The callback is reached and returns: no throw before it, the lock granted, the job through. */
  predicate JobReturned(x: Firing, s: Script, began: bool) {
    began && !s.lockQueryThrows && !x.refused && s.job.Returns?
  }

  /**
   What the transaction call leaves of a firing. It runs exactly when its job returns and COMMIT is answered,
   has committed exactly when its job returns and COMMIT is not aborted, and resolves false exactly when the
   lock is refused and the COMMIT of the empty transaction is answered; anything else throws.
   */
  predicate Attempted(x: Firing, s: Script, began: bool, ran: bool, threw: bool) {
    && x.phase == (if threw then Failing else if ran then Committed else Over)
    && x.delivered == {}
    && (x.refused ==> began && !s.lockQueryThrows)
    && (ran <==> JobReturned(x, s, began) && s.commit.Acknowledged?)
    && (threw <==> !ran && !(x.refused && s.commit.Acknowledged?))
    && (x.committed <==> JobReturned(x, s, began) && !s.commit.Aborted?)
    && (x.committed ==> x.paths == s.job.paths && x.writes == WritesOf(s.writes))
  }

  /** The rows of a finished firing: it gets to its ok insert when its commit is made and acknowledged. */
  function RowsFor(committed: bool, s: Script, outcome: Outcome): seq<bool> {
    match outcome
    case Skipped => []
    case Ok => [true]
    case Failed =>
      RowsOf(false, committed && s.commit.Acknowledged? && s.okInsert.InsertedUnheard?, s.failedInserts)
  }

  /** Which outcome a finished firing has, whether it has committed, and what it has sent. */
  predicate Fired(x: Firing, s: Script, outcome: Outcome, configured: bool) {
    && (x.refused ==> s.begins && !s.lockQueryThrows)
    && (outcome.Skipped? <==> x.refused && s.commit.Acknowledged?)
    && (outcome.Ok? <==> JobReturned(x, s, s.begins) && s.commit.Acknowledged? && s.okInsert.Inserted?)
    && (x.committed <==> JobReturned(x, s, s.begins) && !s.commit.Aborted?)
    && (x.committed ==> x.paths == s.job.paths && x.writes == WritesOf(s.writes))
    && x.delivered == (if outcome.Ok? && configured then Taken(Unique(x.paths), s.answers, 0) else {})
  }

  lemma SkippedIsFired(x: Firing, s: Script, configured: bool)
    requires Attempted(x, s, s.begins, false, false)
    ensures Fired(x, s, Skipped, configured)
  {
  }

  /** What the steps after the transaction call leave alone. */
  predicate SameRun(x: Firing, x': Firing) {
    && x'.job == x.job && x'.key == x.key && x'.refused == x.refused
    && x'.committed == x.committed && x'.paths == x.paths && x'.writes == x.writes
  }

  lemma OkIsFired(x: Firing, x': Firing, s: Script, configured: bool)
    requires Attempted(x, s, s.begins, true, false) && SameRun(x, x') && s.okInsert.Inserted?
    requires x'.delivered == if configured then Taken(Unique(x.paths), s.answers, 0) else {}
    ensures Fired(x', s, Ok, configured)
  {
  }

  lemma FailedIsFired(x: Firing, x': Firing, s: Script, ran: bool, threw: bool, configured: bool)
    requires Attempted(x, s, s.begins, ran, threw) && SameRun(x, x') && x'.delivered == {}
    requires threw || (ran && !s.okInsert.Inserted?)
    ensures Fired(x', s, Failed, configured)
  {
  }

  class Worker {
    const site: Site
    ghost const rows: Rows
    var world: World
    var turn: nat
    ghost var history: seq<Action>

    /** The world is one the protocol reaches, so every theorem about reachable worlds applies to it. */
    ghost predicate Valid()
      reads this
    {
      world == Exec(site, Start(rows), history) && world.versions != []
    }

    constructor (site: Site, rows: Rows)
      ensures Valid() && this.site == site && this.rows == rows && history == [] && turn == 0
    {
      this.site := site;
      this.rows := rows;
      world := Start(rows);
      turn := 0;
      history := [];
    }

    method Perform(a: Action)
      requires Valid()
      modifies this
      ensures Valid() && history == old(history) + [a] && world == Step(site, old(world), a) && turn == old(turn)
    {
      assert (history + [a])[..|history + [a]| - 1] == history;
      world := Step(site, world, a);
      history := history + [a];
    }

    /** An action of firing f: its own next state, and a row in the log when it is a logging action. */
    method Take(f: Id, a: Action)
      requires Valid() && !a.Render? && a.f == f && f in world.firings && CanMove(site, world.firings[f], a)
      modifies this
      ensures Valid() && history == old(history) + [a] && turn == old(turn) && f in world.firings
      ensures var x := old(world).firings[f]; world.firings[f] == Move(x, a, x.key !in old(world).locks)
      ensures Logged(world.runs, f) == Logged(old(world).runs, f) + RowLeft(true, a)
    {
      ghost var before := world;
      Perform(a);
      LoggedOfStep(site, before, a, f, world);
    }

    method Act(f: Id, a: Action)
      requires Valid() && !a.Render? && a.f == f && f in world.firings && CanMove(site, world.firings[f], a)
      modifies this
      ensures Valid() && old(history) <= history && f in world.firings
      ensures var x := old(world).firings[f]; world.firings[f] == Move(x, a, x.key !in old(world).locks)
      ensures Logged(world.runs, f) == Logged(old(world).runs, f) + RowLeft(true, a)
    {
      Take(f, a);
    }

    method Other(f: Id, a: Action)
      requires Valid() && (a.Render? || a.f != f)
      modifies this
      ensures Valid() && history == old(history) + [a] && turn == old(turn)
      ensures SameFor(f, old(world), world)
    {
      ghost var before := world;
      Perform(a);
      OthersLeaveItAlone(site, before, a, f, world);
    }

    /** Whatever the other firings, the web container and other workers do during this one await. */
    method Await(f: Id, others: Environment)
      requires Valid() && Elsewhere(others, f)
      modifies this
      ensures Valid() && turn == old(turn) + 1 && history == old(history) + others(old(turn))
      ensures SameFor(f, old(world), world)
    {
      var actions := others(turn);
      assert NotOf(actions, f);
      turn := turn + 1;
      for i := 0 to |actions|
        invariant Valid() && turn == old(turn) + 1 && history == old(history) + actions[..i]
        invariant SameFor(f, old(world), world)
      {
        OneMoreAction(old(history), actions, i);
        Other(f, actions[i]);
      }
      assert actions[..|actions|] == actions;
    }

    method WriteRow(f: Id, row: Row, value: Value, others: Environment)
      requires Valid() && In(world, f, InJob) && Elsewhere(others, f)
      modifies this
      ensures Valid() && old(history) <= history
      ensures f in world.firings
      ensures var x := old(world).firings[f]; world.firings[f] == x.(writes := x.writes[row := value])
      ensures Logged(world.runs, f) == Logged(old(world).runs, f)
    {
      Act(f, Write(f, row, value));
      Await(f, others);
    }

    /** fn(tx): the job's writes, one await each. */
    method RunJob(f: Id, writes: seq<(Row, Value)>, others: Environment)
      requires Valid() && In(world, f, InJob) && world.firings[f].writes == map[]
      requires Elsewhere(others, f)
      modifies this
      ensures Valid() && old(history) <= history
      ensures In(world, f, InJob) && world.firings[f] == old(world).firings[f].(writes := WritesOf(writes))
      ensures Logged(world.runs, f) == Logged(old(world).runs, f)
    {
      for i := 0 to |writes|
        invariant Valid() && old(history) <= history
        invariant In(world, f, InJob)
        invariant world.firings[f] == old(world).firings[f].(writes := WritesOf(writes[..i]))
        invariant Logged(world.runs, f) == Logged(old(world).runs, f)
      {
        WriteRow(f, writes[i].0, writes[i].1, others);
        OneMoreWrite(writes, i);
      }
      assert writes[..|writes|] == writes;
    }

    /** The job does not return: it throws, or goes on without its transaction until a query does. */
    method JobFails(f: Id, connectionLost: bool, others: Environment)
      requires Valid() && In(world, f, InJob) && Elsewhere(others, f)
      modifies this
      ensures Valid() && old(history) <= history
      ensures connectionLost ==> history == old(history) + [ConnectionLost(f)] + others(old(turn)) + [Throw(f)]
      ensures !connectionLost ==> history == old(history) + [Throw(f)]
      ensures In(world, f, Failing)
      ensures world.firings[f] == old(world).firings[f].(phase := Failing, writes := map[])
      ensures Logged(world.runs, f) == Logged(old(world).runs, f)
    {
      if connectionLost {
        Take(f, ConnectionLost(f));
        Await(f, others);
      }
      Take(f, Throw(f));
    }

    /** COMMIT, once the job has returned. */
    method EndTransaction(f: Id, commit: CommitOutcome) returns (threw: bool)
      requires Valid() && In(world, f, Returned)
      modifies this
      ensures Valid() && old(history) <= history
      ensures threw == !commit.Acknowledged? && In(world, f, if threw then Failing else Committed)
      ensures var x, x' := old(world).firings[f], world.firings[f];
              && x'.job == x.job && x'.key == x.key
              && x'.delivered == x.delivered && x'.refused == x.refused && x'.paths == x.paths
              && x'.committed == (x.committed || !commit.Aborted?)
              && (!commit.Aborted? ==> x'.writes == x.writes)
      ensures Logged(world.runs, f) == Logged(old(world).runs, f)
    {
      threw := !commit.Acknowledged?;
      match commit
      case Acknowledged => Act(f, Commit(f));
      case Unacknowledged => Act(f, CommitUnacknowledged(f));
      case Aborted => Act(f, Throw(f));
    }

    /** The transaction callback once the lock is held: the job, its paths, then COMMIT. */
    method JobThenCommit(f: Id, s: Script, others: Environment) returns (threw: bool)
      requires Valid() && In(world, f, InJob)
      requires var x := world.firings[f]; x.writes == map[] && !x.committed && x.delivered == {} && !x.refused
      requires s.job.Returns? ==> Covers(site, WritesOf(s.writes), s.job.paths)
      requires Elsewhere(others, f)
      modifies this
      ensures Valid() && old(history) <= history
      ensures In(world, f, if threw then Failing else Committed)
      ensures var x := world.firings[f];
              && x.delivered == {}
              && x.committed == (s.job.Returns? && !s.commit.Aborted?)
              && threw == !(s.job.Returns? && s.commit.Acknowledged?)
              && (x.committed ==> x.paths == s.job.paths && x.writes == WritesOf(s.writes))
              && !x.refused && x.job == old(world).firings[f].job && x.key == old(world).firings[f].key
      ensures Logged(world.runs, f) == Logged(old(world).runs, f)
    {
      RunJob(f, s.writes, others);
      if !s.job.Returns? {
        JobFails(f, s.job.LosesConnection?, others);
        return true;
      }
      Act(f, Return(f, s.job.paths));
      Await(f, others);
      threw := EndTransaction(f, s.commit);
    }

    /** The COMMIT of a refused firing. */
    method EndEmptyTransaction(f: Id, commit: CommitOutcome) returns (threw: bool)
      requires Valid() && In(world, f, Phase.Refused)
      modifies this
      ensures Valid() && old(history) <= history
      ensures threw == !commit.Acknowledged? && In(world, f, if threw then Failing else Over)
      ensures var x, x' := old(world).firings[f], world.firings[f];
              && x'.job == x.job && x'.key == x.key && x'.refused == x.refused
              && x'.committed == x.committed && x'.delivered == x.delivered
      ensures Logged(world.runs, f) == Logged(old(world).runs, f)
    {
      threw := !commit.Acknowledged?;
      if threw {
        Act(f, Throw(f));
      } else {
        Act(f, Commit(f));
      }
    }

    /**
     withAdvisoryLock: `ran` is what the transaction call resolves to unless it throws. A refused firing's
     empty transaction is committed too, and that COMMIT may throw like any other.
     */
    method WithAdvisoryLock(f: Id, s: Script, others: Environment) returns (ran: bool, threw: bool)
      requires Valid() && In(world, f, Opened)
      requires var x := world.firings[f]; x.writes == map[] && !x.committed && x.delivered == {} && !x.refused
      requires s.job.Returns? ==> Covers(site, WritesOf(s.writes), s.job.paths)
      requires Elsewhere(others, f)
      modifies this
      ensures Valid() && old(history) <= history
      ensures f in world.firings && Attempted(world.firings[f], s, true, ran, threw)
      ensures var x, x' := old(world).firings[f], world.firings[f]; x'.job == x.job && x'.key == x.key
      ensures Logged(world.runs, f) == Logged(old(world).runs, f)
    {
      ran, threw := false, false;
      if s.lockQueryThrows {
        Act(f, Throw(f));
        threw := true;
        return;
      }
      Act(f, TryLock(f));
      Await(f, others);
      if world.firings[f].phase.Refused? {
        threw := EndEmptyTransaction(f, s.commit);
        return;
      }
      threw := JobThenCommit(f, s, others);
      ran := !threw;
    }

    /** One request: the next slice, taken by the web container or not. */
    method Post(f: Id, answer: Answer, others: Environment)
      requires Valid() && In(world, f, Recorded) && site.configured && world.firings[f].queue != []
      requires Elsewhere(others, f)
      modifies this
      ensures Valid() && old(history) <= history
      ensures In(world, f, Recorded)
      ensures var x := old(world).firings[f];
              world.firings[f] ==
                Sending(x, x.delivered + SliceTaken(x.queue, answer), x.queue[SliceLength(x.queue)..])
      ensures Logged(world.runs, f) == Logged(old(world).runs, f)
    {
      Act(f, Deliver(f, !answer.Refused?));
      Await(f, others);
    }

    /** The loop over the slices. */
    method SendSlices(f: Id, unique: seq<Page>, answers: nat -> Answer, others: Environment) returns (sent: nat)
      requires Valid() && In(world, f, Recorded) && site.configured
      requires world.firings[f].delivered == {} && world.firings[f].queue == unique
      requires Elsewhere(others, f)
      modifies this
      ensures Valid() && old(history) <= history
      ensures f in world.firings && sent == Counted(unique, answers, 0)
      ensures world.firings[f] == Sending(old(world).firings[f], Taken(unique, answers, 0), [])
      ensures Logged(world.runs, f) == Logged(old(world).runs, f)
    {
      ghost var x, done, rest := world.firings[f], {}, unique;
      var i, k := 0, 0;
      sent := 0;
      while i < |unique|
        invariant 0 <= i <= |unique| && rest == unique[i..] && Valid() && old(history) <= history
        invariant f in world.firings && world.firings[f] == Sending(x, done, rest)
        invariant Underway(unique, answers, k, rest, sent, done)
        invariant Logged(world.runs, f) == Logged(old(world).runs, f)
      {
        var n := SliceLength(unique[i..]);
        OneSlice(unique, answers, k, rest, sent, done);
        Post(f, answers(k), others);
        done := done + SliceTaken(rest, answers(k));
        sent := sent + SliceCounted(unique[i..], answers(k));
        rest := rest[n..];
        i, k := i + n, k + 1;
      }
      AllSent(unique, answers, k, rest, sent, done);
    }

    /** revalidatePaths: the unique paths, one request a slice; it never throws. */
    method RevalidatePaths(f: Id, answers: nat -> Answer, others: Environment) returns (sent: nat)
      requires Valid() && In(world, f, Recorded)
      requires var x := world.firings[f]; x.delivered == {} && x.queue == Unique(x.paths)
      requires Elsewhere(others, f)
      modifies this
      ensures Valid() && old(history) <= history
      ensures In(world, f, Recorded)
      ensures var x := old(world).firings[f];
              && sent == (if site.configured then Counted(x.queue, answers, 0) else 0)
              && world.firings[f] == if site.configured then Sending(x, Taken(x.queue, answers, 0), []) else x
      ensures Logged(world.runs, f) == Logged(old(world).runs, f)
    {
      var unique := Unique(world.firings[f].paths);
      if |unique| == 0 || !site.configured {
        return 0;
      }
      sent := SendSlices(f, unique, answers, others);
    }

    /** The paths, if the job returned any; then the firing is over. */
    method SendPaths(f: Id, answers: nat -> Answer, others: Environment)
      requires Valid() && In(world, f, Recorded)
      requires var x := world.firings[f]; x.delivered == {} && x.queue == Unique(x.paths)
      requires Elsewhere(others, f)
      modifies this
      ensures Valid() && old(history) <= history
      ensures In(world, f, Over)
      ensures var x, x' := old(world).firings[f], world.firings[f];
              && SameRun(x, x')
              && x'.delivered == if site.configured then Taken(Unique(x.paths), answers, 0) else {}
      ensures Logged(world.runs, f) == Logged(old(world).runs, f)
    {
      if world.firings[f].paths != [] {
        var _ := RevalidatePaths(f, answers, others);
      }
      Act(f, Finish(f));
    }

    /** After the transaction call: the ok row, then the paths; false when the insert throws, stored or not. */
    method RecordThenRevalidate(f: Id, s: Script, others: Environment) returns (recorded: bool)
      requires Valid() && In(world, f, Committed) && world.firings[f].delivered == {}
      requires Elsewhere(others, f)
      modifies this
      ensures Valid() && old(history) <= history
      ensures recorded == s.okInsert.Inserted?
      ensures In(world, f, if recorded then Over else Failing)
      ensures var x, x' := old(world).firings[f], world.firings[f];
              && x'.committed && SameRun(x, x')
              && x'.delivered == if recorded && site.configured then Taken(Unique(x.paths), s.answers, 0) else {}
      ensures Logged(world.runs, f) == Logged(old(world).runs, f) + if s.okInsert.NotInserted? then [] else [true]
    {
      Await(f, others);
      CommittedQueueIsWhole(site, rows, history, f);
      recorded := s.okInsert.Inserted?;
      if recorded {
        Act(f, RecordOk(f));
        Await(f, others);
        SendPaths(f, s.answers, others);
      } else {
        Act(f, RecordOkThrows(f, s.okInsert.InsertedUnheard?));
      }
    }

    /**
     The catch block: its own insert may fail too, and that is swallowed. The firing has committed exactly
     when its ok row or the answer to its commit was lost.
     */
    method RecordFailure(f: Id, stored: bool, others: Environment)
      requires Valid() && In(world, f, Failing) && Elsewhere(others, f)
      modifies this
      ensures Valid() && old(history) <= history
      ensures In(world, f, Over) && world.firings[f] == old(world).firings[f].(phase := Over)
      ensures world.firings[f].committed <==> Lost(site, Start(rows), history, f)
      ensures Logged(world.runs, f) == Logged(old(world).runs, f) + if stored then [false] else []
    {
      Await(f, others);
      ghost var before := history;
      Act(f, RecordFailed(f, stored));
      FailureIsDecided(site, rows, before, history, f);
    }

    /** The try block: begin, lock, job and commit. */
    method Attempt(f: Id, job: Job, s: Script, others: Environment) returns (ran: bool, threw: bool)
      requires Valid() && f !in world.firings
      requires s.job.Returns? ==> Covers(site, WritesOf(s.writes), s.job.paths)
      requires Elsewhere(others, f)
      modifies this
      ensures Valid() && old(history) <= history
      ensures f in world.firings && Attempted(world.firings[f], s, s.begins, ran, threw)
      ensures world.firings[f].job == job && world.firings[f].key == site.lockKey(job.LockName())
      ensures Logged(world.runs, f) == []
    {
      NewFiringHasNoRow(site, rows, history, f);
      if s.begins {
        Perform(Begin(f, job));
        Await(f, others);
        ran, threw := WithAdvisoryLock(f, s, others);
      } else {
        Perform(BeginFails(f, job));
        ran, threw := false, true;
      }
    }

    /** The rest of the try block, and the catch block if anything has thrown. */
    method AfterAttempt(f: Id, s: Script, ran: bool, threw: bool, others: Environment) returns (outcome: Outcome)
      requires Valid() && f in world.firings && Attempted(world.firings[f], s, s.begins, ran, threw)
      requires Logged(world.runs, f) == [] && Elsewhere(others, f)
      modifies this
      ensures Valid() && old(history) <= history
      ensures In(world, f, Over)
      ensures Logged(world.runs, f) == RowsFor(world.firings[f].committed, s, outcome)
      ensures Fired(world.firings[f], s, outcome, site.configured)
      ensures SameRun(old(world).firings[f], world.firings[f])
      ensures outcome.Failed? ==> (world.firings[f].committed <==> Lost(site, Start(rows), history, f))
    {
      ghost var x := world.firings[f];
      if !threw {
        if !ran {
          SkippedIsFired(x, s, site.configured);
          return Skipped;
        }
        var recorded := RecordThenRevalidate(f, s, others);
        if recorded {
          OkIsFired(x, world.firings[f], s, site.configured);
          return Ok;
        }
      }
      RecordFailure(f, s.failedInserts, others);
      FailedIsFired(x, world.firings[f], s, ran, threw, site.configured);
      outcome := Failed;
    }

    /**
     One firing from start to end. Whatever happens around it, it ends Over, having logged exactly the rows of
     its inserts that were stored. It is Ok exactly when it begins, gets its lock, its job returns, and both
     COMMIT and the ok insert are answered; skipped exactly when the lock was held when it was tried and the
     COMMIT of its empty transaction is answered; else it failed, and has committed exactly when its ok row or
     its commit's answer was lost. Only an Ok one sends paths, and exactly the slices taken.
     */
    method Fire(f: Id, job: Job, s: Script, others: Environment) returns (outcome: Outcome)
      requires Valid() && f !in world.firings
      requires s.job.Returns? ==> Covers(site, WritesOf(s.writes), s.job.paths)
      requires Elsewhere(others, f)
      modifies this
      ensures Valid() && old(history) <= history
      ensures In(world, f, Over)
      ensures Logged(world.runs, f) == RowsFor(world.firings[f].committed, s, outcome)
      ensures Fired(world.firings[f], s, outcome, site.configured)
      ensures world.firings[f].job == job && world.firings[f].key == site.lockKey(job.LockName())
      ensures outcome.Failed? ==> (world.firings[f].committed <==> Lost(site, Start(rows), history, f))
    {
      var ran, threw := Attempt(f, job, s, others);
      outcome := AfterAttempt(f, s, ran, threw, others);
    }
  }
}
