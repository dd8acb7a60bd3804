/**
 How the two pools end a worker. A worker asked to terminate replies with null and then exits; in between the pool
 goes on, and the reply has already let a SQLite worker take the next job.
 */
module PoolTermination {
  import opened Options
  import opened WorkerPool

  // ---------------------------------------------------------------- one submission

  predicate Idle(p: Pool, w: WorkerId) {
    w in p.slots && p.slots[w].None?
  }

  /** Every worker listed before `w` is busy. */
  predicate BusyBefore(p: Pool, w: WorkerId) {
    forall i, j :: 0 <= i < j < |p.workers| && p.workers[j] == w ==> !Idle(p, p.workers[i])
  }

  /** While one job waits, draining the first `n` workers gives it to the first idle one of them. */
  lemma {:induction false} DrainOne(p: Pool, n: nat)
    requires Listed(p) && |p.queue| == 1 && n <= |p.workers|
    ensures (forall i :: 0 <= i < n ==> !Idle(p, p.workers[i])) ==> Drain(p, p.workers[..n]) == p
    ensures forall f :: 0 <= f < n && Idle(p, p.workers[f]) && (forall i :: 0 <= i < f ==> !Idle(p, p.workers[i])) ==>
      Drain(p, p.workers[..n]) == TakeWork(p, p.workers[f])
  {
    if n > 0 {
      DrainOne(p, n - 1);
      assert p.workers[..n][..n - 1] == p.workers[..n - 1];
    }
  }

  lemma {:induction false} FirstIdle(p: Pool, n: nat) returns (f: nat)
    requires n < |p.workers| && Idle(p, p.workers[n])
    ensures f <= n && Idle(p, p.workers[f]) && forall i :: 0 <= i < f ==> !Idle(p, p.workers[i])
  {
    if i: nat :| i < n && Idle(p, p.workers[i]) {
      f := FirstIdle(p, i);
    } else {
      f := n;
    }
  }

  /** A submission to a pool with an idle worker and nothing waiting goes to the first idle worker. */
  lemma SubmitTakes(p: Pool, terminate: bool, w: WorkerId) returns (f: nat)
    requires Listed(p) && p.queue == [] && w in p.workers && Idle(p, w)
    ensures f < |p.workers| && Idle(p, p.workers[f]) && (p.workers[f] == w <==> BusyBefore(p, w))
    ensures Submit(p, terminate) == TakeWork(Push(p, terminate), p.workers[f])
  {
    var n: nat :| n < |p.workers| && p.workers[n] == w;
    f := FirstIdle(p, n);
    DrainOne(Push(p, terminate), |p.workers|);
    assert p.workers[..|p.workers|] == p.workers;
  }

  /** It reaches an idle worker exactly when all those listed before it are busy. */
  lemma SubmitReaches(p: Pool, terminate: bool, w: WorkerId)
    requires Listed(p) && p.queue == [] && w in p.workers && Idle(p, w)
    ensures var q := Submit(p, terminate);
      && Listed(q) && q.workers == p.workers && q.queue == [] && w in q.slots && |q.submissions| == |p.submissions| + 1
      && (q.slots[w].Some? <==> BusyBefore(p, w))
      && (q.slots[w].Some? ==> q.slots[w] == Some(Job(|p.submissions|, terminate)))
      && |IdleListed(q)| + 1 == |IdleListed(p)|
  {
    var f := SubmitTakes(p, terminate, w);
    var q := Submit(p, terminate);
    assert IdleListed(p) == IdleListed(q) + {p.workers[f]} && p.workers[f] !in IdleListed(q);
  }

  // ---------------------------------------------------------------- one terminate job for each worker

  function IdleListed(p: Pool): set<WorkerId> {
    set w | w in p.workers && Idle(p, w)
  }

  function Elements(workers: seq<WorkerId>): set<WorkerId> {
    set w | w in workers
  }

  lemma {:induction false} NoMoreThan(workers: seq<WorkerId>)
    ensures |Elements(workers)| <= |workers|
  {
    if workers != [] {
      var last := |workers| - 1;
      NoMoreThan(workers[..last]);
      assert workers == workers[..last] + [workers[last]];
      assert Elements(workers) == Elements(workers[..last]) + {workers[last]};
    }
  }

  lemma IdleAreListed(p: Pool)
    ensures |IdleListed(p)| <= |p.workers|
  {
    NoMoreThan(p.workers);
    Fewer(IdleListed(p), Elements(p.workers));
  }

  lemma Fewer(a: set<WorkerId>, b: set<WorkerId>)
    requires a <= b
    ensures |a| <= |b|
  {
    assert b == a + (b - a);
  }

  lemma SubmitSpares(p: Pool, terminate: bool, w: WorkerId)
    requires Valid(p) && w in p.workers && !Idle(p, w)
    ensures var q := Submit(p, terminate);
      && Valid(q) && q.workers == p.workers && w in q.slots && q.slots[w] == p.slots[w]
        && |q.submissions| == |p.submissions| + 1
  {
    PushKeeps(p, terminate);
    DrainKeeps(Push(p, terminate), p.workers);
  }

  /** A job that `w` holds and that was submitted after the first `n`. */
  predicate HoldsNew(p: Pool, w: WorkerId, n: nat) {
    w in p.slots && p.slots[w].Some? && p.slots[w].value.id >= n
  }

  /** As long as they do not reach `w`, each of them occupies one more of the idle workers. */
  lemma {:induction false} TerminatesReach(p: Pool, w: WorkerId, n: nat)
    requires Valid(p) && WorkConserving(p) && w in p.workers && Idle(p, w)
    ensures var q := SubmitTerminates(p, n);
      && Valid(q) && WorkConserving(q) && q.workers == p.workers && |q.submissions| == |p.submissions| + n
      && (if Idle(q, w) then q.queue == [] && |IdleListed(q)| + n == |IdleListed(p)|
        else HoldsNew(q, w, |p.submissions|))
  {
    if n > 0 {
      TerminatesReach(p, w, n - 1);
      var q := SubmitTerminates(p, n - 1);
      SubmitKeeps(q, true);
      if Idle(q, w) {
        SubmitReaches(q, true, w);
      } else {
        SubmitSpares(q, true, w);
      }
    }
  }

  /** Stopping the pool reaches every listed worker that is idle. */
  lemma StopReaches(p: Pool, w: WorkerId)
    requires Valid(p) && WorkConserving(p) && w in p.workers && Idle(p, w)
    ensures !Idle(Stop(p), w) && HoldsNew(Stop(p), w, |p.submissions|) && |Stop(p).submissions| >= |p.submissions|
  {
    TerminatesReach(p, w, |p.workers|);
    IdleAreListed(p);
    assert Idle(Stop(p), w) ==> w in IdleListed(Stop(p));
  }

  lemma {:induction false} TerminatesSpare(p: Pool, w: WorkerId, n: nat)
    requires Valid(p) && w in p.workers && !Idle(p, w)
    ensures var q := SubmitTerminates(p, n);
      && Valid(q) && q.workers == p.workers && w in q.slots && q.slots[w] == p.slots[w]
        && |q.submissions| == |p.submissions| + n
  {
    if n > 0 {
      TerminatesSpare(p, w, n - 1);
      SubmitSpares(SubmitTerminates(p, n - 1), true, w);
    }
  }

  // ---------------------------------------------------------------- between the reply and the exit

  /** `w` itself neither replies nor exits. */
  predicate Spares(e: Event, w: WorkerId) {
    !(e.MessageEvent? && e.worker == w) && !(e.ExitEvent? && e.worker == w)
  }

  /** The event offers `w`, if it is idle, a job: a submission when all those listed before it are busy, or a stop. */
  predicate ComesTo(p: Pool, e: Event, w: WorkerId) {
    e.StopEvent? || (e.SubmitEvent? && BusyBefore(p, w))
  }

  /** A listed worker that holds a job keeps it until it replies or exits. */
  lemma StepSpares(kind: Kind, p: Pool, e: Event, w: WorkerId)
    requires Valid(p) && Enabled(p, e) && Spares(e, w) && w in p.workers && !Idle(p, w)
    ensures var q := After(kind, p, e);
      w in q.workers && w in q.slots && q.slots[w] == p.slots[w] && |q.submissions| >= |p.submissions|
  {
    match e
    case SubmitEvent => SubmitSpares(p, false, w);
    case StopEvent => TerminatesSpare(p, w, |p.workers|);
    case OnlineEvent(v) =>
    case MessageEvent(v, message) =>
    case ExitEvent(v, code) => WithoutIs(p.workers, v);
  }

  /** A listed worker that is idle gets a job exactly from an event that comes to it. */
  lemma StepReaches(kind: Kind, p: Pool, e: Event, w: WorkerId)
    requires Valid(p) && WorkConserving(p) && Enabled(p, e) && Spares(e, w) && w in p.workers && Idle(p, w)
    ensures var q := After(kind, p, e);
      && w in q.workers && w in q.slots && |q.submissions| >= |p.submissions|
      && if ComesTo(p, e, w) then HoldsNew(q, w, |p.submissions|) else Idle(q, w)
  {
    match e
    case SubmitEvent => SubmitReaches(p, false, w);
    case StopEvent =>
      StopReaches(p, w);
      TerminatesKeep(p, |p.workers|);
    case OnlineEvent(v) =>
    case MessageEvent(v, message) =>
    case ExitEvent(v, code) => WithoutIs(p.workers, v);
  }

  /** Some of the first `n` events comes to `w`. */
  predicate Reached(ps: seq<Pool>, es: seq<Event>, w: WorkerId, n: nat)
    requires n <= |es| < |ps|
  {
    exists i :: 0 <= i < n && ComesTo(ps[i], es[i], w)
  }

  ghost predicate LiveAt(p: Pool, w: WorkerId) {
    Valid(p) && WorkConserving(p) && w in p.workers && w in p.slots
  }

  lemma {:induction false} BusyAlong(kind: Kind, ps: seq<Pool>, es: seq<Event>, w: WorkerId, n: nat)
    requires Path(kind, ps, es) && (forall i :: 0 <= i < |es| ==> Spares(es[i], w)) && n <= |es|
    requires LiveAt(ps[0], w) && !Idle(ps[0], w)
    ensures LiveAt(ps[n], w) && ps[n].slots[w] == ps[0].slots[w]
  {
    if n > 0 {
      BusyAlong(kind, ps, es, w, n - 1);
      assert Follows(kind, ps[n - 1], es[n - 1], ps[n - 1 + 1]);
      StepKeeps(kind, ps[n - 1], es[n - 1]);
      StepSpares(kind, ps[n - 1], es[n - 1], w);
    }
  }

  lemma {:induction false} IdleAlong(kind: Kind, ps: seq<Pool>, es: seq<Event>, w: WorkerId, n: nat)
    requires Path(kind, ps, es) && (forall i :: 0 <= i < |es| ==> Spares(es[i], w)) && n <= |es|
    requires LiveAt(ps[0], w) && Idle(ps[0], w)
    ensures LiveAt(ps[n], w) && |ps[n].submissions| >= |ps[0].submissions|
    ensures if Reached(ps, es, w, n) then HoldsNew(ps[n], w, |ps[0].submissions|) else Idle(ps[n], w)
  {
    if n > 0 {
      IdleAlong(kind, ps, es, w, n - 1);
      var p, e := ps[n - 1], es[n - 1];
      assert Follows(kind, p, e, ps[n - 1 + 1]);
      StepKeeps(kind, p, e);
      if Idle(p, w) {
        StepReaches(kind, p, e, w);
      } else {
        StepSpares(kind, p, e, w);
      }
    }
  }

  /**
   A SQLite worker that answers a terminate message takes the next job, and its exit rejects the job it then holds,
   which it never ran. Whatever the pool does in between, the exit rejects a job exactly when one was waiting at the
   reply, or when a submission since then found all the workers listed before this one busy, or when the pool was
   stopped since then.
   */
  lemma SqliteTerminateLosesAJob(p: Pool, w: WorkerId, ps: seq<Pool>, es: seq<Event>, code: int)
    requires Valid(p) && WorkConserving(p) && w in p.workers && w in p.slots && p.slots[w].Some?
    requires p.slots[w].value.terminate
    requires Path(Sqlite, ps, es) && ps[0] == OnMessage(Sqlite, p, w, Null)
    requires forall i :: 0 <= i < |es| ==> Spares(es[i], w)
    ensures ps[0].settled == p.settled + [Settlement(p.slots[w].value, Resolved)]
    ensures Enabled(ps[|es|], ExitEvent(w, code))
    ensures p.queue == [] && Reached(ps, es, w, |es|) ==> HoldsNew(ps[|es|], w, |p.submissions|)
    ensures var last := ps[|es|];
      OnExit(Sqlite, last, w, code).settled == last.settled
        + if p.queue != [] then [Settlement(p.queue[0], Rejected)]
          else if Reached(ps, es, w, |es|) then [Settlement(last.slots[w].value, Rejected)] else []
  {
    MessageKeeps(Sqlite, p, w, Null);
    if p.queue != [] {
      BusyAlong(Sqlite, ps, es, w, |es|);
    } else {
      IdleAlong(Sqlite, ps, es, w, |es|);
    }
  }

  /**
   In a pool of one every event in between comes to the worker, so a job is lost unless nothing waited and nothing
   happened.
   */
  lemma OneWorkerLosesAJob(events: seq<Event>, p: Pool, w: WorkerId, ps: seq<Pool>, es: seq<Event>)
    requires Reaches(Sqlite, 1, events, p) && w in p.workers && w in p.slots && p.slots[w].Some?
    requires p.slots[w].value.terminate
    requires Path(Sqlite, ps, es) && ps[0] == OnMessage(Sqlite, p, w, Null)
    requires forall i :: 0 <= i < |es| ==> Spares(es[i], w)
    ensures Enabled(ps[|es|], ExitEvent(w, 0))
    ensures var last, q := ps[|es|], OnExit(Sqlite, ps[|es|], w, 0);
      |q.settled| > |last.settled| <==> p.queue != [] || es != []
  {
    ReachableIsValid(Sqlite, 1, events, p);
    ReachableIsSerial(Sqlite, events, p);
    SqliteTerminateLosesAJob(p, w, ps, es, 0);
    MessageKeeps(Sqlite, p, w, Null);
    if es != [] {
      assert Follows(Sqlite, ps[0], es[0], ps[0 + 1]);
      assert ComesTo(ps[0], es[0], w);
    }
  }

  /**
   An ANS-104 worker keeps its terminate job, whatever the pool does, until its exit resolves that job and no other.
   */
  lemma Ans104TerminateLosesNothing(p: Pool, w: WorkerId, ps: seq<Pool>, es: seq<Event>, code: int)
    requires Valid(p) && WorkConserving(p) && w in p.workers && w in p.slots && p.slots[w].Some?
    requires p.slots[w].value.terminate
    requires Path(Ans104, ps, es) && ps[0] == OnMessage(Ans104, p, w, Null)
    requires forall i :: 0 <= i < |es| ==> Spares(es[i], w)
    ensures ps[0] == p && Enabled(ps[|es|], ExitEvent(w, code))
    ensures var last, q := ps[|es|], OnExit(Ans104, ps[|es|], w, code);
      q.settled == last.settled + [Settlement(p.slots[w].value, Resolved)] && q.queue == last.queue
  {
    BusyAlong(Ans104, ps, es, w, |es|);
  }

  // ---------------------------------------------------------------- a run that loses a job

  lemma Extend(kind: Kind, size: nat, events: seq<Event>, p: Pool, e: Event, q: Pool) returns (all: seq<Event>)
    requires Reaches(kind, size, events, p) && Follows(kind, p, e, q)
    ensures all == events + [e] && Reaches(kind, size, all, q)
  {
    all := events + [e];
    assert all[..|events|] == events;
  }

  const STOPPED := Pool([], [0], map[0 := Some(Job(0, true))], 1, [Job(0, true)], [Job(0, true)], [])
  const WAITING := STOPPED.(queue := [Job(1, false)], submissions := [Job(0, true), Job(1, false)])

  lemma OnlineThenStop(p: Pool, q: Pool)
    requires p == Start(1) && q == Pool([], [0], map[0 := None], 1, [], [], [])
    ensures Follows(Sqlite, p, OnlineEvent(0), q) && Follows(Sqlite, q, StopEvent, STOPPED)
  {
    assert p == Spawn(SpawnAll(Pool([], [], map[], 0, [], [], []), 0));
    assert SubmitTerminates(q, 0) == q;
    DrainTheOne(Push(q, true));
  }

  lemma DrainTheOne(p: Pool)
    requires p.workers == [0]
    ensures Drain(p, p.workers) == TakeWork(p, 0)
  {
    assert Drain(p, []) == p;
  }

  lemma SubmitBehind()
    ensures Follows(Sqlite, STOPPED, SubmitEvent, WAITING)
  {
    DrainTheOne(Push(STOPPED, false));
  }

  lemma TerminateThenExit(m: Pool, q: Pool)
    requires m == TakeWork(Settle(WAITING, 0, Resolved), 0) && q == Bury(Sqlite, m, 0)
    ensures Follows(Sqlite, WAITING, MessageEvent(0, Null), m) && Follows(Sqlite, m, ExitEvent(0, 0), q)
    ensures q.settled == [Settlement(Job(0, true), Resolved), Settlement(Job(1, false), Rejected)]
  {
  }

  lemma ReachStopped() returns (events: seq<Event>)
    ensures events == [OnlineEvent(0), StopEvent] && Reaches(Sqlite, 1, events, STOPPED)
  {
    var online := Pool([], [0], map[0 := None], 1, [], [], []);
    OnlineThenStop(Start(1), online);
    events := Extend(Sqlite, 1, [], Start(1), OnlineEvent(0), online);
    events := Extend(Sqlite, 1, events, online, StopEvent, STOPPED);
  }

  lemma ReachWaiting() returns (events: seq<Event>)
    ensures events == [OnlineEvent(0), StopEvent, SubmitEvent] && Reaches(Sqlite, 1, events, WAITING)
  {
    var stopped := ReachStopped();
    SubmitBehind();
    events := Extend(Sqlite, 1, stopped, STOPPED, SubmitEvent, WAITING);
  }

  /**
   A job submitted behind the terminate message of a pool's one worker waits, and is then rejected without having run.
   */
  lemma SqliteStopCanLoseAJob() returns (before: seq<Event>, p: Pool, q: Pool)
    ensures before == [OnlineEvent(0), StopEvent, SubmitEvent] && Reaches(Sqlite, 1, before, p)
    ensures p.slots == map[0 := Some(Job(0, true))] && p.queue == [Job(1, false)]
    ensures Reaches(Sqlite, 1, before + [MessageEvent(0, Null)] + [ExitEvent(0, 0)], q)
    ensures q.settled == [Settlement(Job(0, true), Resolved), Settlement(Job(1, false), Rejected)]
  {
    before := ReachWaiting();
    p := WAITING;
    var m := TakeWork(Settle(WAITING, 0, Resolved), 0);
    q := Bury(Sqlite, m, 0);
    TerminateThenExit(m, q);
    var all := Extend(Sqlite, 1, before, p, MessageEvent(0, Null), m);
    all := Extend(Sqlite, 1, all, m, ExitEvent(0, 0), q);
  }

  lemma ReplyThenSubmit(m: Pool, n: Pool, q: Pool)
    requires m == TakeWork(Settle(STOPPED, 0, Resolved), 0)
    requires n == TakeWork(Push(m, false), 0) && q == Bury(Sqlite, n, 0)
    ensures Follows(Sqlite, STOPPED, MessageEvent(0, Null), m) && Follows(Sqlite, m, SubmitEvent, n)
    ensures Follows(Sqlite, n, ExitEvent(0, 0), q)
    ensures q.settled == [Settlement(Job(0, true), Resolved), Settlement(Job(1, false), Rejected)]
  {
    DrainTheOne(Push(m, false));
  }

  /** So is one submitted between the worker's reply and its exit, although nothing waited at the reply. */
  lemma SqliteStopCanLoseALaterJob() returns (before: seq<Event>, q: Pool)
    ensures before == [OnlineEvent(0), StopEvent] && Reaches(Sqlite, 1, before, STOPPED) && STOPPED.queue == []
    ensures Reaches(Sqlite, 1, before + [MessageEvent(0, Null)] + [SubmitEvent] + [ExitEvent(0, 0)], q)
    ensures q.settled == [Settlement(Job(0, true), Resolved), Settlement(Job(1, false), Rejected)]
  {
    before := ReachStopped();
    var m := TakeWork(Settle(STOPPED, 0, Resolved), 0);
    var n := TakeWork(Push(m, false), 0);
    q := Bury(Sqlite, n, 0);
    ReplyThenSubmit(m, n, q);
    var all := Extend(Sqlite, 1, before, STOPPED, MessageEvent(0, Null), m);
    all := Extend(Sqlite, 1, all, m, SubmitEvent, n);
    all := Extend(Sqlite, 1, all, n, ExitEvent(0, 0), q);
  }
}
