/**
 A pool of worker threads fed from one shared queue, as the SQLite front end keeps for each pool and role and
 the ANS-104 parser keeps once. Each handler runs to completion, so the handlers are the steps of the protocol.
 */
module WorkerPool {
  import opened Options

  /** The two pools differ in which worker messages settle a job and in what an exit means to one. */
  datatype Kind = Sqlite | Ans104

  /** A submitted job; `id` is its place in the order of submission. */
  datatype Job = Job(id: nat, terminate: bool)
  datatype Outcome = Resolved | Rejected
  datatype Settlement = Settlement(job: Job, outcome: Outcome)

  /** `Null` is the reply to a terminate message; the SQLite worker also sends it as an ordinary result. */
  datatype Message = Null | Result | Failure | Unknown | ItemMatched

  type WorkerId = nat

  /** `slots` holds the job slot of every live worker, `workers` lists those that came online. */
  datatype Pool = Pool(
    queue: seq<Job>, workers: seq<WorkerId>, slots: map<WorkerId, Option<Job>>, spawned: nat,
    submissions: seq<Job>, dispatched: seq<Job>, settled: seq<Settlement>)

  // ---------------------------------------------------------------- the handlers

  function Spawn(p: Pool): Pool {
    p.(slots := p.slots[p.spawned := None], spawned := p.spawned + 1)
  }

  function SpawnAll(p: Pool, n: nat): Pool {
    if n == 0 then p else Spawn(SpawnAll(p, n - 1))
  }

  function Start(size: nat): Pool {
    SpawnAll(Pool([], [], map[], 0, [], [], []), size)
  }

  function TakeWork(p: Pool, w: WorkerId): Pool {
    if w in p.slots && p.slots[w].None? && p.queue != [] then
      p.(queue := p.queue[1..], slots := p.slots[w := Some(p.queue[0])], dispatched := p.dispatched + [p.queue[0]])
    else p
  }

  function Drain(p: Pool, workers: seq<WorkerId>): Pool {
    if workers == [] then p else TakeWork(Drain(p, workers[..|workers| - 1]), workers[|workers| - 1])
  }

  function Push(p: Pool, terminate: bool): Pool {
    var job := Job(|p.submissions|, terminate);
    p.(queue := p.queue + [job], submissions := p.submissions + [job])
  }

  function Submit(p: Pool, terminate: bool): Pool {
    Drain(Push(p, terminate), p.workers)
  }

  /** `n` terminate messages, one after the other. */
  function SubmitTerminates(p: Pool, n: nat): Pool {
    if n == 0 then p else Submit(SubmitTerminates(p, n - 1), true)
  }

  function Stop(p: Pool): Pool {
    SubmitTerminates(p, |p.workers|)
  }

  function Online(p: Pool, w: WorkerId): Pool {
    TakeWork(p.(workers := p.workers + [w]), w)
  }

  /** What a message does to the job of the worker that sent it. */
  function Verdict(kind: Kind, message: Message): Option<Outcome> {
    match kind
    case Sqlite => Some(if message.Failure? then Rejected else Resolved)
    case Ans104 =>
      match message
      case Null => None
      case ItemMatched => None
      case Result => Some(Resolved)
      case Failure => Some(Rejected)
      case Unknown => Some(Rejected)
  }

  function Settle(p: Pool, w: WorkerId, outcome: Outcome): Pool
    requires w in p.slots && p.slots[w].Some?
  {
    p.(slots := p.slots[w := None], settled := p.settled + [Settlement(p.slots[w].value, outcome)])
  }

  function OnMessage(kind: Kind, p: Pool, w: WorkerId, message: Message): Pool
    requires w in p.slots && p.slots[w].Some?
  {
    var verdict := Verdict(kind, message);
    TakeWork(if verdict.Some? then Settle(p, w, verdict.value) else p, w)
  }

  function Without(workers: seq<WorkerId>, w: WorkerId): seq<WorkerId> {
    if workers == [] then []
    else Without(workers[..|workers| - 1], w) + if workers[|workers| - 1] == w then [] else [workers[|workers| - 1]]
  }

  function ExitOutcome(kind: Kind, job: Job): Outcome {
    if kind.Ans104? && job.terminate then Resolved else Rejected
  }

  /** The exited worker's slot goes with it, its job settled first. */
  function Bury(kind: Kind, p: Pool, w: WorkerId): Pool
    requires w in p.slots
  {
    var q := if p.slots[w].Some? then Settle(p, w, ExitOutcome(kind, p.slots[w].value)) else p;
    q.(workers := Without(p.workers, w), slots := q.slots - {w})
  }

  function OnExit(kind: Kind, p: Pool, w: WorkerId, code: int): Pool
    requires w in p.slots
  {
    if code != 0 then Spawn(Bury(kind, p, w)) else Bury(kind, p, w)
  }

  // ---------------------------------------------------------------- runs

  datatype Event =
    | SubmitEvent
    | StopEvent
    | OnlineEvent(worker: WorkerId)
    | MessageEvent(worker: WorkerId, message: Message)
    | ExitEvent(worker: WorkerId, code: int)

  /** A worker comes online once, speaks only about the job it holds, and may exit at any time. */
  predicate Enabled(p: Pool, e: Event) {
    match e
    case SubmitEvent => true
    case StopEvent => true
    case OnlineEvent(w) => w in p.slots && w !in p.workers && p.slots[w].None?
    case MessageEvent(w, _) => w in p.slots && w in p.workers && p.slots[w].Some?
    case ExitEvent(w, _) => w in p.slots
  }

  function After(kind: Kind, p: Pool, e: Event): Pool
    requires Enabled(p, e)
  {
    match e
    case SubmitEvent => Submit(p, false)
    case StopEvent => Stop(p)
    case OnlineEvent(w) => Online(p, w)
    case MessageEvent(w, message) => OnMessage(kind, p, w, message)
    case ExitEvent(w, code) => OnExit(kind, p, w, code)
  }

  predicate Follows(kind: Kind, p: Pool, e: Event, q: Pool) {
    Enabled(p, e) && q == After(kind, p, e)
  }

  /** `p` is reached from a fresh pool of `size` workers by `events`, in that order. */
  ghost predicate Reaches(kind: Kind, size: nat, events: seq<Event>, p: Pool)
    decreases |events|
  {
    if events == [] then p == Start(size)
    else
      var init, last := events[..|events| - 1], events[|events| - 1];
      exists q :: Reaches(kind, size, init, q) && Follows(kind, q, last, p)
  }

  // ---------------------------------------------------------------- the invariant

  predicate Holds(p: Pool, w: WorkerId, job: Job) {
    w in p.slots && p.slots[w] == Some(job)
  }

  predicate SettledAt(p: Pool, i: nat, job: Job) {
    i < |p.settled| && p.settled[i].job == job
  }

  /** Jobs leave the queue in the order in which they were submitted. */
  ghost predicate Fifo(p: Pool) {
    && p.dispatched + p.queue == p.submissions
    && forall i :: 0 <= i < |p.submissions| ==> p.submissions[i].id == i
  }

  ghost predicate Distinct(workers: seq<WorkerId>) {
    forall i, j :: 0 <= i < j < |workers| ==> workers[i] != workers[j]
  }

  ghost predicate Listed(p: Pool) {
    && (forall w :: w in p.slots ==> w < p.spawned)
    && (forall i :: 0 <= i < |p.workers| ==> p.workers[i] in p.slots)
    && Distinct(p.workers)
  }

  /** A dispatched job is held by one worker or settled, never both and neither twice. */
  ghost predicate Accounted(p: Pool) {
    && (forall w, job :: Holds(p, w, job) ==> job in p.dispatched)
    && (forall i, job :: SettledAt(p, i, job) ==> job in p.dispatched)
    && (forall v, w, job :: Holds(p, v, job) && Holds(p, w, job) ==> v == w)
    && (forall i, j, job :: SettledAt(p, i, job) && SettledAt(p, j, job) ==> i == j)
    && (forall w, i, job :: Holds(p, w, job) ==> !SettledAt(p, i, job))
    && (forall job :: job in p.dispatched ==> (exists w :: Holds(p, w, job)) || (exists i :: SettledAt(p, i, job)))
  }

  function Busy(p: Pool): set<WorkerId> {
    set w | w in p.slots && p.slots[w].Some?
  }

  ghost predicate Counted(p: Pool) {
    |Busy(p)| + |p.settled| == |p.dispatched|
  }

  /** No listed worker is idle while a job waits. */
  predicate WorkConserving(p: Pool) {
    forall w :: w in p.workers && w in p.slots && p.slots[w].None? ==> p.queue == []
  }

  ghost predicate Valid(p: Pool) {
    Fifo(p) && Listed(p) && Accounted(p) && Counted(p)
  }

  // ---------------------------------------------------------------- each handler keeps it

  lemma SpawnKeeps(p: Pool)
    requires Valid(p)
    ensures Valid(Spawn(p))
    ensures WorkConserving(p) ==> WorkConserving(Spawn(p))
    ensures |Spawn(p).slots| == |p.slots| + 1
  {
    var q := Spawn(p);
    assert Busy(q) == Busy(p);
    assert forall w, job :: Holds(q, w, job) <==> Holds(p, w, job);
    assert forall i, job :: SettledAt(q, i, job) <==> SettledAt(p, i, job);
    assert q.slots.Keys == p.slots.Keys + {p.spawned};
    assert |q.slots| == |q.slots.Keys| && |p.slots| == |p.slots.Keys|;
  }

  lemma {:induction false} StartIsValid(size: nat)
    ensures Valid(Start(size)) && WorkConserving(Start(size)) && |Start(size).slots| == size
    ensures Start(size).settled == []
  {
    var none := Pool([], [], map[], 0, [], [], []);
    if size == 0 {
      assert Busy(none) == {};
    } else {
      StartIsValid(size - 1);
      SpawnKeeps(SpawnAll(none, size - 1));
    }
  }

  lemma TakeWorkKeeps(p: Pool, w: WorkerId)
    requires Valid(p)
    ensures Valid(TakeWork(p, w))
    ensures TakeWork(p, w).slots.Keys == p.slots.Keys && TakeWork(p, w).settled == p.settled
  {
    var q := TakeWork(p, w);
    if q != p {
      var job := p.queue[0];
      assert p.submissions[|p.dispatched|] == job;
      assert job !in p.dispatched by {
        forall i | 0 <= i < |p.dispatched| ensures p.dispatched[i] != job {
          assert p.submissions[i] == p.dispatched[i];
        }
      }
      assert Busy(q) == Busy(p) + {w};
      assert forall i, j :: SettledAt(q, i, j) <==> SettledAt(p, i, j);
      assert forall v, j :: Holds(q, v, j) <==> Holds(p, v, j) || (v == w && j == job);
      forall j | j in q.dispatched ensures (exists v :: Holds(q, v, j)) || (exists i :: SettledAt(q, i, j)) {
        if j == job {
          assert Holds(q, w, j);
        } else {
          assert j in p.dispatched;
        }
      }
    }
  }

  /** After the listed workers have been offered work, none of them is idle while a job waits. */
  lemma {:induction false} DrainKeeps(p: Pool, workers: seq<WorkerId>)
    requires Valid(p) && forall i :: 0 <= i < |workers| ==> workers[i] in p.slots
    ensures var q := Drain(p, workers);
      && Valid(q) && q.slots.Keys == p.slots.Keys && q.settled == p.settled && q.workers == p.workers
        && q.submissions == p.submissions
      && (forall w :: w in p.slots && p.slots[w].Some? ==> q.slots[w] == p.slots[w])
      && (forall i :: 0 <= i < |workers| && q.slots[workers[i]].None? ==> q.queue == [])
  {
    if workers != [] {
      DrainKeeps(p, workers[..|workers| - 1]);
      var q := Drain(p, workers[..|workers| - 1]);
      TakeWorkKeeps(q, workers[|workers| - 1]);
      forall i | 0 <= i < |workers| - 1 ensures workers[i] == workers[..|workers| - 1][i] {}
    }
  }

  lemma PushKeeps(p: Pool, terminate: bool)
    requires Valid(p)
    ensures Valid(Push(p, terminate))
  {
    var q := Push(p, terminate);
    assert q.dispatched + q.queue == (p.dispatched + p.queue) + [Job(|p.submissions|, terminate)];
    assert Busy(q) == Busy(p);
    assert forall w, job :: Holds(q, w, job) <==> Holds(p, w, job);
    assert forall i, job :: SettledAt(q, i, job) <==> SettledAt(p, i, job);
  }

  lemma SubmitKeeps(p: Pool, terminate: bool)
    requires Valid(p)
    ensures var q := Submit(p, terminate);
      && Valid(q) && WorkConserving(q) && q.slots.Keys == p.slots.Keys && q.settled == p.settled
        && q.workers == p.workers
      && q.submissions == p.submissions + [Job(|p.submissions|, terminate)]
  {
    PushKeeps(p, terminate);
    DrainKeeps(Push(p, terminate), p.workers);
  }

  lemma {:induction false} TerminatesKeep(p: Pool, n: nat)
    requires Valid(p) && WorkConserving(p)
    ensures var q := SubmitTerminates(p, n);
      Valid(q) && WorkConserving(q) && q.slots.Keys == p.slots.Keys && q.settled == p.settled && q.workers == p.workers
  {
    if n > 0 {
      TerminatesKeep(p, n - 1);
      SubmitKeeps(SubmitTerminates(p, n - 1), true);
    }
  }

  lemma OnlineKeeps(p: Pool, w: WorkerId)
    requires Valid(p) && WorkConserving(p) && Enabled(p, OnlineEvent(w))
    ensures Valid(Online(p, w)) && WorkConserving(Online(p, w)) && Online(p, w).slots.Keys == p.slots.Keys
    ensures Online(p, w).settled == p.settled
  {
    var q := p.(workers := p.workers + [w]);
    assert Busy(q) == Busy(p);
    assert forall v, job :: Holds(q, v, job) <==> Holds(p, v, job);
    assert forall i, job :: SettledAt(q, i, job) <==> SettledAt(p, i, job);
    TakeWorkKeeps(q, w);
  }

  lemma SettleKeeps(p: Pool, w: WorkerId, outcome: Outcome)
    requires Valid(p) && w in p.slots && p.slots[w].Some?
    ensures Valid(Settle(p, w, outcome))
  {
    var q := Settle(p, w, outcome);
    var job := p.slots[w].value;
    assert Holds(p, w, job);
    assert Busy(p) == Busy(q) + {w} && w !in Busy(q);
    assert forall v, j :: Holds(q, v, j) <==> Holds(p, v, j) && v != w;
    assert forall i, j :: SettledAt(q, i, j) <==> SettledAt(p, i, j) || (i == |p.settled| && j == job);
    assert SettledAt(q, |p.settled|, job);
  }

  lemma MessageKeeps(kind: Kind, p: Pool, w: WorkerId, message: Message)
    requires Valid(p) && WorkConserving(p) && Enabled(p, MessageEvent(w, message))
    ensures var q := OnMessage(kind, p, w, message); Valid(q) && WorkConserving(q) && q.slots.Keys == p.slots.Keys
  {
    var verdict := Verdict(kind, message);
    if verdict.Some? {
      SettleKeeps(p, w, verdict.value);
      TakeWorkKeeps(Settle(p, w, verdict.value), w);
    } else {
      TakeWorkKeeps(p, w);
    }
  }

  lemma {:induction false} WithoutIs(workers: seq<WorkerId>, w: WorkerId)
    requires Distinct(workers)
    ensures Distinct(Without(workers, w))
    ensures forall v :: v in Without(workers, w) <==> v in workers && v != w
  {
    if workers != [] {
      var init, last := workers[..|workers| - 1], workers[|workers| - 1];
      WithoutIs(init, w);
      assert workers == init + [last];
      assert last !in init;
      assert forall v :: v in workers <==> v in init || v == last;
    }
  }

  /** `Bury` once the worker's job is settled. */
  function Remove(p: Pool, w: WorkerId): Pool {
    p.(workers := Without(p.workers, w), slots := p.slots - {w})
  }

  lemma RemoveKeeps(p: Pool, w: WorkerId)
    requires Valid(p) && w in p.slots && p.slots[w].None?
    ensures Valid(Remove(p, w)) && |Remove(p, w).slots| + 1 == |p.slots|
    ensures WorkConserving(p) ==> WorkConserving(Remove(p, w))
  {
    WithoutIs(p.workers, w);
    var r := Remove(p, w);
    assert Busy(r) == Busy(p);
    assert forall v, j :: Holds(r, v, j) <==> Holds(p, v, j);
    assert forall i, j :: SettledAt(r, i, j) <==> SettledAt(p, i, j);
    assert r.slots.Keys == p.slots.Keys - {w};
    assert |r.slots| == |r.slots.Keys| && |p.slots| == |p.slots.Keys|;
    forall i | 0 <= i < |r.workers| ensures r.workers[i] in r.slots {
      assert r.workers[i] in Without(p.workers, w);
      assert r.workers[i] in p.workers && r.workers[i] != w;
    }
  }

  /** A worker's exit settles what it held and takes no job from the queue. */
  lemma BuryKeeps(kind: Kind, p: Pool, w: WorkerId)
    requires Valid(p) && WorkConserving(p) && w in p.slots
    ensures Valid(Bury(kind, p, w)) && WorkConserving(Bury(kind, p, w)) && |Bury(kind, p, w).slots| + 1 == |p.slots|
  {
    if p.slots[w].Some? {
      var q := Settle(p, w, ExitOutcome(kind, p.slots[w].value));
      SettleKeeps(p, w, ExitOutcome(kind, p.slots[w].value));
      RemoveKeeps(q, w);
      WithoutIs(p.workers, w);
      assert q.slots.Keys == p.slots.Keys && |q.slots| == |q.slots.Keys| && |p.slots| == |p.slots.Keys|;
      assert Bury(kind, p, w) == Remove(q, w);
    } else {
      RemoveKeeps(p, w);
    }
  }

  lemma StepKeeps(kind: Kind, p: Pool, e: Event)
    requires Valid(p) && WorkConserving(p) && Enabled(p, e)
    ensures Valid(After(kind, p, e)) && WorkConserving(After(kind, p, e))
    ensures |After(kind, p, e).slots| <= |p.slots|
  {
    assert |p.slots| == |p.slots.Keys|;
    var q := After(kind, p, e);
    assert |q.slots| == |q.slots.Keys|;
    match e
    case SubmitEvent => SubmitKeeps(p, false);
    case StopEvent => TerminatesKeep(p, |p.workers|);
    case OnlineEvent(w) => OnlineKeeps(p, w);
    case MessageEvent(w, message) => MessageKeeps(kind, p, w, message);
    case ExitEvent(w, code) =>
      BuryKeeps(kind, p, w);
      SpawnKeeps(Bury(kind, p, w));
  }

  /**
   The outcome a step gives the job it settles is earned: by a good reply, or by the exit that a terminate asked for.
   */
  predicate Earned(kind: Kind, e: Event, s: Settlement) {
    s.outcome == Resolved <==>
      || (e.MessageEvent? && e.message != Failure && (kind == Ans104 ==> e.message == Result))
      || (e.ExitEvent? && kind == Ans104 && s.job.terminate)
  }

  /**
   The events that settle a job: the exit of a worker that holds one, any SQLite message, and an ANS-104 result or
   failure, or a message the ANS-104 parser does not know.
   */
  predicate Settles(kind: Kind, p: Pool, e: Event) {
    || (e.ExitEvent? && e.worker in p.slots && p.slots[e.worker].Some?)
    || (e.MessageEvent? && (kind == Sqlite || e.message.Result? || e.message.Failure? || e.message.Unknown?))
  }

  /**
   A step settles a job exactly when it is one of these events: the job of the worker that replied or exited, once, with
   the outcome it earned. Settled jobs are never settled again or changed.
   */
  lemma StepSettles(kind: Kind, p: Pool, e: Event)
    requires Valid(p) && WorkConserving(p) && Enabled(p, e)
    ensures var q := After(kind, p, e);
      && |q.settled| == |p.settled| + (if Settles(kind, p, e) then 1 else 0) && p.settled <= q.settled
      && (Settles(kind, p, e) ==>
            && p.slots[e.worker] == Some(q.settled[|p.settled|].job) && Earned(kind, e, q.settled[|p.settled|]))
  {
    match e
    case SubmitEvent => SubmitKeeps(p, false);
    case StopEvent => TerminatesKeep(p, |p.workers|);
    case OnlineEvent(w) => OnlineKeeps(p, w);
    case MessageEvent(w, message) =>
    case ExitEvent(w, code) =>
  }

  /**
   A reply that settles its job frees the worker, which takes the job that has waited longest, or none if none waits;
   any other message changes nothing.
   */
  lemma ReplyFreesTheWorker(kind: Kind, p: Pool, w: WorkerId, message: Message)
    requires Enabled(p, MessageEvent(w, message))
    ensures var q := OnMessage(kind, p, w, message);
      if !Settles(kind, p, MessageEvent(w, message)) then q == p
      else
        && q.slots == p.slots[w := if p.queue != [] then Some(p.queue[0]) else None]
        && q.queue == (if p.queue != [] then p.queue[1..] else [])
        && q.dispatched == p.dispatched + p.queue[..|p.queue| - |q.queue|]
        && q.workers == p.workers && q.spawned == p.spawned && q.submissions == p.submissions
  {
  }

  /**
   An exit takes the worker off the list and its slot away, and leaves the queue and all other workers alone. A crash
   puts a fresh worker, with nothing to do, in its place; a clean exit does not.
   */
  lemma ExitReplacesTheWorker(kind: Kind, p: Pool, w: WorkerId, code: int)
    requires Valid(p) && w in p.slots
    ensures var q := OnExit(kind, p, w, code);
      && q.slots.Keys == p.slots.Keys - {w} + (if code != 0 then {p.spawned} else {})
      && (forall v :: v in q.slots ==> q.slots[v] == if v == p.spawned then None else p.slots[v])
      && (forall v :: v in q.workers <==> v in p.workers && v != w)
      && q.queue == p.queue && q.dispatched == p.dispatched && q.submissions == p.submissions
  {
    WithoutIs(p.workers, w);
  }

  // ---------------------------------------------------------------- every run

  lemma {:induction false} ReachableIsValid(kind: Kind, size: nat, events: seq<Event>, p: Pool)
    requires Reaches(kind, size, events, p)
    ensures Valid(p) && WorkConserving(p) && |p.slots| <= size
    decreases |events|
  {
    if events == [] {
      StartIsValid(size);
    } else {
      var last := |events| - 1;
      var q :| Reaches(kind, size, events[..last], q) && Follows(kind, q, events[last], p);
      ReachableIsValid(kind, size, events[..last], q);
      StepKeeps(kind, q, events[last]);
    }
  }

  function QueuedAt(p: Pool, id: nat): set<nat> {
    set i: nat | i < |p.queue| && p.queue[i].id == id
  }

  function HeldBy(p: Pool, id: nat): set<WorkerId> {
    set w | w in p.slots && p.slots[w].Some? && p.slots[w].value.id == id
  }

  function SettledTimes(p: Pool, id: nat): set<nat> {
    set i: nat | i < |p.settled| && p.settled[i].job.id == id
  }

  lemma AtMostOne<T>(s: set<T>)
    requires forall x, y :: x in s && y in s ==> x == y
    ensures |s| == if s == {} then 0 else 1
  {
    if s != {} {
      var x :| x in s;
      assert s == {x};
    }
  }

  lemma JobIsItsId(p: Pool, job: Job)
    requires Fifo(p) && (job in p.dispatched || job in p.queue)
    ensures job.id < |p.submissions| && p.submissions[job.id] == job
    ensures job in p.dispatched <==> job.id < |p.dispatched|
    ensures forall i :: 0 <= i < |p.queue| ==> p.queue[i].id == |p.dispatched| + i
  {
    forall i | 0 <= i < |p.queue| ensures p.queue[i].id == |p.dispatched| + i {
      assert p.submissions[|p.dispatched| + i] == p.queue[i];
    }
    forall i | 0 <= i < |p.dispatched| ensures p.dispatched[i].id == i && p.submissions[i] == p.dispatched[i] {
      assert p.submissions[i] == p.dispatched[i];
    }
  }

  lemma QueuedOrDispatched(p: Pool, id: nat)
    requires Valid(p) && id < |p.submissions|
    ensures |QueuedAt(p, id)| == if id < |p.dispatched| then 0 else 1
  {
    var job := p.submissions[id];
    assert id < |p.dispatched| ==> p.dispatched[id] == job;
    assert id >= |p.dispatched| ==> p.queue[id - |p.dispatched|] == job;
    JobIsItsId(p, job);
    AtMostOne(QueuedAt(p, id));
    if id < |p.dispatched| {
      assert QueuedAt(p, id) == {};
    } else {
      assert id - |p.dispatched| in QueuedAt(p, id);
    }
  }

  lemma HeldOrSettled(p: Pool, id: nat)
    requires Valid(p) && id < |p.submissions|
    ensures |HeldBy(p, id)| + |SettledTimes(p, id)| == if id < |p.dispatched| then 1 else 0
  {
    var job := p.submissions[id];
    forall w ensures w in HeldBy(p, id) <==> Holds(p, w, job) {
      if w in HeldBy(p, id) {
        assert Holds(p, w, p.slots[w].value);
        JobIsItsId(p, p.slots[w].value);
      }
    }
    forall i: nat ensures i in SettledTimes(p, id) <==> SettledAt(p, i, job) {
      if i in SettledTimes(p, id) {
        assert SettledAt(p, i, p.settled[i].job);
        JobIsItsId(p, p.settled[i].job);
      }
    }
    AtMostOne(HeldBy(p, id));
    AtMostOne(SettledTimes(p, id));
    assert id < |p.dispatched| ==> p.dispatched[id] == job;
    if job in p.dispatched {
      JobIsItsId(p, job);
    }
  }

  /**
   In every interleaving of submissions, stops, workers coming online, replies, crashes and respawns, each
   submitted job is in exactly one place (queued once, in flight on one worker, or settled once), and the three
   counts add up to the jobs submitted.
   */
  lemma ExactlyOnce(kind: Kind, size: nat, events: seq<Event>, p: Pool)
    requires Reaches(kind, size, events, p)
    ensures |p.queue| + |Busy(p)| + |p.settled| == |p.submissions|
    ensures forall id: nat :: id < |p.submissions| ==> |QueuedAt(p, id)| + |HeldBy(p, id)| + |SettledTimes(p, id)| == 1
  {
    ReachableIsValid(kind, size, events, p);
    forall id: nat | id < |p.submissions| ensures |QueuedAt(p, id)| + |HeldBy(p, id)| + |SettledTimes(p, id)| == 1 {
      QueuedOrDispatched(p, id);
      HeldOrSettled(p, id);
    }
  }

  /** In every run jobs are dispatched in submission order and no listed worker idles while a job waits. */
  lemma FifoAndWorkConserving(kind: Kind, size: nat, events: seq<Event>, p: Pool)
    requires Reaches(kind, size, events, p)
    ensures p.dispatched <= p.submissions && p.queue == p.submissions[|p.dispatched|..]
    ensures forall w :: w in p.workers && p.queue != [] ==> w in p.slots && p.slots[w].Some?
    ensures |Busy(p)| <= size
  {
    ReachableIsValid(kind, size, events, p);
    assert p.slots.Keys == Busy(p) + (p.slots.Keys - Busy(p));
    assert |p.slots| == |p.slots.Keys|;
  }

  /** The states `ps` that the events `es` lead through. */
  ghost predicate Path(kind: Kind, ps: seq<Pool>, es: seq<Event>) {
    |ps| == |es| + 1 && forall i :: 0 <= i < |es| ==> Follows(kind, ps[i], es[i], ps[i + 1])
  }

  /** The settling events among the first `n`. */
  function SettlingSteps(kind: Kind, ps: seq<Pool>, es: seq<Event>, n: nat): set<nat>
    requires n <= |es| <= |ps|
  {
    set i: nat | i < n && Settles(kind, ps[i], es[i])
  }

  predicate CleanExit(e: Event) {
    e.ExitEvent? && e.code == 0
  }

  /** The clean exits among the first `n` events. */
  function CleanExits(es: seq<Event>, n: nat): set<nat>
    requires n <= |es|
  {
    set i: nat | i < n && CleanExit(es[i])
  }

  lemma StepCountsWorkers(kind: Kind, p: Pool, e: Event, q: Pool)
    requires Valid(p) && WorkConserving(p) && Follows(kind, p, e, q)
    ensures |q.slots| + (if CleanExit(e) then 1 else 0) == |p.slots|
  {
    assert |q.slots| == |q.slots.Keys| && |p.slots| == |p.slots.Keys|;
    match e
    case SubmitEvent => SubmitKeeps(p, false);
    case StopEvent => TerminatesKeep(p, |p.workers|);
    case OnlineEvent(w) => OnlineKeeps(p, w);
    case MessageEvent(w, message) => MessageKeeps(kind, p, w, message);
    case ExitEvent(w, code) =>
      BuryKeeps(kind, p, w);
      SpawnKeeps(Bury(kind, p, w));
  }

  lemma SettlingStepsGrow(kind: Kind, ps: seq<Pool>, es: seq<Event>, n: nat)
    requires n < |es| <= |ps|
    ensures |SettlingSteps(kind, ps, es, n + 1)|
      == |SettlingSteps(kind, ps, es, n)| + if Settles(kind, ps[n], es[n]) then 1 else 0
  {
    var before, after := SettlingSteps(kind, ps, es, n), SettlingSteps(kind, ps, es, n + 1);
    assert after == if Settles(kind, ps[n], es[n]) then before + {n} else before;
  }

  lemma CleanExitsGrow(es: seq<Event>, n: nat)
    requires n < |es|
    ensures |CleanExits(es, n + 1)| == |CleanExits(es, n)| + if CleanExit(es[n]) then 1 else 0
  {
    var before, after := CleanExits(es, n), CleanExits(es, n + 1);
    assert after == if CleanExit(es[n]) then before + {n} else before;
  }

  lemma {:induction false} PathIsValid(kind: Kind, size: nat, ps: seq<Pool>, es: seq<Event>, n: nat)
    requires Path(kind, ps, es) && ps[0] == Start(size) && n <= |es|
    ensures Valid(ps[n]) && WorkConserving(ps[n])
    ensures n < |es| ==> Follows(kind, ps[n], es[n], ps[n + 1])
  {
    if n == 0 {
      StartIsValid(size);
    } else {
      PathIsValid(kind, size, ps, es, n - 1);
      StepKeeps(kind, ps[n - 1], es[n - 1]);
    }
  }

  /** Along every run as many jobs are settled as there were settling events: no such reply or exit goes unanswered. */
  lemma {:induction false} RunSettles(kind: Kind, size: nat, ps: seq<Pool>, es: seq<Event>, n: nat)
    requires Path(kind, ps, es) && ps[0] == Start(size) && n <= |es|
    ensures |ps[n].settled| == |SettlingSteps(kind, ps, es, n)|
  {
    if n == 0 {
      StartIsValid(size);
    } else {
      RunSettles(kind, size, ps, es, n - 1);
      PathIsValid(kind, size, ps, es, n - 1);
      StepSettles(kind, ps[n - 1], es[n - 1]);
      SettlingStepsGrow(kind, ps, es, n - 1);
    }
  }

  /** And the workers alive are the pool's size less the clean exits: a crashed worker is always replaced. */
  lemma {:induction false} RunReplacesCrashed(kind: Kind, size: nat, ps: seq<Pool>, es: seq<Event>, n: nat)
    requires Path(kind, ps, es) && ps[0] == Start(size) && n <= |es|
    ensures |ps[n].slots| + |CleanExits(es, n)| == size
  {
    if n == 0 {
      StartIsValid(size);
    } else {
      RunReplacesCrashed(kind, size, ps, es, n - 1);
      PathIsValid(kind, size, ps, es, n - 1);
      StepCountsWorkers(kind, ps[n - 1], es[n - 1], ps[n]);
      CleanExitsGrow(es, n - 1);
    }
  }

  // ---------------------------------------------------------------- a pool of one

  function SettledJobs(settled: seq<Settlement>): (r: seq<Job>)
    ensures |r| == |settled| && forall i :: 0 <= i < |r| ==> r[i] == settled[i].job
  {
    if settled == [] then [] else SettledJobs(settled[..|settled| - 1]) + [settled[|settled| - 1].job]
  }

  /** With one worker at a time, the settled jobs and then the one in flight are the dispatched jobs, in order. */
  ghost predicate Serial(p: Pool) {
    && (forall v, w :: v in p.slots && w in p.slots ==> v == w)
    && (forall w :: w in p.slots && p.slots[w].Some? ==> SettledJobs(p.settled) + [p.slots[w].value] == p.dispatched)
    && ((forall w :: w in p.slots ==> p.slots[w].None?) ==> SettledJobs(p.settled) == p.dispatched)
  }

  lemma TakeWorkSerial(p: Pool, w: WorkerId)
    requires Serial(p)
    ensures Serial(TakeWork(p, w))
  {
    var q := TakeWork(p, w);
    if q != p {
      assert q.slots[w].Some? && forall v :: v in p.slots ==> v == w;
    }
  }

  lemma {:induction false} DrainSerial(p: Pool, workers: seq<WorkerId>)
    requires Serial(p)
    ensures Serial(Drain(p, workers))
  {
    if workers != [] {
      DrainSerial(p, workers[..|workers| - 1]);
      TakeWorkSerial(Drain(p, workers[..|workers| - 1]), workers[|workers| - 1]);
    }
  }

  lemma {:induction false} TerminatesSerial(p: Pool, n: nat)
    requires Serial(p)
    ensures Serial(SubmitTerminates(p, n))
  {
    if n > 0 {
      TerminatesSerial(p, n - 1);
      var q := SubmitTerminates(p, n - 1);
      DrainSerial(Push(q, true), q.workers);
    }
  }

  lemma SettleSerial(p: Pool, w: WorkerId, outcome: Outcome)
    requires Serial(p) && w in p.slots && p.slots[w].Some?
    ensures Serial(Settle(p, w, outcome))
  {
    var q := Settle(p, w, outcome);
    assert q.settled[..|p.settled|] == p.settled;
    assert SettledJobs(q.settled) == SettledJobs(p.settled) + [p.slots[w].value];
  }

  lemma BurySerial(kind: Kind, p: Pool, w: WorkerId)
    requires Serial(p) && w in p.slots
    ensures Serial(Bury(kind, p, w)) && Bury(kind, p, w).slots == map[]
  {
    if p.slots[w].Some? {
      SettleSerial(p, w, ExitOutcome(kind, p.slots[w].value));
    }
  }

  lemma StepSerial(kind: Kind, p: Pool, e: Event)
    requires Serial(p) && Enabled(p, e)
    ensures Serial(After(kind, p, e))
  {
    match e
    case SubmitEvent => DrainSerial(Push(p, false), p.workers);
    case StopEvent => TerminatesSerial(p, |p.workers|);
    case OnlineEvent(w) => TakeWorkSerial(p.(workers := p.workers + [w]), w);
    case MessageEvent(w, message) =>
      var verdict := Verdict(kind, message);
      if verdict.Some? {
        SettleSerial(p, w, verdict.value);
        TakeWorkSerial(Settle(p, w, verdict.value), w);
      } else {
        TakeWorkSerial(p, w);
      }
    case ExitEvent(w, code) =>
      BurySerial(kind, p, w);
  }

  lemma {:induction false} ReachableIsSerial(kind: Kind, events: seq<Event>, p: Pool)
    requires Reaches(kind, 1, events, p)
    ensures Serial(p)
    decreases |events|
  {
    if events == [] {
      assert Start(1) == Spawn(SpawnAll(Pool([], [], map[], 0, [], [], []), 0));
    } else {
      var last := |events| - 1;
      var q :| Reaches(kind, 1, events[..last], q) && Follows(kind, q, events[last], p);
      ReachableIsSerial(kind, events[..last], q);
      StepSerial(kind, q, events[last]);
    }
  }

  /**
   In a pool of size one jobs also settle in submission order, across crashes and respawns: its writes are serialised.
   */
  lemma OneWorkerSettlesInOrder(kind: Kind, events: seq<Event>, p: Pool)
    requires Reaches(kind, 1, events, p)
    ensures SettledJobs(p.settled) <= p.submissions && |p.dispatched| <= |p.settled| + 1
  {
    ReachableIsSerial(kind, events, p);
    ReachableIsValid(kind, 1, events, p);
    if w :| w in p.slots && p.slots[w].Some? {
      assert SettledJobs(p.settled) + [p.slots[w].value] == p.dispatched;
    }
  }

  // ---------------------------------------------------------------- the object

  class PoolQueue {
    const kind: Kind
    var workQueue: seq<Job>
    var workers: seq<WorkerId>
    var jobs: map<WorkerId, Option<Job>>
    var spawned: nat
    ghost var submissions: seq<Job>
    ghost var dispatched: seq<Job>
    var nextId: nat
    var settled: seq<Settlement>

    ghost function State(): Pool
      reads this
    {
      Pool(workQueue, workers, jobs, spawned, submissions, dispatched, settled)
    }

    ghost predicate Numbered()
      reads this
    {
      nextId == |submissions|
    }

    constructor (kind: Kind, size: nat)
      ensures Numbered() && this.kind == kind && State() == Start(size)
    {
      this.kind := kind;
      workQueue, workers, jobs, spawned, submissions, dispatched, nextId, settled := [], [], map[], 0, [], [], 0, [];
      new;
      for i := 0 to size
        invariant Numbered() && State() == SpawnAll(Pool([], [], map[], 0, [], [], []), i)
      {
        SpawnWorker();
      }
    }

    method SpawnWorker()
      modifies this
      requires Numbered()
      ensures Numbered() && State() == Spawn(old(State()))
    {
      jobs := jobs[spawned := None];
      spawned := spawned + 1;
    }

    method Take(w: WorkerId)
      requires Numbered() && w in jobs
      modifies this
      ensures Numbered() && State() == TakeWork(old(State()), w)
    {
      if jobs[w].None? && |workQueue| > 0 {
        var job := workQueue[0];
        workQueue := workQueue[1..];
        jobs := jobs[w := Some(job)];
        dispatched := dispatched + [job];
      }
    }

    method DrainQueue()
      requires Numbered() && forall i :: 0 <= i < |workers| ==> workers[i] in jobs
      modifies this
      ensures Numbered() && State() == Drain(old(State()), old(workers))
      ensures jobs.Keys == old(jobs.Keys)
    {
      ghost var before := State();
      var listed := workers;
      for i := 0 to |listed|
        invariant Numbered() && State() == Drain(before, listed[..i]) && jobs.Keys == before.slots.Keys
      {
        Take(listed[i]);
        assert listed[..i + 1][..i] == listed[..i];
      }
      assert listed[..|listed|] == listed;
    }

    method QueueWork(terminate: bool)
      requires Numbered() && forall i :: 0 <= i < |workers| ==> workers[i] in jobs
      modifies this
      ensures Numbered() && State() == Submit(old(State()), terminate)
      ensures jobs.Keys == old(jobs.Keys) && workers == old(workers)
    {
      var job := Job(nextId, terminate);
      workQueue := workQueue + [job];
      nextId := nextId + 1;
      submissions := submissions + [job];
      assert State() == Push(old(State()), terminate);
      WorkersStay(State(), workers);
      DrainQueue();
    }

    method StopWorkers()
      requires Numbered() && forall i :: 0 <= i < |workers| ==> workers[i] in jobs
      modifies this
      ensures Numbered() && State() == Stop(old(State()))
    {
      ghost var before := State();
      var listed := workers;
      for i := 0 to |listed|
        invariant Numbered() && State() == SubmitTerminates(before, i)
        invariant workers == listed && jobs.Keys == before.slots.Keys
      {
        QueueWork(true);
      }
    }

    method WorkerOnline(w: WorkerId)
      requires Numbered() && w in jobs
      modifies this
      ensures Numbered() && State() == Online(old(State()), w)
    {
      workers := workers + [w];
      Take(w);
    }

    method WorkerMessage(w: WorkerId, message: Message)
      requires Numbered() && w in jobs && jobs[w].Some?
      modifies this
      ensures Numbered() && State() == OnMessage(kind, old(State()), w, message)
    {
      match kind {
        case Sqlite =>
          if message == Failure {
            settled := settled + [Settlement(jobs[w].value, Rejected)];
          } else {
            settled := settled + [Settlement(jobs[w].value, Resolved)];
          }
          jobs := jobs[w := None];
        case Ans104 =>
          match message {
            case Null =>
            case ItemMatched =>
            case Result =>
              settled := settled + [Settlement(jobs[w].value, Resolved)];
              jobs := jobs[w := None];
            case Failure =>
              settled := settled + [Settlement(jobs[w].value, Rejected)];
              jobs := jobs[w := None];
            case Unknown =>
              settled := settled + [Settlement(jobs[w].value, Rejected)];
              jobs := jobs[w := None];
          }
      }
      Take(w);
    }

    method WorkerExit(w: WorkerId, code: int)
      requires Numbered() && w in jobs
      modifies this
      ensures Numbered() && State() == OnExit(kind, old(State()), w, code)
    {
      var kept := [];
      for i := 0 to |workers|
        invariant kept == Without(workers[..i], w) && State() == old(State()) && Numbered()
      {
        assert workers[..i + 1][..i] == workers[..i];
        if workers[i] != w {
          kept := kept + [workers[i]];
        }
      }
      assert workers[..|workers|] == workers;
      workers := kept;
      if jobs[w].Some? {
        var outcome := if kind == Ans104 && jobs[w].value.terminate then Resolved else Rejected;
        settled := settled + [Settlement(jobs[w].value, outcome)];
      }
      jobs := jobs - {w};
      assert State() == Bury(kind, old(State()), w);
      if code != 0 {
        SpawnWorker();
      }
    }
  }

  lemma {:induction false} WorkersStay(p: Pool, workers: seq<WorkerId>)
    ensures Drain(p, workers).workers == p.workers
  {
    if workers != [] {
      WorkersStay(p, workers[..|workers| - 1]);
    }
  }
}
