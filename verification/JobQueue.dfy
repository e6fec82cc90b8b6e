/** Client threads hand jobs that live on their own stacks to one worker thread.
    Each step is what a thread does between two points where another may run:
    a critical section, or an access outside one. */
module JobQueue {
  import opened DsmlText

  /** Jobs in the order their threads came. */
  type Job = nat

  /** Where a client thread stands.  `Wanting`, `Checking` and `Refused` hold the
      mutex of the job; `Gone` has given the job's memory back. */
  datatype Client = Fresh | Wanting | Checking | Asleep | Waking | Leaving | Refused | Gone

  /** Where the worker stands.  `Marking` and `Unlocking` hold the job's mutex. */
  datatype Worker = Ready | Sleeping | Clearing(j: Job) | Running(j: Job) | Locking(j: Job) | Marking(j: Job) | Unlocking(j: Job) | Exited

  /** `accepted` and `finished` only record what happened. */
  datatype State = State(client: seq<Client>, done: seq<bool>, next: seq<Option<Job>>, locked: set<Job>,
                         head: Option<Job>, tail: Option<Job>, stopping: bool, worker: Worker,
                         accepted: seq<Job>, finished: seq<Job>, crashed: bool)

  datatype Action = NewClient | Lock(c: Job) | Enqueue(c: Job) | Check(c: Job) | Wake(c: Job) | Relock(c: Job) | UnlockRefused(c: Job) | Release(c: Job)
                  | Stop | Take | WorkerWakes | Clear | Generate | LockDone | Mark | Unlock

  function Init(): (s: State) {
    State([], [], [], {}, None, None, false, Ready, [], [], false)
  }

  // ----- Steps -----

  predicate Is(s: State, c: Job, k: Client) {
    c < |s.client| && s.client[c] == k
  }

  predicate Enabled(s: State, a: Action) {
    match a
    case NewClient => true
    case Lock(c) => Is(s, c, Fresh) && c !in s.locked
    case Enqueue(c) => Is(s, c, Wanting)
    case Check(c) => Is(s, c, Checking)
    case Wake(c) => Is(s, c, Asleep)
    case Relock(c) => Is(s, c, Waking) && c !in s.locked
    case UnlockRefused(c) => Is(s, c, Refused)
    case Release(c) => Is(s, c, Leaving)
    case Stop => true
    case Take => s.worker == Ready
    case WorkerWakes => s.worker == Sleeping
    case Clear => s.worker.Clearing?
    case Generate => s.worker.Running?
    case LockDone => s.worker.Locking? && s.worker.j !in s.locked
    case Mark => s.worker.Marking?
    case Unlock => s.worker.Unlocking?
  }

  /** The job's memory has not been given back. */
  predicate Alive(s: State, j: Job) {
    j < |s.client| == |s.done| == |s.next| && s.client[j] != Gone
  }

  function Crash(s: State): (r: State) {
    s.(crashed := true)
  }

  function At(s: State, c: Job, k: Client): (r: State) {
    if c < |s.client| then s.(client := s.client[c := k]) else s
  }

  /** A signal or broadcast on the server's condition. */
  function Signalled(w: Worker): (r: Worker) {
    if w == Sleeping then Ready else w
  }

  function DoEnqueue(s: State, c: Job): (r: State) {
    if s.stopping then At(s, c, Refused)
    else if s.tail.Some? && !Alive(s, s.tail.value) then Crash(s)
    else
      var next := if s.tail.Some? then s.next[s.tail.value := Some(c)] else s.next;
      At(s, c, Checking).(next := next, head := if s.tail.Some? then s.head else Some(c), tail := Some(c),
                          worker := Signalled(s.worker), accepted := s.accepted + [c])
  }

  function DoTake(s: State): (r: State) {
    if s.head.None? then s.(worker := if s.stopping then Exited else Sleeping)
    else if !Alive(s, s.head.value) then Crash(s)
    else
      var h := s.next[s.head.value];
      s.(head := h, tail := if h.None? then None else s.tail, worker := Clearing(s.head.value))
  }

  function DoMark(s: State, j: Job): (r: State) {
    if !Alive(s, j) then Crash(s)
    else s.(done := s.done[j := true], client := if s.client[j] == Asleep then s.client[j := Waking] else s.client,
            worker := Unlocking(j), finished := s.finished + [j])
  }

  function Step(s: State, a: Action): (r: State)
    requires Enabled(s, a)
  {
    match a
    case NewClient => s.(client := s.client + [Fresh], done := s.done + [false], next := s.next + [None])
    case Lock(c) => At(s, c, Wanting).(locked := s.locked + {c})
    case Enqueue(c) => DoEnqueue(s, c)
    case Check(c) => At(s, c, if c < |s.done| && s.done[c] then Leaving else Asleep).(locked := s.locked - {c})
    case Wake(c) => At(s, c, Waking)
    case Relock(c) => At(s, c, Checking).(locked := s.locked + {c})
    case UnlockRefused(c) => At(s, c, Leaving).(locked := s.locked - {c})
    case Release(c) => At(s, c, Gone)
    case Stop => s.(stopping := true, worker := Signalled(s.worker))
    case Take => DoTake(s)
    case WorkerWakes => s.(worker := Ready)
    case Clear => if !Alive(s, s.worker.j) then Crash(s) else s.(next := s.next[s.worker.j := None], worker := Running(s.worker.j))
    case Generate => if !Alive(s, s.worker.j) then Crash(s) else s.(worker := Locking(s.worker.j))
    case LockDone => if !Alive(s, s.worker.j) then Crash(s) else s.(locked := s.locked + {s.worker.j}, worker := Marking(s.worker.j))
    case Mark => DoMark(s, s.worker.j)
    case Unlock => if !Alive(s, s.worker.j) then Crash(s) else s.(locked := s.locked - {s.worker.j}, worker := Ready)
  }

  /** The state a run leads to; none if a step of it cannot be taken. */
  function Run(actions: seq<Action>): (r: Option<State>) {
    if actions == [] then Some(Init())
    else
      var s := Run(actions[..|actions| - 1]);
      if s.Some? && Enabled(s.value, actions[|actions| - 1]) then Some(Step(s.value, actions[|actions| - 1])) else None
  }

  // ----- What every state keeps -----

  /** The job the worker has taken and not finished. */
  function Current(w: Worker): (r: seq<Job>) {
    match w
    case Clearing(j) => [j]
    case Running(j) => [j]
    case Locking(j) => [j]
    case Marking(j) => [j]
    case _ => []
  }

  /** The jobs that wait. */
  function Queue(s: State): (q: seq<Job>) {
    var n := |s.finished| + |Current(s.worker)|;
    if n <= |s.accepted| then s.accepted[n..] else []
  }

  ghost predicate Sized(s: State) {
    |s.client| == |s.done| == |s.next| && !s.crashed
  }

  ghost predicate Apart(a: seq<Job>) {
    forall i, j :: 0 <= i < j < |a| ==> a[i] != a[j]
  }

  ghost predicate Known(a: seq<Job>, n: nat) {
    forall c :: c in a ==> c < n
  }

  /** Jobs are taken in the order they were accepted, each once. */
  ghost predicate InOrder(s: State) {
    s.finished + Current(s.worker) <= s.accepted && Apart(s.accepted) && Known(s.accepted, |s.client|)
  }

  function Nth(q: seq<Job>, i: int): (r: Option<Job>) {
    if 0 <= i < |q| then Some(q[i]) else None
  }

  /** The links spell the queue. */
  ghost predicate Linked(s: State) {
    var q := Queue(s);
    && s.head == Nth(q, 0) && s.tail == Nth(q, |q| - 1)
    && (forall i :: 0 <= i < |q| ==> q[i] < |s.next| && s.next[q[i]] == Nth(q, i + 1))
  }

  /** What the place of a client says about its job. */
  ghost predicate Placed(s: State, c: Job)
    requires c < |s.client| && c < |s.done|
  {
    match s.client[c]
    case Fresh => c !in s.accepted
    case Wanting => c !in s.accepted
    case Refused => c !in s.accepted && s.stopping
    case Checking => c in s.accepted
    case Asleep => c in s.accepted && !s.done[c]
    case Waking => c in s.accepted
    case Leaving => c in s.accepted ==> s.done[c]
    case Gone => c in s.accepted ==> s.done[c]
  }

  predicate ClientHolds(k: Client) {
    k == Wanting || k == Checking || k == Refused
  }

  predicate WorkerHolds(w: Worker, c: Job) {
    w == Marking(c) || w == Unlocking(c)
  }

  ghost predicate ClientOk(s: State, c: Job)
    requires c < |s.client| && c < |s.done|
  {
    && Placed(s, c) && (s.done[c] <==> c in s.finished)
    && (c in s.locked <==> ClientHolds(s.client[c]) || WorkerHolds(s.worker, c))
    && !(ClientHolds(s.client[c]) && WorkerHolds(s.worker, c))
    && (s.worker == Unlocking(c) ==> s.client[c] == Waking)
  }

  ghost predicate WorkerOk(s: State) {
    && (s.worker == Sleeping ==> Queue(s) == [] && !s.stopping)
    && (s.worker == Exited ==> Queue(s) == [] && s.stopping)
    && (s.worker.Unlocking? ==> s.worker.j in s.finished)
  }

  /** The queue, its links and the worker. */
  ghost predicate Base(s: State) {
    && Sized(s) && InOrder(s) && Linked(s) && WorkerOk(s)
    && (forall c :: 0 <= c < |s.client| && c !in s.accepted ==> s.next[c].None?)
  }

  ghost predicate Clients(s: State)
    requires Sized(s)
  {
    && (forall c :: 0 <= c < |s.client| ==> ClientOk(s, c))
    && (forall c :: c in s.locked ==> c < |s.client|)
  }

  ghost predicate Inv(s: State) {
    Base(s) && Clients(s)
  }

  // ----- Steps of one client -----

  lemma Parts(s: State, c: Job)
    requires Inv(s)
    ensures Sized(s) && Base(s) && Clients(s) && InOrder(s) && Linked(s) && WorkerOk(s)
    ensures c < |s.client| ==> ClientOk(s, c)
  {
    hide InOrder, Linked, WorkerOk, ClientOk;
  }

  /** A step of one client that leaves everything but its place and its mutex. */
  lemma ClientMoves(s: State, c: Job, k: Client, locked: set<Job>)
    requires Inv(s) && c < |s.client| && (forall d :: d in locked && d != c <==> d in s.locked && d != c)
    requires var r := s.(client := s.client[c := k], locked := locked); ClientOk(r, c)
    ensures Inv(s.(client := s.client[c := k], locked := locked))
  {
    hide Inv, Base, ClientOk;
    Parts(s, c);
    var r := s.(client := s.client[c := k], locked := locked);
    BaseSame(s, r);
    forall d | 0 <= d < |r.client| ensures ClientOk(r, d) {
      if d != c {
        Parts(s, d);
        ClientSame(s, r, d);
      }
    }
    Whole(r);
  }

  lemma Whole(s: State)
    requires Sized(s) && Base(s) && Clients(s)
    ensures Inv(s)
  {
    hide Base, Clients;
  }

  lemma ClientSame(s: State, r: State, d: Job)
    requires Sized(s) && d < |s.client| && ClientOk(s, d)
    requires Sized(r) && d < |r.client| && r.client[d] == s.client[d] && r.done[d] == s.done[d]
    requires r.accepted == s.accepted && r.finished == s.finished && r.stopping == s.stopping && (d in r.locked <==> d in s.locked)
    requires (WorkerHolds(r.worker, d) <==> WorkerHolds(s.worker, d)) && (r.worker == Unlocking(d) <==> s.worker == Unlocking(d))
    ensures ClientOk(r, d)
  {
  }

  lemma LinksSame(s: State, r: State)
    requires Linked(s) && Queue(r) == Queue(s) && r.head == s.head && r.tail == s.tail && s.next <= r.next
    ensures Linked(r)
  {
    hide Queue;
  }

  lemma BaseSame(s: State, r: State)
    requires Base(s) && |r.client| == |s.client| && r == s.(client := r.client, locked := r.locked)
    ensures Base(r)
  {
    hide Apart, Known;
    assert Queue(r) == Queue(s);
  }

  lemma ClientSteps(s: State, a: Action)
    requires Inv(s) && Enabled(s, a) && (a.Lock? || a.Check? || a.Wake? || a.Relock? || a.UnlockRefused? || a.Release?)
    ensures Inv(Step(s, a))
  {
    hide Inv, Base, InOrder, Linked, WorkerOk, Clients;
    var c, r := a.c, Step(s, a);
    Parts(s, c);
    ClientMoves(s, c, r.client[c], r.locked);
  }

  // ----- A client comes, the server is told to stop, the worker wakes -----

  lemma NewClientStep(s: State)
    requires Inv(s)
    ensures Inv(Step(s, NewClient))
  {
    hide Inv, Base, InOrder, Linked, WorkerOk;
    var r, n := Step(s, NewClient), |s.client|;
    Parts(s, n);
    NewBase(s);
    NotYet(s, n);
    forall c | 0 <= c < |r.client| ensures ClientOk(r, c) {
      if c < n { Parts(s, c); }
    }
    Whole(r);
  }

  lemma NewBase(s: State)
    requires Base(s)
    ensures Base(Step(s, NewClient))
  {
    hide Apart, Linked;
    var r := Step(s, NewClient);
    assert Queue(r) == Queue(s);
    LinksSame(s, r);
  }

  /** A client that has not come has left no trace. */
  lemma NotYet(s: State, n: Job)
    requires Inv(s) && n >= |s.client|
    ensures n !in s.accepted && n !in s.finished && n !in Current(s.worker) && n !in s.locked
    ensures s.worker != Unlocking(n)
  {
    hide Linked, ClientOk;
    assert forall i :: 0 <= i < |s.finished| ==> s.finished[i] == s.accepted[i];
    assert forall i :: 0 <= i < |Current(s.worker)| ==> Current(s.worker)[i] == s.accepted[|s.finished| + i];
  }

  /** The worker is woken, or the server told to stop; no client is touched. */
  lemma Roused(s: State, stopping: bool)
    requires Inv(s) && (s.stopping ==> stopping)
    ensures Inv(s.(stopping := stopping, worker := Signalled(s.worker)))
  {
    hide Inv, Base;
    var r := s.(stopping := stopping, worker := Signalled(s.worker));
    Parts(s, 0);
    RousedBase(s, stopping);
    forall c | 0 <= c < |r.client| ensures ClientOk(r, c) { Parts(s, c); }
    Whole(r);
  }

  lemma RousedBase(s: State, stopping: bool)
    requires Base(s) && (s.stopping ==> stopping)
    ensures Base(s.(stopping := stopping, worker := Signalled(s.worker)))
  {
    hide Apart, Known;
    var r := s.(stopping := stopping, worker := Signalled(s.worker));
    assert Current(r.worker) == Current(s.worker) && Queue(r) == Queue(s);
  }

  // ----- Jobs that are not done -----

  /** A job that waits or is being worked on is not finished, and its client waits. */
  lemma Pending(s: State, j: Job)
    requires Inv(s) && j in Current(s.worker) + Queue(s)
    ensures j in s.accepted && j !in s.finished && Alive(s, j) && !s.done[j]
    ensures s.client[j] == Checking || s.client[j] == Asleep || s.client[j] == Waking
  {
    hide Inv, Base, Linked, WorkerOk, Clients;
    Parts(s, j);
    Unfinished(s, j);
  }

  lemma Unfinished(s: State, j: Job)
    requires InOrder(s) && j in Current(s.worker) + Queue(s)
    ensures j in s.accepted && j !in s.finished && j < |s.client|
  {
    var n, cq := |s.finished|, Current(s.worker) + Queue(s);
    assert s.accepted == s.finished + cq;
    var i :| 0 <= i < |cq| && cq[i] == j;
    ApartParts(s.finished, cq, i);
  }

  lemma ApartParts(a: seq<Job>, b: seq<Job>, i: nat)
    requires Apart(a + b) && i < |b|
    ensures b[i] !in a && b[i] in a + b
  {
    assert (a + b)[|a| + i] == b[i];
    forall k | 0 <= k < |a| ensures a[k] != b[i] { assert (a + b)[k] == a[k]; }
  }

  lemma QueueApart(s: State, i: nat, j: nat)
    requires InOrder(s) && i < j < |Queue(s)|
    ensures Queue(s)[i] != Queue(s)[j]
  {
    var n := |s.finished| + |Current(s.worker)|;
    assert s.accepted[n + i] == Queue(s)[i] && s.accepted[n + j] == Queue(s)[j];
  }

  // ----- Enqueue -----

  lemma EnqueueStep(s: State, c: Job)
    requires Inv(s) && Enabled(s, Enqueue(c))
    ensures Inv(Step(s, Enqueue(c)))
  {
    hide Inv, Base, InOrder, WorkerOk, Clients;
    var q := Queue(s);
    Parts(s, c);
    if s.stopping {
      ClientMoves(s, c, Refused, s.locked);
    } else {
      if q != [] { Pending(s, q[|q| - 1]); }
      Enqueued(s, c);
    }
  }

  lemma Enqueued(s: State, c: Job)
    requires Inv(s) && Enabled(s, Enqueue(c)) && !s.stopping && (s.tail.Some? ==> Alive(s, s.tail.value))
    ensures Inv(DoEnqueue(s, c))
  {
    hide Inv, Base, InOrder, Linked, WorkerOk;
    var r := DoEnqueue(s, c);
    Parts(s, c);
    EnqueuedBase(s, c);
    forall d | 0 <= d < |r.client| ensures ClientOk(r, d) { Parts(s, d); }
    Whole(r);
  }

  lemma EnqueuedBase(s: State, c: Job)
    requires Base(s) && c < |s.client| && c !in s.accepted && !s.stopping && (s.tail.Some? ==> Alive(s, s.tail.value))
    ensures Base(DoEnqueue(s, c))
  {
    hide Linked, Apart, Known;
    var r, q := DoEnqueue(s, c), Queue(s);
    assert Current(r.worker) == Current(s.worker) && Queue(r) == q + [c];
    MoreApart(s.accepted, c, |s.client|);
    EnqueuedLinks(s, c);
    TailAccepted(s);
  }

  lemma MoreApart(a: seq<Job>, c: Job, n: nat)
    requires Apart(a) && Known(a, n) && c !in a && c < n
    ensures Apart(a + [c]) && Known(a + [c], n)
  {
  }

  lemma TailAccepted(s: State)
    requires Linked(s) && InOrder(s)
    ensures s.tail.Some? ==> s.tail.value in s.accepted
  {
    var q := Queue(s);
    if q != [] { Unfinished(s, q[|q| - 1]); }
  }

  lemma EnqueuedLinks(s: State, c: Job)
    requires Sized(s) && Linked(s) && InOrder(s) && c < |s.client| && c !in s.accepted && !s.stopping && s.next[c].None?
    requires s.tail.Some? ==> Alive(s, s.tail.value)
    requires Queue(DoEnqueue(s, c)) == Queue(s) + [c]
    ensures Linked(DoEnqueue(s, c))
  {
    hide InOrder, Queue;
    var r, q := DoEnqueue(s, c), Queue(s);
    var p := q + [c];
    forall i | 0 <= i < |p| ensures p[i] < |r.next| && r.next[p[i]] == Nth(p, i + 1) {
      if i < |q| - 1 {
        QueueApart(s, i, |q| - 1);
        assert p[i] == q[i];
      } else if i == |q| - 1 {
        assert p[i] == q[i];
      } else {
        assert p[i] == c;
        if q != [] { Unfinished(s, q[|q| - 1]); }
      }
    }
  }

  // ----- The worker takes a job -----

  lemma TakeStep(s: State)
    requires Inv(s) && s.worker == Ready
    ensures Inv(DoTake(s))
  {
    hide Inv, Base, InOrder, WorkerOk, Linked, ClientOk;
    var r, q := DoTake(s), Queue(s);
    Parts(s, 0);
    assert s.head == Nth(q, 0) by { HeadIs(s); }
    if q == [] {
      IdleBase(s);
    } else {
      Pending(s, q[0]);
      TakenBase(s);
    }
    forall c | 0 <= c < |r.client| ensures ClientOk(r, c) {
      Parts(s, c);
      ClientSame(s, r, c);
    }
    Whole(r);
  }

  lemma HeadIs(s: State)
    requires Linked(s)
    ensures s.head == Nth(Queue(s), 0)
  {
  }

  lemma IdleBase(s: State)
    requires Base(s) && s.worker == Ready && Queue(s) == []
    ensures Base(DoTake(s))
  {
    hide Apart, Known;
    assert Queue(DoTake(s)) == [];
  }

  lemma TakenBase(s: State)
    requires Base(s) && s.worker == Ready && Queue(s) != [] && Alive(s, Queue(s)[0])
    ensures Base(DoTake(s))
  {
    hide Apart, Known, Linked;
    var r, q := DoTake(s), Queue(s);
    assert s.head == Nth(q, 0) by { HeadIs(s); }
    assert Queue(r) == q[1..];
    assert r.finished + Current(r.worker) <= r.accepted;
    TakenLinks(s);
  }

  lemma TakenLinks(s: State)
    requires Sized(s) && Linked(s) && Queue(s) != [] && Alive(s, Queue(s)[0]) && Queue(DoTake(s)) == Queue(s)[1..]
    ensures Linked(DoTake(s))
  {
    var r, q := DoTake(s), Queue(s);
    assert s.next[q[0]] == Nth(q, 1);
    forall i | 0 <= i < |q| - 1 ensures r.next[q[1..][i]] == Nth(q[1..], i + 1) { assert q[1..][i] == q[i + 1]; }
  }

  // ----- The worker works -----

  /** The worker goes on with the job it has taken. */
  lemma WorkStep(s: State, a: Action)
    requires Inv(s) && Enabled(s, a) && (a.Clear? || a.Generate? || a.LockDone?)
    ensures Inv(Step(s, a))
  {
    hide Inv, Base, InOrder, Linked, WorkerOk;
    var r, j := Step(s, a), s.worker.j;
    Parts(s, 0);
    assert Current(s.worker)[0] == j;
    Pending(s, j);
    Parts(s, j);
    WorkBase(s, a);
    forall c | 0 <= c < |r.client| ensures ClientOk(r, c) { Parts(s, c); }
    Whole(r);
  }

  lemma WorkBase(s: State, a: Action)
    requires Base(s) && Enabled(s, a) && (a.Clear? || a.Generate? || a.LockDone?) && Alive(s, s.worker.j)
    ensures Base(Step(s, a))
  {
    hide Apart, Known, Linked;
    var r, q, j := Step(s, a), Queue(s), s.worker.j;
    assert Current(r.worker) == Current(s.worker) == [j];
    assert Queue(r) == q;
    forall i | 0 <= i < |q| ensures q[i] != j { CurrentApart(s, i); }
    WorkLinks(s, r, j);
    assert j in s.accepted by { Unfinished(s, j); }
  }

  lemma WorkLinks(s: State, r: State, j: Job)
    requires Linked(s) && j !in Queue(s) && Queue(r) == Queue(s) && r.head == s.head && r.tail == s.tail
    requires r.next == s.next || (j < |s.next| && r.next == s.next[j := None])
    ensures Linked(r)
  {
    hide Queue;
  }

  lemma CurrentApart(s: State, i: nat)
    requires InOrder(s) && Current(s.worker) != [] && i < |Queue(s)|
    ensures Queue(s)[i] != Current(s.worker)[0]
  {
    var n := |s.finished|;
    assert s.accepted[n] == Current(s.worker)[0] && s.accepted[n + 1 + i] == Queue(s)[i];
  }

  lemma MarkStep(s: State)
    requires Inv(s) && s.worker.Marking?
    ensures Inv(DoMark(s, s.worker.j))
  {
    hide Inv, Base, InOrder, Linked, WorkerOk;
    var j := s.worker.j;
    var r := DoMark(s, j);
    Parts(s, 0);
    assert Current(s.worker)[0] == j;
    Pending(s, j);
    Parts(s, j);
    MarkedBase(s);
    forall c | 0 <= c < |r.client| ensures ClientOk(r, c) {
      Parts(s, c);
      assert c in r.finished <==> c in s.finished || c == j;
    }
    Whole(r);
  }

  lemma MarkedBase(s: State)
    requires Base(s) && s.worker.Marking? && Alive(s, s.worker.j)
    ensures Base(DoMark(s, s.worker.j))
  {
    hide Apart, Known, Linked;
    var r := DoMark(s, s.worker.j);
    assert r.finished + Current(r.worker) == s.finished + Current(s.worker);
    assert Queue(r) == Queue(s);
    LinksSame(s, r);
  }

  lemma UnlockStep(s: State)
    requires Inv(s) && s.worker.Unlocking?
    ensures Inv(Step(s, Unlock))
  {
    hide Inv, Base, InOrder, Linked, WorkerOk;
    var r, j := Step(s, Unlock), s.worker.j;
    NotYet(s, |s.client|);
    FinishedKnown(s, j);
    Parts(s, j);
    UnlockedBase(s, r);
    forall c | 0 <= c < |r.client| ensures ClientOk(r, c) { Parts(s, c); }
    Whole(r);
  }

  lemma FinishedKnown(s: State, j: Job)
    requires Inv(s) && (s.worker == Unlocking(j) || j in s.finished)
    ensures j in s.accepted && j < |s.client|
  {
    hide Linked, Clients;
    assert j in s.finished && (forall i :: 0 <= i < |s.finished| ==> s.finished[i] == s.accepted[i]);
  }

  lemma UnlockedBase(s: State, r: State)
    requires Base(s) && s.worker.Unlocking? && r == s.(locked := r.locked, worker := Ready)
    ensures Base(r)
  {
    hide Apart, Known, Linked, Queue;
    assert Current(r.worker) == Current(s.worker);
    assert Queue(r) == Queue(s) by { QueueSame(s, r); }
    LinksSame(s, r);
  }

  lemma QueueSame(s: State, r: State)
    requires r.accepted == s.accepted && r.finished == s.finished && Current(r.worker) == Current(s.worker)
    ensures Queue(r) == Queue(s)
  {
  }

  // ----- Every run -----

  lemma Keeps(s: State, a: Action)
    requires Inv(s) && Enabled(s, a)
    ensures Inv(Step(s, a))
  {
    hide Inv;
    match a
    case NewClient => NewClientStep(s);
    case Enqueue(c) => EnqueueStep(s, c);
    case Stop => Roused(s, true);
    case WorkerWakes => Roused(s, s.stopping);
    case Take => TakeStep(s);
    case Clear => WorkStep(s, a);
    case Generate => WorkStep(s, a);
    case LockDone => WorkStep(s, a);
    case Mark => MarkStep(s);
    case Unlock => UnlockStep(s);
    case _ => ClientSteps(s, a);
  }

  lemma StartHolds(s: State)
    requires Sized(s) && s.client == [] && s.locked == {} && s.accepted == [] && s.finished == []
    requires s.head == None && s.tail == None && s.worker == Ready
    ensures Inv(s)
  {
    hide Base, ClientOk;
    StartBase(s);
  }

  lemma StartBase(s: State)
    requires Sized(s) && s.client == [] && s.accepted == [] && s.finished == []
    requires s.head == None && s.tail == None && s.worker == Ready
    ensures Base(s)
  {
    hide InOrder, Linked, WorkerOk;
    StartInOrder(s);
    StartLinked(s);
  }

  lemma StartInOrder(s: State)
    requires s.accepted == [] && s.finished == [] && s.worker == Ready
    ensures InOrder(s) && WorkerOk(s)
  {
    assert s.finished + Current(s.worker) == [];
  }

  lemma StartLinked(s: State)
    requires Sized(s) && s.accepted == [] && s.finished == []
    requires s.head == None && s.tail == None && s.worker == Ready
    ensures Linked(s)
  {
    assert Queue(s) == [];
  }

  lemma {:induction false} Reached(actions: seq<Action>)
    ensures Run(actions).Some? ==> Inv(Run(actions).value)
  {
    hide Inv;
    StartHolds(Init());
    if actions != [] {
      var n := |actions| - 1;
      Reached(actions[..n]);
      if Run(actions).Some? { Keeps(Run(actions[..n]).value, actions[n]); }
    }
  }

  // ----- Safety -----

  /** The jobs the worker has run, in the order of a run's steps. */
  ghost function Ran(actions: seq<Action>): (r: seq<Job>) {
    if actions == [] then []
    else
      var n := |actions| - 1;
      var s := Run(actions[..n]);
      Ran(actions[..n]) + (if s.Some? && actions[n] == Generate && s.value.worker.Running? then [s.value.worker.j] else [])
  }

  /** The jobs whose enqueue succeeded, in the order of a run's steps. */
  ghost function Entered(actions: seq<Action>): (r: seq<Job>) {
    if actions == [] then []
    else
      var n := |actions| - 1;
      var s := Run(actions[..n]);
      Entered(actions[..n]) + (if s.Some? && actions[n].Enqueue? && !s.value.stopping then [actions[n].c] else [])
  }

  /** The job that has run and is not marked. */
  function Unmarked(w: Worker): (r: seq<Job>) {
    if w.Locking? || w.Marking? then [w.j] else []
  }

  lemma {:induction false} Recorded(actions: seq<Action>)
    requires Run(actions).Some?
    ensures var s := Run(actions).value; Entered(actions) == s.accepted && Ran(actions) == s.finished + Unmarked(s.worker)
  {
    if actions != [] {
      var n := |actions| - 1;
      Recorded(actions[..n]);
      Reached(actions);
      StepRecords(Run(actions[..n]).value, actions[n]);
    }
  }

  lemma StepRecords(s: State, a: Action)
    requires Enabled(s, a) && !Step(s, a).crashed
    ensures Step(s, a).accepted == s.accepted + (if a.Enqueue? && !s.stopping then [a.c] else [])
    ensures Step(s, a).finished + Unmarked(Step(s, a).worker) == s.finished + Unmarked(s.worker) + (if a == Generate && s.worker.Running? then [s.worker.j] else [])
  {
  }

  /** In every interleaving jobs run one at a time, in the order they entered and each at
      most once; no thread touches a job whose client has given its memory back, and no
      client gives it back before the job is done. */
  lemma RunsInOrder(actions: seq<Action>)
    requires Run(actions).Some?
    ensures var s := Run(actions).value;
      && !s.crashed && Ran(actions) <= Entered(actions) && Apart(Entered(actions))
      && |Ran(actions)| - 1 <= |s.finished| <= |Ran(actions)|
      && (forall c :: c in Entered(actions) && Is(s, c, Gone) ==> c in s.finished)
  {
    hide Apart, Inv, Run, Ran, Entered;
    Reached(actions);
    Recorded(actions);
    InvOrder(Run(actions).value);
  }

  lemma InvOrder(s: State)
    requires Inv(s)
    ensures !s.crashed && s.finished + Unmarked(s.worker) <= s.accepted && Apart(s.accepted)
    ensures forall c :: c in s.accepted && Is(s, c, Gone) ==> c in s.finished
  {
    hide Linked, Apart, Known;
    forall c | c in s.accepted && Is(s, c, Gone) ensures c in s.finished { Parts(s, c); }
  }

  /** When the worker has left, every job that entered has run and is done; while it or a
      client sleeps, there is nothing it could have been woken for. */
  lemma NothingIsMissed(actions: seq<Action>)
    requires Run(actions).Some?
    ensures var s := Run(actions).value;
      && (s.worker == Exited ==> s.stopping && Ran(actions) == Entered(actions) == s.finished)
      && (s.worker == Sleeping ==> !s.stopping && Ran(actions) == Entered(actions) == s.finished)
      && (forall c :: Is(s, c, Asleep) ==> c in Entered(actions) && c !in s.finished)
  {
    hide Inv, Run, Ran, Entered;
    Reached(actions);
    Recorded(actions);
    InvIdle(Run(actions).value);
  }

  lemma InvIdle(s: State)
    requires Inv(s)
    ensures s.worker == Exited ==> s.stopping && s.finished == s.accepted
    ensures s.worker == Sleeping ==> !s.stopping && s.finished == s.accepted
    ensures forall c :: Is(s, c, Asleep) ==> c in s.accepted && c !in s.finished
  {
    hide Linked, Apart, Known, Clients;
    forall c | Is(s, c, Asleep) ensures c in s.accepted && c !in s.finished { Parts(s, c); }
  }

  // ----- Every run of the threads that are there comes to an end -----

  /** Steps a thread takes of itself: no new client, no stop, no wakeup without a signal. */
  predicate Own(a: Action) {
    !a.NewClient? && !a.Stop? && !a.Wake? && !a.WorkerWakes?
  }

  function ClientCost(k: Client, done: bool): (r: nat) {
    match k
    case Fresh => 15
    case Wanting => 14
    case Waking => if done then 3 else 6
    case Checking => if done then 2 else 5
    case Asleep => 4
    case Refused => 2
    case Leaving => 1
    case Gone => 0
  }

  function WorkerCost(w: Worker): (r: nat) {
    match w
    case Clearing(_) => 6
    case Running(_) => 5
    case Locking(_) => 4
    case Marking(_) => 3
    case Unlocking(_) => 2
    case Ready => 1
    case _ => 0
  }

  ghost function ClientCosts(client: seq<Client>, done: seq<bool>): (r: nat)
    requires |client| == |done|
  {
    if client == [] then 0
    else
      var n := |client| - 1;
      ClientCosts(client[..n], done[..n]) + ClientCost(client[n], done[n])
  }

  ghost function Cost(s: State): (r: nat)
    requires Sized(s)
  {
    ClientCosts(s.client, s.done) + WorkerCost(s.worker) + 7 * |Queue(s)|
  }

  lemma {:induction false} CostAt(client: seq<Client>, done: seq<bool>, c: Job, k: Client, d: bool)
    requires c < |client| == |done|
    ensures ClientCosts(client[c := k], done[c := d]) == ClientCosts(client, done) - ClientCost(client[c], done[c]) + ClientCost(k, d)
  {
    var n := |client| - 1;
    if c < n {
      CostAt(client[..n], done[..n], c, k, d);
      assert client[c := k][..n] == client[..n][c := k] && done[c := d][..n] == done[..n][c := d];
    } else {
      assert client[c := k][..n] == client[..n] && done[c := d][..n] == done[..n];
    }
  }

  /** The client a step moves. */
  function Mover(s: State, a: Action): (r: Job) {
    if a == Mark && s.worker.Marking? then s.worker.j
    else if a.Lock? || a.Enqueue? || a.Check? || a.Relock? || a.UnlockRefused? || a.Release? then a.c
    else 0
  }

  /** A step moves one client at most. */
  lemma OneMoves(s: State, a: Action)
    requires Sized(s) && Enabled(s, a) && Own(a) && !Step(s, a).crashed
    ensures var c, r := Mover(s, a), Step(s, a);
      && |r.client| == |s.client| && |r.done| == |s.done|
      && (c < |s.client| ==> r.client == s.client[c := r.client[c]] && r.done == s.done[c := r.done[c]])
      && (c >= |s.client| ==> r.client == s.client && r.done == s.done)
  {
  }

  lemma QueueLength(s: State)
    requires Inv(s)
    ensures |Queue(s)| == |s.accepted| - |s.finished| - |Current(s.worker)|
    ensures Linked(s) && InOrder(s)
  {
    hide Linked, Clients, Apart, Known;
  }

  lemma Pays(s: State, a: Action)
    requires Inv(s) && Enabled(s, a) && Own(a)
    ensures Inv(Step(s, a)) && Cost(Step(s, a)) < Cost(s)
  {
    hide Inv, Base, Clients, InOrder, Linked, WorkerOk, ClientCosts, Queue;
    Keeps(s, a);
    var r, c := Step(s, a), Mover(s, a);
    Parts(s, c);
    Parts(r, c);
    QueueLength(s);
    QueueLength(r);
    OneMoves(s, a);
    if c < |s.client| { CostAt(s.client, s.done, c, r.client[c], r.done[c]); }
    HeadIs(s);
    if a == Mark { NotDone(s); }
  }

  lemma NotDone(s: State)
    requires Inv(s) && s.worker.Marking?
    ensures Alive(s, s.worker.j) && !s.done[s.worker.j] && (s.client[s.worker.j] == Asleep || s.client[s.worker.j] == Waking)
  {
    hide Inv, Base, Clients, InOrder, Linked, WorkerOk;
    assert Current(s.worker)[0] == s.worker.j;
    Pending(s, s.worker.j);
    Parts(s, s.worker.j);
  }

  /** Everyone has left, and the worker has nothing to do. */
  ghost predicate Quiet(s: State) {
    (forall c :: 0 <= c < |s.client| ==> s.client[c] == Gone) && (s.worker == Sleeping || s.worker == Exited)
  }

  /** Unless all is quiet some thread can go on: there is no deadlock. */
  lemma SomeStep(s: State) returns (a: Action)
    requires Inv(s) && !Quiet(s)
    ensures Own(a) && Enabled(s, a)
  {
    hide Inv, Base, Clients, InOrder, Linked, WorkerOk;
    if s.worker == Sleeping || s.worker == Exited {
      var c: Job :| c < |s.client| && s.client[c] != Gone;
      Parts(s, c);
      IdleDone(s, c);
      a := ClientNext(s, c);
    } else if s.worker.Locking? {
      var j := s.worker.j;
      assert Current(s.worker)[0] == j;
      Pending(s, j);
      Parts(s, j);
      a := if s.client[j] == Checking then Check(j) else LockDone;
    } else {
      a := WorkerNext(s.worker);
    }
  }

  function WorkerNext(w: Worker): (a: Action) {
    match w
    case Ready => Take
    case Clearing(_) => Clear
    case Running(_) => Generate
    case Marking(_) => Mark
    case Unlocking(_) => Unlock
    case _ => LockDone
  }

  function ClientNext(s: State, c: Job): (a: Action)
    requires c < |s.client|
  {
    match s.client[c]
    case Fresh => Lock(c)
    case Wanting => Enqueue(c)
    case Checking => Check(c)
    case Waking => Relock(c)
    case Refused => UnlockRefused(c)
    case _ => Release(c)
  }

  /** With the worker idle, no client waits for an unfinished job. */
  lemma IdleDone(s: State, c: Job)
    requires Inv(s) && c < |s.client| && (s.worker == Sleeping || s.worker == Exited)
    ensures s.client[c] != Asleep
  {
    hide Inv;
    Parts(s, c);
    InvIdle(s);
    assert Is(s, c, s.client[c]);
  }

  /** Steps taken one after another from a state. */
  ghost function From(s: State, actions: seq<Action>): (r: Option<State>)
    decreases |actions|
  {
    if actions == [] then Some(s)
    else if Enabled(s, actions[0]) then From(Step(s, actions[0]), actions[1..])
    else None
  }

  ghost predicate AllOwn(actions: seq<Action>) {
    forall i :: 0 <= i < |actions| ==> Own(actions[i])
  }

  /** However the threads are scheduled, they stop after at most `Cost(s)` steps. */
  lemma {:induction false} Bounded(s: State, actions: seq<Action>)
    requires Inv(s) && AllOwn(actions) && From(s, actions).Some?
    ensures Inv(From(s, actions).value) && |actions| <= Cost(s) - Cost(From(s, actions).value)
    decreases |actions|
  {
    hide Inv, Base, Clients, Cost, Enabled, Step;
    Parts(s, 0);
    if actions != [] {
      Pays(s, actions[0]);
      Bounded(Step(s, actions[0]), actions[1..]);
    }
  }

  /** Where no thread can go on, every client has been answered and has left. */
  lemma StuckIsDone(s: State)
    requires Inv(s) && (forall a :: Own(a) ==> !Enabled(s, a))
    ensures Quiet(s) && s.finished == s.accepted && s.head.None?
  {
    hide Inv, Base, Clients, InOrder, Linked, Queue;
    if !Quiet(s) { var a := SomeStep(s); }
    InvIdle(s);
    QueueLength(s);
    HeadIs(s);
  }
}
