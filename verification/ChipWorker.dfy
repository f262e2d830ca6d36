/** Many submitters and one worker around the priority queue
    (ugreen/tests/it55_functions_test.c): chip_proc_write allocates a request with one
    reference, queues it, kicks the ordered work queue and, if the request is synchronous,
    waits for it; chip_work_handler drains the queue with a reference of its own.
    Waiters are not interrupted and the queue is not cleaned up while it is in use. */
module ChipWorker {
  import opened Words
  import opened PrioQueue

  type Id = nat

  /** Where the submitter of a request is. */
  datatype Place = Made | Rejected | Queued | Waiting | Woken | Gone

  /** `frees` counts how often the request has been freed. */
  datatype Req = Req(priority: int, sync: bool, refs: int, frees: nat, completed: bool, place: Place)

  datatype Worker = Idle | Looping | Processing(id: Id) | Dropping(id: Id)

  /** `pending` is the pending bit of the delayed work; `accepted` collects the requests that
      prio_queue_put took and `processed` lists those the worker has taken out, in order. */
  datatype State = State(
    reqs: map<Id, Req>, q: Levels<Id>, pending: bool, worker: Worker, accepted: set<Id>, processed: seq<Id>)

  datatype Step =
    | Make(id: Id, priority: int, sync: bool)
    | CopyFails(id: Id)
    | Enqueue(id: Id)
    | DropRejected(id: Id)
    | Kick(id: Id)
    | Wake(id: Id)
    | DropWoken(id: Id)
    | WorkStart
    | WorkGet
    | WorkAct
    | WorkDrop

  predicate At(s: State, id: Id, p: Place) {
    id in s.reqs && s.reqs[id].place == p
  }

  predicate Enabled(s: State, step: Step) {
    match step
    case Make(id, _, _) => id !in s.reqs
    case CopyFails(id) => At(s, id, Made)
    case Enqueue(id) => At(s, id, Made)
    case DropRejected(id) => At(s, id, Rejected)
    case Kick(id) => At(s, id, Queued)
    case Wake(id) => At(s, id, Waiting) && s.reqs[id].completed
    case DropWoken(id) => At(s, id, Woken)
    case WorkStart => s.pending && s.worker.Idle?
    case WorkGet => s.worker.Looping?
    case WorkAct => s.worker.Processing? && s.worker.id in s.reqs
    case WorkDrop => s.worker.Dropping? && s.worker.id in s.reqs
  }

  /** req_put: the last reference frees. */
  function Unref(r: Req): Req {
    r.(refs := r.refs - 1, frees := r.frees + (if r.refs == 1 then 1 else 0))
  }

  function Set(s: State, id: Id, r: Req): State {
    s.(reqs := s.reqs[id := r])
  }

  /** The request that the next prio_queue_get returns. */
  function Head(q: Levels<Id>): Option<Id> {
    Get(q).0
  }

  function Next(s: State, step: Step): State
    requires Enabled(s, step)
  {
    match step
    case Make(id, priority, sync) => Set(s, id, Req(priority, sync, 1, 0, false, Made))
    case CopyFails(id) => Set(s, id, Unref(s.reqs[id]).(place := Gone))
    case Enqueue(id) =>
      var r := s.reqs[id];
      if ValidPriority(r.priority) then
        Set(s.(q := Put(s.q, r.priority, id), accepted := s.accepted + {id}), id, r.(place := Queued))
      else Set(s, id, r.(place := Rejected))
    case DropRejected(id) => Set(s, id, Unref(s.reqs[id]).(place := Gone))
    case Kick(id) =>
      Set(s.(pending := true), id, s.reqs[id].(place := if s.reqs[id].sync then Waiting else Gone))
    case Wake(id) => Set(s, id, s.reqs[id].(place := Woken))
    case DropWoken(id) => Set(s, id, Unref(s.reqs[id]).(place := Gone))
    case WorkStart => s.(pending := false, worker := Looping)
    case WorkGet =>
      var (x, q') := Get(s.q);
      if x.None? || x.value !in s.reqs then s.(worker := Idle)
      else
        Set(s.(q := q', worker := Processing(x.value), processed := s.processed + [x.value]), x.value,
            s.reqs[x.value].(refs := s.reqs[x.value].refs + 1))
    case WorkAct =>
      var id := s.worker.id;
      Set(s.(worker := Dropping(id)), id,
          if s.reqs[id].sync then s.reqs[id].(completed := true) else Unref(s.reqs[id]))
    case WorkDrop => Set(s.(worker := Looping), s.worker.id, Unref(s.reqs[s.worker.id]))
  }

  const INITIAL: State := State(map[], [[], [], []], false, Idle, {}, [])

  ghost predicate Reachable(steps: seq<Step>, s: State)
    decreases |steps|
  {
    if steps == [] then s == INITIAL
    else
      var n := |steps| - 1;
      exists p :: Reachable(steps[..n], p) && Enabled(p, steps[n]) && s == Next(p, steps[n])
  }

  // ---------- Who holds what ----------

  predicate InQueue(q: Levels<Id>, id: Id) {
    id in q[0] || id in q[1] || id in q[2]
  }

  predicate Distinct(s: seq<Id>) {
    forall i, j :: 0 <= i < j < |s| ==> s[i] != s[j]
  }

  /** The worker is between taking the request and its last use of it. */
  predicate AtWorker(s: State, id: Id) {
    s.worker == Processing(id) || s.worker == Dropping(id)
  }

  /** The reference of kref_init: the submitter's while it has yet to put it; for an
      asynchronous request, handed over to the queue and then to the worker. */
  predicate CreationHeld(s: State, id: Id)
    requires id in s.reqs
  {
    var r := s.reqs[id];
    if r.sync then r.place != Gone
    else r.place == Made || r.place == Rejected || InQueue(s.q, id) || s.worker == Processing(id)
  }

  function Holders(s: State, id: Id): nat
    requires id in s.reqs
  {
    (if CreationHeld(s, id) then 1 else 0) + (if AtWorker(s, id) then 1 else 0)
  }

  /** The reference count is the number of holders, and the request has been freed exactly
      if nobody holds it. */
  predicate Counted(s: State, id: Id)
    requires id in s.reqs
  {
    s.reqs[id].refs == Holders(s, id) && s.reqs[id].frees == if Holders(s, id) == 0 then 1 else 0
  }

  /** A request's place tells whether it has been queued and what has become of it. */
  predicate Placed(s: State, id: Id)
    requires id in s.reqs
  {
    var r := s.reqs[id];
    && (InQueue(s.q, id) ==> r.place == Queued || (if r.sync then r.place == Waiting else r.place == Gone))
    && (InQueue(s.q, id) ==> id !in s.processed && !AtWorker(s, id) && !r.completed)
    && (r.place == Queued || r.place == Waiting || r.place == Woken ==> InQueue(s.q, id) || id in s.processed)
    && (r.place == Made || r.place == Rejected ==> id !in s.processed && !r.completed)
    && (AtWorker(s, id) ==> id in s.processed)
    && (s.worker == Processing(id) ==> !r.completed)
    && (id in s.processed ==> ValidPriority(r.priority))
    && (r.sync && id in s.processed ==> r.completed || s.worker == Processing(id))
    && (r.sync && id in s.processed && r.place == Gone ==> r.completed)
    && (r.place == Woken ==> r.sync && r.completed)
    && (r.place == Waiting ==> r.sync)
    && (r.completed ==> id in s.processed)
    && (id in s.accepted <==> InQueue(s.q, id) || id in s.processed)
  }

  ghost predicate QueueInv(s: State) {
    && (forall l: nat, i :: l < PRIO_LEVELS && 0 <= i < |s.q[l]| ==>
          s.q[l][i] in s.reqs && s.reqs[s.q[l][i]].priority == l)
    && (forall l: nat :: l < PRIO_LEVELS ==> Distinct(s.q[l]))
    && Distinct(s.processed)
    && (forall i :: 0 <= i < |s.processed| ==> s.processed[i] in s.reqs)
    && (s.worker.Processing? || s.worker.Dropping? ==> s.worker.id in s.reqs)
    && (forall id: Id :: id in s.accepted ==> id in s.reqs)
  }

  ghost predicate ReqInv(s: State) {
    forall id: Id :: id in s.reqs ==> Counted(s, id) && Placed(s, id)
  }

  /** A request is waiting and someone is still going to look. */
  ghost predicate WakeupInv(s: State) {
    Total(s.q) > 0 ==> s.pending || !s.worker.Idle? || exists id: Id :: At(s, id, Queued)
  }

  ghost predicate Inv(s: State) {
    QueueInv(s) && ReqInv(s) && WakeupInv(s)
  }

  // ---------- Steps keep the invariant ----------

  predicate OfSubmitter(step: Step) {
    step.Make? || step.CopyFails? || step.DropRejected? || step.Kick? || step.Wake? || step.DropWoken?
  }

  lemma NotYetMade(s: State, id: Id)
    requires QueueInv(s) && id !in s.reqs
    ensures !InQueue(s.q, id) && id !in s.processed && !AtWorker(s, id) && id !in s.accepted
  {
    if InQueue(s.q, id) {
      var l: nat :| l < PRIO_LEVELS && id in s.q[l];
    }
  }

  /** Steps that leave queue and worker alone change one request, and the holders of no other. */
  lemma SubmitterReq(s: State, step: Step, id: Id)
    requires QueueInv(s) && Enabled(s, step) && OfSubmitter(step) && id in Next(s, step).reqs
    requires id in s.reqs ==> Counted(s, id) && Placed(s, id)
    ensures Counted(Next(s, step), id) && Placed(Next(s, step), id)
  {
    if id !in s.reqs {
      NotYetMade(s, id);
    }
  }

  lemma SubmitterQueue(s: State, step: Step)
    requires QueueInv(s) && Enabled(s, step) && OfSubmitter(step)
    ensures QueueInv(Next(s, step))
  {
  }

  lemma SubmitterWakes(s: State, step: Step)
    requires WakeupInv(s) && Enabled(s, step) && OfSubmitter(step)
    ensures WakeupInv(Next(s, step))
  {
    var s' := Next(s, step);
    if Total(s'.q) > 0 && !step.Kick? && !s'.pending && s'.worker.Idle? {
      var id: Id :| At(s, id, Queued);
      assert At(s', id, Queued);
    }
  }

  lemma SubmitterStep(s: State, step: Step)
    requires Inv(s) && Enabled(s, step) && OfSubmitter(step)
    ensures Inv(Next(s, step))
  {
    var s' := Next(s, step);
    SubmitterQueue(s, step);
    SubmitterWakes(s, step);
    forall id: Id | id in s'.reqs ensures Counted(s', id) && Placed(s', id) {
      SubmitterReq(s, step, id);
    }
  }

  lemma PutMember(q: Levels<Id>, p: int, x: Id, id: Id)
    requires ValidPriority(p)
    ensures InQueue(Put(q, p, x), id) <==> InQueue(q, id) || id == x
  {
  }

  lemma EnqueueReq(s: State, id: Id, k: Id)
    requires Inv(s) && Enabled(s, Enqueue(id)) && k in s.reqs
    ensures Counted(Next(s, Enqueue(id)), k) && Placed(Next(s, Enqueue(id)), k)
  {
    assert Counted(s, k) && Placed(s, k);
    if ValidPriority(s.reqs[id].priority) {
      PutMember(s.q, s.reqs[id].priority, id, k);
    }
  }

  lemma EnqueueQueue(s: State, id: Id)
    requires QueueInv(s) && Enabled(s, Enqueue(id)) && Placed(s, id)
    ensures QueueInv(Next(s, Enqueue(id)))
  {
    var p := s.reqs[id].priority;
    if ValidPriority(p) {
      assert id !in s.q[p];
    }
  }

  lemma EnqueueWakes(s: State, id: Id)
    requires WakeupInv(s) && Enabled(s, Enqueue(id))
    ensures WakeupInv(Next(s, Enqueue(id)))
  {
    var s' := Next(s, Enqueue(id));
    if ValidPriority(s.reqs[id].priority) {
      assert At(s', id, Queued);
    } else if Total(s'.q) > 0 && !s'.pending && s'.worker.Idle? {
      var k: Id :| At(s, k, Queued);
      assert At(s', k, Queued);
    }
  }

  lemma EnqueueStep(s: State, id: Id)
    requires Inv(s) && Enabled(s, Enqueue(id))
    ensures Inv(Next(s, Enqueue(id)))
  {
    var s' := Next(s, Enqueue(id));
    EnqueueQueue(s, id);
    EnqueueWakes(s, id);
    forall k: Id | k in s'.reqs ensures Counted(s', k) && Placed(s', k) {
      EnqueueReq(s, id, k);
    }
  }

  /** Taking the head removes it from the queue, and nothing else. */
  lemma GetMember(s: State) returns (l: nat)
    requires QueueInv(s) && Get(s.q).0.Some?
    ensures var (x, q') := Get(s.q);
            && l < PRIO_LEVELS && s.q[l] == [x.value] + q'[l] && q' == s.q[l := q'[l]]
            && InQueue(s.q, x.value)
            && (forall id: Id :: InQueue(q', id) <==> InQueue(s.q, id) && id != x.value)
  {
    GetTakes(s.q);
    var (x, q') := Get(s.q);
    l :| l < PRIO_LEVELS && s.q[l] == [x.value] + q'[l] && q' == s.q[l := q'[l]];
    assert s.q[l][0] == x.value;
    forall k: nat, i | k < PRIO_LEVELS && 0 <= i < |q'[k]| ensures q'[k][i] != x.value && q'[k][i] in s.q[k] {
      if k == l {
        assert q'[k][i] == s.q[l][i + 1];
      }
    }
  }

  lemma GetKeepsQueue(s: State)
    requires QueueInv(s) && Get(s.q).0.Some?
    ensures QueueInv(s.(q := Get(s.q).1)) && Get(s.q).0.value in s.reqs
  {
    var l := GetMember(s);
    var (x, q') := Get(s.q);
    assert s.q[l][0] == x.value;
    forall k: nat, i | k < PRIO_LEVELS && 0 <= i < |q'[k]|
      ensures q'[k][i] in s.reqs && s.reqs[q'[k][i]].priority == k
    {
      assert q'[k][i] == s.q[k][if k == l then i + 1 else i];
    }
    forall i, j | 0 <= i < j < |q'[l]| ensures q'[l][i] != q'[l][j] {
      assert q'[l][i] == s.q[l][i + 1] && q'[l][j] == s.q[l][j + 1];
    }
  }

  lemma WorkGetReq(s: State, id: Id)
    requires Inv(s) && Enabled(s, WorkGet) && id in s.reqs
    ensures Counted(Next(s, WorkGet), id) && Placed(Next(s, WorkGet), id)
  {
    assert Counted(s, id) && Placed(s, id);
    if Get(s.q).0.Some? {
      var l := GetMember(s);
      GetKeepsQueue(s);
      var h := Get(s.q).0.value;
      assert s.q[l][0] == h && s.reqs[s.q[l][0]].priority == l;
      assert InQueue(Next(s, WorkGet).q, id) <==> InQueue(s.q, id) && id != h;
    }
  }

  lemma WorkGetStep(s: State)
    requires Inv(s) && Enabled(s, WorkGet)
    ensures Inv(Next(s, WorkGet))
  {
    var s' := Next(s, WorkGet);
    GetTakes(s.q);
    if Get(s.q).0.Some? {
      GetKeepsQueue(s);
      var _ := GetMember(s);
      assert Placed(s, Get(s.q).0.value);
    }
    forall id: Id | id in s'.reqs ensures Counted(s', id) && Placed(s', id) {
      WorkGetReq(s, id);
    }
  }

  lemma WorkerReq(s: State, step: Step, id: Id)
    requires Inv(s) && Enabled(s, step) && (step.WorkStart? || step.WorkAct? || step.WorkDrop?) && id in s.reqs
    ensures Counted(Next(s, step), id) && Placed(Next(s, step), id)
  {
    assert Counted(s, id) && Placed(s, id);
  }

  lemma WorkerStep(s: State, step: Step)
    requires Inv(s) && Enabled(s, step) && (step.WorkStart? || step.WorkAct? || step.WorkDrop?)
    ensures Inv(Next(s, step))
  {
    var s' := Next(s, step);
    forall id: Id | id in s'.reqs ensures Counted(s', id) && Placed(s', id) {
      WorkerReq(s, step, id);
    }
  }

  lemma {:induction false} InvHolds(steps: seq<Step>, s: State)
    requires Reachable(steps, s)
    ensures Inv(s)
    decreases |steps|
  {
    if steps == [] {
    } else {
      var n := |steps| - 1;
      var p :| Reachable(steps[..n], p) && Enabled(p, steps[n]) && s == Next(p, steps[n]);
      InvHolds(steps[..n], p);
      match steps[n] {
        case Enqueue(id) => EnqueueStep(p, id);
        case WorkGet => WorkGetStep(p);
        case WorkStart => WorkerStep(p, steps[n]);
        case WorkAct => WorkerStep(p, steps[n]);
        case WorkDrop => WorkerStep(p, steps[n]);
        case _ => SubmitterStep(p, steps[n]);
      }
    }
  }

  // ---------- The protocol ----------

  /** No lost wakeup: in every reachable state with a request in the queue, the work is
      pending, or the worker is in its loop, or a submitter is about to kick it. */
  lemma NoLostWakeup(steps: seq<Step>, s: State)
    requires Reachable(steps, s) && Total(s.q) > 0
    ensures s.pending || !s.worker.Idle? || exists id: Id :: At(s, id, Queued)
  {
    InvHolds(steps, s);
  }

  /** In every reachable state a request's count is the number of its holders; it has been
      freed once if there are none and not at all otherwise. */
  lemma CountsHolders(steps: seq<Step>, s: State, id: Id)
    requires Reachable(steps, s) && id in s.reqs
    ensures s.reqs[id].refs == Holders(s, id)
    ensures s.reqs[id].frees == if s.reqs[id].refs == 0 then 1 else 0
  {
    InvHolds(steps, s);
  }

  /** The request a step reads or writes; kicking the work queue touches none. */
  function Touched(s: State, step: Step): Option<Id> {
    match step
    case Make(_, _, _) => None
    case Kick(_) => None
    case WorkStart => None
    case WorkGet => Head(s.q)
    case WorkAct => if s.worker.Processing? then Some(s.worker.id) else None
    case WorkDrop => if s.worker.Dropping? then Some(s.worker.id) else None
    case CopyFails(id) => Some(id)
    case Enqueue(id) => Some(id)
    case DropRejected(id) => Some(id)
    case Wake(id) => Some(id)
    case DropWoken(id) => Some(id)
  }

  /** No step ever touches a request that has been freed, for synchronous and asynchronous
      requests and whichever of the last two references is put last. */
  lemma NoUseAfterFree(steps: seq<Step>, s: State, step: Step)
    requires Reachable(steps, s) && Enabled(s, step) && Touched(s, step).Some?
    ensures var id := Touched(s, step).value; id in s.reqs && s.reqs[id].refs > 0 && s.reqs[id].frees == 0
  {
    InvHolds(steps, s);
    var id := Touched(s, step).value;
    if step.WorkGet? {
      GetKeepsQueue(s);
      var _ := GetMember(s);
    }
    assert Counted(s, id) && Placed(s, id);
  }

  /** Nothing but making a new request can happen. */
  ghost predicate Quiescent(s: State) {
    forall step: Step :: Enabled(s, step) ==> step.Make?
  }

  lemma NobodyMoves(s: State, id: Id)
    requires Quiescent(s)
    ensures !At(s, id, Made) && !At(s, id, Rejected) && !At(s, id, Queued) && !At(s, id, Woken)
    ensures At(s, id, Waiting) ==> !s.reqs[id].completed
  {
    assert !Enabled(s, Enqueue(id)) && !Enabled(s, DropRejected(id)) && !Enabled(s, Kick(id));
    assert !Enabled(s, DropWoken(id)) && !Enabled(s, Wake(id));
  }

  lemma WorkerRests(s: State)
    requires Inv(s) && Quiescent(s)
    ensures s.worker.Idle? && Total(s.q) == 0
  {
    assert !Enabled(s, WorkStart) && !Enabled(s, WorkGet) && !Enabled(s, WorkAct) && !Enabled(s, WorkDrop);
    if Total(s.q) > 0 {
      var id: Id :| At(s, id, Queued);
      NobodyMoves(s, id);
    }
  }

  /** When everything has come to rest, the queue is empty, every submitter has returned, the
      accepted requests are those that were processed, each of them once, and every request
      has been freed exactly once. */
  lemma RestLeavesNothing(steps: seq<Step>, s: State)
    requires Reachable(steps, s) && Quiescent(s)
    ensures Total(s.q) == 0 && s.worker.Idle?
    ensures Distinct(s.processed) && forall id: Id :: id in s.accepted <==> id in s.processed
    ensures forall id: Id :: id in s.reqs ==>
              s.reqs[id].place == Gone && s.reqs[id].refs == 0 && s.reqs[id].frees == 1
  {
    InvHolds(steps, s);
    WorkerRests(s);
    forall id: Id | id in s.reqs
      ensures s.reqs[id].place == Gone && s.reqs[id].refs == 0 && s.reqs[id].frees == 1
    {
      assert Counted(s, id) && Placed(s, id);
      NobodyMoves(s, id);
    }
    forall id: Id ensures id in s.accepted <==> id in s.processed {
      if id in s.accepted || id in s.processed {
        assert id in s.reqs;
        assert Placed(s, id);
      }
    }
  }

  /** What is known of a request, given whether it has been put. */
  predicate PutKnown(s: State, id: Id, put: bool) {
    && (id in s.accepted <==> put && id in s.reqs && 0 <= s.reqs[id].priority <= 2)
    && (put ==> id in s.reqs && s.reqs[id].place != Made)
  }

  lemma PutKnownStep(s: State, step: Step, id: Id, put: bool)
    requires Enabled(s, step) && PutKnown(s, id, put)
    ensures PutKnown(Next(s, step), id, put || step == Enqueue(id))
  {
  }

  /** A request is accepted exactly if it was put with priority 0, 1 or 2. */
  lemma {:induction false} AcceptedWhen(steps: seq<Step>, s: State, id: Id)
    requires Reachable(steps, s)
    ensures PutKnown(s, id, Enqueue(id) in steps)
    decreases |steps|
  {
    if steps == [] {
    } else {
      var n := |steps| - 1;
      var p :| Reachable(steps[..n], p) && Enabled(p, steps[n]) && s == Next(p, steps[n]);
      AcceptedWhen(steps[..n], p, id);
      PutKnownStep(p, steps[n], id, Enqueue(id) in steps[..n]);
      assert steps == steps[..n] + [steps[n]];
    }
  }

  /** So at rest every request that was put with one of these priorities has been processed. */
  lemma PutIsProcessed(steps: seq<Step>, s: State, id: Id)
    requires Reachable(steps, s) && Quiescent(s) && Enqueue(id) in steps && id in s.reqs
    ensures id in s.processed <==> 0 <= s.reqs[id].priority <= 2
  {
    AcceptedWhen(steps, s, id);
    RestLeavesNothing(steps, s);
  }

  // ---------- Rest is reached ----------

  /** How much a request can still set in motion. */
  function Weight(p: Place): nat {
    match p
    case Made => 9
    case Queued => 5
    case Waiting => 2
    case Rejected => 1
    case Woken => 1
    case Gone => 0
  }

  ghost function WeightOf(reqs: map<Id, Req>): nat
    decreases |reqs|
  {
    if reqs == map[] then 0
    else
      var id :| id in reqs;
      RemoveShrinks(reqs, id);
      Weight(reqs[id].place) + WeightOf(reqs - {id})
  }

  lemma RemoveShrinks(reqs: map<Id, Req>, id: Id)
    requires id in reqs
    ensures |reqs - {id}| == |reqs| - 1
  {
    assert (reqs - {id}).Keys == reqs.Keys - {id};
    assert |reqs.Keys - {id}| == |reqs.Keys| - 1;
  }

  lemma {:induction false} WeightWithout(reqs: map<Id, Req>, id: Id)
    requires id in reqs
    ensures WeightOf(reqs) == Weight(reqs[id].place) + WeightOf(reqs - {id})
    decreases |reqs|
  {
    var k :| k in reqs && WeightOf(reqs) == Weight(reqs[k].place) + WeightOf(reqs - {k});
    if k != id {
      RemoveShrinks(reqs, k);
      WeightWithout(reqs - {k}, id);
      RemoveShrinks(reqs, id);
      WeightWithout(reqs - {id}, k);
      assert reqs - {k} - {id} == reqs - {id} - {k};
    }
  }

  lemma WeightSet(reqs: map<Id, Req>, id: Id, r: Req)
    requires id in reqs
    ensures WeightOf(reqs[id := r]) == WeightOf(reqs) - Weight(reqs[id].place) + Weight(r.place)
  {
    WeightWithout(reqs, id);
    WeightWithout(reqs[id := r], id);
    assert reqs[id := r] - {id} == reqs - {id};
  }

  function Busy(w: Worker): nat {
    match w
    case Idle => 0
    case Looping => 1
    case Dropping(_) => 2
    case Processing(_) => 3
  }

  ghost function Measure(s: State): nat {
    WeightOf(s.reqs) + 3 * Total(s.q) + (if s.pending then 2 else 0) + Busy(s.worker)
  }

  /** Every step but a new submission uses something up. */
  lemma StepUses(s: State, step: Step)
    requires Enabled(s, step) && !step.Make?
    ensures Measure(Next(s, step)) < Measure(s)
  {
    var s' := Next(s, step);
    if step.WorkGet? {
      GetTakes(s.q);
      var x := Get(s.q).0;
      if x.Some? && x.value in s.reqs {
        WeightSet(s.reqs, x.value, s'.reqs[x.value]);
      }
    } else if step.WorkAct? || step.WorkDrop? {
      WeightSet(s.reqs, s.worker.id, s'.reqs[s.worker.id]);
    } else if !step.WorkStart? {
      if step.Enqueue? {
        PutTotal(s.q, s.reqs[step.id].priority, step.id);
      }
      WeightSet(s.reqs, step.id, s'.reqs[step.id]);
    }
  }

  /** A run from `s` to `t` without new submissions. */
  ghost predicate Settles(s: State, steps: seq<Step>, t: State)
    decreases |steps|
  {
    if steps == [] then s == t
    else Enabled(s, steps[0]) && !steps[0].Make? && Settles(Next(s, steps[0]), steps[1..], t)
  }

  /** However the scheduler chooses, such a run has at most Measure(s) steps. */
  lemma {:induction false} SettlingIsBounded(s: State, steps: seq<Step>, t: State)
    requires Settles(s, steps, t)
    ensures |steps| + Measure(t) <= Measure(s)
    decreases |steps|
  {
    if steps == [] {
    } else {
      StepUses(s, steps[0]);
      SettlingIsBounded(Next(s, steps[0]), steps[1..], t);
    }
  }

  lemma ReachableSnoc(before: seq<Step>, s: State, step: Step)
    requires Reachable(before, s) && Enabled(s, step)
    ensures Reachable(before + [step], Next(s, step))
  {
    assert (before + [step])[..|before|] == before;
  }

  lemma {:induction false} SettlingReachable(before: seq<Step>, s: State, steps: seq<Step>, t: State)
    requires Reachable(before, s) && Settles(s, steps, t)
    ensures Reachable(before + steps, t)
    decreases |steps|
  {
    if steps == [] {
      assert before + steps == before;
    } else {
      var all := before + [steps[0]];
      ReachableSnoc(before, s, steps[0]);
      SettlingReachable(all, Next(s, steps[0]), steps[1..], t);
      assert all + steps[1..] == before + steps;
    }
  }

  /** A run without new submissions that cannot go on is at rest, and then nothing is left: so
      every reachable state, once nobody submits any more, comes to rest within Measure(s) steps
      whatever the scheduler does, with every accepted request processed and every one freed. */
  lemma RestIsReached(before: seq<Step>, s: State, steps: seq<Step>, t: State)
    requires Reachable(before, s) && Settles(s, steps, t)
    ensures |steps| <= Measure(s)
    ensures Quiescent(t) ==>
              && Total(t.q) == 0 && t.worker.Idle?
              && (forall id: Id :: id in t.accepted <==> id in t.processed)
              && (forall id: Id :: id in t.reqs ==> t.reqs[id].place == Gone && t.reqs[id].frees == 1)
  {
    SettlingIsBounded(s, steps, t);
    SettlingReachable(before, s, steps, t);
    if Quiescent(t) {
      RestLeavesNothing(before + steps, t);
    }
  }

  /** And there is such a run from every state. */
  lemma {:induction false} CanSettle(s: State) returns (steps: seq<Step>, t: State)
    ensures Settles(s, steps, t) && Quiescent(t)
    decreases Measure(s)
  {
    if Quiescent(s) {
      steps, t := [], s;
    } else {
      var step :| Enabled(s, step) && !step.Make?;
      StepUses(s, step);
      var rest;
      rest, t := CanSettle(Next(s, step));
      steps := [step] + rest;
      assert steps[1..] == rest;
    }
  }

  /** A synchronous caller is woken only after its request was processed, and so reads the
      result that was stored for it. */
  lemma WokenAfterProcessing(steps: seq<Step>, s: State, id: Id)
    requires Reachable(steps, s) && At(s, id, Woken)
    ensures id in s.processed && s.reqs[id].completed && s.reqs[id].refs > 0
  {
    InvHolds(steps, s);
    assert Counted(s, id) && Placed(s, id);
  }

  // ---------- The handler's loop ----------

  /** The worker alone, on a queue that nobody refills. */
  class Device {
    const pq: Queue<Id>
    var handled: seq<Id>

    constructor (pq: Queue<Id>)
      ensures this.pq == pq && handled == []
    {
      this.pq, handled := pq, [];
    }

    /** Handles everything that is queued, in the order of the stable sort by priority. */
    method ChipWorkHandler()
      requires pq.Valid()
      modifies this, pq, pq.queues
      ensures pq.Valid() && pq.count == 0
      ensures handled == old(handled) + Drain(old(pq.queues[..]))
    {
      var more := true;
      while more
        invariant pq.Valid()
        invariant handled + Drain(pq.queues[..]) == old(handled) + Drain(old(pq.queues[..]))
        invariant !more ==> Total(pq.queues[..]) == 0 && Drain(pq.queues[..]) == []
        decreases more, Total(pq.queues[..])
      {
        ghost var q := pq.queues[..];
        GetTakes(q);
        var req := pq.PrioQueueGet();
        match req {
          case None => more := false;
          case Some(id) =>
            assert Drain(q) == [id] + Drain(pq.queues[..]);
            assert handled + ([id] + Drain(pq.queues[..])) == handled + [id] + Drain(pq.queues[..]);
            handled := handled + [id];
        }
      }
    }
  }
}
