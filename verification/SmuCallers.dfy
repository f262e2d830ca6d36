/** Many callers of smu_send_command at once (ugreen/ryzen-smu-amkillam/smu.c).  Each SMN
    access is one step here, which SmuOverWindow justifies; amd_smu_mutex is taken
    around a whole command, and users of the bare SMN window take no part in it. */
module SmuCallers {
  import opened Words
  import opened SmuCommand

  type Tid = nat

  /** One call: `id` numbers the calls in the order they were made. */
  datatype Job = Job(id: nat, op: u32, args: seq<u32>, attempts: u32)

  /** The next access of a command that holds the mutex. */
  datatype Point =
    | Wait1(retries: u32)
    | Clear(retries: u32)
    | Arg(i: nat, retries: u32)
    | Cmd(retries: u32)
    | Wait2(retries: u32)
    | Back(i: nat)
    | Leaving(sent: Sent)

  /** `n1` and `n2` count the RSP reads of the two waits. */
  datatype Pc = Outside | Waiting(job: Job) | Running(job: Job, at: Point, n1: nat, n2: nat)

  datatype Entry = OfCall(id: nat, act: Action) | Direct(tid: Tid)

  datatype Finished = Finished(job: Job, sent: Sent)

  datatype State = State(
    pcs: map<Tid, Pc>, holder: Option<Tid>, calls: nat, trace: seq<Entry>, finished: seq<Finished>)

  datatype Step =
    | Call(tid: Tid, op: u32, args: seq<u32>, attempts: u32)
    | Lock(tid: Tid)
    | Access(tid: Tid)
    | Unlock(tid: Tid)
    | DirectAccess(tid: Tid)

  /** The RSP reads that each call will see. */
  type Oracle = nat -> RspReads

  function PcOf(s: State, t: Tid): Pc {
    if t in s.pcs then s.pcs[t] else Outside
  }

  predicate Enabled(s: State, step: Step) {
    match step
    case Call(t, _, args, _) => PcOf(s, t).Outside? && |args| == MAX_ARGS
    case Lock(t) => PcOf(s, t).Waiting? && s.holder.None?
    case Access(t) => PcOf(s, t).Running? && !PcOf(s, t).at.Leaving? && InRange(PcOf(s, t))
    case Unlock(t) => PcOf(s, t).Running? && PcOf(s, t).at.Leaving?
    case DirectAccess(_) => true
  }

  predicate InRange(pc: Pc)
    requires pc.Running?
  {
    pc.at.Arg? ==> pc.at.i < |pc.job.args|
  }

  function NextAction(pc: Pc): Action
    requires pc.Running? && !pc.at.Leaving? && InRange(pc)
  {
    match pc.at
    case Wait1(_) => PollRsp
    case Clear(_) => ClearRsp
    case Arg(i, _) => WriteArg(i, pc.job.args[i])
    case Cmd(_) => WriteCmd(pc.job.op)
    case Wait2(_) => PollRsp
    case Back(i) => ReadArg(i)
  }

  function Advance(pc: Pc, rsp: RspReads): Pc
    requires pc.Running? && !pc.at.Leaving? && InRange(pc)
  {
    match pc.at
    case Wait1(retries) => AfterPoll1(pc.(n1 := pc.n1 + 1), rsp(pc.n1), retries)
    case Clear(retries) => pc.(at := Arg(0, retries))
    case Arg(i, retries) => pc.(at := if i + 1 < MAX_ARGS then Arg(i + 1, retries) else Cmd(retries))
    case Cmd(retries) => pc.(at := Wait2(retries))
    case Wait2(retries) => AfterPoll2(pc.(n2 := pc.n2 + 1), rsp(pc.n1 + pc.n2), retries)
    case Back(i) =>
      pc.(at := if i + 1 < MAX_ARGS then Back(i + 1) else Leaving(Sent(OK, pc.n1, pc.n2, true, true)))
  }

  function AfterPoll1(pc: Pc, read: Option<u32>, retries: u32): Pc
    requires pc.Running?
  {
    if read.None? then pc.(at := Leaving(Sent(PCI_FAILED, pc.n1, 0, false, false)))
    else
      var (more, left) := PollTest(read.value, retries);
      if more then pc.(at := Wait1(left))
      else if left == 0 && read.value == 0 then pc.(at := Leaving(Sent(COMMAND_TIMEOUT, pc.n1, 0, false, false)))
      else pc.(at := Clear(left))
  }

  function AfterPoll2(pc: Pc, read: Option<u32>, retries: u32): Pc
    requires pc.Running?
  {
    if read.None? then pc.(at := Leaving(Sent(PCI_FAILED, pc.n1, pc.n2, true, false)))
    else
      var (more, left) := PollTest(read.value, retries);
      if more then pc.(at := Wait2(left))
      else if read.value != OK && left == 0 then
        pc.(at := Leaving(Sent(if read.value == 0 then COMMAND_TIMEOUT else read.value, pc.n1, pc.n2, true, false)))
      else pc.(at := Back(0))
  }

  function Next(s: State, step: Step, oracle: Oracle): State
    requires Enabled(s, step)
  {
    match step
    case Call(t, op, args, attempts) =>
      s.(pcs := s.pcs[t := Waiting(Job(s.calls, op, args, attempts))], calls := s.calls + 1)
    case Lock(t) =>
      var job := PcOf(s, t).job;
      s.(pcs := s.pcs[t := Running(job, Wait1(job.attempts), 0, 0)], holder := Some(t))
    case Access(t) =>
      var pc := PcOf(s, t);
      s.(pcs := s.pcs[t := Advance(pc, oracle(pc.job.id))],
         trace := s.trace + [OfCall(pc.job.id, NextAction(pc))])
    case Unlock(t) =>
      var pc := PcOf(s, t);
      s.(pcs := s.pcs[t := Outside], holder := None,
         finished := s.finished + [Finished(pc.job, pc.at.sent)])
    case DirectAccess(t) => s.(trace := s.trace + [Direct(t)])
  }

  ghost predicate Reachable(steps: seq<Step>, oracle: Oracle, s: State)
    decreases |steps|
  {
    if steps == [] then s == State(map[], None, 0, [], [])
    else
      var n := |steps| - 1;
      exists p :: Reachable(steps[..n], oracle, p) && Enabled(p, steps[n]) && s == Next(p, steps[n], oracle)
  }

  // ---------- The block of one call ----------

  /** The accesses of one call, in order. */
  function Block(trace: seq<Entry>, id: nat): seq<Action> {
    if trace == [] then []
    else
      var n := |trace| - 1;
      Block(trace[..n], id) + (if trace[n].OfCall? && trace[n].id == id then [trace[n].act] else [])
  }

  lemma BlockAppend(trace: seq<Entry>, e: Entry, id: nat)
    ensures Block(trace + [e], id) == Block(trace, id) + (if e.OfCall? && e.id == id then [e.act] else [])
  {
    assert (trace + [e])[..|trace|] == trace;
  }

  /** What a running call has done so far. */
  function DoneSoFar(pc: Pc): seq<Action>
    requires pc.Running? && (pc.at.Arg? ==> pc.at.i <= |pc.job.args|)
  {
    var args, issued := pc.job.args, Issue(pc.job.args, pc.job.op);
    match pc.at
    case Wait1(_) => Repeat(pc.n1)
    case Clear(_) => Repeat(pc.n1)
    case Arg(i, _) => Repeat(pc.n1) + ([ClearRsp] + ArgWrites(args[..i]))
    case Cmd(_) => Repeat(pc.n1) + ([ClearRsp] + ArgWrites(args))
    case Wait2(_) => Repeat(pc.n1) + (issued + Repeat(pc.n2))
    case Back(i) => Repeat(pc.n1) + (issued + Repeat(pc.n2)) + ArgReads(i)
    case Leaving(sent) => Accesses(sent, args, pc.job.op)
  }

  /** The first wait is over, with this much budget left. */
  predicate Waited1(pc: Pc, rsp: RspReads, retries: u32)
    requires pc.Running?
  {
    var w1 := PollLoop(rsp, 0, pc.job.attempts);
    w1.tmp.Some? && w1.next == pc.n1 && w1.retries == retries && !(retries == 0 && w1.tmp.value == 0)
  }

  /** A running call is where smu_send_command alone would be on the same RSP reads. */
  predicate OnCourse(pc: Pc, rsp: RspReads)
    requires pc.Running?
  {
    && |pc.job.args| == MAX_ARGS
    && match pc.at
       case Wait1(retries) =>
         pc.n2 == 0 && PollLoop(rsp, 0, pc.job.attempts) == PollLoop(rsp, pc.n1, retries)
       case Clear(retries) => pc.n2 == 0 && Waited1(pc, rsp, retries)
       case Arg(i, retries) => pc.n2 == 0 && i < MAX_ARGS && Waited1(pc, rsp, retries)
       case Cmd(retries) => pc.n2 == 0 && Waited1(pc, rsp, retries)
       case Wait2(retries) =>
         var w1 := PollLoop(rsp, 0, pc.job.attempts);
         && Waited1(pc, rsp, w1.retries)
         && PollLoop(rsp, pc.n1, w1.retries) == PollLoop(rsp, pc.n1 + pc.n2, retries)
       case Back(i) =>
         && i < MAX_ARGS
         && Send(rsp, pc.job.attempts) == Sent(OK, pc.n1, pc.n2, true, true)
       case Leaving(sent) => sent == Send(rsp, pc.job.attempts)
  }

  lemma Wait1OnCourse(pc: Pc, rsp: RspReads)
    requires pc.Running? && pc.at.Wait1? && OnCourse(pc, rsp)
    ensures OnCourse(Advance(pc, rsp), rsp)
  {
  }

  lemma Wait2OnCourse(pc: Pc, rsp: RspReads)
    requires pc.Running? && pc.at.Wait2? && OnCourse(pc, rsp)
    ensures OnCourse(Advance(pc, rsp), rsp)
  {
  }

  lemma CourseKept(pc: Pc, rsp: RspReads)
    requires pc.Running? && !pc.at.Leaving? && InRange(pc) && OnCourse(pc, rsp)
    ensures OnCourse(Advance(pc, rsp), rsp)
    ensures Advance(pc, rsp).Running? && Advance(pc, rsp).job == pc.job
  {
    match pc.at {
      case Wait1(_) => Wait1OnCourse(pc, rsp);
      case Wait2(_) => Wait2OnCourse(pc, rsp);
      case _ =>
    }
  }

  lemma Wait1Grows(pc: Pc, rsp: RspReads)
    requires pc.Running? && pc.at.Wait1?
    ensures DoneSoFar(Advance(pc, rsp)) == DoneSoFar(pc) + [PollRsp]
  {
    RepeatSnoc(pc.n1);
    assert Accesses(Sent(PCI_FAILED, pc.n1 + 1, 0, false, false), pc.job.args, pc.job.op) == Repeat(pc.n1 + 1);
    assert Accesses(Sent(COMMAND_TIMEOUT, pc.n1 + 1, 0, false, false), pc.job.args, pc.job.op) == Repeat(pc.n1 + 1);
  }

  lemma ArgGrows(pc: Pc, rsp: RspReads)
    requires pc.Running? && (pc.at.Clear? || pc.at.Arg? || pc.at.Cmd?) && InRange(pc)
    requires pc.n2 == 0 && |pc.job.args| == MAX_ARGS
    ensures DoneSoFar(Advance(pc, rsp)) == DoneSoFar(pc) + [NextAction(pc)]
  {
    var args := pc.job.args;
    match pc.at {
      case Clear(_) =>
      case Arg(i, _) =>
        assert args[..MAX_ARGS] == args;
        assert ArgWrites(args[..i + 1]) == ArgWrites(args[..i]) + [WriteArg(i, args[i])];
      case Cmd(_) =>
        assert Repeat(0) == [];
    }
  }

  lemma Wait2Grows(pc: Pc, rsp: RspReads)
    requires pc.Running? && pc.at.Wait2?
    ensures DoneSoFar(Advance(pc, rsp)) == DoneSoFar(pc) + [PollRsp]
  {
    var head, issued := Repeat(pc.n1), Issue(pc.job.args, pc.job.op);
    RepeatSnoc(pc.n2);
    assert head + (issued + Repeat(pc.n2 + 1)) == head + (issued + Repeat(pc.n2)) + [PollRsp];
    var pc' := Advance(pc, rsp);
    match pc'.at {
      case Leaving(sent) =>
        assert Accesses(sent, pc.job.args, pc.job.op) == head + (issued + Repeat(pc.n2 + 1));
      case Back(_) =>
        assert ArgReads(0) == [];
      case _ =>
    }
  }

  lemma BackGrows(pc: Pc, rsp: RspReads)
    requires pc.Running? && pc.at.Back? && pc.at.i < MAX_ARGS
    ensures DoneSoFar(Advance(pc, rsp)) == DoneSoFar(pc) + [ReadArg(pc.at.i)]
  {
    assert ArgReads(pc.at.i + 1) == ArgReads(pc.at.i) + [ReadArg(pc.at.i)];
  }

  lemma BlockGrows(pc: Pc, rsp: RspReads)
    requires pc.Running? && !pc.at.Leaving? && InRange(pc) && OnCourse(pc, rsp)
    ensures DoneSoFar(Advance(pc, rsp)) == DoneSoFar(pc) + [NextAction(pc)]
  {
    match pc.at {
      case Wait1(_) => Wait1Grows(pc, rsp);
      case Wait2(_) => Wait2Grows(pc, rsp);
      case Back(_) => BackGrows(pc, rsp);
      case _ => ArgGrows(pc, rsp);
    }
  }

  // ---------- The invariant ----------

  ghost predicate MutexInv(s: State) {
    forall t: Tid :: PcOf(s, t).Running? <==> s.holder == Some(t)
  }

  /** Calls under way have distinct numbers, and one that waits has made no access. */
  ghost predicate IdInv(s: State) {
    && (forall t: Tid :: !PcOf(s, t).Outside? ==> PcOf(s, t).job.id < s.calls && |PcOf(s, t).job.args| == MAX_ARGS)
    && (forall t: Tid, u: Tid ::
          !PcOf(s, t).Outside? && !PcOf(s, u).Outside? && PcOf(s, t).job.id == PcOf(s, u).job.id ==> t == u)
    && (forall i :: 0 <= i < |s.trace| && s.trace[i].OfCall? ==> s.trace[i].id < s.calls)
    && (forall f :: f in s.finished ==> f.job.id < s.calls)
    && (forall t: Tid, f :: f in s.finished && !PcOf(s, t).Outside? ==> PcOf(s, t).job.id != f.job.id)
    && (forall t: Tid, i ::
          PcOf(s, t).Waiting? && 0 <= i < |s.trace| && s.trace[i].OfCall? ==> s.trace[i].id != PcOf(s, t).job.id)
  }

  /** Once a call has made an access, only it makes command accesses up to its last one. */
  ghost predicate Contiguous(trace: seq<Entry>) {
    forall i, j, k :: 0 <= i < j < k < |trace| && trace[i].OfCall? && trace[j].OfCall? && trace[k].OfCall? ==>
      trace[i].id == trace[k].id ==> trace[j].id == trace[i].id
  }

  /** The accesses of the call inside are the last ones made by any command. */
  ghost predicate LastBlock(trace: seq<Entry>, id: nat) {
    forall i, j :: 0 <= i < j < |trace| && trace[i].OfCall? && trace[j].OfCall? && trace[i].id == id ==>
      trace[j].id == id
  }

  /** A running call is on its course, and its accesses are where they should be. */
  ghost predicate InBlock(trace: seq<Entry>, pc: Pc, oracle: Oracle)
    requires pc.Running?
  {
    OnCourse(pc, oracle(pc.job.id)) && Block(trace, pc.job.id) == DoneSoFar(pc) && LastBlock(trace, pc.job.id)
  }

  ghost predicate TraceInv(s: State, oracle: Oracle) {
    && Contiguous(s.trace)
    && (forall t: Tid :: PcOf(s, t).Running? ==> InBlock(s.trace, PcOf(s, t), oracle))
    && (forall f :: f in s.finished ==>
          && f.sent == Send(oracle(f.job.id), f.job.attempts)
          && Block(s.trace, f.job.id) == Accesses(f.sent, f.job.args, f.job.op))
  }

  lemma OthersStay(s: State, step: Step, oracle: Oracle)
    requires Enabled(s, step)
    ensures forall t: Tid :: t != step.tid ==> PcOf(Next(s, step, oracle), t) == PcOf(s, t)
  {
  }

  lemma MutexStep(s: State, step: Step, oracle: Oracle)
    requires MutexInv(s) && Enabled(s, step)
    ensures MutexInv(Next(s, step, oracle))
  {
    OthersStay(s, step, oracle);
  }

  lemma IdStep(s: State, step: Step, oracle: Oracle)
    requires MutexInv(s) && IdInv(s) && Enabled(s, step)
    ensures IdInv(Next(s, step, oracle))
  {
    OthersStay(s, step, oracle);
    var s' := Next(s, step, oracle);
    forall t: Tid | !PcOf(s', t).Outside?
      ensures (t == step.tid && step.Call?) || (!PcOf(s, t).Outside? && PcOf(s', t).job == PcOf(s, t).job)
    {
    }
  }

  lemma {:induction false} NoBlock(trace: seq<Entry>, id: nat)
    requires forall i :: 0 <= i < |trace| && trace[i].OfCall? ==> trace[i].id != id
    ensures Block(trace, id) == []
    decreases |trace|
  {
    if trace == [] {
    } else {
      NoBlock(trace[..|trace| - 1], id);
    }
  }

  lemma TraceStep(s: State, step: Step, oracle: Oracle)
    requires MutexInv(s) && IdInv(s) && TraceInv(s, oracle) && Enabled(s, step)
    ensures TraceInv(Next(s, step, oracle), oracle)
  {
    OthersStay(s, step, oracle);
    match step {
      case Call(_, _, _, _) =>
      case Lock(t) =>
        NoBlock(s.trace, PcOf(s, t).job.id);
      case Access(t) =>
        AccessKeepsTrace(s, t, oracle);
      case Unlock(t) =>
      case DirectAccess(t) =>
        DirectKeepsTrace(s, t, oracle);
    }
  }

  lemma DirectKeepsTrace(s: State, t: Tid, oracle: Oracle)
    requires TraceInv(s, oracle)
    ensures TraceInv(Next(s, DirectAccess(t), oracle), oracle)
  {
    var s', e := Next(s, DirectAccess(t), oracle), Direct(t);
    forall u: Tid | PcOf(s', u).Running? ensures InBlock(s'.trace, PcOf(s', u), oracle) {
      assert PcOf(s', u) == PcOf(s, u) && InBlock(s.trace, PcOf(s, u), oracle);
      BlockAppend(s.trace, e, PcOf(s, u).job.id);
    }
    forall f | f in s'.finished ensures Block(s'.trace, f.job.id) == Accesses(f.sent, f.job.args, f.job.op) {
      BlockAppend(s.trace, e, f.job.id);
    }
  }

  lemma AccessKeepsTrace(s: State, t: Tid, oracle: Oracle)
    requires MutexInv(s) && IdInv(s) && TraceInv(s, oracle) && Enabled(s, Access(t))
    ensures TraceInv(Next(s, Access(t), oracle), oracle)
  {
    var s', pc := Next(s, Access(t), oracle), PcOf(s, t);
    var e := OfCall(pc.job.id, NextAction(pc));
    MutexStep(s, Access(t), oracle);
    CourseKept(pc, oracle(pc.job.id));
    BlockGrows(pc, oracle(pc.job.id));
    BlockAppend(s.trace, e, pc.job.id);
    forall f | f in s.finished ensures Block(s'.trace, f.job.id) == Block(s.trace, f.job.id) {
      BlockAppend(s.trace, e, f.job.id);
    }
  }

  lemma {:induction false} InvHolds(steps: seq<Step>, oracle: Oracle, s: State)
    requires Reachable(steps, oracle, s)
    ensures MutexInv(s) && IdInv(s) && TraceInv(s, oracle)
    decreases |steps|
  {
    if steps == [] {
    } else {
      var n := |steps| - 1;
      var p :| Reachable(steps[..n], oracle, p) && Enabled(p, steps[n]) && s == Next(p, steps[n], oracle);
      InvHolds(steps[..n], oracle, p);
      MutexStep(p, steps[n], oracle);
      IdStep(p, steps[n], oracle);
      TraceStep(p, steps[n], oracle);
    }
  }

  // ---------- Commands end ----------

  lemma LengthOf(r: Sent, args: seq<u32>, op: u32)
    ensures |Accesses(r, args, op)| ==
              r.polls1 + (if r.issued then |args| + 2 + r.polls2 else 0) + (if r.readBack then 6 else 0)
  {
  }

  /** A call under way still has accesses to make of those it would make alone, so it ends. */
  lemma CourseIsBounded(pc: Pc, rsp: RspReads)
    requires pc.Running? && !pc.at.Leaving? && OnCourse(pc, rsp)
    ensures |DoneSoFar(pc)| < |Accesses(Send(rsp, pc.job.attempts), pc.job.args, pc.job.op)|
  {
    LengthOf(Send(rsp, pc.job.attempts), pc.job.args, pc.job.op);
  }

  /** While some call is open, some thread can go on with its own. */
  lemma NotStuck(steps: seq<Step>, oracle: Oracle, s: State, t: Tid) returns (step: Step)
    requires Reachable(steps, oracle, s) && !PcOf(s, t).Outside?
    ensures Enabled(s, step) && (step.Lock? || step.Access? || step.Unlock?)
  {
    InvHolds(steps, oracle, s);
    match s.holder {
      case None =>
        assert !PcOf(s, t).Running?;
        step := Lock(t);
      case Some(h) =>
        assert PcOf(s, h).Running? && InBlock(s.trace, PcOf(s, h), oracle);
        step := if PcOf(s, h).at.Leaving? then Unlock(h) else Access(h);
    }
  }

  // ---------- Commands never interleave ----------

  /** Under any scheduling, no access of one command falls between two of another. */
  lemma NeverInterleave(steps: seq<Step>, oracle: Oracle, s: State)
    requires Reachable(steps, oracle, s)
    ensures Contiguous(s.trace)
  {
    InvHolds(steps, oracle, s);
  }

  /** Every call that has returned made exactly the accesses, in order, that it would have
      made alone, and returned what smu_send_command alone returns on the RSP reads it saw. */
  lemma AsIfAlone(steps: seq<Step>, oracle: Oracle, s: State, f: Finished)
    requires Reachable(steps, oracle, s) && f in s.finished
    ensures f.sent == Send(oracle(f.job.id), f.job.attempts)
    ensures Block(s.trace, f.job.id) == Accesses(f.sent, f.job.args, f.job.op)
  {
    InvHolds(steps, oracle, s);
  }

  /** A caller that is not in a command does not hold the mutex, however it returned. */
  lemma MutexFree(steps: seq<Step>, oracle: Oracle, s: State, t: Tid)
    requires Reachable(steps, oracle, s) && !PcOf(s, t).Running?
    ensures s.holder != Some(t)
  {
    InvHolds(steps, oracle, s);
  }
}
