/** Both mutexes of ugreen/ryzen-smu-amkillam/smu.c at once: every SMN access of a command is a
    whole call of smu_smn_rw_address, taken apart into its own steps, and the threads of
    SmnWindow and SmuCallers are the same threads.  The machine below is shown to be a run of
    each of the two, which is what lets either one leave the other out. */
module SmuOverWindow {
  import opened Words
  import opened SmuCommand
  import W = SmnWindow
  import C = SmuCallers

  type Tid = nat

  /** The mailbox that each call uses. */
  type Boxes = nat -> Mailbox

  function RegisterAt(base: u32, i: nat): u32 {
    (base + 4 * i) % 0x1_0000_0000
  }

  /** The window call behind an access. */
  function RequestOf(box: Mailbox, act: Action): W.Request {
    match act
    case PollRsp => W.Get(box.rsp)
    case ClearRsp => W.Put(box.rsp, 0)
    case WriteArg(i, v) => W.Put(RegisterAt(box.args, i), v)
    case WriteCmd(op) => W.Put(box.cmd, op)
    case ReadArg(i) => W.Get(RegisterAt(box.args, i))
  }

  /** Register by register: RSP is read and cleared at the mailbox's rsp, the i-th argument is
      written and read back four bytes after the one before it, and the command goes to cmd. */
  lemma RequestIs(rsp: u32, cmd: u32, args: u32, i: nat, v: u32)
    requires i < 6 && args + 20 < 0x1_0000_0000
    ensures var box := Mailbox(cmd, rsp, args);
            && RequestOf(box, PollRsp) == W.Get(rsp) && RequestOf(box, ClearRsp) == W.Put(rsp, 0)
            && RequestOf(box, WriteArg(i, v)) == W.Put(args + 4 * i, v)
            && RequestOf(box, WriteCmd(v)) == W.Put(cmd, v)
            && RequestOf(box, ReadArg(i)) == W.Get(args + 4 * i)
  {
  }

  /** What the k-th RSP read of each call returned. */
  type Reads = map<(nat, nat), Option<u32>>

  function OracleOf(seen: Reads): C.Oracle {
    (id: nat) => (k: nat) => if (id, k) in seen then seen[(id, k)] else None
  }

  datatype State = State(w: W.State, c: C.State, seen: Reads)

  /** A step of the command mutex and its callers, the start of a window call, a step inside one
      or of the device, and its return to a command or to a user of the bare window. */
  datatype Step =
    | Command(caller: C.Step)
    | Start(tid: Tid, req: W.Request)
    | Inner(window: W.Step)
    | ReturnAccess(tid: Tid)
    | ReturnDirect(tid: Tid)

  predicate AtAccess(c: C.State, t: Tid) {
    C.PcOf(c, t).Running? && !C.PcOf(c, t).at.Leaving? && C.InRange(C.PcOf(c, t))
  }

  function NextRequest(boxes: Boxes, c: C.State, t: Tid): W.Request
    requires AtAccess(c, t)
  {
    RequestOf(boxes(C.PcOf(c, t).job.id), C.NextAction(C.PcOf(c, t)))
  }

  predicate Enabled(boxes: Boxes, s: State, step: Step) {
    match step
    case Command(cs) =>
      (cs.Call? || cs.Lock? || cs.Unlock?) && C.Enabled(s.c, cs) && W.PcOf(s.w, cs.tid).Outside?
    case Start(t, req) =>
      && W.PcOf(s.w, t).Outside?
      && (C.PcOf(s.c, t).Outside? || (AtAccess(s.c, t) && req == NextRequest(boxes, s.c, t)))
    case Inner(ws) => !ws.Call? && !ws.Release? && W.Enabled(s.w, ws)
    case ReturnAccess(t) => W.PcOf(s.w, t).Leaving? && AtAccess(s.c, t)
    case ReturnDirect(t) => W.PcOf(s.w, t).Leaving? && C.PcOf(s.c, t).Outside?
  }

  function Result(o: W.Outcome): Option<u32> {
    match o
    case Failed => None
    case Done(v) => Some(v)
  }

  predicate Polling(pc: C.Pc) {
    pc.Running? && (pc.at.Wait1? || pc.at.Wait2?)
  }

  /** The number of the RSP read that a polling call makes next. */
  function ReadIndex(pc: C.Pc): nat
    requires Polling(pc)
  {
    if pc.at.Wait1? then pc.n1 else pc.n1 + pc.n2
  }

  function SeenAfter(s: State, t: Tid): Reads {
    var pc := C.PcOf(s.c, t);
    if Polling(pc) && W.PcOf(s.w, t).Leaving?
    then s.seen[(pc.job.id, ReadIndex(pc)) := Result(W.PcOf(s.w, t).outcome)]
    else s.seen
  }

  function Next(boxes: Boxes, s: State, step: Step): State
    requires Enabled(boxes, s, step)
  {
    match step
    case Command(cs) => s.(c := C.Next(s.c, cs, OracleOf(s.seen)))
    case Start(t, req) => s.(w := W.Next(s.w, W.Call(t, req)))
    case Inner(ws) => s.(w := W.Next(s.w, ws))
    case ReturnAccess(t) =>
      var seen := SeenAfter(s, t);
      State(W.Next(s.w, W.Release(t)), C.Next(s.c, C.Access(t), OracleOf(seen)), seen)
    case ReturnDirect(t) =>
      s.(w := W.Next(s.w, W.Release(t)), c := C.Next(s.c, C.DirectAccess(t), OracleOf(s.seen)))
  }

  function Initial(w: W.State): State {
    State(w, C.State(map[], None, 0, [], []), map[])
  }

  ghost predicate Reachable(boxes: Boxes, init: W.State, steps: seq<Step>, s: State)
    decreases |steps|
  {
    if steps == [] then W.Initial(init) && s == Initial(init)
    else
      var n := |steps| - 1;
      exists p :: Reachable(boxes, init, steps[..n], p) && Enabled(boxes, p, steps[n]) && s == Next(boxes, p, steps[n])
  }

  // ---------- It is a run of the window ----------

  function WindowStep(step: Step): seq<W.Step> {
    match step
    case Command(_) => []
    case Start(t, req) => [W.Call(t, req)]
    case Inner(ws) => [ws]
    case ReturnAccess(t) => [W.Release(t)]
    case ReturnDirect(t) => [W.Release(t)]
  }

  function WindowSteps(steps: seq<Step>): seq<W.Step> {
    if steps == [] then [] else WindowSteps(steps[..|steps| - 1]) + WindowStep(steps[|steps| - 1])
  }

  lemma WindowExtends(init: W.State, ws: seq<W.Step>, p: W.State, step: W.Step)
    requires W.Reachable(init, ws, p) && W.Enabled(p, step)
    ensures W.Reachable(init, ws + [step], W.Next(p, step))
  {
    assert (ws + [step])[..|ws|] == ws;
  }

  lemma {:induction false} RunOfWindow(boxes: Boxes, init: W.State, steps: seq<Step>, s: State)
    requires Reachable(boxes, init, steps, s)
    ensures W.Reachable(init, WindowSteps(steps), s.w)
    decreases |steps|
  {
    if steps == [] {
    } else {
      var n := |steps| - 1;
      var p :| Reachable(boxes, init, steps[..n], p) && Enabled(boxes, p, steps[n]) && s == Next(boxes, p, steps[n]);
      RunOfWindow(boxes, init, steps[..n], p);
      var ws := WindowStep(steps[n]);
      if ws != [] {
        WindowExtends(init, WindowSteps(steps[..n]), p.w, ws[0]);
      } else {
        assert WindowSteps(steps[..n]) + [] == WindowSteps(steps[..n]);
      }
    }
  }

  // ---------- It is a run of the callers ----------

  function CallerStep(step: Step): seq<C.Step> {
    match step
    case Command(cs) => [cs]
    case Start(_, _) => []
    case Inner(_) => []
    case ReturnAccess(t) => [C.Access(t)]
    case ReturnDirect(t) => [C.DirectAccess(t)]
  }

  function CallerSteps(steps: seq<Step>): seq<C.Step> {
    if steps == [] then [] else CallerSteps(steps[..|steps| - 1]) + CallerStep(steps[|steps| - 1])
  }

  lemma CallerExtends(cs: seq<C.Step>, oracle: C.Oracle, p: C.State, step: C.Step)
    requires C.Reachable(cs, oracle, p) && C.Enabled(p, step)
    ensures C.Reachable(cs + [step], oracle, C.Next(p, step, oracle))
  {
    assert (cs + [step])[..|cs|] == cs;
  }

  ghost predicate Agrees(oracle: C.Oracle, seen: Reads) {
    forall id: nat, k: nat :: (id, k) in seen ==> oracle(id)(k) == seen[(id, k)]
  }

  /** The k-th read of call `id` is one that thread `t`, if it makes that call, has counted. */
  predicate ReadCounted(c: C.State, id: nat, k: nat, t: Tid) {
    && id < c.calls
    && (!C.PcOf(c, t).Outside? && C.PcOf(c, t).job.id == id ==>
          C.PcOf(c, t).Running? && k < C.PcOf(c, t).n1 + C.PcOf(c, t).n2)
  }

  ghost predicate ReadsInv(s: State) {
    forall id: nat, k: nat, t: Tid :: (id, k) in s.seen ==> ReadCounted(s.c, id, k, t)
  }

  lemma AdvanceReadsOne(pc: C.Pc, rsp: RspReads, rsp': RspReads)
    requires pc.Running? && !pc.at.Leaving? && C.InRange(pc)
    requires Polling(pc) ==> rsp(ReadIndex(pc)) == rsp'(ReadIndex(pc))
    ensures C.Advance(pc, rsp) == C.Advance(pc, rsp')
    ensures C.Advance(pc, rsp).Running? && C.Advance(pc, rsp).job == pc.job
    ensures var pc' := C.Advance(pc, rsp);
            pc'.n1 + pc'.n2 == pc.n1 + pc.n2 + (if Polling(pc) then 1 else 0)
  {
  }

  /** A result is recorded once. */
  lemma ReadIsNew(s: State, t: Tid)
    requires C.MutexInv(s.c) && C.TraceInv(s.c, OracleOf(s.seen)) && ReadsInv(s)
    requires Polling(C.PcOf(s.c, t))
    ensures (C.PcOf(s.c, t).job.id, ReadIndex(C.PcOf(s.c, t))) !in s.seen
  {
    var pc := C.PcOf(s.c, t);
    assert C.InBlock(s.c.trace, pc, OracleOf(s.seen));
    assert (pc.job.id, ReadIndex(pc)) in s.seen ==> ReadCounted(s.c, pc.job.id, ReadIndex(pc), t);
  }

  lemma AccessKeepsReads(boxes: Boxes, s: State, t: Tid)
    requires C.MutexInv(s.c) && C.IdInv(s.c) && ReadsInv(s) && Enabled(boxes, s, ReturnAccess(t))
    ensures ReadsInv(Next(boxes, s, ReturnAccess(t)))
  {
    var s', pc := Next(boxes, s, ReturnAccess(t)), C.PcOf(s.c, t);
    var rsp := OracleOf(SeenAfter(s, t))(pc.job.id);
    AdvanceReadsOne(pc, rsp, rsp);
    C.OthersStay(s.c, C.Access(t), OracleOf(SeenAfter(s, t)));
    forall id: nat, k: nat, u: Tid | (id, k) in s'.seen ensures ReadCounted(s'.c, id, k, u) {
      if (id, k) in s.seen {
        assert ReadCounted(s.c, id, k, u);
      } else {
        assert id == pc.job.id && (u != t ==> C.PcOf(s'.c, u) == C.PcOf(s.c, u));
      }
    }
  }

  lemma CallersKeepReads(s: State, cs: C.Step)
    requires ReadsInv(s) && (cs.Call? || cs.Lock? || cs.Unlock? || cs.DirectAccess?) && C.Enabled(s.c, cs)
    ensures ReadsInv(s.(c := C.Next(s.c, cs, OracleOf(s.seen))))
  {
    var c' := C.Next(s.c, cs, OracleOf(s.seen));
    C.OthersStay(s.c, cs, OracleOf(s.seen));
    forall id: nat, k: nat, u: Tid | (id, k) in s.seen ensures ReadCounted(c', id, k, u) {
      assert ReadCounted(s.c, id, k, u);
    }
  }

  lemma ReadsKept(boxes: Boxes, s: State, step: Step)
    requires C.MutexInv(s.c) && C.IdInv(s.c) && ReadsInv(s) && Enabled(boxes, s, step)
    ensures ReadsInv(Next(boxes, s, step))
  {
    match step {
      case Command(cs) => CallersKeepReads(s, cs);
      case ReturnAccess(t) => AccessKeepsReads(boxes, s, t);
      case ReturnDirect(t) =>
        CallersKeepReads(s, C.DirectAccess(t));
        assert forall id: nat, k: nat, u: Tid :: (id, k) in s.seen ==>
                 ReadCounted(Next(boxes, s, step).c, id, k, u);
      case _ =>
        assert Next(boxes, s, step).c == s.c && Next(boxes, s, step).seen == s.seen;
    }
  }

  /** No result recorded is ever replaced. */
  lemma SeenGrows(boxes: Boxes, s: State, step: Step)
    requires C.MutexInv(s.c) && C.TraceInv(s.c, OracleOf(s.seen)) && ReadsInv(s) && Enabled(boxes, s, step)
    ensures var s' := Next(boxes, s, step);
            forall key :: key in s.seen ==> key in s'.seen && s'.seen[key] == s.seen[key]
  {
    if step.ReturnAccess? && Polling(C.PcOf(s.c, step.tid)) {
      ReadIsNew(s, step.tid);
    }
  }

  /** For every oracle that agrees with what the window returned. */
  lemma {:induction false} RunOfCallers(boxes: Boxes, init: W.State, steps: seq<Step>, s: State)
    requires Reachable(boxes, init, steps, s)
    ensures ReadsInv(s)
    ensures forall oracle :: Agrees(oracle, s.seen) ==> C.Reachable(CallerSteps(steps), oracle, s.c)
    decreases |steps|
  {
    if steps == [] {
    } else {
      var n := |steps| - 1;
      var p :| Reachable(boxes, init, steps[..n], p) && Enabled(boxes, p, steps[n]) && s == Next(boxes, p, steps[n]);
      RunOfCallers(boxes, init, steps[..n], p);
      assert Agrees(OracleOf(p.seen), p.seen);
      C.InvHolds(CallerSteps(steps[..n]), OracleOf(p.seen), p.c);
      ReadsKept(boxes, p, steps[n]);
      SeenGrows(boxes, p, steps[n]);
      forall oracle | Agrees(oracle, s.seen) ensures C.Reachable(CallerSteps(steps), oracle, s.c) {
        assert Agrees(oracle, p.seen);
        OneCallerStep(boxes, p, steps[n], CallerSteps(steps[..n]), oracle);
      }
    }
  }

  lemma OneCallerStep(boxes: Boxes, p: State, step: Step, cs: seq<C.Step>, oracle: C.Oracle)
    requires Enabled(boxes, p, step) && C.Reachable(cs, oracle, p.c) && Agrees(oracle, Next(boxes, p, step).seen)
    ensures C.Reachable(cs + CallerStep(step), oracle, Next(boxes, p, step).c)
  {
    match step {
      case Command(c) => CallerExtends(cs, oracle, p.c, c);
      case ReturnDirect(t) => CallerExtends(cs, oracle, p.c, C.DirectAccess(t));
      case ReturnAccess(t) =>
        var pc, seen := C.PcOf(p.c, t), SeenAfter(p, t);
        AdvanceReadsOne(pc, oracle(pc.job.id), OracleOf(seen)(pc.job.id));
        CallerExtends(cs, oracle, p.c, C.Access(t));
      case _ => assert cs + [] == cs;
    }
  }

  // ---------- Accesses and window calls match ----------

  /** A thread in the window on behalf of a command is there with the command's next access. */
  ghost predicate Linked(boxes: Boxes, s: State) {
    forall t: Tid :: !W.PcOf(s.w, t).Outside? ==>
      C.PcOf(s.c, t).Outside? || (AtAccess(s.c, t) && W.PcOf(s.w, t).req == NextRequest(boxes, s.c, t))
  }

  predicate Matches(boxes: Boxes, e: C.Entry, r: W.Return) {
    match e
    case OfCall(id, act) => r.req == RequestOf(boxes(id), act)
    case Direct(t) => r.tid == t
  }

  /** The RSP reads of a call in a stretch of trace. */
  function Polls(trace: seq<C.Entry>, id: nat): nat {
    if trace == [] then 0
    else Polls(trace[..|trace| - 1], id) + (if trace[|trace| - 1] == C.OfCall(id, PollRsp) then 1 else 0)
  }

  /** The i-th access returned what is recorded as the k-th RSP read of the call. */
  predicate ReadAt(s: State, id: nat, k: nat, i: nat)
    requires (id, k) in s.seen
  {
    && i < |s.c.trace| && i < |s.w.finished|
    && s.c.trace[i] == C.OfCall(id, PollRsp) && Polls(s.c.trace[..i], id) == k
    && Result(s.w.finished[i].outcome) == s.seen[(id, k)]
  }

  /** Entry by entry, the trace of the callers is the list of returned window calls. */
  ghost predicate EntriesMatch(boxes: Boxes, s: State) {
    && |s.c.trace| == |s.w.finished|
    && forall i :: 0 <= i < |s.c.trace| ==> Matches(boxes, s.c.trace[i], s.w.finished[i])
  }

  /** A call has polled as often as it has counted. */
  ghost predicate PollsCounted(c: C.State) {
    forall t: Tid :: !C.PcOf(c, t).Outside? ==>
      Polls(c.trace, C.PcOf(c, t).job.id) == if C.PcOf(c, t).Running? then C.PcOf(c, t).n1 + C.PcOf(c, t).n2 else 0
  }

  /** The reads recorded are what window calls returned. */
  ghost predicate ReadsFound(s: State) {
    forall id: nat, k: nat :: (id, k) in s.seen ==> exists i: nat :: ReadAt(s, id, k, i)
  }

  ghost predicate Matched(boxes: Boxes, s: State) {
    EntriesMatch(boxes, s) && PollsCounted(s.c) && ReadsFound(s)
  }

  lemma PollsAppend(trace: seq<C.Entry>, e: C.Entry, id: nat)
    ensures Polls(trace + [e], id) == Polls(trace, id) + (if e == C.OfCall(id, PollRsp) then 1 else 0)
  {
    assert (trace + [e])[..|trace|] == trace;
  }

  lemma {:induction false} NoPolls(trace: seq<C.Entry>, id: nat)
    requires forall i :: 0 <= i < |trace| && trace[i].OfCall? ==> trace[i].id != id
    ensures Polls(trace, id) == 0
    decreases |trace|
  {
    if trace == [] {
    } else {
      NoPolls(trace[..|trace| - 1], id);
    }
  }

  lemma LinkedStep(boxes: Boxes, s: State, step: Step)
    requires Linked(boxes, s) && Enabled(boxes, s, step)
    ensures Linked(boxes, Next(boxes, s, step))
  {
    match step {
      case Command(cs) => C.OthersStay(s.c, cs, OracleOf(s.seen));
      case Start(t, req) => W.OthersStay(s.w, W.Call(t, req));
      case Inner(ws) => W.OthersStay(s.w, ws);
      case ReturnAccess(t) =>
        W.OthersStay(s.w, W.Release(t));
        C.OthersStay(s.c, C.Access(t), OracleOf(SeenAfter(s, t)));
      case ReturnDirect(t) => W.OthersStay(s.w, W.Release(t));
    }
  }

  /** Reads stay where they are when the trace grows. */
  lemma ReadsStay(s: State, s': State)
    requires |s.c.trace| == |s.w.finished| && s.c.trace <= s'.c.trace && s.w.finished <= s'.w.finished
    requires ReadsFound(s)
    ensures forall id: nat, k: nat :: (id, k) in s.seen && (id, k) in s'.seen && s'.seen[(id, k)] == s.seen[(id, k)] ==>
              exists i: nat :: ReadAt(s', id, k, i)
  {
    forall id: nat, k: nat | (id, k) in s.seen && (id, k) in s'.seen && s'.seen[(id, k)] == s.seen[(id, k)]
      ensures exists i: nat :: ReadAt(s', id, k, i)
    {
      var i: nat :| ReadAt(s, id, k, i);
      assert s'.c.trace[..i] == s.c.trace[..i];
      assert ReadAt(s', id, k, i);
    }
  }

  lemma EntriesStep(boxes: Boxes, s: State, step: Step)
    requires Linked(boxes, s) && EntriesMatch(boxes, s) && Enabled(boxes, s, step)
    ensures EntriesMatch(boxes, Next(boxes, s, step))
  {
  }

  lemma AccessCounted(c: C.State, t: Tid, oracle: C.Oracle)
    requires C.MutexInv(c) && C.IdInv(c) && PollsCounted(c) && AtAccess(c, t)
    ensures PollsCounted(C.Next(c, C.Access(t), oracle))
  {
    var c', pc := C.Next(c, C.Access(t), oracle), C.PcOf(c, t);
    var e := C.OfCall(pc.job.id, C.NextAction(pc));
    AdvanceReadsOne(pc, oracle(pc.job.id), oracle(pc.job.id));
    C.OthersStay(c, C.Access(t), oracle);
    forall u: Tid | !C.PcOf(c', u).Outside?
      ensures Polls(c'.trace, C.PcOf(c', u).job.id) ==
                if C.PcOf(c', u).Running? then C.PcOf(c', u).n1 + C.PcOf(c', u).n2 else 0
    {
      PollsAppend(c.trace, e, C.PcOf(c', u).job.id);
      assert u != t ==> C.PcOf(c', u) == C.PcOf(c, u) && C.PcOf(c, u).job.id != pc.job.id;
    }
  }

  lemma CountedStep(boxes: Boxes, s: State, step: Step)
    requires C.MutexInv(s.c) && C.IdInv(s.c) && PollsCounted(s.c) && Enabled(boxes, s, step)
    ensures PollsCounted(Next(boxes, s, step).c)
  {
    match step {
      case ReturnAccess(t) => AccessCounted(s.c, t, OracleOf(SeenAfter(s, t)));
      case ReturnDirect(t) =>
        var c' := C.Next(s.c, C.DirectAccess(t), OracleOf(s.seen));
        forall u: Tid | !C.PcOf(c', u).Outside?
          ensures Polls(c'.trace, C.PcOf(c', u).job.id) ==
                    if C.PcOf(c', u).Running? then C.PcOf(c', u).n1 + C.PcOf(c', u).n2 else 0
        {
          PollsAppend(s.c.trace, C.Direct(t), C.PcOf(s.c, u).job.id);
        }
      case Command(cs) =>
        C.OthersStay(s.c, cs, OracleOf(s.seen));
        if cs.Call? {
          NoPolls(s.c.trace, s.c.calls);
        }
      case _ =>
    }
  }

  /** What a polling access returned is found at the end of the trace. */
  lemma NewReadFound(boxes: Boxes, s: State, t: Tid)
    requires C.TraceInv(s.c, OracleOf(s.seen)) && EntriesMatch(boxes, s) && PollsCounted(s.c)
    requires Enabled(boxes, s, ReturnAccess(t)) && Polling(C.PcOf(s.c, t))
    ensures var s', pc := Next(boxes, s, ReturnAccess(t)), C.PcOf(s.c, t);
            (pc.job.id, ReadIndex(pc)) in s'.seen && ReadAt(s', pc.job.id, ReadIndex(pc), |s.c.trace|)
  {
    var s', pc := Next(boxes, s, ReturnAccess(t)), C.PcOf(s.c, t);
    assert C.InBlock(s.c.trace, pc, OracleOf(s.seen));
    assert s'.c.trace[..|s.c.trace|] == s.c.trace;
  }

  lemma FoundStep(boxes: Boxes, s: State, step: Step)
    requires C.MutexInv(s.c) && C.TraceInv(s.c, OracleOf(s.seen)) && ReadsInv(s)
    requires Matched(boxes, s) && Enabled(boxes, s, step)
    ensures ReadsFound(Next(boxes, s, step))
  {
    ReadsStay(s, Next(boxes, s, step));
    SeenGrows(boxes, s, step);
    if step.ReturnAccess? && Polling(C.PcOf(s.c, step.tid)) {
      NewReadFound(boxes, s, step.tid);
    }
  }

  lemma MatchedStep(boxes: Boxes, s: State, step: Step)
    requires C.MutexInv(s.c) && C.IdInv(s.c) && C.TraceInv(s.c, OracleOf(s.seen)) && ReadsInv(s)
    requires Linked(boxes, s) && Matched(boxes, s) && Enabled(boxes, s, step)
    ensures Matched(boxes, Next(boxes, s, step))
  {
    EntriesStep(boxes, s, step);
    CountedStep(boxes, s, step);
    FoundStep(boxes, s, step);
  }

  lemma {:induction false} MatchHolds(boxes: Boxes, init: W.State, steps: seq<Step>, s: State)
    requires Reachable(boxes, init, steps, s)
    ensures Linked(boxes, s) && Matched(boxes, s)
    decreases |steps|
  {
    if steps == [] {
    } else {
      var n := |steps| - 1;
      var p :| Reachable(boxes, init, steps[..n], p) && Enabled(boxes, p, steps[n]) && s == Next(boxes, p, steps[n]);
      MatchHolds(boxes, init, steps[..n], p);
      RunOfCallers(boxes, init, steps[..n], p);
      assert Agrees(OracleOf(p.seen), p.seen);
      C.InvHolds(CallerSteps(steps[..n]), OracleOf(p.seen), p.c);
      LinkedStep(boxes, p, steps[n]);
      MatchedStep(boxes, p, steps[n]);
    }
  }

  // ---------- Commands over the window ----------

  /** Every command that has returned did what smu_send_command alone does on the values that its
      window calls returned, in order; its k-th RSP read is a window call that returned that. */
  lemma CommandsOverWindow(boxes: Boxes, init: W.State, steps: seq<Step>, s: State, f: C.Finished, oracle: C.Oracle)
    requires Reachable(boxes, init, steps, s) && f in s.c.finished && Agrees(oracle, s.seen)
    ensures f.sent == Send(oracle(f.job.id), f.job.attempts)
    ensures C.Block(s.c.trace, f.job.id) == Accesses(f.sent, f.job.args, f.job.op)
    ensures EntriesMatch(boxes, s) && ReadsFound(s)
  {
    RunOfCallers(boxes, init, steps, s);
    C.AsIfAlone(CallerSteps(steps), oracle, s.c, f);
    MatchHolds(boxes, init, steps, s);
  }

  /** In the order in which accesses reach the SMN space, no access of one command comes between
      two of another, whatever the threads of both mutexes and the device do. */
  lemma CommandsContiguous(boxes: Boxes, init: W.State, steps: seq<Step>, s: State, i: nat, j: nat, k: nat)
    requires Reachable(boxes, init, steps, s)
    requires i < |s.w.finished| && j < |s.w.finished| && k < |s.w.finished| && |s.c.trace| == |s.w.finished|
    requires s.w.finished[i].outcome.Done? && s.w.finished[j].outcome.Done? && s.w.finished[k].outcome.Done?
    requires s.w.finished[i].at < s.w.finished[j].at < s.w.finished[k].at
    requires s.c.trace[i].OfCall? && s.c.trace[j].OfCall? && s.c.trace[k].OfCall? && s.c.trace[i].id == s.c.trace[k].id
    ensures s.c.trace[j].id == s.c.trace[i].id
  {
    RunOfWindow(boxes, init, steps, s);
    W.ReturnsInOrder(init, WindowSteps(steps), s.w);
    W.EarlierReturn(s.w, i, j);
    W.EarlierReturn(s.w, j, k);
    RunOfCallers(boxes, init, steps, s);
    assert Agrees(OracleOf(s.seen), s.seen);
    C.NeverInterleave(CallerSteps(steps), OracleOf(s.seen), s.c);
    Between(s.c.trace, i, j, k);
  }

  lemma Between(trace: seq<C.Entry>, i: nat, j: nat, k: nat)
    requires C.Contiguous(trace) && i < j < k < |trace|
    requires trace[i].OfCall? && trace[j].OfCall? && trace[k].OfCall? && trace[i].id == trace[k].id
    ensures trace[j].id == trace[i].id
  {
  }
}
