/** The SMN window of ugreen/ryzen-smu-amkillam/smu.c: one address register and one data
    register through which every caller reaches the whole SMN space, guarded by
    amd_pci_mutex.  Any number of threads interleave the PCI accesses of
    smu_smn_rw_address, and the device may change SMN registers at any time. */
module SmnWindow {
  import opened Words

  type Tid = nat
  type Smn = map<u32, u32>

  datatype Request = Get(addr: u32) | Put(addr: u32, value: u32)

  /** What a call returns: an error, or the value read or written. */
  datatype Outcome = Failed | Done(value: u32)

  /** Where a thread is inside smu_smn_rw_address.  `since` is the length of the history
      when the call was made; `at` is the history index of its data access. */
  datatype Pc =
    | Outside
    | Waiting(req: Request, since: nat)
    | Locked(req: Request, since: nat)
    | Addressed(req: Request, since: nat)
    | Leaving(req: Request, since: nat, at: nat, outcome: Outcome)

  /** One atomic action on the SMN space. */
  datatype Event = Access(tid: Tid, req: Request, value: u32) | Device(addr: u32, value: u32)

  /** A finished call, with the stretch of history during which it was open. */
  datatype Return = Return(tid: Tid, req: Request, since: nat, till: nat, at: nat, outcome: Outcome)

  datatype State = State(
    pcs: map<Tid, Pc>, holder: Option<Tid>, addrReg: u32, smn: Smn,
    history: seq<Event>, finished: seq<Return>)

  datatype Step =
    | Call(tid: Tid, req: Request)
    | Acquire(tid: Tid)
    | WriteAddrReg(tid: Tid, ok: bool)
    | AccessData(tid: Tid, ok: bool)
    | Release(tid: Tid)
    | DeviceWrite(addr: u32, value: u32)

  function PcOf(s: State, t: Tid): Pc {
    if t in s.pcs then s.pcs[t] else Outside
  }

  function Lookup(m: Smn, a: u32): u32 {
    if a in m then m[a] else 0
  }

  predicate Enabled(s: State, step: Step) {
    match step
    case Call(t, _) => PcOf(s, t).Outside?
    case Acquire(t) => PcOf(s, t).Waiting? && s.holder.None?
    case WriteAddrReg(t, _) => PcOf(s, t).Locked?
    case AccessData(t, _) => PcOf(s, t).Addressed?
    case Release(t) => PcOf(s, t).Leaving?
    case DeviceWrite(_, _) => true
  }

  function Move(s: State, t: Tid, pc: Pc): State {
    s.(pcs := s.pcs[t := pc])
  }

  /** The data register reaches the SMN register that the address register names. */
  function Next(s: State, step: Step): State
    requires Enabled(s, step)
  {
    match step
    case Call(t, req) => Move(s, t, Waiting(req, |s.history|))
    case Acquire(t) =>
      var pc := PcOf(s, t);
      Move(s.(holder := Some(t)), t, Locked(pc.req, pc.since))
    case WriteAddrReg(t, ok) =>
      var pc := PcOf(s, t);
      if ok then Move(s.(addrReg := pc.req.addr), t, Addressed(pc.req, pc.since))
      else Move(s, t, Leaving(pc.req, pc.since, 0, Failed))
    case AccessData(t, ok) =>
      var pc := PcOf(s, t);
      if !ok then Move(s, t, Leaving(pc.req, pc.since, 0, Failed))
      else
        var value := if pc.req.Get? then Lookup(s.smn, s.addrReg) else pc.req.value;
        var smn := if pc.req.Get? then s.smn else s.smn[s.addrReg := value];
        Move(s.(smn := smn, history := s.history + [Access(t, pc.req, value)]), t,
             Leaving(pc.req, pc.since, |s.history|, Done(value)))
    case Release(t) =>
      var pc := PcOf(s, t);
      Move(s.(holder := None,
              finished := s.finished + [Return(t, pc.req, pc.since, |s.history|, pc.at, pc.outcome)]),
           t, Outside)
    case DeviceWrite(a, v) => s.(smn := s.smn[a := v], history := s.history + [Device(a, v)])
  }

  predicate Initial(s: State) {
    s.pcs == map[] && s.holder.None? && s.history == [] && s.finished == []
  }

  ghost predicate Reachable(init: State, steps: seq<Step>, s: State)
    decreases |steps|
  {
    if steps == [] then Initial(init) && s == init
    else
      var n := |steps| - 1;
      exists p :: Reachable(init, steps[..n], p) && Enabled(p, steps[n]) && s == Next(p, steps[n])
  }

  // ---------- The atomic specification ----------

  function Apply(m: Smn, e: Event): Smn {
    match e
    case Access(_, Get(_), _) => m
    case Access(_, Put(a, v), _) => m[a := v]
    case Device(a, v) => m[a := v]
  }

  function Replay(m: Smn, h: seq<Event>): Smn {
    if h == [] then m else Apply(Replay(m, h[..|h| - 1]), h[|h| - 1])
  }

  /** The value an access reports is the one an atomic map would give at that moment. */
  predicate Right(m: Smn, e: Event) {
    e.Access? ==> e.value == if e.req.Get? then Lookup(m, e.req.addr) else e.req.value
  }

  predicate Legal(m: Smn, h: seq<Event>) {
    h != [] ==> Legal(m, h[..|h| - 1]) && Right(Replay(m, h[..|h| - 1]), h[|h| - 1])
  }

  lemma ReplayAppend(m: Smn, h: seq<Event>, e: Event)
    ensures Replay(m, h + [e]) == Apply(Replay(m, h), e)
    ensures Legal(m, h + [e]) <==> Legal(m, h) && Right(Replay(m, h), e)
  {
    assert (h + [e])[..|h|] == h;
  }

  // ---------- The invariant ----------

  predicate Inside(pc: Pc) {
    pc.Locked? || pc.Addressed? || pc.Leaving?
  }

  /** Exactly the lock holder is inside, and the address register is its own. */
  ghost predicate LockInv(s: State) {
    && (forall t: Tid :: Inside(PcOf(s, t)) <==> s.holder == Some(t))
    && (forall t: Tid :: PcOf(s, t).Addressed? ==> s.addrReg == PcOf(s, t).req.addr)
  }

  ghost predicate HistoryInv(init: State, s: State) {
    && s.smn == Replay(init.smn, s.history)
    && Legal(init.smn, s.history)
  }

  /** The history index `at` is the one access of a call that opened at `since`. */
  predicate Claims(h: seq<Event>, t: Tid, req: Request, since: nat, at: nat, outcome: Outcome) {
    outcome.Done? ==> since <= at < |h| && h[at] == Access(t, req, outcome.value)
  }

  predicate ClaimedInFlight(s: State, t: Tid, i: nat) {
    var pc := PcOf(s, t);
    pc.Leaving? && pc.outcome.Done? && pc.at == i
  }

  predicate ClaimedBy(r: Return, i: nat) {
    r.outcome.Done? && r.at == i
  }

  ghost predicate CallInv(s: State) {
    && (forall t: Tid :: !PcOf(s, t).Outside? ==> PcOf(s, t).since <= |s.history|)
    && (forall t: Tid :: PcOf(s, t).Leaving? ==>
          var pc := PcOf(s, t); Claims(s.history, t, pc.req, pc.since, pc.at, pc.outcome))
    && (forall r :: r in s.finished ==>
          r.till <= |s.history| && Claims(s.history[..r.till], r.tid, r.req, r.since, r.at, r.outcome))
  }

  /** Every access in the history belongs to exactly one successful call. */
  ghost predicate OneToOne(s: State) {
    && (forall i: nat :: i < |s.history| && s.history[i].Access? ==>
          ClaimedInFlight(s, s.history[i].tid, i) || exists k :: 0 <= k < |s.finished| && ClaimedBy(s.finished[k], i))
    && (forall k, t: Tid, i: nat :: 0 <= k < |s.finished| && ClaimedBy(s.finished[k], i) ==> !ClaimedInFlight(s, t, i))
    && (forall j, k, i: nat :: 0 <= j < k < |s.finished| && ClaimedBy(s.finished[j], i) ==>
          !ClaimedBy(s.finished[k], i))
  }

  lemma OthersStay(s: State, step: Step)
    requires Enabled(s, step)
    ensures forall t: Tid :: step.DeviceWrite? || t != step.tid ==> PcOf(Next(s, step), t) == PcOf(s, t)
  {
  }

  lemma LockStep(s: State, step: Step)
    requires LockInv(s) && Enabled(s, step)
    ensures LockInv(Next(s, step))
  {
    OthersStay(s, step);
  }

  lemma HistoryStep(init: State, s: State, step: Step)
    requires LockInv(s) && HistoryInv(init, s) && Enabled(s, step)
    ensures HistoryInv(init, Next(s, step))
  {
    match step {
      case AccessData(t, ok) =>
        if ok {
          var e := Next(s, step).history[|s.history|];
          ReplayAppend(init.smn, s.history, e);
        }
      case DeviceWrite(a, v) =>
        ReplayAppend(init.smn, s.history, Device(a, v));
      case _ =>
        assert Next(s, step).history == s.history && Next(s, step).smn == s.smn;
    }
  }

  lemma CallStep(s: State, step: Step)
    requires CallInv(s) && Enabled(s, step)
    ensures CallInv(Next(s, step))
  {
    var s' := Next(s, step);
    OthersStay(s, step);
    forall t: Tid | !PcOf(s', t).Outside?
      ensures PcOf(s', t).since <= |s'.history|
      ensures var pc := PcOf(s', t);
              pc.Leaving? ==> Claims(s'.history, t, pc.req, pc.since, pc.at, pc.outcome)
    {
      assert step.DeviceWrite? || t != step.tid ==> PcOf(s', t) == PcOf(s, t);
    }
    forall r | r in s.finished ensures r.till <= |s'.history| && s'.history[..r.till] == s.history[..r.till] {
    }
    assert s'.history[..|s.history|] == s.history;
  }

  lemma OneToOneStep(s: State, step: Step)
    requires LockInv(s) && CallInv(s) && OneToOne(s) && Enabled(s, step)
    ensures OneToOne(Next(s, step))
  {
    var s' := Next(s, step);
    forall i: nat | i < |s'.history| && s'.history[i].Access?
      ensures ClaimedInFlight(s', s'.history[i].tid, i)
           || exists k :: 0 <= k < |s'.finished| && ClaimedBy(s'.finished[k], i)
    {
      if i < |s.history| {
        if ClaimedInFlight(s, s.history[i].tid, i) {
          if step == Release(s.history[i].tid) {
            assert ClaimedBy(s'.finished[|s.finished|], i);
          }
        } else {
          var k :| 0 <= k < |s.finished| && ClaimedBy(s.finished[k], i);
          assert s'.finished[k] == s.finished[k];
        }
      }
    }
    forall k, t: Tid, i: nat | 0 <= k < |s'.finished| && ClaimedBy(s'.finished[k], i)
      ensures !ClaimedInFlight(s', t, i)
    {
      if k < |s.finished| {
        assert s'.finished[k] == s.finished[k] && s.finished[k] in s.finished;
        assert !ClaimedInFlight(s, t, i);
        OthersStay(s, step);
      } else {
        OthersStay(s, step);
        assert !Inside(PcOf(s, t)) || t == step.tid;
      }
    }
    forall j, k, i: nat | 0 <= j < k < |s'.finished| && ClaimedBy(s'.finished[j], i)
      ensures !ClaimedBy(s'.finished[k], i)
    {
      assert s'.finished[j] == s.finished[j];
      if k == |s.finished| {
        assert !ClaimedInFlight(s, step.tid, i);
      }
    }
  }

  ghost predicate Inv(init: State, s: State) {
    LockInv(s) && HistoryInv(init, s) && CallInv(s) && OneToOne(s)
  }

  lemma {:induction false} InvHolds(init: State, steps: seq<Step>, s: State)
    requires Reachable(init, steps, s)
    ensures Inv(init, s)
    decreases |steps|
  {
    if steps == [] {
    } else {
      var n := |steps| - 1;
      var p :| Reachable(init, steps[..n], p) && Enabled(p, steps[n]) && s == Next(p, steps[n]);
      InvHolds(init, steps[..n], p);
      LockStep(p, steps[n]);
      HistoryStep(init, p, steps[n]);
      CallStep(p, steps[n]);
      OneToOneStep(p, steps[n]);
    }
  }

  // ---------- Linearizability ----------

  /** In every run the SMN space and every value returned are those of an atomic map on which
      each successful call acts once, at a moment between its call and its return; every
      access recorded there belongs to a call; and a call that failed acted at no moment. */
  lemma Linearizable(init: State, steps: seq<Step>, s: State)
    requires Reachable(init, steps, s)
    ensures s.smn == Replay(init.smn, s.history) && Legal(init.smn, s.history)
    ensures forall r :: r in s.finished && r.outcome.Done? ==>
              r.since <= r.at < r.till <= |s.history| && s.history[r.at] == Access(r.tid, r.req, r.outcome.value)
    ensures forall j, k :: 0 <= j < k < |s.finished| && s.finished[j].outcome.Done? && s.finished[k].outcome.Done? ==>
              s.finished[j].at != s.finished[k].at
    ensures forall i: nat :: i < |s.history| && s.history[i].Access? && PcOf(s, s.history[i].tid).Outside? ==>
              exists k :: 0 <= k < |s.finished| && ClaimedBy(s.finished[k], i)
  {
    InvHolds(init, steps, s);
    forall j, k | 0 <= j < k < |s.finished| && s.finished[j].outcome.Done? && s.finished[k].outcome.Done?
      ensures s.finished[j].at != s.finished[k].at
    {
      assert ClaimedBy(s.finished[j], s.finished[j].at);
    }
  }

  /** A call that returned before another was made takes effect before it. */
  lemma RealTimeOrder(init: State, steps: seq<Step>, s: State, a: Return, b: Return)
    requires Reachable(init, steps, s)
    requires a in s.finished && b in s.finished && a.outcome.Done? && b.outcome.Done?
    requires a.till <= b.since
    ensures a.at < b.at
  {
    Linearizable(init, steps, s);
  }

  /** Successful calls return in the order in which they acted. */
  ghost predicate InOrder(s: State) {
    && (forall i, j :: 0 <= i < j < |s.finished| && s.finished[i].outcome.Done? && s.finished[j].outcome.Done? ==>
          s.finished[i].at < s.finished[j].at)
    && (forall i, t: Tid :: 0 <= i < |s.finished| && s.finished[i].outcome.Done? && PcOf(s, t).Leaving? ==>
          PcOf(s, t).outcome.Done? ==> s.finished[i].at < PcOf(s, t).at)
  }

  lemma EarlierReturn(s: State, i: nat, j: nat)
    requires InOrder(s) && i < |s.finished| && j < |s.finished|
    requires s.finished[i].outcome.Done? && s.finished[j].outcome.Done? && s.finished[i].at < s.finished[j].at
    ensures i < j
  {
  }

  lemma InOrderStep(s: State, step: Step)
    requires LockInv(s) && CallInv(s) && InOrder(s) && Enabled(s, step)
    ensures InOrder(Next(s, step))
  {
    OthersStay(s, step);
    forall i | 0 <= i < |s.finished| && s.finished[i].outcome.Done? ensures s.finished[i].at < |s.history| {
      assert s.finished[i] in s.finished;
    }
  }

  lemma {:induction false} ReturnsInOrder(init: State, steps: seq<Step>, s: State)
    requires Reachable(init, steps, s)
    ensures InOrder(s)
    decreases |steps|
  {
    if steps == [] {
    } else {
      var n := |steps| - 1;
      var p :| Reachable(init, steps[..n], p) && Enabled(p, steps[n]) && s == Next(p, steps[n]);
      ReturnsInOrder(init, steps[..n], p);
      InvHolds(init, steps[..n], p);
      InOrderStep(p, steps[n]);
    }
  }

  /** The lock is free whenever no thread is inside, so no return path keeps it. */
  lemma LockReleased(init: State, steps: seq<Step>, s: State, t: Tid)
    requires Reachable(init, steps, s) && PcOf(s, t).Outside?
    ensures s.holder != Some(t)
    ensures (forall u: Tid :: !Inside(PcOf(s, u))) ==> s.holder.None?
  {
    InvHolds(init, steps, s);
    if s.holder.Some? {
      assert Inside(PcOf(s, s.holder.value));
    }
  }

  // ---------- Calls succeed and end ----------

  /** The steps of a thread since it last made a call. */
  function OwnSteps(steps: seq<Step>, t: Tid): seq<Step>
    decreases |steps|
  {
    if steps == [] then []
    else
      var n := |steps| - 1;
      if steps[n].DeviceWrite? || steps[n].tid != t then OwnSteps(steps[..n], t)
      else if steps[n].Call? then []
      else OwnSteps(steps[..n], t) + [steps[n]]
  }

  /** Where a thread is, told from its own steps. */
  predicate Course(pc: Pc, own: seq<Step>, t: Tid) {
    match pc
    case Outside => |own| <= 4
    case Waiting(_, _) => own == []
    case Locked(_, _) => own == [Acquire(t)]
    case Addressed(_, _) => own == [Acquire(t), WriteAddrReg(t, true)]
    case Leaving(_, _, _, outcome) =>
      if outcome.Done? then own == [Acquire(t), WriteAddrReg(t, true), AccessData(t, true)]
      else own == [Acquire(t), WriteAddrReg(t, false)]
           || own == [Acquire(t), WriteAddrReg(t, true), AccessData(t, false)]
  }

  lemma {:induction false} CourseHolds(init: State, steps: seq<Step>, s: State, t: Tid)
    requires Reachable(init, steps, s)
    ensures Course(PcOf(s, t), OwnSteps(steps, t), t)
    decreases |steps|
  {
    if steps == [] {
    } else {
      var n := |steps| - 1;
      var p :| Reachable(init, steps[..n], p) && Enabled(p, steps[n]) && s == Next(p, steps[n]);
      CourseHolds(init, steps[..n], p, t);
      CourseStep(p, steps[n], OwnSteps(steps[..n], t), t);
    }
  }

  lemma CourseStep(p: State, step: Step, own: seq<Step>, t: Tid)
    requires Enabled(p, step) && Course(PcOf(p, t), own, t)
    ensures Course(PcOf(Next(p, step), t),
                   if step.DeviceWrite? || step.tid != t then own else if step.Call? then [] else own + [step], t)
  {
    OthersStay(p, step);
  }

  /** A call that returns succeeded if and only if both its PCI accesses did, and it has made four
      steps at most. */
  lemma DoneWhen(init: State, steps: seq<Step>, s: State, t: Tid)
    requires Reachable(init, steps, s) && steps != [] && steps[|steps| - 1] == Release(t)
    ensures s.finished != [] && s.finished[|s.finished| - 1].tid == t && |OwnSteps(steps, t)| <= 4
    ensures s.finished[|s.finished| - 1].outcome.Done? <==>
              OwnSteps(steps, t) == [Acquire(t), WriteAddrReg(t, true), AccessData(t, true), Release(t)]
  {
    var n := |steps| - 1;
    var p :| Reachable(init, steps[..n], p) && Enabled(p, steps[n]) && s == Next(p, steps[n]);
    CourseHolds(init, steps[..n], p, t);
    var own := OwnSteps(steps[..n], t);
    assert OwnSteps(steps, t) == own + [Release(t)];
    assert (own + [Release(t)])[..|own|] == own;
    assert [Acquire(t), WriteAddrReg(t, true), AccessData(t, true), Release(t)][..3] ==
           [Acquire(t), WriteAddrReg(t, true), AccessData(t, true)];
  }

  /** While some call is open, some thread can go on with its own. */
  lemma NotStuck(init: State, steps: seq<Step>, s: State, t: Tid) returns (step: Step)
    requires Reachable(init, steps, s) && !PcOf(s, t).Outside?
    ensures Enabled(s, step) && !step.Call? && !step.DeviceWrite?
  {
    InvHolds(init, steps, s);
    match s.holder {
      case None =>
        assert !Inside(PcOf(s, t));
        step := Acquire(t);
      case Some(h) =>
        assert Inside(PcOf(s, h));
        step := match PcOf(s, h)
                case Locked(_, _) => WriteAddrReg(h, true)
                case Addressed(_, _) => AccessData(h, true)
                case _ => Release(h);
    }
  }

  // ---------- One caller ----------

  /** The window as a single caller meets it: `addrOk` and `dataOk` say whether the PCI
      accesses to the address and data registers succeed. */
  class Window {
    var locked: bool
    var addrReg: u32
    var smn: Smn

    constructor (reg: u32, m: Smn)
      ensures !locked && addrReg == reg && smn == m
    {
      locked, addrReg, smn := false, reg, m;
    }

    method SmuSmnRwAddress(address: u32, value: u32, write: bool, addrOk: bool, dataOk: bool)
      returns (err: bool, result: u32)
      requires !locked
      modifies this
      ensures !locked
      ensures err <==> !addrOk || !dataOk
      ensures smn == if write && !err then old(smn)[address := value] else old(smn)
      ensures result == if write || err then value else Lookup(old(smn), address)
      ensures addrReg == if addrOk then address else old(addrReg)
    {
      locked := true;
      err, result := !addrOk, value;
      if addrOk {
        addrReg := address;
      }
      if !err {
        err := !dataOk;
        if dataOk {
          if write {
            smn := smn[addrReg := value];
          } else {
            result := Lookup(smn, addrReg);
          }
        }
      }
      locked := false;
    }
  }
}
