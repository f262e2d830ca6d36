/** The embedded-controller handshake of ugreen/it55_helper.c: a host that polls the
    input- and output-buffer flags, and a controller that runs on its own clock.

    The controller follows section 12.3 of the ACPI specification (RD_EC, WR_EC).  It
    takes one byte at a time and finishes what that byte started before it looks at the
    input buffer again, so a byte that the host has handed over may take effect long
    after the host's call has returned. */
module EcHandshake {
  import opened Words

  const EC_C_READ_MEM: u8 := 0x80
  const EC_C_WRITE_MEM: u8 := 0x81
  const EC_TIMEOUT_US: nat := 5
  const ETIMEDOUT: int := 110

  type Memory = m: seq<u8> | |m| == 256 witness seq(256, _ => 0)

  /** A byte in the input buffer, with the port it was written to. */
  datatype Write = Command(b: u8) | Data(b: u8)

  datatype Phase =
    | Idle
    | ReadAddr
    | WriteAddr
    | WriteData(addr: u8)
    | Fetching(addr: u8)
    | Storing(addr: u8, value: u8)

  /** `taken` logs the bytes the controller has consumed, oldest first. */
  datatype Ec = Ec(mem: Memory, input: Option<Write>, output: Option<u8>, phase: Phase, taken: seq<Write>)

  // ---------- The controller ----------

  function AfterByte(phase: Phase, w: Write): Phase {
    match w
    case Command(b) =>
      if b == EC_C_READ_MEM then ReadAddr else if b == EC_C_WRITE_MEM then WriteAddr else Idle
    case Data(b) =>
      match phase
      case ReadAddr => Fetching(b)
      case WriteAddr => WriteData(b)
      case WriteData(a) => Storing(a, b)
      case _ => Idle
  }

  function EcStep(e: Ec): Ec {
    match e.phase
    case Fetching(a) => e.(output := Some(e.mem[a]), phase := Idle)
    case Storing(a, v) => e.(mem := e.mem[a := v], phase := Idle)
    case _ =>
      match e.input
      case None => e
      case Some(w) => e.(input := None, phase := AfterByte(e.phase, w), taken := e.taken + [w])
  }

  function Ticks(e: Ec, n: nat): Ec
    decreases n
  {
    if n == 0 then e else Ticks(EcStep(e), n - 1)
  }

  /** The controller once it has finished everything it was handed. */
  function Drain(e: Ec): Ec {
    EcStep(EcStep(e))
  }

  /** The atomic byte map that the host is meant to see. */
  function Abs(e: Ec): Memory {
    Drain(e).mem
  }

  /** An answer that nobody has collected is in the output buffer or on its way there. */
  predicate Owes(e: Ec) {
    Drain(e).output.Some?
  }

  // ---------- The host ----------

  /** How many steps the controller makes before the k-th port access of the host. */
  type Schedule = nat -> nat

  /** `sent` logs the bytes the host has written. */
  datatype Bus = Bus(ec: Ec, accesses: nat, polls: nat, sent: seq<Write>)

  datatype Reply<T> = Ok(value: T) | TimedOut

  function Settle(b: Bus, s: Schedule): Bus {
    b.(ec := Ticks(b.ec, s(b.accesses)), accesses := b.accesses + 1)
  }

  function Poll(b: Bus, s: Schedule): Bus {
    Settle(b, s).(polls := b.polls + 1)
  }

  function PollIbf(b: Bus, s: Schedule, timeout: nat): (bool, Bus)
    decreases timeout
  {
    if timeout == 0 then (false, b)
    else
      var b' := Poll(b, s);
      if b'.ec.input.None? then (true, b') else PollIbf(b', s, timeout - 1)
  }

  function PollObf(b: Bus, s: Schedule, timeout: nat): (bool, Bus)
    decreases timeout
  {
    if timeout == 0 then (false, b)
    else
      var b' := Poll(b, s);
      if b'.ec.output.Some? then (true, b') else PollObf(b', s, timeout - 1)
  }

  function Outb(b: Bus, s: Schedule, w: Write): Bus {
    var b' := Settle(b, s);
    b'.(ec := b'.ec.(input := Some(w)), sent := b'.sent + [w])
  }

  function Send(b: Bus, s: Schedule, w: Write): (bool, Bus) {
    var (ok, b') := PollIbf(b, s, EC_TIMEOUT_US);
    if ok then (true, Outb(b', s, w)) else (false, b')
  }

  /** The data register reads 0 when the output buffer is empty. */
  function Inb(b: Bus, s: Schedule): (u8, Bus) {
    var b' := Settle(b, s);
    (if b'.ec.output.Some? then b'.ec.output.value else 0, b'.(ec := b'.ec.(output := None)))
  }

  function Receive(b: Bus, s: Schedule): (Reply<u8>, Bus) {
    var (ok, b') := PollObf(b, s, EC_TIMEOUT_US);
    if ok then var (v, b'') := Inb(b', s); (Ok(v), b'') else (TimedOut, b')
  }

  /** The two bytes that open a transaction. */
  function Open(b: Bus, s: Schedule, command: u8, a: u8): (bool, Bus) {
    var (ok, b') := Send(b, s, Command(command));
    if ok then Send(b', s, Data(a)) else (false, b')
  }

  function ReadMemory(b: Bus, s: Schedule, a: u8): (Reply<u8>, Bus) {
    var (ok, b') := Open(b, s, EC_C_READ_MEM, a);
    if ok then Receive(b', s) else (TimedOut, b')
  }

  function WriteMemory(b: Bus, s: Schedule, a: u8, v: u8): (Reply<()>, Bus) {
    var (ok, b') := Open(b, s, EC_C_WRITE_MEM, a);
    if !ok then (TimedOut, b')
    else var (ok', b'') := Send(b', s, Data(v)); (if ok' then Ok(()) else TimedOut, b'')
  }

  /** The read got as far as waiting for its answer, and gave up there. */
  predicate GaveUp(b: Bus, s: Schedule, a: u8) {
    Open(b, s, EC_C_READ_MEM, a).0 && ReadMemory(b, s, a).0.TimedOut?
  }

  // ---------- Polling does not disturb the controller ----------

  lemma {:induction false} TicksDrain(e: Ec, n: nat)
    ensures Drain(Ticks(e, n)) == Drain(e)
    ensures e.input.None? ==> Ticks(e, n).input.None?
    ensures e.output.Some? ==> Ticks(e, n).output.Some?
    decreases n
  {
    if n == 0 {
    } else {
      TicksDrain(EcStep(e), n - 1);
    }
  }

  lemma {:induction false} PollIbfDrain(b: Bus, s: Schedule, timeout: nat)
    ensures var (ok, b') := PollIbf(b, s, timeout);
            && Drain(b'.ec) == Drain(b.ec)
            && b'.sent == b.sent
            && b'.polls <= b.polls + timeout
            && (ok ==> b'.ec.input.None?)
    decreases timeout
  {
    if timeout == 0 {
    } else {
      TicksDrain(b.ec, s(b.accesses));
      var b' := Poll(b, s);
      if b'.ec.input.Some? {
        PollIbfDrain(b', s, timeout - 1);
      }
    }
  }

  lemma {:induction false} PollObfDrain(b: Bus, s: Schedule, timeout: nat)
    ensures var (ok, b') := PollObf(b, s, timeout);
            && Drain(b'.ec) == Drain(b.ec)
            && b'.sent == b.sent
            && b'.polls <= b.polls + timeout
            && (ok ==> b'.ec.output.Some?)
    decreases timeout
  {
    if timeout == 0 {
    } else {
      TicksDrain(b.ec, s(b.accesses));
      var b' := Poll(b, s);
      if b'.ec.output.None? {
        PollObfDrain(b', s, timeout - 1);
      }
    }
  }

  /** A byte that was sent meets an empty input buffer, so the controller behaves as if it
      had drained before the byte arrived. */
  lemma SendAccepted(b: Bus, s: Schedule, w: Write)
    ensures var (ok, b') := Send(b, s, w);
            && b'.polls <= b.polls + EC_TIMEOUT_US
            && (!ok ==> Drain(b'.ec) == Drain(b.ec) && b'.sent == b.sent)
            && (ok ==>
                  && b'.sent == b.sent + [w]
                  && b'.ec.input == Some(w)
                  && Drain(b'.ec.(input := None)) == Drain(b.ec)
                  && Drain(b'.ec) == Drain(Drain(b.ec).(input := Some(w))))
  {
    PollIbfDrain(b, s, EC_TIMEOUT_US);
    var (ok, b1) := PollIbf(b, s, EC_TIMEOUT_US);
    if ok {
      TicksDrain(b1.ec, s(b1.accesses));
      var e := Settle(b1, s).ec;
      assert e.(input := None) == e;
      assert Drain(e.(input := Some(w))) == Drain(Drain(e).(input := Some(w)));
    }
  }

  lemma CommandDrained(e: Ec, command: u8)
    requires command == EC_C_READ_MEM || command == EC_C_WRITE_MEM
    ensures var d := Drain(Drain(e).(input := Some(Command(command))));
            && d.mem == Abs(e) && d.output == Drain(e).output && d.input.None?
            && d.phase == if command == EC_C_READ_MEM then ReadAddr else WriteAddr
  {
  }

  /** A byte that arrived after everything before it was taken sits in the input buffer of a
      controller that waits for it. */
  lemma WaitsForByte(e: Ec)
    requires e.input.None? && (Drain(e).phase.ReadAddr? || Drain(e).phase.WriteAddr? || Drain(e).phase.WriteData?)
    ensures e == Drain(e)
  {
  }

  /** After both opening bytes the controller sits on the address: nothing from before is
      still under way, whatever phase an earlier transaction was abandoned in. */
  lemma OpenAccepted(b: Bus, s: Schedule, command: u8, a: u8)
    requires command == EC_C_READ_MEM || command == EC_C_WRITE_MEM
    ensures var (ok, b') := Open(b, s, command, a);
            && b'.polls <= b.polls + 2 * EC_TIMEOUT_US
            && Abs(b'.ec) == Abs(b.ec)
            && (!ok ==> Drain(b'.ec).output == Drain(b.ec).output)
            && (ok ==>
                  && b'.ec.input == Some(Data(a))
                  && b'.ec.phase == (if command == EC_C_READ_MEM then ReadAddr else WriteAddr)
                  && b'.ec.mem == Abs(b.ec)
                  && b'.ec.output == Drain(b.ec).output)
  {
    SendAccepted(b, s, Command(command));
    var (ok, b1) := Send(b, s, Command(command));
    if ok {
      CommandDrained(b.ec, command);
      SendAccepted(b1, s, Data(a));
      var (ok', b2) := Send(b1, s, Data(a));
      if ok' {
        WaitsForByte(b2.ec.(input := None));
        AddressDrained(b2.ec, a);
      }
    }
  }

  lemma AddressDrained(e: Ec, a: u8)
    requires e.input == Some(Data(a)) && (e.phase == ReadAddr || e.phase == WriteAddr)
    ensures Drain(e).mem == e.mem
    ensures e.phase == WriteAddr ==> Drain(e).phase == WriteData(a) && Drain(e).output == e.output
    ensures e.phase == ReadAddr ==> Drain(e).output == Some(e.mem[a]) && EcStep(Drain(e)) == Drain(e)
  {
  }

  lemma ValueDrained(e: Ec, a: u8, v: u8)
    requires e.phase == WriteData(a)
    ensures var d := Drain(e.(input := Some(Data(v)))); d.mem == e.mem[a := v] && d.output == e.output
  {
  }

  // ---------- One transaction ----------

  /** A write takes effect on the atomic map when its last byte is accepted, and a write
      that times out anywhere has no effect, now or later. */
  lemma WriteLinearizes(b: Bus, s: Schedule, a: u8, v: u8)
    ensures var (r, b') := WriteMemory(b, s, a, v);
            && Abs(b'.ec) == (if r.Ok? then Abs(b.ec)[a := v] else Abs(b.ec))
            && (Owes(b'.ec) <==> Owes(b.ec))
            && b'.polls <= b.polls + 3 * EC_TIMEOUT_US
  {
    OpenAccepted(b, s, EC_C_WRITE_MEM, a);
    var (ok, b1) := Open(b, s, EC_C_WRITE_MEM, a);
    if ok {
      AddressDrained(b1.ec, a);
      SendAccepted(b1, s, Data(v));
      ValueDrained(Drain(b1.ec), a, v);
    }
  }

  /** While the controller works on an address, the output buffer holds what it held
      before or the byte at that address, and the latter only once it is at rest. */
  lemma {:induction false} AnswerComes(e: Ec, a: u8, n: nat)
    requires e.phase == ReadAddr && e.input == Some(Data(a))
    ensures var e' := Ticks(e, n);
            (n < 2 ==> e'.output == e.output) && (n >= 2 ==> e' == Drain(e))
  {
    if n >= 2 {
      AtRest(Drain(e), n - 2);
      assert Ticks(e, n) == Ticks(EcStep(e), n - 1) == Ticks(Drain(e), n - 2);
    } else if n == 1 {
      assert Ticks(e, n) == Ticks(EcStep(e), 0);
    }
  }

  lemma {:induction false} AtRest(e: Ec, n: nat)
    requires EcStep(e) == e
    ensures Ticks(e, n) == e
    decreases n
  {
    if n == 0 {
    } else {
      AtRest(e, n - 1);
    }
  }

  lemma {:induction false} TicksAdd(e: Ec, m: nat, n: nat)
    ensures Ticks(Ticks(e, m), n) == Ticks(e, m + n)
    decreases m
  {
    if m == 0 {
    } else {
      TicksAdd(EcStep(e), m - 1, n);
    }
  }

  /** Wherever the poll for the answer stops, the controller is `ticks` steps past `e`. */
  lemma {:induction false} PollObfTicks(b: Bus, s: Schedule, timeout: nat) returns (ticks: nat)
    ensures PollObf(b, s, timeout).1.ec == Ticks(b.ec, ticks)
    decreases timeout
  {
    ticks := 0;
    if timeout == 0 {
    } else {
      var b' := Poll(b, s);
      ticks := s(b.accesses);
      if b'.ec.output.None? {
        var more := PollObfTicks(b', s, timeout - 1);
        TicksAdd(b.ec, ticks, more);
        ticks := ticks + more;
      }
    }
  }

  /** A read never changes the map.  What it returns is the byte at the address, or else the
      answer that an earlier read left behind.  Without such an answer the read is exact, and
      leaves one behind only by giving up in its own data wait. */
  lemma ReadLinearizes(b: Bus, s: Schedule, a: u8)
    ensures var (r, b') := ReadMemory(b, s, a);
            && Abs(b'.ec) == Abs(b.ec)
            && b'.polls <= b.polls + 3 * EC_TIMEOUT_US
            && (r.Ok? ==> r.value == Abs(b.ec)[a] || Drain(b.ec).output == Some(r.value))
            && (!Owes(b.ec) ==>
                  && (r.Ok? ==> r.value == Abs(b.ec)[a])
                  && (Owes(b'.ec) <==> GaveUp(b, s, a)))
  {
    OpenAccepted(b, s, EC_C_READ_MEM, a);
    var (ok, b1) := Open(b, s, EC_C_READ_MEM, a);
    if ok {
      AddressDrained(b1.ec, a);
      PollObfDrain(b1, s, EC_TIMEOUT_US);
      var n := PollObfTicks(b1, s, EC_TIMEOUT_US);
      var (got, b2) := PollObf(b1, s, EC_TIMEOUT_US);
      AnswerComes(b1.ec, a, n);
      var m := s(b2.accesses);
      TicksAdd(b1.ec, n, m);
      AnswerComes(b1.ec, a, n + m);
      TicksDrain(b2.ec, m);
      if got {
        var e := Ticks(b2.ec, m);
        assert e.output.Some?;
        ClearOutput(e);
      }
    }
  }

  lemma ClearOutput(e: Ec)
    ensures Abs(e.(output := None)) == Abs(e)
  {
  }

  // ---------- When a transaction succeeds ----------

  /** The controller's steps before n accesses, from the k-th on. */
  function Steps(s: Schedule, k: nat, n: nat): nat
    decreases n
  {
    if n == 0 then 0 else s(k) + Steps(s, k + 1, n - 1)
  }

  /** The controller at the n-th poll, counting from 0, of a wait that starts at the k-th access. */
  function AtPoll(e: Ec, s: Schedule, k: nat, n: nat): Ec {
    Ticks(e, Steps(s, k, n + 1))
  }

  /** Of the five polls of a wait, the n-th is the first to find the input buffer empty. */
  ghost predicate EmptyAt(e: Ec, s: Schedule, k: nat, n: nat) {
    && n < 5 && AtPoll(e, s, k, n).input.None?
    && forall m: nat :: m < n ==> AtPoll(e, s, k, m).input.Some?
  }

  ghost predicate NeverEmpty(e: Ec, s: Schedule, k: nat) {
    forall n: nat :: n < 5 ==> AtPoll(e, s, k, n).input.Some?
  }

  /** The controller when it has been handed a byte after n + 1 polls. */
  function HandedOver(e: Ec, s: Schedule, k: nat, n: nat, w: Write): Ec {
    AtPoll(e, s, k, n + 1).(input := Some(w))
  }

  /** The byte meets an input buffer that some poll of its wait finds empty; the controller has it
      after the access before the k'-th. */
  ghost predicate Handed(e: Ec, s: Schedule, k: nat, w: Write, e': Ec, k': nat) {
    exists n: nat :: EmptyAt(e, s, k, n) && e' == HandedOver(e, s, k, n, w) && k' == k + n + 2
  }

  ghost predicate HandedTwo(e: Ec, s: Schedule, k: nat, w1: Write, w2: Write, e': Ec, k': nat) {
    exists e1: Ec, k1: nat :: Handed(e, s, k, w1, e1, k1) && Handed(e1, s, k1, w2, e', k')
  }

  ghost predicate HandedThree(e: Ec, s: Schedule, k: nat, w1: Write, w2: Write, w3: Write, e': Ec, k': nat) {
    exists e2: Ec, k2: nat :: HandedTwo(e, s, k, w1, w2, e2, k2) && Handed(e2, s, k2, w3, e', k')
  }

  lemma {:induction false} StepsLast(s: Schedule, k: nat, n: nat)
    ensures Steps(s, k, n + 1) == Steps(s, k, n) + s(k + n)
    decreases n
  {
    if n == 0 {
      assert Steps(s, k, 1) == s(k) + Steps(s, k + 1, 0);
    } else {
      StepsLast(s, k + 1, n - 1);
    }
  }

  /** The bus `n` accesses after the wait began. */
  ghost predicate Along(e: Ec, s: Schedule, k: nat, b: Bus, n: nat) {
    b.accesses == k + n && b.ec == Ticks(e, Steps(s, k, n))
  }

  lemma PollAlong(e: Ec, s: Schedule, k: nat, b: Bus, n: nat)
    requires Along(e, s, k, b, n)
    ensures Along(e, s, k, Poll(b, s), n + 1) && Poll(b, s).ec == AtPoll(e, s, k, n)
    ensures Settle(b, s).ec == AtPoll(e, s, k, n)
  {
    TicksAdd(e, Steps(s, k, n), s(k + n));
    StepsLast(s, k, n);
  }

  lemma {:induction false} PollIbfFinds(e: Ec, s: Schedule, k: nat, b: Bus, done: nat, n: nat)
    requires Along(e, s, k, b, done) && done <= n && EmptyAt(e, s, k, n)
    ensures var (ok, b') := PollIbf(b, s, 5 - done); ok && b'.sent == b.sent && Along(e, s, k, b', n + 1)
    decreases n - done
  {
    PollAlong(e, s, k, b, done);
    if done == n {
    } else {
      PollIbfFinds(e, s, k, Poll(b, s), done + 1, n);
    }
  }

  lemma {:induction false} PollIbfFails(e: Ec, s: Schedule, k: nat, b: Bus, done: nat)
    requires Along(e, s, k, b, done) && done <= 5 && NeverEmpty(e, s, k)
    ensures !PollIbf(b, s, 5 - done).0
    decreases 5 - done
  {
    if done == 5 {
    } else {
      PollAlong(e, s, k, b, done);
      PollIbfFails(e, s, k, Poll(b, s), done + 1);
    }
  }

  lemma SendFinds(b: Bus, s: Schedule, w: Write, n: nat)
    requires EmptyAt(b.ec, s, b.accesses, n)
    ensures var (ok, b') := Send(b, s, w);
            && ok && b'.sent == b.sent + [w]
            && b'.ec == HandedOver(b.ec, s, b.accesses, n, w) && b'.accesses == b.accesses + n + 2
  {
    PollIbfFinds(b.ec, s, b.accesses, b, 0, n);
    PollAlong(b.ec, s, b.accesses, PollIbf(b, s, 5).1, n + 1);
  }

  lemma SendFails(b: Bus, s: Schedule, w: Write)
    requires NeverEmpty(b.ec, s, b.accesses)
    ensures !Send(b, s, w).0
  {
    PollIbfFails(b.ec, s, b.accesses, b, 0);
  }

  lemma {:induction false} FirstEmpty(e: Ec, s: Schedule, k: nat, n: nat) returns (m: nat)
    requires n < 5 && AtPoll(e, s, k, n).input.None?
    ensures EmptyAt(e, s, k, m)
    decreases n
  {
    if earlier: nat :| earlier < n && AtPoll(e, s, k, earlier).input.None? {
      m := FirstEmpty(e, s, k, earlier);
    } else {
      m := n;
    }
  }

  /** A byte is sent exactly if it is handed over, and in one way only. */
  lemma SendWhen(b: Bus, s: Schedule, w: Write)
    ensures var (ok, b') := Send(b, s, w);
            && (ok ==> Handed(b.ec, s, b.accesses, w, b'.ec, b'.accesses) && b'.sent == b.sent + [w])
            && forall e', k' :: Handed(b.ec, s, b.accesses, w, e', k') ==> ok && e' == b'.ec && k' == b'.accesses
  {
    if some: nat :| some < 5 && AtPoll(b.ec, s, b.accesses, some).input.None? {
      var n := FirstEmpty(b.ec, s, b.accesses, some);
      SendFinds(b, s, w, n);
      OnlyOne(b.ec, s, b.accesses, n);
    } else {
      SendFails(b, s, w);
    }
  }

  lemma OnlyOne(e: Ec, s: Schedule, k: nat, n: nat)
    requires EmptyAt(e, s, k, n)
    ensures forall m: nat :: EmptyAt(e, s, k, m) ==> m == n
  {
  }

  lemma OpenWhen(b: Bus, s: Schedule, command: u8, a: u8)
    ensures var (ok, b') := Open(b, s, command, a);
            && (ok ==> HandedTwo(b.ec, s, b.accesses, Command(command), Data(a), b'.ec, b'.accesses)
                       && b'.sent == b.sent + [Command(command), Data(a)])
            && forall e', k' :: HandedTwo(b.ec, s, b.accesses, Command(command), Data(a), e', k') ==>
                 ok && e' == b'.ec && k' == b'.accesses
  {
    SendWhen(b, s, Command(command));
    SendWhen(Send(b, s, Command(command)).1, s, Data(a));
  }

  /** A write returns 0 if and only if in each of its three waits one of the five polls finds the
      input buffer empty, and then its three bytes have gone out; whatever the start, the address,
      the value and the schedule. */
  lemma WriteOkWhen(b: Bus, s: Schedule, a: u8, v: u8)
    ensures var (r, b') := WriteMemory(b, s, a, v);
            && (r.Ok? <==> exists e', k' ::
                             HandedThree(b.ec, s, b.accesses, Command(0x81), Data(a), Data(v), e', k'))
            && (r.Ok? ==> b'.sent == b.sent + [Command(0x81), Data(a), Data(v)])
  {
    OpenWhen(b, s, 0x81, a);
    var (ok, b2) := Open(b, s, 0x81, a);
    SendWhen(b2, s, Data(v));
    var (ok', b3) := Send(b2, s, Data(v));
    if ok && ok' {
      assert HandedThree(b.ec, s, b.accesses, Command(0x81), Data(a), Data(v), b3.ec, b3.accesses);
    }
  }

  /** One of the five polls of a wait that starts at the k-th access finds the output buffer full. */
  ghost predicate AnswerSeen(e: Ec, s: Schedule, k: nat) {
    exists n: nat :: n < 5 && AtPoll(e, s, k, n).output.Some?
  }

  lemma {:induction false} PollObfFrom(e: Ec, s: Schedule, k: nat, b: Bus, done: nat)
    requires Along(e, s, k, b, done) && done <= 5
    requires forall m: nat :: m < done ==> AtPoll(e, s, k, m).output.None?
    ensures PollObf(b, s, 5 - done).0 <==> AnswerSeen(e, s, k)
    ensures PollObf(b, s, 5 - done).1.sent == b.sent
    decreases 5 - done
  {
    if done == 5 {
    } else {
      PollAlong(e, s, k, b, done);
      if Poll(b, s).ec.output.None? {
        PollObfFrom(e, s, k, Poll(b, s), done + 1);
      }
    }
  }

  /** A read returns 0 if and only if in each of its two input waits one of the five polls finds
      the input buffer empty, and one of the five polls after them finds the output buffer full. */
  lemma ReadOkWhen(b: Bus, s: Schedule, a: u8)
    ensures var (r, b') := ReadMemory(b, s, a);
            && (r.Ok? <==> exists e', k' :: HandedTwo(b.ec, s, b.accesses, Command(0x80), Data(a), e', k')
                                     && AnswerSeen(e', s, k'))
            && (r.Ok? ==> b'.sent == b.sent + [Command(0x80), Data(a)])
  {
    OpenWhen(b, s, 0x80, a);
    var b2 := Open(b, s, 0x80, a).1;
    PollObfFrom(b2.ec, s, b2.accesses, b2, 0);
  }

  /** The controller makes at least two steps before each access. */
  ghost predicate Prompt(s: Schedule) {
    forall k :: s(k) >= 2
  }

  lemma TwoTicks(e: Ec, n: nat)
    requires n >= 2
    ensures Ticks(e, n).input.None?
    ensures e.phase == ReadAddr && e.input.Some? && e.input.value.Data? ==> Ticks(e, n).output.Some?
  {
    assert Ticks(e, n) == Ticks(EcStep(e), n - 1) == Ticks(Drain(e), n - 2);
    TicksKeepBuffers(Drain(e), n - 2);
  }

  lemma {:induction false} TicksKeepBuffers(e: Ec, n: nat)
    ensures e.input.None? ==> Ticks(e, n).input.None?
    ensures e.output.Some? ==> Ticks(e, n).output.Some?
    decreases n
  {
    if n == 0 {
    } else {
      TicksKeepBuffers(EcStep(e), n - 1);
    }
  }

  lemma PromptSends(b: Bus, s: Schedule, w: Write)
    requires Prompt(s)
    ensures Send(b, s, w).0
  {
    TwoTicks(b.ec, s(b.accesses));
  }

  /** With a prompt controller every write of every value returns 0 and stores it, and every read
      returns 0 and the byte at its address, even if an answer was owed before. */
  lemma PromptSucceeds(b: Bus, s: Schedule, a: u8, v: u8)
    requires Prompt(s)
    ensures var (r, b') := WriteMemory(b, s, a, v); r == Ok(()) && Abs(b'.ec) == Abs(b.ec)[a := v]
    ensures ReadMemory(b, s, a).0 == Ok(Abs(b.ec)[a]) && !Owes(ReadMemory(b, s, a).1.ec)
  {
    var b1 := Send(b, s, Command(EC_C_WRITE_MEM)).1;
    PromptSends(b, s, Command(EC_C_WRITE_MEM));
    PromptSends(b1, s, Data(a));
    PromptSends(Send(b1, s, Data(a)).1, s, Data(v));
    WriteLinearizes(b, s, a, v);
    PromptRead(b, s, a);
  }

  lemma PromptRead(b: Bus, s: Schedule, a: u8)
    requires Prompt(s)
    ensures ReadMemory(b, s, a).0 == Ok(Abs(b.ec)[a]) && !Owes(ReadMemory(b, s, a).1.ec)
  {
    PromptSends(b, s, Command(EC_C_READ_MEM));
    PromptSends(Send(b, s, Command(EC_C_READ_MEM)).1, s, Data(a));
    OpenAccepted(b, s, EC_C_READ_MEM, a);
    PromptAnswer(Open(b, s, EC_C_READ_MEM, a).1, s, a);
  }

  lemma PromptAnswer(b: Bus, s: Schedule, a: u8)
    requires Prompt(s) && b.ec.phase == ReadAddr && b.ec.input == Some(Data(a))
    ensures var (r, b') := Receive(b, s); r == Ok(b.ec.mem[a]) && !Owes(b'.ec)
  {
    var n, m := s(b.accesses), s(b.accesses + 1);
    AnswerComes(b.ec, a, n);
    AddressDrained(b.ec, a);
    var b' := Poll(b, s);
    assert PollObf(b, s, EC_TIMEOUT_US) == (true, b');
    TicksAdd(b.ec, n, m);
    AnswerComes(b.ec, a, n + m);
    FewTicks(b.ec, a, n + m);
  }

  // ---------- Whole runs ----------

  datatype Op = Read(addr: u8) | Store(addr: u8, value: u8)

  /** The reply of a store carries the byte stored. */
  function Perform(b: Bus, s: Schedule, op: Op): (Reply<u8>, Bus) {
    match op
    case Read(a) => ReadMemory(b, s, a)
    case Store(a, v) =>
      var (r, b') := WriteMemory(b, s, a, v);
      (if r.Ok? then Ok(v) else TimedOut, b')
  }

  function Run(b: Bus, s: Schedule, ops: seq<Op>): (seq<Reply<u8>>, Bus)
    decreases |ops|
  {
    if ops == [] then ([], b)
    else
      var (r, b') := Perform(b, s, ops[0]);
      var (rs, b'') := Run(b', s, ops[1..]);
      ([r] + rs, b'')
  }

  predicate NoneGaveUp(b: Bus, s: Schedule, ops: seq<Op>)
    decreases |ops|
  {
    ops != [] ==>
      && (ops[0].Read? ==> !GaveUp(b, s, ops[0].addr))
      && NoneGaveUp(Perform(b, s, ops[0]).1, s, ops[1..])
  }

  /** The specification: one byte map on which every answered operation acts at once and
      an operation that timed out does not act at all. */
  predicate Atomic(before: Memory, ops: seq<Op>, replies: seq<Reply<u8>>, after: Memory)
    decreases |ops|
  {
    if ops == [] then replies == [] && before == after
    else
      && replies != []
      && (ops[0].Read? && replies[0].Ok? ==> replies[0].value == before[ops[0].addr])
      && Atomic(if ops[0].Store? && replies[0].Ok? then before[ops[0].addr := ops[0].value] else before,
                ops[1..], replies[1..], after)
  }

  /** Driver and controller refine the atomic map over any schedule and any run in which no
      read gave up in its data wait; operations that timed out elsewhere do no harm. */
  lemma {:induction false} RunIsAtomic(b: Bus, s: Schedule, ops: seq<Op>)
    requires !Owes(b.ec) && NoneGaveUp(b, s, ops)
    ensures var (rs, b') := Run(b, s, ops);
            Atomic(Abs(b.ec), ops, rs, Abs(b'.ec)) && !Owes(b'.ec)
    decreases |ops|
  {
    if ops == [] {
    } else {
      match ops[0] {
        case Read(a) => ReadLinearizes(b, s, a);
        case Store(a, v) => WriteLinearizes(b, s, a, v);
      }
      var (r, b') := Perform(b, s, ops[0]);
      RunIsAtomic(b', s, ops[1..]);
      var (rs, b'') := Run(b', s, ops[1..]);
      assert ([r] + rs)[1..] == rs;
    }
  }

  /** No byte is lost or reordered: what the controller has taken, followed by what is in
      the input buffer, is what the host has sent. */
  predicate Lossless(b: Bus) {
    b.sent == b.ec.taken + (if b.ec.input.Some? then [b.ec.input.value] else [])
  }

  lemma {:induction false} TicksLossless(b: Bus, n: nat)
    requires Lossless(b)
    ensures Lossless(b.(ec := Ticks(b.ec, n)))
    decreases n
  {
    if n == 0 {
    } else {
      TicksLossless(b.(ec := EcStep(b.ec)), n - 1);
    }
  }

  lemma {:induction false} PollIbfLossless(b: Bus, s: Schedule, timeout: nat)
    requires Lossless(b)
    ensures Lossless(PollIbf(b, s, timeout).1)
    decreases timeout
  {
    if timeout == 0 {
    } else {
      TicksLossless(b, s(b.accesses));
      PollIbfLossless(Poll(b, s), s, timeout - 1);
    }
  }

  lemma {:induction false} PollObfLossless(b: Bus, s: Schedule, timeout: nat)
    requires Lossless(b)
    ensures Lossless(PollObf(b, s, timeout).1)
    decreases timeout
  {
    if timeout == 0 {
    } else {
      TicksLossless(b, s(b.accesses));
      PollObfLossless(Poll(b, s), s, timeout - 1);
    }
  }

  lemma SendLossless(b: Bus, s: Schedule, w: Write)
    requires Lossless(b)
    ensures Lossless(Send(b, s, w).1)
  {
    PollIbfLossless(b, s, EC_TIMEOUT_US);
    PollIbfDrain(b, s, EC_TIMEOUT_US);
    var (ok, b1) := PollIbf(b, s, EC_TIMEOUT_US);
    TicksLossless(b1, s(b1.accesses));
    TicksDrain(b1.ec, s(b1.accesses));
  }

  lemma ReceiveLossless(b: Bus, s: Schedule)
    requires Lossless(b)
    ensures Lossless(Receive(b, s).1)
  {
    PollObfLossless(b, s, EC_TIMEOUT_US);
    var b1 := PollObf(b, s, EC_TIMEOUT_US).1;
    TicksLossless(b1, s(b1.accesses));
  }

  lemma {:induction false} RunLossless(b: Bus, s: Schedule, ops: seq<Op>)
    requires Lossless(b)
    ensures Lossless(Run(b, s, ops).1)
    decreases |ops|
  {
    if ops == [] {
    } else {
      var command := if ops[0].Read? then EC_C_READ_MEM else EC_C_WRITE_MEM;
      SendLossless(b, s, Command(command));
      var b1 := Send(b, s, Command(command)).1;
      SendLossless(b1, s, Data(ops[0].addr));
      var b2 := Open(b, s, command, ops[0].addr).1;
      if ops[0].Read? {
        ReceiveLossless(b2, s);
      } else {
        SendLossless(b2, s, Data(ops[0].value));
      }
      RunLossless(Perform(b, s, ops[0]).1, s, ops[1..]);
    }
  }

  // ---------- When reads are exact ----------

  /** Every answered read, at any address and on any schedule, returns the byte at its address. */
  ghost predicate ReadsExact(e: Ec) {
    forall b: Bus, s: Schedule, a: u8 ::
      b.ec == e && ReadMemory(b, s, a).0.Ok? ==> ReadMemory(b, s, a).0.value == Abs(e)[a]
  }

  /** From the k-th access on the controller works in two bursts, just before the two input
      polls of a read, and stands still until the sixth access is over. */
  predicate Bursts(s: Schedule, k: nat) {
    && s(k) == 3 && s(k + 1) == 0 && s(k + 2) == 3 && s(k + 3) == 0 && s(k + 4) == 0 && s(k + 5) == 0
  }

  /** It goes on standing still while a read waits for its answer in vain. */
  predicate Pauses(s: Schedule, k: nat) {
    Bursts(s, k) && s(k + 6) == 0 && s(k + 7) == 0 && s(k + 8) == 0
  }

  lemma ThreeTicks(e: Ec)
    ensures Ticks(e, 3) == Drain(e)
  {
    assert Ticks(e, 3) == Ticks(EcStep(e), 2) == Ticks(Drain(e), 1);
  }

  lemma BurstPolls(b: Bus, s: Schedule)
    requires s(b.accesses) == 3
    ensures PollIbf(b, s, EC_TIMEOUT_US) ==
              (true, b.(ec := Drain(b.ec), accesses := b.accesses + 1, polls := b.polls + 1))
  {
    ThreeTicks(b.ec);
  }

  /** Both opening bytes go out, and the second is still in the buffer. */
  lemma BurstOpens(b: Bus, s: Schedule, a: u8)
    requires Bursts(s, b.accesses)
    ensures var (ok, b') := Open(b, s, EC_C_READ_MEM, a);
            && ok && b'.accesses == b.accesses + 4
            && b'.ec.phase == ReadAddr && b'.ec.input == Some(Data(a))
            && b'.ec.mem == Abs(b.ec) && b'.ec.output == Drain(b.ec).output
  {
    BurstPolls(b, s);
    var b1 := Send(b, s, Command(EC_C_READ_MEM)).1;
    BurstPolls(b1, s);
    OpenAccepted(b, s, EC_C_READ_MEM, a);
  }

  /** An owing controller never keeps a read waiting: once the address is sent, the first poll
      finds the old answer.  If the controller makes two steps before the host collects, the
      read is exact and nothing is owed any more; if it makes fewer, the read returns the old
      answer and its own is owed in turn. */
  lemma OwingRead(b: Bus, s: Schedule, a: u8)
    requires Owes(b.ec) && Open(b, s, EC_C_READ_MEM, a).0
    ensures var (r, b') := ReadMemory(b, s, a);
            var k := Open(b, s, EC_C_READ_MEM, a).1.accesses;
            && Abs(b'.ec) == Abs(b.ec) && b'.accesses == k + 2
            && if s(k) + s(k + 1) >= 2 then r == Ok(Abs(b.ec)[a]) && !Owes(b'.ec)
               else r == Ok(Drain(b.ec).output.value) && Drain(b'.ec).output == Some(Abs(b.ec)[a])
  {
    OpenAccepted(b, s, EC_C_READ_MEM, a);
    var b1 := Open(b, s, EC_C_READ_MEM, a).1;
    var n, m := s(b1.accesses), s(b1.accesses + 1);
    AnswerComes(b1.ec, a, n);
    TicksDrain(b1.ec, n);
    var b2 := Poll(b1, s);
    assert PollObf(b1, s, EC_TIMEOUT_US) == (true, b2);
    TicksAdd(b1.ec, n, m);
    AnswerComes(b1.ec, a, n + m);
    TicksDrain(b2.ec, m);
    AddressDrained(b1.ec, a);
    var e := Ticks(b2.ec, m);
    ClearOutput(e);
    FewTicks(b1.ec, a, n + m);
  }

  /** With fewer than two steps the answer is still to come; with two the controller rests. */
  lemma FewTicks(e: Ec, a: u8, n: nat)
    requires e.phase == ReadAddr && e.input == Some(Data(a))
    ensures var e' := Ticks(e, n).(output := None);
            Drain(e').output == if n < 2 then Some(e.mem[a]) else None
  {
    if n >= 2 {
      AnswerComes(e, a, n);
      AddressDrained(e, a);
    } else if n == 1 {
      assert Ticks(e, 1) == Ticks(EcStep(e), 0);
    }
  }

  lemma StaleRead(b: Bus, s: Schedule, a: u8)
    requires Owes(b.ec) && Bursts(s, b.accesses)
    ensures var (r, b') := ReadMemory(b, s, a);
            && r == Ok(Drain(b.ec).output.value) && Drain(b'.ec).output == Some(Abs(b.ec)[a])
            && Abs(b'.ec) == Abs(b.ec) && b'.accesses == b.accesses + 6
  {
    BurstOpens(b, s, a);
    OwingRead(b, s, a);
  }

  /** Five polls of a controller that stands still. */
  lemma {:induction false} StandsStill(b: Bus, s: Schedule, timeout: nat)
    requires b.ec.output.None? && forall k :: b.accesses <= k < b.accesses + timeout ==> s(k) == 0
    ensures PollObf(b, s, timeout) == (false, b.(accesses := b.accesses + timeout, polls := b.polls + timeout))
    decreases timeout
  {
    if timeout == 0 {
    } else {
      StandsStill(Poll(b, s), s, timeout - 1);
    }
  }

  lemma BurstGivesUp(b: Bus, s: Schedule, a: u8)
    requires !Owes(b.ec) && Pauses(s, b.accesses)
    ensures GaveUp(b, s, a)
    ensures var (r, b') := ReadMemory(b, s, a);
            && r == TimedOut && Drain(b'.ec).output == Some(Abs(b.ec)[a])
            && Abs(b'.ec) == Abs(b.ec) && b'.accesses == b.accesses + 9
  {
    BurstOpens(b, s, a);
    var b1 := Open(b, s, EC_C_READ_MEM, a).1;
    StandsStill(b1, s, EC_TIMEOUT_US);
    AddressDrained(b1.ec, a);
  }

  function Reads(addrs: seq<u8>): seq<Op> {
    seq(|addrs|, i requires 0 <= i < |addrs| => Read(addrs[i]))
  }

  /** The replies of reads each of which gets the answer of the one before. */
  function Shifted(mem: Memory, owed: u8, addrs: seq<u8>): seq<Reply<u8>>
    decreases |addrs|
  {
    if addrs == [] then [] else [Ok(owed)] + Shifted(mem, mem[addrs[0]], addrs[1..])
  }

  lemma {:induction false} ShiftedRun(b: Bus, s: Schedule, addrs: seq<u8>)
    requires Owes(b.ec) && forall i: nat :: i < |addrs| ==> Bursts(s, b.accesses + 6 * i)
    ensures var (rs, b') := Run(b, s, Reads(addrs));
            rs == Shifted(Abs(b.ec), Drain(b.ec).output.value, addrs) && Owes(b'.ec)
    decreases |addrs|
  {
    if addrs == [] {
    } else {
      assert Bursts(s, b.accesses + 6 * 0);
      StaleRead(b, s, addrs[0]);
      var (r, b') := ReadMemory(b, s, addrs[0]);
      assert Reads(addrs)[0] == Read(addrs[0]) && Reads(addrs)[1..] == Reads(addrs[1..]);
      forall i: nat | i < |addrs[1..]| ensures Bursts(s, b'.accesses + 6 * i) {
        assert Bursts(s, b.accesses + 6 * (i + 1));
      }
      ShiftedRun(b', s, addrs[1..]);
    }
  }

  /** Bursts at accesses 0 and 2, and from the ninth on at every sixth access and two later. */
  function StaleSchedule(): Schedule {
    k => if k == 0 || k == 2 || (k >= 9 && ((k - 9) % 6 == 0 || (k - 9) % 6 == 2)) then 3 else 0
  }

  /** From any start that owes nothing, an idle one among them, there is a schedule on which one
      read gives up and every later read, of any addresses and however many, returns the byte
      of the read before it. */
  lemma ReadsStayShifted(e: Ec, a: u8, addrs: seq<u8>)
    requires !Owes(e)
    ensures var rs := Run(Bus(e, 0, 0, []), StaleSchedule(), Reads([a] + addrs)).0;
            rs == [TimedOut] + Shifted(Abs(e), Abs(e)[a], addrs)
  {
    var s, b := StaleSchedule(), Bus(e, 0, 0, []);
    BurstGivesUp(b, s, a);
    var (r, b') := ReadMemory(b, s, a);
    forall i: nat | i < |addrs| ensures Bursts(s, b'.accesses + 6 * i) {
      SixApart(i);
    }
    ShiftedRun(b', s, addrs);
    assert Reads([a] + addrs)[0] == Read(a) && Reads([a] + addrs)[1..] == Reads(addrs);
  }

  lemma SixApart(i: nat)
    ensures Bursts(StaleSchedule(), 9 + 6 * i)
  {
    Remainder(i, 0);
    Remainder(i, 1);
    Remainder(i, 2);
    Remainder(i, 3);
    Remainder(i, 4);
    Remainder(i, 5);
  }

  lemma Remainder(i: nat, j: nat)
    requires j < 6
    ensures (9 + 6 * i + j - 9) % 6 == j
  {
    assert 9 + 6 * i + j - 9 == 6 * i + j;
  }

  /** Writes neither settle what is owed nor are disturbed by it. */
  lemma WritesKeepOwed(b: Bus, s: Schedule, a: u8, v: u8)
    ensures Drain(WriteMemory(b, s, a, v).1.ec).output == Drain(b.ec).output
  {
    OpenAccepted(b, s, EC_C_WRITE_MEM, a);
    var (ok, b1) := Open(b, s, EC_C_WRITE_MEM, a);
    if ok {
      AddressDrained(b1.ec, a);
      SendAccepted(b1, s, Data(v));
      ValueDrained(Drain(b1.ec), a, v);
    }
  }

  /** Reads are exact if and only if no answer is left behind, or the byte left behind is
      what every cell of the memory holds anyway. */
  lemma ReadsExactWhen(e: Ec)
    ensures ReadsExact(e) <==> !Owes(e) || forall a: u8 :: Abs(e)[a] == Drain(e).output.value
  {
    if ReadsExact(e) && Owes(e) {
      forall a: u8 ensures Abs(e)[a] == Drain(e).output.value {
        StaleRead(Bus(e, 0, 0, []), StaleSchedule(), a);
      }
    }
    if !Owes(e) || forall a: u8 :: Abs(e)[a] == Drain(e).output.value {
      forall b: Bus, s: Schedule, a: u8 | b.ec == e && ReadMemory(b, s, a).0.Ok?
        ensures ReadMemory(b, s, a).0.value == Abs(e)[a]
      {
        ReadLinearizes(b, s, a);
      }
    }
  }

  // ---------- The driver ----------

  class Helper {
    var bus: Bus
    const schedule: Schedule

    constructor (e: Ec, s: Schedule)
      ensures bus == Bus(e, 0, 0, []) && schedule == s
    {
      bus, schedule := Bus(e, 0, 0, []), s;
    }

    /** Reads the status register. */
    method ReadStatus() returns (ibf: bool, obf: bool)
      modifies this
      ensures bus == Poll(old(bus), schedule)
      ensures ibf == bus.ec.input.Some? && obf == bus.ec.output.Some?
    {
      bus := Poll(bus, schedule);
      ibf, obf := bus.ec.input.Some?, bus.ec.output.Some?;
    }

    method WaitCommandReady() returns (ret: int)
      modifies this
      ensures (ret == 0, bus) == PollIbf(old(bus), schedule, EC_TIMEOUT_US)
      ensures ret == 0 || ret == -ETIMEDOUT
    {
      var timeout := EC_TIMEOUT_US;
      while timeout > 0
        invariant PollIbf(bus, schedule, timeout) == PollIbf(old(bus), schedule, EC_TIMEOUT_US)
      {
        var ibf, _ := ReadStatus();
        if !ibf {
          return 0;
        }
        timeout := timeout - 1;
      }
      return -ETIMEDOUT;
    }

    method WaitDataReady() returns (ret: int)
      modifies this
      ensures (ret == 0, bus) == PollObf(old(bus), schedule, EC_TIMEOUT_US)
      ensures ret == 0 || ret == -ETIMEDOUT
    {
      var timeout := EC_TIMEOUT_US;
      while timeout > 0
        invariant PollObf(bus, schedule, timeout) == PollObf(old(bus), schedule, EC_TIMEOUT_US)
      {
        var _, obf := ReadStatus();
        if obf {
          return 0;
        }
        timeout := timeout - 1;
      }
      return -ETIMEDOUT;
    }

    method SendByte(w: Write) returns (ret: int)
      modifies this
      ensures (ret == 0, bus) == Send(old(bus), schedule, w)
      ensures ret == 0 || ret == -ETIMEDOUT
    {
      ret := WaitCommandReady();
      if ret != 0 {
        return;
      }
      bus := Outb(bus, schedule, w);
    }

    method ReceiveData() returns (ret: int, data: u8)
      modifies this
      ensures (if ret == 0 then Ok(data) else TimedOut, bus) == Receive(old(bus), schedule)
      ensures ret == 0 || ret == -ETIMEDOUT
    {
      data := 0;
      ret := WaitDataReady();
      if ret != 0 {
        return;
      }
      var (v, b) := Inb(bus, schedule);
      data, bus := v, b;
    }

    method EcReadMemory(address: u8) returns (ret: int, value: u8)
      modifies this
      ensures (if ret == 0 then Ok(value) else TimedOut, bus) == ReadMemory(old(bus), schedule, address)
      ensures ret == 0 || ret == -ETIMEDOUT
    {
      value := 0;
      ret := SendByte(Command(EC_C_READ_MEM));
      if ret != 0 {
        return;
      }
      ret := SendByte(Data(address));
      if ret != 0 {
        return;
      }
      ret, value := ReceiveData();
    }

    method EcWriteMemory(address: u8, value: u8) returns (ret: int)
      modifies this
      ensures (if ret == 0 then Ok(()) else TimedOut, bus) == WriteMemory(old(bus), schedule, address, value)
      ensures ret == 0 || ret == -ETIMEDOUT
    {
      ret := SendByte(Command(EC_C_WRITE_MEM));
      if ret != 0 {
        return;
      }
      ret := SendByte(Data(address));
      if ret != 0 {
        return;
      }
      ret := SendByte(Data(value));
    }
  }
}
