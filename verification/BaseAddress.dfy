/** smu_get_dram_base_address of ugreen/ryzen-smu-amkillam/smu.c: one, two or five mailbox
    commands whose returned arguments make up the base of the PM table.  A command's return
    code does not say whether the SMU answered it, so where the words come from is tracked. */
module BaseAddress {
  import opened Words
  import opened SmuCommand

  const TWO32: u64 := 0x1_0000_0000

  /** How a chip reports its DRAM base: in one 64-bit answer, in one 32-bit answer after a
      request, as two tables with a base each, or not at all. */
  datatype BaseClass = Whole | Requested | TwoTables | NoBase

  /** The RSMU mailbox, the chip's function numbers, and smu_timeout_attempts. */
  datatype Channel = Channel(cls: BaseClass, mb: Mailbox, fn: nat -> u32, attempts: u32)

  /** What one command meets: its RSP reads, and what the argument registers read back as. */
  datatype Command = Command(rsp: RspReads, back: ReadBack)

  /** The commands of one fetch, in order. */
  type Commands = nat -> Command

  /** A command's return code, and its first two arguments afterwards. */
  datatype Answer = Answer(ret: u32, arg0: u32, arg1: u32)

  type Args = a: seq<u32> | |a| == MAX_ARGS witness [0, 0, 0, 0, 0, 0]

  function BaseCommands(cls: BaseClass): nat {
    match cls
    case Whole => 1
    case Requested => 2
    case TwoTables => 5
    case NoBase => 0
  }

  /** The arguments the k-th command is sent with. */
  function SentArgs(cls: BaseClass, k: nat): Args {
    match cls
    case Whole => [1, 1, 0, 0, 0, 0]
    case TwoTables => if k < 3 then [3, 0, 0, 0, 0, 0] else [5, 0, 0, 0, 0, 0]
    case _ => [0, 0, 0, 0, 0, 0]
  }

  function ArgsAfter(ch: Channel, c: Command, sent: Args): Args {
    if !Undefined(ch.mb) && Send(c.rsp, ch.attempts).readBack then Updated(sent, c.back) else sent
  }

  function AnswerOf(ch: Channel, c: Command, sent: Args): Answer {
    var args := ArgsAfter(ch, c, sent);
    Answer(if Undefined(ch.mb) then UNSUPPORTED else Send(c.rsp, ch.attempts).ret, args[0], args[1])
  }

  function Answers(ch: Channel, cmds: Commands): nat -> Answer {
    (k: nat) => AnswerOf(ch, cmds(k), SentArgs(ch.cls, k))
  }

  /** A return code in place of an address when a command fails. */
  function DramBase(ch: Channel, cmds: Commands): u64 {
    var base := Answers(ch, cmds);
    match ch.cls
    case Whole => if base(0).ret != OK then base(0).ret else base(0).arg0 + base(0).arg1 * TWO32
    case Requested =>
      if base(0).ret != OK then base(0).ret
      else if base(1).ret != OK then base(1).ret
      else base(1).arg0
    case TwoTables =>
      if base(0).ret != OK then base(0).ret
      else if base(1).ret != OK then base(1).ret
      else if base(2).ret != OK then base(2).ret
      else if base(3).ret != OK then base(3).ret
      else if base(4).ret != OK then base(4).ret
      else base(4).arg0 * TWO32 + base(1).arg0
    case NoBase => UNSUPPORTED
  }

  lemma UndefinedMailbox(ch: Channel, cmds: Commands)
    requires Undefined(ch.mb)
    ensures DramBase(ch, cmds) == UNSUPPORTED
  {
    var sent := SentArgs(ch.cls, 0);
    assert AnswerOf(ch, cmds(0), sent).ret == UNSUPPORTED;
    assert Answers(ch, cmds)(0) == AnswerOf(ch, cmds(0), sent);
  }

  // ---------- Where the words come from ----------

  /** A word the SMU returned; what an argument register held although the SMU had not answered
      the command, or one before it; the driver's own argument; or a return code. */
  datatype Origin = Reply | Leftover | Own | Code

  datatype Word = Word(value: u32, origin: Origin)

  /** The code of the first command, from the k-th on, that fails. */
  function FirstFailure(ch: Channel, cmds: Commands, k: nat): Option<u32>
    decreases BaseCommands(ch.cls) - k
  {
    if k >= BaseCommands(ch.cls) then None
    else if Answers(ch, cmds)(k).ret != OK then Some(Answers(ch, cmds)(k).ret)
    else FirstFailure(ch, cmds, k + 1)
  }

  /** Every command up to the k-th was answered with OK. */
  ghost predicate AnsweredThrough(ch: Channel, cmds: Commands, k: nat) {
    forall j: nat :: j <= k ==> AnsweredOk(cmds(j).rsp, ch.attempts)
  }

  /** The i-th argument after the k-th command, if none failed. */
  ghost function ArgWord(ch: Channel, cmds: Commands, k: nat, i: nat): Word
    requires i < MAX_ARGS
  {
    match cmds(k).back(i)
    case None => Word(SentArgs(ch.cls, k)[i], Own)
    case Some(v) => Word(v, if AnsweredThrough(ch, cmds, k) then Reply else Leftover)
  }

  /** The words the base is made of, low one first. */
  ghost function BaseWords(ch: Channel, cmds: Commands): seq<Word> {
    match FirstFailure(ch, cmds, 0)
    case Some(code) => [Word(code, Code)]
    case None =>
      match ch.cls
      case Whole => [ArgWord(ch, cmds, 0, 0), ArgWord(ch, cmds, 0, 1)]
      case Requested => [ArgWord(ch, cmds, 1, 0)]
      case TwoTables => [ArgWord(ch, cmds, 1, 0), ArgWord(ch, cmds, 4, 0)]
      case NoBase => [Word(UNSUPPORTED, Code)]
  }

  function ValueOf(words: seq<Word>): u64
    requires 1 <= |words| <= 2
  {
    if |words| == 1 then words[0].value else words[0].value + words[1].value * TWO32
  }

  lemma {:induction false} NoFailure(ch: Channel, cmds: Commands, from: nat)
    requires FirstFailure(ch, cmds, from).None?
    ensures forall k: nat :: from <= k < BaseCommands(ch.cls) ==> Answers(ch, cmds)(k).ret == OK
    decreases BaseCommands(ch.cls) - from
  {
    if from >= BaseCommands(ch.cls) {
    } else {
      NoFailure(ch, cmds, from + 1);
    }
  }

  lemma {:induction false} FailureAt(ch: Channel, cmds: Commands, from: nat) returns (k: nat)
    requires FirstFailure(ch, cmds, from).Some?
    ensures from <= k < BaseCommands(ch.cls)
    ensures Answers(ch, cmds)(k).ret == FirstFailure(ch, cmds, from).value != OK
    ensures forall j: nat :: from <= j < k ==> Answers(ch, cmds)(j).ret == OK
    decreases BaseCommands(ch.cls) - from
  {
    if Answers(ch, cmds)(from).ret != OK {
      k := from;
    } else {
      k := FailureAt(ch, cmds, from + 1);
    }
  }

  /** A command that returned OK has had its arguments read back. */
  lemma OkReadsBack(ch: Channel, cmds: Commands, k: nat)
    requires Answers(ch, cmds)(k).ret == OK
    ensures var a := Answers(ch, cmds)(k);
            !Undefined(ch.mb) && a.arg0 == ArgWord(ch, cmds, k, 0).value && a.arg1 == ArgWord(ch, cmds, k, 1).value
  {
    ReadsBackWhen(cmds(k).rsp, ch.attempts);
  }

  /** The base is the value of its words, on every stream of RSP reads and every read-back. */
  lemma MadeOfWords(ch: Channel, cmds: Commands)
    ensures DramBase(ch, cmds) == ValueOf(BaseWords(ch, cmds))
  {
    if FirstFailure(ch, cmds, 0).Some? {
      var k := FailureAt(ch, cmds, 0);
    } else {
      NoFailure(ch, cmds, 0);
      if ch.cls.Whole? {
        OkReadsBack(ch, cmds, 0);
      } else if ch.cls.Requested? {
        OkReadsBack(ch, cmds, 1);
      } else if ch.cls.TwoTables? {
        OkReadsBack(ch, cmds, 1);
        OkReadsBack(ch, cmds, 4);
      }
    }
  }

  /** The argument registers that hold the base could be read. */
  predicate Collected(ch: Channel, cmds: Commands) {
    match ch.cls
    case Whole => cmds(0).back(0).Some? && cmds(0).back(1).Some?
    case Requested => cmds(1).back(0).Some?
    case TwoTables => cmds(1).back(0).Some? && cmds(4).back(0).Some?
    case NoBase => false
  }

  /** The base is made of what the SMU returned if and only if the SMU answered every command
      with OK and the registers that hold the base could be read.  Otherwise some word is the
      first failing code, a register nobody answered for, or the driver's own argument. */
  lemma GenuineWhen(ch: Channel, cmds: Commands)
    requires !Undefined(ch.mb)
    ensures (forall i :: 0 <= i < |BaseWords(ch, cmds)| ==> BaseWords(ch, cmds)[i].origin == Reply) <==>
              && (forall k: nat :: k < BaseCommands(ch.cls) ==> AnsweredOk(cmds(k).rsp, ch.attempts))
              && Collected(ch, cmds)
  {
    var words := BaseWords(ch, cmds);
    if FirstFailure(ch, cmds, 0).Some? {
      var k := FailureAt(ch, cmds, 0);
      OkWhen(cmds(k).rsp, ch.attempts);
      assert words[0].origin == Code;
    } else if ch.cls.NoBase? {
      assert words[0].origin == Code;
    } else {
      var last := BaseCommands(ch.cls) - 1;
      assert AnsweredThrough(ch, cmds, last) <==>
             forall k: nat :: k < BaseCommands(ch.cls) ==> AnsweredOk(cmds(k).rsp, ch.attempts);
      assert words[0].origin == Reply && words[|words| - 1].origin == Reply <==>
             AnsweredThrough(ch, cmds, last) && Collected(ch, cmds);
      assert 1 <= |words| <= 2;
    }
  }

  // ---------- The commands as they stand ----------

  method SmuArgsInit(args: array<u32>, value: u32)
    requires args.Length == MAX_ARGS
    modifies args
    ensures args[..] == [value, 0, 0, 0, 0, 0]
  {
    args[0] := value;
    for i := 1 to args.Length
      invariant args[0] == value && forall k :: 1 <= k < i ==> args[k] == 0
    {
      args[i] := 0;
    }
  }

  /** One command over the argument block, in place; `made` is its list of SMN accesses. */
  method SendOne(ch: Channel, c: Command, op: u32, args: array<u32>) returns (ret: u32, made: seq<Action>)
    requires args.Length == MAX_ARGS
    modifies args
    ensures args[..] == ArgsAfter(ch, c, old(args[..]))
    ensures Answer(ret, args[0], args[1]) == AnswerOf(ch, c, old(args[..]))
    ensures made == AccessesOf(ch, c, op, old(args[..]))
  {
    var smu := new Smu(c.rsp, c.back);
    ret := smu.SendCommand(ch.mb, op, args, ch.attempts);
    made := smu.actions;
  }

  function AccessesOf(ch: Channel, c: Command, op: u32, args: Args): seq<Action> {
    if ch.mb.rsp == 0 || ch.mb.cmd == 0 || ch.mb.args == 0 then []
    else Accesses(Send(c.rsp, ch.attempts), args, op)
  }

  /** The function number and the first two arguments of each command, the other four being 0:
      which of fn[0] to fn[2] asks for what. */
  function Script(ch: Channel): seq<(u32, u32, u32)> {
    match ch.cls
    case Whole => [(ch.fn(0), 1, 1)]
    case Requested => [(ch.fn(0), 0, 0), (ch.fn(1), 0, 0)]
    case TwoTables => [(ch.fn(0), 3, 0), (ch.fn(2), 3, 0), (ch.fn(1), 3, 0), (ch.fn(0), 5, 0), (ch.fn(2), 5, 0)]
    case NoBase => []
  }

  /** The accesses of the k-th command of the script. */
  function Made(ch: Channel, cmds: Commands, k: nat): seq<Action>
    requires k < |Script(ch)|
  {
    var (op, arg0, arg1) := Script(ch)[k];
    AccessesOf(ch, cmds(k), op, [arg0, arg1, 0, 0, 0, 0])
  }

  /** The accesses of the commands of a fetch follow the script, up to the first that fails. */
  ghost predicate Follows(ch: Channel, cmds: Commands, log: seq<seq<Action>>) {
    && |log| <= |Script(ch)|
    && (forall k: nat :: k < |log| ==> log[k] == Made(ch, cmds, k))
    && (forall k: nat :: k < |log| - 1 ==> Answers(ch, cmds)(k).ret == 1)
    && (|log| < |Script(ch)| ==> log != [] && Answers(ch, cmds)(|log| - 1).ret != 1)
  }

  /** One command of the script. */
  method SendNext(ch: Channel, cmds: Commands, k: nat, op: u32, args: array<u32>)
    returns (ret: u32, made: seq<Action>)
    requires args.Length == MAX_ARGS && k < |Script(ch)| && args[..] == SentArgs(ch.cls, k)
    requires op == Script(ch)[k].0 && SentArgs(ch.cls, k) == [Script(ch)[k].1, Script(ch)[k].2, 0, 0, 0, 0]
    modifies args
    ensures Answer(ret, args[0], args[1]) == Answers(ch, cmds)(k) && made == Made(ch, cmds, k)
  {
    ret, made := SendOne(ch, cmds(k), op, args);
  }

  method SmuGetDramBaseAddress(ch: Channel, cmds: Commands) returns (base: u64, log: seq<seq<Action>>)
    ensures base == DramBase(ch, cmds)
    ensures Follows(ch, cmds, log)
  {
    var args := new u32[MAX_ARGS];
    SmuArgsInit(args, 0);
    match ch.cls {
      case Whole =>
        args[0], args[1] := 1, 1;
        assert args[..] == [1, 1, 0, 0, 0, 0];
        var ret, made := SendNext(ch, cmds, 0, ch.fn(0), args);
        return if ret != OK then ret else args[0] + args[1] * TWO32, [made];
      case Requested =>
        var ret, made0 := SendNext(ch, cmds, 0, ch.fn(0), args);
        if ret != OK {
          return ret, [made0];
        }
        SmuArgsInit(args, 0);
        var made1;
        ret, made1 := SendNext(ch, cmds, 1, ch.fn(1), args);
        return if ret != OK then ret else args[0], [made0, made1];
      case TwoTables =>
        base, log := TwoParts(ch, cmds, args);
      case NoBase =>
        base, log := UNSUPPORTED, [];
    }
  }

  /** Every command of the log so far has succeeded. */
  ghost predicate SoFar(ch: Channel, cmds: Commands, log: seq<seq<Action>>) {
    && |log| <= |Script(ch)|
    && forall k: nat :: k < |log| ==> log[k] == Made(ch, cmds, k) && Answers(ch, cmds)(k).ret == 1
  }

  lemma GoesOn(ch: Channel, cmds: Commands, log: seq<seq<Action>>, made: seq<Action>)
    requires SoFar(ch, cmds, log) && |log| < |Script(ch)| && made == Made(ch, cmds, |log|)
    ensures Answers(ch, cmds)(|log|).ret == 1 ==> SoFar(ch, cmds, log + [made])
    ensures Answers(ch, cmds)(|log|).ret != 1 || |log| + 1 == |Script(ch)| ==> Follows(ch, cmds, log + [made])
  {
  }

  method TwoParts(ch: Channel, cmds: Commands, args: array<u32>) returns (base: u64, log: seq<seq<Action>>)
    requires ch.cls == TwoTables && args.Length == MAX_ARGS && args[..] == [0, 0, 0, 0, 0, 0]
    modifies args
    ensures base == DramBase(ch, cmds)
    ensures Follows(ch, cmds, log)
  {
    log := [];
    var ret: u32, low: u32;
    ret, low, log := PartOne(ch, cmds, args);
    if ret != OK {
      return ret, log;
    }
    var high: u32;
    ret, high, log := PartTwo(ch, cmds, args, log);
    base := if ret != OK then ret else high * TWO32 + low;
  }

  /** The first two commands, both with 3 for an argument. */
  method PartOne(ch: Channel, cmds: Commands, args: array<u32>)
    returns (ret: u32, low: u32, log: seq<seq<Action>>)
    requires ch.cls == TwoTables && args.Length == MAX_ARGS && args[..] == [0, 0, 0, 0, 0, 0]
    modifies args
    ensures ret == OK ==> |log| == 2 && SoFar(ch, cmds, log) && low == Answers(ch, cmds)(1).arg0
    ensures ret != OK ==> ret == DramBase(ch, cmds) && Follows(ch, cmds, log)
  {
    args[0] := 3;
    assert args[..] == [3, 0, 0, 0, 0, 0];
    var made;
    ret, made := SendNext(ch, cmds, 0, ch.fn(0), args);
    GoesOn(ch, cmds, [], made);
    log, low := [] + [made], args[0];
    if ret != OK {
      return;
    }
    SmuArgsInit(args, 3);
    ret, made := SendNext(ch, cmds, 1, ch.fn(2), args);
    GoesOn(ch, cmds, log, made);
    log, low := log + [made], args[0];
  }

  /** The other three. */
  method PartTwo(ch: Channel, cmds: Commands, args: array<u32>, before: seq<seq<Action>>)
    returns (ret: u32, high: u32, log: seq<seq<Action>>)
    requires ch.cls == TwoTables && args.Length == MAX_ARGS && |before| == 2 && SoFar(ch, cmds, before)
    modifies args
    ensures Follows(ch, cmds, log)
    ensures if ret == OK then DramBase(ch, cmds) == high * TWO32 + Answers(ch, cmds)(1).arg0
            else DramBase(ch, cmds) == ret
  {
    assert Answers(ch, cmds)(0).ret == OK && Answers(ch, cmds)(1).ret == OK;
    var made;
    SmuArgsInit(args, 3);
    ret, made := SendNext(ch, cmds, 2, ch.fn(1), args);
    GoesOn(ch, cmds, before, made);
    log, high := before + [made], args[0];
    if ret != OK {
      return;
    }
    SmuArgsInit(args, 5);
    ret, made := SendNext(ch, cmds, 3, ch.fn(0), args);
    GoesOn(ch, cmds, log, made);
    log, high := log + [made], args[0];
    if ret != OK {
      return;
    }
    SmuArgsInit(args, 5);
    ret, made := SendNext(ch, cmds, 4, ch.fn(2), args);
    GoesOn(ch, cmds, log, made);
    log, high := log + [made], args[0];
  }

  // ---------- Commands to order ----------

  /** A command that the SMU answers at once with OK and these two arguments. */
  function Obliging(arg0: u32, arg1: u32): Command {
    Command(_ => Some(OK), i => Some(if i == 0 then arg0 else if i == 1 then arg1 else 0))
  }

  lemma ObligingAnswers(ch: Channel, arg0: u32, arg1: u32, sent: Args)
    requires !Undefined(ch.mb)
    ensures AnswerOf(ch, Obliging(arg0, arg1), sent) == Answer(OK, arg0, arg1)
  {
    var rsp := Obliging(arg0, arg1).rsp;
    assert PollLoop(rsp, 0, ch.attempts) == Polled(Some(OK), ch.attempts, 1);
    assert PollLoop(rsp, 1, ch.attempts) == Polled(Some(OK), ch.attempts, 2);
  }

  /** A command that the SMU answers with a code, as late as the budget allows. */
  function Failing(ch: Channel, code: u32): Command {
    Command(k => Some(if k == 0 then OK else if k == 1 + ch.attempts then code else 0), _ => None)
  }

  lemma FailingAnswers(ch: Channel, code: u32, sent: Args)
    requires !Undefined(ch.mb) && code != 0 && code != OK
    ensures AnswerOf(ch, Failing(ch, code), sent).ret == code
  {
    var rsp := Failing(ch, code).rsp;
    assert AnswersAt(rsp, 0, ch.attempts, 0);
    assert AnswersAt(rsp, 1, ch.attempts, 1 + ch.attempts);
    OutcomeAfterAnswer(rsp, ch.attempts, 0);
  }

  /** A command that the SMU refuses at once, while the argument registers keep what the driver
      wrote into them. */
  function Refused(cls: BaseClass, k: nat, code: u32): Command {
    Command(j => Some(if j == 0 then OK else code), (i: nat) => Some(if i < MAX_ARGS then SentArgs(cls, k)[i] else 0))
  }

  lemma RefusedAnswers(ch: Channel, k: nat, code: u32)
    requires !Undefined(ch.mb) && ch.attempts > 0 && code != 0 && code != OK
    ensures var c, sent := Refused(ch.cls, k, code), SentArgs(ch.cls, k);
            AnswerOf(ch, c, sent) == Answer(OK, sent[0], sent[1]) && !AnsweredOk(c.rsp, ch.attempts)
  {
    var c := Refused(ch.cls, k, code);
    RefusalIsOk(c.rsp, ch.attempts, code);
    ReadsBackWhen(c.rsp, ch.attempts);
  }
}
