/** smu_send_command of ugreen/ryzen-smu-amkillam/smu.c as one caller runs it: two polling
    loops share one unsigned 32-bit budget, and each loop tests the budget with a
    post-decrement, so a loop that runs dry leaves the budget at 2^32 - 1 and not at 0. */
module SmuCommand {
  import opened Words

  const OK: u32 := 0x01
  const COMMAND_TIMEOUT: u32 := 0xFB
  const UNSUPPORTED: u32 := 0xF9
  const PCI_FAILED: u32 := 0xF6
  const MAX_ARGS: nat := 6

  /** The k-th read of the RSP register gives a word, or fails on the PCI bus. */
  type RspReads = nat -> Option<u32>

  /** Registers of the three mailboxes; 0 stands for an undefined one. */
  datatype Mailbox = Mailbox(cmd: u32, rsp: u32, args: u32)

  /** The SMN accesses one command makes, in order. */
  datatype Action =
    | PollRsp
    | ClearRsp
    | WriteArg(i: nat, value: u32)
    | WriteCmd(op: u32)
    | ReadArg(i: nat)

  // ---------- The polling loop ----------

  /** The condition of both loops, `tmp == 0 && retries--`: whether to go on, and the
      budget afterwards. */
  function PollTest(tmp: u32, retries: u32): (bool, u32) {
    if tmp != 0 then (false, retries)
    else if retries == 0 then (false, U32_MAX)
    else (true, retries - 1)
  }

  /** How a loop ends: `next` is the index of the first RSP read after it. */
  datatype Polled = Polled(tmp: Option<u32>, retries: u32, next: nat)

  function PollLoop(rsp: RspReads, k: nat, retries: u32): (w: Polled)
    ensures w.next > k
    decreases retries
  {
    match rsp(k)
    case None => Polled(None, retries, k + 1)
    case Some(tmp) =>
      var (more, left) := PollTest(tmp, retries);
      if more then PollLoop(rsp, k + 1, left) else Polled(Some(tmp), left, k + 1)
  }

  /** RSP reads as 0 from the k-th read up to, but not including, the j-th. */
  ghost predicate Quiet(rsp: RspReads, k: nat, j: nat) {
    forall i: nat :: k <= i < j ==> rsp(i) == Some(0)
  }

  /** The first read from the k-th on that is not 0 is the j-th, within the budget. */
  ghost predicate AnswersAt(rsp: RspReads, k: nat, budget: u32, j: nat) {
    k <= j <= k + budget && Quiet(rsp, k, j) && rsp(j) != Some(0)
  }

  /** Every read the budget allows gives 0. */
  ghost predicate Silent(rsp: RspReads, k: nat, budget: u32) {
    Quiet(rsp, k, k + budget + 1)
  }

  lemma {:induction false} PollLoopSilent(rsp: RspReads, k: nat, budget: u32)
    requires Silent(rsp, k, budget)
    ensures PollLoop(rsp, k, budget) == Polled(Some(0), U32_MAX, k + budget + 1)
    decreases budget
  {
    assert rsp(k) == Some(0);
    if budget == 0 {
    } else {
      PollLoopSilent(rsp, k + 1, budget - 1);
    }
  }

  lemma {:induction false} PollLoopAnswered(rsp: RspReads, k: nat, budget: u32, j: nat)
    requires AnswersAt(rsp, k, budget, j)
    ensures PollLoop(rsp, k, budget) == Polled(rsp(j), budget - (j - k), j + 1)
    decreases budget
  {
    if k == j {
    } else {
      assert rsp(k) == Some(0);
      PollLoopAnswered(rsp, k + 1, budget - 1, j);
    }
  }

  /** A wait is either silent or answered, and answered at one read only. */
  lemma {:induction false} SilentOrAnswered(rsp: RspReads, k: nat, budget: u32)
    ensures !Silent(rsp, k, budget) <==> exists j: nat :: AnswersAt(rsp, k, budget, j)
    decreases budget
  {
    if rsp(k) != Some(0) {
      assert AnswersAt(rsp, k, budget, k);
    } else if budget == 0 {
    } else {
      SilentOrAnswered(rsp, k + 1, budget - 1);
      if !Silent(rsp, k, budget) {
        var j: nat :| AnswersAt(rsp, k + 1, budget - 1, j);
        assert AnswersAt(rsp, k, budget, j);
      }
    }
  }

  // ---------- The command ----------

  /** The return code, the number of RSP reads of each wait, and whether the command was
      issued and its arguments read back. */
  datatype Sent = Sent(ret: u32, polls1: nat, polls2: nat, issued: bool, readBack: bool)

  function Send(rsp: RspReads, attempts: u32): Sent {
    var w1 := PollLoop(rsp, 0, attempts);
    if w1.tmp.None? then Sent(PCI_FAILED, w1.next, 0, false, false)
    else if w1.retries == 0 && w1.tmp.value == 0 then Sent(COMMAND_TIMEOUT, w1.next, 0, false, false)
    else
      var w2 := PollLoop(rsp, w1.next, w1.retries);
      Sent(Judge(w2), w1.next, w2.next - w1.next, true, Judge(w2) == OK)
  }

  /** The code made of the second wait. */
  function Judge(w: Polled): u32 {
    if w.tmp.None? then PCI_FAILED
    else if w.tmp.value != OK && w.retries == 0 then (if w.tmp.value == 0 then COMMAND_TIMEOUT else w.tmp.value)
    else OK
  }

  /** What the second wait makes of the command, when it starts at the k-th read with the
      given budget: silence counts as success, and an answer other than OK counts only if
      it is the last one the budget allows. */
  ghost predicate Verdict(rsp: RspReads, k: nat, budget: u32, ret: u32) {
    && (Silent(rsp, k, budget) ==> ret == OK)
    && (forall j: nat :: AnswersAt(rsp, k, budget, j) ==>
          ret == match rsp(j)
                 case None => PCI_FAILED
                 case Some(v) => if v != OK && j == k + budget then v else OK)
  }

  lemma VerdictOf(rsp: RspReads, k: nat, budget: u32, attempts: u32)
    requires var w1 := PollLoop(rsp, 0, attempts);
             w1.tmp.Some? && !(w1.retries == 0 && w1.tmp.value == 0) && w1.next == k && w1.retries == budget
    ensures Verdict(rsp, k, budget, Send(rsp, attempts).ret)
    ensures Send(rsp, attempts).polls1 == k && Send(rsp, attempts).polls2 <= budget + 1
    ensures Send(rsp, attempts).issued
  {
    SilentOrAnswered(rsp, k, budget);
    if Silent(rsp, k, budget) {
      PollLoopSilent(rsp, k, budget);
    } else {
      var j0: nat :| AnswersAt(rsp, k, budget, j0);
      PollLoopAnswered(rsp, k, budget, j0);
      AnswerUnique(rsp, k, budget, j0);
    }
  }

  lemma AnswerUnique(rsp: RspReads, k: nat, budget: u32, j: nat)
    requires AnswersAt(rsp, k, budget, j)
    ensures forall i: nat :: AnswersAt(rsp, k, budget, i) ==> i == j
    ensures !Silent(rsp, k, budget)
  {
  }

  /** The outcome for every stream of RSP reads whose first wait is answered: a failed read
      ends it at once, and otherwise the second wait has what the first one left, so the
      whole command polls at most attempts + 2 times. */
  lemma OutcomeAfterAnswer(rsp: RspReads, attempts: u32, j: nat)
    requires AnswersAt(rsp, 0, attempts, j)
    ensures var r := Send(rsp, attempts);
            if rsp(j).None? then r.ret == PCI_FAILED && !r.issued && r.polls1 == j + 1 && r.polls2 == 0
            else r.issued && Verdict(rsp, j + 1, attempts - j, r.ret)
    ensures Send(rsp, attempts).polls1 + Send(rsp, attempts).polls2 <= attempts + 2
  {
    PollLoopAnswered(rsp, 0, attempts, j);
    if rsp(j).Some? {
      VerdictOf(rsp, j + 1, attempts - j, attempts);
    }
  }

  /** If the first wait is silent no timeout is noticed: the command is issued over the
      busy mailbox and its own wait has 2^32 reads. */
  lemma OutcomeAfterSilence(rsp: RspReads, attempts: u32)
    requires Silent(rsp, 0, attempts)
    ensures var r := Send(rsp, attempts);
            r.issued && r.polls1 == attempts + 1 && Verdict(rsp, attempts + 1, U32_MAX, r.ret)
  {
    PollLoopSilent(rsp, 0, attempts);
    VerdictOf(rsp, attempts + 1, U32_MAX, attempts);
  }

  /** The timeout code is never the driver's own: when it is returned, the SMU itself
      answered with that word on the last read of the budget. */
  lemma TimeoutNeverReported(rsp: RspReads, attempts: u32)
    ensures var r := Send(rsp, attempts);
            r.ret == COMMAND_TIMEOUT ==>
              r.issued && r.polls2 > 0 && rsp(r.polls1 + r.polls2 - 1) == Some(COMMAND_TIMEOUT)
  {
    PollLoopEnds(rsp, 0, attempts);
    var w1 := PollLoop(rsp, 0, attempts);
    PollLoopEnds(rsp, w1.next, w1.retries);
  }

  /** A loop never ends with a zero answer and a zero budget, the pair both timeout tests look for. */
  lemma {:induction false} PollLoopEnds(rsp: RspReads, k: nat, budget: u32)
    ensures var w := PollLoop(rsp, k, budget);
            && (w.tmp == Some(0) ==> w.retries == U32_MAX)
            && w.next > k && rsp(w.next - 1) == w.tmp
    decreases budget
  {
    if rsp(k) != Some(0) || budget == 0 {
    } else {
      PollLoopEnds(rsp, k + 1, budget - 1);
    }
  }

  // ---------- The intended contract ----------

  /** The same command with the timeout tests the comments describe, on `tmp` alone. */
  function SendIntended(rsp: RspReads, attempts: u32): u32 {
    var w1 := PollLoop(rsp, 0, attempts);
    if w1.tmp.None? then PCI_FAILED
    else if w1.tmp.value == 0 then COMMAND_TIMEOUT
    else
      var w2 := PollLoop(rsp, w1.next, w1.retries);
      if w2.tmp.None? then PCI_FAILED
      else if w2.tmp.value == 0 then COMMAND_TIMEOUT
      else w2.tmp.value
  }

  /** A timeout if either wait stays silent, a PCI failure if either ends in a failed read, and
      otherwise the answer of the second wait as it came. */
  lemma IntendedContract(rsp: RspReads, attempts: u32)
    ensures Silent(rsp, 0, attempts) ==> SendIntended(rsp, attempts) == COMMAND_TIMEOUT
    ensures forall i: nat :: AnswersAt(rsp, 0, attempts, i) && rsp(i).None? ==>
              SendIntended(rsp, attempts) == PCI_FAILED
    ensures forall i: nat :: AnswersAt(rsp, 0, attempts, i) && rsp(i).Some? ==>
              && (Silent(rsp, i + 1, attempts - i) ==> SendIntended(rsp, attempts) == COMMAND_TIMEOUT)
              && forall j: nat :: AnswersAt(rsp, i + 1, attempts - i, j) ==>
                   SendIntended(rsp, attempts) == if rsp(j).None? then PCI_FAILED else rsp(j).value
  {
    if Silent(rsp, 0, attempts) {
      PollLoopSilent(rsp, 0, attempts);
    }
    forall i: nat | AnswersAt(rsp, 0, attempts, i) && rsp(i).None? ensures SendIntended(rsp, attempts) == PCI_FAILED {
      PollLoopAnswered(rsp, 0, attempts, i);
    }
    forall i: nat | AnswersAt(rsp, 0, attempts, i) && rsp(i).Some?
      ensures Silent(rsp, i + 1, attempts - i) ==> SendIntended(rsp, attempts) == COMMAND_TIMEOUT
      ensures forall j: nat :: AnswersAt(rsp, i + 1, attempts - i, j) ==>
                SendIntended(rsp, attempts) == if rsp(j).None? then PCI_FAILED else rsp(j).value
    {
      PollLoopAnswered(rsp, 0, attempts, i);
      if Silent(rsp, i + 1, attempts - i) {
        PollLoopSilent(rsp, i + 1, attempts - i);
      }
      forall j: nat | AnswersAt(rsp, i + 1, attempts - i, j)
        ensures SendIntended(rsp, attempts) == if rsp(j).None? then PCI_FAILED else rsp(j).value
      {
        PollLoopAnswered(rsp, i + 1, attempts - i, j);
      }
    }
  }

  /** Both waits are answered, and the second with OK. */
  ghost predicate AnsweredOk(rsp: RspReads, attempts: u32) {
    exists i: nat, j: nat :: AnswersAt(rsp, 0, attempts, i) && rsp(i).Some?
                      && AnswersAt(rsp, i + 1, attempts - i, j) && rsp(j) == Some(OK)
  }

  /** Intended success is exactly that. */
  lemma IntendedOk(rsp: RspReads, attempts: u32)
    ensures SendIntended(rsp, attempts) == OK <==> AnsweredOk(rsp, attempts)
  {
    IntendedContract(rsp, attempts);
    SilentOrAnswered(rsp, 0, attempts);
    if !Silent(rsp, 0, attempts) {
      var i: nat :| AnswersAt(rsp, 0, attempts, i);
      AnswerUnique(rsp, 0, attempts, i);
      if rsp(i).Some? {
        IntendedSecond(rsp, attempts, i);
      }
    }
  }

  lemma IntendedSecond(rsp: RspReads, attempts: u32, i: nat)
    requires AnswersAt(rsp, 0, attempts, i) && rsp(i).Some?
    ensures SendIntended(rsp, attempts) == OK <==>
              exists j: nat :: AnswersAt(rsp, i + 1, attempts - i, j) && rsp(j) == Some(OK)
  {
    IntendedContract(rsp, attempts);
    SilentOrAnswered(rsp, i + 1, attempts - i);
    if !Silent(rsp, i + 1, attempts - i) {
      var j: nat :| AnswersAt(rsp, i + 1, attempts - i, j);
      AnswerUnique(rsp, i + 1, attempts - i, j);
    }
  }

  /** The second wait ends well without an OK: it is silent, or its answer is another one that
      comes before the last read of the budget. */
  ghost predicate Tolerated(rsp: RspReads, k: nat, budget: u32) {
    || Silent(rsp, k, budget)
    || exists j: nat :: AnswersAt(rsp, k, budget, j) && rsp(j).Some? && rsp(j) != Some(OK) && j < k + budget
  }

  /** The code reports success although the intended contract would not. */
  ghost predicate FalseOk(rsp: RspReads, attempts: u32) {
    if Silent(rsp, 0, attempts) then
      || Tolerated(rsp, attempts + 1, U32_MAX)
      || exists j: nat :: AnswersAt(rsp, attempts + 1, U32_MAX, j) && rsp(j) == Some(OK)
    else
      exists i: nat :: AnswersAt(rsp, 0, attempts, i) && rsp(i).Some? && Tolerated(rsp, i + 1, attempts - i)
  }

  lemma VerdictOk(rsp: RspReads, k: nat, budget: u32, ret: u32)
    requires Verdict(rsp, k, budget, ret)
    ensures ret == OK <==>
              || Tolerated(rsp, k, budget)
              || exists j: nat :: AnswersAt(rsp, k, budget, j) && rsp(j) == Some(OK)
  {
    SilentOrAnswered(rsp, k, budget);
    if !Silent(rsp, k, budget) {
      var j: nat :| AnswersAt(rsp, k, budget, j);
      AnswerUnique(rsp, k, budget, j);
    }
  }

  lemma ToleratedNotOk(rsp: RspReads, k: nat, budget: u32, j: nat)
    requires Tolerated(rsp, k, budget) && AnswersAt(rsp, k, budget, j)
    ensures rsp(j) != Some(OK)
  {
    AnswerUnique(rsp, k, budget, j);
  }

  lemma OkAfterSilence(rsp: RspReads, attempts: u32)
    requires Silent(rsp, 0, attempts)
    ensures Send(rsp, attempts).ret == OK <==> FalseOk(rsp, attempts)
  {
    OutcomeAfterSilence(rsp, attempts);
    VerdictOk(rsp, attempts + 1, U32_MAX, Send(rsp, attempts).ret);
  }

  lemma OkAfterAnswer(rsp: RspReads, attempts: u32, i: nat)
    requires AnswersAt(rsp, 0, attempts, i) && rsp(i).Some?
    ensures Send(rsp, attempts).ret == OK <==>
              || Tolerated(rsp, i + 1, attempts - i)
              || exists j: nat :: AnswersAt(rsp, i + 1, attempts - i, j) && rsp(j) == Some(OK)
  {
    OutcomeAfterAnswer(rsp, attempts, i);
    VerdictOk(rsp, i + 1, attempts - i, Send(rsp, attempts).ret);
  }

  /** With the first answer known, the two predicates are about the second wait. */
  lemma SecondWait(rsp: RspReads, attempts: u32, i: nat)
    requires AnswersAt(rsp, 0, attempts, i) && rsp(i).Some?
    ensures FalseOk(rsp, attempts) <==> Tolerated(rsp, i + 1, attempts - i)
    ensures AnsweredOk(rsp, attempts) <==>
              exists j: nat :: AnswersAt(rsp, i + 1, attempts - i, j) && rsp(j) == Some(OK)
  {
    AnswerUnique(rsp, 0, attempts, i);
  }

  lemma NotBoth(rsp: RspReads, k: nat, budget: u32)
    ensures !(Tolerated(rsp, k, budget) && exists j: nat :: AnswersAt(rsp, k, budget, j) && rsp(j) == Some(OK))
  {
    if Tolerated(rsp, k, budget) {
      forall j: nat | AnswersAt(rsp, k, budget, j) ensures rsp(j) != Some(OK) {
        ToleratedNotOk(rsp, k, budget, j);
      }
    }
  }

  lemma UnansweredFirst(rsp: RspReads, attempts: u32)
    requires Silent(rsp, 0, attempts)
    ensures !AnsweredOk(rsp, attempts)
  {
    SilentOrAnswered(rsp, 0, attempts);
  }

  lemma FailedFirst(rsp: RspReads, attempts: u32, i: nat)
    requires AnswersAt(rsp, 0, attempts, i) && rsp(i).None?
    ensures Send(rsp, attempts).ret == PCI_FAILED && !AnsweredOk(rsp, attempts) && !FalseOk(rsp, attempts)
  {
    AnswerUnique(rsp, 0, attempts, i);
    OutcomeAfterAnswer(rsp, attempts, i);
  }

  /** Success is reported exactly if both waits were answered and the second with OK, or falsely;
      the two exclude each other. */
  lemma OkWhen(rsp: RspReads, attempts: u32)
    ensures Send(rsp, attempts).ret == OK <==> AnsweredOk(rsp, attempts) || FalseOk(rsp, attempts)
    ensures !(AnsweredOk(rsp, attempts) && FalseOk(rsp, attempts))
  {
    SilentOrAnswered(rsp, 0, attempts);
    if Silent(rsp, 0, attempts) {
      OkAfterSilence(rsp, attempts);
      UnansweredFirst(rsp, attempts);
    } else {
      var i: nat :| AnswersAt(rsp, 0, attempts, i);
      if rsp(i).None? {
        FailedFirst(rsp, attempts, i);
      } else {
        OkAfterAnswer(rsp, attempts, i);
        SecondWait(rsp, attempts, i);
        NotBoth(rsp, i + 1, attempts - i);
      }
    }
  }

  lemma ReadsBackWhen(rsp: RspReads, attempts: u32)
    ensures Send(rsp, attempts).readBack <==> Send(rsp, attempts).ret == OK
  {
  }

  /** A free mailbox whose SMU refuses the command at the first look: reported as success. */
  lemma RefusalIsOk(rsp: RspReads, attempts: u32, code: u32)
    requires attempts > 0 && code != 0 && code != OK && rsp(0) == Some(OK) && rsp(1) == Some(code)
    ensures Send(rsp, attempts).ret == OK && !AnsweredOk(rsp, attempts)
  {
    assert AnswersAt(rsp, 0, attempts, 0) && AnswersAt(rsp, 1, attempts, 1);
    SecondWait(rsp, attempts, 0);
    OkAfterAnswer(rsp, attempts, 0);
    AnswerUnique(rsp, 1, attempts, 1);
  }

  /** The reads of a command that the intended contract and the code judge alike. */
  ghost predicate Agreeable(rsp: RspReads, attempts: u32) {
    if Silent(rsp, 0, attempts) then
      exists j: nat :: AnswersAt(rsp, attempts + 1, U32_MAX, j)
                  && j == attempts + 1 + U32_MAX && rsp(j) == Some(COMMAND_TIMEOUT)
    else
      forall i: nat :: AnswersAt(rsp, 0, attempts, i) && rsp(i).Some? ==>
        exists j: nat :: AnswersAt(rsp, i + 1, attempts - i, j)
                    && (rsp(j).None? || rsp(j) == Some(OK) || j == i + 1 + (attempts - i))
  }

  /** The code returns what was intended if and only if the first wait is answered, and the
      second is answered with OK, by a failed read, or on the last read of the budget.  (After
      a silent first wait the two agree only if the SMU's own last answer is the timeout code.) */
  lemma CodeMeetsIntention(rsp: RspReads, attempts: u32)
    ensures Send(rsp, attempts).ret == SendIntended(rsp, attempts) <==> Agreeable(rsp, attempts)
  {
    SilentOrAnswered(rsp, 0, attempts);
    if Silent(rsp, 0, attempts) {
      SilenceMeetsIntention(rsp, attempts);
    } else {
      var i: nat :| AnswersAt(rsp, 0, attempts, i);
      AnswerUnique(rsp, 0, attempts, i);
      AnswerMeetsIntention(rsp, attempts, i);
    }
  }

  lemma SilenceMeetsIntention(rsp: RspReads, attempts: u32)
    requires Silent(rsp, 0, attempts)
    ensures Send(rsp, attempts).ret == SendIntended(rsp, attempts) <==> Agreeable(rsp, attempts)
  {
    IntendedContract(rsp, attempts);
    OutcomeAfterSilence(rsp, attempts);
    SilentOrAnswered(rsp, attempts + 1, U32_MAX);
    if !Silent(rsp, attempts + 1, U32_MAX) {
      var j: nat :| AnswersAt(rsp, attempts + 1, U32_MAX, j);
      AnswerUnique(rsp, attempts + 1, U32_MAX, j);
    }
  }

  lemma AnswerMeetsIntention(rsp: RspReads, attempts: u32, i: nat)
    requires AnswersAt(rsp, 0, attempts, i) && forall k: nat :: AnswersAt(rsp, 0, attempts, k) ==> k == i
    requires !Silent(rsp, 0, attempts)
    ensures Send(rsp, attempts).ret == SendIntended(rsp, attempts) <==> Agreeable(rsp, attempts)
  {
    OutcomeAfterAnswer(rsp, attempts, i);
    if rsp(i).None? {
      PollLoopAnswered(rsp, 0, attempts, i);
    } else {
      IntendedContract(rsp, attempts);
      SilentOrAnswered(rsp, i + 1, attempts - i);
      if !Silent(rsp, i + 1, attempts - i) {
        var j: nat :| AnswersAt(rsp, i + 1, attempts - i, j);
        AnswerUnique(rsp, i + 1, attempts - i, j);
      }
    }
  }

  // ---------- The accesses and the argument block ----------

  function Repeat(n: nat): seq<Action> {
    seq(n, _ => PollRsp)
  }

  function ArgWrites(args: seq<u32>): seq<Action> {
    seq(|args|, i requires 0 <= i < |args| => WriteArg(i, args[i]))
  }

  function ArgReads(n: nat): seq<Action> {
    seq(n, i requires 0 <= i => ReadArg(i))
  }

  function Issue(args: seq<u32>, op: u32): seq<Action> {
    [ClearRsp] + ArgWrites(args) + [WriteCmd(op)]
  }

  function Accesses(r: Sent, args: seq<u32>, op: u32): seq<Action> {
    Repeat(r.polls1)
    + (if r.issued then Issue(args, op) + Repeat(r.polls2) else [])
    + (if r.readBack then ArgReads(MAX_ARGS) else [])
  }

  /** The accesses of a command, one by one: the first wait's polls; then, if it is issued, RSP
      cleared, the six arguments in order, the command word and the second wait's polls; then, if
      it succeeded, the six arguments read in order. */
  lemma AccessAt(r: Sent, args: seq<u32>, op: u32, i: nat)
    requires |args| == 6
    ensures var a := Accesses(r, args, op);
            && |a| == r.polls1 + (if r.issued then 8 + r.polls2 else 0) + (if r.readBack then 6 else 0)
            && (i < r.polls1 ==> a[i] == PollRsp)
            && (r.issued ==>
                  && a[r.polls1] == ClearRsp && a[r.polls1 + 7] == WriteCmd(op)
                  && (i < 6 ==> a[r.polls1 + 1 + i] == WriteArg(i, args[i]))
                  && (i < r.polls2 ==> a[r.polls1 + 8 + i] == PollRsp))
            && (r.issued && r.readBack && i < 6 ==> a[r.polls1 + 8 + r.polls2 + i] == ReadArg(i))
  {
  }

  /** What the i-th argument register reads back as, or a failed read. */
  type ReadBack = nat -> Option<u32>

  function Updated(args: seq<u32>, back: ReadBack): seq<u32> {
    seq(|args|, i requires 0 <= i < |args| => if back(i).Some? then back(i).value else args[i])
  }

  lemma UpdatedAt(args: seq<u32>, back: ReadBack, i: nat)
    requires i < |args|
    ensures |Updated(args, back)| == |args|
    ensures Updated(args, back)[i] == match back(i) case None => args[i] case Some(v) => v
  {
  }

  predicate Undefined(mb: Mailbox) {
    mb.rsp == 0 || mb.cmd == 0 || mb.args == 0
  }

  lemma AccessesSplit(before: seq<Action>, r: Sent, args: seq<u32>, op: u32)
    ensures before + Accesses(r, args, op) ==
              before + Repeat(r.polls1)
              + (if r.issued then Issue(args, op) else []) + (if r.issued then Repeat(r.polls2) else [])
              + (if r.readBack then ArgReads(MAX_ARGS) else [])
  {
  }

  lemma RepeatSnoc(n: nat)
    ensures Repeat(n) + [PollRsp] == Repeat(n + 1)
  {
  }

  /** One command from one caller; `polls` counts the RSP reads made so far and `actions`
      logs the SMN accesses. */
  class Smu {
    const rsp: RspReads
    const back: ReadBack
    var locked: bool
    var polls: nat
    var actions: seq<Action>

    constructor (rsp: RspReads, back: ReadBack)
      ensures this.rsp == rsp && this.back == back && !locked && polls == 0 && actions == []
    {
      this.rsp, this.back, locked, polls, actions := rsp, back, false, 0, [];
    }

    /** Polls RSP until it is not 0 or the budget runs dry. */
    method WaitRsp(budget: u32) returns (tmp: Option<u32>, retries: u32)
      modifies `polls, `actions
      ensures Polled(tmp, retries, polls) == PollLoop(rsp, old(polls), budget)
      ensures polls > old(polls) && actions == old(actions) + Repeat(polls - old(polls))
    {
      retries := budget;
      var more := true;
      tmp := None;
      while more
        invariant polls >= old(polls) && actions == old(actions) + Repeat(polls - old(polls))
        invariant more ==> PollLoop(rsp, old(polls), budget) == PollLoop(rsp, polls, retries)
        invariant !more ==> polls > old(polls) && PollLoop(rsp, old(polls), budget) == Polled(tmp, retries, polls)
        decreases more, retries
      {
        ghost var before := retries;
        tmp := rsp(polls);
        RepeatSnoc(polls - old(polls));
        polls, actions := polls + 1, actions + [PollRsp];
        if tmp.None? {
          more := false;
        } else {
          var (m, left) := PollTest(tmp.value, retries);
          more, retries := m, left;
        }
      }
    }

    method SendCommand(mb: Mailbox, op: u32, args: array<u32>, attempts: u32) returns (ret: u32)
      requires !locked && args.Length == MAX_ARGS && polls == 0
      modifies this, args
      ensures !locked
      ensures mb.rsp == 0 || mb.cmd == 0 || mb.args == 0 ==>
                ret == 0xF9 && args[..] == old(args[..]) && actions == old(actions)
      ensures mb.rsp != 0 && mb.cmd != 0 && mb.args != 0 ==>
                var r := Send(rsp, attempts);
                && ret == r.ret
                && args[..] == (if r.readBack then Updated(old(args[..]), back) else old(args[..]))
                && actions == old(actions) + Accesses(r, old(args[..]), op)
    {
      if mb.rsp == 0 || mb.cmd == 0 || mb.args == 0 {
        return UNSUPPORTED;
      }
      locked := true;
      ghost var r := Send(rsp, attempts);
      var tmp, retries := WaitRsp(attempts);
      AccessesSplit(old(actions), r, old(args[..]), op);
      if tmp.None? {
        locked := false;
        return PCI_FAILED;
      }
      if retries == 0 && tmp.value == 0 {
        locked := false;
        return COMMAND_TIMEOUT;
      }
      ret := Exchange(op, args, retries);
      locked := false;
    }

    /** Issues the command, waits with what is left of the budget, and reads the arguments back. */
    method Exchange(op: u32, args: array<u32>, budget: u32) returns (ret: u32)
      requires args.Length == MAX_ARGS
      modifies `polls, `actions, args
      ensures var w := PollLoop(rsp, old(polls), budget);
              && polls == w.next
              && ret == Judge(w)
              && args[..] == (if Judge(w) == OK then Updated(old(args[..]), back) else old(args[..]))
              && actions == old(actions) + Issue(old(args[..]), op) + Repeat(w.next - old(polls))
                            + (if Judge(w) == OK then ArgReads(MAX_ARGS) else [])
    {
      IssueCommand(args, op);
      var tmp, retries := WaitRsp(budget);
      if tmp.None? {
        return PCI_FAILED;
      }
      if tmp.value != OK && retries == 0 {
        return if tmp.value == 0 then COMMAND_TIMEOUT else tmp.value;
      }
      ReadBackArgs(args);
      return OK;
    }

    method IssueCommand(args: array<u32>, op: u32)
      modifies `actions
      ensures actions == old(actions) + Issue(args[..], op)
    {
      actions := actions + [ClearRsp];
      for i := 0 to args.Length
        invariant actions == old(actions) + [ClearRsp] + ArgWrites(args[..i])
      {
        assert args[..i + 1] == args[..i] + [args[i]];
        actions := actions + [WriteArg(i, args[i])];
        assert ArgWrites(args[..i + 1]) == ArgWrites(args[..i]) + [WriteArg(i, args[i])];
      }
      assert args[..args.Length] == args[..];
      actions := actions + [WriteCmd(op)];
    }

    /** A failed read leaves the argument as it was. */
    method ReadBackArgs(args: array<u32>)
      requires args.Length == MAX_ARGS
      modifies `actions, args
      ensures args[..] == Updated(old(args[..]), back)
      ensures actions == old(actions) + ArgReads(MAX_ARGS)
    {
      for i := 0 to args.Length
        invariant actions == old(actions) + ArgReads(i)
        invariant forall k :: 0 <= k < i ==> args[k] == Updated(old(args[..]), back)[k]
        invariant forall k :: i <= k < args.Length ==> args[k] == old(args[k])
      {
        actions := actions + [ReadArg(i)];
        if back(i).Some? {
          args[i] := back(i).value;
        }
      }
    }
  }
}
