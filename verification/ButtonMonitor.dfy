/** The button monitor of ugreen/ug_gpio_btn.c: every 50 ms it samples two GPIO pins, counts
    how long each button has been active and reports key events from the count. */
module ButtonMonitor {

  const KEY_F20: int := 190
  const KEY_F24: int := 194
  const SEEN_MAX: nat := 1200
  const RESET_TICKS: nat := 260
  const POWER_TICKS: nat := 100

  /** A key event: the key's code and its new value. */
  datatype Event = Event(code: int, value: int)

  /** `mapped` says whether the register could be mapped; `pin` values are 0 and 1. */
  datatype Button = Button(code: int, active: int, mapped: bool, seen: nat, prestate: int, lastReport: int)

  predicate Pin(v: int) {
    v == 0 || v == 1
  }

  /** The count at which the power key is reported: the DXP2800 GT waits for five seconds. */
  function PowerAt(gt: bool): nat {
    if gt then POWER_TICKS else 1
  }

  // ---------- One tick ----------

  /** What the switch statement reports for a button, and the value it reports. */
  function Report(b: Button, val: int, gt: bool): seq<Event> {
    if val == b.active then
      if b.seen >= SEEN_MAX then []
      else if b.code == KEY_F24 then (if b.seen + 1 == RESET_TICKS then [Event(KEY_F24, 1)] else [])
      else if b.code == KEY_F20 then (if b.seen + 1 == PowerAt(gt) then [Event(KEY_F20, 1)] else [])
      else []
    else if b.code == KEY_F24 then (if b.seen > RESET_TICKS then [Event(KEY_F24, 0)] else [])
    else (if b.seen >= POWER_TICKS && val != b.prestate then [Event(b.code, 0)] else [])
  }

  function Tick(b: Button, val: int, gt: bool): Button {
    if !b.mapped then b
    else
      var r := Report(b, val, gt);
      b.(seen := if val != b.active then 0 else if b.seen < SEEN_MAX then b.seen + 1 else b.seen,
         prestate := val,
         lastReport := if r == [] then b.lastReport else r[0].value)
  }

  function Emit(b: Button, val: int, gt: bool): seq<Event> {
    if b.mapped then Report(b, val, gt) else []
  }

  /** The button after a sequence of samples, and everything it reported. */
  function After(b: Button, vals: seq<int>, gt: bool): Button {
    if vals == [] then b else Tick(After(b, vals[..|vals| - 1], gt), vals[|vals| - 1], gt)
  }

  function Trace(b: Button, vals: seq<int>, gt: bool): seq<Event> {
    if vals == [] then []
    else
      var n := |vals| - 1;
      Trace(b, vals[..n], gt) + Emit(After(b, vals[..n], gt), vals[n], gt)
  }

  // ---------- Presses ----------

  /** The presses in a sequence of samples: the lengths of the completed ones, oldest first,
      and the length of the one still going on, 0 if there is none. */
  datatype Presses = Presses(done: seq<nat>, current: nat)

  function PressesOf(vals: seq<int>, active: int): Presses {
    if vals == [] then Presses([], 0)
    else
      var p := PressesOf(vals[..|vals| - 1], active);
      if vals[|vals| - 1] == active then p.(current := p.current + 1)
      else if p.current > 0 then Presses(p.done + [p.current], 0)
      else p
  }

  /** The count from which a press is reported, and the count from which its end is. */
  function PressAt(code: int, gt: bool): nat {
    if code == KEY_F24 then RESET_TICKS else PowerAt(gt)
  }

  function ReleaseAt(code: int): nat {
    if code == KEY_F24 then RESET_TICKS + 1 else POWER_TICKS
  }

  function PressEvent(code: int, n: nat, gt: bool): seq<Event> {
    if n >= PressAt(code, gt) then [Event(code, 1)] else []
  }

  function ReleaseEvent(code: int, n: nat): seq<Event> {
    if n >= ReleaseAt(code) then [Event(code, 0)] else []
  }

  function DoneEvents(code: int, done: seq<nat>, gt: bool): seq<Event> {
    if done == [] then []
    else
      var n := |done| - 1;
      DoneEvents(code, done[..n], gt) + PressEvent(code, done[n], gt) + ReleaseEvent(code, done[n])
  }

  /** Press by press: one 1 if it was long enough, one 0 at its end if it was. */
  function Expected(code: int, p: Presses, gt: bool): seq<Event> {
    DoneEvents(code, p.done, gt) + PressEvent(code, p.current, gt)
  }

  /** The lengths that count, in ticks: the reset key is reported from 260 and its end from 261; the
      power key from the first tick, or from 100 on the DXP2800 GT, and its end from 100. */
  lemma Thresholds(n: nat, gt: bool)
    ensures PressEvent(194, n, gt) == if n >= 260 then [Event(194, 1)] else []
    ensures ReleaseEvent(194, n) == if n >= 261 then [Event(194, 0)] else []
    ensures PressEvent(190, n, gt) == if n >= (if gt then 100 else 1) then [Event(190, 1)] else []
    ensures ReleaseEvent(190, n) == if n >= 100 then [Event(190, 0)] else []
  {
  }

  predicate Fresh(b: Button) {
    b.mapped && b.seen == 0 && (b.code == KEY_F20 || b.code == KEY_F24) && Pin(b.active)
  }

  function Min(a: nat, b: nat): nat {
    if a < b then a else b
  }

  lemma {:induction false} SeenIs(b: Button, vals: seq<int>, gt: bool)
    requires Fresh(b) && forall k :: 0 <= k < |vals| ==> Pin(vals[k])
    ensures var b', p := After(b, vals, gt), PressesOf(vals, b.active);
            && b'.seen == Min(p.current, SEEN_MAX)
            && b'.code == b.code && b'.active == b.active && b'.mapped
            && (p.current > 0 ==> b'.prestate == b.active)
    decreases |vals|
  {
    if vals == [] {
    } else {
      SeenIs(b, vals[..|vals| - 1], gt);
    }
  }

  lemma {:induction false} TraceIs(b: Button, vals: seq<int>, gt: bool)
    requires Fresh(b) && forall k :: 0 <= k < |vals| ==> Pin(vals[k])
    ensures Trace(b, vals, gt) == Expected(b.code, PressesOf(vals, b.active), gt)
    decreases |vals|
  {
    if vals == [] {
    } else {
      var n := |vals| - 1;
      var p, q := PressesOf(vals[..n], b.active), PressesOf(vals, b.active);
      TraceIs(b, vals[..n], gt);
      SeenIs(b, vals[..n], gt);
      if vals[n] != b.active && p.current > 0 {
        assert q.done[..|p.done|] == p.done;
      }
    }
  }

  /** For every sequence of samples the count is the length of the current press, up to 1200,
      and the events are those of the presses: nothing else, nothing twice, in order. */
  lemma TraceOfPresses(b: Button, vals: seq<int>, gt: bool)
    requires Fresh(b) && forall k :: 0 <= k < |vals| ==> Pin(vals[k])
    ensures After(b, vals, gt).seen == Min(PressesOf(vals, b.active).current, SEEN_MAX)
    ensures Trace(b, vals, gt) == Expected(b.code, PressesOf(vals, b.active), gt)
  {
    SeenIs(b, vals, gt);
    TraceIs(b, vals, gt);
  }

  lemma LastAfterTick(b: Button, val: int, gt: bool, t: seq<Event>, first: int)
    requires b.lastReport == if t == [] then first else t[|t| - 1].value
    ensures var t' := t + Emit(b, val, gt);
            Tick(b, val, gt).lastReport == if t' == [] then first else t'[|t'| - 1].value
  {
    assert |Emit(b, val, gt)| <= 1;
  }

  /** The value last reported is that of the last event. */
  lemma {:induction false} LastReportIs(b: Button, vals: seq<int>, gt: bool)
    ensures var t := Trace(b, vals, gt);
            After(b, vals, gt).lastReport == if t == [] then b.lastReport else t[|t| - 1].value
    decreases |vals|
  {
    if vals == [] {
    } else {
      var n := |vals| - 1;
      LastReportIs(b, vals[..n], gt);
      LastAfterTick(After(b, vals[..n], gt), vals[n], gt, Trace(b, vals[..n], gt), b.lastReport);
    }
  }

  /** A button whose register could not be mapped reports nothing and stays as it is. */
  lemma {:induction false} UnmappedIsSilent(b: Button, vals: seq<int>, gt: bool)
    requires !b.mapped
    ensures Trace(b, vals, gt) == [] && After(b, vals, gt) == b
    decreases |vals|
  {
    if vals == [] {
    } else {
      UnmappedIsSilent(b, vals[..|vals| - 1], gt);
    }
  }

  // ---------- Pairing ----------

  /** Every 0 comes directly after a 1: the one of the same press. */
  predicate NoStrayRelease(t: seq<Event>) {
    forall i :: 0 <= i < |t| && t[i].value == 0 ==> i > 0 && t[i - 1].value == 1
  }

  lemma {:induction false} DoneNoStray(code: int, done: seq<nat>, gt: bool)
    ensures NoStrayRelease(DoneEvents(code, done, gt))
    decreases |done|
  {
    if done == [] {
    } else {
      DoneNoStray(code, done[..|done| - 1], gt);
    }
  }

  lemma ReleaseFollowsPress(b: Button, vals: seq<int>, gt: bool)
    requires Fresh(b) && forall k :: 0 <= k < |vals| ==> Pin(vals[k])
    ensures NoStrayRelease(Trace(b, vals, gt))
  {
    TraceIs(b, vals, gt);
    DoneNoStray(b.code, PressesOf(vals, b.active).done, gt);
  }

  function CountOf(t: seq<Event>, value: int): nat {
    if t == [] then 0 else CountOf(t[..|t| - 1], value) + (if t[|t| - 1].value == value then 1 else 0)
  }

  lemma {:induction false} CountConcat(s: seq<Event>, t: seq<Event>, value: int)
    ensures CountOf(s + t, value) == CountOf(s, value) + CountOf(t, value)
    decreases |t|
  {
    if t == [] {
      assert s + t == s;
    } else {
      var n := |t| - 1;
      assert (s + t)[..|s| + n] == s + t[..n];
      CountConcat(s, t[..n], value);
    }
  }

  /** A press that is reported and whose end is not. */
  predicate Unpaired(code: int, n: nat, gt: bool) {
    PressAt(code, gt) <= n < ReleaseAt(code)
  }

  lemma CountsOfPress(t: seq<Event>, code: int, gt: bool, n: nat)
    ensures var t' := t + PressEvent(code, n, gt) + ReleaseEvent(code, n);
            && CountOf(t', 1) == CountOf(t, 1) + (if n >= PressAt(code, gt) then 1 else 0)
            && CountOf(t', 0) == CountOf(t, 0) + (if n >= ReleaseAt(code) then 1 else 0)
  {
    var press, release := PressEvent(code, n, gt), ReleaseEvent(code, n);
    CountConcat(t + press, release, 0);
    CountConcat(t + press, release, 1);
    CountConcat(t, press, 0);
    CountConcat(t, press, 1);
    OneEvent(press, release, code, gt, n);
  }

  predicate NoneUnpaired(code: int, done: seq<nat>, gt: bool) {
    forall k :: 0 <= k < |done| ==> !Unpaired(code, done[k], gt)
  }

  lemma NoneUnpairedSnoc(code: int, done: seq<nat>, gt: bool, n: nat)
    ensures NoneUnpaired(code, done + [n], gt) <==> NoneUnpaired(code, done, gt) && !Unpaired(code, n, gt)
  {
    var all := done + [n];
    assert forall k :: 0 <= k < |done| ==> all[k] == done[k];
    assert all[|done|] == n;
  }

  lemma DoneEventsSnoc(code: int, done: seq<nat>, gt: bool, n: nat)
    ensures DoneEvents(code, done + [n], gt) ==
              DoneEvents(code, done, gt) + PressEvent(code, n, gt) + ReleaseEvent(code, n)
  {
    assert (done + [n])[..|done|] == done;
  }

  lemma {:induction false} DonePaired(code: int, done: seq<nat>, gt: bool)
    ensures var t := DoneEvents(code, done, gt);
            CountOf(t, 0) <= CountOf(t, 1) && (CountOf(t, 1) == CountOf(t, 0) <==> NoneUnpaired(code, done, gt))
    decreases |done|
  {
    if done == [] {
    } else {
      var early, n := done[..|done| - 1], done[|done| - 1];
      assert done == early + [n];
      DonePaired(code, early, gt);
      DoneEventsSnoc(code, early, gt, n);
      CountsOfPress(DoneEvents(code, early, gt), code, gt, n);
      NoneUnpairedSnoc(code, early, gt, n);
    }
  }

  lemma OneEvent(press: seq<Event>, release: seq<Event>, code: int, gt: bool, n: nat)
    requires press == PressEvent(code, n, gt) && release == ReleaseEvent(code, n)
    ensures CountOf(press, 0) == 0 && CountOf(press, 1) == |press|
    ensures CountOf(release, 0) == |release| && CountOf(release, 1) == 0
  {
    if press != [] {
      assert press[..0] == [];
    }
    if release != [] {
      assert release[..0] == [];
    }
  }

  /** Once the button is up, every press reported has its release reported if and only if no
      press ended at a length between the two thresholds: 260 ticks exactly for the reset
      key, fewer than 100 for the power key of all machines but the DXP2800 GT. */
  lemma PairedWhen(b: Button, vals: seq<int>, gt: bool)
    requires Fresh(b) && forall k :: 0 <= k < |vals| ==> Pin(vals[k])
    requires PressesOf(vals, b.active).current == 0
    ensures var t, done := Trace(b, vals, gt), PressesOf(vals, b.active).done;
            CountOf(t, 1) == CountOf(t, 0) <==> NoneUnpaired(b.code, done, gt)
  {
    TraceIs(b, vals, gt);
    var p := PressesOf(vals, b.active);
    DonePaired(b.code, p.done, gt);
    assert DoneEvents(b.code, p.done, gt) + [] == DoneEvents(b.code, p.done, gt);
  }

  // ---------- The timer ----------

  class Monitor {
    const buttons: array<Button>
    const gt: bool
    var log: seq<Event>

    constructor (buttons: array<Button>, gt: bool)
      ensures this.buttons == buttons && this.gt == gt && log == []
    {
      this.buttons, this.gt, log := buttons, gt, [];
    }

    /** One run of the timer: samples every mapped button and reports to the input device. */
    method BtnMonitor(vals: seq<int>)
      requires |vals| == buttons.Length
      modifies this, buttons
      ensures forall i :: 0 <= i < buttons.Length ==> buttons[i] == Tick(old(buttons[i]), vals[i], gt)
      ensures log == old(log) + All(old(buttons[..]), vals, gt)
    {
      ghost var was := buttons[..];
      for i := 0 to buttons.Length
        invariant forall k :: 0 <= k < i ==> buttons[k] == Tick(was[k], vals[k], gt)
        invariant forall k :: i <= k < buttons.Length ==> buttons[k] == was[k]
        invariant log == old(log) + All(was[..i], vals[..i], gt)
      {
        AllPrefix(was, vals, gt, i, old(log));
        Sample(i, vals[i]);
      }
      assert was[..buttons.Length] == was && vals[..buttons.Length] == vals;
    }

    method Sample(i: nat, val: int)
      requires i < buttons.Length
      modifies this, buttons
      ensures buttons[i] == Tick(old(buttons[i]), val, gt)
      ensures forall k :: 0 <= k < buttons.Length && k != i ==> buttons[k] == old(buttons[k])
      ensures log == old(log) + Emit(old(buttons[i]), val, gt)
    {
      var b := buttons[i];
      if !b.mapped {
        return;
      }
      if val == b.active {
        if b.seen < SEEN_MAX {
          buttons[i] := buttons[i].(seen := b.seen + 1);
          if b.code == KEY_F24 {
            if buttons[i].seen == RESET_TICKS {
              ReportKey(i, KEY_F24, 1);
            }
          } else if b.code == KEY_F20 {
            if (buttons[i].seen == 1 && !gt) || (buttons[i].seen == 100 && gt) {
              ReportKey(i, KEY_F20, 1);
            }
          }
        }
      } else {
        if b.code == KEY_F24 {
          if b.seen > RESET_TICKS {
            ReportKey(i, KEY_F24, 0);
          }
        } else {
          if b.seen >= POWER_TICKS && val != b.prestate {
            ReportKey(i, b.code, 0);
          }
        }
        buttons[i] := buttons[i].(seen := 0);
      }
      buttons[i] := buttons[i].(prestate := val);
    }

    method ReportKey(i: nat, code: int, value: int)
      requires i < buttons.Length
      modifies this, buttons
      ensures buttons[..] == old(buttons[..])[i := old(buttons[i]).(lastReport := value)]
      ensures log == old(log) + [Event(code, value)]
    {
      log := log + [Event(code, value)];
      buttons[i] := buttons[i].(lastReport := value);
    }
  }

  lemma AllPrefix(bs: seq<Button>, vals: seq<int>, gt: bool, i: nat, before: seq<Event>)
    requires |bs| == |vals| && i < |bs|
    ensures before + All(bs[..i + 1], vals[..i + 1], gt) ==
              before + All(bs[..i], vals[..i], gt) + Emit(bs[i], vals[i], gt)
  {
    assert bs[..i + 1][..i] == bs[..i] && vals[..i + 1][..i] == vals[..i];
  }

  /** What one tick reports for all buttons, first button first. */
  function All(bs: seq<Button>, vals: seq<int>, gt: bool): seq<Event>
    requires |bs| == |vals|
  {
    if bs == [] then [] else All(bs[..|bs| - 1], vals[..|bs| - 1], gt) + Emit(bs[|bs| - 1], vals[|bs| - 1], gt)
  }
}
