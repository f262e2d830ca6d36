/** The fan-control loop of root/usr/local/sbin/fancontrol.sh.  The exponential of its curve is
    any function that starts at 1, never falls, and has risen by the end of the curve; the
    quotients are exact where `bc` keeps 20 digits. */
module FanControl {

  const MIN_PWM: int := 85
  const MAX_PWM: int := 255
  const T_MIN: real := 80.0
  const T_MAX: real := 140.0
  const HYST: real := 4.0
  const MAX_DROP: int := 4
  const STEEPNESS: real := 0.045
  const SET_FLOOR: int := 145

  type Exp = real -> real

  ghost predicate Curve(e: Exp) {
    && e(0.0) == 1.0
    && e(STEEPNESS * (T_MAX - T_MIN)) > 1.0
    && (forall x, y :: x <= y ==> e(x) <= e(y))
  }

  // ---------- One reading ----------

  /** The unclamped curve. */
  function Raw(e: Exp, t: real): real
    requires e(STEEPNESS * (T_MAX - T_MIN)) > 1.0
  {
    MIN_PWM as real
    + (MAX_PWM - MIN_PWM) as real * (e(STEEPNESS * (t - T_MIN)) - 1.0) / (e(STEEPNESS * (T_MAX - T_MIN)) - 1.0)
  }

  function CalcPwm(e: Exp, t: real): int
    requires e(STEEPNESS * (T_MAX - T_MIN)) > 1.0
  {
    if t <= T_MIN then MIN_PWM
    else if t >= T_MAX then MAX_PWM
    else
      var pwm := Raw(e, t).Floor;
      if pwm < MIN_PWM then MIN_PWM else if pwm > MAX_PWM then MAX_PWM else pwm
  }

  /** LAST_PWM and LAST_TEMP. */
  datatype Last = Last(pwm: int, temp: real)

  function ApplyHysteresis(last: Last, t: real, newPwm: int): int {
    if t > last.temp then newPwm
    else if last.temp - t >= HYST then newPwm
    else last.pwm
  }

  function RateLimitDown(next: int, last: int): int {
    if next < last && last - next > MAX_DROP then last - MAX_DROP else next
  }

  function Cycle(e: Exp, last: Last, t: real): Last
    requires e(STEEPNESS * (T_MAX - T_MIN)) > 1.0
  {
    Last(RateLimitDown(ApplyHysteresis(last, t, CalcPwm(e, t)), last.pwm), t)
  }

  const START: Last := Last(0, 0.0)

  /** The state after each reading, oldest first. */
  function Run(e: Exp, last: Last, temps: seq<real>): (r: seq<Last>)
    requires e(STEEPNESS * (T_MAX - T_MIN)) > 1.0
    ensures |r| == |temps|
    decreases |temps|
  {
    if temps == [] then []
    else var next := Cycle(e, last, temps[0]); [next] + Run(e, next, temps[1..])
  }

  // ---------- The curve ----------

  lemma QuotientMonotone(a: real, b: real, d: real)
    requires a <= b && d > 0.0
    ensures a / d <= b / d
  {
    assert b / d - a / d == (b - a) / d;
  }

  /** The curve stays within its limits and never falls as the temperature rises. */
  lemma CalcMonotone(e: Exp, t: real, u: real)
    requires Curve(e) && t <= u
    ensures MIN_PWM <= CalcPwm(e, t) <= CalcPwm(e, u) <= MAX_PWM
  {
    if T_MIN < t && u < T_MAX {
      var et, eu := e(STEEPNESS * (t - T_MIN)), e(STEEPNESS * (u - T_MIN));
      var d := e(STEEPNESS * (T_MAX - T_MIN)) - 1.0;
      assert et <= eu;
      QuotientMonotone((MAX_PWM - MIN_PWM) as real * (et - 1.0), (MAX_PWM - MIN_PWM) as real * (eu - 1.0), d);
      assert Raw(e, t) <= Raw(e, u);
    }
  }

  /** The speed p keeps 170 times the rise of the exponential so far between p - 85 and p - 84
      times its whole rise. */
  predicate OnPoint(e: Exp, t: real, p: int) {
    Quotient(170.0 * (e(0.045 * (t - 80.0)) - 1.0), e(0.045 * 60.0) - 1.0, p - 85)
  }

  function Times(r: real, d: real): real {
    r * d
  }

  /** n is the whole part of x over d. */
  predicate Quotient(x: real, d: real, n: int) {
    Times(n as real, d) <= x < Times((n + 1) as real, d)
  }

  lemma TimesMonotone(a: real, b: real, d: real)
    requires d > 0.0
    ensures a <= b ==> Times(a, d) <= Times(b, d)
  {
    if a <= b {
      Scale(a, b, d);
    }
  }

  lemma FloorOfQuotient(x: real, d: real, q: int)
    requires d > 0.0 && q == (x / d).Floor
    ensures Quotient(x, d, q)
  {
    var y := x / d;
    assert y * d == x;
    assert q as real <= y < (q + 1) as real;
    Scale(q as real, y, d);
    StrictScale(y, (q + 1) as real, d);
  }

  lemma StrictScale(a: real, b: real, d: real)
    requires a < b && d > 0.0
    ensures a * d < b * d
  {
    assert (b - a) * d > 0.0;
  }

  lemma Scale(a: real, b: real, d: real)
    requires a <= b && d > 0.0
    ensures a * d <= b * d
  {
  }

  lemma OneQuotient(x: real, d: real, p: int, q: int)
    requires d > 0.0 && Quotient(x, d, p) && Quotient(x, d, q)
    ensures p == q
  {
    TimesMonotone((p + 1) as real, q as real, d);
    TimesMonotone((q + 1) as real, p as real, d);
  }

  /** The curve itself: its least speed of 85 up to 80 degrees, 255 from 140, and between them the
      one integer that is on the point of the exponential. */
  lemma CalcIs(e: Exp, t: real, q: int)
    requires Curve(e)
    ensures t <= 80.0 ==> CalcPwm(e, t) == 85
    ensures t >= 140.0 ==> CalcPwm(e, t) == 255
    ensures 80.0 < t < 140.0 ==> OnPoint(e, t, CalcPwm(e, t)) && (OnPoint(e, t, q) ==> q == CalcPwm(e, t))
  {
    if 80.0 < t < 140.0 {
      var d, x := e(0.045 * 60.0) - 1.0, 170.0 * (e(0.045 * (t - 80.0)) - 1.0);
      assert STEEPNESS * (T_MAX - T_MIN) == 0.045 * 60.0 && STEEPNESS * (t - T_MIN) == 0.045 * (t - 80.0);
      var y := x / d;
      assert Raw(e, t) == 85.0 + y;
      assert (85.0 + y).Floor == 85 + y.Floor;
      FloorOfQuotient(x, d, y.Floor);
      BetweenEnds(e, t, x, d, y);
      if OnPoint(e, t, q) {
        OneQuotient(x, d, y.Floor, q - 85);
      }
    }
  }

  lemma Cancel(a: real, d: real)
    requires d > 0.0
    ensures a * d / d == a
  {
    var z := a * d / d;
    assert z * d == a * d;
    assert (z - a) * d == 0.0;
  }

  /** Inside the curve no clamping is needed. */
  lemma BetweenEnds(e: Exp, t: real, x: real, d: real, y: real)
    requires Curve(e) && 80.0 < t < 140.0 && d == e(0.045 * 60.0) - 1.0 > 0.0
    requires x == 170.0 * (e(0.045 * (t - 80.0)) - 1.0) && y == x / d
    ensures 0.0 <= y <= 170.0
  {
    assert e(0.0) <= e(0.045 * (t - 80.0)) <= e(0.045 * 60.0);
    QuotientMonotone(0.0, x, d);
    QuotientMonotone(x, 170.0 * d, d);
    Cancel(170.0, d);
  }

  // ---------- Whole runs ----------

  /** At least as fast as the curve, within limits, and not much slower than before. */
  predicate Safe(e: Exp, before: Last, after: Last)
    requires e(STEEPNESS * (T_MAX - T_MIN)) > 1.0
  {
    && CalcPwm(e, after.temp) <= after.pwm
    && MIN_PWM <= after.pwm <= MAX_PWM
    && before.pwm - MAX_DROP <= after.pwm
  }

  predicate AllSafe(e: Exp, last: Last, states: seq<Last>)
    requires e(STEEPNESS * (T_MAX - T_MIN)) > 1.0
    decreases |states|
  {
    states != [] ==> Safe(e, last, states[0]) && AllSafe(e, states[0], states[1..])
  }

  predicate OnCurve(e: Exp, last: Last)
    requires e(STEEPNESS * (T_MAX - T_MIN)) > 1.0
  {
    CalcPwm(e, last.temp) <= last.pwm <= MAX_PWM
  }

  lemma CycleSafe(e: Exp, last: Last, t: real)
    requires Curve(e) && last.pwm <= MAX_PWM
    requires OnCurve(e, last) || t > last.temp || last.temp - t >= HYST
    ensures Safe(e, last, Cycle(e, last, t)) && OnCurve(e, Cycle(e, last, t))
  {
    CalcMonotone(e, t, t);
    if t <= last.temp {
      CalcMonotone(e, t, last.temp);
    }
  }

  lemma {:induction false} RunSafe(e: Exp, last: Last, temps: seq<real>)
    requires Curve(e) && last.pwm <= MAX_PWM
    requires OnCurve(e, last) || temps == [] || temps[0] > last.temp || last.temp - temps[0] >= HYST
    ensures AllSafe(e, last, Run(e, last, temps))
    decreases |temps|
  {
    if temps == [] {
    } else {
      var next := Cycle(e, last, temps[0]);
      CycleSafe(e, last, temps[0]);
      RunSafe(e, next, temps[1..]);
      assert Run(e, last, temps)[1..] == Run(e, next, temps[1..]);
    }
  }

  /** The fan is never slower than the curve, for any curve and any temperatures, if and only
      if the first reading is above zero or at least four degrees below. */
  lemma NeverSlower(e: Exp, temps: seq<real>)
    requires Curve(e) && temps != []
    ensures AllSafe(e, START, Run(e, START, temps)) <==> temps[0] > 0.0 || temps[0] <= -HYST
  {
    if temps[0] > 0.0 || temps[0] <= -HYST {
      RunSafe(e, START, temps);
    } else {
      var states := Run(e, START, temps);
      assert states[0].pwm == 0;
      assert !Safe(e, START, states[0]);
    }
  }

  lemma {:induction false} FallsSlowly(e: Exp, last: Last, temps: seq<real>, j: nat)
    requires e(STEEPNESS * (T_MAX - T_MIN)) > 1.0 && j < |temps|
    ensures Run(e, last, temps)[j].pwm >= last.pwm - MAX_DROP * (j + 1)
    decreases j
  {
    if j == 0 {
    } else {
      FallsSlowly(e, Cycle(e, last, temps[0]), temps[1..], j - 1);
    }
  }

  /** Over any n cycles of any run, whatever it starts from, the speed falls by at most 4n. */
  lemma {:induction false} SlowFall(e: Exp, last: Last, temps: seq<real>, i: nat, n: nat)
    requires e(STEEPNESS * (T_MAX - T_MIN)) > 1.0 && i + n < |temps|
    ensures var states := Run(e, last, temps); states[i + n].pwm >= states[i].pwm - MAX_DROP * n
    decreases i
  {
    var next := Cycle(e, last, temps[0]);
    if i == 0 {
      if n > 0 {
        FallsSlowly(e, next, temps[1..], n - 1);
      }
    } else {
      SlowFall(e, next, temps[1..], i - 1, n);
    }
  }

  /** A reading that the hysteresis answers with the old speed: it does not rise, and it falls
      by less than four degrees. */
  predicate Drift(before: real, t: real) {
    before - HYST < t <= before
  }

  /** Exactly when a cycle makes the fan slower.  A rise is enough: the hysteresis guards falling
      temperatures only, and the curve may by then be below a speed that drift has held up. */
  lemma SlowsWhen(e: Exp, last: Last, t: real)
    requires e(STEEPNESS * (T_MAX - T_MIN)) > 1.0
    ensures Cycle(e, last, t).pwm < last.pwm <==> !Drift(last.temp, t) && CalcPwm(e, t) < last.pwm
    ensures Cycle(e, last, t).pwm == last.pwm <==> Drift(last.temp, t) || CalcPwm(e, t) == last.pwm
  {
  }

  /** The speed of the next cycle: the old one on a drift; otherwise the curve's, but never more than
      four below the old one. */
  lemma CycleIs(e: Exp, last: Last, t: real)
    requires Curve(e)
    ensures var p := CalcPwm(e, t);
            Cycle(e, last, t) ==
              Last(if last.temp - 4.0 < t <= last.temp then last.pwm
                   else if p >= last.pwm - 4 then p
                   else last.pwm - 4,
                   t)
  {
  }

  /** Readings that fall from `t` in n steps of three degrees. */
  function Down(t: real, n: nat): (r: seq<real>)
    ensures |r| == n
    decreases n
  {
    if n == 0 then [] else [t - 3.0] + Down(t - 3.0, n - 1)
  }

  lemma {:induction false} DownHolds(e: Exp, pwm: int, t: real, n: nat, u: real)
    requires e(STEEPNESS * (T_MAX - T_MIN)) > 1.0
    ensures var states := Run(e, Last(pwm, t), Down(t, n) + [u]);
            && (n > 0 ==> states[n - 1] == Last(pwm, t - 3.0 * n as real))
            && states[n] == Cycle(e, Last(pwm, t - 3.0 * n as real), u)
    decreases n
  {
    var temps := Down(t, n) + [u];
    if n == 0 {
      assert temps == [u];
    } else {
      assert temps[0] == t - 3.0 && temps[1..] == Down(t - 3.0, n - 1) + [u];
      assert Cycle(e, Last(pwm, t), t - 3.0) == Last(pwm, t - 3.0);
      assert t - 3.0 - 3.0 * (n - 1) as real == t - 3.0 * n as real;
      DownHolds(e, pwm, t - 3.0, n - 1, u);
    }
  }

  /** A run from the start in which a rise slows the fan: heated to 140, cooled to 77 in steps of
      three that hold the speed at 255, and then one degree up. */
  lemma SlowedByRise(e: Exp)
    requires e(STEEPNESS * (T_MAX - T_MIN)) > 1.0
    ensures var states := Run(e, START, [140.0] + (Down(140.0, 21) + [78.0]));
            states[21] == Last(255, 77.0) && states[22] == Last(251, 78.0)
  {
    var temps := [140.0] + (Down(140.0, 21) + [78.0]);
    assert temps[0] == 140.0 && temps[1..] == Down(140.0, 21) + [78.0];
    assert Cycle(e, START, 140.0) == Last(255, 140.0);
    DownHolds(e, 255, 140.0, 21, 78.0);
  }

  /** Each reading is a drift, or one whose curve is the present speed. */
  predicate Holding(e: Exp, last: Last, temps: seq<real>)
    requires e(STEEPNESS * (T_MAX - T_MIN)) > 1.0
    decreases |temps|
  {
    temps != [] ==>
      && (Drift(last.temp, temps[0]) || CalcPwm(e, temps[0]) == last.pwm)
      && Holding(e, Last(last.pwm, temps[0]), temps[1..])
  }

  predicate Steady(states: seq<Last>, pwm: int) {
    forall k :: 0 <= k < |states| ==> states[k].pwm == pwm
  }

  lemma SteadySplit(first: Last, rest: seq<Last>, pwm: int)
    ensures Steady([first] + rest, pwm) <==> first.pwm == pwm && Steady(rest, pwm)
  {
    var states := [first] + rest;
    assert states[0] == first && states[1..] == rest;
    if Steady(states, pwm) {
      forall k | 0 <= k < |rest| ensures rest[k].pwm == pwm {
        assert rest[k] == states[k + 1];
      }
    }
  }

  /** The hysteresis looks back one reading only: a run keeps its speed throughout if and only if
      every reading drifts from the one before or lands on the speed by itself.  So a temperature
      that falls by less than four degrees at every reading never slows the fan, however far it
      falls in all. */
  lemma {:induction false} HoldsWhen(e: Exp, last: Last, temps: seq<real>)
    requires e(STEEPNESS * (T_MAX - T_MIN)) > 1.0
    ensures Steady(Run(e, last, temps), last.pwm) <==> Holding(e, last, temps)
    decreases |temps|
  {
    if temps == [] {
    } else {
      var next, rest := Cycle(e, last, temps[0]), temps[1..];
      SteadySplit(next, Run(e, next, rest), last.pwm);
      SlowsWhen(e, last, temps[0]);
      if next.pwm == last.pwm {
        HoldsWhen(e, next, rest);
      }
    }
  }

  // ---------- The script's loop ----------

  /** The two commands of a cycle: the CPU fan gets the speed, the case fan at least 145. */
  datatype Commands = Commands(cpu: int, caseFan: int)

  method Loop(e: Exp, temps: seq<real>) returns (commands: seq<Commands>)
    requires e(STEEPNESS * (T_MAX - T_MIN)) > 1.0
    ensures var states := Run(e, START, temps);
            && |commands| == |states|
            && forall k :: 0 <= k < |commands| ==>
                 commands[k].cpu == states[k].pwm
                 && commands[k].caseFan == if states[k].pwm < SET_FLOOR then SET_FLOOR else states[k].pwm
  {
    commands := [];
    var lastPwm, lastTemp := 0, 0.0;
    ghost var states := Run(e, START, temps);
    for i := 0 to |temps|
      invariant |commands| == i
      invariant states[i..] == Run(e, Last(lastPwm, lastTemp), temps[i..])
      invariant forall k :: 0 <= k < i ==>
                  commands[k].cpu == states[k].pwm
                  && commands[k].caseFan == if states[k].pwm < SET_FLOOR then SET_FLOOR else states[k].pwm
    {
      var temp := temps[i];
      var raw := CalcPwm(e, temp);
      var pwm := ApplyHysteresis(Last(lastPwm, lastTemp), temp, raw);
      pwm := RateLimitDown(pwm, lastPwm);
      assert temps[i..][1..] == temps[i + 1..] && states[i..][1..] == states[i + 1..];
      assert states[i] == states[i..][0] == Last(pwm, temp);
      commands := commands + [Commands(pwm, if pwm < SET_FLOOR then SET_FLOOR else pwm)];
      lastPwm, lastTemp := pwm, temp;
    }
  }
}
