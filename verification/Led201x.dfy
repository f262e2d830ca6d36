/** The LED driver of ugreen/leds-sio-201x.c.  It remembers what it last wrote and skips a
    write that would repeat it; the reference driver below has no memory and never skips. */
module Led201x {
  import opened Words
  import opened ImaWindow

  const LED_COUNT: nat := 4
  const COLOR_NONE: int := 0
  const RUN_STATE_OFF: int := 0
  const RUN_STATE_ON: int := 1
  const RUN_STATE_BLINK: int := 2
  const RUN_STATE_BREATH: int := 3
  const TWO32: u64 := 0x1_0000_0000
  const EAGAIN: int := 11
  const EINVAL: int := 22

  const ARGB0_MOD: u32 := 0x2000_5400
  const ARGB_LIGHT: u32 := 0x2000_5404
  const ARGB0_PERIOD: u32 := 0x2000_5408
  const ARGB0_DUTY: u32 := 0x2000_540C
  const ARGB_B: u32 := 0x2000_5444
  const ARGB_R: u32 := 0x2000_5445
  const ARGB_G: u32 := 0x2000_5446

  type LedId = i: nat | i < LED_COUNT

  /** Red, green and blue of colours 1 to 5. */
  const COLOR_TABLE: seq<(u8, u8, u8)> := [(255, 255, 255), (220, 40, 0), (255, 0, 0), (0, 255, 0), (0, 0, 255)]

  // ---------- Device writes ----------

  function ModeSet(m: Mem, i: LedId, mode: int, period: int, duty: int): Mem {
    m[ARGB0_MOD + i := mode % 0x100][ARGB0_PERIOD + i := period % 0x100][ARGB0_DUTY + i := duty % 0x100]
  }

  function LightSet(m: Mem, i: LedId, light: int): Mem {
    if light <= 255 then m[ARGB_LIGHT + i := light % 0x100] else m
  }

  function RgbSet(m: Mem, i: LedId, rgb: (u8, u8, u8)): Mem {
    m[ARGB_B + 4 * i := rgb.2][ARGB_R + 4 * i := rgb.0][ARGB_G + 4 * i := rgb.1]
  }

  // ---------- Requests ----------

  datatype Trigger = Normal | Timer2 | Breath | Other

  datatype Request =
    | Brightness(value: int)
    | Blink(trigger: Trigger, on: u64, off: u64)
    | Color(state: u64)

  /** A request to one LED; `lock` says whether taking the mutex would succeed. */
  datatype Op = Op(led: LedId, req: Request, lock: bool)

  /** A blinking mode with its two times. */
  datatype Pattern = Pattern(mode: int, high: u64, low: u64)

  function AtLeast(t: u64, least: u64): u64 {
    if t < least then least else t
  }

  /** What the timer and breath triggers ask for; their times are unsigned 64-bit words. */
  function PatternOf(trigger: Trigger, on: u64, off: u64): Option<Pattern> {
    match trigger
    case Normal => None
    case Timer2 =>
      if on == 0 || off == 0 then None else Some(Sum(RUN_STATE_BLINK, AtLeast(on, 100), AtLeast(off, 100)))
    case Breath =>
      if on == 0 || off == 0 then None else Some(Sum(RUN_STATE_BREATH, AtLeast(on, 1000), AtLeast(off, 500)))
    case Other => Some(Sum(RUN_STATE_BLINK, on, off))
  }

  function Sum(mode: int, on: u64, off: u64): Pattern {
    Pattern(mode, (on + off) % 0x1_0000_0000_0000_0000, on)
  }

  /** The colour that color_set passes on, if it accepts the number written. */
  function ColorOf(state: u64): Option<int> {
    if state > 5 then None else Some(if state < 1 then 1 else state)
  }

  // ---------- The driver with its cache ----------

  /** The cached times are 32-bit atomics, kept here as bit patterns. */
  datatype Led = Led(
    brightness: int, color: int, runState: int, blinkHigh: u32, blinkLow: u32, breathHigh: u32, breathLow: u32)

  datatype Driver = Driver(leds: seq<Led>, mem: Mem)

  predicate Sized(d: Driver) {
    |d.leds| == LED_COUNT
  }

  /** An int read back from an atomic and compared with an unsigned long. */
  function SignExtend(x: u32): u64 {
    if x < 0x8000_0000 then x else x + 0xFFFF_FFFF_0000_0000
  }

  function SetOnOff(d: Driver, i: LedId, runState: int, lock: bool): Driver
    requires Sized(d)
  {
    if d.leds[i].runState == runState || !lock then d
    else Driver(d.leds[i := d.leds[i].(runState := runState)], ModeSet(d.mem, i, runState, 0, 0))
  }

  function DoBrightness(d: Driver, i: LedId, value: int, lock: bool): Driver
    requires Sized(d)
  {
    if value == 1 then SetOnOff(d, i, RUN_STATE_ON, lock)
    else if value == 0 then SetOnOff(d, i, RUN_STATE_OFF, lock)
    else if d.leds[i].brightness == value || !lock then d
    else Driver(d.leds[i := d.leds[i].(brightness := value)], LightSet(d.mem, i, value))
  }

  predicate Repeats(led: Led, p: Pattern) {
    && p.mode == led.runState
    && (if p.mode == RUN_STATE_BLINK then p.high == SignExtend(led.blinkHigh) && p.low == SignExtend(led.blinkLow)
        else p.high == SignExtend(led.breathHigh) && p.low == SignExtend(led.breathLow))
  }

  function Remember(led: Led, p: Pattern): Led {
    var led' := led.(runState := p.mode);
    if p.mode == RUN_STATE_BLINK then led'.(blinkHigh := p.high % TWO32, blinkLow := p.low % TWO32)
    else led'.(breathHigh := p.high % TWO32, breathLow := p.low % TWO32)
  }

  function SetPattern(d: Driver, i: LedId, p: Pattern, lock: bool): Driver
    requires Sized(d)
  {
    if Repeats(d.leds[i], p) || !lock then d
    else Driver(d.leds[i := Remember(d.leds[i], p)], ModeSet(d.mem, i, p.mode, p.high / 50, p.low / 50))
  }

  function BlinkSet(d: Driver, i: LedId, trigger: Trigger, on: u64, off: u64, lock: bool): Driver
    requires Sized(d)
  {
    if trigger.Normal? then
      if d.leds[i].runState == RUN_STATE_OFF || d.leds[i].runState == RUN_STATE_ON then d
      else SetOnOff(d, i, RUN_STATE_OFF, lock)
    else
      match PatternOf(trigger, on, off)
      case None => d
      case Some(p) => SetPattern(d, i, p, lock)
  }

  function SetColor(d: Driver, i: LedId, color: int, lock: bool): Driver
    requires Sized(d) && 1 <= color <= 5
  {
    if d.leds[i].color == color || !lock then d
    else Driver(d.leds[i := d.leds[i].(color := color)], RgbSet(d.mem, i, COLOR_TABLE[color - 1]))
  }

  function Perform(d: Driver, op: Op): (d': Driver)
    requires Sized(d)
    ensures Sized(d')
  {
    match op.req
    case Brightness(v) => if 0 <= v <= 255 then DoBrightness(d, op.led, v, op.lock) else d
    case Blink(t, on, off) => BlinkSet(d, op.led, t, on, off, op.lock)
    case Color(state) =>
      match ColorOf(state)
      case None => d
      case Some(color) => SetColor(d, op.led, color, op.lock)
  }

  function Run(d: Driver, ops: seq<Op>): (d': Driver)
    requires Sized(d)
    ensures Sized(d')
    decreases |ops|
  {
    if ops == [] then d else Perform(Run(d, ops[..|ops| - 1]), ops[|ops| - 1])
  }

  /** init_leds_stats and a successful init_leds. */
  const FRESH: seq<Led> := [FreshLed(0), FreshLed(1), FreshLed(2), FreshLed(3)]

  function FreshLed(i: nat): Led {
    Led(255, COLOR_NONE, if i == 0 then RUN_STATE_ON else RUN_STATE_OFF, 0, 0, 0, 0)
  }

  function InitLed(m: Mem, i: LedId): Mem {
    ModeSet(LightSet(m, i, FreshLed(i).brightness), i, FreshLed(i).runState, 0, 0)
  }

  function InitMem(m: Mem, n: nat): Mem
    requires n <= LED_COUNT
  {
    if n == 0 then m
    else InitLed(InitMem(m, n - 1), n - 1)
  }

  function Fresh(m: Mem): (d: Driver)
    ensures Sized(d)
  {
    Driver(FRESH, InitMem(m, LED_COUNT))
  }

  // ---------- The reference driver ----------

  function ModeByte(m: Mem, i: LedId): u8 {
    if ARGB0_MOD + i in m then m[ARGB0_MOD + i] else 0
  }

  /** Writes every request out, and asks the device itself whether it is blinking. */
  function Write(m: Mem, op: Op): Mem {
    if !op.lock then m
    else
      match op.req
      case Brightness(v) =>
        if v == 0 || v == 1 then ModeSet(m, op.led, v, 0, 0)
        else if 0 <= v <= 255 then LightSet(m, op.led, v)
        else m
      case Blink(t, on, off) =>
        if t.Normal? then
          if ModeByte(m, op.led) == RUN_STATE_OFF || ModeByte(m, op.led) == RUN_STATE_ON then m
          else ModeSet(m, op.led, RUN_STATE_OFF, 0, 0)
        else
          (match PatternOf(t, on, off)
           case None => m
           case Some(p) => ModeSet(m, op.led, p.mode, p.high / 50, p.low / 50))
      case Color(state) =>
        match ColorOf(state)
        case None => m
        case Some(color) => RgbSet(m, op.led, COLOR_TABLE[color - 1])
  }

  function WriteAll(m: Mem, ops: seq<Op>): Mem
    decreases |ops|
  {
    if ops == [] then m else Write(WriteAll(m, ops[..|ops| - 1]), ops[|ops| - 1])
  }

  // ---------- What the device is asked, byte by byte ----------

  function Max(t: u64, least: u64): u64 {
    if t >= least then t else least
  }

  function Timed(m: Mem, i: LedId, mode: u8, on: u64, off: u64): Mem {
    m[0x2000_5400 + i := mode]
     [0x2000_5408 + i := (on + off) % 0x1_0000_0000_0000_0000 / 50 % 256]
     [0x2000_540C + i := on / 50 % 256]
  }

  function Painted(m: Mem, i: LedId, r: u8, g: u8, b: u8): Mem {
    m[0x2000_5444 + 4 * i := b][0x2000_5445 + 4 * i := r][0x2000_5446 + 4 * i := g]
  }

  /** The bytes that a request writes, at their addresses, with the least times of each trigger and
      the colours of each number. */
  function Asked(m: Mem, i: LedId, req: Request): Mem {
    match req
    case Brightness(v) =>
      if v == 0 || v == 1 then m[0x2000_5400 + i := v][0x2000_5408 + i := 0][0x2000_540C + i := 0]
      else if 2 <= v <= 255 then m[0x2000_5404 + i := v]
      else m
    case Blink(Normal, _, _) =>
      if 0x2000_5400 + i in m && m[0x2000_5400 + i] >= 2 then Timed(m, i, 0, 0, 0) else m
    case Blink(Timer2, on, off) => if on == 0 || off == 0 then m else Timed(m, i, 2, Max(on, 100), Max(off, 100))
    case Blink(Breath, on, off) => if on == 0 || off == 0 then m else Timed(m, i, 3, Max(on, 1000), Max(off, 500))
    case Blink(Other, on, off) => Timed(m, i, 2, on, off)
    case Color(n) =>
      if n <= 1 then Painted(m, i, 255, 255, 255)
      else if n == 2 then Painted(m, i, 220, 40, 0)
      else if n == 3 then Painted(m, i, 255, 0, 0)
      else if n == 4 then Painted(m, i, 0, 255, 0)
      else if n == 5 then Painted(m, i, 0, 0, 255)
      else m
  }

  /** The reference driver writes what is asked, unless it does not get the lock. */
  lemma WriteIsAsked(m: Mem, op: Op)
    ensures Write(m, op) == if op.lock then Asked(m, op.led, op.req) else m
  {
    match op.req {
      case Blink(t, on, off) => BlinkIsAsked(m, op);
      case _ =>
    }
  }

  lemma BlinkIsAsked(m: Mem, op: Op)
    requires op.req.Blink?
    ensures Write(m, op) == if op.lock then Asked(m, op.led, op.req) else m
  {
    if !op.req.trigger.Normal? {
      match PatternOf(op.req.trigger, op.req.on, op.req.off) {
        case None =>
        case Some(p) => PatternIsTimed(m, op.led, p.mode, p.low, AtOff(op.req));
      }
    }
  }

  lemma PatternIsTimed(m: Mem, i: LedId, mode: u8, on: u64, off: u64)
    ensures var p := Sum(mode, on, off);
            p.mode == mode && p.low == on && ModeSet(m, i, mode, p.high / 50, p.low / 50) == Timed(m, i, mode, on, off)
  {
  }

  /** The off time that goes into the pattern. */
  function AtOff(req: Request): u64
    requires req.Blink?
  {
    match req.trigger
    case Timer2 => AtLeast(req.off, 100)
    case Breath => AtLeast(req.off, 500)
    case _ => req.off
  }

  /** After initialisation every LED is at full light with zero times, the first on and the
      others off. */
  lemma InitShows(m: Mem, i: LedId)
    ensures var d := Fresh(m);
            && Holds(d.mem, 0x2000_5404 + i, 255)
            && Holds(d.mem, 0x2000_5400 + i, if i == 0 then 1 else 0)
            && Holds(d.mem, 0x2000_5408 + i, 0) && Holds(d.mem, 0x2000_540C + i, 0)
  {
    InitPrefix(m, LED_COUNT, i);
  }

  // ---------- What the requests amount to ----------

  type Patterns = l: seq<Option<Pattern>> | |l| == LED_COUNT witness [None, None, None, None]

  /** The pattern last asked of each LED, if no request for on or off has come since. */
  function Note(last: Patterns, op: Op): Patterns {
    if !op.lock then last
    else
      match op.req
      case Brightness(v) => if v == 0 || v == 1 then last[op.led := None] else last
      case Blink(t, on, off) =>
        if t.Normal? then last[op.led := None]
        else (match PatternOf(t, on, off) case None => last case Some(p) => last[op.led := Some(p)])
      case Color(_) => last
  }

  function NoteAll(ops: seq<Op>): Patterns
    decreases |ops|
  {
    if ops == [] then [None, None, None, None] else Note(NoteAll(ops[..|ops| - 1]), ops[|ops| - 1])
  }

  /** The pattern looks like the earlier one through a 32-bit cache. */
  predicate LooksLike(earlier: Pattern, p: Pattern) {
    && p.mode == earlier.mode
    && p.high == SignExtend(earlier.high % TWO32) && p.low == SignExtend(earlier.low % TWO32)
  }

  /** The two have the same period and duty bytes. */
  predicate SameBytes(earlier: Pattern, p: Pattern) {
    p.high / 50 % 0x100 == earlier.high / 50 % 0x100 && p.low / 50 % 0x100 == earlier.low / 50 % 0x100
  }

  /** The request is for a pattern that looks like the LED's last one and is not. */
  predicate Mistaken(last: Patterns, op: Op) {
    && op.lock && op.req.Blink?
    && match (last[op.led], PatternOf(op.req.trigger, op.req.on, op.req.off))
       case (Some(q), Some(p)) => LooksLike(q, p) && !SameBytes(q, p)
       case _ => false
  }

  // ---------- Cache and device agree ----------

  predicate Holds(m: Mem, a: u32, v: int) {
    a in m && m[a] == v
  }

  /** The cached times of the LED's run state. */
  function High(led: Led): u32 {
    if led.runState == RUN_STATE_BLINK then led.blinkHigh else led.breathHigh
  }

  function Low(led: Led): u32 {
    if led.runState == RUN_STATE_BLINK then led.blinkLow else led.breathLow
  }

  /** Off and on go with zero times; blinking and breathing with those of the last pattern, of
      which the cache has the low 32 bits. */
  predicate AgreeMode(led: Led, last: Option<Pattern>, m: Mem, i: LedId) {
    && Holds(m, ARGB0_MOD + i, led.runState)
    && match last
       case None =>
         && (led.runState == RUN_STATE_OFF || led.runState == RUN_STATE_ON)
         && Holds(m, ARGB0_PERIOD + i, 0) && Holds(m, ARGB0_DUTY + i, 0)
       case Some(q) =>
         && (led.runState == RUN_STATE_BLINK || led.runState == RUN_STATE_BREATH)
         && led.runState == q.mode && High(led) == q.high % TWO32 && Low(led) == q.low % TWO32
         && Holds(m, ARGB0_PERIOD + i, q.high / 50 % 0x100) && Holds(m, ARGB0_DUTY + i, q.low / 50 % 0x100)
  }

  predicate AgreeLight(led: Led, m: Mem, i: LedId) {
    Holds(m, ARGB_LIGHT + i, led.brightness)
  }

  predicate AgreeColor(led: Led, m: Mem, i: LedId) {
    led.color != COLOR_NONE ==>
      && 1 <= led.color <= 5
      && Holds(m, ARGB_B + 4 * i, COLOR_TABLE[led.color - 1].2)
      && Holds(m, ARGB_R + 4 * i, COLOR_TABLE[led.color - 1].0)
      && Holds(m, ARGB_G + 4 * i, COLOR_TABLE[led.color - 1].1)
  }

  predicate AgreeLed(led: Led, last: Option<Pattern>, m: Mem, i: LedId) {
    AgreeMode(led, last, m, i) && AgreeLight(led, m, i) && AgreeColor(led, m, i)
  }

  ghost predicate Agree(d: Driver, last: Patterns) {
    Sized(d) && forall i: LedId :: AgreeLed(d.leds[i], last[i], d.mem, i)
  }

  function Registers(i: LedId): set<u32> {
    {ARGB0_MOD + i, ARGB_LIGHT + i, ARGB0_PERIOD + i, ARGB0_DUTY + i, ARGB_B + 4 * i, ARGB_R + 4 * i, ARGB_G + 4 * i}
  }

  ghost predicate SameOutside(m: Mem, m': Mem, i: LedId) {
    forall a: u32 :: a !in Registers(i) ==> (a in m' <==> a in m) && (a in m ==> m'[a] == m[a])
  }

  lemma RegistersDisjoint(i: LedId, j: LedId)
    requires i != j
    ensures Registers(i) !! Registers(j)
  {
  }

  lemma OtherLed(led: Led, last: Option<Pattern>, m: Mem, m': Mem, i: LedId, j: LedId)
    requires i != j && SameOutside(m, m', i) && AgreeLed(led, last, m, j)
    ensures AgreeLed(led, last, m', j)
  {
    RegistersDisjoint(i, j);
    forall a: u32 | a in Registers(j) ensures (a in m' <==> a in m) && (a in m ==> m'[a] == m[a]) {
      assert a !in Registers(i);
    }
  }

  lemma OneLedAgrees(d: Driver, d': Driver, last: Patterns, last': Patterns, i: LedId)
    requires Agree(d, last) && Sized(d') && d'.leds == d.leds[i := d'.leds[i]] && last' == last[i := last'[i]]
    requires SameOutside(d.mem, d'.mem, i) && AgreeLed(d'.leds[i], last'[i], d'.mem, i)
    ensures Agree(d', last')
  {
    forall j: LedId ensures AgreeLed(d'.leds[j], last'[j], d'.mem, j) {
      if j != i {
        assert AgreeLed(d.leds[j], last[j], d.mem, j);
        OtherLed(d.leds[j], last[j], d.mem, d'.mem, i, j);
      }
    }
  }

  lemma OnOffAgrees(d: Driver, last: Patterns, i: LedId, runState: int, lock: bool)
    requires Agree(d, last) && (runState == RUN_STATE_OFF || runState == RUN_STATE_ON)
    ensures Agree(SetOnOff(d, i, runState, lock), if lock then last[i := None] else last)
    ensures SetOnOff(d, i, runState, lock).mem == if lock then ModeSet(d.mem, i, runState, 0, 0) else d.mem
  {
    assert AgreeLed(d.leds[i], last[i], d.mem, i);
    if d.leds[i].runState == runState {
      assert last[i].None? && last[i := None] == last;
      assert ModeSet(d.mem, i, runState, 0, 0) == d.mem;
    } else if lock {
      OneLedAgrees(d, SetOnOff(d, i, runState, lock), last, last[i := None], i);
    }
  }

  lemma LightAgrees(d: Driver, last: Patterns, i: LedId, value: int, lock: bool)
    requires Agree(d, last) && 2 <= value <= 255
    ensures Agree(DoBrightness(d, i, value, lock), last)
    ensures DoBrightness(d, i, value, lock).mem == if lock then LightSet(d.mem, i, value) else d.mem
  {
    assert AgreeLed(d.leds[i], last[i], d.mem, i);
    if d.leds[i].brightness == value {
      assert LightSet(d.mem, i, value) == d.mem;
    } else if lock {
      OneLedAgrees(d, DoBrightness(d, i, value, lock), last, last, i);
    }
  }

  lemma ColorAgrees(d: Driver, last: Patterns, i: LedId, color: int, lock: bool)
    requires Agree(d, last) && 1 <= color <= 5
    ensures Agree(SetColor(d, i, color, lock), last)
    ensures SetColor(d, i, color, lock).mem == if lock then RgbSet(d.mem, i, COLOR_TABLE[color - 1]) else d.mem
  {
    assert AgreeLed(d.leds[i], last[i], d.mem, i);
    if d.leds[i].color == color {
      assert RgbSet(d.mem, i, COLOR_TABLE[color - 1]) == d.mem;
    } else if lock {
      OneLedAgrees(d, SetColor(d, i, color, lock), last, last, i);
    }
  }

  /** The driver takes a pattern for a repetition exactly if it looks like the last one. */
  lemma RepeatsWhen(led: Led, last: Option<Pattern>, m: Mem, i: LedId, p: Pattern)
    requires AgreeMode(led, last, m, i) && (p.mode == RUN_STATE_BLINK || p.mode == RUN_STATE_BREATH)
    ensures Repeats(led, p) <==> last.Some? && LooksLike(last.value, p)
  {
  }

  lemma SignExtendLow(x: u32)
    ensures SignExtend(x) % TWO32 == x
  {
    assert SignExtend(x) == x || SignExtend(x) == 0xFFFF_FFFF * TWO32 + x;
  }

  lemma RepeatKeeps(led: Led, q: Pattern, m: Mem, i: LedId, p: Pattern)
    requires AgreeMode(led, Some(q), m, i) && LooksLike(q, p) && SameBytes(q, p)
    ensures AgreeMode(led, Some(p), m, i) && ModeSet(m, i, p.mode, p.high / 50, p.low / 50) == m
  {
    SignExtendLow(q.high % TWO32);
    SignExtendLow(q.low % TWO32);
    assert p.high % TWO32 == q.high % TWO32 && p.low % TWO32 == q.low % TWO32;
    SameWrite(m, i, p.mode, p.high / 50, p.low / 50);
  }

  lemma SameWrite(m: Mem, i: LedId, mode: int, period: int, duty: int)
    requires Holds(m, ARGB0_MOD + i, mode % 0x100)
    requires Holds(m, ARGB0_PERIOD + i, period % 0x100) && Holds(m, ARGB0_DUTY + i, duty % 0x100)
    ensures ModeSet(m, i, mode, period, duty) == m
  {
  }

  lemma RememberAgrees(led: Led, last: Option<Pattern>, m: Mem, i: LedId, p: Pattern)
    requires AgreeLed(led, last, m, i) && (p.mode == RUN_STATE_BLINK || p.mode == RUN_STATE_BREATH)
    ensures AgreeLed(Remember(led, p), Some(p), ModeSet(m, i, p.mode, p.high / 50, p.low / 50), i)
  {
    assert High(Remember(led, p)) == p.high % TWO32 && Low(Remember(led, p)) == p.low % TWO32;
  }

  lemma PatternAgrees(d: Driver, last: Patterns, i: LedId, p: Pattern, lock: bool)
    requires Agree(d, last) && (p.mode == RUN_STATE_BLINK || p.mode == RUN_STATE_BREATH)
    requires lock && last[i].Some? && LooksLike(last[i].value, p) ==> SameBytes(last[i].value, p)
    ensures Agree(SetPattern(d, i, p, lock), if lock then last[i := Some(p)] else last)
    ensures SetPattern(d, i, p, lock).mem == if lock then ModeSet(d.mem, i, p.mode, p.high / 50, p.low / 50) else d.mem
  {
    assert AgreeLed(d.leds[i], last[i], d.mem, i);
    RepeatsWhen(d.leds[i], last[i], d.mem, i, p);
    if lock {
      if Repeats(d.leds[i], p) {
        RepeatKeeps(d.leds[i], last[i].value, d.mem, i, p);
      } else {
        RememberAgrees(d.leds[i], last[i], d.mem, i, p);
      }
      OneLedAgrees(d, SetPattern(d, i, p, lock), last, last[i := Some(p)], i);
    }
  }

  lemma BlinkAgrees(d: Driver, last: Patterns, op: Op)
    requires Agree(d, last) && op.req.Blink? && !Mistaken(last, op)
    ensures Agree(Perform(d, op), Note(last, op)) && Perform(d, op).mem == Write(d.mem, op)
  {
    var i := op.led;
    assert AgreeLed(d.leds[i], last[i], d.mem, i);
    if op.req.trigger.Normal? {
      if d.leds[i].runState == RUN_STATE_OFF || d.leds[i].runState == RUN_STATE_ON {
        assert last[i := None] == last;
      } else {
        OnOffAgrees(d, last, i, RUN_STATE_OFF, op.lock);
      }
    } else {
      match PatternOf(op.req.trigger, op.req.on, op.req.off) {
        case None =>
        case Some(p) => PatternAgrees(d, last, i, p, op.lock);
      }
    }
  }

  /** A request that is not mistaken has the effect of the write that may have been skipped. */
  lemma PerformAgrees(d: Driver, last: Patterns, op: Op)
    requires Agree(d, last) && !Mistaken(last, op)
    ensures Agree(Perform(d, op), Note(last, op)) && Perform(d, op).mem == Write(d.mem, op)
  {
    match op.req {
      case Brightness(v) =>
        if v == 0 || v == 1 {
          OnOffAgrees(d, last, op.led, v, op.lock);
        } else if 0 <= v <= 255 {
          LightAgrees(d, last, op.led, v, op.lock);
        }
      case Blink(_, _, _) => BlinkAgrees(d, last, op);
      case Color(state) =>
        match ColorOf(state) {
          case None =>
          case Some(color) => ColorAgrees(d, last, op.led, color, op.lock);
        }
    }
  }

  /** A mistaken one leaves the device with the wrong period or duty. */
  lemma MistakeShows(d: Driver, last: Patterns, op: Op)
    requires Agree(d, last) && Mistaken(last, op)
    ensures Perform(d, op).mem == d.mem != Write(d.mem, op)
  {
    var i, p := op.led, PatternOf(op.req.trigger, op.req.on, op.req.off).value;
    var q := last[i].value;
    assert AgreeLed(d.leds[i], last[i], d.mem, i);
    RepeatsWhen(d.leds[i], last[i], d.mem, i, p);
    var m := Write(d.mem, op);
    assert m == ModeSet(d.mem, i, p.mode, p.high / 50, p.low / 50);
    assert m[ARGB0_PERIOD + i] == p.high / 50 % 0x100 && m[ARGB0_DUTY + i] == p.low / 50 % 0x100;
    assert d.mem[ARGB0_PERIOD + i] == q.high / 50 % 0x100 && d.mem[ARGB0_DUTY + i] == q.low / 50 % 0x100;
  }

  lemma InitOne(m: Mem, i: LedId)
    ensures AgreeLed(FreshLed(i), None, InitLed(m, i), i) && SameOutside(m, InitLed(m, i), i)
  {
  }

  lemma InitOther(m: Mem, i: LedId, j: LedId)
    requires i != j && AgreeLed(FreshLed(j), None, m, j)
    ensures AgreeLed(FreshLed(j), None, InitLed(m, i), j)
  {
    InitOne(m, i);
    OtherLed(FreshLed(j), None, m, InitLed(m, i), i, j);
  }

  lemma {:induction false} InitPrefix(m: Mem, n: nat, j: LedId)
    requires j < n <= LED_COUNT
    ensures AgreeLed(FreshLed(j), None, InitMem(m, n), j)
    decreases n
  {
    if j == n - 1 {
      InitOne(InitMem(m, n - 1), j);
    } else {
      InitPrefix(m, n - 1, j);
      InitOther(InitMem(m, n - 1), n - 1, j);
    }
  }

  /** After initialisation cache and device agree, whatever the device held before. */
  lemma InitAgrees(m: Mem)
    ensures Agree(Fresh(m), NoteAll([]))
  {
    forall i: LedId ensures AgreeLed(Fresh(m).leds[i], None, Fresh(m).mem, i) {
      InitPrefix(m, LED_COUNT, i);
    }
  }

  /** No request of the sequence looks like the last pattern of its LED without being it. */
  predicate NoneMistaken(ops: seq<Op>) {
    forall k :: 0 <= k < |ops| ==> !Mistaken(NoteAll(ops[..k]), ops[k])
  }

  lemma NoneMistakenEarlier(ops: seq<Op>, n: nat)
    requires n <= |ops| && NoneMistaken(ops)
    ensures NoneMistaken(ops[..n])
  {
    forall k | 0 <= k < n ensures !Mistaken(NoteAll(ops[..n][..k]), ops[..n][k]) {
      assert ops[..n][..k] == ops[..k] && ops[..n][k] == ops[k];
    }
  }

  lemma {:induction false} RunAgrees(m: Mem, ops: seq<Op>)
    requires NoneMistaken(ops)
    ensures Agree(Run(Fresh(m), ops), NoteAll(ops)) && Run(Fresh(m), ops).mem == WriteAll(Fresh(m).mem, ops)
    decreases |ops|
  {
    if ops == [] {
      InitAgrees(m);
    } else {
      var n := |ops| - 1;
      NoneMistakenEarlier(ops, n);
      RunAgrees(m, ops[..n]);
      PerformAgrees(Run(Fresh(m), ops[..n]), NoteAll(ops[..n]), ops[n]);
    }
  }

  /** The device ends up as if no write had been skipped since initialisation. */
  predicate Invisible(m: Mem, ops: seq<Op>) {
    Run(Fresh(m), ops).mem == WriteAll(Fresh(m).mem, ops)
  }

  predicate InvisibleThroughout(m: Mem, ops: seq<Op>) {
    forall n :: 0 <= n <= |ops| ==> Invisible(m, ops[..n])
  }

  lemma InvisibleEarlier(m: Mem, ops: seq<Op>, n: nat)
    requires n <= |ops| && InvisibleThroughout(m, ops)
    ensures InvisibleThroughout(m, ops[..n]) && Invisible(m, ops[..n])
  {
    forall k | 0 <= k <= n ensures Invisible(m, ops[..n][..k]) {
      assert ops[..n][..k] == ops[..k];
    }
  }

  lemma NoneMistakenSnoc(ops: seq<Op>, n: nat)
    requires n + 1 == |ops| && NoneMistaken(ops[..n]) && !Mistaken(NoteAll(ops[..n]), ops[n])
    ensures NoneMistaken(ops)
  {
    forall k | 0 <= k < |ops| ensures !Mistaken(NoteAll(ops[..k]), ops[k]) {
      if k < n {
        assert ops[..n][..k] == ops[..k] && ops[..n][k] == ops[k];
      }
    }
  }

  lemma {:induction false} InvisibleNeedsNoMistake(m: Mem, ops: seq<Op>)
    requires InvisibleThroughout(m, ops)
    ensures NoneMistaken(ops)
    decreases |ops|
  {
    if ops == [] {
    } else {
      var n := |ops| - 1;
      InvisibleEarlier(m, ops, n);
      InvisibleNeedsNoMistake(m, ops[..n]);
      RunAgrees(m, ops[..n]);
      InvisibleEarlier(m, ops, n + 1);
      assert ops[..n + 1] == ops;
      if Mistaken(NoteAll(ops[..n]), ops[n]) {
        MistakeShows(Run(Fresh(m), ops[..n]), NoteAll(ops[..n]), ops[n]);
      }
      NoneMistakenSnoc(ops, n);
    }
  }

  /** For every sequence of requests from initialisation, skipping writes is invisible to the
      device at every moment if and only if no request looks, through the 32-bit cache, like
      the pattern last asked of its LED while having another period or duty byte. */
  lemma ElisionInvisible(m: Mem, ops: seq<Op>)
    ensures InvisibleThroughout(m, ops) <==> NoneMistaken(ops)
  {
    if InvisibleThroughout(m, ops) {
      InvisibleNeedsNoMistake(m, ops);
    }
    if NoneMistaken(ops) {
      forall n | 0 <= n <= |ops| ensures Invisible(m, ops[..n]) {
        NoneMistakenEarlier(ops, n);
        RunAgrees(m, ops[..n]);
      }
    }
  }

  /** The two times of the request, added up without overflow, stay below the bound. */
  predicate Below(op: Op, bound: int) {
    if !op.req.Blink? then true
    else
      match PatternOf(op.req.trigger, op.req.on, op.req.off)
      case None => true
      case Some(p) => p.low <= p.high < bound
  }

  predicate AllBelow(ops: seq<Op>, bound: int) {
    forall k :: 0 <= k < |ops| ==> Below(ops[k], bound)
  }

  predicate PatternsBelow(last: Patterns, bound: int) {
    forall i: LedId :: last[i].Some? ==> last[i].value.low <= last[i].value.high < bound
  }

  lemma {:induction false} NotedBelow(ops: seq<Op>, bound: int)
    requires AllBelow(ops, bound)
    ensures PatternsBelow(NoteAll(ops), bound)
    decreases |ops|
  {
    if ops == [] {
    } else {
      var n := |ops| - 1;
      assert AllBelow(ops[..n], bound) && Below(ops[n], bound);
      NotedBelow(ops[..n], bound);
    }
  }

  /** Two requests whose times differ by 2^32: the driver takes the second for a repetition. */
  lemma AliasSkipped() returns (ops: seq<Op>)
    ensures AllBelow(ops, TWO32 + 1) && !NoneMistaken(ops)
  {
    ops := [Op(0, Blink(Other, 0, TWO32), true), Op(0, Blink(Other, 0, 0), true)];
    assert ops[..1][..0] == [] && ops[..1][0] == ops[0];
    assert NoteAll(ops[..1]) == Note(NoteAll([]), ops[0]);
    assert NoteAll(ops[..1])[0] == Some(Pattern(RUN_STATE_BLINK, TWO32, 0));
    assert Mistaken(NoteAll(ops[..1]), ops[1]);
  }

  lemma BelowIsPlain(last: Patterns, op: Op)
    requires PatternsBelow(last, TWO32) && Below(op, TWO32)
    ensures !Mistaken(last, op)
  {
    if op.req.Blink? && last[op.led].Some? && PatternOf(op.req.trigger, op.req.on, op.req.off).Some? {
      var q, p := last[op.led].value, PatternOf(op.req.trigger, op.req.on, op.req.off).value;
      assert q.high % TWO32 == q.high && q.low % TWO32 == q.low;
    }
  }

  lemma AllBelowWeaken(ops: seq<Op>, bound: int, wider: int)
    requires AllBelow(ops, bound) && bound <= wider
    ensures AllBelow(ops, wider)
  {
    forall k | 0 <= k < |ops| ensures Below(ops[k], wider) {
      assert Below(ops[k], bound);
    }
  }

  /** As a bound on all requests: safe exactly while on + off stays below 2^32. */
  lemma ElisionBound(bound: int)
    ensures (forall ops: seq<Op> :: AllBelow(ops, bound) ==> NoneMistaken(ops)) <==> bound <= TWO32
  {
    if bound <= TWO32 {
      forall ops: seq<Op> | AllBelow(ops, bound) ensures NoneMistaken(ops) {
        AllBelowWeaken(ops, bound, TWO32);
        forall k | 0 <= k < |ops| ensures !Mistaken(NoteAll(ops[..k]), ops[k]) {
          assert AllBelow(ops[..k], TWO32);
          NotedBelow(ops[..k], TWO32);
          BelowIsPlain(NoteAll(ops[..k]), ops[k]);
        }
      }
    } else {
      var ops := AliasSkipped();
      AllBelowWeaken(ops, TWO32 + 1, bound);
    }
  }

  // ---------- LEDs do not disturb each other ----------

  /** No two LEDs share a register, and a request to one LED changes no other byte of the
      controller and no other LED's cache. */
  lemma Isolated(d: Driver, op: Op)
    requires Sized(d)
    ensures forall j: LedId :: j != op.led ==> Registers(j) !! Registers(op.led) && Perform(d, op).leds[j] == d.leds[j]
    ensures SameOutside(d.mem, Perform(d, op).mem, op.led)
  {
    forall j: LedId | j != op.led ensures Registers(j) !! Registers(op.led) {
      RegistersDisjoint(j, op.led);
    }
  }

  lemma Packed(r: u8, g: u8, b: u8)
    ensures var rgb := r as int * 0x1_0000 + g as int * 0x100 + b;
            rgb / 0x1_0000 % 0x100 == r && rgb / 0x100 % 0x100 == g && rgb % 0x100 == b
  {
    var rgb := r as int * 0x1_0000 + g as int * 0x100 + b;
    assert rgb / 0x100 == r as int * 0x100 + g;
  }

  // ---------- The driver as it stands ----------

  class Leds {
    const leds: array<Led>
    const dev: Device
    const values: array<int>
    var pending: set<LedId>

    /** `pending` is the set of LEDs whose brightness work is scheduled, `values` what it is to set. */
    ghost predicate Valid()
      reads this, values, dev
    {
      && leds.Length == values.Length == LED_COUNT && dev.Valid()
      && forall i :: i in pending ==> 0 <= values[i] <= 255
    }

    ghost function State(): (d: Driver)
      requires Valid()
      reads this, values, leds, dev
      ensures Sized(d)
    {
      Driver(leds[..], dev.mem)
    }

    constructor (dev: Device)
      requires dev.Valid()
      ensures Valid() && this.dev == dev && fresh(leds) && leds[..] == FRESH && pending == {}
    {
      this.dev, pending := dev, {};
      values := new int[LED_COUNT](_ => 0);
      leds := new Led[LED_COUNT](FreshLed);
    }

    method ArgbModeSet(i: LedId, mode: int, period: int, duty: int)
      requires Valid()
      modifies dev
      ensures Valid() && dev.mem == ModeSet(old(dev.mem), i, mode, period, duty)
    {
      Host2EcOutb(dev, ARGB0_MOD + i, mode);
      Host2EcOutb(dev, ARGB0_PERIOD + i, period);
      Host2EcOutb(dev, ARGB0_DUTY + i, duty);
    }

    method ArgbLightSet(i: LedId, light: int)
      requires Valid()
      modifies dev
      ensures Valid() && dev.mem == LightSet(old(dev.mem), i, light)
    {
      if light <= 255 {
        Host2EcOutb(dev, ARGB_LIGHT + i, light);
      }
    }

    /** The low 24 bits of `rgb` pack red, green and blue from the top. */
    method ArgbRgbSet(i: LedId, rgb: int)
      requires Valid()
      modifies dev
      ensures Valid()
      ensures dev.mem == RgbSet(old(dev.mem), i, (rgb / 0x1_0000 % 0x100, rgb / 0x100 % 0x100, rgb % 0x100))
    {
      RgbBytes(i, rgb / 0x1_0000 % 0x100, rgb / 0x100 % 0x100, rgb % 0x100);
    }

    /** One byte of the controller; how the ports are used is of no interest above. */
    method SetByte(reg: u32, val: int)
      requires Valid()
      modifies dev
      ensures Valid() && dev.mem == old(dev.mem)[reg := val % 0x100]
    {
      Host2EcOutb(dev, reg, val);
    }

    method RgbBytes(i: LedId, r: u8, g: u8, b: u8)
      requires Valid()
      modifies dev
      ensures Valid() && dev.mem == RgbSet(old(dev.mem), i, (r, g, b))
    {
      SetByte(ARGB_B + 4 * i, b);
      SetByte(ARGB_R + 4 * i, r);
      SetByte(ARGB_G + 4 * i, g);
    }

    /** init_leds, holding the lock for all four LEDs. */
    method InitLeds(lock: bool) returns (ret: int)
      requires Valid() && leds[..] == FRESH
      modifies dev
      ensures Valid() && leds[..] == FRESH
      ensures ret == if lock then 0 else -EAGAIN
      ensures dev.mem == if lock then InitMem(old(dev.mem), LED_COUNT) else old(dev.mem)
    {
      if !lock {
        return -EAGAIN;
      }
      for i := 0 to LED_COUNT
        invariant Valid() && leds[..] == FRESH && dev.mem == InitMem(old(dev.mem), i)
      {
        ArgbLightSet(i, leds[i].brightness);
        ArgbModeSet(i, leds[i].runState, 0, 0);
      }
      ret := 0;
    }

    method LedSetOnOff(i: LedId, runState: int, lock: bool) returns (ret: int)
      requires Valid()
      modifies leds, dev
      ensures Valid()
      ensures State() == if runState == RUN_STATE_OFF || runState == RUN_STATE_ON
                         then SetOnOff(old(State()), i, runState, lock) else old(State())
      ensures ret == if runState != RUN_STATE_OFF && runState != RUN_STATE_ON then -EINVAL
                     else if runState == old(leds[i].runState) || lock then 0 else -EAGAIN
    {
      if runState != RUN_STATE_OFF && runState != RUN_STATE_ON {
        return -EINVAL;
      }
      if runState == leds[i].runState {
        return 0;
      }
      if !lock {
        return -EAGAIN;
      }
      ArgbModeSet(i, runState, 0, 0);
      leds[i] := leds[i].(runState := runState);
      ret := 0;
    }

    method DoBrightnessSet(i: LedId, brightness: int, lock: bool) returns (ret: int)
      requires Valid()
      modifies leds, dev
      ensures Valid() && State() == DoBrightness(old(State()), i, brightness, lock)
      ensures ret == if brightness == 0 || brightness == 1 || brightness == old(leds[i].brightness) || lock then 0
                     else -EAGAIN
    {
      var runState := if brightness == 1 then RUN_STATE_ON else if brightness == 0 then RUN_STATE_OFF else -1;
      if runState != -1 {
        if runState != leds[i].runState {
          var _ := LedSetOnOff(i, runState, lock);
        }
        return 0;
      }
      if leds[i].brightness != brightness {
        if !lock {
          return -EAGAIN;
        }
        ArgbLightSet(i, brightness);
        leds[i] := leds[i].(brightness := brightness);
      }
      ret := 0;
    }

    method LedBlinkOrBreath(i: LedId, p: Pattern, lock: bool) returns (ret: int)
      requires Valid() && (p.mode == RUN_STATE_BLINK || p.mode == RUN_STATE_BREATH)
      modifies leds, dev
      ensures Valid() && State() == SetPattern(old(State()), i, p, lock)
      ensures ret == if old(Repeats(leds[i], p)) || lock then 0 else -EAGAIN
    {
      if Repeats(leds[i], p) {
        return 0;
      }
      if !lock {
        return -EAGAIN;
      }
      ArgbModeSet(i, p.mode, p.high / 50, p.low / 50);
      leds[i] := leds[i].(runState := p.mode);
      if p.mode == RUN_STATE_BLINK {
        leds[i] := leds[i].(blinkHigh := p.high % TWO32);
        leds[i] := leds[i].(blinkLow := p.low % TWO32);
      } else {
        leds[i] := leds[i].(breathHigh := p.high % TWO32);
        leds[i] := leds[i].(breathLow := p.low % TWO32);
      }
      ret := 0;
    }

    method McuLedBlinkSet(i: LedId, trigger: Trigger, delayOn: u64, delayOff: u64, lock: bool) returns (ret: int)
      requires Valid()
      modifies leds, dev
      ensures Valid() && State() == BlinkSet(old(State()), i, trigger, delayOn, delayOff, lock)
      ensures ret == 0
    {
      var on, off, mode := delayOn, delayOff, RUN_STATE_BLINK;
      ret := 0;
      match trigger {
        case Normal =>
          if leds[i].runState != RUN_STATE_OFF && leds[i].runState != RUN_STATE_ON {
            var _ := LedSetOnOff(i, RUN_STATE_OFF, lock);
          }
          return;
        case Timer2 =>
          if on == 0 || off == 0 {
            return;
          }
          if off < 100 {
            off := 100;
          }
          if on < 100 {
            on := 100;
          }
        case Breath =>
          if on == 0 || off == 0 {
            return;
          }
          mode := RUN_STATE_BREATH;
          if off < 500 {
            off := 500;
          }
          if on < 1000 {
            on := 1000;
          }
        case Other =>
      }
      var _ := LedBlinkOrBreath(i, Pattern(mode, (on + off) % 0x1_0000_0000_0000_0000, on), lock);
    }

    method DoColorSet(i: LedId, color: int, lock: bool) returns (ret: int)
      requires Valid() && 1 <= color <= 5
      modifies leds, dev
      ensures Valid() && State() == SetColor(old(State()), i, color, lock)
      ensures ret == if color == old(leds[i].color) || lock then 0 else -EAGAIN
    {
      var (r, g, b) := COLOR_TABLE[color - 1];
      if leds[i].color != color {
        if !lock {
          return -EAGAIN;
        }
        Packed(r, g, b);
        ArgbRgbSet(i, r as int * 0x1_0000 + g as int * 0x100 + b);
        leds[i] := leds[i].(color := color);
      }
      ret := 0;
    }

    // The entry points: what a request to the LED class device does.

    /** Only remembers the value and schedules the work; a value out of range is dropped. */
    method LedsBrightnessSet(i: LedId, brightness: int)
      requires Valid()
      modifies `pending, values
      ensures Valid() && State() == old(State())
      ensures if 0 <= brightness <= 255
              then pending == old(pending) + {i} && values[..] == old(values[..])[i := brightness]
              else pending == old(pending) && values[..] == old(values[..])
    {
      if 0 > brightness || 255 < brightness {
        return;
      }
      values[i] := brightness;
      pending := pending + {i};
    }

    /** The scheduled work performs one request, with the last value remembered: two quick
        requests become one. */
    method McuWork(i: LedId, lock: bool)
      requires Valid() && i in pending
      modifies `pending, leds, dev
      ensures Valid() && State() == Perform(old(State()), Op(i, Brightness(values[i]), lock))
      ensures pending == old(pending) - {i}
    {
      pending := pending - {i};
      var _ := DoBrightnessSet(i, values[i], lock);
    }

    method ColorSet(i: LedId, state: u64, lock: bool) returns (ret: int)
      requires Valid()
      modifies leds, dev
      ensures Valid() && State() == Perform(old(State()), Op(i, Color(state), lock))
      ensures ret == if state > 5 then -EINVAL else 0
    {
      if state > 5 {
        return -EINVAL;
      }
      var _ := DoColorSet(i, if state < 1 then 1 else state, lock);
      ret := 0;
    }
  }
}
