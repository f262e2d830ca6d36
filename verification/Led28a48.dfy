/** The LED driver of ugreen/leds-mcu-28a48.c: commands travel in checksummed frames over a
    link that may lose or damage any of them, are repeated until the microcontroller acknowledges one,
    and are skipped when the driver's cache says they would change nothing. */
module Led28a48 {
  import opened Words
  import L = Led201x

  const LED_COUNT: nat := 6
  const BLOCK_LEN: nat := 13
  const CRC_IDX_END: nat := 10
  const TRIES: nat := 3
  const TWO16: u32 := 0x1_0000
  const EBUSY: int := 16
  const OP_BRIGHTNESS: u8 := 0x01
  const OP_COLOR: u8 := 0x02
  const OP_ONOFF: u8 := 0x03
  const OP_BLINK: u8 := 0x04
  const OP_BREATH: u8 := 0x05

  type LedId = i: nat | i < LED_COUNT
  type Rgb = (u8, u8, u8)

  /** Colours 1 to 8. */
  const COLOR_TABLE: seq<Rgb> :=
    [(255, 255, 255), (220, 40, 0), (255, 0, 0), (0, 255, 0), (0, 0, 255), (0, 255, 255), (255, 0, 255), (255, 165, 0)]

  /** Colour 0 takes the row before the first: three bytes that the program does not determine. */
  function Row(front: Rgb, color: int): Rgb
    requires 0 <= color <= 8
  {
    if color == 0 then front else COLOR_TABLE[color - 1]
  }

  // ---------- Frames ----------

  datatype Command =
    | Light(value: u8)
    | Paint(rgb: Rgb)
    | Switch(on: bool)
    | Flash(high: u16, low: u16)
    | Breathe(high: u16, low: u16)

  function OpCode(c: Command): u8 {
    match c
    case Light(_) => OP_BRIGHTNESS
    case Paint(_) => OP_COLOR
    case Switch(_) => OP_ONOFF
    case Flash(_, _) => OP_BLINK
    case Breathe(_, _) => OP_BREATH
  }

  function Params(c: Command): (r: seq<u8>)
    ensures |r| == 4
  {
    match c
    case Light(v) => [v, 0, 0, 0]
    case Paint(rgb) => [rgb.0, rgb.1, rgb.2, 0]
    case Switch(on) => [if on then 1 else 0, 0, 0, 0]
    case Flash(h, l) => [h / 0x100, h % 0x100, l / 0x100, l % 0x100]
    case Breathe(h, l) => [h / 0x100, h % 0x100, l / 0x100, l % 0x100]
  }

  function SumOf(s: seq<u8>): nat {
    if s == [] then 0 else SumOf(s[..|s| - 1]) + s[|s| - 1]
  }

  /** The nine bytes under the checksum. */
  function Body(op: u8, params: seq<u8>): (b: seq<u8>)
    requires |params| == 4
    ensures |b| == 9
  {
    [0xA0, 0x01, 0x00, 0x00, op] + params
  }

  /** The twelve bytes sent: address, body, and the body's sum, high byte first. */
  function Frame(i: LedId, body: seq<u8>): (f: seq<u8>)
    requires |body| == 9
    ensures |f| == 12
  {
    [i] + body + [SumOf(body) / 0x100 % 0x100, SumOf(body) % 0x100]
  }

  function Encode(i: LedId, c: Command): seq<u8> {
    Frame(i, Body(OpCode(c), Params(c)))
  }

  /** The microcontroller takes a frame only if it is well formed and its checksum is right. */
  function Decode(f: seq<u8>): Option<(LedId, Command)> {
    if |f| != 12 || f[0] >= LED_COUNT || f[1..5] != [0xA0, 0x01, 0x00, 0x00] then None
    else if f[10] != SumOf(f[1..10]) / 0x100 % 0x100 || f[11] != SumOf(f[1..10]) % 0x100 then None
    else
      var high: u16, low: u16 := f[6] as int * 0x100 + f[7], f[8] as int * 0x100 + f[9];
      if f[5] == OP_BRIGHTNESS then Some((f[0], Light(f[6])))
      else if f[5] == OP_COLOR then Some((f[0], Paint((f[6], f[7], f[8]))))
      else if f[5] == OP_ONOFF && f[6] <= 1 then Some((f[0], Switch(f[6] == 1)))
      else if f[5] == OP_BLINK then Some((f[0], Flash(high, low)))
      else if f[5] == OP_BREATH then Some((f[0], Breathe(high, low)))
      else None
  }

  /** The bytes of a frame: the LED, four fixed bytes, what is asked, four parameters, and the sum
      of the nine bytes after the first. */
  lemma FrameBytes(i: LedId, c: Command)
    ensures var sum := SumOf(Encode(i, c)[1..10]);
            && Encode(i, c)[0] == i && Encode(i, c)[1..5] == [0xA0, 0x01, 0x00, 0x00]
            && Encode(i, c)[5] == (match c
                                   case Light(_) => 0x01
                                   case Paint(_) => 0x02
                                   case Switch(_) => 0x03
                                   case Flash(_, _) => 0x04
                                   case Breathe(_, _) => 0x05)
            && Encode(i, c)[6..10] == (match c
                                       case Light(v) => [v, 0, 0, 0]
                                       case Paint(rgb) => [rgb.0, rgb.1, rgb.2, 0]
                                       case Switch(on) => [if on then 1 else 0, 0, 0, 0]
                                       case Flash(h, l) => [h / 256, h % 256, l / 256, l % 256]
                                       case Breathe(h, l) => [h / 256, h % 256, l / 256, l % 256])
            && Encode(i, c)[10..] == [sum / 256 % 256, sum % 256]
  {
    assert Encode(i, c)[1..10] == Body(OpCode(c), Params(c));
  }

  /** What is sent is what arrives. */
  lemma RoundTrip(i: LedId, c: Command)
    ensures Decode(Encode(i, c)) == Some((i, c))
  {
    var f, b := Encode(i, c), Body(OpCode(c), Params(c));
    assert f[1..10] == b;
    assert f[1..5] == [0xA0, 0x01, 0x00, 0x00];
    assert f[6..10] == Params(c);
    assert f[6] == Params(c)[0] && f[7] == Params(c)[1] && f[8] == Params(c)[2] && f[9] == Params(c)[3];
  }

  lemma {:induction false} SumUpdate(s: seq<u8>, k: nat, v: u8)
    requires k < |s|
    ensures SumOf(s[k := v]) == SumOf(s) - s[k] + v
    decreases |s|
  {
    var n := |s| - 1;
    if k == n {
      assert s[k := v][..n] == s[..n];
    } else {
      assert s[k := v][..n] == s[..n][k := v];
      SumUpdate(s[..n], k, v);
    }
  }

  /** A frame with any one byte damaged behind the address is not taken. */
  lemma DamageDetected(i: LedId, c: Command, k: nat, v: u8)
    requires 1 <= k < 12 && v != Encode(i, c)[k]
    ensures Decode(Encode(i, c)[k := v]).None?
  {
    var f, b := Encode(i, c), Body(OpCode(c), Params(c));
    var g := f[k := v];
    assert f[1..10] == b;
    if k < 10 {
      assert g[1..10] == b[k - 1 := v];
      SumUpdate(b, k - 1, v);
      SumBound(b);
      SumBound(b[k - 1 := v]);
      WordBytes(SumOf(b), SumOf(b[k - 1 := v]));
    } else {
      assert g[1..10] == b;
    }
  }

  lemma {:induction false} SumBound(s: seq<u8>)
    ensures SumOf(s) <= 0xFF * |s|
    decreases |s|
  {
    if s == [] {
    } else {
      SumBound(s[..|s| - 1]);
    }
  }

  lemma WordBytes(x: nat, y: nat)
    requires x < TWO16 && y < TWO16 && x != y
    ensures x / 0x100 % 0x100 != y / 0x100 % 0x100 || x % 0x100 != y % 0x100
  {
    assert x == x / 0x100 * 0x100 + x % 0x100 && y == y / 0x100 * 0x100 + y % 0x100;
  }

  // ---------- The microcontroller and the link ----------

  datatype McuLed = McuLed(run: int, brightness: u8, rgb: Rgb, high: u16, low: u16)

  type Mcu = m: seq<McuLed> | |m| == LED_COUNT witness seq(LED_COUNT, _ => McuLed(0, 0, (0, 0, 0), 0, 0))

  function Obey(l: McuLed, c: Command): McuLed {
    match c
    case Light(v) => l.(brightness := v)
    case Paint(rgb) => l.(rgb := rgb)
    case Switch(on) => l.(run := if on then L.RUN_STATE_ON else L.RUN_STATE_OFF)
    case Flash(h, w) => l.(run := L.RUN_STATE_BLINK, high := h, low := w)
    case Breathe(h, w) => l.(run := L.RUN_STATE_BREATH, high := h, low := w)
  }

  function Receive(m: Mcu, f: seq<u8>): Mcu {
    match Decode(f)
    case None => m
    case Some((i, c)) => m[i := Obey(m[i], c)]
  }

  /** A byte of a frame behind its address. */
  type Place = p: nat | 1 <= p < 12 witness 1

  /** A frame is lost, arrives with one byte changed, or arrives whole with its acknowledgement
      seen by the driver or not. */
  datatype Fate = Lost | Damaged(place: Place, value: u8) | Taken(seen: bool)

  /** The fate of the k-th frame ever sent. */
  type Fates = nat -> Fate

  datatype Link = Link(mcu: Mcu, sent: nat)

  function Transmit(k: Link, fates: Fates, f: seq<u8>): Link {
    Link(match fates(k.sent)
         case Lost => k.mcu
         case Damaged(p, v) => Receive(k.mcu, if p < |f| then f[p := v] else f)
         case Taken(_) => Receive(k.mcu, f),
         k.sent + 1)
  }

  predicate Acked(k: Link, fates: Fates) {
    k.sent > 0 && fates(k.sent - 1) == Taken(true)
  }

  /** Looks for the acknowledgement and sends again while tries are left. */
  function Confirm(k: Link, fates: Fates, f: seq<u8>, tries: nat): (bool, Link)
    decreases tries
  {
    if tries == 0 then (false, k)
    else if Acked(k, fates) then (true, k)
    else Confirm(Transmit(k, fates, f), fates, f, tries - 1)
  }

  function Deliver(k: Link, fates: Fates, f: seq<u8>): (bool, Link) {
    Confirm(Transmit(k, fates, f), fates, f, TRIES)
  }

  lemma ReceiveTwice(m: Mcu, i: LedId, c: Command)
    ensures Receive(m, Encode(i, c)) == m[i := Obey(m[i], c)]
    ensures Receive(Receive(m, Encode(i, c)), Encode(i, c)) == Receive(m, Encode(i, c))
  {
    RoundTrip(i, c);
    var m' := m[i := Obey(m[i], c)];
    assert m'[i := Obey(m'[i], c)] == m';
  }

  /** A frame on the link takes effect or has none, and what is acknowledged has taken effect;
      damage never makes another command of it. */
  lemma TransmitEffect(k: Link, fates: Fates, i: LedId, c: Command)
    ensures var k' := Transmit(k, fates, Encode(i, c));
            && (k'.mcu == k.mcu || k'.mcu == Receive(k.mcu, Encode(i, c)))
            && (fates(k.sent).Taken? ==> k'.mcu == Receive(k.mcu, Encode(i, c)))
  {
    match fates(k.sent) {
      case Damaged(p, v) =>
        var f := Encode(i, c);
        if v == f[p] {
          assert f[p := v] == f;
        } else {
          DamageDetected(i, c, p, v);
        }
      case _ =>
    }
  }

  lemma {:induction false} ConfirmEffect(m: Mcu, k: Link, fates: Fates, i: LedId, c: Command, tries: nat)
    requires k.sent > 0
    requires k.mcu == m || k.mcu == Receive(m, Encode(i, c))
    requires fates(k.sent - 1).Taken? ==> k.mcu == Receive(m, Encode(i, c))
    ensures var (ok, k') := Confirm(k, fates, Encode(i, c), tries);
            && k'.sent <= k.sent + tries
            && (ok ==> k'.mcu == Receive(m, Encode(i, c)))
            && (!ok ==> k'.mcu == m || k'.mcu == Receive(m, Encode(i, c)))
    decreases tries
  {
    if tries == 0 || Acked(k, fates) {
    } else {
      ReceiveTwice(m, i, c);
      TransmitEffect(k, fates, i, c);
      ConfirmEffect(m, Transmit(k, fates, Encode(i, c)), fates, i, c, tries - 1);
    }
  }

  /** A confirmed command has been obeyed, an unconfirmed one perhaps; neither takes more
      than four frames or touches another LED. */
  lemma DeliverEffect(k: Link, fates: Fates, i: LedId, c: Command)
    ensures var (ok, k') := Deliver(k, fates, Encode(i, c));
            && k'.sent <= k.sent + 4
            && (ok ==> k'.mcu == k.mcu[i := Obey(k.mcu[i], c)])
            && (!ok ==> k'.mcu == k.mcu || k'.mcu == k.mcu[i := Obey(k.mcu[i], c)])
  {
    ReceiveTwice(k.mcu, i, c);
    TransmitEffect(k, fates, i, c);
    ConfirmEffect(k.mcu, Transmit(k, fates, Encode(i, c)), fates, i, c, TRIES);
  }

  /** A command is confirmed exactly if one of its first three frames is seen acknowledged; it
      stops there, and otherwise after the fourth frame. */
  lemma DeliverWhen(k: Link, fates: Fates, f: seq<u8>)
    ensures var (ok, k') := Deliver(k, fates, f);
            && (ok <==> || fates(k.sent) == Taken(true)
                        || fates(k.sent + 1) == Taken(true)
                        || fates(k.sent + 2) == Taken(true))
            && k'.sent == k.sent + if fates(k.sent) == Taken(true) then 1
                                   else if fates(k.sent + 1) == Taken(true) then 2
                                   else if fates(k.sent + 2) == Taken(true) then 3
                                   else 4
  {
    var k1 := Transmit(k, fates, f);
    var k2 := Transmit(k1, fates, f);
    var k3 := Transmit(k2, fates, f);
    var k4 := Transmit(k3, fates, f);
    assert Confirm(k4, fates, f, 0) == (false, k4);
    assert Confirm(k3, fates, f, 1) == if Acked(k3, fates) then (true, k3) else (false, k4);
    assert Confirm(k2, fates, f, 2) == if Acked(k2, fates) then (true, k2) else Confirm(k3, fates, f, 1);
    assert Confirm(k1, fates, f, 3) == if Acked(k1, fates) then (true, k1) else Confirm(k2, fates, f, 2);
  }

  // ---------- Requests ----------

  datatype Request =
    | Brightness(value: int)
    | Blink(trigger: L.Trigger, on: u64, off: u64)
    | Color(state: u64)

  datatype Op = Op(led: LedId, req: Request)

  /** The colour that color_set passes on: three bits of the number, so that 8 becomes 0. */
  function ColorOf(state: u64): Option<int> {
    if state > 8 then None else if state < 1 then Some(1) else Some(state % 8)
  }

  /** As for the 201x driver, except that a breath request with a zero time is not dropped. */
  function PatternOf(trigger: L.Trigger, on: u64, off: u64): Option<L.Pattern> {
    if trigger.Breath? then Some(L.Sum(L.RUN_STATE_BREATH, L.AtLeast(on, 1000), L.AtLeast(off, 500)))
    else L.PatternOf(trigger, on, off)
  }

  function PatternCommand(p: L.Pattern): Command {
    if p.mode == L.RUN_STATE_BLINK then Flash(p.high % 0x1_0000, p.low % 0x1_0000)
    else Breathe(p.high % 0x1_0000, p.low % 0x1_0000)
  }

  /** `spoiled` collects the LEDs on which some command ran out of tries; `front` is the row
      before the colour table. */
  datatype Driver = Driver(leds: seq<L.Led>, link: Link, spoiled: set<LedId>, front: Rgb)

  predicate Sized(d: Driver) {
    |d.leds| == LED_COUNT
  }

  /** Sends a command and, once it is confirmed, replaces the LED's cache. */
  function Issue(d: Driver, fates: Fates, i: LedId, c: Command, led: L.Led): Driver
    requires Sized(d)
  {
    var (ok, k) := Deliver(d.link, fates, Encode(i, c));
    if ok then d.(leds := d.leds[i := led], link := k) else d.(link := k, spoiled := d.spoiled + {i})
  }

  function SetOnOff(d: Driver, fates: Fates, i: LedId, on: bool): Driver
    requires Sized(d)
  {
    var state := if on then L.RUN_STATE_ON else L.RUN_STATE_OFF;
    if d.leds[i].runState == state then d else Issue(d, fates, i, Switch(on), d.leds[i].(runState := state))
  }

  function SetBrightness(d: Driver, fates: Fates, i: LedId, value: u8): Driver
    requires Sized(d)
  {
    if value == 1 then SetOnOff(d, fates, i, true)
    else if value == 0 then SetOnOff(d, fates, i, false)
    else if d.leds[i].brightness == value then d
    else Issue(d, fates, i, Light(value), d.leds[i].(brightness := value))
  }

  function SetPattern(d: Driver, fates: Fates, i: LedId, p: L.Pattern): Driver
    requires Sized(d)
  {
    if L.Repeats(d.leds[i], p) then d else Issue(d, fates, i, PatternCommand(p), L.Remember(d.leds[i], p))
  }

  function SetBlink(d: Driver, fates: Fates, i: LedId, trigger: L.Trigger, on: u64, off: u64): Driver
    requires Sized(d)
  {
    if trigger.Normal? then
      if d.leds[i].runState != L.RUN_STATE_OFF && d.leds[i].runState != L.RUN_STATE_ON then SetOnOff(d, fates, i, false)
      else d
    else
      match PatternOf(trigger, on, off)
      case None => d
      case Some(p) => SetPattern(d, fates, i, p)
  }

  function SetColor(d: Driver, fates: Fates, i: LedId, color: int): Driver
    requires Sized(d) && 0 <= color <= 7
  {
    if d.leds[i].color == color then d
    else Issue(d, fates, i, Paint(Row(d.front, color)), d.leds[i].(color := color))
  }

  function Perform(d: Driver, fates: Fates, op: Op): (d': Driver)
    requires Sized(d)
    ensures Sized(d')
  {
    match op.req
    case Brightness(v) => if 0 <= v <= 255 then SetBrightness(d, fates, op.led, v) else d
    case Blink(t, on, off) => SetBlink(d, fates, op.led, t, on, off)
    case Color(state) =>
      match ColorOf(state)
      case None => d
      case Some(color) => SetColor(d, fates, op.led, color)
  }

  function Run(d: Driver, fates: Fates, ops: seq<Op>): (d': Driver)
    requires Sized(d)
    ensures Sized(d')
    decreases |ops|
  {
    if ops == [] then d else Perform(Run(d, fates, ops[..|ops| - 1]), fates, ops[|ops| - 1])
  }

  // ---------- Cache and microcontroller agree ----------

  predicate AgreeLed(led: L.Led, m: McuLed) {
    && led.runState == m.run && L.RUN_STATE_OFF <= led.runState <= L.RUN_STATE_BREATH
    && led.brightness == m.brightness
    && 0 <= led.color <= 7 && (led.color != L.COLOR_NONE ==> m.rgb == COLOR_TABLE[led.color - 1])
    && (led.runState == L.RUN_STATE_BLINK ==> led.blinkHigh == m.high && led.blinkLow == m.low)
    && (led.runState == L.RUN_STATE_BREATH ==> led.breathHigh == m.high && led.breathLow == m.low)
  }

  /** Every LED on which no command has run out of tries. */
  ghost predicate Agree(d: Driver) {
    Sized(d) && forall i: LedId :: i !in d.spoiled ==> AgreeLed(d.leds[i], d.link.mcu[i])
  }

  /** What the cache keeps of the pattern's times is what fits into the frame. */
  predicate Fits(p: L.Pattern) {
    p.high % L.TWO32 < TWO16 && p.low % L.TWO32 < TWO16
  }

  predicate Narrow(op: Op) {
    op.req.Blink? ==>
      match PatternOf(op.req.trigger, op.req.on, op.req.off)
      case None => true
      case Some(p) => Fits(p)
  }

  lemma CommandAgrees(d: Driver, fates: Fates, i: LedId, c: Command, led: L.Led)
    requires Agree(d) && (AgreeLed(d.leds[i], d.link.mcu[i]) ==> AgreeLed(led, Obey(d.link.mcu[i], c)))
    ensures Agree(Issue(d, fates, i, c, led))
    ensures Issue(d, fates, i, c, led).link.sent <= d.link.sent + 4
  {
    DeliverEffect(d.link, fates, i, c);
  }

  lemma OnOffAgrees(d: Driver, fates: Fates, i: LedId, on: bool)
    requires Agree(d)
    ensures Agree(SetOnOff(d, fates, i, on)) && SetOnOff(d, fates, i, on).link.sent <= d.link.sent + 4
  {
    CommandAgrees(d, fates, i, Switch(on), d.leds[i].(runState := if on then L.RUN_STATE_ON else L.RUN_STATE_OFF));
  }

  lemma BrightnessAgrees(d: Driver, fates: Fates, i: LedId, value: u8)
    requires Agree(d)
    ensures Agree(SetBrightness(d, fates, i, value)) && SetBrightness(d, fates, i, value).link.sent <= d.link.sent + 4
  {
    if value <= 1 {
      OnOffAgrees(d, fates, i, value == 1);
    } else {
      CommandAgrees(d, fates, i, Light(value), d.leds[i].(brightness := value));
    }
  }

  /** From agreement, a pattern that is confirmed and not skipped keeps it if and only if its
      times fit. */
  lemma PatternAgreesWhen(d: Driver, fates: Fates, i: LedId, p: L.Pattern)
    requires Agree(d) && i !in d.spoiled && (p.mode == L.RUN_STATE_BLINK || p.mode == L.RUN_STATE_BREATH)
    requires !L.Repeats(d.leds[i], p) && Deliver(d.link, fates, Encode(i, PatternCommand(p))).0
    ensures Agree(SetPattern(d, fates, i, p)) <==> Fits(p)
  {
    DeliverEffect(d.link, fates, i, PatternCommand(p));
    var d' := SetPattern(d, fates, i, p);
    RememberAgreesWhen(d.leds[i], d.link.mcu[i], p);
    if Fits(p) {
      CommandAgrees(d, fates, i, PatternCommand(p), L.Remember(d.leds[i], p));
    } else {
      assert i !in d'.spoiled && !AgreeLed(d'.leds[i], d'.link.mcu[i]);
    }
  }

  lemma RememberAgreesWhen(led: L.Led, m: McuLed, p: L.Pattern)
    requires AgreeLed(led, m) && (p.mode == L.RUN_STATE_BLINK || p.mode == L.RUN_STATE_BREATH)
    ensures AgreeLed(L.Remember(led, p), Obey(m, PatternCommand(p))) <==> Fits(p)
  {
    LowBits(p.high);
    LowBits(p.low);
  }

  lemma LowBits(t: u64)
    ensures t % L.TWO32 == t % TWO16 <==> t % L.TWO32 < TWO16
  {
    var q := t / L.TWO32;
    assert t == q * L.TWO32 + t % L.TWO32;
    assert t % TWO16 == t % L.TWO32 % TWO16;
  }

  lemma PatternAgrees(d: Driver, fates: Fates, i: LedId, p: L.Pattern)
    requires Agree(d) && (p.mode == L.RUN_STATE_BLINK || p.mode == L.RUN_STATE_BREATH) && Fits(p)
    ensures Agree(SetPattern(d, fates, i, p)) && SetPattern(d, fates, i, p).link.sent <= d.link.sent + 4
  {
    if AgreeLed(d.leds[i], d.link.mcu[i]) {
      RememberAgreesWhen(d.leds[i], d.link.mcu[i], p);
    }
    CommandAgrees(d, fates, i, PatternCommand(p), L.Remember(d.leds[i], p));
  }

  lemma ColorAgrees(d: Driver, fates: Fates, i: LedId, color: int)
    requires Agree(d) && 0 <= color <= 7
    ensures Agree(SetColor(d, fates, i, color)) && SetColor(d, fates, i, color).link.sent <= d.link.sent + 4
  {
    if d.leds[i].color != color {
      PaintAgrees(d.leds[i], d.link.mcu[i], d.front, color);
      CommandAgrees(d, fates, i, Paint(Row(d.front, color)), d.leds[i].(color := color));
    }
  }

  lemma PaintAgrees(led: L.Led, m: McuLed, front: Rgb, color: int)
    requires 0 <= color <= 7
    ensures AgreeLed(led, m) ==> AgreeLed(led.(color := color), Obey(m, Paint(Row(front, color))))
  {
  }

  lemma PerformAgrees(d: Driver, fates: Fates, op: Op)
    requires Agree(d) && Narrow(op)
    ensures Agree(Perform(d, fates, op)) && Perform(d, fates, op).link.sent <= d.link.sent + 4
  {
    match op.req {
      case Brightness(v) =>
        if 0 <= v <= 255 {
          BrightnessAgrees(d, fates, op.led, v);
        }
      case Blink(t, on, off) =>
        if t.Normal? {
          OnOffAgrees(d, fates, op.led, false);
        } else if PatternOf(t, on, off).Some? {
          PatternAgrees(d, fates, op.led, PatternOf(t, on, off).value);
        }
      case Color(state) =>
        if ColorOf(state).Some? {
          ColorAgrees(d, fates, op.led, ColorOf(state).value);
        }
    }
  }

  predicate AllNarrow(ops: seq<Op>) {
    forall k :: 0 <= k < |ops| ==> Narrow(ops[k])
  }

  lemma {:induction false} RunAgrees(d: Driver, fates: Fates, ops: seq<Op>)
    requires Agree(d) && AllNarrow(ops)
    ensures Agree(Run(d, fates, ops))
    ensures Run(d, fates, ops).link.sent <= d.link.sent + 4 * |ops|
    decreases |ops|
  {
    if ops == [] {
    } else {
      var n := |ops| - 1;
      RunAgrees(d, fates, ops[..n]);
      PerformAgrees(Run(d, fates, ops[..n]), fates, ops[n]);
    }
  }

  /** A link that loses nothing. */
  function Perfect(): Fates {
    _ => Taken(true)
  }

  lemma PerfectSpoilsNothing(d: Driver, op: Op)
    requires Sized(d)
    ensures Perform(d, Perfect(), op).spoiled == d.spoiled
  {
    forall k: Link, f: seq<u8> ensures Deliver(k, Perfect(), f).0 {
    }
  }

  lemma {:induction false} PerfectRun(d: Driver, ops: seq<Op>)
    requires Sized(d)
    ensures Run(d, Perfect(), ops).spoiled == d.spoiled
    decreases |ops|
  {
    if ops == [] {
    } else {
      var n := |ops| - 1;
      PerfectRun(d, ops[..n]);
      PerfectSpoilsNothing(Run(d, Perfect(), ops[..n]), ops[n]);
    }
  }

  /** Even on a perfect link, a request whose times do not fit breaks agreement: it never looks
      like a repetition, and what is cached is not what is sent. */
  lemma WideTimeDisagrees(d: Driver, op: Op)
    requires Agree(d) && d.spoiled == {} && !Narrow(op)
    ensures !Agree(Perform(d, Perfect(), op))
  {
    var i, p := op.led, PatternOf(op.req.trigger, op.req.on, op.req.off).value;
    assert AgreeLed(d.leds[i], d.link.mcu[i]);
    WideNeverRepeats(d.leds[i], d.link.mcu[i], p);
    FirstTry(d.link, Perfect(), Encode(i, PatternCommand(p)));
    PatternAgreesWhen(d, Perfect(), i, p);
  }

  lemma WideNeverRepeats(led: L.Led, m: McuLed, p: L.Pattern)
    requires AgreeLed(led, m) && (p.mode == L.RUN_STATE_BLINK || p.mode == L.RUN_STATE_BREATH) && !Fits(p)
    ensures !L.Repeats(led, p)
  {
  }

  lemma FirstTry(k: Link, fates: Fates, f: seq<u8>)
    requires fates(k.sent) == Taken(true)
    ensures Deliver(k, fates, f).0
  {
  }

  // ---------- What requests make the LEDs show ----------

  function Max(t: u64, least: u64): u64 {
    if t >= least then t else least
  }

  function Showing(m: McuLed, run: int, high: nat, low: nat): McuLed {
    m.(run := run, high := high % 0x1_0000_0000_0000_0000 % 0x1_0000, low := low % 0x1_0000)
  }

  /** What a request asks of an LED, with nothing of caches, frames or tries; colour 8, which asks
      for a row that is not there, apart. */
  function Wanted(m: McuLed, req: Request): McuLed {
    match req
    case Brightness(v) =>
      if v == 0 then m.(run := 0) else if v == 1 then m.(run := 1)
      else if 2 <= v <= 255 then m.(brightness := v) else m
    case Blink(Normal, _, _) => if m.run == 2 || m.run == 3 then m.(run := 0) else m
    case Blink(Timer2, on, off) =>
      if on == 0 || off == 0 then m else Showing(m, 2, Max(on, 100) + Max(off, 100), Max(on, 100))
    case Blink(Breath, on, off) => Showing(m, 3, Max(on, 1000) + Max(off, 500), Max(on, 1000))
    case Blink(Other, on, off) => Showing(m, 2, on + off, on)
    case Color(n) =>
      m.(rgb := if n == 0 || n == 1 then (255, 255, 255)
                else if n == 2 then (220, 40, 0)
                else if n == 3 then (255, 0, 0)
                else if n == 4 then (0, 255, 0)
                else if n == 5 then (0, 0, 255)
                else if n == 6 then (0, 255, 255)
                else if n == 7 then (255, 0, 255)
                else m.rgb)
  }

  /** If the cache agrees with the LED and the command, when there is one, is confirmed, then the
      LED shows what was wanted; and a skipped command was not needed. */
  lemma IssuedShows(d: Driver, fates: Fates, i: LedId, c: Command, led: L.Led)
    requires Sized(d) && i !in Issue(d, fates, i, c, led).spoiled
    ensures Issue(d, fates, i, c, led).link.mcu == d.link.mcu[i := Obey(d.link.mcu[i], c)]
  {
    DeliverEffect(d.link, fates, i, c);
  }

  lemma OnOffShows(d: Driver, fates: Fates, i: LedId, on: bool)
    requires Agree(d) && i !in d.spoiled && i !in SetOnOff(d, fates, i, on).spoiled
    ensures SetOnOff(d, fates, i, on).link.mcu == d.link.mcu[i := d.link.mcu[i].(run := if on then 1 else 0)]
  {
    var state := if on then L.RUN_STATE_ON else L.RUN_STATE_OFF;
    assert AgreeLed(d.leds[i], d.link.mcu[i]);
    if d.leds[i].runState != state {
      IssuedShows(d, fates, i, Switch(on), d.leds[i].(runState := state));
    }
  }

  lemma BrightnessShows(d: Driver, fates: Fates, i: LedId, v: u8)
    requires Agree(d) && i !in d.spoiled && i !in SetBrightness(d, fates, i, v).spoiled
    ensures SetBrightness(d, fates, i, v).link.mcu == d.link.mcu[i := Wanted(d.link.mcu[i], Brightness(v))]
  {
    assert AgreeLed(d.leds[i], d.link.mcu[i]);
    if v <= 1 {
      OnOffShows(d, fates, i, v == 1);
    } else if d.leds[i].brightness != v {
      IssuedShows(d, fates, i, Light(v), d.leds[i].(brightness := v));
    }
  }

  lemma PatternShows(d: Driver, fates: Fates, i: LedId, p: L.Pattern)
    requires Agree(d) && i !in d.spoiled && i !in SetPattern(d, fates, i, p).spoiled
    requires p.mode == L.RUN_STATE_BLINK || p.mode == L.RUN_STATE_BREATH
    ensures SetPattern(d, fates, i, p).link.mcu == d.link.mcu[i := Showing(d.link.mcu[i], p.mode, p.high, p.low)]
  {
    var m := d.link.mcu[i];
    ObeyedPattern(m, p);
    if L.Repeats(d.leds[i], p) {
      assert AgreeLed(d.leds[i], m);
      RepeatedPattern(d.leds[i], m, p);
    } else {
      IssuedShows(d, fates, i, PatternCommand(p), L.Remember(d.leds[i], p));
    }
  }

  lemma ObeyedPattern(m: McuLed, p: L.Pattern)
    requires p.mode == L.RUN_STATE_BLINK || p.mode == L.RUN_STATE_BREATH
    ensures Obey(m, PatternCommand(p)) == Showing(m, p.mode, p.high, p.low)
  {
  }

  lemma RepeatedPattern(led: L.Led, m: McuLed, p: L.Pattern)
    requires AgreeLed(led, m) && L.Repeats(led, p)
    requires p.mode == L.RUN_STATE_BLINK || p.mode == L.RUN_STATE_BREATH
    ensures Showing(m, p.mode, p.high, p.low) == m
  {
  }

  lemma BlinkShows(d: Driver, fates: Fates, i: LedId, t: L.Trigger, on: u64, off: u64)
    requires Agree(d) && i !in d.spoiled && i !in SetBlink(d, fates, i, t, on, off).spoiled
    ensures SetBlink(d, fates, i, t, on, off).link.mcu == d.link.mcu[i := Wanted(d.link.mcu[i], Blink(t, on, off))]
  {
    var m := d.link.mcu[i];
    assert AgreeLed(d.leds[i], m);
    if t.Normal? {
      if d.leds[i].runState != L.RUN_STATE_OFF && d.leds[i].runState != L.RUN_STATE_ON {
        OnOffShows(d, fates, i, false);
      }
    } else {
      PatternWanted(m, t, on, off);
      if PatternOf(t, on, off).Some? {
        PatternShows(d, fates, i, PatternOf(t, on, off).value);
      }
    }
  }

  lemma PatternWanted(m: McuLed, t: L.Trigger, on: u64, off: u64)
    requires !t.Normal?
    ensures match PatternOf(t, on, off)
            case None => Wanted(m, Blink(t, on, off)) == m
            case Some(p) =>
              && (p.mode == L.RUN_STATE_BLINK || p.mode == L.RUN_STATE_BREATH)
              && Wanted(m, Blink(t, on, off)) == Showing(m, p.mode, p.high, p.low)
  {
    match t {
      case Timer2 => SumWraps(m, 2, Max(on, 100), Max(off, 100));
      case Breath => SumWraps(m, 3, Max(on, 1000), Max(off, 500));
      case _ => SumWraps(m, 2, on, off);
    }
  }

  /** The sum wraps at 64 bits before it is cut to 16. */
  lemma SumWraps(m: McuLed, mode: int, on: u64, off: u64)
    ensures var p := L.Sum(mode, on, off);
            p.mode == mode && Showing(m, mode, on + off, on) == Showing(m, p.mode, p.high, p.low)
  {
  }

  lemma ColorShows(d: Driver, fates: Fates, i: LedId, n: u64)
    requires Agree(d) && i !in d.spoiled && n <= 7
    requires i !in SetColor(d, fates, i, ColorOf(n).value).spoiled
    ensures SetColor(d, fates, i, ColorOf(n).value).link.mcu == d.link.mcu[i := Wanted(d.link.mcu[i], Color(n))]
  {
    var color := ColorOf(n).value;
    RowWanted(d.link.mcu[i], d.front, n);
    if d.leds[i].color != color {
      IssuedShows(d, fates, i, Paint(Row(d.front, color)), d.leds[i].(color := color));
    } else {
      ColorCached(d, i);
    }
  }

  lemma RowWanted(m: McuLed, front: Rgb, n: u64)
    requires n <= 7
    ensures ColorOf(n) == Some(if n == 0 then 1 else n)
    ensures Wanted(m, Color(n)) == m.(rgb := Row(front, ColorOf(n).value))
  {
  }

  lemma ColorCached(d: Driver, i: LedId)
    requires Agree(d) && i !in d.spoiled && d.leds[i].color != L.COLOR_NONE
    ensures 1 <= d.leds[i].color <= 7 && d.link.mcu[i].rgb == Row(d.front, d.leds[i].color)
  {
    assert AgreeLed(d.leds[i], d.link.mcu[i]);
  }

  /** From agreement, over any link, a request on whose LED no command runs out of tries makes the
      microcontroller show what it asks for on that LED, and changes no other. */
  lemma RequestShows(d: Driver, fates: Fates, op: Op)
    requires Agree(d) && op.led !in d.spoiled && op.led !in Perform(d, fates, op).spoiled && op.req != Color(8)
    ensures Perform(d, fates, op).link.mcu == d.link.mcu[op.led := Wanted(d.link.mcu[op.led], op.req)]
  {
    match op.req {
      case Brightness(v) =>
        if 0 <= v <= 255 {
          BrightnessShows(d, fates, op.led, v);
        }
      case Blink(t, on, off) => BlinkShows(d, fates, op.led, t, on, off);
      case Color(n) =>
        if n <= 7 {
          ColorShows(d, fates, op.led, n);
        }
    }
  }

  function WantedAll(mcu: Mcu, ops: seq<Op>): Mcu
    decreases |ops|
  {
    if ops == [] then mcu
    else
      var m, op := WantedAll(mcu, ops[..|ops| - 1]), ops[|ops| - 1];
      m[op.led := Wanted(m[op.led], op.req)]
  }

  /** On a perfect link every sequence of narrow requests shows, LED by LED, what it asks for. */
  lemma {:induction false} PerfectRunShows(d: Driver, ops: seq<Op>)
    requires Agree(d) && d.spoiled == {} && AllNarrow(ops)
    requires forall k :: 0 <= k < |ops| ==> ops[k].req != Color(8)
    ensures Run(d, Perfect(), ops).link.mcu == WantedAll(d.link.mcu, ops)
    decreases |ops|
  {
    if ops == [] {
    } else {
      var n := |ops| - 1;
      PerfectRunShows(d, ops[..n]);
      RunAgrees(d, Perfect(), ops[..n]);
      PerfectRun(d, ops[..n]);
      PerfectSpoilsNothing(Run(d, Perfect(), ops[..n]), ops[n]);
      RequestShows(Run(d, Perfect(), ops[..n]), Perfect(), ops[n]);
    }
  }

  // ---------- Agreement, request by request ----------

  /** Agreement after the first n requests. */
  ghost predicate AgreesAfter(d: Driver, fates: Fates, ops: seq<Op>, n: nat)
    requires Sized(d) && n <= |ops|
  {
    Agree(Run(d, fates, ops[..n]))
  }

  ghost predicate AgreesThroughout(d: Driver, fates: Fates, ops: seq<Op>)
    requires Sized(d)
  {
    forall n: nat :: n <= |ops| ==> AgreesAfter(d, fates, ops, n)
  }

  lemma AgreesEarlier(d: Driver, fates: Fates, ops: seq<Op>, n: nat)
    requires n <= |ops| && Sized(d) && AgreesThroughout(d, fates, ops)
    ensures AgreesThroughout(d, fates, ops[..n])
  {
    forall k: nat | k <= |ops[..n]| ensures AgreesAfter(d, fates, ops[..n], k) {
      assert ops[..n][..k] == ops[..k];
      assert AgreesAfter(d, fates, ops, k);
    }
  }

  lemma AllNarrowSnoc(ops: seq<Op>, op: Op)
    ensures AllNarrow(ops + [op]) <==> AllNarrow(ops) && Narrow(op)
  {
    assert (ops + [op])[|ops|] == op;
    forall k | 0 <= k < |ops| ensures (ops + [op])[k] == ops[k] {
    }
  }

  lemma LastNarrow(d: Driver, ops: seq<Op>, op: Op)
    requires Agree(d) && d.spoiled == {} && Agree(Run(d, Perfect(), ops))
    requires Agree(Perform(Run(d, Perfect(), ops), Perfect(), op))
    ensures Narrow(op)
  {
    PerfectRun(d, ops);
    if !Narrow(op) {
      WideTimeDisagrees(Run(d, Perfect(), ops), op);
    }
  }

  lemma {:induction false} AgreementNeedsNarrow(d: Driver, ops: seq<Op>)
    requires Agree(d) && d.spoiled == {} && AgreesThroughout(d, Perfect(), ops)
    ensures AllNarrow(ops)
    decreases |ops|
  {
    if ops == [] {
    } else {
      var n := |ops| - 1;
      AgreesEarlier(d, Perfect(), ops, n);
      AgreementNeedsNarrow(d, ops[..n]);
      assert AgreesAfter(d, Perfect(), ops, n) && AgreesAfter(d, Perfect(), ops, n + 1);
      assert ops[..n + 1] == ops == ops[..n] + [ops[n]];
      LastNarrow(d, ops[..n], ops[n]);
      AllNarrowSnoc(ops[..n], ops[n]);
    }
  }

  /** From agreement, a sequence of requests keeps every LED on which no command has run out of
      tries in agreement at every moment, whatever the link loses, if and only if the times of
      each request, taken modulo 2^32, are below 2^16. */
  lemma CacheAgrees(d: Driver, ops: seq<Op>)
    requires Agree(d) && d.spoiled == {}
    ensures (forall fates: Fates :: AgreesThroughout(d, fates, ops)) <==> AllNarrow(ops)
  {
    if forall fates: Fates :: AgreesThroughout(d, fates, ops) {
      AgreementNeedsNarrow(d, ops);
    }
    if AllNarrow(ops) {
      forall fates: Fates, n: nat | n <= |ops| ensures AgreesAfter(d, fates, ops, n) {
        RunAgrees(d, fates, ops[..n]);
      }
    }
  }

  /** A colour request on a perfect link shows the row of its number, except that 8 shows the
      row before the table, or, while no colour is cached, changes nothing. */
  lemma ColorShownWhen(d: Driver, i: LedId, state: u64)
    requires Agree(d) && d.spoiled == {} && 1 <= state <= 8
    ensures Perform(d, Perfect(), Op(i, Color(state))).link.mcu[i].rgb == COLOR_TABLE[state - 1] <==>
              || state <= 7
              || (if d.leds[i].color == L.COLOR_NONE then d.link.mcu[i].rgb else d.front) == COLOR_TABLE[7]
  {
    var color := ColorOf(state).value;
    assert color == if state <= 7 then state else 0;
    assert AgreeLed(d.leds[i], d.link.mcu[i]);
    PerfectColor(d, i, color);
  }

  lemma PerfectColor(d: Driver, i: LedId, color: int)
    requires Sized(d) && 0 <= color <= 7
    ensures SetColor(d, Perfect(), i, color).link.mcu[i].rgb ==
              if d.leds[i].color == color then d.link.mcu[i].rgb else Row(d.front, color)
  {
    var c := Paint(Row(d.front, color));
    FirstTry(d.link, Perfect(), Encode(i, c));
    DeliverEffect(d.link, Perfect(), i, c);
  }

  /** Running out of tries does break agreement: the microcontroller may have obeyed. */
  lemma SpoiledMayDisagree(d: Driver, i: LedId)
    requires Agree(d) && d.spoiled == {} && d.leds[i].runState != L.RUN_STATE_OFF
    ensures var d' := Perform(d, _ => Taken(false), Op(i, Brightness(0)));
            && d'.spoiled == {i} && d'.leds == d.leds
            && d'.link.mcu[i].run == L.RUN_STATE_OFF && d'.link.sent == d.link.sent + 4
  {
    var fates: Fates, f := _ => Taken(false), Encode(i, Switch(false));
    ReceiveTwice(d.link.mcu, i, Switch(false));
    var k1 := Transmit(d.link, fates, f);
    var k2 := Transmit(k1, fates, f);
    var k3 := Transmit(k2, fates, f);
    var k4 := Transmit(k3, fates, f);
    assert Confirm(k4, fates, f, 0) == (false, k4);
    assert Confirm(k3, fates, f, 1) == Confirm(k2, fates, f, 2) == Confirm(k1, fates, f, 3) == (false, k4);
  }

  // ---------- Reading the state back ----------

  /** The reply to a state read: nine bytes and their sum. */
  function Report(m: McuLed): (r: seq<u8>)
    requires 0 <= m.run <= 3
    ensures |r| == 11
  {
    var b := [m.run, m.brightness, m.rgb.0, m.rgb.1, m.rgb.2,
              m.high / 0x100, m.high % 0x100, m.low / 0x100, m.low % 0x100];
    b + [SumOf(b) / 0x100 % 0x100, SumOf(b) % 0x100]
  }

  /** The colour number the driver makes of three bytes. */
  function ColorRead(rgb: Rgb): int {
    if rgb.0 == 220 && rgb.1 == 40 then 2
    else if rgb == (255, 0, 0) then 3
    else if rgb == (0, 255, 0) then 4
    else if rgb == (0, 0, 255) then 5
    else 1
  }

  /** led_init_read_state: the return code and the LED's cache afterwards. */
  function ReadState(led: L.Led, data: seq<u8>): (int, L.Led) {
    if |data| != 11 then (-1, led)
    else if SumOf(data[..9]) == 0
         || data[9] != SumOf(data[..9]) / 0x100 % 0x100 || data[10] != SumOf(data[..9]) % 0x100 then (11, led)
    else if data[0] > 3 then (-1, led)
    else if data[0] == L.RUN_STATE_OFF then (0, led)
    else (0, led.(runState := data[0], brightness := data[1], color := ColorRead((data[2], data[3], data[4]))))
  }

  lemma {:induction false} SumPositive(s: seq<u8>, k: nat)
    requires k < |s| && s[k] > 0
    ensures SumOf(s) > 0
    decreases |s|
  {
    if k == |s| - 1 {
    } else {
      SumPositive(s[..|s| - 1], k);
    }
  }

  /** Reading back an LED that is not off succeeds, and brings the cache into agreement if and
      only if its colour is one of the first five and its cached times are those it shows. */
  lemma ReadBackAgrees(led: L.Led, m: McuLed)
    requires 1 <= m.run <= 3
    ensures var (ret, led') := ReadState(led, Report(m));
            && ret == 0 && led'.runState == m.run && led'.brightness == m.brightness
            && (AgreeLed(led', m) <==>
                  && m.rgb in COLOR_TABLE[..5]
                  && (m.run == L.RUN_STATE_BLINK ==> led.blinkHigh == m.high && led.blinkLow == m.low)
                  && (m.run == L.RUN_STATE_BREATH ==> led.breathHigh == m.high && led.breathLow == m.low))
  {
    var r := Report(m);
    SumPositive(r[..9], 0);
    assert r[..9] + [r[9], r[10]] == r;
    var t := COLOR_TABLE[..5];
    assert t == [(255, 255, 255), (220, 40, 0), (255, 0, 0), (0, 255, 0), (0, 0, 255)];
    if m.rgb in t {
      assert m.rgb == t[0] || m.rgb == t[1] || m.rgb == t[2] || m.rgb == t[3] || m.rgb == t[4];
    }
    assert t[ColorRead(m.rgb) - 1] in t;
  }

  /** Reading back an LED that is off succeeds and leaves the cache as it was, whatever that says. */
  lemma ReadBackOff(led: L.Led, m: McuLed)
    requires m.run == 0
    ensures ReadState(led, Report(m)) == if SumOf(Report(m)[..9]) == 0 then (11, led) else (0, led)
  {
  }

  /** A report with any one byte changed, or of another length, is refused and changes nothing. */
  lemma BadReportIgnored(led: L.Led, m: McuLed, k: nat, v: u8)
    requires 0 <= m.run <= 3 && k < 11 && v != Report(m)[k]
    ensures var (ret, led') := ReadState(led, Report(m)[k := v]); ret != 0 && led' == led
  {
    var r := Report(m);
    var b := r[..9];
    if k < 9 {
      assert r[k := v][..9] == b[k := v];
      SumUpdate(b, k, v);
      SumBound(b);
      SumBound(b[k := v]);
      WordBytes(SumOf(b), SumOf(b[k := v]));
    } else {
      assert r[k := v][..9] == b;
    }
  }

  // ---------- The driver as it stands ----------

  class Leds {
    const leds: array<L.Led>
    const fates: Fates
    const front: Rgb
    const values: array<int>
    var pending: set<LedId>
    var link: Link
    ghost var spoiled: set<LedId>

    /** `pending` is the set of LEDs whose brightness work is scheduled, `values` what it is to set. */
    ghost predicate Valid()
      reads this, values
    {
      && leds.Length == values.Length == LED_COUNT
      && forall i :: i in pending ==> 0 <= values[i] <= 255
    }

    ghost function State(): (d: Driver)
      requires Valid()
      reads this, leds, values
      ensures Sized(d)
    {
      Driver(leds[..], link, spoiled, front)
    }

    constructor (leds: array<L.Led>, fates: Fates, link: Link, front: Rgb)
      requires leds.Length == LED_COUNT
      ensures Valid() && this.leds == leds && this.fates == fates && pending == {}
      ensures State() == Driver(leds[..], link, {}, front)
    {
      this.leds, this.fates, this.link, this.front := leds, fates, link, front;
      pending, spoiled := {}, {};
      values := new int[LED_COUNT](_ => 0);
    }

    /** The sum of bytes 2 to 10. */
    method Checksum(data: array<u8>) returns (num: nat)
      requires data.Length == BLOCK_LEN
      ensures num == SumOf(data[2..CRC_IDX_END + 1])
    {
      num := 0;
      for j := 2 to CRC_IDX_END + 1
        invariant num == SumOf(data[2..j])
      {
        assert data[2..j + 1][..j - 2] == data[2..j];
        num := num + data[j];
      }
    }

    /** Fills the block and appends its sum. */
    method Block(i: LedId, op: u8, params: seq<u8>) returns (data: array<u8>)
      requires |params| == 4
      ensures fresh(data) && data.Length == BLOCK_LEN && data[1..] == Frame(i, Body(op, params))
    {
      data := Filled(i, op, params);
      var num := Checksum(data);
      AppendSum(data, num);
      SplitBlock(data[..]);
    }

    method Filled(i: LedId, op: u8, params: seq<u8>) returns (data: array<u8>)
      requires |params| == 4
      ensures fresh(data) && data.Length == BLOCK_LEN && data[1] == i && data[2..CRC_IDX_END + 1] == Body(op, params)
    {
      data := new u8[BLOCK_LEN] [0x00, 0x00, 0xA0, 0x01, 0x00, 0x00, 0x00, 0x00, 0x00, 0x00, 0x00, 0x00, 0x00];
      data[0], data[1], data[6] := i, i, op;
      data[7], data[8], data[9], data[10] := params[0], params[1], params[2], params[3];
      BodyInBlock(data[..], op, params);
    }

    method AppendSum(data: array<u8>, num: nat)
      requires data.Length == BLOCK_LEN
      modifies data
      ensures data[2..11] == old(data[2..11]) && data[1] == old(data[1])
      ensures data[11] == num / 0x100 % 0x100 && data[12] == num % 0x100
    {
      data[11], data[12] := num / 0x100 % 0x100, num % 0x100;
    }

    method WriteBlock(data: array<u8>)
      requires data.Length == BLOCK_LEN
      modifies `link
      ensures link == Transmit(old(link), fates, data[1..])
    {
      link := Transmit(link, fates, data[1..]);
    }

    /** Reads the acknowledgement register. */
    method ReadAck() returns (value: u8)
      ensures value == 1 <==> Acked(link, fates)
    {
      value := if Acked(link, fates) then 1 else 0;
    }

    /** The write and retry loop that every command shares. */
    method Send(data: array<u8>) returns (ok: bool)
      requires data.Length == BLOCK_LEN
      modifies `link
      ensures (ok, link) == Deliver(old(link), fates, data[1..])
    {
      WriteBlock(data);
      var i, go := TRIES, true;
      while go
        invariant go ==> i > 0 && Confirm(link, fates, data[1..], i) == Deliver(old(link), fates, data[1..])
        invariant !go ==> (i > 0, link) == Deliver(old(link), fates, data[1..])
        decreases go, i
      {
        var ack := ReadAck();
        if ack != 1 {
          WriteBlock(data);
          i := i - 1;
          go := i > 0;
        } else {
          go := false;
        }
      }
      ok := i > 0;
    }

    method LedSetOnOff(i: LedId, on: bool)
      requires Valid()
      modifies `link, `spoiled, leds
      ensures Valid() && State() == SetOnOff(old(State()), fates, i, on)
    {
      var state := if on then L.RUN_STATE_ON else L.RUN_STATE_OFF;
      if state == leds[i].runState {
        return;
      }
      var data := Block(i, OP_ONOFF, [if on then 1 else 0, 0, 0, 0]);
      var ok := Send(data);
      if ok {
        leds[i] := leds[i].(runState := state);
      } else {
        spoiled := spoiled + {i};
      }
    }

    method DoBrightnessSet(i: LedId, brightness: u8)
      requires Valid()
      modifies `link, `spoiled, leds
      ensures Valid() && State() == SetBrightness(old(State()), fates, i, brightness)
    {
      if brightness == 1 || brightness == 0 {
        if leds[i].runState != brightness {
          LedSetOnOff(i, brightness == 1);
        }
        return;
      }
      if leds[i].brightness != brightness {
        var data := Block(i, OP_BRIGHTNESS, [brightness, 0, 0, 0]);
        assert data[1..] == Encode(i, Light(brightness));
        var ok := Send(data);
        if ok {
          leds[i] := leds[i].(brightness := brightness);
        } else {
          spoiled := spoiled + {i};
        }
      }
    }

    method LedBlinkOrBreath(i: LedId, p: L.Pattern) returns (ret: int)
      requires Valid() && (p.mode == L.RUN_STATE_BLINK || p.mode == L.RUN_STATE_BREATH)
      modifies `link, `spoiled, leds
      ensures Valid() && State() == SetPattern(old(State()), fates, i, p)
      ensures ret == if old(L.Repeats(leds[i], p)) || Deliver(old(link), fates, Encode(i, PatternCommand(p))).0 then 0
                     else -EBUSY
    {
      if L.Repeats(leds[i], p) {
        return 0;
      }
      var data := Block(i, p.mode + 2, [p.high / 0x100 % 0x100, p.high % 0x100, p.low / 0x100 % 0x100, p.low % 0x100]);
      assert data[1..] == Encode(i, PatternCommand(p)) by {
        TimeBytes(p.high);
        TimeBytes(p.low);
      }
      var ok := Send(data);
      if ok {
        leds[i] := leds[i].(runState := p.mode);
        if p.mode == L.RUN_STATE_BLINK {
          leds[i] := leds[i].(blinkHigh := p.high % L.TWO32);
          leds[i] := leds[i].(blinkLow := p.low % L.TWO32);
        } else {
          leds[i] := leds[i].(breathHigh := p.high % L.TWO32);
          leds[i] := leds[i].(breathLow := p.low % L.TWO32);
        }
        ret := 0;
      } else {
        spoiled := spoiled + {i};
        ret := -EBUSY;
      }
    }

    /** The times a trigger other than "normal" asks for, raised to what it allows. */
    method Times(trigger: L.Trigger, delayOn: u64, delayOff: u64) returns (p: Option<L.Pattern>)
      requires !trigger.Normal?
      ensures p == PatternOf(trigger, delayOn, delayOff)
    {
      var on, off, mode := delayOn, delayOff, L.RUN_STATE_BLINK;
      if trigger.Timer2? {
        if on == 0 || off == 0 {
          return None;
        }
        if off < 100 {
          off := 100;
        }
        if on < 100 {
          on := 100;
        }
      } else if trigger.Breath? {
        mode := L.RUN_STATE_BREATH;
        if off < 500 {
          off := 500;
        }
        if on < 1000 {
          on := 1000;
        }
      }
      p := Some(L.Pattern(mode, (on + off) % 0x1_0000_0000_0000_0000, on));
    }

    method McuLedBlinkSet(i: LedId, trigger: L.Trigger, delayOn: u64, delayOff: u64)
      requires Valid()
      modifies `link, `spoiled, leds
      ensures Valid() && State() == SetBlink(old(State()), fates, i, trigger, delayOn, delayOff)
    {
      if trigger.Normal? {
        if leds[i].runState != L.RUN_STATE_OFF && leds[i].runState != L.RUN_STATE_ON {
          LedSetOnOff(i, false);
        }
        return;
      }
      var p := Times(trigger, delayOn, delayOff);
      if p.Some? {
        var _ := LedBlinkOrBreath(i, p.value);
      }
    }

    method DoColorSet(i: LedId, color: int)
      requires Valid() && 0 <= color <= 7
      modifies `link, `spoiled, leds
      ensures Valid() && State() == SetColor(old(State()), fates, i, color)
    {
      var (r, g, b) := Row(front, color);
      if leds[i].color != color {
        var data := Block(i, OP_COLOR, [r, g, b, 0]);
        var ok := Send(data);
        if ok {
          leds[i] := leds[i].(color := color);
        } else {
          spoiled := spoiled + {i};
        }
      }
    }

    // The entry points: what a request to the LED class device does.

    /** Only remembers the value and schedules the work; a value out of range is dropped. */
    method LedsBrightnessSet(i: LedId, brightness: int)
      requires Valid()
      modifies `pending, values
      ensures Valid() && State() == old(State())
      ensures if 0 <= brightness <= 255
              then pending == old(pending) + {i} && values[..] == old(values[..])[i := brightness]
              else pending == old(pending) && values[..] == old(values[..])
    {
      if 0 > brightness || 255 < brightness {
        return;
      }
      values[i] := brightness;
      pending := pending + {i};
    }

    /** The scheduled work performs one request, with the last value remembered: two quick
        requests become one. */
    method McuWork(i: LedId)
      requires Valid() && i in pending
      modifies `pending, `link, `spoiled, leds
      ensures Valid() && State() == Perform(old(State()), fates, Op(i, Brightness(values[i])))
      ensures pending == old(pending) - {i}
    {
      pending := pending - {i};
      DoBrightnessSet(i, values[i]);
    }

    method ColorSet(i: LedId, state: u64) returns (ret: int)
      requires Valid()
      modifies `link, `spoiled, leds
      ensures Valid() && State() == Perform(old(State()), fates, Op(i, Color(state)))
      ensures ret == if state > 8 then -L.EINVAL else 0
    {
      if state > 8 {
        return -L.EINVAL;
      }
      var color: int := state;
      if color < 1 {
        color := 1;
      }
      color := color % 8;
      assert ColorOf(state) == Some(color);
      DoColorSet(i, color);
      ret := 0;
    }
  }

  lemma BodyInBlock(s: seq<u8>, op: u8, params: seq<u8>)
    requires |s| == BLOCK_LEN && |params| == 4
    requires s[2] == 0xA0 && s[3] == 0x01 && s[4] == 0x00 && s[5] == 0x00 && s[6] == op
    requires s[7] == params[0] && s[8] == params[1] && s[9] == params[2] && s[10] == params[3]
    ensures s[2..CRC_IDX_END + 1] == Body(op, params)
  {
  }

  lemma SplitBlock(s: seq<u8>)
    requires |s| == BLOCK_LEN
    ensures s[1..] == [s[1]] + s[2..CRC_IDX_END + 1] + [s[11], s[12]]
  {
  }

  lemma TimeBytes(t: u64)
    ensures t % 0x1_0000 / 0x100 == t / 0x100 % 0x100 && t % 0x1_0000 % 0x100 == t % 0x100
  {
    var q := t / 0x1_0000;
    assert t == q * 0x1_0000 + t % 0x1_0000;
    assert t / 0x100 == q * 0x100 + t % 0x1_0000 / 0x100;
  }
}
