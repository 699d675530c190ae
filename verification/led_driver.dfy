/** The LED driver state machine (components/led_driver/led_driver.cpp, its
    state and constants in components/led_driver/include/led_driver.h).

    The driver keeps an applied and a working value for the brightness
    (`bri`/`nbri`) and for the five-channel duty set (`RGB`/`nRGB`), a power
    flag, one enabled flag per LEDC channel and a pending xy slot. Commands
    update the working values; `set_duty` writes to the hardware only the
    enabled channels whose value or brightness changed, and commits.

    The source does not compile as written; the model follows its evident
    intent, as the doc comments on each member say:
    - `set_brightness` stores the requested level in the working brightness
      `nbri` (the header calls `nbri` the working value and `set_duty`
      commits `bri = nbri`), and `duty_to_pwm` scales by that working value;
    - `set_channel_duty` compares the two duty values and copies the working
      value into the applied one (the code compares and assigns addresses);
    - `set_temperature` calls `set_duty` (the code returns the member
      function itself);
    - the brightness handed to `xy_to_duty` is a parameter of `SetColorXY`
      (the code omits that argument).

    Each LEDC write is recorded in the ghost log `writes`; what the hardware
    answers to a write is the parameter `respond`. */
module Driver {
  import opened Helpers
  import opened ColorFormat

  /** `uint8_t` */
  type u8 = x: int | 0 <= x < 0x100
  /** `long` on the ESP32-C6, a 32-bit RISC-V target where `long` is 32 bits. */
  type i32 = x: int | -0x8000_0000 <= x < 0x8000_0000

  /** `esp_err_t`, as a bit pattern so that codes can be OR-ed together. */
  datatype EspErr = EspErr(code: bv32)
  const EspOk := EspErr(0)

  /** `a | b` on two codes: `ESP_OK` exactly when both are. */
  function Or(a: EspErr, b: EspErr): (r: EspErr)
    ensures r == EspOk <==> a == EspOk && b == EspOk
  {
    EspErr(a.code | b.code)
  }

  /** The five logical channels, in the order `set_duty` visits them. */
  datatype Channel = Red | Green | Blue | White | WarmWhite

  /** `ESP32C6_MAX_CHANNELS`: slots in `channel_enabled`. */
  const MaxChannels: nat := 6
  /** `LEDC_TIMER_13_BIT` */
  const DutyResolutionBits: nat := 13
  /** `max_pwm`, assigned `pow(2, 13)` once by the constructor. */
  const MaxPwm: nat := 8192

  function Pow2(n: nat): nat
  {
    if n == 0 then 1 else 2 * Pow2(n - 1)
  }

  /** The PWM ceiling is the full range of the 13-bit timer. */
  lemma MaxPwmMatchesResolution()
    ensures MaxPwm == Pow2(DutyResolutionBits)
  {
  }

  /** `CHANNEL_RED` ... `CHANNEL_WARMWHITE`: LEDC channels 0 to 4. */
  const ChannelRed: nat := 0
  const ChannelGreen: nat := 1
  const ChannelBlue: nat := 2
  const ChannelWhite: nat := 3
  const ChannelWarmWhite: nat := 4

  /** The LEDC channel that drives logical channel `ch`. */
  function LedcChannel(ch: Channel): (n: nat)
    ensures n < MaxChannels
  {
    match ch
    case Red => ChannelRed
    case Green => ChannelGreen
    case Blue => ChannelBlue
    case White => ChannelWhite
    case WarmWhite => ChannelWarmWhite
  }

  /** Distinct logical channels drive distinct LEDC channels. */
  lemma LedcChannelInjective(a: Channel, b: Channel)
    ensures LedcChannel(a) == LedcChannel(b) <==> a == b
  {
  }

  /** The member of an `RGB_CCT_Duty_t` that holds channel `ch`. */
  function Duty(d: RgbCctDuty, ch: Channel): real
  {
    match ch
    case Red => d.red
    case Green => d.green
    case Blue => d.blue
    case White => d.white
    case WarmWhite => d.warmwhite
  }

  /** `d` with channel `ch` set to `v`. */
  function WithDuty(d: RgbCctDuty, ch: Channel, v: real): (r: RgbCctDuty)
    ensures Duty(r, ch) == v
    ensures forall other :: other != ch ==> Duty(r, other) == Duty(d, other)
  {
    match ch
    case Red => d.(red := v)
    case Green => d.(green := v)
    case Blue => d.(blue := v)
    case White => d.(white := v)
    case WarmWhite => d.(warmwhite := v)
  }

  predicate DutyInUnit(d: RgbCctDuty)
  {
    InUnit(d.red) && InUnit(d.green) && InUnit(d.blue) && InUnit(d.white) && InUnit(d.warmwhite)
  }

  /** At most one colour mode is lit: the RGB channels or the white ones. */
  predicate ModeExclusive(d: RgbCctDuty)
  {
    (d.red == 0.0 && d.green == 0.0 && d.blue == 0.0) || (d.white == 0.0 && d.warmwhite == 0.0)
  }

  /** The zero-initialised `RGB_CCT_Duty_t`. */
  const Off := RgbCctDuty(0.0, 0.0, 0.0, 0.0, 0.0)

  /** The empty pending slot `{-1, -1}`. */
  const NoPending := XyColor(-1, -1)

  /** `led_channel_info_t` */
  datatype ChannelInfo = ChannelInfo(gpio: int, channel: nat)

  /** `LED_GPIO_MAP` */
  datatype GpioMap = GpioMap(red: ChannelInfo, green: ChannelInfo, blue: ChannelInfo, white: ChannelInfo, warmwhite: ChannelInfo)

  function PinOf(m: GpioMap, ch: Channel): ChannelInfo
  {
    match ch
    case Red => m.red
    case Green => m.green
    case Blue => m.blue
    case White => m.white
    case WarmWhite => m.warmwhite
  }

  /** The default `LED_GPIO_MAP`: every channel unconfigured (gpio -1) and
      tied to its own LEDC channel. */
  function DefaultGpioMap(): (m: GpioMap)
    ensures forall ch :: PinOf(m, ch) == ChannelInfo(-1, LedcChannel(ch))
  {
    GpioMap(
      ChannelInfo(-1, LedcChannel(Red)),
      ChannelInfo(-1, LedcChannel(Green)),
      ChannelInfo(-1, LedcChannel(Blue)),
      ChannelInfo(-1, LedcChannel(White)),
      ChannelInfo(-1, LedcChannel(WarmWhite)))
  }

  /** One `ledc_set_duty_and_update` call: an LEDC channel and a duty count. */
  datatype LedcWrite = LedcWrite(channel: nat, duty: nat)

  /** The float product `duty_to_pwm` converts: `max_pwm * color * brightness / 100`.
      For a duty fraction it lies between 0 and `max_pwm` scaled by the
      brightness percentage, so it always fits a `uint32_t`. */
  function PwmProduct(color: real, brightness: u8): (v: real)
    ensures InUnit(color) ==> 0.0 <= v <= MaxPwm as real * (brightness as real / 100.0) < 4294967296.0
  {
    var b := brightness as real / 100.0;
    assert b <= 2.55;
    FractionOf(color, b);
    var p := color * b;
    assert InUnit(color) ==> 0.0 <= p <= b;
    assert InUnit(color) ==> MaxPwm as real * p <= MaxPwm as real * b;
    MaxPwm as real * p
  }

  /** A fraction of a non-negative quantity lies between 0 and it. */
  lemma FractionOf(c: real, b: real)
    requires b >= 0.0
    ensures InUnit(c) ==> 0.0 <= c * b <= b
  {
    if InUnit(c) {
      assert b - c * b == (1.0 - c) * b;
    }
  }

  /** `duty_to_pwm(color)`: the product converted to `uint32_t` by
      `static_cast`, which truncates toward zero (no rounding). The cast is
      defined only when the product fits, hence the precondition. */
  function DutyToPwm(color: real, brightness: u8): (pwm: nat)
    requires -1.0 < PwmProduct(color, brightness) < 4294967296.0
    ensures pwm < 0x1_0000_0000
    ensures PwmProduct(color, brightness) >= 0.0 ==>
      pwm as real <= PwmProduct(color, brightness) < pwm as real + 1.0
    ensures PwmProduct(color, brightness) < 1.0 ==> pwm == 0
  {
    var v := PwmProduct(color, brightness);
    if v < 0.0 then 0 else v.Floor
  }

  /** A duty fraction at a brightness of at most 100 % gives a count in
      [0, 8192]; brightness 0 gives 0; full duty at 100 % gives 8192. */
  lemma DutyToPwmRange(color: real, brightness: u8)
    requires InUnit(color)
    ensures brightness <= 100 ==> DutyToPwm(color, brightness) <= MaxPwm
    ensures brightness == 0 ==> DutyToPwm(color, brightness) == 0
    ensures color == 1.0 && brightness == 100 ==> DutyToPwm(color, brightness) == MaxPwm
  {
    if brightness <= 100 {
      assert PwmProduct(color, brightness) <= MaxPwm as real;
    }
  }

  /** The writes `set_channel_duty` issues for channel `ch`: none when the
      channel is disabled, or when neither its duty nor the brightness
      changed; otherwise one write of the working duty at the working
      brightness. */
  function ChannelWrites(ch: Channel, applied: RgbCctDuty, working: RgbCctDuty, bri: u8, nbri: u8, enabled: seq<bool>): (ws: seq<LedcWrite>)
    requires |enabled| == MaxChannels
    requires InUnit(Duty(working, ch))
    ensures |ws| <= 1
    ensures ws != [] <==> enabled[LedcChannel(ch)] && (Duty(working, ch) != Duty(applied, ch) || nbri != bri)
    ensures forall w <- ws :: w.channel == LedcChannel(ch) && w.duty == DutyToPwm(Duty(working, ch), nbri)
  {
    if !enabled[LedcChannel(ch)] || (Duty(working, ch) == Duty(applied, ch) && nbri == bri) then []
    else [LedcWrite(LedcChannel(ch), DutyToPwm(Duty(working, ch), nbri))]
  }

  /** A channel's write depends on the applied set only through that
      channel's own duty. */
  lemma ChannelWritesLocal(ch: Channel, a1: RgbCctDuty, a2: RgbCctDuty, working: RgbCctDuty, bri: u8, nbri: u8, enabled: seq<bool>)
    requires |enabled| == MaxChannels
    requires InUnit(Duty(working, ch))
    requires Duty(a1, ch) == Duty(a2, ch)
    ensures ChannelWrites(ch, a1, working, bri, nbri, enabled) == ChannelWrites(ch, a2, working, bri, nbri, enabled)
  {
  }

  /** The writes one `set_duty` issues, in channel order. */
  function PendingWrites(applied: RgbCctDuty, working: RgbCctDuty, bri: u8, nbri: u8, enabled: seq<bool>): (ws: seq<LedcWrite>)
    requires |enabled| == MaxChannels
    requires DutyInUnit(working)
    ensures |ws| <= 5
    ensures forall w <- ws :: w.channel < MaxChannels && enabled[w.channel]
    ensures nbri == 0 ==> forall w <- ws :: w.duty == 0
    ensures nbri <= 100 ==> forall w <- ws :: w.duty <= MaxPwm
  {
    var ws := ChannelWrites(Red, applied, working, bri, nbri, enabled)
      + ChannelWrites(Green, applied, working, bri, nbri, enabled)
      + ChannelWrites(Blue, applied, working, bri, nbri, enabled)
      + ChannelWrites(White, applied, working, bri, nbri, enabled)
      + ChannelWrites(WarmWhite, applied, working, bri, nbri, enabled);
    DutyToPwmRange(working.red, nbri);
    DutyToPwmRange(working.green, nbri);
    DutyToPwmRange(working.blue, nbri);
    DutyToPwmRange(working.white, nbri);
    DutyToPwmRange(working.warmwhite, nbri);
    ws
  }

  /** `set_duty` writes nothing exactly when every enabled channel already
      holds its working duty and the brightness is unchanged. */
  lemma PendingWritesEmpty(applied: RgbCctDuty, working: RgbCctDuty, bri: u8, nbri: u8, enabled: seq<bool>)
    requires |enabled| == MaxChannels
    requires DutyInUnit(working)
    ensures PendingWrites(applied, working, bri, nbri, enabled) == [] <==>
      forall ch :: enabled[LedcChannel(ch)] ==> Duty(working, ch) == Duty(applied, ch) && nbri == bri
  {
    var ws := PendingWrites(applied, working, bri, nbri, enabled);
    if ws == [] {
      forall ch | enabled[LedcChannel(ch)]
        ensures Duty(working, ch) == Duty(applied, ch) && nbri == bri
      {
        assert ChannelWrites(ch, applied, working, bri, nbri, enabled) == [];
      }
    }
  }

  /** A duty set is determined by its five channels. */
  lemma DutyExtensional(d: RgbCctDuty, e: RgbCctDuty)
    requires forall ch :: Duty(d, ch) == Duty(e, ch)
    ensures d == e
  {
    assert Duty(d, Red) == Duty(e, Red) && Duty(d, Green) == Duty(e, Green) && Duty(d, Blue) == Duty(e, Blue);
    assert Duty(d, White) == Duty(e, White) && Duty(d, WarmWhite) == Duty(e, WarmWhite);
  }

  /** The applied set after `set_channel_duty` for channel `ch`: an enabled
      channel takes its working duty (skipping an unchanged channel leaves
      it equal anyway), a disabled one keeps its applied duty. */
  function CommitChannel(ch: Channel, applied: RgbCctDuty, working: RgbCctDuty, enabled: seq<bool>): RgbCctDuty
    requires |enabled| == MaxChannels
  {
    if enabled[LedcChannel(ch)] then WithDuty(applied, ch, Duty(working, ch)) else applied
  }

  /** The applied set after `set_duty`: enabled channels take the working
      duty, disabled ones keep their applied duty. */
  function Committed(applied: RgbCctDuty, working: RgbCctDuty, enabled: seq<bool>): RgbCctDuty
    requires |enabled| == MaxChannels
  {
    RgbCctDuty(
      if enabled[LedcChannel(Red)] then working.red else applied.red,
      if enabled[LedcChannel(Green)] then working.green else applied.green,
      if enabled[LedcChannel(Blue)] then working.blue else applied.blue,
      if enabled[LedcChannel(White)] then working.white else applied.white,
      if enabled[LedcChannel(WarmWhite)] then working.warmwhite else applied.warmwhite)
  }

  /** Channel by channel, `set_duty` followed by nothing else is the five
      `set_channel_duty` steps run in order. */
  lemma CommittedIsChannelSteps(applied: RgbCctDuty, working: RgbCctDuty, enabled: seq<bool>)
    requires |enabled| == MaxChannels
    ensures forall ch ::
      Duty(Committed(applied, working, enabled), ch) == if enabled[LedcChannel(ch)] then Duty(working, ch) else Duty(applied, ch)
    ensures Committed(applied, working, enabled) ==
      CommitChannel(WarmWhite, CommitChannel(White, CommitChannel(Blue, CommitChannel(Green,
        CommitChannel(Red, applied, working, enabled), working, enabled), working, enabled), working, enabled), working, enabled)
  {
  }

  /** A disabled channel's applied duty is 0. */
  predicate DarkWhenDisabled(d: RgbCctDuty, enabled: seq<bool>)
    requires |enabled| == MaxChannels
  {
    (!enabled[LedcChannel(Red)] ==> d.red == 0.0)
    && (!enabled[LedcChannel(Green)] ==> d.green == 0.0)
    && (!enabled[LedcChannel(Blue)] ==> d.blue == 0.0)
    && (!enabled[LedcChannel(White)] ==> d.white == 0.0)
    && (!enabled[LedcChannel(WarmWhite)] ==> d.warmwhite == 0.0)
  }

  /** The commit is the only duty set whose enabled channels hold the
      working duty and whose disabled channels hold the applied duty. */
  lemma CommittedUnique(applied: RgbCctDuty, working: RgbCctDuty, enabled: seq<bool>, d: RgbCctDuty)
    requires |enabled| == MaxChannels
    requires forall ch :: Duty(d, ch) == if enabled[LedcChannel(ch)] then Duty(working, ch) else Duty(applied, ch)
    ensures d == Committed(applied, working, enabled)
  {
    CommittedIsChannelSteps(applied, working, enabled);
    DutyExtensional(d, Committed(applied, working, enabled));
  }

  /** Committing a set onto itself changes nothing. */
  lemma CommittedUnchanged(d: RgbCctDuty, enabled: seq<bool>)
    requires |enabled| == MaxChannels
    ensures Committed(d, d, enabled) == d
  {
  }

  /** Committing twice is committing once. */
  lemma CommittedIdempotent(applied: RgbCctDuty, working: RgbCctDuty, enabled: seq<bool>)
    requires |enabled| == MaxChannels
    ensures Committed(Committed(applied, working, enabled), working, enabled) == Committed(applied, working, enabled)
  {
  }

  /** Once committed, a second `set_duty` with the same working values and
      brightness writes nothing. */
  lemma CommittedWritesNothing(applied: RgbCctDuty, working: RgbCctDuty, bri: u8, enabled: seq<bool>)
    requires |enabled| == MaxChannels
    requires DutyInUnit(working)
    ensures PendingWrites(Committed(applied, working, enabled), working, bri, bri, enabled) == []
  {
    PendingWritesEmpty(Committed(applied, working, enabled), working, bri, bri, enabled);
  }

  /** Once committed, `set_duty` has nothing to write and nothing to fail. */
  lemma SettledWritesNothing(applied: RgbCctDuty, working: RgbCctDuty, bri: u8, enabled: seq<bool>, respond: LedcWrite -> EspErr)
    requires |enabled| == MaxChannels
    requires DutyInUnit(working)
    requires applied == Committed(applied, working, enabled)
    ensures PendingWrites(applied, working, bri, bri, enabled) == []
    ensures SetDutyError(applied, working, bri, bri, enabled, respond) == EspOk
  {
    CommittedWritesNothing(applied, working, bri, enabled);
    SetDutyErrorOk(applied, working, bri, bri, enabled, respond);
  }

  /** What `set_channel_duty` returns for the writes it issued: `ESP_OK`
      for a skipped channel, otherwise the hardware's answer. */
  function ChannelError(ws: seq<LedcWrite>, respond: LedcWrite -> EspErr): (err: EspErr)
    requires |ws| <= 1
    ensures err == EspOk <==> forall w <- ws :: respond(w) == EspOk
  {
    if ws == [] then EspOk else respond(ws[0])
  }

  /** The `err |= set_channel_duty(...)` accumulation of `set_duty`, channel
      by channel in order. */
  function SetDutyError(applied: RgbCctDuty, working: RgbCctDuty, bri: u8, nbri: u8, enabled: seq<bool>, respond: LedcWrite -> EspErr): EspErr
    requires |enabled| == MaxChannels
    requires DutyInUnit(working)
  {
    var r := ChannelError(ChannelWrites(Red, applied, working, bri, nbri, enabled), respond);
    var g := ChannelError(ChannelWrites(Green, applied, working, bri, nbri, enabled), respond);
    var b := ChannelError(ChannelWrites(Blue, applied, working, bri, nbri, enabled), respond);
    var w := ChannelError(ChannelWrites(White, applied, working, bri, nbri, enabled), respond);
    var k := ChannelError(ChannelWrites(WarmWhite, applied, working, bri, nbri, enabled), respond);
    Or(Or(Or(Or(Or(EspOk, r), g), b), w), k)
  }

  /** No failure is masked: `set_duty` returns `ESP_OK` exactly when every
      write it issued succeeded. */
  lemma SetDutyErrorOk(applied: RgbCctDuty, working: RgbCctDuty, bri: u8, nbri: u8, enabled: seq<bool>, respond: LedcWrite -> EspErr)
    requires |enabled| == MaxChannels
    requires DutyInUnit(working)
    ensures SetDutyError(applied, working, bri, nbri, enabled, respond) == EspOk <==>
      forall w <- PendingWrites(applied, working, bri, nbri, enabled) :: respond(w) == EspOk
  {
    var r := ChannelError(ChannelWrites(Red, applied, working, bri, nbri, enabled), respond);
    var g := ChannelError(ChannelWrites(Green, applied, working, bri, nbri, enabled), respond);
    var b := ChannelError(ChannelWrites(Blue, applied, working, bri, nbri, enabled), respond);
    var w := ChannelError(ChannelWrites(White, applied, working, bri, nbri, enabled), respond);
    var k := ChannelError(ChannelWrites(WarmWhite, applied, working, bri, nbri, enabled), respond);
    OrOk(r, g, b, w, k);
  }

  /** An OR of codes is `ESP_OK` exactly when each code is. */
  lemma OrOk(r: EspErr, g: EspErr, b: EspErr, w: EspErr, k: EspErr)
    ensures Or(Or(Or(Or(Or(EspOk, r), g), b), w), k) == EspOk <==> r == EspOk && g == EspOk && b == EspOk && w == EspOk && k == EspOk
  {
  }

  /** The working duty set `set_temperature` computes: white is the
      temperature over 10000 clamped to [0,1], warm white the rest, and the
      colour channels are off. */
  function TemperatureDuty(temperature: u32): (d: RgbCctDuty)
    ensures d.red == 0.0 && d.green == 0.0 && d.blue == 0.0
    ensures DutyInUnit(d) && d.white + d.warmwhite == 1.0
    ensures temperature <= 10000 ==> d.white == temperature as real / 10000.0
    ensures temperature >= 10000 ==> d.white == 1.0 && d.warmwhite == 0.0
  {
    var white := Clamp(temperature as real / 10000.0, 0.0, 1.0);
    RgbCctDuty(0.0, 0.0, 0.0, white, 1.0 - white)
  }

  /** The implicit `long` to `uint16_t` conversion when the pending
      coordinates are passed to `xy_to_duty`: reduction modulo 2^16. */
  function ToU16(v: int): (r: u16)
    ensures 0 <= v < 0x1_0000 ==> r == v
    ensures (r - v) % 0x1_0000 == 0
  {
    v % 0x1_0000
  }

  predicate BothKnown(p: XyColor)
  {
    p.x != -1 && p.y != -1
  }

  /** The pending slot after `set_colorXY(x, y)` has stored the supplied
      coordinates: a supplied one (not -1) replaces the pending value. The
      pair is complete exactly when each coordinate is supplied now or was
      pending already, and every coordinate held comes from the call or from
      the slot. */
  function MergePending(p: XyColor, x: int, y: int): (r: XyColor)
    ensures BothKnown(r) <==> (x != -1 || p.x != -1) && (y != -1 || p.y != -1)
    ensures (r.x == x || r.x == p.x) && (r.y == y || r.y == p.y)
  {
    XyColor(if x != -1 then x else p.x, if y != -1 then y else p.y)
  }

  /** Storing the same coordinates again changes nothing, and a call that
      supplies neither coordinate leaves the slot as it was. */
  lemma MergePendingIdempotent(p: XyColor, x: int, y: int)
    ensures MergePending(MergePending(p, x, y), x, y) == MergePending(p, x, y)
    ensures MergePending(p, -1, -1) == p
  {
  }

  /** Only one value per coordinate is held: a later one replaces an earlier
      one, and the other coordinate is untouched. */
  lemma PendingOverwrite(p: XyColor, a: int, b: int)
    requires b != -1
    ensures MergePending(MergePending(p, a, -1), b, -1) == MergePending(p, b, -1)
    ensures MergePending(MergePending(p, -1, a), -1, b) == MergePending(p, -1, b)
  {
  }

  /** Delivering x and then y, starting with no pending y, ends in the same
      complete pair as delivering both at once, and the first step alone
      does not complete it. */
  lemma SplitDeliveryMatchesJoined(p: XyColor, x: int, y: int)
    requires p.y == -1
    requires x != -1 && y != -1
    ensures !BothKnown(MergePending(p, x, -1))
    ensures MergePending(MergePending(p, x, -1), -1, y) == MergePending(p, x, y)
    ensures BothKnown(MergePending(p, x, y))
  {
  }

  /** Delivering y and then x, starting with no pending x, is the mirror
      image: y alone does not complete the pair, and the pair x then
      completes is the joined one. */
  lemma SplitDeliveryYFirst(p: XyColor, x: int, y: int)
    requires p.x == -1
    requires x != -1 && y != -1
    ensures !BothKnown(MergePending(p, -1, y))
    ensures MergePending(MergePending(p, -1, y), x, -1) == MergePending(p, x, y)
  {
  }

  /** With a y already pending, x alone completes the pair with the old y;
      once that pair is consumed and the slot emptied, the y that follows is
      left pending on its own. */
  lemma EarlyCompletion(p: XyColor, x: int, y: int)
    requires p.y != -1
    requires x != -1 && y != -1
    ensures BothKnown(MergePending(p, x, -1)) && MergePending(p, x, -1) == XyColor(x, p.y)
    ensures MergePending(NoPending, -1, y) == XyColor(-1, y) && !BothKnown(XyColor(-1, y))
  {
  }

  /** The working duty set once both coordinates are known: white and warm
      white off, the colour channels from `xy_to_duty`. */
  function XyDuty(p: XyColor, brightness: real, pow: (real, real) -> real): (d: RgbCctDuty)
    ensures d.white == 0.0 && d.warmwhite == 0.0
    ensures RgbColor(d.red, d.green, d.blue) == XyToDuty(ToU16(p.x), ToU16(p.y), brightness, pow)
    ensures DutyInUnit(d)
  {
    StoreRgb(Off, XyToDuty(ToU16(p.x), ToU16(p.y), brightness, pow))
  }

  /** Appending five runs one after another is appending their concatenation. */
  lemma AppendFive<T>(s: seq<T>, a: seq<T>, b: seq<T>, c: seq<T>, d: seq<T>, e: seq<T>)
    ensures s + a + b + c + d + e == s + (a + b + c + d + e)
  {
    assert s + a + b == s + (a + b);
    assert s + (a + b) + c == s + (a + b + c);
    assert s + (a + b + c) + d == s + (a + b + c + d);
    assert s + (a + b + c + d) + e == s + (a + b + c + d + e);
  }

  /** Running `set_channel_duty` over the five channels in order, each one
      starting from the applied set the previous one left, commits the
      working set, issues the pending writes and ORs their answers into
      `set_duty`'s code. */
  lemma ChannelSequence(a: RgbCctDuty, r1: RgbCctDuty, r2: RgbCctDuty, r3: RgbCctDuty, r4: RgbCctDuty, r5: RgbCctDuty,
                        working: RgbCctDuty, bri: u8, nbri: u8, enabled: seq<bool>, respond: LedcWrite -> EspErr,
                        w0: seq<LedcWrite>, w5: seq<LedcWrite>,
                        e1: EspErr, e2: EspErr, e3: EspErr, e4: EspErr, e5: EspErr)
    requires |enabled| == MaxChannels && DutyInUnit(working)
    requires r1 == CommitChannel(Red, a, working, enabled)
    requires r2 == CommitChannel(Green, r1, working, enabled)
    requires r3 == CommitChannel(Blue, r2, working, enabled)
    requires r4 == CommitChannel(White, r3, working, enabled)
    requires r5 == CommitChannel(WarmWhite, r4, working, enabled)
    requires w5 == w0 + ChannelWrites(Red, a, working, bri, nbri, enabled)
      + ChannelWrites(Green, r1, working, bri, nbri, enabled)
      + ChannelWrites(Blue, r2, working, bri, nbri, enabled)
      + ChannelWrites(White, r3, working, bri, nbri, enabled)
      + ChannelWrites(WarmWhite, r4, working, bri, nbri, enabled)
    requires e1 == ChannelError(ChannelWrites(Red, a, working, bri, nbri, enabled), respond)
    requires e2 == ChannelError(ChannelWrites(Green, r1, working, bri, nbri, enabled), respond)
    requires e3 == ChannelError(ChannelWrites(Blue, r2, working, bri, nbri, enabled), respond)
    requires e4 == ChannelError(ChannelWrites(White, r3, working, bri, nbri, enabled), respond)
    requires e5 == ChannelError(ChannelWrites(WarmWhite, r4, working, bri, nbri, enabled), respond)
    ensures r5 == Committed(a, working, enabled)
    ensures w5 == w0 + PendingWrites(a, working, bri, nbri, enabled)
    ensures Or(Or(Or(Or(Or(EspOk, e1), e2), e3), e4), e5) == SetDutyError(a, working, bri, nbri, enabled, respond)
  {
    CommittedIsChannelSteps(a, working, enabled);
    ChannelWritesLocal(Green, r1, a, working, bri, nbri, enabled);
    ChannelWritesLocal(Blue, r2, a, working, bri, nbri, enabled);
    ChannelWritesLocal(White, r3, a, working, bri, nbri, enabled);
    ChannelWritesLocal(WarmWhite, r4, a, working, bri, nbri, enabled);
    AppendFive(w0, ChannelWrites(Red, a, working, bri, nbri, enabled), ChannelWrites(Green, a, working, bri, nbri, enabled),
      ChannelWrites(Blue, a, working, bri, nbri, enabled), ChannelWrites(White, a, working, bri, nbri, enabled),
      ChannelWrites(WarmWhite, a, working, bri, nbri, enabled));
  }

  /** `LED_Driver` */
  class LedDriver {
    /** `power`: whether the lights are on. */
    var power: bool
    /** `channel_enabled[ESP32C6_MAX_CHANNELS]` */
    const channelEnabled: seq<bool>
    /** `bri`: the applied brightness percentage. */
    var bri: u8
    /** `nbri`: the working brightness percentage. */
    var nbri: u8
    /** `RGB`: the applied duty set. */
    var rgb: RgbCctDuty
    /** `nRGB`: the working duty set. */
    var nrgb: RgbCctDuty
    /** `XY`: the pending coordinates, -1 where absent. */
    var xy: XyColor
    /** Every LEDC duty write issued so far, oldest first. */
    ghost var writes: seq<LedcWrite>

    /** The driver's invariant: duties are fractions, the working set is in
        one colour mode, at most one coordinate is pending, and a disabled
        channel's applied duty is 0 (it is never written). */
    ghost predicate Valid()
      reads this
    {
      |channelEnabled| == MaxChannels
      && DutyInUnit(rgb) && DutyInUnit(nrgb)
      && ModeExclusive(nrgb)
      && !BothKnown(xy)
      && DarkWhenDisabled(rgb, channelEnabled)
    }

    /** Nothing is waiting to be written: every enabled channel holds its
        working duty and the brightness is committed. */
    ghost predicate Settled()
      reads this
      requires |channelEnabled| == MaxChannels
    {
      bri == nbri && rgb == Committed(rgb, nrgb, channelEnabled)
    }

    /** The state a `set_duty` leaves behind when it started from applied
        set `oldRgb`, applied brightness `oldBri` and log `oldWrites`, and
        returned `err`. */
    ghost predicate CommittedFrom(oldRgb: RgbCctDuty, oldBri: u8, oldWrites: seq<LedcWrite>, respond: LedcWrite -> EspErr, err: EspErr)
      reads this
      requires |channelEnabled| == MaxChannels && DutyInUnit(nrgb)
    {
      var ws := PendingWrites(oldRgb, nrgb, oldBri, nbri, channelEnabled);
      rgb == Committed(oldRgb, nrgb, channelEnabled)
      && bri == nbri
      && writes == oldWrites + ws
      && err == SetDutyError(oldRgb, nrgb, oldBri, nbri, channelEnabled, respond)
    }

    /** `LED_Driver(gpio_pins)`: every field starts zeroed, the pending slot
        empty, and each channel whose gpio is not -1 is configured and
        enabled (the code compares the `led_channel_info_t` itself with -1;
        its `gpio` member is meant). */
    constructor (pins: GpioMap)
      ensures Valid() && Settled()
      ensures |channelEnabled| == MaxChannels
      ensures channelEnabled[ChannelRed] == (pins.red.gpio != -1)
      ensures channelEnabled[ChannelGreen] == (pins.green.gpio != -1)
      ensures channelEnabled[ChannelBlue] == (pins.blue.gpio != -1)
      ensures channelEnabled[ChannelWhite] == (pins.white.gpio != -1)
      ensures channelEnabled[ChannelWarmWhite] == (pins.warmwhite.gpio != -1)
      ensures !channelEnabled[5]
      ensures !power && bri == 0 && nbri == 0
      ensures rgb == Off && nrgb == Off && xy == NoPending && writes == []
    {
      var enabled := [false, false, false, false, false, false];
      if pins.red.gpio != -1 {
        enabled := enabled[ChannelRed := true];
      }
      if pins.green.gpio != -1 {
        enabled := enabled[ChannelGreen := true];
      }
      if pins.blue.gpio != -1 {
        enabled := enabled[ChannelBlue := true];
      }
      if pins.white.gpio != -1 {
        enabled := enabled[ChannelWhite := true];
      }
      if pins.warmwhite.gpio != -1 {
        enabled := enabled[ChannelWarmWhite := true];
      }
      channelEnabled := enabled;
      power := false;
      bri, nbri := 0, 0;
      rgb, nrgb := Off, Off;
      xy := NoPending;
      writes := [];
      CommittedUnchanged(Off, enabled);
    }

    /** `set_channel_duty(new, old, channel)`: skips a disabled channel, or
        one whose duty and brightness are unchanged, with `ESP_OK`; otherwise
        copies the working duty into the applied one, then writes it and
        returns the hardware's answer. */
    method SetChannelDuty(ch: Channel, respond: LedcWrite -> EspErr) returns (err: EspErr)
      requires |channelEnabled| == MaxChannels && DutyInUnit(nrgb)
      modifies this
      ensures power == old(power) && bri == old(bri) && nbri == old(nbri) && nrgb == old(nrgb) && xy == old(xy)
      ensures var ws := ChannelWrites(ch, old(rgb), nrgb, bri, nbri, channelEnabled);
        writes == old(writes) + ws && err == ChannelError(ws, respond)
      ensures rgb == CommitChannel(ch, old(rgb), nrgb, channelEnabled)
    {
      var c := LedcChannel(ch);
      if !channelEnabled[c] || (Duty(nrgb, ch) == Duty(rgb, ch) && nbri == bri) {
        return EspOk;
      }
      rgb := WithDuty(rgb, ch, Duty(nrgb, ch));
      var w := LedcWrite(c, DutyToPwm(Duty(nrgb, ch), nbri));
      writes := writes + [w];
      err := respond(w);
    }

    /** `set_duty()`: visits red, green, blue, white and warm white in turn,
        even after a failure, OR-ing their codes, then commits the working
        brightness. */
    method SetDuty(respond: LedcWrite -> EspErr) returns (err: EspErr)
      requires Valid()
      modifies this
      ensures Valid() && Settled()
      ensures power == old(power) && nbri == old(nbri) && nrgb == old(nrgb) && xy == old(xy)
      ensures CommittedFrom(old(rgb), old(bri), old(writes), respond, err)
    {
      ghost var en := channelEnabled;
      ghost var a, w0 := rgb, writes;
      err := EspOk;
      var e := SetChannelDuty(Red, respond);
      err := Or(err, e);
      ghost var r1, e1 := rgb, e;
      e := SetChannelDuty(Green, respond);
      err := Or(err, e);
      ghost var r2, e2 := rgb, e;
      e := SetChannelDuty(Blue, respond);
      err := Or(err, e);
      ghost var r3, e3 := rgb, e;
      e := SetChannelDuty(White, respond);
      err := Or(err, e);
      ghost var r4, e4 := rgb, e;
      e := SetChannelDuty(WarmWhite, respond);
      err := Or(err, e);
      ChannelSequence(a, r1, r2, r3, r4, rgb, nrgb, bri, nbri, en, respond, w0, writes, e1, e2, e3, e4, e);
      bri := nbri;
    }

    /** `set_brightness(brightness)`: the working brightness becomes the
        requested level while the power is on and 0 while it is off; then
        `set_duty`. */
    method SetBrightness(brightness: u8, respond: LedcWrite -> EspErr) returns (err: EspErr)
      requires Valid()
      modifies this
      ensures Valid() && Settled()
      ensures nbri == (if power then brightness else 0)
      ensures power == old(power) && nrgb == old(nrgb) && xy == old(xy)
      ensures CommittedFrom(old(rgb), old(bri), old(writes), respond, err)
    {
      if !power {
        nbri := 0;
      } else {
        nbri := brightness;
      }
      err := SetDuty(respond);
    }

    /** `set_power(new_power)`: stores the flag and hands the flag itself to
        `set_brightness` as the level, so on means 1 % and off means 0 %;
        nothing is saved or restored. */
    method SetPower(newPower: bool, respond: LedcWrite -> EspErr) returns (err: EspErr)
      requires Valid()
      modifies this
      ensures Valid() && Settled()
      ensures power == newPower
      ensures nbri == (if newPower then 1 else 0)
      ensures nrgb == old(nrgb) && xy == old(xy)
      ensures CommittedFrom(old(rgb), old(bri), old(writes), respond, err)
    {
      power := newPower;
      err := SetBrightness(if power then 1 else 0, respond);
    }

    /** `set_temperature(temperature)`: white and warm white from the
        temperature, the colour channels off, then `set_duty`. */
    method SetTemperature(temperature: u32, respond: LedcWrite -> EspErr) returns (err: EspErr)
      requires Valid()
      modifies this
      ensures Valid() && Settled()
      ensures nrgb == TemperatureDuty(temperature)
      ensures rgb.red == 0.0 && rgb.green == 0.0 && rgb.blue == 0.0
      ensures power == old(power) && nbri == old(nbri) && xy == old(xy)
      ensures CommittedFrom(old(rgb), old(bri), old(writes), respond, err)
    {
      var white := Clamp(temperature as real / 10000.0, 0.0, 1.0);
      nrgb := nrgb.(white := white);
      nrgb := nrgb.(warmwhite := 1.0 - white);
      nrgb := nrgb.(red := 0.0);
      nrgb := nrgb.(green := 0.0);
      nrgb := nrgb.(blue := 0.0);
      err := SetDuty(respond);
    }

    /** `set_colorXY(x, y)`: stores each supplied coordinate (not -1) in the
        pending slot. Once both are known: white and warm white off, the
        colour channels from `xy_to_duty`, the slot emptied, then `set_duty`.
        Otherwise `ESP_OK` with nothing else changed. */
    method SetColorXY(x: i32, y: i32, brightness: real, pow: (real, real) -> real, respond: LedcWrite -> EspErr)
      returns (err: EspErr)
      requires Valid()
      modifies this
      ensures Valid()
      ensures power == old(power) && nbri == old(nbri)
      ensures var merged := MergePending(old(xy), x, y);
        if BothKnown(merged) then
          xy == NoPending && nrgb == XyDuty(merged, brightness, pow)
          && Settled() && rgb.white == 0.0 && rgb.warmwhite == 0.0
          && CommittedFrom(old(rgb), old(bri), old(writes), respond, err)
        else
          xy == merged && nrgb == old(nrgb) && rgb == old(rgb) && bri == old(bri)
          && writes == old(writes) && err == EspOk
    {
      if x != -1 {
        xy := xy.(x := x);
      }
      if y != -1 {
        xy := xy.(y := y);
      }
      if xy.x != -1 && xy.y != -1 {
        nrgb := nrgb.(white := 0.0);
        nrgb := nrgb.(warmwhite := 0.0);
        nrgb := StoreRgb(nrgb, XyToDuty(ToU16(xy.x), ToU16(xy.y), brightness, pow));
        xy := NoPending;
        err := SetDuty(respond);
        return;
      }
      return EspOk;
    }
  }

  /** The application delivers x and y in separate attribute callbacks,
      each with -1 for the absent coordinate. With no y pending, x alone
      completes nothing and writes nothing, and the y that follows leaves
      the same working set and empty slot as a single `set_colorXY(x, y)`. */
  method DeliverSeparately(d: LedDriver, x: i32, y: i32, brightness: real, pow: (real, real) -> real, respond: LedcWrite -> EspErr)
    returns (errX: EspErr, errY: EspErr)
    requires d.Valid() && d.xy.y == -1
    requires x != -1 && y != -1
    modifies d
    ensures d.Valid() && d.Settled()
    ensures errX == EspOk
    ensures d.xy == NoPending
    ensures d.nrgb == XyDuty(MergePending(old(d.xy), x, y), brightness, pow)
    ensures d.CommittedFrom(old(d.rgb), old(d.bri), old(d.writes), respond, errY)
  {
    SplitDeliveryMatchesJoined(d.xy, x, y);
    errX := d.SetColorXY(x, -1, brightness, pow, respond);
    errY := d.SetColorXY(-1, y, brightness, pow, respond);
  }

  /** The same delivery in the other order: with no x pending, y alone
      completes nothing and writes nothing, and the x that follows leaves
      the same working set and empty slot as a single `set_colorXY(x, y)`. */
  method DeliverYThenX(d: LedDriver, x: i32, y: i32, brightness: real, pow: (real, real) -> real, respond: LedcWrite -> EspErr)
    returns (errY: EspErr, errX: EspErr)
    requires d.Valid() && d.xy.x == -1
    requires x != -1 && y != -1
    modifies d
    ensures d.Valid() && d.Settled()
    ensures errY == EspOk
    ensures d.xy == NoPending
    ensures d.nrgb == XyDuty(MergePending(old(d.xy), x, y), brightness, pow)
    ensures d.CommittedFrom(old(d.rgb), old(d.bri), old(d.writes), respond, errX)
  {
    SplitDeliveryYFirst(d.xy, x, y);
    errY := d.SetColorXY(-1, y, brightness, pow, respond);
    errX := d.SetColorXY(x, -1, brightness, pow, respond);
  }

  /** Change detection: a second `set_duty` with no command in between
      finds every enabled channel and the brightness already applied, so it
      writes nothing, changes nothing and returns `ESP_OK`. */
  method RepeatSetDuty(d: LedDriver, respond: LedcWrite -> EspErr) returns (first: EspErr, second: EspErr)
    requires d.Valid()
    modifies d
    ensures d.Valid() && d.Settled()
    ensures d.CommittedFrom(old(d.rgb), old(d.bri), old(d.writes), respond, first)
    ensures second == EspOk
  {
    first := d.SetDuty(respond);
    SettledWritesNothing(d.rgb, d.nrgb, d.bri, d.channelEnabled, respond);
    second := d.SetDuty(respond);
  }

  /** Change detection for `set_brightness`: the same level twice leaves the
      state, the write log and the code of the first call, and the second
      call returns `ESP_OK`. */
  method RepeatBrightness(d: LedDriver, brightness: u8, respond: LedcWrite -> EspErr) returns (first: EspErr, second: EspErr)
    requires d.Valid()
    modifies d
    ensures d.Valid() && d.Settled()
    ensures d.nbri == (if d.power then brightness else 0)
    ensures d.power == old(d.power) && d.nrgb == old(d.nrgb) && d.xy == old(d.xy)
    ensures d.CommittedFrom(old(d.rgb), old(d.bri), old(d.writes), respond, first)
    ensures second == EspOk
  {
    first := d.SetBrightness(brightness, respond);
    SettledWritesNothing(d.rgb, d.nrgb, d.bri, d.channelEnabled, respond);
    second := d.SetBrightness(brightness, respond);
  }

  /** Change detection for `set_power`: the same flag twice writes only on
      the first call, and the second returns `ESP_OK`. */
  method RepeatPower(d: LedDriver, newPower: bool, respond: LedcWrite -> EspErr) returns (first: EspErr, second: EspErr)
    requires d.Valid()
    modifies d
    ensures d.Valid() && d.Settled()
    ensures d.power == newPower && d.nbri == (if newPower then 1 else 0)
    ensures d.nrgb == old(d.nrgb) && d.xy == old(d.xy)
    ensures d.CommittedFrom(old(d.rgb), old(d.bri), old(d.writes), respond, first)
    ensures second == EspOk
  {
    first := d.SetPower(newPower, respond);
    SettledWritesNothing(d.rgb, d.nrgb, d.bri, d.channelEnabled, respond);
    second := d.SetPower(newPower, respond);
  }

  /** Change detection for `set_temperature`: the same temperature twice
      writes only on the first call, and the second returns `ESP_OK`. */
  method RepeatTemperature(d: LedDriver, temperature: u32, respond: LedcWrite -> EspErr) returns (first: EspErr, second: EspErr)
    requires d.Valid()
    modifies d
    ensures d.Valid() && d.Settled()
    ensures d.nrgb == TemperatureDuty(temperature)
    ensures d.power == old(d.power) && d.nbri == old(d.nbri) && d.xy == old(d.xy)
    ensures d.CommittedFrom(old(d.rgb), old(d.bri), old(d.writes), respond, first)
    ensures second == EspOk
  {
    first := d.SetTemperature(temperature, respond);
    SettledWritesNothing(d.rgb, d.nrgb, d.bri, d.channelEnabled, respond);
    second := d.SetTemperature(temperature, respond);
  }

  /** Change detection for a complete `set_colorXY(x, y)`: the same pair
      twice converts it twice to the same working set, so only the first
      call writes, and the second returns `ESP_OK`. */
  method RepeatColorXY(d: LedDriver, x: i32, y: i32, brightness: real, pow: (real, real) -> real, respond: LedcWrite -> EspErr)
    returns (first: EspErr, second: EspErr)
    requires d.Valid()
    requires x != -1 && y != -1
    modifies d
    ensures d.Valid() && d.Settled()
    ensures d.xy == NoPending && d.nrgb == XyDuty(XyColor(x, y), brightness, pow)
    ensures d.power == old(d.power) && d.nbri == old(d.nbri)
    ensures d.CommittedFrom(old(d.rgb), old(d.bri), old(d.writes), respond, first)
    ensures second == EspOk
  {
    first := d.SetColorXY(x, y, brightness, pow, respond);
    SettledWritesNothing(d.rgb, d.nrgb, d.bri, d.channelEnabled, respond);
    second := d.SetColorXY(x, y, brightness, pow, respond);
  }

  /** The working set is always in one colour mode; once settled, so is the
      applied set the hardware holds: enabled channels carry the working
      duty and disabled ones are dark. */
  lemma AppliedModeExclusive(d: LedDriver)
    requires d.Valid() && d.Settled()
    ensures ModeExclusive(d.rgb)
  {
  }

  /** A driver built from the default `LED_GPIO_MAP`, where every pin is
      unconfigured, enables no channel. */
  method DefaultDriver() returns (d: LedDriver)
    ensures d.Valid() && d.Settled()
    ensures |d.channelEnabled| == MaxChannels
    ensures forall i :: 0 <= i < MaxChannels ==> !d.channelEnabled[i]
  {
    d := new LedDriver(DefaultGpioMap());
  }
}
