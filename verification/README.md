# LED driver of the Thread/WiFi Matter light, in Dafny

This project models the lighting core of the Matter controller:

- the `LED_Driver` state machine (`components/led_driver/led_driver.cpp`,
  state in `components/led_driver/include/led_driver.h`);
- the colour conversions it calls (`components/led_driver/color_format.cpp`);
- the generic helpers (`components/led_driver/include/helpers.hpp`).

It proves properties of that model.

Three modules, one per source file:

- `Helpers` (`helpers.dfy`):
  - `clamp<T>` on reals and on integers;
  - `set_all_values_in_array` as an in-place loop over a Dafny `array`.
- `ColorFormat` (`color_format.dfy`): the three conversion routines as pure
  functions returning the triple they store through their out-pointer.
  - `xy_to_duty` is split into its steps: normalise, xyY to XYZ, XYZ to
    linear sRGB (D65 matrix), clip, scale into gamut, and the sRGB transfer
    function of IEC 61966-2-1, clause 5.2.
  - The remaining two are `scale_RGB_duty` and `colorTemperatureToRGB`.
  - Floats are modelled as `real`.
  - `pow` and `log` are function parameters, so every property holds
    whatever they return.
- `Driver` (`led_driver.dfy`): the class `LedDriver`.
  - Fields: the power flag, the applied and working brightness
    (`bri`/`nbri`), the applied and working duty sets (`RGB`/`nRGB`), the
    pending xy slot and the per-channel enabled flags.
  - A ghost log records every LEDC duty write.
  - The hardware's answer to a write is the parameter `respond`.
  - Each command method states its whole new state in terms of specification
    functions: `Committed`, `PendingWrites`, `SetDutyError`,
    `TemperatureDuty`, `XyDuty` and `MergePending`.
  - Lemmas about those functions give change detection, the error OR and
    pending-coordinate accumulation.

The C++ does not compile as written. The model follows its evident intent,
and the doc comments of `led_driver.dfy` say where:

- `set_brightness` writes the working brightness `nbri`: the header calls
  `nbri` the working value and `set_duty` commits `bri = nbri`.
- `duty_to_pwm` scales by `nbri`.
- `set_channel_duty` compares the two duty values and copies the working
  one into the applied one.
- `return set_duty;` calls `set_duty`.
- The constructor tests each pin's `gpio` member against -1.
- The brightness argument `set_colorXY` leaves out of `xy_to_duty` is a
  parameter of `SetColorXY`.

## Model

| member | source | states |
|---|---|---|
| Helpers.Clamp | components/led_driver/include/helpers.hpp:8-10 | The result lies in [mn,mx] when mn <= mx; val is returned unchanged inside the bounds; below mn gives mn, above mx gives mx; crossed bounds (mn > mx) give mn for every val |
| Helpers.ClampInt | components/led_driver/include/helpers.hpp:8-10 | The same five facts for the integer instantiation used on kelvin |
| Helpers.ClampIdempotent | components/led_driver/include/helpers.hpp:8-10 | Clamping twice to the same bounds equals clamping once |
| Helpers.SetAllValues | components/led_driver/include/helpers.hpp:12-17 | After the in-place fill every element of the array equals val (the length of a Dafny array cannot change) |
| ColorFormat.Max3 | components/led_driver/color_format.cpp:46 | The largest component is at least each component and equal to one of them |
| ColorFormat.Normalize | components/led_driver/color_format.cpp:13-14 | A 16-bit coordinate divided by 65535 lies in [0,1] and is 0 exactly for coordinate 0 |
| ColorFormat.XyyToXyz | components/led_driver/color_format.cpp:26-30 | Y is the luminance; zero luminance gives X = Y = Z = 0; a chromaticity inside the triangle with non-negative luminance gives non-negative X and Z |
| ColorFormat.XyzToLinear | components/led_driver/color_format.cpp:34-36 | The D65 matrix maps zero XYZ to black |
| ColorFormat.ClipNegative | components/led_driver/color_format.cpp:40-42 | Every clipped component is >= 0; negative components become 0; a colour with no negative component is unchanged |
| ColorFormat.ScaleIntoGamut | components/led_driver/color_format.cpp:46-51 | After the clip every component is in [0,1]; a colour whose largest component is <= 1 is untouched; when scaling happens each component times the old maximum gives back the original, so ratios are kept, and the new maximum is exactly 1 |
| ColorFormat.DivideAll | components/led_driver/color_format.cpp:47-51 | Dividing three non-negative components by their positive maximum gives fractions that multiply back to the components, with maximum 1 |
| ColorFormat.GammaCorrect | components/led_driver/color_format.cpp:54-57 | The linear branch maps [0, 0.0031308] into [0, 0.05) and 0 to 0 |
| ColorFormat.LinearFromXy | components/led_driver/color_format.cpp:26-51 | The linear colour for a valid chromaticity has every component in [0,1] |
| ColorFormat.EncodeDuty | components/led_driver/color_format.cpp:59-62 | Every stored component lies in [0,1]; black stays black |
| ColorFormat.XyToDuty | components/led_driver/color_format.cpp:9-63 | Every component written lies in [0,1]; after normalising by 65535, y <= 0 or x + y > 1 writes (0,0,0) |
| ColorFormat.XyToDutyZeroBrightness | components/led_driver/color_format.cpp:26-62 | Brightness 0 writes (0,0,0) for every coordinate pair |
| ColorFormat.LinearFromXyZero | components/led_driver/color_format.cpp:26-51 | Zero luminance gives the zero linear colour |
| ColorFormat.BlackStaysBlack | components/led_driver/color_format.cpp:40-51 | Neither the clip nor the gamut scale changes black |
| ColorFormat.StoreRgb | components/led_driver/color_format.cpp:60-62 | Storing a triple into an `RGB_CCT_Duty_t` sets red, green and blue to it and leaves white and warm white untouched |
| ColorFormat.ScaleRgbDuty | components/led_driver/color_format.cpp:68-72 | Every component is in [0,1]; each component on its own keeps its product c * scale when that lies in [0,1], saturates at 1 above it and is cut to 0 below it; when the scale is non-negative and keeps the largest component within 1, the whole triple is exactly c * scale |
| ColorFormat.ScaleByZero | components/led_driver/color_format.cpp:68-72 | Scale 0 gives (0,0,0) |
| ColorFormat.ScaleByOne | components/led_driver/color_format.cpp:68-72 | Scale 1 leaves an in-range triple unchanged |
| ColorFormat.KelvinToTemp | components/led_driver/color_format.cpp:78 | The quotient lies in [10,400]: below 1000 K it is 10, above 40000 K it is 400, otherwise kelvin / 100 |
| ColorFormat.ColorTemperatureToRgb | components/led_driver/color_format.cpp:76-112 | Every component of the blackbody approximation lies in [0,1] |
| ColorFormat.ColorTemperatureFixedChannels | components/led_driver/color_format.cpp:82-107 | Below 6700 K red is 1 (temp <= 66); below 2000 K blue is 0 (temp <= 19); from 6700 K blue is 1 (temp > 66) |
| ColorFormat.ColorTemperatureByQuotient | components/led_driver/color_format.cpp:78 | Any kelvin below 1000 acts as 1000, any above 40000 as 40000, and kelvins with the same quotient by 100 give the same output |
| Driver.Or | components/led_driver/led_driver.cpp:88-94 | OR-ing two `esp_err_t` codes gives `ESP_OK` exactly when both are `ESP_OK` |
| Driver.MaxPwmMatchesResolution | components/led_driver/include/led_driver.h:98 | `max_pwm` = 8192 is 2^13, the full range of the 13-bit timer |
| Driver.LedcChannel | components/led_driver/include/led_driver.h:23-27 | Each logical channel drives an LEDC channel within the 6 slots of `channel_enabled` |
| Driver.LedcChannelInjective | components/led_driver/include/led_driver.h:23-27 | Distinct logical channels drive distinct LEDC channels |
| Driver.WithDuty | components/led_driver/led_driver.cpp:81 | Copying a duty into one channel sets that channel and leaves the other four unchanged |
| Driver.DefaultGpioMap | components/led_driver/include/led_driver.h:43-47 | Every entry of the default pin map has gpio -1 and its own LEDC channel |
| Driver.PwmProduct | components/led_driver/led_driver.cpp:68-69 | For a duty fraction the product max_pwm * color * brightness / 100 lies between 0 and max_pwm scaled by the brightness percentage, so it fits a `uint32_t` |
| Driver.DutyToPwm | components/led_driver/led_driver.cpp:67-71 | The count is the product truncated (floor of a non-negative value, never rounded up), below 2^32, and 0 when the product is below 1 |
| Driver.DutyToPwmRange | components/led_driver/led_driver.cpp:30 | For a fraction and brightness <= 100 the count lies in [0, 8192]; brightness 0 gives 0; full duty at 100 % gives 8192 |
| Driver.ChannelWrites | components/led_driver/led_driver.cpp:74-83 | At most one write; a write happens exactly when the channel is enabled and its duty or the brightness changed; it goes to that channel's LEDC channel with the working duty at the working brightness |
| Driver.ChannelWritesLocal | components/led_driver/led_driver.cpp:76 | A channel's write depends on the applied set only through that channel's own duty |
| Driver.PendingWrites | components/led_driver/led_driver.cpp:86-98 | One `set_duty` writes at most five times, only to enabled channels; at brightness 0 every count is 0; at brightness <= 100 every count is <= 8192 |
| Driver.PendingWritesEmpty | components/led_driver/led_driver.cpp:76-79 | `set_duty` writes nothing exactly when every enabled channel holds its working duty and the brightness is unchanged |
| Driver.CommittedIsChannelSteps | components/led_driver/led_driver.cpp:90-94 | After `set_duty` each enabled channel holds its working duty and each disabled one its applied duty, and this is the five `set_channel_duty` steps applied in order |
| Driver.CommittedUnique | components/led_driver/led_driver.cpp:90-94 | The commit is the only duty set whose enabled channels hold the working duty and whose disabled channels hold the applied duty |
| Driver.CommittedUnchanged | components/led_driver/led_driver.cpp:76-79 | Committing a set onto itself changes nothing |
| Driver.CommittedIdempotent | components/led_driver/led_driver.cpp:86-98 | Committing twice is committing once |
| Driver.CommittedWritesNothing | components/led_driver/led_driver.cpp:76-79 | After a commit, a second `set_duty` at the same brightness writes nothing |
| Driver.SettledWritesNothing | components/led_driver/led_driver.cpp:86-98 | On a settled driver `set_duty` writes nothing and returns `ESP_OK` |
| Driver.ChannelError | components/led_driver/led_driver.cpp:76-82 | `set_channel_duty` returns `ESP_OK` exactly when every write it issued was answered `ESP_OK` (a skipped channel returns `ESP_OK`) |
| Driver.SetDutyErrorOk | components/led_driver/led_driver.cpp:88-97 | No failure is masked: `set_duty` returns `ESP_OK` exactly when every write it issued succeeded |
| Driver.OrOk | components/led_driver/led_driver.cpp:88-94 | The OR of the five channel codes is `ESP_OK` exactly when each code is |
| Driver.TemperatureDuty | components/led_driver/led_driver.cpp:121-128 | Red, green and blue are 0; white and warm white are fractions summing to 1; white is t/10000 up to 10000 K and 1 from there on |
| Driver.ToU16 | components/led_driver/led_driver.cpp:150 | The `long` to `uint16_t` conversion keeps values in range and otherwise reduces modulo 2^16 |
| Driver.MergePending | components/led_driver/led_driver.cpp:139-146 | The pair is complete exactly when each coordinate is supplied now or was already pending; every coordinate held comes either from the call or from the slot |
| Driver.MergePendingIdempotent | components/led_driver/led_driver.cpp:139-144 | Storing the same coordinates again changes nothing, and `set_colorXY(-1, -1)` leaves the slot as it was |
| Driver.PendingOverwrite | components/led_driver/led_driver.cpp:139-144 | A newer value for a pending coordinate overwrites the older one; only one value per coordinate is held |
| Driver.SplitDeliveryMatchesJoined | components/led_driver/led_driver.cpp:139-153 | With no y pending, x alone does not complete the pair, and x then y gives the same pair as both at once |
| Driver.SplitDeliveryYFirst | components/led_driver/led_driver.cpp:139-153 | With no x pending, y alone does not complete the pair, and y then x gives the same pair as both at once |
| Driver.EarlyCompletion | components/led_driver/led_driver.cpp:139-153 | With a y already pending, x alone completes the pair with the old y; after the slot is emptied, the following y is left pending alone |
| Driver.XyDuty | components/led_driver/led_driver.cpp:146-150 | Once both coordinates are known, white and warm white are 0, red, green and blue are `xy_to_duty` of the pair, and all are fractions |
| Driver.ChannelSequence | components/led_driver/led_driver.cpp:88-95 | The five `set_channel_duty` steps in order commit the working set, issue exactly the pending writes and OR their answers into the code `set_duty` returns |
| Driver.LedDriver.constructor | components/led_driver/led_driver.cpp:27-54 | A fresh driver has power off, `bri = nbri = 0`, both duty sets zero, no pending coordinate, an empty write log, and exactly the channels whose gpio is not -1 enabled (slot 5 never) |
| Driver.LedDriver.SetChannelDuty | components/led_driver/led_driver.cpp:74-83 | A disabled channel, or an unchanged one at unchanged brightness, is skipped with `ESP_OK`; otherwise the working duty is copied into the applied one, one write is logged and the hardware's answer returned; nothing else changes |
| Driver.LedDriver.SetDuty | components/led_driver/led_driver.cpp:86-98 | Afterwards every enabled channel holds its working duty, disabled ones are untouched, `bri = nbri`, the log gained exactly the pending writes in channel order, and the code is the OR of every channel's answer; the invariant is kept |
| Driver.LedDriver.SetBrightness | components/led_driver/led_driver.cpp:104-114 | The working brightness becomes the requested level with power on and 0 with power off, then `set_duty` commits |
| Driver.LedDriver.SetPower | components/led_driver/led_driver.cpp:58-63 | The flag is stored and the flag itself becomes the brightness (1 for on, 0 for off), then `set_duty` commits |
| Driver.LedDriver.SetTemperature | components/led_driver/led_driver.cpp:118-132 | The working set becomes white = clamp(t/10000, 0, 1), warm white = 1 - white, colour channels 0; the applied colour channels end at 0; then `set_duty` commits |
| Driver.LedDriver.SetColorXY | components/led_driver/led_driver.cpp:136-156 | Supplied coordinates are stored in the pending slot; with one still missing it returns `ESP_OK` and changes no duty, brightness or log; once both are known white and warm white are 0, red, green and blue come from `xy_to_duty`, the slot is emptied and `set_duty` commits |
| Driver.DeliverSeparately | components/led_driver/led_driver.cpp:139-153 | `set_colorXY(x, -1)` then `set_colorXY(-1, y)`, with no y pending, returns `ESP_OK` first and leaves the same working set and empty slot as one `set_colorXY(x, y)` |
| Driver.DeliverYThenX | components/led_driver/led_driver.cpp:139-153 | `set_colorXY(-1, y)` then `set_colorXY(x, -1)`, with no x pending, returns `ESP_OK` first and leaves the same working set and empty slot as one `set_colorXY(x, y)` |
| Driver.RepeatSetDuty | components/led_driver/led_driver.cpp:86-98 | A second `set_duty` with no command in between writes nothing, changes nothing and returns `ESP_OK` |
| Driver.RepeatBrightness | components/led_driver/led_driver.cpp:104-114 | `set_brightness` twice with the same level ends in the state, log and code of one call, and the second call returns `ESP_OK` |
| Driver.RepeatPower | components/led_driver/led_driver.cpp:58-63 | `set_power` twice with the same flag ends in the state, log and code of one call, and the second call returns `ESP_OK` |
| Driver.RepeatTemperature | components/led_driver/led_driver.cpp:118-132 | `set_temperature` twice with the same value ends in the state, log and code of one call, and the second call returns `ESP_OK` |
| Driver.RepeatColorXY | components/led_driver/led_driver.cpp:136-156 | A complete `set_colorXY(x, y)` twice ends in the state, log and code of one call, and the second call returns `ESP_OK` |
| Driver.AppliedModeExclusive | components/led_driver/include/led_driver.h:89-90 | On a settled driver the applied duty set, not only the working one, lights at most one colour mode: the colour channels or the white ones |
| Driver.DefaultDriver | components/led_driver/include/led_driver.h:43-47 | A driver built from the default pin map, every gpio -1, enables no channel |

## Left out

- The ESP-IDF LEDC calls are foreign hardware calls:
  - `ledc_timer_config`, `ledc_channel_config` and `ledc_fade_func_install`;
  - the struct building of `generateChannelConfig`.
  Only their effect is modelled: a channel is enabled exactly when its gpio is not -1.
- `ledc_set_duty_and_update` is modelled as an entry in the ghost log. What the hardware answers is the parameter `respond`, a function of the write alone.
- Logging (`ESP_LOGI`) is not modelled.
- The Matter attribute plumbing in `main/app_driver.cpp` is not part of this model. `DeliverSeparately` and `DeliverYThenX` capture the one fact used from it: x and y arrive in separate calls, with -1 for the absent coordinate.
- Driver.DeliverSeparately requires that no y is pending, and Driver.DeliverYThenX that no x is pending. Otherwise the code does something else (`components/led_driver/led_driver.cpp:139-153`): with y0 pending, `set_colorXY(x, -1)` completes and commits the pair (x, y0) at once, and the y that follows is left pending on its own. `EarlyCompletion` states this case.
- Floating-point rounding is not modelled: arithmetic is over `real`.
- `pow` and `log` are parameters that may return anything. So nothing is claimed about colour accuracy, for example where D65 white or 6600 K lands.
- The following are not modelled because the code does not have them:
  - restoring a saved brightness on power-on;
  - rounding in `duty_to_pwm`;
  - a per-channel error list (the code ORs `esp_err_t` codes);
  - channel enable/disable. It is declared at `components/led_driver/include/led_driver.h:65-66` but never defined, so `channel_enabled` is a constant sequence fixed by the constructor.
- The struct `led_channel_info_t` passed to `set_channel_duty` in the header is replaced by the channel number the .cpp uses.
- Driver.DutyToPwm requires that the product lies in (-1, 2^32), where the cast to `uint32_t` is defined. The callers always meet this for duty fractions.
- ColorFormat.ScaleRgbDuty: `scale_RGB_duty` updates the caller's struct through a pointer. The model returns the new triple instead, so aliasing is not modelled. Nothing in the driver calls it.
- ColorFormat.Normalize follows the code's divisor 65535, although `MATTER_COLOR_MAX` in `components/led_driver/include/color_format.h:9` is 65279.
- The `max_pwm` field is modelled as the constant `MaxPwm`, since the constructor assigns it once.
- `nChannels`, `pins`, `timer` and `TAG` are not modelled. No modelled operation reads them.
