# Smart Energy Optimizer (ESP32) — control step model

A Dafny model of the control step of an ESP32 environmental node. The
firmware's main loop is polled continuously. When at least 1000 ms of the
32-bit `millis()` clock have passed since the last step, it records the new
firing time and reads the BME280 (temperature, humidity), the BH1750
(illuminance) and the PIR sensor (motion). It calibrates temperature by
-5.0 °C and humidity by +10.0 %, then sets three relays:

- the fan is on exactly when the temperature is above 28.0 °C;
- the light is on exactly when there is motion and fewer than 100 lux;
- the air conditioner is on exactly when the temperature is above 30.0 °C.

Each relay pin is active-low: LOW energises it. `setup()` starts every pin HIGH
with every flag false.

Layout:

- `timing.dfy`, module `Timing`: the clock as an integer below 2^32, the
  unsigned elapsed-time subtraction, the due test, and the rollover lemmas.
- `relays.dfy`, module `Relays`: calibration, the threshold policy
  `Decide`, the active-low pin levels, and the policy's properties.
- `control.dfy`, module `Control`:
  - the control state `ControlState`, the decision part `Apply` and one loop
    pass `Step`, as pure functions;
  - the trace of a run of loop passes, `States`, with the lemmas about
    firings across a run;
  - the class `Controller`, which holds the globals and whose `Tick` method
    mirrors the main loop and is proved equal to `Step`.

The source is `src/main.cpp`.

## Model

| member | source | states |
|---|---|---|
| `Timing.Elapsed` | src/main.cpp:71-72 | the unsigned difference `currentMillis - previousMillis` is the plain difference when the clock has not wrapped, and the difference plus 2^32 when it has |
| `Timing.ElapsedAcrossRollover` | src/main.cpp:71-72 | for two times since boot less than 2^32 ms apart, the unsigned difference of their clock readings is the true time between them, even across a rollover |
| `Timing.DueAcrossRollover` | src/main.cpp:71-73 | the due test is true exactly when the true elapsed time is at least 1000 ms, rollover included |
| `Timing.DueAfter` | src/main.cpp:71-73 | a call d ms after a firing (mod 2^32) is due exactly when d >= 1000 |
| `Relays.Calibrate` | src/main.cpp:75-79 | temperature is shifted by -5.0 and humidity by +10.0, lux and motion pass through; the calibrated temperature exceeds the fan threshold exactly when the raw sensor temperature exceeds 33.0 °C, and the air-conditioner threshold exactly when it exceeds 35.0 °C |
| `Relays.Decide` | src/main.cpp:82-101 | the air conditioner is never on without the fan; the light is never on without motion; above 30.0 °C both fan and air conditioner are on |
| `Relays.PinsFor` | src/main.cpp:83-100 | the pin levels written for a set of flags satisfy the active-low relation, and they are the only levels that do |
| `Relays.ClimateDependsOnlyOnTemp` | src/main.cpp:82-101 | fan and air-conditioner decisions depend on the temperature alone, not on humidity, lux or motion |
| `Relays.LightDependsOnlyOnMotionAndLux` | src/main.cpp:89-95 | the light decision depends on motion and lux alone |
| `Relays.DecideMonotoneInTemp` | src/main.cpp:82-101 | a higher temperature never turns the fan or the air conditioner off |
| `Relays.ClimateInRawTerms` | src/main.cpp:75-101 | measured against the raw sensor temperature, the fan switches above 33.0 °C and the air conditioner above 35.0 °C |
| `Relays.WarmDarkOccupied` | src/main.cpp:82-101 | at 29 °C, 50 lux, with motion: fan on, light on, air conditioner off |
| `Relays.HotBrightOccupied` | src/main.cpp:82-101 | at 31 °C, 150 lux, with motion: fan on, light off, air conditioner on |
| `Control.Apply` | src/main.cpp:82-101 | after the relay logic every pin matches its flag, active-low; `previousMillis` is untouched; the air conditioner implies the fan; without motion the light is off and its pin HIGH |
| `Control.Step` | src/main.cpp:71-101 | a pass keeps the active-low invariant, and a pass that fires establishes it whatever the state before; when not due it changes nothing; when due it sets `previousMillis` to the current time, turns the fan on exactly when raw temperature > 33.0, the air conditioner exactly when raw temperature > 35.0, and the light exactly when motion and lux < 100 |
| `Control.ApplyIdempotent` | src/main.cpp:82-101 | running the relay logic twice on the same reading leaves the state as after one run |
| `Control.ApplyForgetsPrevious` | src/main.cpp:82-101 | flags and pins after the relay logic do not depend on their previous values (overwrite, not read-modify-write) |
| `Control.States` | src/main.cpp:70-72 | a run of loop passes has one state per pass, plus one after the last pass, and each state is the step of the one before |
| `Control.RunKeepsActiveLow` | src/main.cpp:83-100 | starting from a state where pins match flags, pins match flags at every point of a run |
| `Control.QuietPrefix` | src/main.cpp:72 | as long as no step has fired, the whole state is unchanged |
| `Control.LastFiringDeterminesState` | src/main.cpp:72-101 | between two firings the state holds the last firing time and the flags and pins commanded by that firing's reading |
| `Control.FiringsSpaced` | src/main.cpp:71-73 | after a firing at call i, the next call j fires exactly when (clock at j - clock at i) mod 2^32 >= 1000 |
| `Control.FiringsSpacedInTrueTime` | src/main.cpp:71-73 | in true time since boot, for two calls less than 2^32 ms apart, the next firing comes exactly when 1000 ms have passed since the last one, across a rollover of `millis()` too |
| `Control.Controller.constructor` | src/main.cpp:28-34 | the globals start with `previousMillis` 0 and all flags false; with the HIGH pin levels written in `setup()` (src/main.cpp:63-65) the start state satisfies the active-low invariant |
| `Control.Controller.ApplyRelays` | src/main.cpp:82-101 | the imperative relay logic leaves the globals equal to `Apply` of their old value |
| `Control.Controller.Tick` | src/main.cpp:70-101 | the loop body fires exactly when due; the new globals are `Step` of the old ones; the active-low invariant holds afterwards if it held before or the step fired |

## Left out

- Driver and display initialisation in `setup()` (src/main.cpp:36-62): serial and I2C start-up, the OLED, BME280 and BH1750 `begin` calls, `pinMode`, and the endless halt on a failed `begin`. This is foreign driver I/O. Only the initial flags and pin levels are modelled.
- Sensor reads and `millis()`: these are hardware I/O. The clock value and the raw sensor values are parameters of `Tick`.
- Humidity (src/main.cpp:76) is calibrated by +10.0 but, like pressure, is only displayed and feeds no decision; the model calibrates it and nothing reads it.
- Pressure (src/main.cpp:77): the `/ 100.0F` conversion is only displayed and feeds no decision.
- OLED rendering (src/main.cpp:103-140): cursor positions, text size and print precision are presentation output into a display library that is not part of this model.
- Floating point: temperature, humidity and lux are `real`, so IEEE `float` rounding of the calibration offsets and of the threshold comparisons is not modelled. A `float` reading can also be NaN, which a `real` cannot: a NaN temperature makes the comparisons at src/main.cpp:82 and 97 false, so fan and air conditioner switch off; a NaN illuminance makes the comparison at src/main.cpp:89 false, so the light switches off; the model has no such input.
- The physical pin writes are modelled as the pin levels last written (`fanPin`, `lightPin`, `acPin`), not as calls into the GPIO driver.
