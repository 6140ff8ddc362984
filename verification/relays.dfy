/** The relay policy: calibration of the raw sensor values, the three
    threshold decisions and the active-low pin levels that carry them. */
module Relays {

  /** Calibration offsets added to the raw sensor values. */
  const TempOffset: real := -5.0
  const HumOffset: real := 10.0

  /** Decision thresholds: the fan above 28.0 °C, the air conditioner above
      30.0 °C, the light below 100 lux (with motion). */
  const FanOnAbove: real := 28.0
  const AcOnAbove: real := 30.0
  const DarkBelow: real := 100.0

  /** What the drivers report at one sampling instant (pressure is only
      displayed and is not part of this model). */
  datatype RawSample = RawSample(temp: real, hum: real, lux: real, motion: bool)

  /** A calibrated reading: temperature in °C, relative humidity in %,
      illuminance in lux, and whether the PIR sensor saw motion. */
  datatype Reading = Reading(temp: real, hum: real, lux: real, motion: bool)

  /** The three relay flags `fanOn`, `lightOn`, `acOn`. */
  datatype Relays = Relays(fan: bool, light: bool, ac: bool)

  /** The level written to a relay pin. */
  datatype Level = Low | High

  /** The levels of the fan, light and air-conditioner relay pins. */
  datatype Pins = Pins(fan: Level, light: Level, ac: Level)

  /** Calibration is a fixed shift of temperature and humidity; illuminance
      and motion pass through unchanged. Measured against the raw sensor
      temperature, the shift moves the fan and air-conditioner thresholds
      to 33.0 °C and 35.0 °C. */
  function Calibrate(raw: RawSample): (r: Reading)
    ensures r.temp == raw.temp + TempOffset && r.hum == raw.hum + HumOffset
    ensures r.temp > FanOnAbove <==> raw.temp > 33.0
    ensures r.temp > AcOnAbove <==> raw.temp > 35.0
    ensures r.lux == raw.lux && r.motion == raw.motion
  {
    Reading(raw.temp + TempOffset, raw.hum + HumOffset, raw.lux, raw.motion)
  }

  /** The relay decisions for one reading. The air conditioner never runs
      without the fan, and the light never comes on without motion. */
  function Decide(r: Reading): (c: Relays)
    ensures c.ac ==> c.fan
    ensures !r.motion ==> !c.light
    ensures r.temp > 30.0 ==> c.fan && c.ac
  {
    Relays(r.temp > FanOnAbove, r.motion && r.lux < DarkBelow, r.temp > AcOnAbove)
  }

  /** The pin levels that command the given flags: the only levels in
      which every pin agrees with its flag, active-low. */
  function PinsFor(c: Relays): (p: Pins)
    ensures ActiveLow(c, p)
    ensures forall q :: ActiveLow(c, q) ==> q == p
  {
    Pins(if c.fan then Low else High, if c.light then Low else High, if c.ac then Low else High)
  }

  /** The relays are wired active-low: each pin is LOW exactly when its
      flag is set. */
  predicate ActiveLow(c: Relays, p: Pins)
  {
    (p.fan == Low <==> c.fan) && (p.light == Low <==> c.light) && (p.ac == Low <==> c.ac)
  }

  /** The fan and the air conditioner depend on the temperature alone. */
  lemma ClimateDependsOnlyOnTemp(r1: Reading, r2: Reading)
    requires r1.temp == r2.temp
    ensures Decide(r1).fan == Decide(r2).fan && Decide(r1).ac == Decide(r2).ac
  {
  }

  /** The light depends on motion and illuminance alone. */
  lemma LightDependsOnlyOnMotionAndLux(r1: Reading, r2: Reading)
    requires r1.motion == r2.motion && r1.lux == r2.lux
    ensures Decide(r1).light == Decide(r2).light
  {
  }

  /** A warmer reading never turns the fan or the air conditioner off. */
  lemma DecideMonotoneInTemp(r1: Reading, r2: Reading)
    requires r1.temp <= r2.temp
    ensures Decide(r1).fan ==> Decide(r2).fan
    ensures Decide(r1).ac ==> Decide(r2).ac
  {
  }

  /** Fan and air conditioner in terms of the raw sensor temperature: the
      calibration offset moves the thresholds to 33.0 °C and 35.0 °C. */
  lemma ClimateInRawTerms(raw: RawSample)
    ensures Decide(Calibrate(raw)).fan <==> raw.temp > 33.0
    ensures Decide(Calibrate(raw)).ac <==> raw.temp > 35.0
  {
  }

  /** 29 °C, 50 lux, motion: fan on, light on, air conditioner off. */
  lemma WarmDarkOccupied()
    ensures Decide(Reading(29.0, 50.0, 50.0, true)) == Relays(true, true, false)
  {
  }

  /** 31 °C, 150 lux, motion: fan on, light off, air conditioner on. */
  lemma HotBrightOccupied()
    ensures Decide(Reading(31.0, 50.0, 150.0, true)) == Relays(true, false, true)
  {
  }
}
