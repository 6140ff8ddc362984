/** The control step of the main loop: a timer-gated state machine over the
    last firing time, the three relay flags and the three relay pins. */
module Control {
  import opened Timing
  import opened Relays

  /** One call of the main loop: the clock reading and what the drivers
      would report if the step runs. */
  datatype Sample = Sample(now: Millis, raw: RawSample)

  /** Everything the control step reads or writes: `previousMillis`, the
      relay flags and the relay pin levels. */
  datatype ControlState = ControlState(previousMillis: Millis, relays: Relays, pins: Pins)

  /** The state after start-up: no step has fired yet, every flag is false
      and `setup()` has driven every relay pin HIGH. */
  const Boot: ControlState := ControlState(0, Relays(false, false, false), Pins(High, High, High))

  /** The object invariant: every pin agrees with its flag, active-low. */
  predicate Valid(s: ControlState)
  {
    ActiveLow(s.relays, s.pins)
  }

  /** The decision part of a step: flags and pins are overwritten from the
      reading alone, never read and modified. */
  function Apply(s: ControlState, r: Reading): (t: ControlState)
    ensures Valid(t)
    ensures t.previousMillis == s.previousMillis
    ensures t.relays.ac ==> t.relays.fan
    ensures !r.motion ==> !t.relays.light && t.pins.light == High
  {
    var c := Decide(r);
    s.(relays := c, pins := PinsFor(c))
  }

  /** One call of the main loop. When the step is due it records the new
      firing time and applies the policy to the calibrated reading;
      otherwise nothing changes. */
  function Step(s: ControlState, x: Sample): (t: ControlState)
    ensures Valid(s) ==> Valid(t)
    ensures Due(x.now, s.previousMillis) ==> Valid(t)
    ensures !Due(x.now, s.previousMillis) ==> t == s
    ensures Due(x.now, s.previousMillis) ==>
      && t.previousMillis == x.now
      && (t.relays.fan <==> x.raw.temp > 33.0)
      && (t.relays.ac <==> x.raw.temp > 35.0)
      && (t.relays.light <==> x.raw.motion && x.raw.lux < 100.0)
  {
    if Due(x.now, s.previousMillis) then
      ClimateInRawTerms(x.raw);
      Apply(s.(previousMillis := x.now), Calibrate(x.raw))
    else
      s
  }

  /** Running the decision part twice on the same reading is the same as
      running it once. */
  lemma ApplyIdempotent(s: ControlState, r: Reading)
    ensures Apply(Apply(s, r), r) == Apply(s, r)
  {
  }

  /** The flags and pins after the decision part do not depend on what they
      were before it. */
  lemma ApplyForgetsPrevious(s1: ControlState, s2: ControlState, r: Reading)
    ensures Apply(s1, r).relays == Apply(s2, r).relays
    ensures Apply(s1, r).pins == Apply(s2, r).pins
  {
  }

  /** The state before each call of a run of calls and after the last one:
      `States(s, xs)[k]` is the state the k-th call starts from. */
  function States(s: ControlState, xs: seq<Sample>): (ss: seq<ControlState>)
    ensures |ss| == |xs| + 1 && ss[0] == s
    ensures forall k :: 0 <= k < |xs| ==> ss[k + 1] == Step(ss[k], xs[k])
    decreases |xs|
  {
    if xs == [] then [s]
    else
      var before := States(s, xs[..|xs| - 1]);
      before + [Step(before[|xs| - 1], xs[|xs| - 1])]
  }

  /** Whether the k-th call of a run fires a control step. */
  predicate Fires(s: ControlState, xs: seq<Sample>, k: nat)
    requires k < |xs|
  {
    Due(xs[k].now, States(s, xs)[k].previousMillis)
  }

  /** The active-low invariant holds at every point of a run that starts
      from a valid state. */
  lemma {:induction false} RunKeepsActiveLow(s: ControlState, xs: seq<Sample>, k: nat)
    requires Valid(s) && k <= |xs|
    ensures Valid(States(s, xs)[k])
  {
    if k > 0 {
      RunKeepsActiveLow(s, xs, k - 1);
    }
  }

  /** Until the first step fires, the state stays what it was. */
  lemma {:induction false} QuietPrefix(s: ControlState, xs: seq<Sample>, k: nat)
    requires k <= |xs|
    requires forall m :: 0 <= m < k ==> !Fires(s, xs, m)
    ensures States(s, xs)[k] == s
  {
    if k > 0 {
      QuietPrefix(s, xs, k - 1);
      assert !Fires(s, xs, k - 1);
    }
  }

  /** After a step fires at call i, every later call up to the next firing
      sees `previousMillis` equal to the clock reading of call i and the
      flags and pins that call i's reading commanded. */
  lemma {:induction false} LastFiringDeterminesState(s: ControlState, xs: seq<Sample>, i: nat, k: nat)
    requires i < k <= |xs|
    requires Fires(s, xs, i)
    requires forall m :: i < m < k ==> !Fires(s, xs, m)
    ensures States(s, xs)[k].previousMillis == xs[i].now
    ensures States(s, xs)[k].relays == Decide(Calibrate(xs[i].raw))
    ensures States(s, xs)[k].pins == PinsFor(Decide(Calibrate(xs[i].raw)))
  {
    if k > i + 1 {
      LastFiringDeterminesState(s, xs, i, k - 1);
      assert !Fires(s, xs, k - 1);
    }
  }

  /** Steps are spaced out: after a step fires at call i, a later call j
      fires the next step exactly when a full interval of the 32-bit clock
      has passed since call i. */
  lemma FiringsSpaced(s: ControlState, xs: seq<Sample>, i: nat, j: nat)
    requires i < j < |xs|
    requires Fires(s, xs, i)
    requires forall m :: i < m < j ==> !Fires(s, xs, m)
    ensures Fires(s, xs, j) <==> Elapsed(xs[j].now, xs[i].now) >= Interval
  {
    LastFiringDeterminesState(s, xs, i, j);
  }

  /** The same spacing in true time since boot, across a rollover of
      `millis()`: two consecutive steps less than one wrap period apart are
      at least one interval apart, and a call one interval or more after
      the last step fires. */
  lemma FiringsSpacedInTrueTime(s: ControlState, xs: seq<Sample>, i: nat, j: nat, ti: nat, tj: nat)
    requires i < j < |xs|
    requires Fires(s, xs, i)
    requires forall m :: i < m < j ==> !Fires(s, xs, m)
    requires xs[i].now == Wrap(ti) && xs[j].now == Wrap(tj)
    requires ti <= tj < ti + Modulus
    ensures Fires(s, xs, j) <==> tj - ti >= Interval
  {
    FiringsSpaced(s, xs, i, j);
    ElapsedAcrossRollover(ti, tj);
  }

  /** The node's control globals, updated in place by the main loop. */
  class Controller {
    var previousMillis: Millis
    var fanOn: bool
    var lightOn: bool
    var acOn: bool
    var fanPin: Level
    var lightPin: Level
    var acPin: Level

    /** The abstract value of the globals. */
    function State(): ControlState
      reads this
    {
      ControlState(previousMillis, Relays(fanOn, lightOn, acOn), Pins(fanPin, lightPin, acPin))
    }

    /** The globals' initial values and the HIGH levels `setup()` writes to
        the relay pins. */
    constructor ()
      ensures State() == Boot && Valid(State())
    {
      previousMillis := 0;
      fanOn, lightOn, acOn := false, false, false;
      fanPin, lightPin, acPin := High, High, High;
    }

    /** The relay logic of the main loop: each flag and its pin are
        overwritten from the reading. */
    method ApplyRelays(r: Reading)
      modifies this
      ensures State() == Apply(old(State()), r)
    {
      if r.temp > FanOnAbove {
        fanPin := Low; fanOn := true;
      } else {
        fanPin := High; fanOn := false;
      }

      if r.motion && r.lux < DarkBelow {
        lightPin := Low; lightOn := true;
      } else {
        lightPin := High; lightOn := false;
      }

      if r.temp > AcOnAbove {
        acPin := Low; acOn := true;
      } else {
        acPin := High; acOn := false;
      }
    }

    /** One pass of the main loop with the clock at `currentMillis`; the
        sensor values are only used when the step is due. Reports whether
        the step ran. */
    method Tick(currentMillis: Millis, rawTemp: real, rawHum: real, lux: real, motion: bool)
      returns (fired: bool)
      modifies this
      ensures fired <==> Due(currentMillis, old(previousMillis))
      ensures State() == Step(old(State()), Sample(currentMillis, RawSample(rawTemp, rawHum, lux, motion)))
      ensures old(Valid(State())) || fired ==> Valid(State())
    {
      fired := (currentMillis - previousMillis) % Modulus >= Interval;
      if fired {
        previousMillis := currentMillis;
        var reading := Calibrate(RawSample(rawTemp, rawHum, lux, motion));
        ApplyRelays(reading);
      }
    }
  }
}
