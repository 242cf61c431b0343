/** The per-measurement validators: functions baked into the capture loop
    that pass a reading on or raise an anomaly. */
module Validators {
  import opened Outcomes

  /** One averaged measurement: its value (index 0) and its error (index 1). */
  datatype Reading = Reading(value: real, error: real)

  /** The largest value the 10-bit serial link of the sensor reports. */
  const FullScale: real := 1023.0

  /** How much an answer of 'retry' lowers the gain. */
  const GainStep: int := 10

  /** The default post-processing step: the identity. */
  function Unchanged<T>(arg: T): (r: T)
    ensures r == arg
  {
    arg
  }

  /** Raises NonZeroReading unless the value of the reading is zero. */
  function StopOnNonzero(m: Reading): (r: Checked<Reading>)
    ensures r == Passed(m) <==> m.value == 0.0
    ensures r == Raised(NonZeroReading) <==> m.value != 0.0
  {
    if m.value != 0.0 then Raised(NonZeroReading) else Passed(m)
  }

  /** The two fields of the sensor that saturation_reached reads and writes. */
  datatype SensorState = SensorState(gain: int, ignoreSaturation: bool)

  /** How one call of saturation_reached ends: its outcome, the sensor fields
      afterwards, and how many operator answers it read.  The outcome is None
      when the answers ran out before a valid one came, where the source
      would go on prompting. */
  datatype SaturationStep =
    SaturationStep(outcome: Option<Checked<Reading>>, sensor: SensorState, used: nat)

  /** The three answers the prompt accepts. */
  predicate IsDecision(answer: string)
  {
    answer == "retry" || answer == "ignore" || answer == "ignore all"
  }

  /** The reading is at full scale, the gain is adjustable and saturation is
      not being ignored: the operator has to be asked. */
  predicate MustAsk(m: Reading, s: SensorState)
  {
    m.value == FullScale && s.gain >= 0 && !s.ignoreSaturation
  }

  /** The only effects saturation_reached can have: the reading is passed on
      unchanged, or Saturation is raised exactly when the gain went down by
      GainStep; ignoreSaturation only ever becomes true, and then the reading
      is passed on; without an outcome the sensor is untouched. */
  predicate Permitted(m: Reading, s: SensorState, r: SaturationStep)
  {
    && (r.outcome.Some? ==> r.outcome.value == Passed(m) || r.outcome.value == Raised(Saturation))
    && (r.outcome == Some(Raised(Saturation)) <==> r.sensor.gain == s.gain - GainStep)
    && (r.sensor.gain == s.gain || r.sensor.gain == s.gain - GainStep)
    && (r.sensor.ignoreSaturation != s.ignoreSaturation ==>
          r.sensor.ignoreSaturation && r.outcome == Some(Passed(m)))
    && (r.outcome.None? ==> r.sensor == s)
  }

  /** The prompt loop, reading answers in order until a valid one. */
  function Prompt(m: Reading, s: SensorState, answers: seq<string>): (r: SaturationStep)
    ensures Permitted(m, s, r)
    ensures r.used <= |answers|
    ensures r.outcome.None? <==> r.used == |answers| && forall k :: 0 <= k < |answers| ==> !IsDecision(answers[k])
    ensures r.outcome.Some? ==> 0 < r.used && IsDecision(answers[r.used - 1])
    ensures r.outcome.Some? ==> forall k :: 0 <= k < r.used - 1 ==> !IsDecision(answers[k])
    ensures r.outcome.Some? && answers[r.used - 1] == "retry" ==>
              r.outcome == Some(Raised(Saturation)) && r.sensor == s.(gain := s.gain - GainStep)
    ensures r.outcome.Some? && answers[r.used - 1] == "ignore" ==>
              r.outcome == Some(Passed(m)) && r.sensor == s
    ensures r.outcome.Some? && answers[r.used - 1] == "ignore all" ==>
              r.outcome == Some(Passed(m)) && r.sensor == s.(ignoreSaturation := true)
    decreases |answers|
  {
    if answers == [] then SaturationStep(None, s, 0)
    else if answers[0] == "retry" then
      SaturationStep(Some(Raised(Saturation)), s.(gain := s.gain - GainStep), 1)
    else if answers[0] == "ignore" then SaturationStep(Some(Passed(m)), s, 1)
    else if answers[0] == "ignore all" then
      SaturationStep(Some(Passed(m)), s.(ignoreSaturation := true), 1)
    else
      var rest := Prompt(m, s, answers[1..]);
      rest.(used := rest.used + 1)
  }

  /** saturation_reached as a function of the reading, the sensor fields and
      the answers the operator will give. */
  function SaturationCheck(m: Reading, s: SensorState, answers: seq<string>): (r: SaturationStep)
    ensures Permitted(m, s, r)
    ensures r.used <= |answers|
    ensures r.used > 0 ==> MustAsk(m, s)
  {
    if MustAsk(m, s) then Prompt(m, s, answers) else SaturationStep(Some(Passed(m)), s, 0)
  }

  /** The index of the first valid answer, if there is one. */
  function FirstDecision(answers: seq<string>): (r: Option<nat>)
    ensures r.Some? ==> r.value < |answers| && IsDecision(answers[r.value])
    ensures r.Some? ==> forall k :: 0 <= k < r.value ==> !IsDecision(answers[k])
    ensures r.None? ==> forall k :: 0 <= k < |answers| ==> !IsDecision(answers[k])
    decreases |answers|
  {
    if answers == [] then None
    else if IsDecision(answers[0]) then Some(0)
    else match FirstDecision(answers[1..])
      case None => None
      case Some(i) => Some(i + 1)
  }

  /** Below full scale, with a negative gain, or while saturation is being
      ignored, the reading is returned and the sensor is left alone. */
  lemma SaturationUntouched(m: Reading, s: SensorState, answers: seq<string>)
    requires m.value != FullScale || s.gain < 0 || s.ignoreSaturation
    ensures SaturationCheck(m, s, answers) == SaturationStep(Some(Passed(m)), s, 0)
  {
  }

  /** When the operator must be asked, the first valid answer decides:
      'retry' lowers the gain by exactly GainStep and raises Saturation,
      'ignore' changes nothing, 'ignore all' sets ignoreSaturation and keeps
      the gain; every answer before it is read and has no effect.  With no
      valid answer nothing changes and every answer is read. */
  lemma {:induction false} SaturationDecision(m: Reading, s: SensorState, answers: seq<string>)
    requires MustAsk(m, s)
    ensures var r := SaturationCheck(m, s, answers);
      match FirstDecision(answers)
      case None => r == SaturationStep(None, s, |answers|)
      case Some(i) =>
        && r.used == i + 1
        && (answers[i] == "retry" ==>
              r.outcome == Some(Raised(Saturation)) && r.sensor == SensorState(s.gain - GainStep, false))
        && (answers[i] == "ignore" ==> r.outcome == Some(Passed(m)) && r.sensor == s)
        && (answers[i] == "ignore all" ==>
              r.outcome == Some(Passed(m)) && r.sensor == SensorState(s.gain, true))
  {
    PromptDecision(m, s, answers);
  }

  lemma {:induction false} PromptDecision(m: Reading, s: SensorState, answers: seq<string>)
    ensures var r := Prompt(m, s, answers);
      match FirstDecision(answers)
      case None => r == SaturationStep(None, s, |answers|)
      case Some(i) =>
        && r.used == i + 1
        && (answers[i] == "retry" ==>
              r.outcome == Some(Raised(Saturation)) && r.sensor == s.(gain := s.gain - GainStep))
        && (answers[i] == "ignore" ==> r.outcome == Some(Passed(m)) && r.sensor == s)
        && (answers[i] == "ignore all" ==>
              r.outcome == Some(Passed(m)) && r.sensor == s.(ignoreSaturation := true))
    decreases |answers|
  {
    if answers != [] && !IsDecision(answers[0]) {
      PromptDecision(m, s, answers[1..]);
    }
  }

  /** Once the operator answered 'ignore all', every later reading passes
      through without a prompt and without changing the sensor. */
  lemma IgnoreAllSticks(m: Reading, s: SensorState, answers: seq<string>,
                        later: Reading, laterAnswers: seq<string>)
    requires SaturationCheck(m, s, answers).sensor.ignoreSaturation
    ensures var t := SaturationCheck(m, s, answers).sensor;
      SaturationCheck(later, t, laterAnswers) == SaturationStep(Some(Passed(later)), t, 0)
  {
  }

  /** A sensor with the two fields the validator uses. */
  class Sensor {
    var gain: int
    var ignoreSaturation: bool

    constructor (gain: int)
      ensures this.gain == gain && !ignoreSaturation
    {
      this.gain := gain;
      ignoreSaturation := false;
    }

    function State(): SensorState
      reads this
    {
      SensorState(gain, ignoreSaturation)
    }
  }

  /** saturation_reached(measurement, sensor_obj), with the operator's answers
      to the prompt given in order. */
  method SaturationReached(m: Reading, sensor: Sensor, answers: seq<string>)
    returns (outcome: Option<Checked<Reading>>, used: nat)
    modifies sensor
    ensures SaturationStep(outcome, sensor.State(), used)
            == SaturationCheck(m, old(sensor.State()), answers)
  {
    outcome, used := Some(Passed(m)), 0;
    if m.value == FullScale && sensor.gain >= 0 {
      if !sensor.ignoreSaturation {
        while true
          invariant used <= |answers|
          invariant sensor.State() == old(sensor.State())
          invariant var rest := Prompt(m, sensor.State(), answers[used..]);
            Prompt(m, sensor.State(), answers) == rest.(used := rest.used + used)
          decreases |answers| - used
        {
          if used == |answers| {
            outcome := None;
            break;
          }
          var answer := answers[used];
          assert answers[used..][1..] == answers[used + 1..];
          used := used + 1;
          if answer == "retry" || answer == "ignore" || answer == "ignore all" {
            if answer == "retry" {
              sensor.gain := sensor.gain - GainStep;
              outcome := Some(Raised(Saturation));
              return;
            } else if answer == "ignore" {
              break;
            } else if answer == "ignore all" {
              sensor.ignoreSaturation := true;
              break;
            }
          }
        }
      }
    }
  }
}
