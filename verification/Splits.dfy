// src/backtest/split.rs: chronological train / validation / out-of-sample periods.
module Splits {
  import opened Wrappers

  datatype Split = Train | Validation | OutOfSample

  datatype Config = Config(trainEnd: Option<int>, validationStart: Option<int>, validationEnd: Option<int>, oosStart: Option<int>)

  // `validate_boundaries`: each configured neighbouring pair is in order.
  predicate BoundariesOk(c: Config) {
    && (c.trainEnd.Some? && c.validationStart.Some? ==> c.trainEnd.value <= c.validationStart.value)
    && (c.validationStart.Some? && c.validationEnd.Some? ==> c.validationStart.value < c.validationEnd.value)
    && (c.validationEnd.Some? && c.oosStart.Some? ==> c.validationEnd.value <= c.oosStart.value)
  }

  // The three checks in the order of the source.
  method ValidateBoundaries(c: Config) returns (ok: bool)
    ensures ok <==> BoundariesOk(c)
  {
    if c.trainEnd.Some? && c.validationStart.Some? && c.trainEnd.value > c.validationStart.value {
      return false;
    }
    if c.validationStart.Some? && c.validationEnd.Some? && c.validationStart.value >= c.validationEnd.value {
      return false;
    }
    if c.validationEnd.Some? && c.oosStart.Some? && c.validationEnd.value > c.oosStart.value {
      return false;
    }
    return true;
  }

  // `classify_split_with_exclusion`: the second component says the record is left out.
  function Classify(ts: int, c: Config): (Split, bool) {
    if c.oosStart.Some? && ts >= c.oosStart.value then (OutOfSample, false)
    else if c.oosStart.None? && c.validationEnd.Some? && ts >= c.validationEnd.value then (OutOfSample, false)
    else if c.validationStart.Some? && c.validationEnd.Some? && c.validationStart.value <= ts < c.validationEnd.value then (Validation, false)
    else if c.validationEnd.Some? && c.oosStart.Some? && c.validationEnd.value <= ts < c.oosStart.value then (Train, true)
    else (Train, false)
  }

  function Stage(s: Split): nat {
    match s
    case Train => 0
    case Validation => 1
    case OutOfSample => 2
  }

  // Later records are never put in an earlier period.  No boundary check is needed for this.
  lemma ClassifyIsMonotone(a: int, b: int, c: Config)
    requires a <= b && !Classify(a, c).1 && !Classify(b, c).1
    ensures Stage(Classify(a, c).0) <= Stage(Classify(b, c).0)
  {
  }

  // With ordered boundaries the labels mean what the configuration says, except that
  // a record at or after train_end but before validation_start is still Train, and
  // that without validation_end or validation_start there is no validation period.
  lemma ClassifyMeans(ts: int, c: Config)
    requires BoundariesOk(c)
    ensures var (split, excluded) := Classify(ts, c);
      && (split.OutOfSample? <==>
            if c.oosStart.Some? then ts >= c.oosStart.value else c.validationEnd.Some? && ts >= c.validationEnd.value)
      && (split.Validation? <==>
            c.validationStart.Some? && c.validationEnd.Some? && c.validationStart.value <= ts < c.validationEnd.value)
      && (excluded <==>
            c.validationEnd.Some? && c.oosStart.Some? && c.validationEnd.value <= ts < c.oosStart.value)
      && (excluded ==> split.Train?)
  {
  }

  predicate InValidation(ts: int, c: Config) {
    c.validationStart.Some? && c.validationEnd.Some? && c.validationStart.value <= ts < c.validationEnd.value
  }

  predicate InGap(ts: int, c: Config) {
    c.validationEnd.Some? && c.oosStart.Some? && c.validationEnd.value <= ts < c.oosStart.value
  }

  // The out-of-sample period starts inside the validation period.
  predicate Overlaps(c: Config) {
    && c.validationStart.Some? && c.validationEnd.Some? && c.oosStart.Some?
    && c.validationStart.value < c.validationEnd.value && c.oosStart.value < c.validationEnd.value
  }

  // What the boundary check is for, exactly: the validation label covers its whole
  // configured interval if and only if out-of-sample does not start inside it.  The gap
  // before out-of-sample is excluded whole whatever the boundaries are.
  lemma ValidationIsHonouredIff(c: Config)
    ensures (forall ts :: InValidation(ts, c) ==> Classify(ts, c) == (Validation, false)) <==> !Overlaps(c)
    ensures forall ts :: InGap(ts, c) ==> Classify(ts, c) == (Train, true)
    ensures BoundariesOk(c) ==> !Overlaps(c)
  {
    if Overlaps(c) {
      var ts := if c.oosStart.value >= c.validationStart.value then c.oosStart.value else c.validationStart.value;
      assert InValidation(ts, c) && Classify(ts, c).0 == OutOfSample;
    }
  }
}
