/**
 * The test runner: it walks a loaded test sequence step by step, sends each
 * step's command to the motor controller, checks the abort flag before every
 * step, records every attempted step in the report, and stops at the first
 * step that raises.
 *
 * The controller is a log of the commands sent to it. The clock is replaced
 * by inputs: the readings a monitor step takes during its window, and the
 * step before which another thread sets the abort flag. The `wait` step's
 * sleep is logged as a command of its own; the monitor loop's short pause
 * between readings is not.
 */
module Engine {
  import opened Wrappers
  import opened Text
  import opened Decimal
  import opened Reporting

  datatype Command = StartMotor | SetSpeed(rpm: real) | SetLoad(nm: real) | StopMotor | Sleep(seconds: real) | ReadStatus

  datatype Reading = Reading(speed: real, temperature: real)

  /** A monitor step's limits: `criteria.speed_rpm.min`, `criteria.speed_rpm.max` and `criteria.temperature_c.max`, each optional. */
  datatype Criteria = Criteria(speedMin: Option<real>, speedMax: Option<real>, temperatureMax: Option<real>)

  const NoCriteria := Criteria(None, None, None)

  /** One entry of the `sequence` list: its keys and values, with the nested `criteria` mapping read out. */
  datatype SequenceStep = SequenceStep(fields: map<string, Datum>, criteria: Criteria)

  /** The `sequence` entry of the document: `null`, or a list (a missing entry reads as the empty list). */
  datatype Sequence = NullSequence | Items(steps: seq<SequenceStep>)

  datatype TestConfig = TestConfig(testInfo: map<string, string>, sequence: Sequence)

  // ------------------------------------------------------ conversions

  /**
   * Python's `str.isspace`, which is what `float()` strips from text: tab
   * through carriage return, the separators U+001C to U+001F, the space,
   * U+0085 and the wider Unicode spaces. Unlike JavaScript's `\s`, it does not
   * include U+FEFF.
   */
  predicate IsPySpace(c: char)
  {
    ('\t' <= c <= '\r') || ('\U{1C}' <= c <= ' ') || c == '\U{85}' || (c != '\U{FEFF}' && IsWideSpace(c))
  }

  predicate AllPySpace(s: string)
  {
    forall i :: 0 <= i < |s| ==> IsPySpace(s[i])
  }

  /** The text without its leading Python white space. */
  function PyStripStart(s: string): (r: string)
    ensures |r| <= |s| && r == s[|s| - |r|..]
    ensures forall i :: 0 <= i < |s| - |r| ==> IsPySpace(s[i])
    ensures |r| > 0 ==> !IsPySpace(r[0])
  {
    if |s| > 0 && IsPySpace(s[0]) then PyStripStart(s[1..]) else s
  }

  /** The text without its trailing Python white space. */
  function PyStripEnd(s: string): (r: string)
    ensures |r| <= |s| && r == s[..|r|]
    ensures forall i :: |r| <= i < |s| ==> IsPySpace(s[i])
    ensures |r| > 0 ==> !IsPySpace(r[|r| - 1])
  {
    if |s| > 0 && IsPySpace(s[|s| - 1]) then PyStripEnd(s[..|s| - 1]) else s
  }

  /** `str.strip()`: the text without its leading and trailing Python white space. */
  function PyStrip(s: string): string
  {
    PyStripEnd(PyStripStart(s))
  }

  /** Python's rule for underscores in a numeral: each one stands between two digits. */
  predicate UnderscoresBetweenDigits(t: string)
  {
    forall i :: 0 <= i < |t| && t[i] == '_' ==> 0 < i < |t| - 1 && IsDigit(t[i - 1]) && IsDigit(t[i + 1])
  }

  /** The integer numerals `float()` reads: stripped, an optional sign, digits with single underscores between them. */
  function PyIntNumeral(s: string): Option<int>
  {
    var t := PyStrip(s);
    if UnderscoresBetweenDigits(t) then ParseInt(Without(t, '_')) else None
  }

  /** Python `float(x)`: numbers as they are, booleans as 1.0 and 0.0, integer numerals in text, anything else raises. */
  function ToFloat(d: Datum): (r: Result<real, Fault>)
    ensures r.Err? ==> r.error == ValueError || r.error == TypeError
    ensures d.NumDatum? ==> r == Ok(d.x)
  {
    match d
    case NumDatum(x) => Ok(x)
    case BoolDatum(b) => Ok(if b then 1.0 else 0.0)
    case StrDatum(s) =>
      (match PyIntNumeral(s)
       case Some(i) => Ok(i as real)
       case None => Err(ValueError))
    case NullDatum => Err(TypeError)
    case OtherDatum => Err(TypeError)
  }

  /** Stripping text that is Python white space around a text with no white space at its ends gives that text back. */
  lemma PyStripPadded(lead: string, x: string, trail: string)
    requires AllPySpace(lead) && AllPySpace(trail)
    requires |x| > 0 && !IsPySpace(x[0]) && !IsPySpace(x[|x| - 1])
    ensures PyStrip(lead + x + trail) == x
  {
    var s := lead + x + trail;
    var a := PyStripStart(s);
    assert s[|lead|] == x[0];
    assert |s| - |a| <= |lead|;
    assert s[|s| - |a|] == a[0];
    assert |a| == |x| + |trail|;
    assert a == x + trail;
    var b := PyStripEnd(a);
    assert a[|x| - 1] == x[|x| - 1];
    assert |b| >= |x|;
    assert a[|b| - 1] == b[|b| - 1];
    assert |b| == |x|;
    assert b == x;
  }

  /** A character that is not white space survives the strip. */
  lemma PyStripKeeps(s: string, k: nat)
    requires k < |s| && !IsPySpace(s[k])
    ensures s[k] in PyStrip(s)
  {
    var a := PyStripStart(s);
    var j := k - (|s| - |a|);
    assert 0 <= j < |a| && a[j] == s[k];
    var b := PyStripEnd(a);
    assert j < |b| && b[j] == a[j];
  }

  /** Without underscores, the numeral `float()` reads is the stripped text as ParseInt reads it. */
  lemma NumeralWithoutUnderscore(s: string)
    requires '_' !in PyStrip(s)
    ensures PyIntNumeral(s) == ParseInt(PyStrip(s))
  {
    var t := PyStrip(s);
    assert UnderscoresBetweenDigits(t) by {
      forall i | 0 <= i < |t|
        ensures t[i] != '_'
      {
        assert t[i] in t;
      }
    }
  }

  /** The ends of a printed integer are a digit or a minus sign, and it holds no underscore. */
  lemma PrintedEnds(i: int)
    ensures var x := IntToString(i); IsDigit(x[|x| - 1]) && (IsDigit(x[0]) || x[0] == '-') && '_' !in x
  {
    var x := IntToString(i);
    var n := NatToString(if i < 0 then -i else i);
    if i < 0 {
      assert x == "-" + n;
      assert x[|x| - 1] == n[|n| - 1];
      assert forall k :: 1 <= k < |x| ==> x[k] == n[k - 1];
    } else {
      assert x == n;
    }
  }

  /** A printed integer, with any Python white space around it, is read by `float()` as that integer. */
  lemma ToFloatPadded(lead: string, i: int, trail: string)
    requires AllPySpace(lead) && AllPySpace(trail)
    ensures ToFloat(StrDatum(lead + IntToString(i) + trail)) == Ok(i as real)
  {
    var x := IntToString(i);
    PrintedEnds(i);
    PyStripPadded(lead, x, trail);
    NumeralWithoutUnderscore(lead + x + trail);
    IntRoundTrip(i);
  }

  /** One underscore between two runs of digits is the only one, and it stands between two digits. */
  lemma GroupedUnderscore(a: string, b: string)
    requires |a| > 0 && |b| > 0 && AllDigits(a) && AllDigits(b)
    ensures UnderscoresBetweenDigits(a + "_" + b)
  {
    var t := a + "_" + b;
    forall k | 0 <= k < |t| && t[k] == '_'
      ensures 0 < k < |t| - 1 && IsDigit(t[k - 1]) && IsDigit(t[k + 1])
    {
      if k == |a| {
        assert t[k - 1] == a[|a| - 1];
        assert t[k + 1] == b[0];
      }
    }
  }

  /** Removing the underscore from two runs of digits joins them. */
  lemma GroupedDigits(a: string, b: string)
    requires AllDigits(a) && AllDigits(b)
    ensures Without(a + "_" + b, '_') == a + b
  {
    WithoutAppend(a + "_", b, '_');
    WithoutAppend(a, "_", '_');
  }

  /** An unsigned run of digits is read as its value. */
  lemma ParseDigits(u: string)
    requires |u| > 0 && AllDigits(u)
    ensures ParseInt(u) == Some(DigitsValue(u) as int)
  {
    assert IsDigit(u[0]);
  }

  /** Text that starts and ends with a digit is not changed by the strip. */
  lemma StripDigitEnds(t: string)
    requires |t| > 0 && IsDigit(t[0]) && IsDigit(t[|t| - 1])
    ensures PyStrip(t) == t
  {
    PyStripPadded("", t, "");
    assert "" + t + "" == t;
  }

  lemma DigitsAppend(a: string, b: string)
    requires AllDigits(a) && AllDigits(b)
    ensures AllDigits(a + b)
  {
    forall k | 0 <= k < |a + b|
      ensures IsDigit((a + b)[k])
    {
      if k >= |a| {
        assert (a + b)[k] == b[k - |a|];
      }
    }
  }

  /** Digits grouped by one underscore are the numeral of the digits without it. */
  lemma NumeralGrouped(a: string, b: string)
    requires |a| > 0 && |b| > 0 && AllDigits(a) && AllDigits(b)
    ensures PyIntNumeral(a + "_" + b) == Some(DigitsValue(a + b) as int)
  {
    var t := a + "_" + b;
    assert t[0] == a[0] && t[|t| - 1] == b[|b| - 1];
    StripDigitEnds(t);
    GroupedUnderscore(a, b);
    GroupedDigits(a, b);
    DigitsAppend(a, b);
    ParseDigits(a + b);
  }

  /** Digits grouped by one underscore, as in `"1_000"`, are read as the digits without it. */
  lemma ToFloatGrouped(a: string, b: string)
    requires |a| > 0 && |b| > 0 && AllDigits(a) && AllDigits(b)
    ensures ToFloat(StrDatum(a + "_" + b)) == Ok(DigitsValue(a + b) as real)
  {
    NumeralGrouped(a, b);
  }

  /** Text holding a character that is neither white space, a digit, a sign nor an underscore makes `float()` raise ValueError. */
  lemma ToFloatStrayCharacter(s: string, k: nat)
    requires k < |s| && !IsPySpace(s[k]) && !IsDigit(s[k])
    requires s[k] != '_' && s[k] != '+' && s[k] != '-'
    ensures ToFloat(StrDatum(s)) == Err(ValueError)
  {
    var t := PyStrip(s);
    PyStripKeeps(s, k);
    var u := Without(t, '_');
    assert s[k] in u;
    ParseIntOnlyDigits(u, s[k]);
  }

  /** A byte-order mark is not Python white space, so a numeral behind one is refused. */
  lemma ByteOrderMarkRefused()
    ensures ToFloat(StrDatum("\U{FEFF}5")) == Err(ValueError)
  {
    ToFloatStrayCharacter("\U{FEFF}5", 0);
  }

  /** A next-line character is Python white space, so it is stripped before the numeral is read. */
  lemma NextLineStripped()
    ensures ToFloat(StrDatum("\U{85}5")) == Ok(5.0)
  {
    assert IntToString(5) == "5";
    ToFloatPadded("\U{85}", 5, "");
    assert "\U{85}" + "5" + "" == "\U{85}5";
  }

  /** The numerals ParseInt accepts hold nothing but digits and signs. */
  lemma ParseIntOnlyDigits(u: string, c: char)
    requires c in u && !IsDigit(c) && c != '+' && c != '-'
    ensures ParseInt(u).None?
  {
    var k :| 0 <= k < |u| && u[k] == c;
    if k > 0 {
      assert u[1..][k - 1] == c;
    }
  }

  /** `float(step.get(key, default))`. */
  function FloatParam(step: SequenceStep, key: string, default: real): (r: Result<real, Fault>)
    ensures key !in step.fields ==> r == Ok(default)
  {
    if key in step.fields then ToFloat(step.fields[key]) else Ok(default)
  }

  function Get(m: map<string, Datum>, key: string): Datum
  {
    if key in m then m[key] else NullDatum
  }

  function GetText(m: map<string, string>, key: string, default: string): string
  {
    if key in m then m[key] else default
  }

  // --------------------------------------------------- monitor criteria

  /** The limit a reading breaks, checked in the order speed minimum, speed maximum, temperature maximum. */
  function Violation(c: Criteria, r: Reading): (v: Option<Fault>)
    ensures v.Some? <==>
      (c.speedMin.Some? && r.speed < c.speedMin.value)
      || (c.speedMax.Some? && r.speed > c.speedMax.value)
      || (c.temperatureMax.Some? && r.temperature > c.temperatureMax.value)
    ensures v.Some? && c.speedMin.Some? && r.speed < c.speedMin.value ==> v.value == SpeedBelowMin(r.speed, c.speedMin.value)
  {
    if c.speedMin.Some? && r.speed < c.speedMin.value then Some(SpeedBelowMin(r.speed, c.speedMin.value))
    else if c.speedMax.Some? && r.speed > c.speedMax.value then Some(SpeedAboveMax(r.speed, c.speedMax.value))
    else if c.temperatureMax.Some? && r.temperature > c.temperatureMax.value then Some(TemperatureAboveMax(r.temperature, c.temperatureMax.value))
    else None
  }

  /** The first reading of the window that breaks a limit. */
  function FirstViolation(c: Criteria, w: seq<Reading>): Option<nat>
  {
    if |w| == 0 then None
    else if Violation(c, w[0]).Some? then Some(0)
    else
      match FirstViolation(c, w[1..])
      case None => None
      case Some(k) => Some(k + 1)
  }

  /** The first violation is a violating reading with none before it; without one, no reading violates. */
  lemma {:induction false} FirstViolationIsFirst(c: Criteria, w: seq<Reading>)
    ensures var k := FirstViolation(c, w);
      (k.Some? ==>
        k.value < |w| && Violation(c, w[k.value]).Some?
        && forall j :: 0 <= j < k.value ==> Violation(c, w[j]).None?)
      && (k.None? ==> forall j :: 0 <= j < |w| ==> Violation(c, w[j]).None?)
  {
    if |w| > 0 && Violation(c, w[0]).None? {
      FirstViolationIsFirst(c, w[1..]);
      forall j | 1 <= j < |w|
        ensures w[j] == w[1..][j - 1]
      {
      }
    }
  }

  function MinExt(e: Extended, x: real): Extended
  {
    match e
    case PosInfinity => Finite(x)
    case NegInfinity => NegInfinity
    case Finite(m) => Finite(if x < m then x else m)
  }

  function MaxExt(e: Extended, x: real): Extended
  {
    match e
    case NegInfinity => Finite(x)
    case PosInfinity => PosInfinity
    case Finite(m) => Finite(if x > m then x else m)
  }

  function Max(a: real, b: real): real
  {
    if b > a then b else a
  }

  /** The running minimum of the speeds, starting from infinity. */
  function MinSpeed(w: seq<Reading>): Extended
  {
    if |w| == 0 then PosInfinity else MinExt(MinSpeed(w[..|w| - 1]), w[|w| - 1].speed)
  }

  function MaxSpeed(w: seq<Reading>): Extended
  {
    if |w| == 0 then NegInfinity else MaxExt(MaxSpeed(w[..|w| - 1]), w[|w| - 1].speed)
  }

  function MaxTemperature(w: seq<Reading>): Extended
  {
    if |w| == 0 then NegInfinity else MaxExt(MaxTemperature(w[..|w| - 1]), w[|w| - 1].temperature)
  }

  /** The runner-wide peak temperature after the readings, starting from `m`. */
  function PeakTemperature(m: real, w: seq<Reading>): real
  {
    if |w| == 0 then m else Max(PeakTemperature(m, w[..|w| - 1]), w[|w| - 1].temperature)
  }

  function Speeds(w: seq<Reading>): (s: seq<real>)
    ensures |s| == |w| && forall i :: 0 <= i < |w| ==> s[i] == w[i].speed
  {
    seq(|w|, i requires 0 <= i < |w| => w[i].speed)
  }

  function ReadStatuses(n: nat): (s: seq<Command>)
    ensures |s| == n && forall i :: 0 <= i < n ==> s[i] == ReadStatus
  {
    seq(n, i => ReadStatus)
  }

  /** How many readings the monitor loop takes: up to and including the first violation, or the whole window. */
  function Processed(c: Criteria, w: seq<Reading>): (n: nat)
    ensures n <= |w|
  {
    FirstViolationIsFirst(c, w);
    match FirstViolation(c, w)
    case Some(k) => k + 1
    case None => |w|
  }

  /** `_monitor_step`'s outcome: the first broken limit raises, otherwise the window's speed range and peak temperature. */
  function MonitorResult(c: Criteria, w: seq<Reading>): Result<Observation, Fault>
  {
    FirstViolationIsFirst(c, w);
    match FirstViolation(c, w)
    case Some(k) => Err(Violation(c, w[k]).value)
    case None => Ok(MonitorSummary(MinSpeed(w), MaxSpeed(w), MaxTemperature(w)))
  }

  /** Taking one more reading of the window extends each running statistic by that reading. */
  lemma WindowStep(w: seq<Reading>, i: nat, m: real)
    requires i < |w|
    ensures MinSpeed(w[..i + 1]) == MinExt(MinSpeed(w[..i]), w[i].speed)
    ensures MaxSpeed(w[..i + 1]) == MaxExt(MaxSpeed(w[..i]), w[i].speed)
    ensures MaxTemperature(w[..i + 1]) == MaxExt(MaxTemperature(w[..i]), w[i].temperature)
    ensures PeakTemperature(m, w[..i + 1]) == Max(PeakTemperature(m, w[..i]), w[i].temperature)
    ensures Speeds(w[..i + 1]) == Speeds(w[..i]) + [w[i].speed]
    ensures ReadStatuses(i + 1) == ReadStatuses(i) + [ReadStatus]
  {
    assert w[..i + 1][..i] == w[..i];
  }

  /** The monitor stops at the first reading that breaks a limit. */
  lemma StopsAt(c: Criteria, w: seq<Reading>, i: nat)
    requires i < |w| && Violation(c, w[i]).Some?
    requires forall j :: 0 <= j < i ==> Violation(c, w[j]).None?
    ensures FirstViolation(c, w) == Some(i) && Processed(c, w) == i + 1
    ensures MonitorResult(c, w) == Err(Violation(c, w[i]).value)
  {
    FirstViolationIsFirst(c, w);
  }

  /** A window without a broken limit is read to the end and summarised. */
  lemma ReadsAll(c: Criteria, w: seq<Reading>)
    requires forall j :: 0 <= j < |w| ==> Violation(c, w[j]).None?
    ensures FirstViolation(c, w) == None && Processed(c, w) == |w|
    ensures MonitorResult(c, w) == Ok(MonitorSummary(MinSpeed(w), MaxSpeed(w), MaxTemperature(w)))
  {
    FirstViolationIsFirst(c, w);
  }

  lemma {:induction false} MinSpeedIsMinimum(w: seq<Reading>)
    requires |w| > 0
    ensures MinSpeed(w).Finite?
    ensures forall i :: 0 <= i < |w| ==> MinSpeed(w).value <= w[i].speed
    ensures exists i :: 0 <= i < |w| && MinSpeed(w).value == w[i].speed
  {
    var init := w[..|w| - 1];
    if |init| > 0 {
      MinSpeedIsMinimum(init);
      var j :| 0 <= j < |init| && MinSpeed(init).value == init[j].speed;
      assert init[j] == w[j];
      if w[|w| - 1].speed < MinSpeed(init).value {
        assert MinSpeed(w).value == w[|w| - 1].speed;
      } else {
        assert MinSpeed(w).value == w[j].speed;
      }
      forall i | 0 <= i < |w| ensures MinSpeed(w).value <= w[i].speed {
        if i < |init| {
          assert init[i] == w[i];
        }
      }
    }
  }

  lemma {:induction false} MaxSpeedIsMaximum(w: seq<Reading>)
    requires |w| > 0
    ensures MaxSpeed(w).Finite?
    ensures forall i :: 0 <= i < |w| ==> w[i].speed <= MaxSpeed(w).value
    ensures exists i :: 0 <= i < |w| && MaxSpeed(w).value == w[i].speed
  {
    var init := w[..|w| - 1];
    if |init| > 0 {
      MaxSpeedIsMaximum(init);
      var j :| 0 <= j < |init| && MaxSpeed(init).value == init[j].speed;
      assert init[j] == w[j];
      if w[|w| - 1].speed > MaxSpeed(init).value {
        assert MaxSpeed(w).value == w[|w| - 1].speed;
      } else {
        assert MaxSpeed(w).value == w[j].speed;
      }
      forall i | 0 <= i < |w| ensures w[i].speed <= MaxSpeed(w).value {
        if i < |init| {
          assert init[i] == w[i];
        }
      }
    }
  }

  lemma {:induction false} MaxTemperatureIsMaximum(w: seq<Reading>)
    requires |w| > 0
    ensures MaxTemperature(w).Finite?
    ensures forall i :: 0 <= i < |w| ==> w[i].temperature <= MaxTemperature(w).value
  {
    var init := w[..|w| - 1];
    if |init| > 0 {
      MaxTemperatureIsMaximum(init);
      forall i | 0 <= i < |w| ensures w[i].temperature <= MaxTemperature(w).value {
        if i < |init| {
          assert init[i] == w[i];
        }
      }
    }
  }

  /**
   * A monitor window that passes observed a speed range inside the speed
   * limits and a peak temperature under the temperature limit; one that
   * fails raised for the first reading that broke a limit.
   */
  lemma MonitorVerdict(c: Criteria, w: seq<Reading>)
    ensures MonitorResult(c, w).Err? <==> exists i :: 0 <= i < |w| && Violation(c, w[i]).Some?
    ensures MonitorResult(c, w).Ok? && |w| > 0 ==>
      var o := MonitorResult(c, w).value;
      o.minSpeed.Finite? && o.maxSpeed.Finite? && o.maxTemperature.Finite?
      && (c.speedMin.Some? ==> c.speedMin.value <= o.minSpeed.value)
      && (c.speedMax.Some? ==> o.maxSpeed.value <= c.speedMax.value)
      && (c.temperatureMax.Some? ==> o.maxTemperature.value <= c.temperatureMax.value)
  {
    FirstViolationIsFirst(c, w);
    if MonitorResult(c, w).Ok? && |w| > 0 {
      MinSpeedIsMinimum(w);
      MaxSpeedIsMaximum(w);
      MaxTemperatureIsMaximum(w);
      var j :| 0 <= j < |w| && MinSpeed(w).value == w[j].speed;
      assert Violation(c, w[j]).None?;
      var k :| 0 <= k < |w| && MaxSpeed(w).value == w[k].speed;
      assert Violation(c, w[k]).None?;
      if c.temperatureMax.Some? {
        forall i | 0 <= i < |w| ensures w[i].temperature <= c.temperatureMax.value {
          assert Violation(c, w[i]).None?;
        }
        MaxTemperatureAttained(w);
      }
    }
  }

  lemma {:induction false} MaxTemperatureAttained(w: seq<Reading>)
    requires |w| > 0
    ensures MaxTemperature(w).Finite?
    ensures exists i :: 0 <= i < |w| && MaxTemperature(w).value == w[i].temperature
  {
    var init := w[..|w| - 1];
    if |init| > 0 {
      MaxTemperatureAttained(init);
      var j :| 0 <= j < |init| && MaxTemperature(init).value == init[j].temperature;
      assert init[j] == w[j];
    }
  }

  /** A step without criteria checks nothing: every monitor window passes. */
  lemma NoCriteriaPasses(w: seq<Reading>)
    ensures MonitorResult(NoCriteria, w).Ok?
  {
    MonitorVerdict(NoCriteria, w);
    assert forall i :: 0 <= i < |w| ==> Violation(NoCriteria, w[i]).None?;
  }

  // ------------------------------------------------------------ dispatch

  /** What executing one step does: the commands it sends, its outcome, and the readings it took. */
  datatype Effect = Effect(commands: seq<Command>, result: Result<Observation, Fault>, readings: seq<Reading>)

  /** A controller call that went through and observed nothing. */
  function Sent(c: Command): Effect
  {
    Effect([c], Ok(NoObservation), [])
  }

  /** A step that raised before sending anything. */
  function Raising(f: Fault): Effect
  {
    Effect([], Err(f), [])
  }

  /** `_execute_step`: the step kind selects the controller call; unknown kinds and `end_test` do nothing. */
  function Dispatch(step: SequenceStep, w: seq<Reading>): Effect
  {
    var kind := Get(step.fields, "step");
    if kind == StrDatum("start_motor") then Sent(StartMotor)
    else if kind == StrDatum("set_speed") then
      var rpm := FloatParam(step, "rpm", 0.0);
      if rpm.Err? then Raising(rpm.error) else Sent(SetSpeed(rpm.value))
    else if kind == StrDatum("apply_load") then
      var load := FloatParam(step, "load_nm", 0.0);
      if load.Err? then Raising(load.error) else Sent(SetLoad(load.value))
    else if kind == StrDatum("remove_load") then Sent(SetLoad(0.0))
    else if kind == StrDatum("stop_motor") then Sent(StopMotor)
    else if kind == StrDatum("wait") then
      var d := FloatParam(step, "duration_s", 1.0);
      if d.Err? then Raising(d.error)
      else if d.value < 0.0 then Raising(ValueError)
      else Sent(Sleep(d.value))
    else if kind == StrDatum("monitor") then
      var d := FloatParam(step, "duration_s", 5.0);
      if d.Err? then Raising(d.error)
      else
        var n := Processed(step.criteria, w);
        Effect(ReadStatuses(n), MonitorResult(step.criteria, w), w[..n])
    else Effect([], Ok(NoObservation), [])
  }

  /** Only a monitor step observes anything, and only a monitor step reads the controller's status. */
  lemma DispatchObservations(step: SequenceStep, w: seq<Reading>)
    ensures Get(step.fields, "step") != StrDatum("monitor") ==>
      Dispatch(step, w).readings == [] && ReadStatus !in Dispatch(step, w).commands
      && (Dispatch(step, w).result.Ok? ==> Dispatch(step, w).result.value == NoObservation)
      && |Dispatch(step, w).commands| <= 1
  {
  }

  // ------------------------------------------------------------- records

  /** `step.get("description", f"Step {i+1}")`. */
  function DescriptionOf(step: SequenceStep, i: nat): Datum
  {
    if "description" in step.fields then step.fields["description"] else StrDatum("Step " + NatToString(i + 1))
  }

  /**
   * The `StepResult` the `finally` block builds; the record validation
   * refuses a kind or description that is not text.
   */
  function MakeRecord(step: SequenceStep, i: nat, result: Result<Observation, Fault>): Result<StepResult, Fault>
  {
    var kind := Get(step.fields, "step");
    var description := DescriptionOf(step, i);
    if !kind.StrDatum? || !description.StrDatum? then Err(ValidationError)
    else Ok(StepResult(
      kind.s, description.s, if result.Ok? then "PASS" else "FAIL", step.fields,
      Some(if result.Ok? then result.value else NoObservation),
      if result.Err? then Some(result.error) else None))
  }

  /**
   * A record is refused exactly when the step kind or the description is
   * not text; otherwise it passes exactly when the step returned, keeps the
   * step's parameters, and a failed one carries the exception and no observation.
   */
  lemma RecordShape(step: SequenceStep, i: nat, result: Result<Observation, Fault>)
    ensures var r := MakeRecord(step, i, result);
      (r.Err? <==> !Get(step.fields, "step").StrDatum? || !DescriptionOf(step, i).StrDatum?)
      && (r.Err? ==> r.error == ValidationError)
      && (r.Ok? ==> (r.value.status == "PASS" <==> result.Ok?) && r.value.inputParams == step.fields)
      && (r.Ok? && result.Err? ==>
            r.value.status == "FAIL" && r.value.failureDetails == Some(result.error)
            && r.value.observed == Some(NoObservation))
  {
  }

  /** The exception that ends the run at this step: a refused record replaces the step's own exception. */
  function StepFault(result: Result<Observation, Fault>, record: Result<StepResult, Fault>): Option<Fault>
  {
    if record.Err? then Some(record.error) else if result.Err? then Some(result.error) else None
  }

  /** One pass of the loop body as a value: what the step did, the record it left, and the exception that ends the run there. */
  datatype Pass = Pass(effect: Effect, record: Result<StepResult, Fault>, fault: Option<Fault>)

  function PassOf(step: SequenceStep, i: nat, w: seq<Reading>): Pass
  {
    var e := Dispatch(step, w);
    var record := MakeRecord(step, i, e.result);
    Pass(e, record, StepFault(e.result, record))
  }

  /** The records a pass adds: its own record unless validation refused it. */
  function Recorded(s: Pass): seq<StepResult>
  {
    if s.record.Ok? then [s.record.value] else []
  }

  /**
   * The pass each step of a sequence would make. A step's pass depends only
   * on the step, its index and the readings its window supplies, so a run
   * can be stated over this sequence; only the passes it reaches take effect.
   */
  function Passes(steps: seq<SequenceStep>, window: nat -> seq<Reading>): seq<Pass>
  {
    if |steps| == 0 then []
    else Passes(steps[..|steps| - 1], window) + [PassOf(steps[|steps| - 1], |steps| - 1, window(|steps| - 1))]
  }

  lemma {:induction false} PassesLength(steps: seq<SequenceStep>, window: nat -> seq<Reading>)
    ensures |Passes(steps, window)| == |steps|
  {
    if |steps| > 0 {
      PassesLength(steps[..|steps| - 1], window);
    }
  }

  lemma PassesSnoc(steps: seq<SequenceStep>, window: nat -> seq<Reading>)
    requires |steps| > 0
    ensures Passes(steps, window)
      == Passes(steps[..|steps| - 1], window) + [PassOf(steps[|steps| - 1], |steps| - 1, window(|steps| - 1))]
  {
  }

  /** Step `j`'s entry is the pass that step makes. */
  lemma {:induction false} PassesAt(steps: seq<SequenceStep>, window: nat -> seq<Reading>, j: nat)
    requires j < |steps|
    ensures |Passes(steps, window)| == |steps| && Passes(steps, window)[j] == PassOf(steps[j], j, window(j))
  {
    var n := |steps| - 1;
    var prefix := Passes(steps[..n], window);
    var last := PassOf(steps[n], n, window(n));
    PassesSnoc(steps, window);
    PassesLength(steps[..n], window);
    if j < n {
      PassesAt(steps[..n], window, j);
      assert steps[..n][j] == steps[j];
      assert (prefix + [last])[j] == prefix[j];
    } else {
      assert (prefix + [last])[n] == last;
    }
  }

  /**
   * What the record validation and the `finally` block guarantee of a pass:
   * a pass that does not end the run is recorded as a pass; a recorded pass
   * that ends the run is a failure carrying its exception; and a refused
   * record ends the run with a validation error.
   */
  predicate Consistent(s: Pass)
  {
    (s.fault.None? ==> s.record.Ok? && s.record.value.status == "PASS")
    && (s.fault.Some? && s.record.Ok? ==> s.record.value.status == "FAIL" && s.record.value.failureDetails == s.fault)
    && (s.record.Err? ==> s.fault == Some(ValidationError))
  }

  lemma PassConsistent(step: SequenceStep, i: nat, w: seq<Reading>)
    ensures Consistent(PassOf(step, i, w))
  {
    RecordShape(step, i, Dispatch(step, w).result);
  }

  // --------------------------------------------------------- the whole run

  /** What a run has produced so far: the recorded results, the command log, the speed samples and the peak temperature. */
  datatype Progress = Progress(records: seq<StepResult>, commands: seq<Command>, samples: seq<real>, maxTemp: real)

  datatype Ending = Completed | Aborted | Failed(fault: Fault)

  function StatusOf(e: Ending): string
  {
    match e
    case Completed => "PASS"
    case Aborted => "ABORTED"
    case Failed(_) => "FAIL"
  }

  function ReasonOf(e: Ending): Option<Reason>
  {
    match e
    case Completed => None
    case Aborted => Some(Message("User aborted"))
    case Failed(f) => Some(Raised(f))
  }

  function Absorb(p: Progress, s: Pass): Progress
  {
    Progress(
      p.records + Recorded(s),
      p.commands + s.effect.commands + (if s.fault.Some? then [StopMotor] else []),
      p.samples + Speeds(s.effect.readings),
      PeakTemperature(p.maxTemp, s.effect.readings))
  }

  /**
   * The loop of `run` from step `i` on: stop when the abort flag is set
   * before a step, otherwise execute the step, record it, and stop with the
   * motor stopped when it raised.
   */
  function Simulate(passes: seq<Pass>, i: nat, abortAt: Option<nat>, p: Progress): (Progress, Ending)
    decreases |passes| - i
  {
    if i >= |passes| then (p, Completed)
    else if abortAt == Some(i) then (p, Aborted)
    else
      var s := passes[i];
      var q := Absorb(p, s);
      if s.fault.Some? then (q, Failed(s.fault.value)) else Simulate(passes, i + 1, abortAt, q)
  }

  /** One turn of the run: past the end it completes, at the abort index it stops, otherwise the step's pass is absorbed. */
  lemma SimulateAt(passes: seq<Pass>, i: nat, abortAt: Option<nat>, p: Progress)
    ensures i >= |passes| ==> Simulate(passes, i, abortAt, p) == (p, Completed)
    ensures i < |passes| && abortAt == Some(i) ==> Simulate(passes, i, abortAt, p) == (p, Aborted)
    ensures i < |passes| && abortAt != Some(i) && passes[i].fault.Some? ==>
      Simulate(passes, i, abortAt, p) == (Absorb(p, passes[i]), Failed(passes[i].fault.value))
    ensures i < |passes| && abortAt != Some(i) && passes[i].fault.None? ==>
      Simulate(passes, i, abortAt, p) == Simulate(passes, i + 1, abortAt, Absorb(p, passes[i]))
  {
  }

  predicate AllPass(rs: seq<StepResult>)
  {
    forall i :: 0 <= i < |rs| ==> rs[i].status == "PASS"
  }

  /** The records a run adds from step `i` on, and how it ends; neither depends on what came before. */
  function Outcome(passes: seq<Pass>, i: nat, abortAt: Option<nat>): (seq<StepResult>, Ending)
    decreases |passes| - i
  {
    if i >= |passes| then ([], Completed)
    else if abortAt == Some(i) then ([], Aborted)
    else
      var s := passes[i];
      if s.fault.Some? then (Recorded(s), Failed(s.fault.value))
      else
        var rest := Outcome(passes, i + 1, abortAt);
        (Recorded(s) + rest.0, rest.1)
  }

  /** A run's records are what came before followed by the step outcomes. */
  lemma {:induction false} SimulateRecords(passes: seq<Pass>, i: nat, abortAt: Option<nat>, p: Progress)
    ensures Simulate(passes, i, abortAt, p).0.records == p.records + Outcome(passes, i, abortAt).0
    decreases |passes| - i
  {
    if i < |passes| && abortAt != Some(i) {
      var s := passes[i];
      var q := Absorb(p, s);
      if s.fault.None? {
        SimulateRecords(passes, i + 1, abortAt, q);
        var rest := Outcome(passes, i + 1, abortAt).0;
        assert p.records + Recorded(s) + rest == p.records + (Recorded(s) + rest);
      }
    }
  }

  /** A run ends as `Outcome` says, whatever came before. */
  lemma {:induction false} SimulateEnding(passes: seq<Pass>, i: nat, abortAt: Option<nat>, p: Progress)
    ensures Simulate(passes, i, abortAt, p).1 == Outcome(passes, i, abortAt).1
    decreases |passes| - i
  {
    if i < |passes| && abortAt != Some(i) {
      var s := passes[i];
      if s.fault.None? {
        SimulateEnding(passes, i + 1, abortAt, Absorb(p, s));
      }
    }
  }

  /** A run only appends commands, and a failed run's last command stops the motor. */
  lemma {:induction false} SimulateCommands(passes: seq<Pass>, i: nat, abortAt: Option<nat>, p: Progress)
    ensures var (q, ending) := Simulate(passes, i, abortAt, p);
      |p.commands| <= |q.commands| && q.commands[..|p.commands|] == p.commands
      && (ending.Failed? ==> |q.commands| > 0 && q.commands[|q.commands| - 1] == StopMotor)
    decreases |passes| - i
  {
    if i < |passes| && abortAt != Some(i) {
      var s := passes[i];
      var q := Absorb(p, s);
      var tail := p.commands + s.effect.commands;
      if s.fault.Some? {
        assert q.commands == tail + [StopMotor];
        assert q.commands[..|p.commands|] == p.commands;
      } else {
        assert q.commands == tail;
        SimulateCommands(passes, i + 1, abortAt, q);
        var r := Simulate(passes, i + 1, abortAt, q).0;
        assert r.commands[..|q.commands|][..|p.commands|] == r.commands[..|p.commands|];
      }
    }
  }

  /** A run only ever appends records and commands, and a failed run's last command stops the motor. */
  lemma SimulateOutcome(passes: seq<Pass>, i: nat, abortAt: Option<nat>, p: Progress)
    ensures var (q, ending) := Simulate(passes, i, abortAt, p);
      q.records == p.records + Outcome(passes, i, abortAt).0
      && ending == Outcome(passes, i, abortAt).1
      && |p.commands| <= |q.commands| && q.commands[..|p.commands|] == p.commands
      && (ending.Failed? ==> |q.commands| > 0 && q.commands[|q.commands| - 1] == StopMotor)
  {
    SimulateRecords(passes, i, abortAt, p);
    SimulateEnding(passes, i, abortAt, p);
    SimulateCommands(passes, i, abortAt, p);
  }

  /** A run that completes or is aborted recorded a pass for each step it reached. */
  lemma {:induction false} OutcomeUntilStop(passes: seq<Pass>, i: nat, abortAt: Option<nat>)
    requires i <= |passes|
    requires forall j :: i <= j < |passes| ==> Consistent(passes[j])
    ensures var (rs, ending) := Outcome(passes, i, abortAt);
      i + |rs| <= |passes|
      && (ending == Completed ==> i + |rs| == |passes| && AllPass(rs))
      && (ending == Aborted ==> abortAt == Some(i + |rs|) && AllPass(rs))
    decreases |passes| - i
  {
    if i < |passes| && abortAt != Some(i) {
      var s := passes[i];
      if s.fault.None? {
        OutcomeUntilStop(passes, i + 1, abortAt);
        var rest := Outcome(passes, i + 1, abortAt).0;
        var rs := [s.record.value] + rest;
        assert forall j :: 0 < j < |rs| ==> rs[j] == rest[j - 1];
      }
    }
  }

  /**
   * A failed run recorded passes and then the failing step with its
   * exception, unless the failing step's own record was refused.
   */
  lemma {:induction false} OutcomeOnFailure(passes: seq<Pass>, i: nat, abortAt: Option<nat>)
    requires i <= |passes|
    requires forall j :: i <= j < |passes| ==> Consistent(passes[j])
    ensures var (rs, ending) := Outcome(passes, i, abortAt);
      FailureRecords(rs, ending)
    decreases |passes| - i
  {
    if i < |passes| && abortAt != Some(i) {
      var s := passes[i];
      if s.fault.None? {
        OutcomeOnFailure(passes, i + 1, abortAt);
        var (rest, ending) := Outcome(passes, i + 1, abortAt);
        PassBeforeFailure(s.record.value, rest, ending);
      }
    }
  }

  /**
   * The records of a failed run: passes, then the failing step's record
   * carrying the exception, or only passes when a record was refused by
   * validation.
   */
  predicate FailureRecords(rs: seq<StepResult>, ending: Ending)
  {
    ending.Failed? ==>
      (|rs| > 0 && AllPass(rs[..|rs| - 1]) && rs[|rs| - 1].status == "FAIL"
       && rs[|rs| - 1].failureDetails == Some(ending.fault))
      || (ending.fault == ValidationError && AllPass(rs))
  }

  /** A passing record in front keeps the shape of a failed run's records. */
  lemma PassBeforeFailure(r: StepResult, rest: seq<StepResult>, ending: Ending)
    requires r.status == "PASS" && FailureRecords(rest, ending)
    ensures FailureRecords([r] + rest, ending)
  {
    var rs := [r] + rest;
    assert forall j :: 0 < j < |rs| ==> rs[j] == rest[j - 1];
    if ending.Failed? && |rest| > 0 {
      assert rs[..|rs| - 1] == [r] + rest[..|rest| - 1];
      assert rs[|rs| - 1] == rest[|rest| - 1];
    }
  }

  /** Every pass a sequence of steps would make keeps the record validation's guarantees. */
  lemma PassesConsistent(steps: seq<SequenceStep>, window: nat -> seq<Reading>)
    ensures forall j :: 0 <= j < |Passes(steps, window)| ==> Consistent(Passes(steps, window)[j])
  {
    PassesLength(steps, window);
    forall j | 0 <= j < |Passes(steps, window)|
      ensures Consistent(Passes(steps, window)[j])
    {
      PassesAt(steps, window, j);
      PassConsistent(steps[j], j, window(j));
    }
  }

  /** The shape of the records of a whole run over a sequence of steps. */
  lemma OutcomeShape(steps: seq<SequenceStep>, abortAt: Option<nat>, window: nat -> seq<Reading>)
    ensures var (rs, ending) := Outcome(Passes(steps, window), 0, abortAt);
      |rs| <= |steps|
      && (ending == Completed ==> |rs| == |steps| && AllPass(rs))
      && (ending == Aborted ==> abortAt == Some(|rs|) && AllPass(rs))
      && FailureRecords(rs, ending)
  {
    PassesLength(steps, window);
    PassesConsistent(steps, window);
    OutcomeUntilStop(Passes(steps, window), 0, abortAt);
    OutcomeOnFailure(Passes(steps, window), 0, abortAt);
  }

  /** `sum(samples) / len(samples) if samples else 0.0`. */
  function Average(samples: seq<real>): real
  {
    if |samples| == 0 then 0.0 else Sum(samples) / (|samples| as real)
  }

  function Sum(xs: seq<real>): real
  {
    if |xs| == 0 then 0.0 else Sum(xs[..|xs| - 1]) + xs[|xs| - 1]
  }

  // ---------------------------------------------------------------- runner

  /** The parameters `start_test` accepts by name. */
  const StartTestParameters: seq<string> := ["name", "description", "author"]

  /** Python's argument binding for keyword arguments: a keyword that names no parameter raises `TypeError`. */
  function BindKeywords(parameters: seq<string>, keywords: seq<string>): (r: Result<(), Fault>)
    ensures r.Ok? <==> forall k :: k in keywords ==> k in parameters
    ensures r.Err? ==> r.error == TypeError
  {
    if forall k :: k in keywords ==> k in parameters then Ok(()) else Err(TypeError)
  }

  /** The corrected call binds; the call as written does not. */
  lemma StartTestBinding()
    ensures BindKeywords(StartTestParameters, ["name", "description", "author"]).Ok?
    ensures BindKeywords(StartTestParameters, ["db_test_id"]) == Err(TypeError)
  {
    assert "db_test_id" in ["db_test_id"];
  }

  class TestRunner {
    /** The commands the controller has received, oldest first. */
    var commands: seq<Command>
    var aborted: bool
    var builder: ReportBuilder
    var maxTemp: real
    var speedSamples: seq<real>

    ghost predicate Valid()
      reads this, builder
    {
      builder.Valid()
    }

    constructor ()
      ensures Valid() && fresh(builder)
      ensures commands == [] && !aborted && maxTemp == 0.0 && speedSamples == []
      ensures builder.report.None?
    {
      commands := [];
      aborted := false;
      builder := new ReportBuilder();
      maxTemp := 0.0;
      speedSamples := [];
    }

    /**
     * The loop of `_monitor_step`: read, track, check the limits, until the
     * window ends or a limit is broken. `n` readings are taken and `v` is the
     * broken limit of the last of them, if any.
     */
    method Scan(c: Criteria, w: seq<Reading>)
      returns (n: nat, v: Option<Fault>, lowSpeed: Extended, highSpeed: Extended, highTemperature: Extended)
      modifies this
      ensures n <= |w| && (v.None? ==> n == |w|)
      ensures forall j :: 0 <= j < n - 1 ==> Violation(c, w[j]).None?
      ensures if v.Some? then 0 < n && v == Violation(c, w[n - 1]) else n == 0 || Violation(c, w[n - 1]).None?
      ensures lowSpeed == MinSpeed(w[..n]) && highSpeed == MaxSpeed(w[..n])
      ensures highTemperature == MaxTemperature(w[..n])
      ensures commands == old(commands) + ReadStatuses(n)
      ensures speedSamples == old(speedSamples) + Speeds(w[..n])
      ensures maxTemp == PeakTemperature(old(maxTemp), w[..n])
      ensures builder == old(builder) && aborted == old(aborted)
    {
      lowSpeed, highSpeed, highTemperature := PosInfinity, NegInfinity, NegInfinity;
      n, v := 0, None;
      while n < |w| && v.None?
        invariant 0 <= n <= |w|
        invariant forall j :: 0 <= j < n - 1 ==> Violation(c, w[j]).None?
        invariant if v.Some? then 0 < n && v == Violation(c, w[n - 1])
                  else n == 0 || Violation(c, w[n - 1]).None?
        invariant lowSpeed == MinSpeed(w[..n]) && highSpeed == MaxSpeed(w[..n])
        invariant highTemperature == MaxTemperature(w[..n])
        invariant commands == old(commands) + ReadStatuses(n)
        invariant speedSamples == old(speedSamples) + Speeds(w[..n])
        invariant maxTemp == PeakTemperature(old(maxTemp), w[..n])
        invariant builder == old(builder) && aborted == old(aborted)
      {
        var reading := w[n];
        WindowStep(w, n, old(maxTemp));
        commands := commands + [ReadStatus];
        speedSamples := speedSamples + [reading.speed];
        maxTemp := Max(maxTemp, reading.temperature);
        lowSpeed := MinExt(lowSpeed, reading.speed);
        highSpeed := MaxExt(highSpeed, reading.speed);
        highTemperature := MaxExt(highTemperature, reading.temperature);
        v := Violation(c, reading);
        n := n + 1;
      }
    }

    /** `_monitor_step`: the first broken limit raises, otherwise the window's speed range and peak temperature. */
    method MonitorStep(c: Criteria, w: seq<Reading>) returns (r: Result<Observation, Fault>)
      modifies this
      ensures r == MonitorResult(c, w)
      ensures commands == old(commands) + ReadStatuses(Processed(c, w))
      ensures speedSamples == old(speedSamples) + Speeds(w[..Processed(c, w)])
      ensures maxTemp == PeakTemperature(old(maxTemp), w[..Processed(c, w)])
      ensures builder == old(builder) && aborted == old(aborted)
    {
      var n, v, lowSpeed, highSpeed, highTemperature := Scan(c, w);
      if v.Some? {
        StopsAt(c, w, n - 1);
        r := Err(v.value);
      } else {
        assert w[..n] == w;
        ReadsAll(c, w);
        r := Ok(MonitorSummary(lowSpeed, highSpeed, highTemperature));
      }
    }

    /** `_execute_step`. */
    method ExecuteStep(step: SequenceStep, w: seq<Reading>) returns (r: Result<Observation, Fault>)
      modifies this
      ensures var e := Dispatch(step, w);
        r == e.result && commands == old(commands) + e.commands
        && speedSamples == old(speedSamples) + Speeds(e.readings)
        && maxTemp == PeakTemperature(old(maxTemp), e.readings)
      ensures builder == old(builder) && aborted == old(aborted)
    {
      var kind := Get(step.fields, "step");
      r := Ok(NoObservation);
      if kind == StrDatum("start_motor") {
        commands := commands + [StartMotor];
      } else if kind == StrDatum("set_speed") {
        var rpm := FloatParam(step, "rpm", 0.0);
        if rpm.Err? {
          r := Err(rpm.error);
        } else {
          commands := commands + [SetSpeed(rpm.value)];
        }
      } else if kind == StrDatum("apply_load") {
        var load := FloatParam(step, "load_nm", 0.0);
        if load.Err? {
          r := Err(load.error);
        } else {
          commands := commands + [SetLoad(load.value)];
        }
      } else if kind == StrDatum("remove_load") {
        commands := commands + [SetLoad(0.0)];
      } else if kind == StrDatum("stop_motor") {
        commands := commands + [StopMotor];
      } else if kind == StrDatum("wait") {
        var duration := FloatParam(step, "duration_s", 1.0);
        if duration.Err? {
          r := Err(duration.error);
        } else if duration.value < 0.0 {
          r := Err(ValueError);
        } else {
          commands := commands + [Sleep(duration.value)];
        }
      } else if kind == StrDatum("monitor") {
        var duration := FloatParam(step, "duration_s", 5.0);
        if duration.Err? {
          r := Err(duration.error);
        } else {
          r := MonitorStep(step.criteria, w);
        }
      }
      assert Dispatch(step, w).readings == [] ==> Speeds([]) == [] && PeakTemperature(old(maxTemp), []) == old(maxTemp);
    }

    /** One pass of the loop body: execute the step, record it, and stop the motor when it raised. */
    method RunStep(steps: seq<SequenceStep>, i: nat, window: nat -> seq<Reading>) returns (fault: Option<Fault>)
      requires Valid() && builder.report.Some? && i < |steps|
      modifies this, builder
      ensures Valid() && builder == old(builder) && builder.report.Some? && aborted == old(aborted)
      ensures builder.report.value.testInfo == old(builder.report.value.testInfo)
      ensures builder.startTime == old(builder.startTime)
      ensures |Passes(steps, window)| == |steps|
      ensures var s := Passes(steps, window)[i];
        fault == s.fault
        && Progress(builder.report.value.steps, commands, speedSamples, maxTemp)
           == Absorb(Progress(old(builder.report.value.steps), old(commands), old(speedSamples), old(maxTemp)), s)
    {
      var step := steps[i];
      var result := ExecuteStep(step, window(i));
      var record := MakeRecord(step, i, result);
      if record.Ok? {
        builder.AddStepResult(record.value);
      }
      fault := StepFault(result, record);
      if fault.Some? {
        commands := commands + [StopMotor];
      }
      PassesAt(steps, window, i);
    }

    /** What the run has recorded and sent so far. */
    ghost function Current(): Progress
      requires builder.report.Some?
      reads this, builder
    {
      Progress(builder.report.value.steps, commands, speedSamples, maxTemp)
    }

    /**
     * One turn of the loop of `run` at step `i`: set the abort flag when it
     * is requested at `i`, stop when the flag is set, otherwise execute the
     * step and stop when it raised. `ab` is the index the run stops at for
     * the abort.
     */
    method Turn(steps: seq<SequenceStep>, i: nat, abortAt: Option<nat>, window: nat -> seq<Reading>,
                ghost passes: seq<Pass>, ghost ab: Option<nat>)
      returns (stop: bool, status: string, reason: Option<Reason>, ghost ending: Ending)
      requires Valid() && builder.report.Some? && i < |steps|
      requires passes == Passes(steps, window) && |passes| == |steps|
      requires aborted ==> i == 0
      requires ab == if aborted then Some(0) else abortAt
      modifies this, builder
      ensures Valid() && builder == old(builder) && builder.report.Some?
      ensures builder.report.value.testInfo == old(builder.report.value.testInfo)
      ensures builder.startTime == old(builder.startTime)
      ensures stop ==> (Simulate(passes, i, ab, old(Current())) == (Current(), ending)
                         && status == StatusOf(ending) && reason == ReasonOf(ending))
      ensures !stop ==> (Simulate(passes, i, ab, old(Current())) == Simulate(passes, i + 1, ab, Current())
                          && !old(aborted) && !aborted && status == "PASS" && reason == None)
    {
      ghost var before := Current();
      SimulateAt(passes, i, ab, before);
      if abortAt == Some(i) {
        aborted := true;
      }
      if aborted {
        stop, status, reason, ending := true, "ABORTED", Some(Message("User aborted")), Aborted;
        return;
      }
      var fault := RunStep(steps, i, window);
      stop := fault.Some?;
      if stop {
        status, reason, ending := "FAIL", Some(Raised(fault.value)), Failed(fault.value);
      } else {
        status, reason, ending := "PASS", None, Completed;
      }
    }

    /**
     * The loop of `run` over a sequence of steps: it stops at the abort
     * request or at the first step that raises, and returns the status and
     * reason the run is finished with.
     */
    method RunSequence(steps: seq<SequenceStep>, abortAt: Option<nat>, window: nat -> seq<Reading>)
      returns (status: string, reason: Option<Reason>)
      requires Valid() && builder.report.Some?
      modifies this, builder
      ensures Valid() && builder == old(builder) && builder.report.Some?
      ensures builder.report.value.testInfo == old(builder.report.value.testInfo)
      ensures builder.startTime == old(builder.startTime)
      ensures var ab := if old(aborted) then Some(0) else abortAt;
        var (q, ending) := Simulate(Passes(steps, window), 0, ab,
          Progress(old(builder.report.value.steps), old(commands), old(speedSamples), old(maxTemp)));
        builder.report.value.steps == q.records && commands == q.commands
        && speedSamples == q.samples && maxTemp == q.maxTemp
        && status == StatusOf(ending) && reason == ReasonOf(ending)
    {
      ghost var ab := if aborted then Some(0) else abortAt;
      ghost var passes := Passes(steps, window);
      ghost var goal := Simulate(passes, 0, ab, Current());
      PassesLength(steps, window);
      status, reason := "PASS", None;
      ghost var ending := Completed;
      var i, stop := 0, false;
      while !stop && i < |steps|
        invariant 0 <= i <= |steps|
        invariant Valid() && builder == old(builder) && builder.report.Some?
        invariant builder.report.value.testInfo == old(builder.report.value.testInfo)
        invariant builder.startTime == old(builder.startTime)
        invariant !stop ==> (aborted ==> i == 0)
        invariant !stop ==> ab == if aborted then Some(0) else abortAt
        invariant !stop ==> Simulate(passes, i, ab, Current()) == goal && status == "PASS" && reason == None
        invariant stop ==> (Current(), ending) == goal && status == StatusOf(ending) && reason == ReasonOf(ending)
        decreases |steps| - i + (if stop then 0 else 1)
      {
        stop, status, reason, ending := Turn(steps, i, abortAt, window, passes, ab);
        if !stop {
          i := i + 1;
        }
      }
      if !stop {
        SimulateAt(passes, i, ab, Current());
        ending := Completed;
      }
    }

    /** The end of `run`: finish the report with the peak temperature and the mean speed as its statistics. */
    method Finish(status: string, reason: Option<Reason>, end: Instant)
      requires Valid() && builder.report.Some?
      modifies builder
      ensures Valid() && builder.report.Some? && builder.startTime == old(builder.startTime)
      ensures var r := builder.report.value;
        r.metrics == AppMetrics(maxTemp, Average(speedSamples), end.seconds - old(builder.startTime).value.seconds)
        && r.executionInfo.status == status
        && r.summary == old(builder.report.value.summary).(overallResult := status, failureReason := reason)
        && r.steps == old(builder.report.value.steps) && r.testInfo == old(builder.report.value.testInfo)
    {
      var stats := map["max_temp" := maxTemp, "avg_speed" := Average(speedSamples)];
      assert "max_temp" in stats;
      var _ := builder.FinishTest(status, reason, Some(stats), end);
    }

    /**
     * `run` with `start_test` called with the arguments it accepts. The
     * result is `Err` when `run` raises. A `null` sequence makes the loop
     * raise before any step, and the handler's message then names a
     * variable that was never bound: the run raises that error instead, the
     * motor is not stopped, and the report is finished as a pass.
     */
    method Run(config: TestConfig, abortAt: Option<nat>, window: nat -> seq<Reading>,
               uuidHex: string, start: Instant, end: Instant)
      returns (outcome: Result<(), Fault>)
      requires Valid() && |uuidHex| >= 8
      modifies this, builder
      ensures Valid() && builder == old(builder) && builder.report.Some?
      ensures var r := builder.report.value;
        r.testInfo == TestInfo(
          GetText(config.testInfo, "name", "Unnamed Test"), "1.0",
          GetText(config.testInfo, "author", "Unknown"),
          Some(GetText(config.testInfo, "description", "")))
        && r.executionInfo.status == r.summary.overallResult
        && r.summary.passedSteps + r.summary.failedSteps == |r.steps|
        && r.metrics == AppMetrics(maxTemp, Average(speedSamples), end.seconds - start.seconds)
      ensures config.sequence.NullSequence? ==>
        outcome == Err(UnboundLocalError)
        && builder.report.value.steps == [] && builder.report.value.summary.overallResult == "PASS"
        && commands == old(commands)
      ensures config.sequence.Items? ==>
        var ab := if old(aborted) then Some(0) else abortAt;
        var (q, ending) := Simulate(Passes(config.sequence.steps, window), 0, ab,
          Progress([], old(commands), old(speedSamples), old(maxTemp)));
        outcome == Ok(())
        && builder.report.value.steps == q.records && commands == q.commands
        && speedSamples == q.samples && maxTemp == q.maxTemp
        && builder.report.value.summary.overallResult == StatusOf(ending)
        && builder.report.value.summary.failureReason == ReasonOf(ending)
    {
      var name := GetText(config.testInfo, "name", "Unnamed Test");
      var description := GetText(config.testInfo, "description", "");
      var author := GetText(config.testInfo, "author", "Unknown");
      var _ := builder.StartTest(name, description, author, uuidHex, start);
      var status := "PASS";
      var reason: Option<Reason> := None;
      outcome := Ok(());
      if config.sequence.NullSequence? {
        outcome := Err(UnboundLocalError);
      } else {
        status, reason := RunSequence(config.sequence.steps, abortAt, window);
      }
      Finish(status, reason, end);
    }

    /**
     * `run` as written: it passes `db_test_id=` to `start_test`, which has no
     * parameter of that name, so the call raises before the report is
     * started or any step runs, and nothing changes.
     */
    method RunAsWritten(config: TestConfig, abortAt: Option<nat>, window: nat -> seq<Reading>,
                        uuidHex: string, start: Instant, end: Instant)
      returns (outcome: Result<(), Fault>)
      ensures outcome == Err(TypeError)
    {
      StartTestBinding();
      outcome := BindKeywords(StartTestParameters, ["db_test_id"]);
    }
  }
}
