/** The real-time time-step convergence controller, class YamboRTStep_Optimize
    of yambopy/rt/rt_timestep_optimize.py.

    The controller derives a decreasing list of candidate time steps, runs the
    external real-time engine once per candidate, classifies every run (NaN and
    overflow test, carrier-conservation test) and compares each run with the
    previous one (|pol|^2 test, test of the polarization along the field). It
    stops as soon as the streak counter reaches 2.

    The engine is an oracle `run: int -> RunRecord` from a time step to what its
    output database holds. Dipoles, scheduler commands, logging and plotting are
    external collaborators and are not modelled beyond the dipole skip rule. */
module RtTimestepOptimize {
  import opened Wrappers
  import opened Samples
  import Text

  /** The module-level `overflow = 1e8` threshold of the NaN/overflow test. */
  const Overflow: real := 100000000.0

  /** The folder of the dipole run, and the scanned variable and its units. */
  const DipolesFolder: string := "dipoles"
  const StepParam: string := "RTstep"
  const StepUnits: string := "as"

  // ---------------------------------------------------------------------------
  // Input deck
  // ---------------------------------------------------------------------------

  /** A variable of the engine's input deck. Numbers with units are stored as
      `[value, unit]`, vectors as `[[...], unit]`. */
  datatype Value =
    | Word(s: string)
    | Scalar(x: real)
    | Quantity(x: real, unit: string)
    | Span(lo: real, hi: real, unit: string)
    | Vector3(x: real, y: real, z: real, unit: string)

  type Deck = map<string, Value>

  /** Why the procedure halts before any run of the convergence loop. */
  datatype ConfigError =
    | ZeroIncrement           // TStep_MAX % 0 raises
    | IncrementNotDivisor     // exit() after the divisibility message
    | MissingFieldKind        // Field1_kind is not in the deck
    | MissingFwhm             // QSSIN field without Field1_FWHM
    | ZeroFwhm                // Field1_FWHM compares equal to 0.
    | MalformedFwhm           // Field1_FWHM is not a [value, unit] entry
    | MissingFieldDirection   // Field1_Dir cannot be read
    | NoCandidates            // every candidate time step was dropped
    | UnknownFieldKind        // neither DELTA nor QSSIN: FieldTime is unbound

  /** The deck of one run: a copy of the base deck with the scanned parameter
      set to `[value, units]`. */
  function InputToRun(yin: Deck, param: string, value: int, units: string): (yrun: Deck)
    ensures yrun.Keys == yin.Keys + {param}
    ensures yrun[param] == Quantity(value as real, units)
    ensures forall k :: k in yin && k != param ==> yrun[k] == yin[k]
  {
    yin[param := Quantity(value as real, units)]
  }

  // ---------------------------------------------------------------------------
  // Candidate generation
  // ---------------------------------------------------------------------------

  /** The divisibility check of the constructor. Python's `%` and Dafny's `%`
      differ in sign for negative operands but agree on when the remainder is
      zero. */
  function CheckIncrement(tStepMax: int, tStepIncrease: int): Option<ConfigError>
  {
    if tStepIncrease == 0 then Some(ZeroIncrement)
    else if tStepMax % tStepIncrease != 0 then Some(IncrementNotDivisor)
    else None
  }

  /** `[TStep_MAX - i*TStep_increase for i in range(NSimulations)]` */
  function RawSteps(tStepMax: int, tStepIncrease: int, n: int): seq<int>
  {
    seq(if n > 0 then n else 0, i => tStepMax - i * tStepIncrease)
  }

  /** `[ts for ts in time_steps if ts > 0]` */
  function Positive(s: seq<int>): (r: seq<int>)
    ensures |r| <= |s|
    ensures forall i :: 0 <= i < |r| ==> r[i] > 0 && r[i] in s
    ensures forall x :: x in s && x > 0 ==> x in r
  {
    if s == [] then []
    else
      var front := s[..|s| - 1];
      assert forall x :: x in front ==> x in s;
      assert s == front + [s[|s| - 1]];
      Positive(front) + if s[|s| - 1] > 0 then [s[|s| - 1]] else []
  }

  function Candidates(tStepMax: int, tStepIncrease: int, n: int): seq<int>
  {
    Positive(RawSteps(tStepMax, tStepIncrease, n))
  }

  lemma {:induction false} CandidatesPrefix(tStepMax: int, tStepIncrease: int, n: nat)
    requires tStepIncrease > 0
    ensures var r := Candidates(tStepMax, tStepIncrease, n);
      && (forall j :: 0 <= j < |r| ==> r[j] == tStepMax - j * tStepIncrease)
      && (|r| == n || tStepMax - |r| * tStepIncrease <= 0)
  {
    if n > 0 {
      var raw := RawSteps(tStepMax, tStepIncrease, n);
      assert raw[..n - 1] == RawSteps(tStepMax, tStepIncrease, n - 1);
      CandidatesPrefix(tStepMax, tStepIncrease, n - 1);
      var prev := Candidates(tStepMax, tStepIncrease, n - 1);
      MulMonotone(tStepIncrease, |prev|, n - 1);
    }
  }

  /** With a positive increment the candidates are `MAX, MAX-inc, MAX-2inc, ...`
      while positive, at most N of them: they start at MAX, decrease by the
      increment and stop either after N values or at the first non-positive
      one. */
  lemma CandidatesShape(tStepMax: int, tStepIncrease: int, n: int)
    requires tStepIncrease > 0
    ensures var r := Candidates(tStepMax, tStepIncrease, n);
      && |r| <= (if n > 0 then n else 0)
      && (forall j :: 0 <= j < |r| ==> r[j] > 0 && r[j] == tStepMax - j * tStepIncrease)
      && (forall j :: 0 < j < |r| ==> r[j] == r[j - 1] - tStepIncrease)
      && (n > 0 && tStepMax > 0 ==> |r| > 0 && r[0] == tStepMax)
      && (|r| == (if n > 0 then n else 0) || tStepMax - |r| * tStepIncrease <= 0)
  {
    var m: nat := if n > 0 then n else 0;
    assert RawSteps(tStepMax, tStepIncrease, n) == RawSteps(tStepMax, tStepIncrease, m);
    CandidatesPrefix(tStepMax, tStepIncrease, m);
    var r := Candidates(tStepMax, tStepIncrease, n);
    forall j | 0 < j < |r| ensures r[j] == r[j - 1] - tStepIncrease {
      assert (j - 1) * tStepIncrease == j * tStepIncrease - tStepIncrease;
    }
  }

  /** Once the constructor's check has passed, every candidate is a multiple of
      the increment, so all candidate grids share the increment's instants. */
  lemma CheckedCandidatesAreMultiples(tStepMax: int, tStepIncrease: int, n: int)
    requires CheckIncrement(tStepMax, tStepIncrease) == None
    ensures forall t :: t in Candidates(tStepMax, tStepIncrease, n) ==> t % tStepIncrease == 0
  {
    var raw := RawSteps(tStepMax, tStepIncrease, n);
    forall t | t in Candidates(tStepMax, tStepIncrease, n)
      ensures t % tStepIncrease == 0
    {
      var i :| 0 <= i < |raw| && raw[i] == t;
      StepsShareIncrement(tStepMax, tStepIncrease, i);
    }
  }

  lemma StepsShareIncrement(tStepMax: int, tStepIncrease: int, i: int)
    requires tStepIncrease != 0 && tStepMax % tStepIncrease == 0
    ensures (tStepMax - i * tStepIncrease) % tStepIncrease == 0
  {
    var q := tStepMax / tStepIncrease;
    DividedExactly(tStepIncrease, tStepMax);
    assert tStepMax - i * tStepIncrease == tStepIncrease * (q - i);
    MultipleMod(tStepIncrease, q - i);
  }

  // ---------------------------------------------------------------------------
  // Least common multiple (np.lcm.reduce)
  // ---------------------------------------------------------------------------

  lemma MulMonotone(c: int, a: int, b: int)
    requires c > 0
    ensures a <= b ==> a * c <= b * c
  {
  }

  lemma MulBound(d: int, x: int)
    requires d > 0
    ensures x >= 1 ==> d * x >= d
    ensures x <= -1 ==> d * x <= -d
  {
  }

  lemma MultipleMod(d: int, q: int)
    requires d != 0
    ensures (d * q) % d == 0
  {
    var m := d * q;
    var k := m / d;
    var r := m % d;
    assert m == d * k + r;
    var ad := if d > 0 then d else -d;
    var x := if d > 0 then q - k else k - q;
    assert ad * x == r;
    MulBound(ad, x);
  }

  lemma DividedExactly(d: int, n: int)
    requires d != 0 && n % d == 0
    ensures n == d * (n / d)
  {
  }

  /** Euclid's algorithm, as numpy's gcd. */
  function Gcd(a: nat, b: nat): (g: nat)
    ensures a > 0 || b > 0 ==> g > 0
    decreases b
  {
    if b == 0 then a else Gcd(b, a % b)
  }

  lemma {:induction false} GcdDivides(a: nat, b: nat)
    requires a > 0 || b > 0
    ensures Gcd(a, b) > 0 && a % Gcd(a, b) == 0 && b % Gcd(a, b) == 0
    decreases b
  {
    if b == 0 {
      MultipleMod(a, 0);
      MultipleMod(a, 1);
    } else {
      var g := Gcd(b, a % b);
      GcdDivides(b, a % b);
      var p := b / g;
      var q := (a % b) / g;
      DividedExactly(g, b);
      DividedExactly(g, a % b);
      assert a == (a / b) * b + a % b;
      assert a == (a / b) * (g * p) + g * q;
      assert a == g * ((a / b) * p + q);
      MultipleMod(g, (a / b) * p + q);
    }
  }

  /** numpy's `lcm(a, b) = a // gcd(a, b) * b` (0 when either is 0). */
  function Lcm(a: nat, b: nat): nat
  {
    if a == 0 || b == 0 then 0 else (a / Gcd(a, b)) * b
  }

  lemma LcmIsCommonMultiple(a: nat, b: nat)
    requires a > 0 && b > 0
    ensures Lcm(a, b) > 0 && Lcm(a, b) % a == 0 && Lcm(a, b) % b == 0
  {
    var g := Gcd(a, b);
    GcdDivides(a, b);
    var a' := a / g;
    var b' := b / g;
    DividedExactly(g, a);
    DividedExactly(g, b);
    assert a' > 0;
    assert Lcm(a, b) == a' * b;
    MultipleMod(b, a');
    assert a' * b == a' * (g * b') == (a' * g) * b' == a * b';
    MultipleMod(a, b');
  }

  /** Euclid's algorithm carries Bezout coefficients: the gcd is an integer
      combination of its arguments. */
  lemma {:induction false} Bezout(a: nat, b: nat) returns (x: int, y: int)
    ensures a * x + b * y == Gcd(a, b)
    decreases b
  {
    if b == 0 {
      x, y := 1, 0;
    } else {
      var x', y' := Bezout(b, a % b);
      var q := a / b;
      x, y := y', x' - q * y';
      BezoutStep(a, b, a % b, q, x', y');
    }
  }

  lemma BezoutStep(a: int, b: int, r: int, q: int, x': int, y': int)
    requires a == b * q + r
    ensures a * y' + b * (x' - q * y') == b * x' + r * y'
  {
    assert a * y' == b * q * y' + r * y';
  }

  lemma MulCancel(m: int, l: int, g: int)
    requires g > 0 && m * g == l * g
    ensures m == l
  {
    if m < l {
      MulStrict(m, l, g);
    } else if m > l {
      MulStrict(l, m, g);
    }
  }

  lemma MulStrict(m: int, l: int, g: int)
    requires g > 0 && m < l
    ensures m * g < l * g
  {
    assert l * g - m * g == (l - m) * g;
    MulBound(g, l - m);
  }

  /** The Bezout combination scaled by a common multiple `m = a s = b t`. */
  lemma ScaledBezout(a: int, b: int, m: int, s: int, t: int, x: int, y: int)
    requires m == a * s && m == b * t
    ensures m * (a * x + b * y) == (a * b) * (t * x + s * y)
  {
    assert m * (a * x) == (b * t) * (a * x) == (a * b) * (t * x);
    assert m * (b * y) == (a * s) * (b * y) == (a * b) * (s * y);
  }

  lemma ProductIsLcmTimesGcd(a: int, b: int, g: int, a': int, l: int, k: int)
    requires a == g * a' && l == a' * b
    ensures (a * b) * k == (l * k) * g
  {
    assert a * b == g * l;
  }

  /** numpy's lcm is the least common multiple: every common multiple of `a`
      and `b` is a multiple of it. */
  lemma LcmLeast(a: nat, b: nat, m: nat)
    requires a > 0 && b > 0 && m % a == 0 && m % b == 0
    ensures Lcm(a, b) > 0 && m % Lcm(a, b) == 0
  {
    var g := Gcd(a, b);
    GcdDivides(a, b);
    LcmIsCommonMultiple(a, b);
    var x, y := Bezout(a, b);
    var a' := a / g;
    DividedExactly(g, a);
    DividedExactly(a, m);
    DividedExactly(b, m);
    var s, t := m / a, m / b;
    var l := Lcm(a, b);
    assert l == a' * b;
    var k := t * x + s * y;
    ScaledBezout(a, b, m, s, t, x, y);
    ProductIsLcmTimesGcd(a, b, g, a', l, k);
    assert m * g == (l * k) * g;
    MulCancel(m, l * k, g);
    MultipleMod(l, k);
  }

  lemma DividesTransitive(a: nat, b: nat, c: nat)
    requires a > 0 && b > 0 && b % a == 0 && c % b == 0
    ensures c % a == 0
  {
    DividedExactly(b, c);
    DividedExactly(a, b);
    assert c == a * ((b / a) * (c / b));
    MultipleMod(a, (b / a) * (c / b));
  }

  predicate AllPositive(s: seq<int>) { forall i :: 0 <= i < |s| ==> s[i] > 0 }

  /** `np.lcm.reduce(time_steps)`: a left fold of `Lcm`. */
  function LcmAll(s: seq<int>): (r: nat)
    requires |s| >= 1 && AllPositive(s)
    ensures r > 0
    ensures forall i :: 0 <= i < |s| ==> r % s[i] == 0
  {
    if |s| == 1 then
      MultipleMod(s[0], 1);
      s[0]
    else
      var front := LcmAll(s[..|s| - 1]);
      var last := s[|s| - 1];
      LcmIsCommonMultiple(front, last);
      var r := Lcm(front, last);
      assert forall i :: 0 <= i < |s| - 1 ==> r % s[i] == 0 by {
        forall i | 0 <= i < |s| - 1 ensures r % s[i] == 0 {
          assert s[..|s| - 1][i] == s[i];
          DividesTransitive(s[i], front, r);
        }
      }
      r
  }

  /** `np.lcm.reduce` gives the least common multiple of the steps: every
      common multiple of them is a multiple of it. */
  lemma {:induction false} LcmAllLeast(s: seq<int>, m: nat)
    requires |s| >= 1 && AllPositive(s)
    requires forall i :: 0 <= i < |s| ==> m % s[i] == 0
    ensures m % LcmAll(s) == 0
    decreases |s|
  {
    if |s| > 1 {
      var front := s[..|s| - 1];
      assert forall i :: 0 <= i < |front| ==> front[i] == s[i];
      LcmAllLeast(front, m);
      LcmLeast(LcmAll(front), s[|s| - 1], m);
    }
  }

  // ---------------------------------------------------------------------------
  // FIND_values: time steps and simulation length
  // ---------------------------------------------------------------------------

  /** What FIND_values sets on the controller and in the deck. */
  datatype Schedule = Schedule(
    timeSteps: seq<int>,
    nSimulations: int,
    tStepsMinMax: (int, int),
    lcmFs: real,
    neTime: real,
    conv: seq<int>)

  /** The width of a QSSIN pulse. The guard compares the whole deck entry with
      `0.`, so only a bare number 0 is refused; a `[value, unit]` entry then
      gives its value, and anything else fails when its value is read. */
  function FwhmOf(yin: Deck): Result<real, ConfigError>
  {
    if "Field1_FWHM" !in yin then Err(MissingFwhm)
    else match yin["Field1_FWHM"]
      case Scalar(x) => if x == 0.0 then Err(ZeroFwhm) else Err(MalformedFwhm)
      case Quantity(x, _) => Ok(x)
      case _ => Err(MalformedFwhm)
  }

  /** An entry whose first item `entry[0]` exists: a list (`[value, unit]`,
      `[[...], unit]`) or a non-empty word, but not a bare number. */
  predicate Indexable(v: Value)
  {
    match v
    case Scalar(_) => false
    case Word(w) => |w| > 0
    case _ => true
  }

  /** FIND_values prints `Field1_Dir[0]`, which raises for a missing entry or
      one that cannot be indexed. */
  predicate HasDirection(yin: Deck)
  {
    "Field1_Dir" in yin && Indexable(yin["Field1_Dir"])
  }

  /** Time steps are in attoseconds; the deck takes femtoseconds. */
  function AttoToFemto(t: nat): (fs: real)
    ensures fs * 1000.0 == t as real
  {
    t as real / 1000.0
  }

  /** The step `j` decrements below the largest one. */
  function StepAfter(tStepMax: int, tStepIncrease: int, j: int): int
  {
    tStepMax - j * tStepIncrease
  }

  /** The deck of the runs: the field starts at the lcm, the simulation ends
      at `neTime`, the cache window is the single instant of the lcm, and every
      other entry is as it was. */
  function ScheduledDeck(yin: Deck, lcmFs: real, neTime: real): (d: Deck)
    ensures d.Keys == yin.Keys + {"Field1_Tstart", "NETime", "IOCachetime"}
    ensures d["Field1_Tstart"] == Quantity(lcmFs, "fs")
    ensures d["NETime"] == Quantity(neTime, "fs")
    ensures d["IOCachetime"] == Span(lcmFs, lcmFs, "fs")
    ensures forall k :: k in yin && k != "Field1_Tstart" && k != "NETime" && k != "IOCachetime" ==> d[k] == yin[k]
  {
    yin["Field1_Tstart" := Quantity(lcmFs, "fs")]
       ["NETime" := Quantity(neTime, "fs")]
       ["IOCachetime" := Span(lcmFs, lcmFs, "fs")]
  }

  /** The settling time of the field, the first thing FIND_values works out:
      none for a delta kick, six widths for a QSSIN pulse, and no value at all
      for any other kind (the name FieldTime is then never bound). A missing
      kind, or a QSSIN pulse whose width cannot be read, is an error. */
  function Settling(yin: Deck): Result<Option<real>, ConfigError>
  {
    if "Field1_kind" !in yin then Err(MissingFieldKind)
    else if yin["Field1_kind"] == Word("DELTA") then Ok(Some(0.0))
    else if yin["Field1_kind"] == Word("QSSIN") then
      (match FwhmOf(yin)
       case Err(e) => Err(e)
       case Ok(w) => Ok(Some(6.0 * w)))
    else Ok(None)
  }

  /** FIND_values, in the order its statements can fail. */
  function ScheduleOf(yin: Deck, refTime: real, tStepMax: int, tStepIncrease: int, n: int)
    : Result<Schedule, ConfigError>
  {
    match Settling(yin)
    case Err(e) => Err(e)
    case Ok(settling) =>
      if !HasDirection(yin) then Err(MissingFieldDirection)
      else StepSchedule(settling, refTime, tStepMax, tStepIncrease, n)
  }

  /** The second half of FIND_values, once the deck has been read: the
      candidate steps, the field start at their lcm and the duration. */
  function StepSchedule(settling: Option<real>, refTime: real, tStepMax: int, tStepIncrease: int, n: int)
    : Result<Schedule, ConfigError>
  {
    var steps := Candidates(tStepMax, tStepIncrease, n);
    if steps == [] then Err(NoCandidates)
    else if settling.None? then Err(UnknownFieldKind)
    else
      var lcmFs := AttoToFemto(LcmAll(steps));
      var neTime := lcmFs + settling.value + refTime;
      Ok(Schedule(steps, |steps|, (tStepMax, StepAfter(tStepMax, tStepIncrease, |steps| - 1)),
                  lcmFs, neTime, [steps[0]] + steps))
  }

  /** The deck entries and field kinds FIND_values reads and writes are
      distinct names. */
  lemma DistinctNames()
    ensures Word("DELTA") != Word("QSSIN")
    ensures "Field1_kind" != "Field1_Tstart" && "Field1_FWHM" != "Field1_Tstart" && "Field1_Dir" != "Field1_Tstart"
    ensures "Field1_kind" != "NETime" && "Field1_FWHM" != "NETime" && "Field1_Dir" != "NETime"
    ensures "Field1_kind" != "IOCachetime" && "Field1_FWHM" != "IOCachetime" && "Field1_Dir" != "IOCachetime"
    ensures "Field1_Tstart" != "NETime" && "Field1_Tstart" != "IOCachetime" && "NETime" != "IOCachetime"
    ensures "Field1_kind" != "Field1_FWHM" && "Field1_kind" != "Field1_Dir" && "Field1_FWHM" != "Field1_Dir"
  {
    assert "DELTA"[0] != "QSSIN"[0];
    assert "Field1_kind"[7] != "Field1_FWHM"[7];
    assert "Field1_kind"[0] != "IOCachetime"[0];
    assert "Field1_FWHM"[0] != "IOCachetime"[0];
  }

  /** The schedule FIND_values computes once every check has passed. */
  lemma ScheduleOfSuccess(yin: Deck, refTime: real, tStepMax: int, tStepIncrease: int, n: int, fieldTime: real)
    requires Settling(yin) == Ok(Some(fieldTime)) && HasDirection(yin)
    requires Candidates(tStepMax, tStepIncrease, n) != []
    ensures var steps := Candidates(tStepMax, tStepIncrease, n);
      var lcmFs := AttoToFemto(LcmAll(steps));
      ScheduleOf(yin, refTime, tStepMax, tStepIncrease, n)
        == Ok(Schedule(steps, |steps|, (tStepMax, StepAfter(tStepMax, tStepIncrease, |steps| - 1)),
                       lcmFs, lcmFs + fieldTime + refTime, [steps[0]] + steps))
  {
  }

  /** The settling time of the field: none for a delta kick, six widths for a
      QSSIN pulse. */
  ghost function FieldTime(yin: Deck): real
  {
    if "Field1_kind" in yin && yin["Field1_kind"] == Word("QSSIN")
       && "Field1_FWHM" in yin && yin["Field1_FWHM"].Quantity?
    then 6.0 * yin["Field1_FWHM"].x
    else 0.0
  }

  /** A successful schedule: the candidates are those of the generator, the
      recorded extremes are the first and the last candidate, the
      simulated duration is lcm/1000 + field time + reference time, and every
      candidate divides the lcm, so every run reaches the field start after a
      whole number of its own steps. */
  lemma ScheduleTiming(yin: Deck, refTime: real, tStepMax: int, tStepIncrease: int, n: int)
    requires ScheduleOf(yin, refTime, tStepMax, tStepIncrease, n).Ok?
    ensures var s := ScheduleOf(yin, refTime, tStepMax, tStepIncrease, n).value;
      && s.timeSteps == Candidates(tStepMax, tStepIncrease, n)
      && s.timeSteps != [] && AllPositive(s.timeSteps)
      && s.nSimulations == |s.timeSteps|
      && s.tStepsMinMax == (tStepMax, StepAfter(tStepMax, tStepIncrease, |s.timeSteps| - 1))
      && s.lcmFs * 1000.0 == LcmAll(s.timeSteps) as real
      && (forall i :: 0 <= i < |s.timeSteps| ==> LcmAll(s.timeSteps) % s.timeSteps[i] == 0)
      && s.neTime == s.lcmFs + FieldTime(yin) + refTime
      && s.conv == [s.timeSteps[0]] + s.timeSteps
      && (tStepIncrease > 0 ==> s.tStepsMinMax == (s.timeSteps[0], s.timeSteps[|s.timeSteps| - 1]))
  {
    var steps := Candidates(tStepMax, tStepIncrease, n);
    var settling := Settling(yin);
    assert settling.Ok? && HasDirection(yin);
    assert StepSchedule(settling.value, refTime, tStepMax, tStepIncrease, n).Ok?;
    SettlingIsFieldTime(yin);
    ScheduleOfSuccess(yin, refTime, tStepMax, tStepIncrease, n, FieldTime(yin));
    if tStepIncrease > 0 {
      CandidateExtremes(tStepMax, tStepIncrease, n);
    }
  }

  /** A settling time, when there is one, is the one `FieldTime` reads off
      the deck. */
  lemma SettlingIsFieldTime(yin: Deck)
    requires Settling(yin).Ok? && Settling(yin).value.Some?
    ensures Settling(yin) == Ok(Some(FieldTime(yin)))
  {
    DistinctNames();
  }

  /** With a positive increment the recorded extremes are the first and the
      last candidate. */
  lemma CandidateExtremes(tStepMax: int, tStepIncrease: int, n: int)
    requires tStepIncrease > 0 && Candidates(tStepMax, tStepIncrease, n) != []
    ensures var r := Candidates(tStepMax, tStepIncrease, n);
      r[0] == tStepMax && r[|r| - 1] == StepAfter(tStepMax, tStepIncrease, |r| - 1)
  {
    CandidatesShape(tStepMax, tStepIncrease, n);
    var r := Candidates(tStepMax, tStepIncrease, n);
    assert r[0] == tStepMax - 0 * tStepIncrease;
    assert r[|r| - 1] == tStepMax - (|r| - 1) * tStepIncrease;
  }

  /** FIND_values succeeds exactly for a DELTA field, or a QSSIN field whose
      width is a `[value, unit]` entry, with a readable direction and at least
      one positive candidate. */
  lemma ScheduleSucceeds(yin: Deck, refTime: real, tStepMax: int, tStepIncrease: int, n: int)
    ensures ScheduleOf(yin, refTime, tStepMax, tStepIncrease, n).Ok? <==>
      && "Field1_kind" in yin
      && (yin["Field1_kind"] == Word("DELTA")
          || (yin["Field1_kind"] == Word("QSSIN") && "Field1_FWHM" in yin && yin["Field1_FWHM"].Quantity?))
      && HasDirection(yin)
      && Candidates(tStepMax, tStepIncrease, n) != []
  {
  }

  /** A QSSIN field without Field1_FWHM halts the procedure. */
  lemma QssinWithoutWidthHalts(yin: Deck, refTime: real, tStepMax: int, tStepIncrease: int, n: int)
    requires "Field1_kind" in yin && yin["Field1_kind"] == Word("QSSIN") && "Field1_FWHM" !in yin
    ensures ScheduleOf(yin, refTime, tStepMax, tStepIncrease, n) == Err(MissingFwhm)
  {
  }

  /** The zero-width guard never fires for a width stored with its unit: a
      QSSIN pulse of width `[0, fs]` is accepted and adds no settling time. */
  lemma ZeroWidthWithUnitAccepted(yin: Deck, refTime: real, tStepMax: int, tStepIncrease: int, n: int, unit: string)
    requires "Field1_kind" in yin && yin["Field1_kind"] == Word("QSSIN")
    requires "Field1_FWHM" in yin && yin["Field1_FWHM"] == Quantity(0.0, unit)
    requires HasDirection(yin) && Candidates(tStepMax, tStepIncrease, n) != []
    ensures ScheduleOf(yin, refTime, tStepMax, tStepIncrease, n).Ok?
    ensures ScheduleOf(yin, refTime, tStepMax, tStepIncrease, n).value.neTime
            == ScheduleOf(yin, refTime, tStepMax, tStepIncrease, n).value.lcmFs + refTime
  {
  }

  // ---------------------------------------------------------------------------
  // Run records and the NaN / overflow test
  // ---------------------------------------------------------------------------

  /** A 3 x T polarization: one row per Cartesian axis, one column per cached
      time. */
  type Pol = seq<seq<Sample>>

  predicate Shaped(p: Pol, samples: nat)
  {
    |p| == 3 && |p[0]| == samples && |p[1]| == samples && |p[2]| == samples
  }

  /** What the output database of one run holds. */
  datatype RunRecord = RunRecord(polarization: Pol, diffCarriers: seq<Sample>, ratioCarriers: seq<Sample>)

  predicate AnyNaN(s: seq<Sample>)
  {
    exists i :: 0 <= i < |s| && s[i].NaN?
  }

  predicate PolHasNaN(p: Pol)
  {
    exists r :: 0 <= r < |p| && AnyNaN(p[r])
  }

  /** `np.abs(x) > overflow`; infinities overflow, NaN does not. */
  predicate Overflows(s: Sample)
  {
    Greater(Abs(s), Overflow)
  }

  predicate PolOverflows(p: Pol)
  {
    exists r, t :: 0 <= r < |p| && 0 <= t < |p[r]| && Overflows(p[r][t])
  }

  /** The verdict of nan_test. */
  predicate Clean(rec: RunRecord)
  {
    !PolHasNaN(rec.polarization) && !AnyNaN(rec.diffCarriers) && !PolOverflows(rec.polarization)
  }

  function MapPol(p: Pol, f: Sample -> Sample): (q: Pol)
    ensures |q| == |p| && forall r :: 0 <= r < |p| ==> |q[r]| == |p[r]|
    ensures forall r, t :: 0 <= r < |p| && 0 <= t < |p[r]| ==> q[r][t] == f(p[r][t])
  {
    seq(|p|, r requires 0 <= r < |p| => seq(|p[r]|, t requires 0 <= t < |p[r]| => f(p[r][t])))
  }

  /** `np.nan_to_num(polarization)` */
  function PolNanToNum(p: Pol): Pol
  {
    MapPol(p, NanToNum)
  }

  /** `polarization[np.abs(polarization) > overflow] = 0.` */
  function ZeroOverflow(p: Pol): Pol
  {
    MapPol(p, s => if Overflows(s) then Num(0.0) else s)
  }

  /** What the test leaves in one entry: NaN, infinities and finite values
      above the threshold become 0, everything else is kept. */
  function SanitizeSample(s: Sample): Sample
  {
    match s
    case Num(x) => if x > Overflow || -x > Overflow then Num(0.0) else s
    case _ => Num(0.0)
  }

  /** The polarization after nan_test: no NaN, no infinity, nothing above the
      threshold in magnitude, and every finite entry within the threshold
      unchanged. */
  function Sanitize(p: Pol): (q: Pol)
    ensures |q| == |p| && forall r :: 0 <= r < |p| ==> |q[r]| == |p[r]|
    ensures forall r, t :: 0 <= r < |q| && 0 <= t < |q[r]| ==>
      q[r][t].Num? && -Overflow <= q[r][t].v <= Overflow
    ensures forall r, t ::
      (0 <= r < |p| && 0 <= t < |p[r]| && p[r][t].Num? && -Overflow <= p[r][t].v <= Overflow) ==> q[r][t] == p[r][t]
  {
    MapPol(p, SanitizeSample)
  }

  /** A run that passes the test is left as it was, and all its entries are
      finite and within the threshold. */
  lemma CleanRunUnchanged(rec: RunRecord)
    requires Clean(rec)
    ensures Sanitize(rec.polarization) == rec.polarization
    ensures forall r, t :: 0 <= r < |rec.polarization| && 0 <= t < |rec.polarization[r]| ==>
      rec.polarization[r][t].Num? && -Overflow <= rec.polarization[r][t].v <= Overflow
  {
    var p: Pol := rec.polarization;
    forall r: int, t: int | 0 <= r < |p| && 0 <= t < |p[r]|
      ensures p[r][t].Num? && -Overflow <= p[r][t].v <= Overflow
    {
      assert p[r][t].NaN? ==> AnyNaN(p[r]);
    }
    var q := Sanitize(p);
    assert |q| == |p|;
    forall r | 0 <= r < |p| ensures q[r] == p[r] {
      assert |q[r]| == |p[r]|;
    }
  }

  /** Entry by entry, the two steps agree with `SanitizeSample`, and the first
      step changes no entry's overflow status. */
  lemma TwoStepSanitizeEntries(p: Pol, nanSeen: bool)
    requires nanSeen || !PolHasNaN(p)
    ensures var q := if nanSeen then PolNanToNum(p) else p;
      && |q| == |p| && (forall r :: 0 <= r < |p| ==> |q[r]| == |p[r]|)
      && (forall r, t | 0 <= r < |p| && 0 <= t < |p[r]| ::
            && Overflows(q[r][t]) == Overflows(p[r][t])
            && (if Overflows(q[r][t]) then Num(0.0) else q[r][t]) == SanitizeSample(p[r][t]))
  {
    var q := if nanSeen then PolNanToNum(p) else p;
    forall r, t | 0 <= r < |p| && 0 <= t < |p[r]|
      ensures Overflows(q[r][t]) == Overflows(p[r][t])
      ensures (if Overflows(q[r][t]) then Num(0.0) else q[r][t]) == SanitizeSample(p[r][t])
    {
      assert p[r][t].NaN? ==> AnyNaN(p[r]);
    }
  }

  /** nan_test's two steps (nan_to_num when a NaN was seen, then zeroing the
      overflowing entries) produce exactly `Sanitize`. */
  lemma TwoStepSanitize(p: Pol, nanSeen: bool)
    requires nanSeen || !PolHasNaN(p)
    ensures var q := if nanSeen then PolNanToNum(p) else p;
      && (PolOverflows(q) <==> PolOverflows(p))
      && (if PolOverflows(q) then ZeroOverflow(q) else q) == Sanitize(p)
  {
    var q := if nanSeen then PolNanToNum(p) else p;
    TwoStepSanitizeEntries(p, nanSeen);
    if PolOverflows(q) {
      var r, t :| 0 <= r < |q| && 0 <= t < |q[r]| && Overflows(q[r][t]);
      assert Overflows(p[r][t]);
    }
    if PolOverflows(p) {
      var r, t :| 0 <= r < |p| && 0 <= t < |p[r]| && Overflows(p[r][t]);
      assert Overflows(q[r][t]);
    }
    if PolOverflows(q) {
      PolEqual(ZeroOverflow(q), Sanitize(p));
    } else {
      PolEqual(q, Sanitize(p));
    }
  }

  /** Two polarizations of the same shape with the same entries are equal. */
  lemma PolEqual(a: Pol, b: Pol)
    requires |a| == |b| && forall r :: 0 <= r < |a| ==> |a[r]| == |b[r]|
    requires forall r, t :: 0 <= r < |a| && 0 <= t < |a[r]| ==> a[r][t] == b[r][t]
    ensures a == b
  {
    forall r | 0 <= r < |a| ensures a[r] == b[r] {
      assert |a[r]| == |b[r]|;
    }
  }


  /** The output database of one run, read by the controller; nan_test
      overwrites its polarization in place. */
  class RunDatabase {
    var polarization: Pol
    const diffCarriers: seq<Sample>
    const ratioCarriers: seq<Sample>

    constructor (rec: RunRecord)
      ensures Record() == rec
    {
      polarization := rec.polarization;
      diffCarriers := rec.diffCarriers;
      ratioCarriers := rec.ratioCarriers;
    }

    function Record(): RunRecord
      reads this
    {
      RunRecord(polarization, diffCarriers, ratioCarriers)
    }
  }

  // ---------------------------------------------------------------------------
  // Carrier conservation and polarization tests
  // ---------------------------------------------------------------------------

  /** electron_conservation_test: passes iff no carrier ratio is strictly
      greater than the tolerance (a NaN ratio compares false, so it passes). */
  function ElectronConservationTest(ratio: seq<Sample>, tolEh: real): (ok: bool)
    ensures ok <==> forall i :: 0 <= i < |ratio| ==> !Greater(ratio[i], tolEh)
  {
    if ratio == [] then true
    else !Greater(ratio[0], tolEh) && ElectronConservationTest(ratio[1..], tolEh)
  }

  /** A run that conserves carriers under a tolerance does so under any larger
      one. */
  lemma ElectronTestMonotone(ratio: seq<Sample>, tolEh: real, looser: real)
    requires tolEh <= looser && ElectronConservationTest(ratio, tolEh)
    ensures ElectronConservationTest(ratio, looser)
  {
  }

  /** The field direction as the deck holds it. */
  type Direction = v: Value | Indexable(v) witness Vector3(0.0, 0.0, 0.0, "")

  function DirectionOf(yin: Deck): Direction
    requires HasDirection(yin)
  {
    yin["Field1_Dir"]
  }

  /** pol_along_field compares `field[0]` with `0.`, then `field[1]`, then
      `field[2]`. A vector is stored as `[[x, y, z], unit]`, so `field[0]` is
      the whole list of components and never equals `0.`: every vector gives
      `pol-x`, whatever its components. The same holds for a span and a word.
      Only a `[0, unit]` entry gets past the first comparison; its second item
      is the unit string, which is not `0.`, so it gives `pol-y`. Every branch
      returns axis 0, and `pol-z` is never returned. */
  function PolAlongField(field: Direction): (r: (nat, string))
    ensures r.0 == 0
    ensures field.Vector3? ==> r.1 == "pol-x"
    ensures r.1 == "pol-y" <==> field.Quantity? && field.x == 0.0
    ensures r.1 == "pol-x" || r.1 == "pol-y"
  {
    if field.Quantity? && field.x == 0.0 then (0, "pol-y")
    else (0, "pol-x")
  }

  /** The two polarization tests. */
  datatype PolMeasure = PolSquared | AlongField

  predicate Comparable(cur: Pol, prev: Pol)
  {
    |cur| == 3 && |prev| == 3
    && |cur[1]| == |cur[0]| && |cur[2]| == |cur[0]|
    && |prev[0]| == |cur[0]| && |prev[1]| == |cur[0]| && |prev[2]| == |cur[0]|
  }

  /** The series a test compares: `p[0]*p[0] + p[1]*p[1] + p[2]*p[2]`, or the
      row `pol_along_field` selects. */
  function Measure(p: Pol, which: PolMeasure, field: Direction): (m: seq<Sample>)
    requires |p| == 3 && |p[1]| == |p[0]| && |p[2]| == |p[0]|
    ensures |m| == |p[0]|
  {
    match which
    case PolSquared =>
      seq(|p[0]|, t requires 0 <= t < |p[0]| =>
        Add(Add(Mul(p[0][t], p[0][t]), Mul(p[1][t], p[1][t])), Mul(p[2][t], p[2][t])))
    case AlongField => p[PolAlongField(field).0]
  }

  /** pol_error_test: fails iff `(cur - prev) / tol_pol > 1` at some cached
      time. The difference is signed, so only growth is detected. */
  function PolErrorTest(cur: Pol, prev: Pol, which: PolMeasure, tolPol: real, field: Direction): bool
    requires Comparable(cur, prev)
  {
    var m1 := Measure(cur, which, field);
    var m0 := Measure(prev, which, field);
    !exists t :: 0 <= t < |m1| && Greater(Div(Sub(m1[t], m0[t]), tolPol), 1.0)
  }

  /** Two runs with the same polarization pass both tests, whatever the
      tolerance and even with NaN or infinite entries. */
  lemma IdenticalRunsPass(p: Pol, which: PolMeasure, tolPol: real, field: Direction)
    requires Comparable(p, p)
    ensures PolErrorTest(p, p, which, tolPol, field)
  {
    var m := Measure(p, which, field);
    forall t | 0 <= t < |m| ensures !Greater(Div(Sub(m[t], m[t]), tolPol), 1.0) {
      SelfDifferenceNeverGreater(m[t], tolPol, 1.0);
    }
  }

  predicate AllFinite(p: Pol)
  {
    forall r, t :: 0 <= r < |p| && 0 <= t < |p[r]| ==> p[r][t].Num?
  }

  /** The compared quantity on exact reals. */
  function RealMeasure(p: Pol, which: PolMeasure, t: nat): real
    requires |p| == 3 && t < |p[0]| && t < |p[1]| && t < |p[2]| && AllFinite(p)
  {
    match which
    case PolSquared => p[0][t].v * p[0][t].v + p[1][t].v * p[1][t].v + p[2][t].v * p[2][t].v
    case AlongField => p[0][t].v
  }

  lemma RealMulMonotone(x: real, y: real, c: real)
    requires c > 0.0
    ensures x > y <==> x * c > y * c
  {
  }

  lemma DivGreaterOne(a: real, tolPol: real)
    requires tolPol > 0.0
    ensures a / tolPol > 1.0 <==> a > tolPol
  {
    assert a == (a / tolPol) * tolPol;
    RealMulMonotone(a / tolPol, 1.0, tolPol);
  }

  /** On finite runs and a positive tolerance, a test passes iff the compared
      quantity never grows by more than the tolerance: the test is one-sided,
      a drop of any size passes. The along-field test reads the x row
      whatever the field direction. */
  lemma PolErrorOnFiniteRuns(cur: Pol, prev: Pol, which: PolMeasure, tolPol: real, field: Direction)
    requires Comparable(cur, prev) && AllFinite(cur) && AllFinite(prev) && tolPol > 0.0
    ensures PolErrorTest(cur, prev, which, tolPol, field) <==>
      forall t :: 0 <= t < |cur[0]| ==> RealMeasure(cur, which, t) - RealMeasure(prev, which, t) <= tolPol
  {
    var m1 := Measure(cur, which, field);
    var m0 := Measure(prev, which, field);
    forall t | 0 <= t < |cur[0]|
      ensures Greater(Div(Sub(m1[t], m0[t]), tolPol), 1.0) <==>
              RealMeasure(cur, which, t) - RealMeasure(prev, which, t) > tolPol
    {
      assert m1[t] == Num(RealMeasure(cur, which, t));
      assert m0[t] == Num(RealMeasure(prev, which, t));
      DivGreaterOne(RealMeasure(cur, which, t) - RealMeasure(prev, which, t), tolPol);
    }
  }

  /** The along-field test only looks at the x rows: identical x rows pass,
      whatever the other two rows hold and whatever the field direction. */
  lemma AlongFieldIgnoresYandZ(cur: Pol, prev: Pol, tolPol: real, field: Direction)
    requires Comparable(cur, prev) && cur[0] == prev[0]
    ensures PolErrorTest(cur, prev, AlongField, tolPol, field)
  {
    var m := cur[0];
    forall t | 0 <= t < |m| ensures !Greater(Div(Sub(m[t], m[t]), tolPol), 1.0) {
      SelfDifferenceNeverGreater(m[t], tolPol, 1.0);
    }
  }

  /** The outcome of ANALYSE_pol. */
  datatype PolVerdict = PolVerdict(polSq: bool, polX: bool, counter: nat)

  predicate LastTwoConserve(ehCheck: seq<bool>)
    requires |ehCheck| >= 2
  {
    ehCheck[|ehCheck| - 1] && ehCheck[|ehCheck| - 2]
  }

  /** ANALYSE_pol: when the last two runs both passed the carrier test, the
      two polarization tests are run and the streak grows by one if both pass
      and restarts at 0 otherwise; when either run failed the carrier test,
      both tests are reported failed and the streak is kept as it was. */
  function AnalysePol(rtOutput: seq<RunRecord>, ehCheck: seq<bool>, passed: nat, tolPol: real, field: Direction)
    : (r: PolVerdict)
    requires |rtOutput| >= 2 && |ehCheck| >= 2
    requires LastTwoConserve(ehCheck) ==>
      Comparable(rtOutput[|rtOutput| - 1].polarization, rtOutput[|rtOutput| - 2].polarization)
    ensures r.polSq || r.polX ==> LastTwoConserve(ehCheck)
    ensures r.counter == passed + 1 <==> LastTwoConserve(ehCheck) && r.polSq && r.polX
    ensures r.counter != passed ==> LastTwoConserve(ehCheck)
    ensures r.counter <= passed + 1
    ensures LastTwoConserve(ehCheck) ==>
      && r.polSq == PolErrorTest(rtOutput[|rtOutput| - 1].polarization, rtOutput[|rtOutput| - 2].polarization,
                                 PolSquared, tolPol, field)
      && r.polX == PolErrorTest(rtOutput[|rtOutput| - 1].polarization, rtOutput[|rtOutput| - 2].polarization,
                                AlongField, tolPol, field)
      && (r.counter == 0 <==> !(r.polSq && r.polX))
  {
    if LastTwoConserve(ehCheck) then
      var cur := rtOutput[|rtOutput| - 1].polarization;
      var prev := rtOutput[|rtOutput| - 2].polarization;
      var sq := PolErrorTest(cur, prev, PolSquared, tolPol, field);
      var x := PolErrorTest(cur, prev, AlongField, tolPol, field);
      PolVerdict(sq, x, if sq && x then passed + 1 else 0)
    else
      PolVerdict(false, false, passed)
  }

  // ---------------------------------------------------------------------------
  // RUN_convergence: the streak-counting loop, as a specification
  // ---------------------------------------------------------------------------

  /** The input file and output folder of one run. */
  datatype RunSpec = RunSpec(filename: string, folder: string, deck: Deck)

  /** `'%s_%05d%s.in' % (param, ts, units)` */
  function RunFileName(param: string, ts: int, units: string): string
  {
    param + "_" + Text.FormatInt(ts, 5) + units + ".in"
  }

  /** `filename.split('.')[0]` */
  function RunFolder(filename: string): string
  {
    Text.BeforeFirst(filename, '.')
  }

  /** When neither the parameter nor the units contain a dot, the folder is
      the file name without `.in`, and the time step can be read back from it. */
  lemma RunFolderIsNameWithoutExtension(param: string, ts: int, units: string)
    requires '.' !in param && '.' !in units
    ensures RunFolder(RunFileName(param, ts, units)) == param + "_" + Text.FormatInt(ts, 5) + units
    ensures Text.ParseInt(Text.FormatInt(ts, 5)) == ts
  {
    var digits := Text.FormatInt(ts, 5);
    assert '.' !in digits by {
      if ts >= 0 {
        assert Text.AllDigits(digits);
      } else {
        assert digits == [digits[0]] + digits[1..];
        assert Text.AllDigits(digits[1..]);
      }
    }
    var stem := param + "_" + digits + units;
    assert RunFileName(param, ts, units) == stem + ['.'] + "in";
    Text.BeforeFirstOfJoin(stem, '.', "in");
    Text.FormatIntRoundTrip(ts, 5);
  }

  /** What RUN_convergence accumulates: one entry per run in `runs`,
      `outputs` (RToutput), `nanCheck` and `ehCheck`; one per comparison in the
      two polarization lists; the streak counter; and the pair of time steps
      printed when the streak reaches 2 (nothing is stored as a recommended
      step). */
  datatype Log = Log(
    runs: seq<RunSpec>,
    outputs: seq<RunRecord>,
    nanCheck: seq<bool>,
    ehCheck: seq<bool>,
    polSqCheck: seq<bool>,
    polXCheck: seq<bool>,
    counter: nat,
    printed: Option<(int, int)>)

  /** The controller's fields that RUN_convergence reads. */
  datatype Settings = Settings(yin: Deck, field: Direction, tolEh: real, tolPol: real, param: string, units: string)

  /** The external engine returns records of one shape for every time step:
      the cached times coincide across runs. */
  ghost predicate UniformOracle(run: int -> RunRecord, samples: nat)
  {
    forall ts :: Shaped(run(ts).polarization, samples)
  }

  lemma OracleShaped(run: int -> RunRecord, samples: nat, ts: int)
    requires UniformOracle(run, samples)
    ensures Shaped(run(ts).polarization, samples)
  {
  }

  /** The input file, folder and deck of the run at time step `ts`. */
  function RunSpecOf(s: Settings, ts: int): RunSpec
  {
    var filename := RunFileName(s.param, ts, s.units);
    RunSpec(filename, RunFolder(filename), InputToRun(s.yin, s.param, ts, s.units))
  }

  /** The record kept in RToutput: the engine's record after nan_test. */
  function Sanitized(rec: RunRecord): (r: RunRecord)
    ensures forall samples: nat :: Shaped(rec.polarization, samples) ==> Shaped(r.polarization, samples)
  {
    rec.(polarization := Sanitize(rec.polarization))
  }

  /** The runs prepared for a list of time steps, in order. */
  function RunSpecs(s: Settings, ts: seq<int>): (r: seq<RunSpec>)
    ensures |r| == |ts|
    ensures forall i :: 0 <= i < |ts| ==> r[i] == RunSpecOf(s, ts[i])
  {
    Mapped(t => RunSpecOf(s, t), ts)
  }

  /** `[f(t) for t in ts]`. */
  function Mapped<A, B>(f: A -> B, ts: seq<A>): (r: seq<B>)
    ensures |r| == |ts|
    ensures forall i :: 0 <= i < |ts| ==> r[i] == f(ts[i])
  {
    if ts == [] then [] else Mapped(f, ts[..|ts| - 1]) + [f(ts[|ts| - 1])]
  }

  /** What the engine produced for a list of time steps, after nan_test. */
  function SanitizedRuns(run: int -> RunRecord, ts: seq<int>): (r: seq<RunRecord>)
    ensures |r| == |ts|
    ensures forall i :: 0 <= i < |ts| ==> r[i] == Sanitized(run(ts[i]))
  {
    if ts == [] then [] else SanitizedRuns(run, ts[..|ts| - 1]) + [Sanitized(run(ts[|ts| - 1]))]
  }

  /** The NaN verdicts for a list of time steps. */
  function NanVerdicts(run: int -> RunRecord, ts: seq<int>): (r: seq<bool>)
    ensures |r| == |ts|
    ensures forall i :: 0 <= i < |ts| ==> r[i] == Clean(run(ts[i]))
  {
    if ts == [] then [] else NanVerdicts(run, ts[..|ts| - 1]) + [Clean(run(ts[|ts| - 1]))]
  }

  /** The carrier verdicts for a list of time steps: a run passes when it
      passes the NaN test and conserves carriers. */
  function EhVerdicts(s: Settings, run: int -> RunRecord, ts: seq<int>): (r: seq<bool>)
    ensures |r| == |ts|
    ensures forall i :: 0 <= i < |ts| ==>
      r[i] == (Clean(run(ts[i])) && ElectronConservationTest(run(ts[i]).ratioCarriers, s.tolEh))
  {
    if ts == [] then []
    else
      var rec := run(ts[|ts| - 1]);
      EhVerdicts(s, run, ts[..|ts| - 1]) + [Clean(rec) && ElectronConservationTest(rec.ratioCarriers, s.tolEh)]
  }

  /** The streak left by a list of comparisons (0 before the first one). */
  function StreakOf(v: seq<PolVerdict>): nat
  {
    if v == [] then 0 else v[|v| - 1].counter
  }

  /** The ANALYSE_pol verdicts of the first `n` iterations: one per iteration
      from the second on, each continuing the streak left by the one before. */
  ghost function Verdicts(s: Settings, run: int -> RunRecord, steps: seq<int>, samples: nat, n: nat): (v: seq<PolVerdict>)
    requires n <= |steps| && UniformOracle(run, samples)
    ensures |v| == if n == 0 then 0 else n - 1
  {
    if n <= 1 then []
    else
      var prev := Verdicts(s, run, steps, samples, n - 1);
      var outputs := SanitizedRuns(run, steps[..n]);
      OracleShaped(run, samples, steps[n - 1]);
      OracleShaped(run, samples, steps[n - 2]);
      assert outputs[n - 1] == Sanitized(run(steps[n - 1])) && outputs[n - 2] == Sanitized(run(steps[n - 2]));
      prev + [AnalysePol(outputs, EhVerdicts(s, run, steps[..n]), StreakOf(prev), s.tolPol, s.field)]
  }

  function SqColumn(v: seq<PolVerdict>): (r: seq<bool>)
    ensures |r| == |v| && forall j :: 0 <= j < |v| ==> r[j] == v[j].polSq
  {
    if v == [] then [] else SqColumn(v[..|v| - 1]) + [v[|v| - 1].polSq]
  }

  function XColumn(v: seq<PolVerdict>): (r: seq<bool>)
    ensures |r| == |v| && forall j :: 0 <= j < |v| ==> r[j] == v[j].polX
  {
    if v == [] then [] else XColumn(v[..|v| - 1]) + [v[|v| - 1].polX]
  }

  /** The log after the first `n` iterations, ignoring the break. */
  ghost function Unrolled(s: Settings, run: int -> RunRecord, steps: seq<int>, samples: nat, n: nat): Log
    requires n <= |steps| && UniformOracle(run, samples)
  {
    var v := Verdicts(s, run, steps, samples, n);
    var counter := StreakOf(v);
    Log(RunSpecs(s, steps[..n]), SanitizedRuns(run, steps[..n]), NanVerdicts(run, steps[..n]),
        EhVerdicts(s, run, steps[..n]), SqColumn(v), XColumn(v), counter,
        if n >= 2 && counter == 2 then Some((steps[n - 1], steps[n - 2])) else None)
  }

  /** The first `j` in `[n, hi]` at which `stop` holds, or `hi`. */
  function FirstStop(stop: nat -> bool, n: nat, hi: nat): (k: nat)
    requires n <= hi
    ensures n <= k <= hi && (k == hi || stop(k))
    ensures forall j :: n <= j < k ==> !stop(j)
    decreases hi - n
  {
    if n == hi || stop(n) then n else FirstStop(stop, n + 1, hi)
  }

  /** The break condition, after `j` iterations. */
  ghost function StreakReached(s: Settings, run: int -> RunRecord, steps: seq<int>, samples: nat): nat -> bool
    requires UniformOracle(run, samples)
  {
    (j: nat) => j <= |steps| && Unrolled(s, run, steps, samples, j).counter == 2
  }

  /** The number of runs executed: the first iteration count at which the
      streak counter is 2, or all of them. */
  ghost function Executed(s: Settings, run: int -> RunRecord, steps: seq<int>, samples: nat): (k: nat)
    requires UniformOracle(run, samples)
    ensures k <= |steps|
  {
    if steps == [] then 0 else FirstStop(StreakReached(s, run, steps, samples), 1, |steps|)
  }

  /** The log RUN_convergence leaves behind. */
  ghost function Converge(s: Settings, run: int -> RunRecord, steps: seq<int>, samples: nat): Log
    requires UniformOracle(run, samples)
  {
    Unrolled(s, run, steps, samples, Executed(s, run, steps, samples))
  }

  /** RUN_convergence stops right after the first iteration that brings the
      counter to 2, and otherwise runs every candidate. */
  lemma ConvergeStopsAtFirstStreakOfTwo(s: Settings, run: int -> RunRecord, steps: seq<int>, samples: nat)
    requires UniformOracle(run, samples)
    ensures var k := Executed(s, run, steps, samples);
      && k <= |steps|
      && (steps != [] ==> k >= 1)
      && (k == |steps| || Converge(s, run, steps, samples).counter == 2)
      && (forall j :: 1 <= j < k ==> Unrolled(s, run, steps, samples, j).counter != 2)
      && Converge(s, run, steps, samples) == Unrolled(s, run, steps, samples, k)
  {
    var stop := StreakReached(s, run, steps, samples);
    var k := Executed(s, run, steps, samples);
    if steps != [] {
      assert k == FirstStop(stop, 1, |steps|);
      assert k == |steps| || stop(k);
      forall j | 1 <= j < k ensures Unrolled(s, run, steps, samples, j).counter != 2 {
        assert !stop(j);
      }
    }
  }

  /** The counter was never 2 after fewer than `k` iterations. */
  ghost predicate NoStreakBefore(s: Settings, run: int -> RunRecord, steps: seq<int>, samples: nat, k: nat)
    requires k <= |steps| && UniformOracle(run, samples)
  {
    forall j :: 1 <= j < k ==> Unrolled(s, run, steps, samples, j).counter != 2
  }

  lemma NoStreakExtends(s: Settings, run: int -> RunRecord, steps: seq<int>, samples: nat, k: nat)
    requires k < |steps| && UniformOracle(run, samples)
    requires NoStreakBefore(s, run, steps, samples, k)
    requires Unrolled(s, run, steps, samples, k).counter != 2
    ensures NoStreakBefore(s, run, steps, samples, k + 1)
  {
    forall j | 1 <= j < k + 1 ensures Unrolled(s, run, steps, samples, j).counter != 2 {
      if j < k {
        assert Unrolled(s, run, steps, samples, j).counter != 2;
      }
    }
  }

  /** The number of executed runs is pinned down by the stop rule. */
  lemma ExecutedIs(s: Settings, run: int -> RunRecord, steps: seq<int>, samples: nat, k: nat)
    requires UniformOracle(run, samples) && k <= |steps|
    requires steps != [] ==> k >= 1
    requires k == |steps| || Unrolled(s, run, steps, samples, k).counter == 2
    requires NoStreakBefore(s, run, steps, samples, k)
    ensures Executed(s, run, steps, samples) == k
    ensures Converge(s, run, steps, samples) == Unrolled(s, run, steps, samples, k)
  {
    if steps != [] {
      var stop := StreakReached(s, run, steps, samples);
      var e := FirstStop(stop, 1, |steps|);
      assert k == |steps| || stop(k);
      assert forall j :: 1 <= j < k ==> !stop(j);
      assert e == |steps| || stop(e);
      assert forall j :: 1 <= j < e ==> !stop(j);
    }
  }

  /** After `n` iterations the run, output, NaN and carrier lists have one
      entry per run and the polarization lists one fewer; the counter is 0
      after the first run; a carrier pass implies a NaN pass. */
  lemma LogShape(s: Settings, run: int -> RunRecord, steps: seq<int>, samples: nat, n: nat)
    requires n <= |steps| && UniformOracle(run, samples)
    ensures var log := Unrolled(s, run, steps, samples, n);
      && |log.runs| == n && |log.outputs| == n && |log.nanCheck| == n && |log.ehCheck| == n
      && |log.polSqCheck| == |log.polXCheck| == (if n == 0 then 0 else n - 1)
      && (n <= 1 ==> log.counter == 0)
      && (forall i :: 0 <= i < n ==> log.ehCheck[i] ==> log.nanCheck[i])
  {
  }

  /** What iteration `i` (from 0) appends to the log, in terms of the log
      before it: the loop body. */
  lemma UnrolledStep(s: Settings, run: int -> RunRecord, steps: seq<int>, samples: nat, i: nat)
    requires i < |steps| && UniformOracle(run, samples)
    ensures var prev := Unrolled(s, run, steps, samples, i);
      var next := Unrolled(s, run, steps, samples, i + 1);
      var rec := run(steps[i]);
      && next.runs == prev.runs + [RunSpecOf(s, steps[i])]
      && next.outputs == prev.outputs + [Sanitized(rec)]
      && next.nanCheck == prev.nanCheck + [Clean(rec)]
      && next.ehCheck == prev.ehCheck + [Clean(rec) && ElectronConservationTest(rec.ratioCarriers, s.tolEh)]
      && (i == 0 ==> next.polSqCheck == [] && next.polXCheck == [] && next.counter == 0 && next.printed == None)
      && (i > 0 ==>
            && Shaped(next.outputs[i].polarization, samples)
            && Shaped(next.outputs[i - 1].polarization, samples)
            && var a := AnalysePol(next.outputs, next.ehCheck, prev.counter, s.tolPol, s.field);
               && next.polSqCheck == prev.polSqCheck + [a.polSq]
               && next.polXCheck == prev.polXCheck + [a.polX]
               && next.counter == a.counter
               && next.printed == if a.counter == 2 then Some((steps[i], steps[i - 1])) else None)
    ensures i > 0 ==>
      var prev := Unrolled(s, run, steps, samples, i);
      var next := Unrolled(s, run, steps, samples, i + 1);
      && next.counter <= prev.counter + 1
      && (next.counter == prev.counter + 1 ==> next.polSqCheck[i - 1] && next.polXCheck[i - 1])
  {
    assert steps[..i + 1][..i] == steps[..i];
    var next := Unrolled(s, run, steps, samples, i + 1);
    if i > 0 {
      assert next.outputs[i] == Sanitized(run(steps[..i + 1][i]));
      assert next.outputs[i - 1] == Sanitized(run(steps[..i + 1][i - 1]));
      var v := Verdicts(s, run, steps, samples, i + 1);
      assert v[..|v| - 1] == Verdicts(s, run, steps, samples, i);
    }
  }

  /** Number of comparisons in which both polarization tests passed. */
  function Passes(sq: seq<bool>, x: seq<bool>): nat
    requires |sq| == |x|
  {
    if sq == [] then 0
    else Passes(sq[..|sq| - 1], x[..|x| - 1]) + (if sq[|sq| - 1] && x[|x| - 1] then 1 else 0)
  }

  /** The counter never exceeds the number of comparisons that passed, nor the
      number of comparisons made; so the earliest stop is after the third run. */
  lemma {:induction false} CounterBounded(s: Settings, run: int -> RunRecord, steps: seq<int>, samples: nat, n: nat)
    requires n <= |steps| && UniformOracle(run, samples)
    ensures var log := Unrolled(s, run, steps, samples, n);
      && log.counter <= Passes(log.polSqCheck, log.polXCheck)
      && log.counter <= |log.polSqCheck|
  {
    var log := Unrolled(s, run, steps, samples, n);
    if n >= 2 {
      CounterBounded(s, run, steps, samples, n - 1);
      UnrolledStep(s, run, steps, samples, n - 1);
      var prev := Unrolled(s, run, steps, samples, n - 1);
      PassesSnoc(prev.polSqCheck, prev.polXCheck, log.polSqCheck[n - 2], log.polXCheck[n - 2]);
    }
    LogShape(s, run, steps, samples, n);
    PassesBounded(log.polSqCheck, log.polXCheck);
  }

  lemma PassesSnoc(sq: seq<bool>, x: seq<bool>, b: bool, c: bool)
    requires |sq| == |x|
    ensures Passes(sq + [b], x + [c]) == Passes(sq, x) + (if b && c then 1 else 0)
  {
    assert (sq + [b])[..|sq|] == sq && (x + [c])[..|x|] == x;
  }

  /** At most one pass per comparison. */
  lemma {:induction false} PassesBounded(sq: seq<bool>, x: seq<bool>)
    requires |sq| == |x|
    ensures Passes(sq, x) <= |sq|
  {
    if sq != [] {
      PassesBounded(sq[..|sq| - 1], x[..|x| - 1]);
    }
  }


  /** When the loop breaks, the comparison just made passed both tests and
      what is printed is the current time step and the one before it. */
  lemma ConvergedRunEndsWithPass(s: Settings, run: int -> RunRecord, steps: seq<int>, samples: nat)
    requires UniformOracle(run, samples)
    requires Converge(s, run, steps, samples).counter == 2
    ensures var k := Executed(s, run, steps, samples);
      var log := Converge(s, run, steps, samples);
      && 3 <= k <= |steps|
      && log.polSqCheck[k - 2] && log.polXCheck[k - 2]
      && log.printed == Some((steps[k - 1], steps[k - 2]))
  {
    ConvergeStopsAtFirstStreakOfTwo(s, run, steps, samples);
    var k := Executed(s, run, steps, samples);
    var log := Unrolled(s, run, steps, samples, k);
    assert log.counter == 2;
    CounterBounded(s, run, steps, samples, k);
    LogShape(s, run, steps, samples, k);
    assert k >= 3;
    var prev := Unrolled(s, run, steps, samples, k - 1);
    assert prev.counter != 2;
    UnrolledStep(s, run, steps, samples, k - 1);
    var a := AnalysePol(log.outputs, log.ehCheck, prev.counter, s.tolPol, s.field);
    assert log.counter == a.counter;
    assert a.counter == prev.counter + 1;
  }

  /** When the loop runs out of candidates without a streak of two, nothing is
      printed. */
  lemma ExhaustedPrintsNothing(s: Settings, run: int -> RunRecord, steps: seq<int>, samples: nat)
    requires UniformOracle(run, samples)
    requires Converge(s, run, steps, samples).counter != 2
    ensures Executed(s, run, steps, samples) == |steps|
    ensures Converge(s, run, steps, samples).printed == None
  {
    ConvergeStopsAtFirstStreakOfTwo(s, run, steps, samples);
  }

  // ---------------------------------------------------------------------------
  // The controller object
  // ---------------------------------------------------------------------------

  /** YamboRTStep_Optimize: the fields the procedure reads and updates. */
  class StepOptimizer {
    var yin: Deck
    const refTime: real
    const tStepMax: int
    const tStepIncrease: int
    var nSimulations: int
    const tolEh: real
    const tolPol: real
    var timeSteps: seq<int>
    var tStepsMinMax: (int, int)
    var neTime: real
    var rtOutput: seq<RunRecord>
    var dipFolder: string

    /** The settings of the constructor (the rest of `__init__` is `Optimize`). */
    constructor (yin: Deck, refTime: real, tStepMax: int, tStepIncrease: int, nSimulations: int, tolEh: real, tolPol: real)
      ensures this.yin == yin && this.refTime == refTime && this.tStepMax == tStepMax
      ensures this.tStepIncrease == tStepIncrease && this.nSimulations == nSimulations
      ensures this.tolEh == tolEh && this.tolPol == tolPol
      ensures timeSteps == [] && rtOutput == []
    {
      this.yin := yin;
      this.refTime := refTime;
      this.tStepMax := tStepMax;
      this.tStepIncrease := tStepIncrease;
      this.nSimulations := nSimulations;
      this.tolEh := tolEh;
      this.tolPol := tolPol;
      timeSteps := [];
      tStepsMinMax := (tStepMax, tStepMax);
      neTime := 0.0;
      rtOutput := [];
      dipFolder := "";
    }

    /** The rest of the constructor: the divisibility check, the dipoles, the
        schedule and the convergence loop. `dipolesPresent` says whether the
        dipole database already exists; `dipolesRun` whether the engine was
        asked to compute it. */
    method Optimize(run: int -> RunRecord, dipolesPresent: bool, ghost samples: nat)
      returns (r: Result<Log, ConfigError>, dipolesRun: bool)
      requires UniformOracle(run, samples)
      modifies this`dipFolder, this`timeSteps, this`nSimulations, this`tStepsMinMax, this`neTime, this`yin,
               this`rtOutput
      ensures CheckIncrement(tStepMax, tStepIncrease).Some? ==>
        && r == Err(CheckIncrement(tStepMax, tStepIncrease).value)
        && !dipolesRun
        && unchanged(this)
      ensures CheckIncrement(tStepMax, tStepIncrease).None? ==>
        && dipolesRun == !dipolesPresent
        && dipFolder == DipolesFolder
        && var sch := ScheduleOf(old(yin), refTime, tStepMax, tStepIncrease, old(nSimulations));
           && (sch.Err? ==> r == Err(sch.error))
           && (sch.Ok? ==>
                 && timeSteps == sch.value.timeSteps
                 && yin == ScheduledDeck(old(yin), sch.value.lcmFs, sch.value.neTime)
                 && r == Ok(Converge(Settings(yin, DirectionOf(yin), tolEh, tolPol, StepParam, StepUnits),
                                     run, sch.value.timeSteps, samples))
                 && rtOutput == r.value.outputs
                 && nSimulations == |r.value.outputs|)
    {
      var check := CheckIncrement(tStepMax, tStepIncrease);
      if check.Some? {
        return Err(check.value), false;
      }
      dipolesRun := ComputeDipoles(dipolesPresent);
      var conv := FindValues();
      if conv.Err? {
        return Err(conv.error), dipolesRun;
      }
      var log := RunConvergence(run, StepParam, StepUnits, samples);
      r := Ok(log);
    }

    /** COMPUTE_dipoles: the engine is asked for the dipoles only when their
        database is not there yet. */
    method ComputeDipoles(dipolesPresent: bool) returns (invoked: bool)
      modifies this`dipFolder
      ensures invoked == !dipolesPresent
      ensures dipFolder == DipolesFolder
    {
      invoked := !dipolesPresent;
      dipFolder := DipolesFolder;
    }

    /** FIND_values: sets the time steps, their number, the extreme steps, the
        simulated duration and three deck entries. */
    method FindValues() returns (conv: Result<seq<int>, ConfigError>)
      modifies this`timeSteps, this`nSimulations, this`tStepsMinMax, this`neTime, this`yin
      ensures var sch := ScheduleOf(old(yin), refTime, tStepMax, tStepIncrease, old(nSimulations));
        && (sch.Err? ==> conv == Err(sch.error))
        && (sch.Ok? ==>
              && conv == Ok(sch.value.conv)
              && timeSteps == sch.value.timeSteps && nSimulations == sch.value.nSimulations
              && tStepsMinMax == sch.value.tStepsMinMax && neTime == sch.value.neTime
              && yin == ScheduledDeck(old(yin), sch.value.lcmFs, sch.value.neTime))
      ensures conv.Ok? ==> HasDirection(yin)
      ensures dipFolder == old(dipFolder)
    {
      var settling := Settling(yin);
      if settling.Err? {
        return Err(settling.error);
      }
      if !HasDirection(yin) {
        return Err(MissingFieldDirection);
      }
      DistinctNames();
      conv := ScheduleSteps(settling.value);
    }

    /** The steps, the field start and the duration, once the settling time
        of the field is known. */
    method ScheduleSteps(settling: Option<real>) returns (conv: Result<seq<int>, ConfigError>)
      modifies this`timeSteps, this`nSimulations, this`tStepsMinMax, this`neTime, this`yin
      ensures var sch := StepSchedule(settling, refTime, tStepMax, tStepIncrease, old(nSimulations));
        && (sch.Err? ==> conv == Err(sch.error))
        && (sch.Ok? ==>
              && conv == Ok(sch.value.conv)
              && timeSteps == sch.value.timeSteps && nSimulations == sch.value.nSimulations
              && tStepsMinMax == sch.value.tStepsMinMax && neTime == sch.value.neTime
              && yin == ScheduledDeck(old(yin), sch.value.lcmFs, sch.value.neTime))
    {
      var steps := SetTimeSteps();
      if steps == [] {
        return Err(NoCandidates);
      }
      var lcmFs := AttoToFemto(LcmAll(steps));
      StartField(lcmFs);
      if settling.None? {
        return Err(UnknownFieldKind);
      }
      var total := lcmFs + settling.value + refTime;
      SetDuration(lcmFs, total);
      conv := Ok([steps[0]] + steps);
    }

    /** The candidate steps of FIND_values, their number and the extreme steps. */
    method SetTimeSteps() returns (steps: seq<int>)
      modifies this`timeSteps, this`nSimulations, this`tStepsMinMax
      ensures steps == Candidates(tStepMax, tStepIncrease, old(nSimulations))
      ensures timeSteps == steps && nSimulations == |steps|
      ensures tStepsMinMax == (tStepMax, StepAfter(tStepMax, tStepIncrease, |steps| - 1))
    {
      steps := Candidates(tStepMax, tStepIncrease, nSimulations);
      timeSteps := steps;
      nSimulations := |steps|;
      tStepsMinMax := (tStepMax, StepAfter(tStepMax, tStepIncrease, nSimulations - 1));
    }

    /** The field starts at the least common multiple of the steps. */
    method StartField(lcmFs: real)
      modifies this`yin
      ensures yin == old(yin)["Field1_Tstart" := Quantity(lcmFs, "fs")]
    {
      yin := yin["Field1_Tstart" := Quantity(lcmFs, "fs")];
    }

    /** The simulated time and the cache interval. */
    method SetDuration(lcmFs: real, total: real)
      modifies this`yin, this`neTime
      ensures yin == old(yin)["NETime" := Quantity(total, "fs")]["IOCachetime" := Span(lcmFs, lcmFs, "fs")]
      ensures neTime == total
    {
      yin := yin["NETime" := Quantity(total, "fs")];
      neTime := total;
      yin := yin["IOCachetime" := Span(lcmFs, lcmFs, "fs")];
    }

    /** nan_test: flags a run with a NaN (in the polarization or the carrier
        difference) or an overflowing polarization entry, and overwrites the
        polarization in place so that it holds neither. */
    method NanTest(db: RunDatabase) returns (clean: bool)
      modifies db
      ensures clean == Clean(old(db.Record()))
      ensures db.polarization == Sanitize(old(db.polarization))
    {
      clean := true;
      ghost var p := db.polarization;
      ghost var nanSeen := PolHasNaN(db.polarization) || AnyNaN(db.diffCarriers);
      if PolHasNaN(db.polarization) || AnyNaN(db.diffCarriers) {
        db.polarization := PolNanToNum(db.polarization);
        clean := false;
      }
      TwoStepSanitize(p, nanSeen);
      if PolOverflows(db.polarization) {
        db.polarization := ZeroOverflow(db.polarization);
        clean := false;
      }
    }

    /** One pass of the loop body of `RUN_convergence`: writes and runs the
        input for the `i`-th step, sanitizes its output, runs the two checks
        on it and, from the second run on, compares the last two runs. */
    method ConvergenceStep(run: int -> RunRecord, s: Settings, steps: seq<int>, ghost samples: nat,
                           i: nat, log: Log) returns (next: Log)
      requires UniformOracle(run, samples) && i < |steps|
      requires log == Unrolled(s, run, steps, samples, i)
      ensures next == Unrolled(s, run, steps, samples, i + 1)
    {
      UnrolledStep(s, run, steps, samples, i);
      var ts := steps[i];
      var filename := RunFileName(s.param, ts, s.units);
      var folder := RunFolder(filename);
      var yrun := InputToRun(s.yin, s.param, ts, s.units);
      var db := new RunDatabase(run(ts));
      var clean := NanTest(db);
      var outputs := log.outputs + [db.Record()];
      var eh := if clean then ElectronConservationTest(db.ratioCarriers, s.tolEh) else false;
      var ehCheck := log.ehCheck + [eh];
      var polSqCheck := log.polSqCheck;
      var polXCheck := log.polXCheck;
      var counter: nat := 0;
      if i > 0 {
        var v := AnalysePol(outputs, ehCheck, log.counter, s.tolPol, s.field);
        polSqCheck := polSqCheck + [v.polSq];
        polXCheck := polXCheck + [v.polX];
        counter := v.counter;
      }
      var printed := if counter == 2 then Some((ts, steps[i - 1])) else None;
      next := Log(log.runs + [RunSpec(filename, folder, yrun)], outputs, log.nanCheck + [clean], ehCheck,
                  polSqCheck, polXCheck, counter, printed);
    }

    /** The loop of `RUN_convergence`: one run per candidate step, largest
        first, until two consecutive comparisons pass or the steps run out. */
    method ConvergenceLoop(run: int -> RunRecord, s: Settings, steps: seq<int>, ghost samples: nat)
      returns (log: Log)
      requires UniformOracle(run, samples)
      ensures log == Converge(s, run, steps, samples)
    {
      log := Log([], [], [], [], [], [], 0, None);
      var i := 0;
      while i < |steps| && log.counter != 2
        invariant 0 <= i <= |steps|
        invariant log == Unrolled(s, run, steps, samples, i)
        invariant i == 0 ==> log.counter == 0
        invariant NoStreakBefore(s, run, steps, samples, i)
      {
        NoStreakExtends(s, run, steps, samples, i);
        log := ConvergenceStep(run, s, steps, samples, i, log);
        i := i + 1;
      }
      ExecutedIs(s, run, steps, samples, i);
    }

    /** RUN_convergence: runs the candidates in order and stops once the streak
        counter reaches 2. Only `nSimulations` and `rtOutput` are kept on the
        object; the check lists are returned in the log. */
    method RunConvergence(run: int -> RunRecord, param: string, units: string, ghost samples: nat)
      returns (log: Log)
      requires UniformOracle(run, samples) && HasDirection(yin)
      modifies this`nSimulations, this`rtOutput
      ensures log == Converge(Settings(yin, DirectionOf(yin), tolEh, tolPol, param, units), run, timeSteps, samples)
      ensures nSimulations == |log.outputs| && rtOutput == log.outputs
      ensures dipFolder == old(dipFolder) && timeSteps == old(timeSteps) && yin == old(yin)
    {
      var s := Settings(yin, DirectionOf(yin), tolEh, tolPol, param, units);
      var steps := timeSteps;
      log := ConvergenceLoop(run, s, steps, samples);
      KeepOutputs(log.outputs);
      assert s == Settings(yin, DirectionOf(yin), tolEh, tolPol, param, units) && steps == timeSteps;
    }

    /** The two fields RUN_convergence leaves on the object. */
    method KeepOutputs(outputs: seq<RunRecord>)
      modifies this`nSimulations, this`rtOutput
      ensures nSimulations == |outputs| && rtOutput == outputs
    {
      nSimulations := |outputs|;
      rtOutput := outputs;
    }
  }
}
