/** The loader of the Basis Mixer's precomputed predictions
    (`load_bm_preds`): it moves the onsets so that the piece starts at 0,
    post-processes the five expressive parameters (or replaces them by a
    deadpan performance), and hands the columns to the positional
    aggregator.

    The prediction file is taken already parsed: its nine columns are the
    nine fields of a `NoteTable`, in file order. numpy's square root and real
    power are parameters `sqrt` and `pow`; laws that need them to behave like
    the real operations say so in their requires. */
module PerformanceCodec {
  import opened Wrappers
  import opened Stats
  import opened ScoreDict

  // ---------------------------------------------------------------------
  // Configuration, parameters, errors

  /** The `'vel_trend'` entry of the post-processing configuration. */
  datatype TrendOptions = TrendOptions(exagExp: Option<real>)

  /** The `'vel_dev'`, `'log_bpr'`, `'timing'` and `'log_art'` entries. */
  datatype AffineOptions = AffineOptions(std: Option<real>, mean: Option<real>)

  /** The post-processing configuration: a missing key is `None`. */
  datatype PostProcessConfig = PostProcessConfig(
    velTrend: Option<TrendOptions>,
    velDev: Option<AffineOptions>,
    logBpr: Option<AffineOptions>,
    timing: Option<AffineOptions>,
    logArt: Option<AffineOptions>)

  /** The five expressive parameters, one entry per note. */
  datatype Expressive = Expressive(
    velTrend: seq<real>,
    velDev: seq<real>,
    logBpr: seq<real>,
    timing: seq<real>,
    logArt: seq<real>)
  {
    predicate Fits(n: nat) {
      |velTrend| == n && |velDev| == n && |logBpr| == n && |timing| == n && |logArt| == n
    }
  }

  datatype Column = VelTrend | VelDev | LogBpr | Timing | LogArt

  /** Where the source would raise or silently produce NaN/inf. */
  datatype LoadError =
    | EmptyTable              // no notes: the source never returns for these
    | ConstantColumn(Column)  // min-max width or standard deviation 0: 0/0
    | ZeroMeanTrend           // the (exaggerated) trend has mean 0: x/0

  /** `sqrt` returns the non-negative square root of every non-negative real. */
  ghost predicate IsSqrt(sqrt: real -> real) {
    forall v :: v >= 0.0 ==> sqrt(v) >= 0.0 && sqrt(v) * sqrt(v) == v
  }

  /** `x ** e` keeps [0, 1] non-negative and 1 positive, as the real power
      does for every exponent `e >= 0`. (For `e < 0`, `0.0 ** e` is inf.) */
  ghost predicate ExponentBehaves(pow: (real, real) -> real, e: real) {
    (forall x :: 0.0 <= x <= 1.0 ==> pow(x, e) >= 0.0) && pow(1.0, e) > 0.0
  }

  /** A column that is not constant. */
  predicate Varies(s: seq<real>) {
    exists i :: 0 <= i < |s| && s[i] != s[0]
  }

  /** The mean and standard deviation a standardized parameter ends up with. */
  function TargetMean(opts: Option<AffineOptions>): real {
    match opts
    case None => 0.0
    case Some(o) => o.mean.GetOr(0.0)
  }

  function TargetStd(opts: Option<AffineOptions>): real {
    match opts
    case None => 1.0
    case Some(o) => o.std.GetOr(1.0)
  }

  // ---------------------------------------------------------------------
  // Onsets start at 0

  /** `onsets -= onsets.min()`: the smallest onset becomes 0, no onset is
      negative, and the distances between onsets are kept. */
  function ShiftToZero(onsets: seq<real>): (r: seq<real>)
    requires |onsets| > 0
    ensures |r| == |onsets|
    ensures Min(r) == 0.0
    ensures forall i :: 0 <= i < |r| ==> r[i] >= 0.0
    ensures forall i, j :: 0 <= i < |r| && 0 <= j < |r| ==> r[i] - r[j] == onsets[i] - onsets[j]
  {
    ShiftByMin(onsets);
    Shift(onsets, Min(onsets))
  }

  /** The in-place subtraction of line 51. */
  method ShiftOnsets(a: array<real>)
    requires a.Length > 0
    modifies a
    ensures a[..] == ShiftToZero(old(a[..]))
  {
    ghost var before := a[..];
    var lo := Min(a[..]);
    var i := 0;
    while i < a.Length
      invariant 0 <= i <= a.Length
      invariant forall j :: 0 <= j < i ==> a[j] == before[j] - lo
      invariant forall j :: i <= j < a.Length ==> a[j] == before[j]
    {
      a[i] := a[i] - lo;
      i := i + 1;
    }
    assert a[..] == Shift(before, lo);
  }

  // ---------------------------------------------------------------------
  // Velocity trend: min-max, optional exaggeration, divide by the mean

  /** `vel_trend ** exag_exp`, element-wise. */
  function Exaggerate(a: seq<real>, e: real, pow: (real, real) -> real): (r: seq<real>)
    ensures |r| == |a|
  {
    seq(|a|, i requires 0 <= i < |a| => pow(a[i], e))
  }

  /** The velocity trend of lines 57-63. It fails on a constant column (the
      min-max width is 0) and on an exaggerated trend of mean 0; otherwise it
      has mean 1. Without exaggeration the mean is never 0. */
  function VelocityTrend(raw: seq<real>, opts: Option<TrendOptions>, pow: (real, real) -> real)
    : (r: Result<seq<real>, LoadError>)
    requires |raw| > 0
    ensures r == Err(ConstantColumn(VelTrend)) <==> Min(raw) == Max(raw)
    ensures r.Err? ==> r.error == ConstantColumn(VelTrend) || r.error == ZeroMeanTrend
    ensures r.Ok? ==> |r.value| == |raw| && Mean(r.value) == 1.0
    ensures opts.None? ==> (r.Ok? <==> Min(raw) < Max(raw))
  {
    if Min(raw) == Max(raw) then Err(ConstantColumn(VelTrend))
    else
      var n := MinMaxNormalize(raw);
      var v := match opts
        case None => n
        case Some(o) => Exaggerate(n, o.exagExp.GetOr(1.0), pow);
      NormalizedMeanPositive(raw);
      if Mean(v) == 0.0 then Err(ZeroMeanTrend) else Ok(DivideByMean(v))
  }

  /** The min-max normalised column contains a 1 and nothing negative, so its
      mean is positive. */
  lemma NormalizedMeanPositive(raw: seq<real>)
    requires |raw| > 0 && Min(raw) < Max(raw)
    ensures Mean(MinMaxNormalize(raw)) > 0.0
  {
    var r := MinMaxNormalize(raw);
    var k :| 0 <= k < |raw| && raw[k] == Max(raw);
    MeanPositive(r, k);
  }

  /** `vel_trend /= vel_trend.mean()` on the array holding the trend. */
  method DivideByMeanInPlace(a: array<real>)
    requires a.Length > 0 && Mean(a[..]) != 0.0
    modifies a
    ensures a[..] == DivideByMean(old(a[..]))
  {
    ghost var before := a[..];
    var m := Mean(a[..]);
    var i := 0;
    while i < a.Length
      invariant 0 <= i <= a.Length
      invariant forall j :: 0 <= j < i ==> a[j] == before[j] / m
      invariant forall j :: i <= j < a.Length ==> a[j] == before[j]
    {
      a[i] := a[i] / m;
      i := i + 1;
    }
    assert a[..] == DivideByMean(before);
  }

  /** Lines 57-63 as statements: normalise, maybe exaggerate, divide in place. */
  method ComputeVelocityTrend(raw: seq<real>, opts: Option<TrendOptions>, pow: (real, real) -> real)
    returns (r: Result<seq<real>, LoadError>)
    requires |raw| > 0
    ensures r == VelocityTrend(raw, opts, pow)
  {
    if Min(raw) == Max(raw) {
      return Err(ConstantColumn(VelTrend));
    }
    var velTrend := MinMaxNormalize(raw);
    if opts.Some? {
      var exagExp := opts.value.exagExp.GetOr(1.0);
      velTrend := Exaggerate(velTrend, exagExp, pow);
    }
    if Mean(velTrend) == 0.0 {
      return Err(ZeroMeanTrend);
    }
    var a := new real[|velTrend|](i requires 0 <= i < |velTrend| => velTrend[i]);
    assert a[..] == velTrend;
    DivideByMeanInPlace(a);
    return Ok(a[..]);
  }

  /** A column varies exactly when its minimum is below its maximum. */
  lemma MinBelowMaxIffVaries(s: seq<real>)
    requires |s| > 0
    ensures Min(s) < Max(s) <==> Varies(s)
  {
    if Varies(s) {
      var i :| 0 <= i < |s| && s[i] != s[0];
      assert Min(s) <= s[i] <= Max(s) && Min(s) <= s[0] <= Max(s);
    } else {
      assert Min(s) in s && Max(s) in s;
    }
  }

  /** With no exaggeration, or with an exponent that behaves like a real
      power, the trend is defined exactly when the raw column varies. */
  lemma TrendDefined(raw: seq<real>, opts: Option<TrendOptions>, pow: (real, real) -> real)
    requires |raw| > 0
    requires opts.Some? ==> ExponentBehaves(pow, opts.value.exagExp.GetOr(1.0))
    ensures VelocityTrend(raw, opts, pow).Ok? <==> Varies(raw)
  {
    MinBelowMaxIffVaries(raw);
    if opts.Some? && Min(raw) < Max(raw) {
      var e := opts.value.exagExp.GetOr(1.0);
      var n := MinMaxNormalize(raw);
      var v := Exaggerate(n, e, pow);
      var k :| 0 <= k < |raw| && raw[k] == Max(raw);
      assert v[k] == pow(1.0, e) > 0.0;
      forall i | 0 <= i < |v| ensures v[i] >= 0.0 {
        assert 0.0 <= n[i] <= 1.0;
      }
      MeanPositive(v, k);
    }
  }

  /** A missing `exag_exp` means exponent 1.0, which changes nothing when
      `x ** 1.0 == x`: the entry `{'vel_trend': {}}` acts like no entry. */
  lemma DefaultExponentIsIdentity(raw: seq<real>, pow: (real, real) -> real)
    requires |raw| > 0
    requires forall x :: pow(x, 1.0) == x
    ensures VelocityTrend(raw, Some(TrendOptions(None)), pow) == VelocityTrend(raw, None, pow)
  {
    if Min(raw) < Max(raw) {
      var n := MinMaxNormalize(raw);
      assert Exaggerate(n, 1.0, pow) == n;
    }
  }

  /** Without exaggeration the trend is non-negative and orders the notes as
      the raw column does. */
  lemma PlainTrendKeepsOrder(raw: seq<real>, pow: (real, real) -> real)
    requires |raw| > 0
    ensures var r := VelocityTrend(raw, None, pow);
      r.Ok? ==> && (forall i :: 0 <= i < |raw| ==> r.value[i] >= 0.0)
                && forall i, j :: 0 <= i < |raw| && 0 <= j < |raw| ==>
                     (raw[i] <= raw[j] <==> r.value[i] <= r.value[j])
  {
    if Min(raw) < Max(raw) {
      var n := MinMaxNormalize(raw);
      var m := Mean(n);
      NormalizedMeanPositive(raw);
      var r := DivideByMean(n);
      forall i | 0 <= i < |raw| ensures r[i] >= 0.0 {
        PositiveQuotient(n[i], n[i], m);
      }
      forall i, j | 0 <= i < |raw| && 0 <= j < |raw|
        ensures raw[i] <= raw[j] <==> r[i] <= r[j]
      {
        PositiveQuotient(n[i], n[j], m);
      }
    }
  }

  /** Dividing by a positive number keeps signs and order. */
  lemma PositiveQuotient(x: real, y: real, m: real)
    requires m > 0.0
    ensures x >= 0.0 ==> x / m >= 0.0
    ensures x <= y <==> x / m <= y / m
  {
  }

  // ---------------------------------------------------------------------
  // The standardized parameters

  /** Lines 66-95 for one parameter: standardize with deviation
      `sqrt(variance)`, then, when the configuration has an entry for it,
      rescale by `std` (default 1.0) and recentre on `mean` (default 0.0).
      It fails on a zero deviation; otherwise the result has the configured
      mean, and, with a true square root, the configured spread. */
  function Standardized(raw: seq<real>, opts: Option<AffineOptions>, sqrt: real -> real, col: Column)
    : (r: Result<seq<real>, LoadError>)
    requires |raw| > 0
    ensures r.Err? ==> r.error == ConstantColumn(col)
    ensures r.Ok? ==> |r.value| == |raw| && Mean(r.value) == TargetMean(opts)
    ensures r.Ok? && IsSqrt(sqrt) ==> Variance(r.value) == TargetStd(opts) * TargetStd(opts)
  {
    var sd := sqrt(Variance(raw));
    if sd == 0.0 then Err(ConstantColumn(col))
    else
      var z := Standardize(raw, sd);
      StandardizeUnitVariance(raw, sqrt);
      match opts
      case None => Ok(z)
      case Some(o) => Ok(Rescale(z, o.std.GetOr(1.0), o.mean.GetOr(0.0)))
  }

  /** With a true square root the deviation squares to the variance. */
  lemma StandardizeUnitVariance(raw: seq<real>, sqrt: real -> real)
    requires |raw| > 0
    ensures IsSqrt(sqrt) ==> sqrt(Variance(raw)) * sqrt(Variance(raw)) == Variance(raw)
  {
    VarianceZero(raw);
  }

  /** The statements of lines 66-71 (and of the three blocks like it). */
  method ComputeStandardized(raw: seq<real>, opts: Option<AffineOptions>, sqrt: real -> real, col: Column)
    returns (r: Result<seq<real>, LoadError>)
    requires |raw| > 0
    ensures r == Standardized(raw, opts, sqrt, col)
  {
    var sd := sqrt(Variance(raw));
    if sd == 0.0 {
      return Err(ConstantColumn(col));
    }
    var param := Standardize(raw, sd);
    if opts.Some? {
      var std := opts.value.std.GetOr(1.0);
      var mean := opts.value.mean.GetOr(0.0);
      param := Rescale(param, std, mean);
    }
    return Ok(param);
  }

  /** With a true square root a parameter is defined exactly when its raw
      column varies. */
  lemma StandardizedDefined(raw: seq<real>, opts: Option<AffineOptions>, sqrt: real -> real, col: Column)
    requires |raw| > 0 && IsSqrt(sqrt)
    ensures Standardized(raw, opts, sqrt, col).Ok? <==> Varies(raw)
  {
    VarianceZero(raw);
    var v := Variance(raw);
    ZeroRoot(sqrt(v), v);
  }

  lemma ZeroRoot(s: real, v: real)
    requires s * s == v
    ensures s == 0.0 <==> v == 0.0
  {
    SquareSign(s);
  }

  /** An entry without `std` and `mean` leaves the standardized parameter as
      it is. */
  lemma DefaultAffineIsIdentity(raw: seq<real>, sqrt: real -> real, col: Column)
    requires |raw| > 0
    ensures Standardized(raw, Some(AffineOptions(None, None)), sqrt, col)
         == Standardized(raw, None, sqrt, col)
  {
    var sd := sqrt(Variance(raw));
    if sd != 0.0 {
      RescaleDefaultsIdentity(Standardize(raw, sd));
    }
  }

  // ---------------------------------------------------------------------
  // The whole post-processing

  /** The expressive parameters of the non-deadpan branch (lines 53-95), in
      source order; the first degenerate column is the error. */
  function Transform(t: NoteTable, cfg: PostProcessConfig, pow: (real, real) -> real, sqrt: real -> real)
    : (r: Result<Expressive, LoadError>)
    requires t.WellFormed() && |t.onset| > 0
    ensures r.Err? ==> r.error != EmptyTable
    ensures r.Ok? ==> r.value.Fits(|t.onset|)
    ensures r.Ok? ==> && Mean(r.value.velTrend) == 1.0
                      && Mean(r.value.velDev) == TargetMean(cfg.velDev)
                      && Mean(r.value.logBpr) == TargetMean(cfg.logBpr)
                      && Mean(r.value.timing) == TargetMean(cfg.timing)
                      && Mean(r.value.logArt) == TargetMean(cfg.logArt)
  {
    var velTrend := VelocityTrend(t.velTrend, cfg.velTrend, pow);
    var velDev := Standardized(t.velDev, cfg.velDev, sqrt, VelDev);
    var logBpr := Standardized(t.logBpr, cfg.logBpr, sqrt, LogBpr);
    var timing := Standardized(t.timing, cfg.timing, sqrt, Timing);
    var logArt := Standardized(t.logArt, cfg.logArt, sqrt, LogArt);
    if velTrend.Err? then Err(velTrend.error)
    else if velDev.Err? then Err(velDev.error)
    else if logBpr.Err? then Err(logBpr.error)
    else if timing.Err? then Err(timing.error)
    else if logArt.Err? then Err(logArt.error)
    else Ok(Expressive(velTrend.value, velDev.value, logBpr.value, timing.value, logArt.value))
  }

  /** With a true square root and a well-behaved exponent, post-processing
      succeeds exactly when none of the five raw parameter columns is
      constant. */
  lemma TransformDefined(t: NoteTable, cfg: PostProcessConfig, pow: (real, real) -> real, sqrt: real -> real)
    requires t.WellFormed() && |t.onset| > 0 && IsSqrt(sqrt)
    requires cfg.velTrend.Some? ==> ExponentBehaves(pow, cfg.velTrend.value.exagExp.GetOr(1.0))
    ensures Transform(t, cfg, pow, sqrt).Ok? <==>
      Varies(t.velTrend) && Varies(t.velDev) && Varies(t.logBpr) && Varies(t.timing) && Varies(t.logArt)
  {
    TrendDefined(t.velTrend, cfg.velTrend, pow);
    StandardizedDefined(t.velDev, cfg.velDev, sqrt, VelDev);
    StandardizedDefined(t.logBpr, cfg.logBpr, sqrt, LogBpr);
    StandardizedDefined(t.timing, cfg.timing, sqrt, Timing);
    StandardizedDefined(t.logArt, cfg.logArt, sqrt, LogArt);
  }

  /** The statements of lines 53-95. */
  method ComputeExpressive(t: NoteTable, cfg: PostProcessConfig, pow: (real, real) -> real, sqrt: real -> real)
    returns (r: Result<Expressive, LoadError>)
    requires t.WellFormed() && |t.onset| > 0
    ensures r == Transform(t, cfg, pow, sqrt)
  {
    var velTrend := ComputeVelocityTrend(t.velTrend, cfg.velTrend, pow);
    if velTrend.Err? {
      return Err(velTrend.error);
    }
    var velDev := ComputeStandardized(t.velDev, cfg.velDev, sqrt, VelDev);
    if velDev.Err? {
      return Err(velDev.error);
    }
    var logBpr := ComputeStandardized(t.logBpr, cfg.logBpr, sqrt, LogBpr);
    if logBpr.Err? {
      return Err(logBpr.error);
    }
    var timing := ComputeStandardized(t.timing, cfg.timing, sqrt, Timing);
    if timing.Err? {
      return Err(timing.error);
    }
    var logArt := ComputeStandardized(t.logArt, cfg.logArt, sqrt, LogArt);
    if logArt.Err? {
      return Err(logArt.error);
    }
    return Ok(Expressive(velTrend.value, velDev.value, logBpr.value, timing.value, logArt.value));
  }

  /** The deadpan parameters of lines 97-104: trend 1, everything else 0. */
  function Deadpan(n: nat): (p: Expressive)
    ensures p.Fits(n)
    ensures forall i :: 0 <= i < n ==>
      && p.velTrend[i] == 1.0 && p.velDev[i] == 0.0 && p.logBpr[i] == 0.0
      && p.timing[i] == 0.0 && p.logArt[i] == 0.0
  {
    Expressive(Constant(n, 1.0), Constant(n, 0.0), Constant(n, 0.0), Constant(n, 0.0), Constant(n, 0.0))
  }

  /** The parameters either branch of line 53 produces. */
  function Parameters(t: NoteTable, deadpan: bool, cfg: PostProcessConfig,
                      pow: (real, real) -> real, sqrt: real -> real): (r: Result<Expressive, LoadError>)
    requires t.WellFormed() && |t.onset| > 0
    ensures r.Err? ==> r.error != EmptyTable
    ensures r.Ok? ==> r.value.Fits(|t.onset|)
  {
    if deadpan then Ok(Deadpan(|t.pitch|)) else Transform(t, cfg, pow, sqrt)
  }

  /** The columns handed to `_build_score_dict` (lines 106-108): the file's
      pitches, durations and melody flags with the given onsets and
      expressive parameters. */
  function Assemble(t: NoteTable, onsets: seq<real>, p: Expressive): (u: NoteTable)
    requires t.WellFormed() && |onsets| == |t.onset| && p.Fits(|t.onset|)
    ensures u.WellFormed()
  {
    NoteTable(t.pitch, onsets, t.duration, p.velTrend, p.velDev, p.logBpr, p.timing, p.logArt, t.melody)
  }

  /** `load_bm_preds` on parsed columns: a table with no notes is an error;
      a deadpan load of a non-empty parsed table always succeeds; a
      successful load has position 0 and no negative position. */
  function Load(t: NoteTable, deadpan: bool, cfg: PostProcessConfig,
                pow: (real, real) -> real, sqrt: real -> real): (r: Result<map<real, Position>, LoadError>)
    requires t.WellFormed()
    ensures r == Err(EmptyTable) <==> |t.onset| == 0
    ensures deadpan ==> (r.Ok? <==> |t.onset| > 0)
    ensures r.Ok? ==> 0.0 in r.value && forall u :: u in r.value ==> u >= 0.0
  {
    if |t.onset| == 0 then Err(EmptyTable)
    else
      var onsets := ShiftToZero(t.onset);
      match Parameters(t, deadpan, cfg, pow, sqrt)
      case Err(e) => Err(e)
      case Ok(p) =>
        var table := Assemble(t, onsets, p);
        ZeroShiftedKeys(table);
        Ok(ScoreDictOf(table))
  }

  /** The keys of a table whose onsets are zero-shifted: 0 is one, and none
      is negative. */
  lemma ZeroShiftedKeys(t: NoteTable)
    requires t.WellFormed() && |t.onset| > 0
    requires Min(t.onset) == 0.0 && forall i :: 0 <= i < |t.onset| ==> t.onset[i] >= 0.0
    ensures 0.0 in ScoreDictOf(t) && forall u :: u in ScoreDictOf(t) ==> u >= 0.0
  {
    ScoreDictKeys(t);
  }

  /** Lines 43-108 as statements, on the parsed file. */
  method LoadBmPreds(t: NoteTable, deadpan: bool, cfg: PostProcessConfig,
                     pow: (real, real) -> real, sqrt: real -> real)
    returns (r: Result<map<real, Position>, LoadError>)
    requires t.WellFormed()
    ensures r == Load(t, deadpan, cfg, pow, sqrt)
  {
    if |t.onset| == 0 {
      return Err(EmptyTable);
    }
    var onsets := new real[|t.onset|](i requires 0 <= i < |t.onset| => t.onset[i]);
    assert onsets[..] == t.onset;
    ShiftOnsets(onsets);
    var params: Result<Expressive, LoadError>;
    if !deadpan {
      params := ComputeExpressive(t, cfg, pow, sqrt);
    } else {
      var nNotes := |t.pitch|;
      params := Ok(Deadpan(nNotes));
    }
    if params.Err? {
      return Err(params.error);
    }
    var scoreDict := BuildScoreDict(Assemble(t, onsets[..], params.value));
    return Ok(scoreDict);
  }

  // ---------------------------------------------------------------------
  // What a load returns

  /** The positions of a load are the file's onsets moved by the smallest
      one: `v` is a key exactly when `v + min` is an onset of the file. */
  lemma LoadedKeys(t: NoteTable, deadpan: bool, cfg: PostProcessConfig,
                   pow: (real, real) -> real, sqrt: real -> real, u: real, v: real)
    requires t.WellFormed() && |t.onset| > 0 && v == u - Min(t.onset)
    requires Load(t, deadpan, cfg, pow, sqrt).Ok?
    ensures v in Load(t, deadpan, cfg, pow, sqrt).value <==> u in t.onset
  {
    var p := Parameters(t, deadpan, cfg, pow, sqrt).value;
    var table := Assemble(t, t.onset, p);
    ShiftedKeys(table, Min(t.onset), u, v);
    KeyIsOnset(table, u);
  }

  /** The zero-shift changes only the keys: the tuple a load stores under
      `v` is the one the unshifted onsets give under `u = v + min`, so the
      grouping and the IOIs do not depend on where the piece starts. */
  lemma LoadedPosition(t: NoteTable, deadpan: bool, cfg: PostProcessConfig,
                       pow: (real, real) -> real, sqrt: real -> real, u: real, v: real)
    requires t.WellFormed() && u in t.onset && v == u - Min(t.onset)
    requires Load(t, deadpan, cfg, pow, sqrt).Ok?
    ensures Parameters(t, deadpan, cfg, pow, sqrt).Ok?
    ensures var d := Load(t, deadpan, cfg, pow, sqrt).value;
      var original := ScoreDictOf(Assemble(t, t.onset, Parameters(t, deadpan, cfg, pow, sqrt).value));
      v in d && u in original && d[v] == original[u]
  {
    var p := Parameters(t, deadpan, cfg, pow, sqrt).value;
    var table := Assemble(t, t.onset, p);
    ShiftInvariance(table, Min(t.onset), u, v);
  }

  /** In a deadpan load every position has trend 1, log beat-period ratio 0,
      and zero velocity deviation, timing and articulation for each of its
      notes. */
  lemma DeadpanPositions(t: NoteTable, cfg: PostProcessConfig,
                         pow: (real, real) -> real, sqrt: real -> real, v: real)
    requires t.WellFormed() && |t.onset| > 0
    requires v in Load(t, true, cfg, pow, sqrt).value
    ensures var q := Load(t, true, cfg, pow, sqrt).value[v];
      && q.velTrend == 1.0 && q.logBpr == 0.0
      && (forall j :: 0 <= j < |q.velDev| ==> q.velDev[j] == 0.0)
      && (forall j :: 0 <= j < |q.timing| ==> q.timing[j] == 0.0)
      && (forall j :: 0 <= j < |q.logArt| ==> q.logArt[j] == 0.0)
  {
    var table := Assemble(t, ShiftToZero(t.onset), Deadpan(|t.pitch|));
    KeyIsOnset(table, v);
    PositionContents(table, v);
    UniformGroupMeans(table, v, 1.0, 0.0);
  }
}
