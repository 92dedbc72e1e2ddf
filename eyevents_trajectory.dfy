/**
 * The `Trajectory` class of modules/python/eyevents/trajectory.py: the
 * file name, the loaded frame `raw_df` and the working frame `df`, filled
 * by the stages the constructor runs in order. The CSV read is the
 * parameter `loaded`, the filters are `Preprocess.Filters` and the angular
 * projection is the parameter `angular`.
 */
module EyeventsTrajectory {
  import opened Common
  import opened Frames
  import opened ValuesChecker
  import opened EyeventsUtils
  import opened Preprocess

  /**
   * The dispatch of this class: the filter only for exactly `savgol`,
   * the rolling median for `med`/`median`, the rolling mean for any other
   * name.
   */
  function EyeDispatchOf(name: string): (m: SmoothingMethod)
    ensures m == SavitzkyGolay <==> name == "savgol"
    ensures m == RollingMedian <==> name == "med" || name == "median"
    ensures m == RollingMean <==> name !in ["savgol", "med", "median"]
  {
    if name == "savgol" then SavitzkyGolay
    else if name in ["med", "median"] then RollingMedian
    else RollingMean
  }

  /** The two dispatches agree exactly on the six names both spell out; any other name is smoothed differently. */
  lemma DispatchesAgree(name: string)
    ensures EyeDispatchOf(name) == DispatchOf(name) <==> name in ["med", "median", "avg", "average", "mean", "savgol"]
  {
  }

  /** Some row of `f` holds text under the first column labelled `key`. */
  predicate TextUnder(f: Frame, key: string)
    requires key in f.columns
  {
    var k := IndexOf(f.columns, key).value;
    exists i :: 0 <= i < |f.rows| && k < |f.rows[i]| && f.rows[i][k].Text?
  }

  /**
   * The exits of `calculate_angular_parameters` once `df` exists, in the
   * order its statements reach them: `df['time']` (KeyError) and its
   * `diff`, which subtracts text once there are two rows (TypeError);
   * `df.porx` (AttributeError), text minus the reference (TypeError) and
   * `d * wpix / wid` with the scalar `wid == 0` (ZeroDivisionError); then
   * the same for `pory` and `hei`.
   */
  function AngularCheck(f: Frame, s: GazeSettings): (o: Outcome)
    ensures o == Pass <==>
      "time" in f.columns && "porx" in f.columns && "pory" in f.columns &&
      !(|f.rows| >= 2 && TextUnder(f, "time")) && !TextUnder(f, "porx") && !TextUnder(f, "pory") &&
      s.size.0 != 0.0 && s.size.1 != 0.0
    ensures "time" !in f.columns ==> o == Fail(KeyError)
    ensures o == Fail(KeyError) <==> "time" !in f.columns
    ensures o == Fail(ZeroDivisionError) ==> s.size.0 == 0.0 || s.size.1 == 0.0
    ensures o == Fail(AttributeError) ==> "porx" !in f.columns || "pory" !in f.columns
    ensures o.Fail? ==> o.error in {KeyError, TypeError, AttributeError, ZeroDivisionError}
  {
    if "time" !in f.columns then Fail(KeyError)
    else if |f.rows| >= 2 && TextUnder(f, "time") then Fail(TypeError)
    else if "porx" !in f.columns then Fail(AttributeError)
    else if TextUnder(f, "porx") then Fail(TypeError)
    else if s.size.0 == 0.0 then Fail(ZeroDivisionError)
    else if "pory" !in f.columns then Fail(AttributeError)
    else if TextUnder(f, "pory") then Fail(TypeError)
    else if s.size.1 == 0.0 then Fail(ZeroDivisionError)
    else Pass
  }

  /** A frame with `time`, `porx` and `pory` but a zero screen size fails on the division, after the column reads. */
  lemma ZeroWidthIsZeroDivision(f: Frame, s: GazeSettings)
    requires "time" in f.columns && "porx" in f.columns
    requires !(|f.rows| >= 2 && TextUnder(f, "time")) && !TextUnder(f, "porx")
    requires s.size.0 == 0.0
    ensures AngularCheck(f, s) == Fail(ZeroDivisionError)
  {
  }

  class Trajectory {
    const settings: GazeSettings
    const path: string
    const name: string
    var rawDf: Option<Frame>
    var df: Option<Frame>

    /** Every loaded frame is rectangular. */
    predicate Valid()
      reads this
    {
      rawDf.Some? ==> Rectangular(rawDf.value)
    }

    /** The assignments of `__init__` before its stages: the name is exactly `get_shortname(path)`. */
    constructor (path: string, settings: GazeSettings)
      ensures Valid()
      ensures this.settings == settings && this.path == path && name == GetShortname(path)
      ensures rawDf == None && df == None
    {
      this.settings := settings;
      this.path := path;
      name := GetShortname(path);
      rawDf := None;
      df := None;
    }

    /** `get_trajectory_as_df`: `raw_df` becomes the prepared frame, or the stage raises and nothing changes. */
    method GetTrajectoryAsDf(loaded: Frame) returns (o: Outcome)
      requires Valid() && Rectangular(loaded)
      modifies this`rawDf
      ensures Valid()
      ensures o == OutcomeOf(PreparedFrameOf(settings, loaded))
      ensures o == Pass ==> rawDf == Some(PreparedFrameOf(settings, loaded).value)
      ensures o != Pass ==> rawDf == old(rawDf)
    {
      var r := PrepareLoaded(settings, loaded);
      if r.Failure? {
        return Fail(r.error);
      }
      rawDf := Some(r.value);
      o := Pass;
    }

    /**
     * `smooth_trajectory_df`: `None.copy()` raises AttributeError before
     * loading; without smoothing it returns and `df` stays as it was;
     * otherwise `df` becomes the smoothed (and possibly filled) frame.
     */
    method SmoothTrajectoryDf(filters: Filters) returns (o: Outcome)
      requires Valid()
      modifies this`df
      ensures rawDf.None? ==> o == Fail(AttributeError)
      ensures rawDf.Some? && settings.smoothing.None? ==> o == Pass
      ensures rawDf.Some? && settings.smoothing.Some? ==>
        var sm := settings.smoothing.value;
        o == OutcomeOf(SmoothColumns(rawDf.value, EyeDispatchOf(sm.kind), sm, filters))
      ensures o == Pass && settings.smoothing.Some? ==>
        var sm := settings.smoothing.value;
        df == Some(SmoothColumns(rawDf.value, EyeDispatchOf(sm.kind), sm, filters).value)
      ensures o != Pass || settings.smoothing.None? ==> df == old(df)
    {
      if rawDf.None? {
        return Fail(AttributeError);
      }
      if settings.smoothing.None? {
        return Pass;
      }
      var sm := settings.smoothing.value;
      var smoothed := SmoothColumns(rawDf.value, EyeDispatchOf(sm.kind), sm, filters);
      if smoothed.Failure? {
        return Fail(smoothed.error);
      }
      df := Some(smoothed.value);
      o := Pass;
    }

    /**
     * `calculate_angular_parameters`: `None.copy()` raises AttributeError;
     * otherwise the first exit of AngularCheck, or the projection from the
     * reference point. The stage works on a copy, so an exit leaves `df`.
     */
    method CalculateAngularParameters(angular: (Frame, (real, real)) -> Frame) returns (o: Outcome)
      modifies this`df
      ensures old(df).None? ==> o == Fail(AttributeError)
      ensures old(df).Some? ==> o == AngularCheck(old(df).value, settings)
      ensures o != Pass ==> df == old(df)
      ensures o == Pass ==> df == Some(angular(old(df).value, ReferencePoint(settings)))
    {
      if df.None? {
        return Fail(AttributeError);
      }
      o := AngularCheck(df.value, settings);
      if o == Pass {
        df := Some(angular(df.value, ReferencePoint(settings)));
      }
    }
  }

  /** The frame smoothing leaves, for settings that smooth and a frame with a `time` column. */
  function SmoothedOf(s: GazeSettings, raw: Frame, filters: Filters): (f: Frame)
    requires Rectangular(raw) && s.smoothing.Some? && "time" in raw.columns
    ensures Rectangular(f) && f.columns == raw.columns && |f.rows| == |raw.rows|
  {
    var sm := s.smoothing.value;
    SmoothColumns(raw, EyeDispatchOf(sm.kind), sm, filters).value
  }

  /**
   * What `Trajectory(path, settings)` ends with: the settings check, then
   * loading, smoothing and the angular parameters in that order, the first
   * error ending construction; on success the pair (`raw_df`, `df`).
   * Without smoothing `df` is never set, so the angular stage raises
   * AttributeError and no trajectory is built.
   */
  function Construction(settingsObject: PyObject, s: GazeSettings, loaded: Frame,
                        filters: Filters, angular: (Frame, (real, real)) -> Frame): (r: Result<(Frame, Frame)>)
    requires Rectangular(loaded)
    ensures CheckSettings(settingsObject).Failure? ==> r == Failure(CheckSettings(settingsObject).error)
    ensures CheckSettings(settingsObject).Success? && PreparedFrameOf(s, loaded).Failure? ==>
      r == Failure(PreparedFrameOf(s, loaded).error)
    ensures CheckSettings(settingsObject).Success? && PreparedFrameOf(s, loaded).Success? && s.smoothing.None? ==>
      r == Failure(AttributeError)
    ensures r.Success? <==> (CheckSettings(settingsObject).Success? && PreparedFrameOf(s, loaded).Success? &&
      s.smoothing.Some? && "time" in PreparedFrameOf(s, loaded).value.columns &&
      AngularCheck(SmoothedOf(s, PreparedFrameOf(s, loaded).value, filters), s) == Pass)
    ensures r.Failure? && CheckSettings(settingsObject).Success? && PreparedFrameOf(s, loaded).Success? && s.smoothing.Some? ==>
      var raw := PreparedFrameOf(s, loaded).value;
      r.error == if "time" !in raw.columns then KeyError else AngularCheck(SmoothedOf(s, raw, filters), s).error
    ensures r.Success? ==> var raw := PreparedFrameOf(s, loaded).value;
      r.value == (raw, angular(SmoothedOf(s, raw, filters), ReferencePoint(s)))
  {
    var _ :- CheckSettings(settingsObject);
    var raw :- PreparedFrameOf(s, loaded);
    if s.smoothing.None? then Failure(AttributeError)
    else
      var sm := s.smoothing.value;
      var smoothed :- SmoothColumns(raw, EyeDispatchOf(sm.kind), sm, filters);
      match AngularCheck(smoothed, s)
      case Fail(e) => Failure(e)
      case Pass => Success((raw, angular(smoothed, ReferencePoint(s))))
  }

  /** Settings whose column map leaves out `porx` never give a trajectory: `df.porx` raises, or an earlier stage does. */
  lemma NoPorxNeverBuilds(settingsObject: PyObject, s: GazeSettings, loaded: Frame,
                          filters: Filters, angular: (Frame, (real, real)) -> Frame)
    requires Rectangular(loaded)
    requires PreparedFrameOf(s, loaded).Success? && "porx" !in PreparedFrameOf(s, loaded).value.columns
    ensures Construction(settingsObject, s, loaded, filters, angular).Failure?
  {
  }

  /** A zero screen width or height never gives a trajectory. */
  lemma ZeroSizeNeverBuilds(settingsObject: PyObject, s: GazeSettings, loaded: Frame,
                            filters: Filters, angular: (Frame, (real, real)) -> Frame)
    requires Rectangular(loaded)
    requires s.size.0 == 0.0 || s.size.1 == 0.0
    ensures Construction(settingsObject, s, loaded, filters, angular).Failure?
  {
  }

  /** The constructor with its stages: a trajectory whose two frames are those of Construction, or its error. */
  method Build(path: string, settingsObject: PyObject, s: GazeSettings, loaded: Frame,
               filters: Filters, angular: (Frame, (real, real)) -> Frame) returns (r: Result<Trajectory>)
    requires Rectangular(loaded)
    ensures r.Success? <==> Construction(settingsObject, s, loaded, filters, angular).Success?
    ensures r.Failure? ==> r.error == Construction(settingsObject, s, loaded, filters, angular).error
    ensures r.Success? ==>
      var t, frames := r.value, Construction(settingsObject, s, loaded, filters, angular).value;
      fresh(t) && t.name == GetShortname(path) && t.path == path && t.settings == s &&
      t.rawDf == Some(frames.0) && t.df == Some(frames.1)
  {
    var checked := CheckSettings(settingsObject);
    if checked.Failure? {
      return Failure(checked.error);
    }
    var t := new Trajectory(path, s);
    var o := t.GetTrajectoryAsDf(loaded);
    if o.Fail? {
      return Failure(o.error);
    }
    ghost var raw := PreparedFrameOf(s, loaded).value;
    assert t.rawDf == Some(raw) && t.df == None;
    o := t.SmoothTrajectoryDf(filters);
    if o.Fail? {
      return Failure(o.error);
    }
    if s.smoothing.None? {
      assert t.df == None;
      o := t.CalculateAngularParameters(angular);
      return Failure(o.error);
    }
    assert t.df == Some(SmoothedOf(s, raw, filters));
    o := t.CalculateAngularParameters(angular);
    if o.Fail? {
      return Failure(o.error);
    }
    r := Success(t);
  }
}
