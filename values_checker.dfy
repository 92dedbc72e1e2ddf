/**
 * `ValuesChecker.check_settings` of modules/python/eyevents/values_checker.py.
 * A Python value is modelled by what the check looks at: its exact type
 * and, for a dict, its keys.
 */
module ValuesChecker {
  import opened Common

  /**
   * A Python object. `Dict` is an object whose exact type is `dict`;
   * `DictSubclass` is an instance of a subclass of `dict` such as
   * `OrderedDict`, which `type(x) is not dict` rejects.
   */
  datatype PyObject =
    | NoneObject
    | Bool(b: bool)
    | Int(i: int)
    | Str(s: string)
    | List(items: seq<PyObject>)
    | Dict(entries: map<string, PyObject>)
    | DictSubclass(entries: map<string, PyObject>)

  /** The three sections every settings dict must have. */
  const RequiredSections: seq<string> := ["columns", "common", "loading"]

  /**
   * `check_settings(settings)`: TypeError unless the exact type is `dict`,
   * then ValueError if a required section is missing, else True. The
   * type test comes first.
   */
  function CheckSettings(settings: PyObject): (r: Result<bool>)
    ensures r.Success? <==> settings.Dict? && forall k :: k in RequiredSections ==> k in settings.entries
    ensures !settings.Dict? ==> r == Failure(TypeError)
    ensures settings.Dict? && r.Failure? ==> r.error == ValueError && exists k :: k in RequiredSections && k !in settings.entries
    ensures r.Success? ==> r.value
  {
    if !settings.Dict? then Failure(TypeError)
    else if exists k :: k in RequiredSections && k !in settings.entries then Failure(ValueError)
    else Success(true)
  }

  /** The check reads only the keys: the values and any other entries do not matter. */
  lemma CheckIgnoresValuesAndExtraKeys(a: map<string, PyObject>, b: map<string, PyObject>)
    requires forall k :: k in RequiredSections ==> (k in a <==> k in b)
    ensures CheckSettings(Dict(a)) == CheckSettings(Dict(b))
  {
  }

  /** A dict subclass is rejected by the type test even with every section present. */
  lemma SubclassRejected(entries: map<string, PyObject>)
    ensures CheckSettings(DictSubclass(entries)) == Failure(TypeError)
  {
  }

  /** Whichever section is missing, the error is the same ValueError. */
  lemma MissingSectionIsValueError(entries: map<string, PyObject>, k: string)
    requires k in RequiredSections && k !in entries
    ensures CheckSettings(Dict(entries)) == Failure(ValueError)
  {
  }
}
