// The generator's option object: private fields behind validating setters.
// A setter that rejects its value raises before the assignment, so a
// rejected value leaves every field as it was.
module Params {
  import opened Outcomes

  /** The data flow class to generate, the solver choice and the like are free strings. */
  datatype Settings = Settings(
    nbTask: int, minTaskDegree: int, maxTaskDegree: int,
    minPhaseCount: int, maxPhaseCount: int, averageTime: int,
    minIniPhaseCount: int, maxIniPhaseCount: int, averageIniTime: int,
    averageIniWeight: int, averageRf: int,
    dataflowType: string, normalized: bool, reentrant: bool, multiArc: bool, acyclic: bool,
    solver: string, verboseSolver: bool, loggingLevel: int, lpFilename: Option<string>)

  /** `__verify_integer_non_negativ`. */
  function NonNegative(value: int): (e: Option<PyError>)
    ensures e.None? <==> value >= 0
    ensures e.Some? ==> e.value == InvalidValue
  {
    if value < 0 then Some(InvalidValue) else None
  }

  /** `__verify_integer_non_null`. */
  function NonNull(value: int): (e: Option<PyError>)
    ensures e.None? <==> value >= 1
    ensures e.Some? ==> e.value == InvalidValue
  {
    if value < 1 then Some(InvalidValue) else None
  }

  /** The check of `set_nb_task`: non-null, then at least 2. */
  function NbTaskCheck(value: int): (e: Option<PyError>)
    ensures e.None? <==> value >= 2
  {
    if NonNull(value).Some? then NonNull(value) else if value < 2 then Some(InvalidValue) else None
  }

  /** The check of `set_max_task_degree`: non-negative, then at least 2. */
  function MaxTaskDegreeCheck(value: int): (e: Option<PyError>)
    ensures e.None? <==> value >= 2
  {
    if NonNegative(value).Some? then NonNegative(value) else if value < 2 then Some(InvalidValue) else None
  }

  /** The check of a maximum against its minimum: non-negative, then not below `min`. */
  function MaxCheck(value: int, min: int): (e: Option<PyError>)
    ensures e.None? <==> value >= 0 && value >= min
  {
    if NonNegative(value).Some? then NonNegative(value) else if value < min then Some(InvalidValue) else None
  }

  /** The defaults `__init__` assigns: valid, and every maximum at least its minimum. */
  function Defaults(): (s: Settings)
    ensures SettingsValid(s)
    ensures s.minPhaseCount <= s.maxPhaseCount && s.minIniPhaseCount <= s.maxIniPhaseCount
    ensures s.minTaskDegree <= s.maxTaskDegree
  {
    Settings(10, 1, 3, 1, 5, 10, 0, 2, 10, 10, 5, "SDF", false, false, false, false,
      "Auto", false, 40, None)
  }

  /**
   * What the setters guarantee of each numeric field: the bound its
   * validator checks. The order between a minimum and its maximum is only
   * checked when the maximum is set, so it is not part of the invariant.
   */
  predicate SettingsValid(s: Settings) {
    s.nbTask >= 2 && s.minTaskDegree >= 1 && s.maxTaskDegree >= 2 &&
    s.minPhaseCount >= 1 && s.maxPhaseCount >= 0 && s.averageTime >= 1 &&
    s.minIniPhaseCount >= 0 && s.maxIniPhaseCount >= 0 && s.averageIniTime >= 0 &&
    s.averageIniWeight >= 1 && s.averageRf >= 1
  }

  /**
   * Setting a minimum after its maximum is not checked: from the defaults,
   * `set_min_phase_count(v)` accepts every `v` above the maximum and leaves
   * the settings valid with the minimum above the maximum.
   */
  lemma MinAfterMaxUnchecked(v: int)
    requires v > Defaults().maxPhaseCount
    ensures NonNull(v).None? && SettingsValid(Defaults().(minPhaseCount := v))
    ensures Defaults().(minPhaseCount := v).minPhaseCount > Defaults().(minPhaseCount := v).maxPhaseCount
  {
  }

  class Parameters {
    var nbTask: int
    var minTaskDegree: int
    var maxTaskDegree: int
    var minPhaseCount: int
    var maxPhaseCount: int
    var averageTime: int
    var minIniPhaseCount: int
    var maxIniPhaseCount: int
    var averageIniTime: int
    var averageIniWeight: int
    var averageRf: int
    var dataflowType: string
    var normalized: bool
    var reentrant: bool
    var multiArc: bool
    var acyclic: bool
    var solver: string
    var verboseSolver: bool
    var loggingLevel: int
    var lpFilename: Option<string>

    /** All fields at once; the getters read them one by one. */
    function Current(): Settings
      reads this
    {
      Settings(nbTask, minTaskDegree, maxTaskDegree, minPhaseCount, maxPhaseCount, averageTime,
        minIniPhaseCount, maxIniPhaseCount, averageIniTime, averageIniWeight, averageRf,
        dataflowType, normalized, reentrant, multiArc, acyclic,
        solver, verboseSolver, loggingLevel, lpFilename)
    }

    ghost predicate Valid()
      reads this
    {
      SettingsValid(Current())
    }

    constructor ()
      ensures Valid() && Current() == Defaults()
    {
      nbTask, minTaskDegree, maxTaskDegree := 10, 1, 3;
      minPhaseCount, maxPhaseCount, averageTime := 1, 5, 10;
      minIniPhaseCount, maxIniPhaseCount, averageIniTime := 0, 2, 10;
      averageIniWeight, averageRf := 10, 5;
      dataflowType := "SDF";
      normalized, reentrant, multiArc, acyclic := false, false, false, false;
      solver := "Auto";
      verboseSolver := false;
      loggingLevel := 40;
      lpFilename := None;
    }

    /** `set_nb_task`: at least 2. */
    method SetNbTask(value: int) returns (e: Option<PyError>)
      requires Valid()
      modifies this
      ensures Valid() && e == NbTaskCheck(value)
      ensures Current() == if e.Some? then old(Current()) else old(Current()).(nbTask := value)
    {
      e := NbTaskCheck(value);
      if e.None? {
        nbTask := value;
      }
    }

    /** `set_min_task_degree`: at least 1. */
    method SetMinTaskDegree(value: int) returns (e: Option<PyError>)
      requires Valid()
      modifies this
      ensures Valid() && e == NonNull(value)
      ensures Current() == if e.Some? then old(Current()) else old(Current()).(minTaskDegree := value)
    {
      e := NonNull(value);
      if e.None? {
        minTaskDegree := value;
      }
    }

    /** `set_max_task_degree`: at least 2. */
    method SetMaxTaskDegree(value: int) returns (e: Option<PyError>)
      requires Valid()
      modifies this
      ensures Valid() && e == MaxTaskDegreeCheck(value)
      ensures Current() == if e.Some? then old(Current()) else old(Current()).(maxTaskDegree := value)
    {
      e := MaxTaskDegreeCheck(value);
      if e.None? {
        maxTaskDegree := value;
      }
    }

    /** `set_min_phase_count`: at least 1. */
    method SetMinPhaseCount(value: int) returns (e: Option<PyError>)
      requires Valid()
      modifies this
      ensures Valid() && e == NonNull(value)
      ensures Current() == if e.Some? then old(Current()) else old(Current()).(minPhaseCount := value)
    {
      e := NonNull(value);
      if e.None? {
        minPhaseCount := value;
      }
    }

    /** `set_max_phase_count`: non-negative and not below the current minimum. */
    method SetMaxPhaseCount(value: int) returns (e: Option<PyError>)
      requires Valid()
      modifies this
      ensures Valid() && e == MaxCheck(value, old(minPhaseCount))
      ensures e.None? ==> maxPhaseCount >= minPhaseCount
      ensures Current() == if e.Some? then old(Current()) else old(Current()).(maxPhaseCount := value)
    {
      e := MaxCheck(value, minPhaseCount);
      if e.None? {
        maxPhaseCount := value;
      }
    }

    /** `set_average_time`: at least 1. */
    method SetAverageTime(value: int) returns (e: Option<PyError>)
      requires Valid()
      modifies this
      ensures Valid() && e == NonNull(value)
      ensures Current() == if e.Some? then old(Current()) else old(Current()).(averageTime := value)
    {
      e := NonNull(value);
      if e.None? {
        averageTime := value;
      }
    }

    /** `set_min_ini_phase_count`: non-negative. */
    method SetMinIniPhaseCount(value: int) returns (e: Option<PyError>)
      requires Valid()
      modifies this
      ensures Valid() && e == NonNegative(value)
      ensures Current() == if e.Some? then old(Current()) else old(Current()).(minIniPhaseCount := value)
    {
      e := NonNegative(value);
      if e.None? {
        minIniPhaseCount := value;
      }
    }

    /** `set_max_ini_phase_count`: non-negative and not below the current initial minimum. */
    method SetMaxIniPhaseCount(value: int) returns (e: Option<PyError>)
      requires Valid()
      modifies this
      ensures Valid() && e == MaxCheck(value, old(minIniPhaseCount))
      ensures e.None? ==> maxIniPhaseCount >= minIniPhaseCount
      ensures Current() == if e.Some? then old(Current()) else old(Current()).(maxIniPhaseCount := value)
    {
      e := MaxCheck(value, minIniPhaseCount);
      if e.None? {
        maxIniPhaseCount := value;
      }
    }

    /** `set_average_ini_time`: non-negative. */
    method SetAverageIniTime(value: int) returns (e: Option<PyError>)
      requires Valid()
      modifies this
      ensures Valid() && e == NonNegative(value)
      ensures Current() == if e.Some? then old(Current()) else old(Current()).(averageIniTime := value)
    {
      e := NonNegative(value);
      if e.None? {
        averageIniTime := value;
      }
    }

    /** `set_average_ini_weight`: at least 1. */
    method SetAverageIniWeight(value: int) returns (e: Option<PyError>)
      requires Valid()
      modifies this
      ensures Valid() && e == NonNull(value)
      ensures Current() == if e.Some? then old(Current()) else old(Current()).(averageIniWeight := value)
    {
      e := NonNull(value);
      if e.None? {
        averageIniWeight := value;
      }
    }

    /** `set_average_repetition_factor`: at least 1. */
    method SetAverageRepetitionFactor(value: int) returns (e: Option<PyError>)
      requires Valid()
      modifies this
      ensures Valid() && e == NonNull(value)
      ensures Current() == if e.Some? then old(Current()) else old(Current()).(averageRf := value)
    {
      e := NonNull(value);
      if e.None? {
        averageRf := value;
      }
    }

    /** The setters that only convert their value (`str(...)`, `bool(...)`) never fail. */
    method SetDataflowType(value: string)
      requires Valid()
      modifies this
      ensures Valid() && Current() == old(Current()).(dataflowType := value)
    {
      dataflowType := value;
    }

    method SetNormalized(value: bool)
      requires Valid()
      modifies this
      ensures Valid() && Current() == old(Current()).(normalized := value)
    {
      normalized := value;
    }

    method SetReentrant(value: bool)
      requires Valid()
      modifies this
      ensures Valid() && Current() == old(Current()).(reentrant := value)
    {
      reentrant := value;
    }

    method SetMultiGraph(value: bool)
      requires Valid()
      modifies this
      ensures Valid() && Current() == old(Current()).(multiArc := value)
    {
      multiArc := value;
    }

    method SetAcyclic(value: bool)
      requires Valid()
      modifies this
      ensures Valid() && Current() == old(Current()).(acyclic := value)
    {
      acyclic := value;
    }

    method SetSolver(value: string)
      requires Valid()
      modifies this
      ensures Valid() && Current() == old(Current()).(solver := value)
    {
      solver := value;
    }

    method SetLoggingLevel(value: int)
      requires Valid()
      modifies this
      ensures Valid() && Current() == old(Current()).(loggingLevel := value)
    {
      loggingLevel := value;
    }

    method SetSolverVerbose(value: bool)
      requires Valid()
      modifies this
      ensures Valid() && Current() == old(Current()).(verboseSolver := value)
    {
      verboseSolver := value;
    }

    method SetLpFilename(value: Option<string>)
      requires Valid()
      modifies this
      ensures Valid() && Current() == old(Current()).(lpFilename := value)
    {
      lpFilename := value;
    }
  }
}
