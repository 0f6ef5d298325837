/**
 * Choosing a generator and a prefix (generateDatasetIdentifier, generateDataFileIdentifier)
 * and writing the result back onto the object (generateIdentifier).
 *
 * The switch of each Java method is split in two: a pure choice of strategy and prefix (a
 * Plan), and RunPlan, which runs the chosen generator.
 */
module Dispatch {
  import opened Nullable
  import opened GlobalIds
  import opened Uniqueness
  import opened Generators
  import opened Objects

  const RandomStringStyle: string := "randomString"
  const StoredProcStyle: string := "storedProcGenerated"
  /** SystemConfig.DataFilePIDFormat.DEPENDENT and INDEPENDENT as text. */
  const DependentFormat: string := "DEPENDENT"
  const IndependentFormat: string := "INDEPENDENT"

  datatype Strategy = RandomString | StoredProcedureIndependent | StoredProcedureDependent

  /** Which generator runs, and the prefix it puts before every candidate. */
  datatype Plan = Plan(strategy: Strategy, prepend: string)

  /** The collaborators a generation consults. */
  datatype Env = Env(settings: Settings, registry: Registry)

  /** The random draws and the stored-procedure values the generators consume, in order. */
  datatype Sources = Sources(draws: seq<string>, counter: seq<Option<string>>)

  predicate ValidDraws(sources: Sources)
  {
    forall k :: 0 <= k < |sources.draws| ==> IsRandomDraw(sources.draws[k])
  }

  function GenerationStyle(settings: Settings): string
  {
    ValueForKeyOr(settings, IdentifierGenerationStyle, RandomStringStyle)
  }

  function FilePidFormat(settings: Settings): string
  {
    ValueForKeyOr(settings, DataFilePIDFormat, DependentFormat)
  }

  function ShoulderOf(settings: Settings): string
  {
    ValueForKeyOr(settings, Shoulder, "")
  }

  /** The switch of generateDatasetIdentifier. */
  function DatasetPlan(settings: Settings): Plan
  {
    var style := GenerationStyle(settings);
    var shoulder := ShoulderOf(settings);
    if style == RandomStringStyle then Plan(RandomString, shoulder)
    else if style == StoredProcStyle then Plan(StoredProcedureIndependent, shoulder)
    else Plan(RandomString, shoulder)
  }

  /** The prefix and the switch of generateDataFileIdentifier. */
  function DataFilePlan(settings: Settings, ownerIdentifier: Option<string>): Plan
  {
    var style := GenerationStyle(settings);
    var format := FilePidFormat(settings);
    var prepend := if format == DependentFormat then JavaText(ownerIdentifier) + "/" else ShoulderOf(settings);
    if style == RandomStringStyle then Plan(RandomString, prepend)
    else if style == StoredProcStyle then
      if format == IndependentFormat then Plan(StoredProcedureIndependent, prepend)
      else Plan(StoredProcedureDependent, prepend)
    else Plan(RandomString, prepend)
  }

  /**
   * Datasets always use the shoulder (default "") as prefix, use the independent stored
   * procedure exactly when the style is storedProcGenerated, random strings otherwise (an
   * unknown style included), and never the dependent counter.
   */
  lemma DatasetPlanRules(settings: Settings)
    ensures DatasetPlan(settings).prepend == ValueForKeyOr(settings, Shoulder, "")
    ensures (DatasetPlan(settings).strategy == StoredProcedureIndependent) <==>
              ValueForKeyOr(settings, IdentifierGenerationStyle, "randomString") == "storedProcGenerated"
    ensures DatasetPlan(settings).strategy != StoredProcedureDependent
  {
  }

  /**
   * Files: the prefix is the owner's identifier + "/" exactly when the format (default
   * DEPENDENT) is DEPENDENT, the shoulder otherwise; storedProcGenerated takes the independent
   * counter only when the format is INDEPENDENT and the dependent counter for every other
   * format; any other style takes random strings.
   */
  lemma DataFilePlanRules(settings: Settings, ownerIdentifier: Option<string>)
    ensures var format := ValueForKeyOr(settings, DataFilePIDFormat, "DEPENDENT");
            && (format == "DEPENDENT" ==> DataFilePlan(settings, ownerIdentifier).prepend == JavaText(ownerIdentifier) + "/")
            && (format != "DEPENDENT" ==> DataFilePlan(settings, ownerIdentifier).prepend == ValueForKeyOr(settings, Shoulder, ""))
    ensures var style := ValueForKeyOr(settings, IdentifierGenerationStyle, "randomString");
            var format := ValueForKeyOr(settings, DataFilePIDFormat, "DEPENDENT");
            && ((DataFilePlan(settings, ownerIdentifier).strategy == StoredProcedureIndependent) <==>
                  style == "storedProcGenerated" && format == "INDEPENDENT")
            && ((DataFilePlan(settings, ownerIdentifier).strategy == StoredProcedureDependent) <==>
                  style == "storedProcGenerated" && format != "INDEPENDENT")
            && ((DataFilePlan(settings, ownerIdentifier).strategy == RandomString) <==>
                  style != "storedProcGenerated")
  {
  }

  /**
   * With neither style nor format configured, a file gets a random string under its owner's
   * identifier; an owner without an identifier gives the prefix "null/" (Java string
   * concatenation of a null reference).
   */
  lemma DataFileDefaults(settings: Settings, ownerIdentifier: Option<string>)
    requires IdentifierGenerationStyle !in settings && DataFilePIDFormat !in settings
    ensures DataFilePlan(settings, ownerIdentifier).strategy == RandomString
    ensures ownerIdentifier.Some? ==> DataFilePlan(settings, ownerIdentifier).prepend == ownerIdentifier.value + "/"
    ensures ownerIdentifier.None? ==> DataFilePlan(settings, ownerIdentifier).prepend == "null/"
  {
  }

  /** The chosen generator's loop returns on these sources. */
  ghost predicate PlanStops(plan: Plan, reg: Registry, protocol: Option<string>, authority: Option<string>, sources: Sources)
  {
    match plan.strategy
    case RandomString => RandomStops(reg, protocol, authority, plan.prepend, sources.draws)
    case StoredProcedureIndependent => IndependentStops(reg, protocol, authority, plan.prepend, sources.counter)
    case StoredProcedureDependent => DependentStops(reg, protocol, authority, plan.prepend)
  }

  /** `r` is what the chosen generator returns on these sources. */
  ghost predicate IsPlanResult(plan: Plan, reg: Registry, protocol: Option<string>, authority: Option<string>,
                               sources: Sources, r: Option<string>)
  {
    match plan.strategy
    case RandomString =>
      r.Some? && IsRandomResult(reg, protocol, authority, plan.prepend, sources.draws, r.value)
    case StoredProcedureIndependent =>
      IsIndependentResult(reg, protocol, authority, plan.prepend, sources.counter, r)
    case StoredProcedureDependent =>
      r.Some? && exists n: nat :: IsLeastPassingCounter(reg, protocol, authority, plan.prepend, n)
                                  && r.value == DependentCandidate(plan.prepend, n)
  }

  /** Runs the generator a plan names; only the independent counter can give null. */
  method RunPlan(plan: Plan, reg: Registry, protocol: Option<string>, authority: Option<string>, sources: Sources)
    returns (r: Option<string>)
    requires ValidDraws(sources)
    requires PlanStops(plan, reg, protocol, authority, sources)
    ensures IsPlanResult(plan, reg, protocol, authority, sources, r)
    ensures r.Some? ==> Unique(reg, protocol, authority, r.value)
    ensures r.None? ==> plan.strategy == StoredProcedureIndependent
  {
    match plan.strategy
    case RandomString =>
      var id := GenerateIdentifierAsRandomString(reg, protocol, authority, plan.prepend, sources.draws);
      r := Some(id);
    case StoredProcedureIndependent =>
      r := GenerateIdentifierFromStoredProcedureIndependent(reg, protocol, authority, plan.prepend, sources.counter);
    case StoredProcedureDependent =>
      var id := GenerateIdentifierFromStoredProcedureDependent(reg, protocol, authority, plan.prepend);
      r := Some(id);
  }

  /** generateDatasetIdentifier, checking candidates against the dataset's protocol and authority. */
  method GenerateDatasetIdentifier(env: Env, dataset: DvObject, sources: Sources) returns (r: Option<string>)
    requires dataset.dtype == Dataset
    requires ValidDraws(sources)
    requires PlanStops(DatasetPlan(env.settings), env.registry, dataset.protocol, dataset.authority, sources)
    ensures IsPlanResult(DatasetPlan(env.settings), env.registry, dataset.protocol, dataset.authority, sources, r)
    ensures r.Some? ==> Unique(env.registry, dataset.protocol, dataset.authority, r.value)
  {
    r := RunPlan(DatasetPlan(env.settings), env.registry, dataset.protocol, dataset.authority, sources);
  }

  /** generateDataFileIdentifier, with the owner's identifier as the dependent prefix. */
  method GenerateDataFileIdentifier(env: Env, datafile: DvObject, sources: Sources) returns (r: Option<string>)
    requires datafile.dtype == DataFile && datafile.owner != null
    requires ValidDraws(sources)
    requires PlanStops(DataFilePlan(env.settings, datafile.owner.identifier), env.registry,
                       datafile.protocol, datafile.authority, sources)
    ensures IsPlanResult(DataFilePlan(env.settings, datafile.owner.identifier), env.registry,
                         datafile.protocol, datafile.authority, sources, r)
    ensures r.Some? ==> Unique(env.registry, datafile.protocol, datafile.authority, r.value)
  {
    var plan := DataFilePlan(env.settings, datafile.owner.identifier);
    r := RunPlan(plan, env.registry, datafile.protocol, datafile.authority, sources);
  }

  /** The plan generateIdentifier follows for this object. */
  function ObjectPlan(settings: Settings, obj: DvObject): Plan
    requires obj.dtype == DataFile ==> obj.owner != null
    reads obj, obj.owner
  {
    if obj.dtype == Dataset then DatasetPlan(settings) else DataFilePlan(settings, obj.owner.identifier)
  }

  /**
   * generateIdentifier: always overwrites the identifier (with null when generation gave
   * null); sets protocol and authority from the settings only where they were null; and the
   * generator checked its candidates with the protocol and authority as they were before the
   * call.
   */
  method GenerateIdentifier(env: Env, obj: DvObject, sources: Sources)
    requires obj.dtype == DataFile ==> obj.owner != null
    requires ValidDraws(sources)
    requires PlanStops(ObjectPlan(env.settings, obj), env.registry, obj.protocol, obj.authority, sources)
    modifies obj`identifier, obj`protocol, obj`authority
    ensures IsPlanResult(old(ObjectPlan(env.settings, obj)), env.registry, old(obj.protocol), old(obj.authority),
                         sources, obj.identifier)
    ensures obj.identifier.Some? ==> Unique(env.registry, old(obj.protocol), old(obj.authority), obj.identifier.value)
    ensures obj.protocol == if old(obj.protocol).None? then ValueForKey(env.settings, Protocol) else old(obj.protocol)
    ensures obj.authority == if old(obj.authority).None? then ValueForKey(env.settings, Authority) else old(obj.authority)
  {
    var protocol := if obj.protocol.None? then ValueForKey(env.settings, Protocol) else obj.protocol;
    var authority := if obj.authority.None? then ValueForKey(env.settings, Authority) else obj.authority;
    var id;
    if obj.dtype == Dataset {
      id := GenerateDatasetIdentifier(env, obj, sources);
    } else {
      id := GenerateDataFileIdentifier(env, obj, sources);
    }
    obj.identifier := id;
    if obj.protocol.None? {
      obj.protocol := protocol;
    }
    if obj.authority.None? {
      obj.authority := authority;
    }
  }
}
