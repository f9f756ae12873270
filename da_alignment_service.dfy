/**
 * The alignment service backed by the remote Dependency Analyzer: a guard on construction and
 * `align`, which asks the remote service for dependency versions and then for project versions,
 * and assembles the response in place.
 */
module DAAlignmentService {
  import opened Wrappers
  import opened Coordinates
  import opened Config
  import opened AlignmentService

  /** A call made to the remote service, with the coordinates passed to it. */
  datatype Lookup = VersionsLookup(gavs: seq<Gav>) | ProjectVersionsLookup(gavs: seq<Gav>)

  /** What a lookup answers: aligned versions by coordinate, or the reason of the `RestException` it throws. */
  type LookupResult = Result<map<Gav, string>, string>

  /**
   * The translator of the manipulation library that talks to the remote service. What the service
   * answers is given by two functions; every call is appended to the ghost record `calls`.
   */
  class Translator {
    const lookupVersionsFn: seq<Gav> -> LookupResult
    const lookupProjectVersionsFn: seq<Gav> -> LookupResult
    ghost var calls: seq<Lookup>

    constructor(lookupVersionsFn: seq<Gav> -> LookupResult, lookupProjectVersionsFn: seq<Gav> -> LookupResult)
      ensures this.lookupVersionsFn == lookupVersionsFn
      ensures this.lookupProjectVersionsFn == lookupProjectVersionsFn
      ensures calls == []
    {
      this.lookupVersionsFn := lookupVersionsFn;
      this.lookupProjectVersionsFn := lookupProjectVersionsFn;
      calls := [];
    }

    /** `lookupVersions`: the aligned versions of `gavs`. */
    method LookupVersions(gavs: seq<Gav>) returns (r: LookupResult)
      modifies this
      ensures r == lookupVersionsFn(gavs)
      ensures calls == old(calls) + [VersionsLookup(gavs)]
    {
      calls := calls + [VersionsLookup(gavs)];
      r := lookupVersionsFn(gavs);
    }

    /** `lookupProjectVersions`: the next versions of the project coordinates `gavs`. */
    method LookupProjectVersions(gavs: seq<Gav>) returns (r: LookupResult)
      modifies this
      ensures r == lookupProjectVersionsFn(gavs)
      ensures calls == old(calls) + [ProjectVersionsLookup(gavs)]
    {
      calls := calls + [ProjectVersionsLookup(gavs)];
      r := lookupProjectVersionsFn(gavs);
    }
  }

  /** The mutable response `align` builds: a translation map and the new project version. */
  class TranslationResponse {
    var translationMap: map<Gav, string>
    var newProjectVersion: Option<string>

    /** `new Response(translationMap)`: no new project version yet. */
    constructor(translationMap: map<Gav, string>)
      ensures this.translationMap == translationMap && newProjectVersion == None
    {
      this.translationMap := translationMap;
      newProjectVersion := None;
    }

    /** `getTranslationMap().putAll(entries)`: every entry of `entries` overrides the map's own. */
    method PutAll(entries: map<Gav, string>)
      modifies this
      ensures translationMap == old(translationMap) + entries
      ensures newProjectVersion == old(newProjectVersion)
    {
      translationMap := translationMap + entries;
    }

    method SetNewProjectVersion(version: Option<string>)
      modifies this
      ensures newProjectVersion == version
      ensures translationMap == old(translationMap)
    {
      newProjectVersion := version;
    }

    /** The response as a value. */
    function Value(): Response
      reads this
    {
      Translation(translationMap, newProjectVersion)
    }
  }

  /**
   * The constructor's guard: without an endpoint the service can only be built when the
   * dependency source is `NONE`; otherwise the error names the `restURL` key.
   */
  function CheckEndpoint(configuration: Configuration): (r: Result<(), AlignmentError>)
    ensures r.Failure? <==> configuration.daEndpoint.None? && configuration.dependencyConfiguration != NONE
    ensures r.Failure? ==> r.error == MissingConfiguration(DA)
  {
    if configuration.daEndpoint.None? && configuration.dependencyConfiguration != NONE then
      Failure(MissingConfiguration(DA))
    else
      Success(())
  }

  /**
   * What `align` answers, as a value, for a dependency source and the two lookups of the remote
   * service. With source `NONE` the answer is empty. Otherwise a failing lookup is not caught:
   * its `RestException` leaves `align` as a `RestFailure`. On success the project lookup's entries
   * win over the dependency lookup's for every coordinate they name, a coordinate neither names has no aligned version, and the new project version is
   * the project lookup's entry for the first project coordinate (absent when it has none, or when
   * the project list is empty).
   */
  function Alignment(dependencySource: DependencyPrecedence, lookupVersions: seq<Gav> -> LookupResult,
                     lookupProjectVersions: seq<Gav> -> LookupResult, request: Request): (r: Result<Response, AlignmentError>)
    ensures dependencySource == NONE ==> r == Success(Translation(map[], None))
    ensures var vs := lookupVersions(request.dependencies);
      dependencySource != NONE && vs.Failure? ==> r == Failure(RestFailure(vs.error))
    ensures var vs := lookupVersions(request.dependencies);
      var ps := lookupProjectVersions(request.project);
      (dependencySource != NONE && vs.Success? && request.project != [] && ps.Failure?) ==> r == Failure(RestFailure(ps.error))
    ensures var vs := lookupVersions(request.dependencies);
      (dependencySource != NONE && vs.Success? && request.project == []) ==>
        && r.Success?
        && (forall gav :: r.value.AlignedVersionOf(gav) == Get(vs.value, gav))
        && r.value.NewProjectVersion() == Success(None)
    ensures var vs := lookupVersions(request.dependencies);
      var ps := lookupProjectVersions(request.project);
      (dependencySource != NONE && vs.Success? && request.project != [] && ps.Success?) ==>
        && r.Success?
        && (forall gav :: gav in ps.value ==> r.value.AlignedVersionOf(gav) == Some(ps.value[gav]))
        && (forall gav :: gav !in ps.value ==> r.value.AlignedVersionOf(gav) == Get(vs.value, gav))
        && r.value.NewProjectVersion() == Success(Get(ps.value, request.project[0]))
  {
    if dependencySource == NONE then Success(Translation(map[], None))
    else
      var vs := lookupVersions(request.dependencies);
      if vs.Failure? then Failure(RestFailure(vs.error))
      else if request.project == [] then Success(Translation(vs.value, None))
      else
        var ps := lookupProjectVersions(request.project);
        if ps.Failure? then Failure(RestFailure(ps.error))
        else Success(Translation(vs.value + ps.value, Get(ps.value, request.project[0])))
  }

  /**
   * The calls `align` makes to the remote service: none with source `NONE`; otherwise first the
   * dependency lookup with exactly the request's dependencies, then the project lookup with
   * exactly the project list, only when that list is non-empty and the first lookup succeeded.
   */
  function AlignmentCalls(dependencySource: DependencyPrecedence, lookupVersions: seq<Gav> -> LookupResult,
                          request: Request): (calls: seq<Lookup>)
    ensures dependencySource == NONE <==> calls == []
    ensures dependencySource != NONE ==> calls[0] == VersionsLookup(request.dependencies)
    ensures |calls| <= 2
    ensures |calls| == 2 <==> dependencySource != NONE && request.project != [] && lookupVersions(request.dependencies).Success?
    ensures |calls| == 2 ==> calls[1] == ProjectVersionsLookup(request.project)
  {
    if dependencySource == NONE then []
    else if lookupVersions(request.dependencies).Failure? || request.project == [] then
      [VersionsLookup(request.dependencies)]
    else
      [VersionsLookup(request.dependencies), ProjectVersionsLookup(request.project)]
  }

  class DAAlignmentService {
    const restEndpoint: Translator
    const dependencySource: DependencyPrecedence

    constructor(configuration: Configuration, restEndpoint: Translator)
      requires CheckEndpoint(configuration).Success?
      ensures this.restEndpoint == restEndpoint
      ensures dependencySource == configuration.dependencyConfiguration
    {
      this.dependencySource := configuration.dependencyConfiguration;
      this.restEndpoint := restEndpoint;
    }

    /**
     * `new DAAlignmentService(configuration)`: fails exactly when the guard does, with its error;
     * `restEndpoint` stands for the translator the library builds from the configuration.
     */
    static method Create(configuration: Configuration, restEndpoint: Translator) returns (r: Result<DAAlignmentService, AlignmentError>)
      ensures r.Failure? <==> CheckEndpoint(configuration).Failure?
      ensures r.Failure? ==> r.error == CheckEndpoint(configuration).error
      ensures r.Success? ==> (fresh(r.value) && r.value.restEndpoint == restEndpoint
        && r.value.dependencySource == configuration.dependencyConfiguration)
    {
      var guard := CheckEndpoint(configuration);
      if guard.Failure? {
        return Failure(guard.error);
      }
      var service := new DAAlignmentService(configuration, restEndpoint);
      return Success(service);
    }

    /**
     * `align`: with source `NONE` an empty response and no remote call; otherwise the dependency
     * lookup, then, for a non-empty project list, the project lookup overlaid on its answer. A
     * lookup failure leaves `align` at once.
     */
    method Align(request: Request) returns (r: Result<TranslationResponse, AlignmentError>)
      modifies restEndpoint
      ensures restEndpoint.calls
        == old(restEndpoint.calls) + AlignmentCalls(dependencySource, restEndpoint.lookupVersionsFn, request)
      ensures var expected := Alignment(dependencySource, restEndpoint.lookupVersionsFn,
                                        restEndpoint.lookupProjectVersionsFn, request);
        && (r.Success? <==> expected.Success?)
        && (r.Success? ==> fresh(r.value) && r.value.Value() == expected.value)
        && (r.Failure? ==> r.error == expected.error)
    {
      if dependencySource == NONE {
        var response := new TranslationResponse(map[]);
        return Success(response);
      }
      var vParams := request.dependencies;
      var vs := restEndpoint.LookupVersions(vParams);
      if vs.Failure? {
        return Failure(RestFailure(vs.error));
      }
      var response := new TranslationResponse(vs.value);
      var pParams := request.project;
      if pParams != [] {
        var ps := restEndpoint.LookupProjectVersions(pParams);
        if ps.Failure? {
          return Failure(RestFailure(ps.error));
        }
        var pMap := ps.value;
        var projectVersion := pParams[0];
        var newProjectVersion := Get(pMap, projectVersion);
        response.PutAll(pMap);
        response.SetNewProjectVersion(newProjectVersion);
      }
      return Success(response);
    }
  }
}
