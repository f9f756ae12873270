/**
 * The values exchanged with an alignment service: the request (the project's coordinates and
 * its dependencies) and the response, which answers aligned-version queries.
 */
module AlignmentService {
  import opened Wrappers
  import opened Coordinates
  import opened Config

  /**
   * The project's own coordinates (one live entry, kept as a sequence) and the dependency
   * coordinates to align, in the order the build listed them.
   */
  datatype Request = Request(project: seq<Gav>, dependencies: seq<Gav>)

  /** The failures that leave the engine as exceptions. */
  datatype AlignmentError =
    | MissingConfiguration(key: string)   // ManipulationUncheckedException naming the missing key
    | RestFailure(reason: string)         // RestException from the lookup service
    | VersionCalculation(reason: string)  // calculator failure rethrown unchecked
    | EmptyProjectVersion                 // ManipulationException: "Project version is empty"

  /**
   * The version calculator of the manipulation library, treated as opaque:
   * `calculate(group, artifact, version, state)` with the candidate versions it asks for.
   */
  type Calculator = (string, string, string, VersioningState, set<string>) -> Result<string, string>

  /**
   * A response. `Translation` is the plain response the remote service builds;
   * `ProjectVersionCustomized` is the decorator that computes the project version.
   */
  datatype Response =
    | Translation(translationMap: map<Gav, string>, newProjectVersion: Option<string>)
    | ProjectVersionCustomized(original: Response, version: Gav, state: VersioningState, calculate: Calculator)
  {
    /**
     * `getAlignedVersionOfGav`: the aligned version of `gav`, absent (null) when there is none.
     * The plain response looks `gav` up in its translation map; a decorator delegates.
     */
    function AlignedVersionOf(gav: Gav): (r: Option<string>)
      ensures Translation? ==> (r.Some? <==> gav in translationMap)
      ensures Translation? && r.Some? ==> r.value == translationMap[gav]
      ensures ProjectVersionCustomized? ==> r == original.AlignedVersionOf(gav)
    {
      match this
      case Translation(m, _) => Get(m, gav)
      case ProjectVersionCustomized(original, _, _, _) => original.AlignedVersionOf(gav)
    }

    /**
     * `getNewProjectVersion`: absent (null) when there is none; a failure is an unchecked exception.
     * The plain response returns the version it was given. A decorator always has a version: it
     * fails only when the wrapped response fails, with that failure, or when the calculator does.
     */
    function NewProjectVersion(): (r: Result<Option<string>, AlignmentError>)
      ensures Translation? ==> r == Success(newProjectVersion)
      ensures ProjectVersionCustomized? && r.Success? ==> r.value.Some?
      ensures ProjectVersionCustomized? && original.NewProjectVersion().Failure? ==>
        r == Failure(original.NewProjectVersion().error)
      ensures ProjectVersionCustomized? && r.Failure? && original.NewProjectVersion().Success? ==>
        r.error.VersionCalculation?
      decreases this, 0
    {
      match this
      case Translation(_, v) => Success(v)
      case ProjectVersionCustomized(original, version, state, calculate) =>
        var candidates :- original.VersionCandidates();
        match calculate(version.group, version.artifact, version.version, state, candidates)
        case Success(v) => Success(Some(v))
        case Failure(e) => Failure(VersionCalculation(e))
    }

    /**
     * The candidate set a decorator built over this response hands to the calculator:
     * empty when this response has no new project version, otherwise exactly that version.
     */
    function VersionCandidates(): (r: Result<set<string>, AlignmentError>)
      ensures r.Failure? <==> NewProjectVersion().Failure?
      ensures r.Failure? ==> r.error == NewProjectVersion().error
      ensures r == Success({}) <==> NewProjectVersion() == Success(None)
      ensures forall v :: NewProjectVersion() == Success(Some(v)) ==> r == Success({v})
      decreases this, 1
    {
      var v :- NewProjectVersion();
      match v
      case None => Success({})
      case Some(version) => Success({version})
    }
  }
}
