/**
 * The response customizer that decorates a response with a computed project version: aligned
 * versions are delegated to the wrapped response, and the new project version comes from the
 * version calculator, fed with the wrapped response's own new project version as its only
 * candidate.
 */
module UpdateProjectVersionCustomizer {
  import opened Wrappers
  import opened Coordinates
  import opened Config
  import opened AlignmentService

  /**
   * The customizer: the module's own coordinate and the configuration captured at construction,
   * and the version calculator of the manipulation library.
   */
  datatype UpdateProjectVersionCustomizer =
    UpdateProjectVersionCustomizer(projectVersion: Gav, configuration: Configuration, calculate: Calculator)

  /** The position of this customizer among response customizers. */
  const ORDER: int := -10

  /** `order()`: the same constant whatever the customizer holds. */
  function Order(c: UpdateProjectVersionCustomizer): (r: int)
    ensures r == ORDER && r < 0
  {
    ORDER
  }

  /**
   * `customize`: wraps `response` without changing it. Every aligned-version query is answered
   * exactly as the wrapped response answers it, and a new project version, once computed, is
   * never absent.
   */
  function Customize(c: UpdateProjectVersionCustomizer, response: Response): (r: Response)
    ensures r.ProjectVersionCustomized? && r.original == response
    ensures forall gav :: r.AlignedVersionOf(gav) == response.AlignedVersionOf(gav)
    ensures r.NewProjectVersion().Success? ==> r.NewProjectVersion().value.Some?
  {
    ProjectVersionCustomized(response, c.projectVersion, VersioningStateOf(c.configuration), c.calculate)
  }

  /**
   * The new project version is what the calculator gives for the coordinate captured at
   * construction, with the versioning state of the configuration, and with the empty candidate
   * set when the wrapped response has no new project version, or else exactly that version. A
   * calculator failure becomes an unchecked error, never an absent version.
   */
  lemma NewVersionIsCalculated(c: UpdateProjectVersionCustomizer, response: Response)
    requires response.NewProjectVersion().Success?
    ensures var original := response.NewProjectVersion().value;
      var candidates := if original.None? then {} else {original.value};
      var calculated := c.calculate(c.projectVersion.group, c.projectVersion.artifact, c.projectVersion.version,
                                    VersioningStateOf(c.configuration), candidates);
      Customize(c, response).NewProjectVersion()
        == if calculated.Success? then Success(Some(calculated.value)) else Failure(VersionCalculation(calculated.error))
  {
  }

  /** A failure of the wrapped response's own project version leaves the decorator with the same failure. */
  lemma WrappedFailurePropagates(c: UpdateProjectVersionCustomizer, response: Response)
    requires response.NewProjectVersion().Failure?
    ensures Customize(c, response).NewProjectVersion() == Failure(response.NewProjectVersion().error)
  {
  }

  /** The new project version is not read from the translation map: two responses that differ only there agree. */
  lemma NewVersionIgnoresTranslationMap(c: UpdateProjectVersionCustomizer, m1: map<Gav, string>, m2: map<Gav, string>,
                                        version: Option<string>)
    ensures Customize(c, Translation(m1, version)).NewProjectVersion()
      == Customize(c, Translation(m2, version)).NewProjectVersion()
  {
  }

  /** Under the default configuration the calculator is asked for the `redhat` suffix padded to five digits. */
  lemma DefaultVersioningState(projectVersion: Gav, properties: map<string, string>, daEndpoint: Option<string>,
                               calculate: Calculator)
    ensures var c := UpdateProjectVersionCustomizer(projectVersion, WithDefaults(properties, daEndpoint), calculate);
      Customize(c, Translation(map[], None)).state == VersioningState("redhat", 5)
  {
  }
}
