/**
 * The wiring the alignment task uses: the remote alignment service of the configuration,
 * decorated with one request customizer and two response customizers built for the module's
 * own coordinate.
 */
module AlignmentServiceFactory {
  import opened Wrappers
  import opened Coordinates
  import opened Config
  import opened AlignmentService
  import opened DependencyExclusionCustomizer
  import Remote = DAAlignmentService
  import UP = UpdateProjectVersionCustomizer

  /** The Gradle project as the factory reads it: group, name and version, each as a string. */
  datatype Project = Project(group: string, name: string, version: string)

  /**
   * A response customizer of the wiring. The dependency-override customizer is kept as the
   * coordinate and configuration it is built from; the project-version customizer is modelled.
   */
  datatype ResponseCustomizer =
    | DependencyOverride(projectVersion: Gav, configuration: Configuration)
    | UpdateProjectVersion(customizer: UP.UpdateProjectVersionCustomizer)

  /** The delegating service: the remote service and the customizers around it, in list order. */
  datatype WiredAlignmentService = WiredAlignmentService(
    delegate: Remote.DAAlignmentService,
    requestCustomizers: seq<RequestCustomizer>,
    responseCustomizers: seq<ResponseCustomizer>)

  /**
   * The module coordinate: refused when the project version is the empty string, otherwise the
   * project's group, name and version.
   */
  function ModuleCoordinate(project: Project): (r: Result<Gav, AlignmentError>)
    ensures r.Failure? <==> project.version == ""
    ensures r.Failure? ==> r.error == EmptyProjectVersion
    ensures r.Success? ==> (r.value.group == project.group && r.value.artifact == project.name
      && r.value.version == project.version)
  {
    if project.version == "" then Failure(EmptyProjectVersion)
    else Success(Gav(project.group, project.name, project.version))
  }

  /**
   * `getResponseCustomizers`: exactly two, the dependency override first and the project version
   * second, both built for the same coordinate and configuration.
   */
  function ResponseCustomizers(configuration: Configuration, gav: Gav, calculate: Calculator): (r: seq<ResponseCustomizer>)
    ensures |r| == 2
    ensures r[0].DependencyOverride? && r[0].projectVersion == gav && r[0].configuration == configuration
    ensures r[1].UpdateProjectVersion? && r[1].customizer.projectVersion == gav
      && r[1].customizer.configuration == configuration
    ensures UP.Order(r[1].customizer) == -10
  {
    [DependencyOverride(gav, configuration), UpdateProjectVersion(UP.UpdateProjectVersionCustomizer(gav, configuration, calculate))]
  }

  /**
   * `getRequestCustomizers`: a single customizer, the exclusion customizer of the configuration
   * for the module, which keeps exactly what the configuration does not exclude for it.
   */
  method RequestCustomizers(configuration: Configuration, gav: Gav) returns (r: seq<RequestCustomizer>)
    ensures |r| == 1
    ensures r[0].NOOP? <==> SurvivingKeys(configuration, ProjectRefOf(gav)) == {}
    ensures forall d :: Keeps(r[0], d) <==> !ExcludedByConfiguration(configuration, ProjectRefOf(gav), d)
  {
    var exclusion;
    ghost var order;
    exclusion, order := FromConfigurationForModule(configuration, ProjectRefOf(gav));
    r := [exclusion];
  }

  /**
   * `getAlignmentService`: an empty project version is refused before anything is built; a
   * failing remote-service guard propagates; otherwise the remote service over the configuration
   * with its customizers. `restEndpoint` and `calculate` stand for the library's translator and
   * version calculator. The configuration is the one the cache hands out.
   */
  method GetAlignmentService(project: Project, configuration: Configuration, restEndpoint: Remote.Translator,
                             calculate: Calculator) returns (r: Result<WiredAlignmentService, AlignmentError>)
    ensures project.version == "" ==> r == Failure(EmptyProjectVersion)
    ensures project.version != "" ==> (r.Failure? <==> Remote.CheckEndpoint(configuration).Failure?)
    ensures project.version != "" && r.Failure? ==> r.error == MissingConfiguration(DA)
    ensures r.Success? ==> var gav := ModuleCoordinate(project).value;
      && ModuleCoordinate(project).Success?
      && fresh(r.value.delegate)
      && r.value.delegate.restEndpoint == restEndpoint
      && r.value.delegate.dependencySource == configuration.dependencyConfiguration
      && |r.value.requestCustomizers| == 1
      && (r.value.requestCustomizers[0].NOOP? <==> SurvivingKeys(configuration, ProjectRefOf(gav)) == {})
      && (forall d :: Keeps(r.value.requestCustomizers[0], d)
            <==> !ExcludedByConfiguration(configuration, ProjectRefOf(gav), d))
      && r.value.responseCustomizers == ResponseCustomizers(configuration, gav, calculate)
  {
    var coordinate := ModuleCoordinate(project);
    if coordinate.Failure? {
      return Failure(coordinate.error);
    }
    var projectVersionRef := coordinate.value;
    var service := Remote.DAAlignmentService.Create(configuration, restEndpoint);
    if service.Failure? {
      return Failure(service.error);
    }
    var requestCustomizers := RequestCustomizers(configuration, projectVersionRef);
    var responseCustomizers := ResponseCustomizers(configuration, projectVersionRef, calculate);
    return Success(WiredAlignmentService(service.value, requestCustomizers, responseCustomizers));
  }
}
