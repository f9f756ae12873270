/**
 * The configuration values the alignment engine reads, with the defaults the configuration
 * interface declares. Loading them from system properties and the environment is not modelled:
 * a `Configuration` is a plain value handed to every component.
 */
module Config {
  import opened Wrappers

  /** Where aligned dependency versions come from; the engine only distinguishes `NONE`. */
  datatype DependencyPrecedence = REST | BOM | NONE

  datatype Configuration = Configuration(
    /** every configured property, as `getProperties()` returns them */
    properties: map<string, string>,
    /** the value of `restURL`, absent when not configured */
    daEndpoint: Option<string>,
    /** the value of `dependencySource` */
    dependencyConfiguration: DependencyPrecedence,
    versionIncrementalSuffix: string,
    versionIncrementalSuffixPadding: int)

  /** The key naming the Dependency Analyzer endpoint. */
  const DA: string := "restURL"

  const DEFAULT_VERSION_INCREMENTAL_SUFFIX: string := "redhat"
  const DEFAULT_VERSION_INCREMENTAL_SUFFIX_PADDING: int := 5
  const DEFAULT_DEPENDENCY_SOURCE: DependencyPrecedence := REST

  /** The configuration obtained when only `properties` and the endpoint are given and every other key takes its default. */
  function WithDefaults(properties: map<string, string>, daEndpoint: Option<string>): Configuration {
    Configuration(properties, daEndpoint, DEFAULT_DEPENDENCY_SOURCE,
      DEFAULT_VERSION_INCREMENTAL_SUFFIX, DEFAULT_VERSION_INCREMENTAL_SUFFIX_PADDING)
  }

  /** The version calculator's state: the incremental suffix and its zero-padding width. */
  datatype VersioningState = VersioningState(incrementalSuffix: string, incrementalSuffixPadding: int)

  /** `new VersioningState(configuration.getProperties())`: the suffix settings of the configuration. */
  function VersioningStateOf(configuration: Configuration): VersioningState {
    VersioningState(configuration.versionIncrementalSuffix, configuration.versionIncrementalSuffixPadding)
  }
}
