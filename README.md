# Alignment engine of the Gradle Manipulation Extension analyzer

The analyzer of GME (Gradle Manipulation Extension) fixes the versions of a Gradle build.
It collects the build's dependency coordinates, asks a remote Dependency Analyzer (DA) service
for aligned versions and for the project's next version, and reports the answer. This project
models the core of that engine and proves what it promises:

- **Configuration** (`configuration.dfy`, `configuration_factory.dfy`). The configuration values
  the engine reads, with their declared defaults. The factory builds a composite configuration
  once and hands the same object out on every later call. Its sources come in this order:
  - the environment, with each variable name lower-cased and `_` turned into `.`;
  - the system properties;
  - the bundled defaults file.
- **Request and response** (`alignment_service.dfy`). A request is the project coordinates plus
  the dependency coordinates. A response answers two things: the aligned version of a
  coordinate, and the new project version.
- **Dependency exclusion** (`dependency_exclusion_customizer.dfy`, `dependency_property_parser.dfy`).
  This request customizer runs before the remote call. For each
  `dependencyExclusion.<group>:<artifact>@<module>` property that parses and whose scope covers
  the module, it rejects the dependencies that match the pattern. With no such property it is the
  identity `NOOP`. `dependency_exclusion_scenario.dfy` proves the repository's own exclusion
  test scenario.
- **Remote service** (`da_alignment_service.dfy`). The constructor refuses a configuration that
  has no `restURL` unless the dependency source is `NONE`. `align` makes these remote calls and
  builds the response in place:
  - with source `NONE`, no call, and an empty response;
  - otherwise one dependency lookup;
  - then, for a non-empty project list, one project lookup, whose entries override the first
    lookup's.

  The translator is a class whose `calls` trace records each lookup. `align` is proved against
  the functions `Alignment` (the response) and `AlignmentCalls` (the trace).
- **Project version customizer** (`update_project_version_customizer.dfy`). A response decorator
  with order `-10`. It delegates aligned-version queries. It asks the version calculator for the
  new project version, with the wrapped response's own new project version as the only candidate.
- **Factory** (`alignment_service_factory.dfy`). `getAlignmentService` does the following:
  - it refuses an empty project version;
  - it builds the remote service;
  - it adds one request customizer, the exclusion customizer for the module;
  - it adds two response customizers, the dependency override first and the project version
    second.

The remote service's answers, the version calculator, the environment and the system properties
are parameters of the model: a function value, or a plain map.

The two source files disagree on the request's project. `DependencyExclusionCustomizer.customize`
(DependencyExclusionCustomizer.java:39,43) treats it as one coordinate. `DAAlignmentService.align`
(DAAlignmentService.java:64-73) treats it as a list: it passes the whole list to the project
lookup and takes the new version at its first element. The model follows `align`:
`Request.project` is a sequence, which `Customize` passes through unchanged.

## Model

| member | source | states |
|---|---|---|
| DependencyExclusionCustomizer.Test | analyzer/src/main/java/org/jboss/gm/analyzer/alignment/DependencyExclusionCustomizer.java:87-89 | An exclusion predicate passes a coordinate iff the coordinate differs from the pattern in a field the pattern does not wildcard (group or artifact); the version never matters. |
| DependencyExclusionCustomizer.Combined | analyzer/src/main/java/org/jboss/gm/analyzer/alignment/DependencyExclusionCustomizer.java:76 | The reduction of the predicates with `Predicate::and`, seeded with `x -> true`, passes a coordinate iff every predicate passes it; with no predicate it passes everything. |
| DependencyExclusionCustomizer.CombinedPredicate | analyzer/src/main/java/org/jboss/gm/analyzer/alignment/DependencyExclusionCustomizer.java:76 | The single predicate an exclusion customizer wraps passes a coordinate iff none of its patterns matches it (and agrees with the fold of its predicates on every coordinate). |
| DependencyExclusionCustomizer.Filter | analyzer/src/main/java/org/jboss/gm/analyzer/alignment/DependencyExclusionCustomizer.java:40-41 | Stream filtering never lengthens the list; what it keeps is stated by the filter lemmas below. |
| DependencyExclusionCustomizer.FilterIsSubsequence | analyzer/src/main/java/org/jboss/gm/analyzer/alignment/DependencyExclusionCustomizer.java:40-41 | Stream filtering keeps the surviving dependencies in their original relative order. |
| DependencyExclusionCustomizer.FilterCounts | analyzer/src/main/java/org/jboss/gm/analyzer/alignment/DependencyExclusionCustomizer.java:40-41 | Stream filtering keeps every passing dependency exactly as often as it occurs, and drops every other one. |
| DependencyExclusionCustomizer.FilterIdempotent | analyzer/src/main/java/org/jboss/gm/analyzer/alignment/DependencyExclusionCustomizer.java:40-41 | Filtering an already filtered list with the same predicate changes nothing. |
| DependencyExclusionCustomizer.Customize | analyzer/src/main/java/org/jboss/gm/analyzer/alignment/DependencyExclusionCustomizer.java:37-44 | `customize`: the project is unchanged. The dependencies are exactly those the customizer keeps, each with its original multiplicity, in the original order. `NOOP` keeps everything. |
| DependencyExclusionCustomizer.CustomizeIdempotent | analyzer/src/main/java/org/jboss/gm/analyzer/alignment/DependencyExclusionCustomizer.java:37-44 | Customizing a customized request again changes nothing. |
| DependencyExclusionCustomizer.WildcardArtifactExcludesGroup | analyzer/src/main/java/org/jboss/gm/analyzer/alignment/DependencyExclusionCustomizer.java:87-89 | A `group:*` pattern removes every dependency of that group. |
| DependencyExclusionCustomizer.ExactPatternExcludesOnlyItself | analyzer/src/main/java/org/jboss/gm/analyzer/alignment/DependencyExclusionCustomizer.java:87-89 | A single exact `group:artifact` pattern removes exactly the dependencies with that group and artifact, of any version. |
| DependencyExclusionCustomizer.CollectStep | analyzer/src/main/java/org/jboss/gm/analyzer/alignment/DependencyExclusionCustomizer.java:56-70 | One loop turn: a surviving key appends its pattern, and any other key appends nothing. The collected predicates stay one per surviving key visited. |
| DependencyExclusionCustomizer.OrderStep | analyzer/src/main/java/org/jboss/gm/analyzer/alignment/DependencyExclusionCustomizer.java:56-70 | One loop turn, for the visit order: a surviving key is appended once, with its pattern at the same position, and any other key is not. |
| DependencyExclusionCustomizer.LoopStep | analyzer/src/main/java/org/jboss/gm/analyzer/alignment/DependencyExclusionCustomizer.java:56-70 | One whole loop turn, whichever way the key goes, keeps both loop invariants: one pattern per surviving key visited, and the patterns in visit order. |
| DependencyExclusionCustomizer.CollectPredicates | analyzer/src/main/java/org/jboss/gm/analyzer/alignment/DependencyExclusionCustomizer.java:53-70 | The key loop meets every key once. The collected patterns are, position by position, the patterns of the surviving keys in the order the loop met them: each surviving key exactly once, no other key. |
| DependencyExclusionCustomizer.CollectedCustomizer | analyzer/src/main/java/org/jboss/gm/analyzer/alignment/DependencyExclusionCustomizer.java:72-76 | The customizer made of the collected patterns (`NOOP` for none) is `NOOP` iff no key survives. Otherwise it has as many patterns as surviving keys, each the pattern of a surviving key, and it keeps a dependency iff the configuration does not exclude it. |
| DependencyExclusionCustomizer.CollectedKeepsIffNotExcluded | analyzer/src/main/java/org/jboss/gm/analyzer/alignment/DependencyExclusionCustomizer.java:72-89 | The customizer over the collected patterns keeps a dependency iff no surviving key's pattern matches it. |
| DependencyExclusionCustomizer.FromConfigurationForModule | analyzer/src/main/java/org/jboss/gm/analyzer/alignment/DependencyExclusionCustomizer.java:46-77 | `fromConfigurationForModule` gives `NOOP` iff no prefixed key survives. Otherwise its predicates are the patterns of the surviving keys, one per key, in the order the loop met them. The result keeps a dependency iff no surviving key's pattern matches it. |
| DependencyExclusionCustomizer.NoPropertiesNoSurvivors | analyzer/src/test/java/org/jboss/gm/analyzer/alignment/DependencyExclusionCustomizerFromConfigurationAndModuleTest.java:25-33 | Without any property no key survives, so the customizer is `NOOP`. |
| DependencyExclusionCustomizer.MalformedKeyIsSkipped | analyzer/src/test/java/org/jboss/gm/analyzer/alignment/DependencyExclusionCustomizerFromConfigurationAndModuleTest.java:35-44 | The malformed property `dependencyExclusion.org.acme` does not fail: no key survives, so the customizer is `NOOP`. |
| DependencyPropertyParser.Parse | analyzer/src/main/java/org/jboss/gm/analyzer/alignment/DependencyExclusionCustomizer.java:60 | A parsed key has non-empty, separator-free fields, and a key without `:` is refused. |
| DependencyPropertyParser.ParseRender | analyzer/src/main/java/org/jboss/gm/analyzer/alignment/DependencyExclusionCustomizer.java:60-61 | Parsing the canonical `group:artifact@moduleGroup:moduleArtifact` spelling of a valid key gives that key back. |
| DependencyPropertyParser.ParseBareModule | analyzer/src/main/java/org/jboss/gm/analyzer/alignment/DependencyExclusionCustomizer.java:60-61 | A module part with no group (`@*`) scopes the key to that artifact name in any group. |
| DependencyPropertyParser.NoModuleDefault | analyzer/src/main/java/org/jboss/gm/analyzer/alignment/DependencyExclusionCustomizer.java:60 | A key `group:artifact` with no module part parses to that pattern, scoped to every module (`*:*`). |
| DependencyPropertyParser.IndexOfJoin | analyzer/src/main/java/org/jboss/gm/analyzer/alignment/DependencyExclusionCustomizer.java:60 | In `a + c + b`, with `c` absent from `a`, the first separator sits right after `a`. |
| DependencyPropertyParser.SplitOnceJoin | analyzer/src/main/java/org/jboss/gm/analyzer/alignment/DependencyExclusionCustomizer.java:60 | Splitting `a + c + b` at its first `c` recovers `a` and `b` when `a` has no `c`. |
| DependencyPropertyParser.PropertiesByPrefix | analyzer/src/main/java/org/jboss/gm/analyzer/alignment/DependencyExclusionCustomizer.java:48-49 | `rest` is a key of the result iff `dependencyExclusion.` + `rest` is a configured property, with that property's value. |
| DependencyExclusionScenario.TestKeys | analyzer/src/test/java/org/jboss/gm/analyzer/alignment/DependencyExclusionCustomizerFromConfigurationAndModuleTest.java:59-70 | Removing the prefix from the five test properties gives exactly the five scoped keys. |
| DependencyExclusionScenario.TestScopes | analyzer/src/test/java/org/jboss/gm/analyzer/alignment/DependencyExclusionCustomizerFromConfigurationAndModuleTest.java:59-68 | The hibernate, jackson, undertow and mockito keys apply to `org.acme:test`. The wiremock key, scoped to `org.acme:other`, does not. |
| DependencyExclusionScenario.TestSurvivors | analyzer/src/test/java/org/jboss/gm/analyzer/alignment/DependencyExclusionCustomizerFromConfigurationAndModuleTest.java:59-73 | The surviving keys for the test module are exactly those four. |
| DependencyExclusionScenario.SurvivingParses | analyzer/src/test/java/org/jboss/gm/analyzer/alignment/DependencyExclusionCustomizerFromConfigurationAndModuleTest.java:59-66 | The patterns and scopes the four surviving keys parse to. |
| DependencyExclusionScenario.TestExclusions | analyzer/src/test/java/org/jboss/gm/analyzer/alignment/DependencyExclusionCustomizerFromConfigurationAndModuleTest.java:49-68 | With these four keys, both hibernate artifacts, jackson-databind and mockito-core are excluded. undertow-core (the key names undertow-servlet), mongo-java-driver and wiremock-jre8 are not. |
| DependencyExclusionScenario.ExclusionScenario | analyzer/src/test/java/org/jboss/gm/analyzer/alignment/DependencyExclusionCustomizerFromConfigurationAndModuleTest.java:46-85 | The customizer built for `org.acme:test` keeps the project, and turns the seven test dependencies into exactly undertow-core, mongo-java-driver and wiremock-jre8, in order. |
| DependencyExclusionScenario.FilteredTestRequest | analyzer/src/test/java/org/jboss/gm/analyzer/alignment/DependencyExclusionCustomizerFromConfigurationAndModuleTest.java:75-83 | A customizer that keeps only the third, fifth and seventh test dependency leaves exactly those, in order. |
| AlignmentService.Response.AlignedVersionOf | analyzer/src/main/java/org/jboss/gm/analyzer/alignment/UpdateProjectVersionCustomizer.java:67-70 | The plain response answers from its translation map: a version iff the coordinate is a key, and then that key's value. The project-version decorator gives whatever the response it wraps gives. |
| AlignmentService.Response.NewProjectVersion | analyzer/src/main/java/org/jboss/gm/analyzer/alignment/UpdateProjectVersionCustomizer.java:58-65 | The plain response gives the version it holds. The decorator, when it succeeds, always gives a version. It fails with the wrapped response's own failure when that one fails, and otherwise only with a calculator failure. |
| AlignmentService.Response.VersionCandidates | analyzer/src/main/java/org/jboss/gm/analyzer/alignment/UpdateProjectVersionCustomizer.java:82-85 | The candidate set is empty iff the wrapped response has no new project version. Otherwise it is exactly that version. A failure of that version propagates. |
| DAAlignmentService.Translator.LookupVersions | analyzer/src/main/java/org/jboss/gm/analyzer/alignment/DAAlignmentService.java:58 | The dependency lookup answers what the remote service answers, and records one call with exactly these coordinates. |
| DAAlignmentService.Translator.LookupProjectVersions | analyzer/src/main/java/org/jboss/gm/analyzer/alignment/DAAlignmentService.java:69 | The project lookup answers what the remote service answers, and records one call with exactly these coordinates. |
| DAAlignmentService.TranslationResponse.PutAll | analyzer/src/main/java/org/jboss/gm/analyzer/alignment/DAAlignmentService.java:78 | `putAll`: the project entries override the map's own, and the new project version is untouched. |
| DAAlignmentService.TranslationResponse.SetNewProjectVersion | analyzer/src/main/java/org/jboss/gm/analyzer/alignment/DAAlignmentService.java:79 | Sets the new project version, and leaves the translation map untouched. |
| DAAlignmentService.CheckEndpoint | analyzer/src/main/java/org/jboss/gm/analyzer/alignment/DAAlignmentService.java:37-42 | Construction fails iff there is no endpoint and the dependency source is not `NONE`. The error names `restURL`. |
| DAAlignmentService.DAAlignmentService.Create | analyzer/src/main/java/org/jboss/gm/analyzer/alignment/DAAlignmentService.java:34-45 | `new DAAlignmentService(configuration)` fails exactly when the guard does, with its error. Otherwise it keeps the configured dependency source and the translator. |
| DAAlignmentService.Alignment | analyzer/src/main/java/org/jboss/gm/analyzer/alignment/DAAlignmentService.java:47-83 | The response of `align`: empty for source `NONE`. A failure of either lookup propagates. Project-lookup entries win over dependency-lookup entries. The new version is the project lookup's entry for the first project coordinate, and absent with an empty project list. |
| DAAlignmentService.AlignmentCalls | analyzer/src/main/java/org/jboss/gm/analyzer/alignment/DAAlignmentService.java:49-69 | The remote calls of `align`: none iff the source is `NONE`; otherwise the dependency lookup first. The project lookup is a second call iff the project list is non-empty and the first lookup succeeded. |
| DAAlignmentService.DAAlignmentService.Align | analyzer/src/main/java/org/jboss/gm/analyzer/alignment/DAAlignmentService.java:47-83 | `align` appends exactly `AlignmentCalls` to the translator's trace. It succeeds iff `Alignment` does, with a fresh response equal to its value, and otherwise fails with the same error. |
| UpdateProjectVersionCustomizer.Order | analyzer/src/main/java/org/jboss/gm/analyzer/alignment/UpdateProjectVersionCustomizer.java:30-33 | `order()` is `-10`, negative, whatever the customizer holds. |
| UpdateProjectVersionCustomizer.Customize | analyzer/src/main/java/org/jboss/gm/analyzer/alignment/UpdateProjectVersionCustomizer.java:35-70 | `customize` wraps the response unchanged and answers every aligned-version query as the wrapped response does. A computed new version is never absent. |
| UpdateProjectVersionCustomizer.NewVersionIsCalculated | analyzer/src/main/java/org/jboss/gm/analyzer/alignment/UpdateProjectVersionCustomizer.java:58-85 | The new project version is what the calculator returns for the captured coordinate and versioning state, with the candidate set from the wrapped response. A calculator failure becomes an error, never an absent version. |
| UpdateProjectVersionCustomizer.WrappedFailurePropagates | analyzer/src/main/java/org/jboss/gm/analyzer/alignment/UpdateProjectVersionCustomizer.java:82-85 | A failure of the wrapped response's own project version is the decorator's failure. |
| UpdateProjectVersionCustomizer.NewVersionIgnoresTranslationMap | analyzer/src/main/java/org/jboss/gm/analyzer/alignment/UpdateProjectVersionCustomizer.java:58-65 | The new version does not depend on the wrapped response's translation map. |
| UpdateProjectVersionCustomizer.DefaultVersioningState | common/src/main/java/org/jboss/gm/common/Configuration.java:72-78 | With the default configuration the calculator's state has suffix `redhat` and padding 5. |
| AlignmentServiceFactory.ModuleCoordinate | analyzer/src/main/java/org/jboss/gm/analyzer/alignment/AlignmentServiceFactory.java:25-32 | An empty project version is refused with the empty-version error. Otherwise the coordinate is the project's group, name and version. |
| AlignmentServiceFactory.ResponseCustomizers | analyzer/src/main/java/org/jboss/gm/analyzer/alignment/AlignmentServiceFactory.java:44-48 | Exactly two response customizers: the dependency override, then the project-version customizer (order `-10`). Both are built for the module coordinate and the configuration. |
| AlignmentServiceFactory.RequestCustomizers | analyzer/src/main/java/org/jboss/gm/analyzer/alignment/AlignmentServiceFactory.java:38-42 | Exactly one request customizer. It is `NOOP` iff no key survives for the module, and it keeps a dependency iff the configuration does not exclude it for the module. |
| AlignmentServiceFactory.GetAlignmentService | analyzer/src/main/java/org/jboss/gm/analyzer/alignment/AlignmentServiceFactory.java:24-36 | An empty version fails first. Otherwise it fails iff the remote-service guard fails, with `restURL`. On success: a fresh remote service; one exclusion customizer for the module, `NOOP` iff no key survives for it and otherwise keeping exactly what the configuration does not exclude; and the two response customizers in order. |
| ConfigurationFactory.ConvertKey | analyzer/src/main/java/org/jboss/gm/analyzer/alignment/ConfigurationFactory.java:67-69 | `convertKey` keeps the length. Upper-case ASCII letters become lower-case, `_` becomes `.`, and every other character is kept. No `_` and no upper-case letter remain. |
| ConfigurationFactory.ConvertKeyIdempotent | analyzer/src/main/java/org/jboss/gm/analyzer/alignment/ConfigurationFactory.java:67-69 | Converting a converted name changes nothing. |
| ConfigurationFactory.ConvertedNamesNoMore | analyzer/src/main/java/org/jboss/gm/analyzer/alignment/ConfigurationFactory.java:58-65 | Converting a set of names gives no more names than there were. |
| ConfigurationFactory.GetEnvWithConvertedKeys | analyzer/src/main/java/org/jboss/gm/analyzer/alignment/ConfigurationFactory.java:58-65 | The converted map's names are exactly the converted environment names. Each value comes from a variable with that converted name. There are at most as many entries as variables. A variable whose converted name is unshared keeps its value. |
| ConfigurationFactory.CompositeConfiguration.AddConfiguration | analyzer/src/main/java/org/jboss/gm/analyzer/alignment/ConfigurationFactory.java:26-28 | Adds one source at the end. |
| ConfigurationFactory.ConfigurationFactory.GetConfiguration | analyzer/src/main/java/org/jboss/gm/analyzer/alignment/ConfigurationFactory.java:23-43 | A later call returns the same composite, untouched. The first call creates a fresh composite: the converted environment, then the system properties, then the defaults file. When the defaults file fails to load, the error propagates and the kept composite holds the first two sources. |

## Left out

- HTTP transport, batching, retries and timeouts of the remote translator are not modelled. Its two lookups are function values, so a translator answers the same coordinates the same way every time. A lookup either answers a map or fails with the reason of its `RestException`, which `align` passes on as a `RestFailure`.
- AlignmentService.Response.NewProjectVersion: the model assumes the version calculator always asks for its candidate versions. It reads the wrapped response's new project version before `calculate` is called, and a failure there is returned without calling `calculate`. In the library, `getVersionCandidates` is a callback that only the calculator decides to call. UpdateProjectVersionCustomizer.WrappedFailurePropagates therefore holds under that assumption.
- The version calculator's internals are not part of this model. `calculate` is a parameter, and the model states only what it is called with and how its answer is passed on.
- `DependencyPropertyParser.parse`, `ProjectRef.matches` and `PropertiesUtils.getPropertiesByPrefix` are library code that is not part of this model. The model uses simplified stand-ins with the key format `group:artifact@moduleGroup:moduleArtifact` and the `*` wildcard.
- DependencyOverrideCustomizer and WithCustomizersDelegatingAlignmentService are not part of this model. The factory records the override customizer by the coordinate and configuration it is built from, and the delegating service as its delegate plus the two customizer lists.
- `ConfigCache.getOrCreate` and the OWNER library's loading of a `Configuration` from properties are not modelled. A configuration is a plain value, and `getProperties()` caching is left out.
- UpdateProjectVersionCustomizer.Customize: the versioning state is derived from the configuration's suffix settings, not from the whole property set the library reads.
- ConfigurationFactory.ConvertKey: lower-casing covers ASCII letters only; Java's locale-dependent, full Unicode `toLowerCase` is not modelled.
- The environment, the system properties and the defaults file are parameters of `GetConfiguration`. Reading them, and the library's `CompositeConfiguration` lookup semantics, are not modelled.
- Iterating a `HashMap` or key set has no defined order. The loops pick any remaining key, so the model fixes no order for the predicates or for the entries (it only records the order met, as a ghost sequence), and when two variables convert to the same name the model does not say which one wins.
- `align` puts the project entries into the lookup's own returned map. That aliasing is not modelled: the response owns a copy.
- The JSON answers of the DA wiremock test are not part of this model, so that test has no concrete scenario here.
- The strict version-conflict check, the Gradle plugins and tasks, the CLI and all logging are not modelled.
- The Java integer width does not matter here. The order `-10` and the padding `5` are plain integers.
