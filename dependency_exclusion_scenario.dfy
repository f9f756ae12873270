/**
 * The exclusion scenario of the repository's customizer test: five scoped keys for module
 * `org.acme:test` and seven dependencies, of which three are kept.
 */
module DependencyExclusionScenario {
  import opened Wrappers
  import opened Coordinates
  import opened DependencyPropertyParser
  import opened Config
  import opened AlignmentService
  import opened DependencyExclusionCustomizer

  const HIBERNATE_KEY: string := "org.hibernate:*@*"
  const JACKSON_KEY: string := "com.fasterxml.jackson.core:jackson-databind@*"
  const UNDERTOW_KEY: string := "io.undertow:undertow-servlet@*"
  const MOCKITO_KEY: string := "org.mockito:*@org.acme:test"
  const WIREMOCK_KEY: string := "com.github.tomakehurst:*@org.acme:other"

  const MODULE: Pattern := Pattern("org.acme", "test")

  function TestConfiguration(): Configuration {
    WithDefaults(map[
      PREFIX + HIBERNATE_KEY := "",
      PREFIX + JACKSON_KEY := "",
      PREFIX + UNDERTOW_KEY := "",
      PREFIX + MOCKITO_KEY := "",
      PREFIX + WIREMOCK_KEY := ""], None)
  }

  const HIBERNATE_CORE: Gav := Gav("org.hibernate", "hibernate-core", "5.3.7.Final")
  const HIBERNATE_VALIDATOR: Gav := Gav("org.hibernate", "hibernate-validator", "6.0.16.Final")
  const UNDERTOW_CORE: Gav := Gav("io.undertow", "undertow-core", "2.0.15.Final")
  const JACKSON_DATABIND: Gav := Gav("com.fasterxml.jackson.core", "jackson-databind", "2.9.8")
  const MONGO_DRIVER: Gav := Gav("org.mongodb", "mongo-java-driver", "3.10.2")
  const MOCKITO_CORE: Gav := Gav("org.mockito", "mockito-core", "2.27.0")
  const WIREMOCK: Gav := Gav("com.github.tomakehurst", "wiremock-jre8", "2.23.2")

  function TestRequest(): Request {
    Request([Gav("org.acme", "dummy", "1.0.0")],
      [HIBERNATE_CORE, HIBERNATE_VALIDATOR, UNDERTOW_CORE, JACKSON_DATABIND, MONGO_DRIVER, MOCKITO_CORE, WIREMOCK])
  }

  /** The prefix is stripped from exactly the five configured names. */
  lemma TestKeys()
    ensures PropertiesByPrefix(TestConfiguration().properties, PREFIX).Keys
      == {HIBERNATE_KEY, JACKSON_KEY, UNDERTOW_KEY, MOCKITO_KEY, WIREMOCK_KEY}
  {
    forall rest | rest in PropertiesByPrefix(TestConfiguration().properties, PREFIX)
      ensures rest in {HIBERNATE_KEY, JACKSON_KEY, UNDERTOW_KEY, MOCKITO_KEY, WIREMOCK_KEY}
    {
      assert rest == (PREFIX + rest)[|PREFIX|..];
    }
  }

  lemma ParseHibernateKey()
    ensures Parse(HIBERNATE_KEY) == Success(ScopedKey(Pattern("org.hibernate", "*"), Pattern("*", "*")))
  {
    assert HIBERNATE_KEY == "org.hibernate" + [':'] + "*" + ['@'] + "*";
    ParseBareModule("org.hibernate", "*", "*");
  }

  lemma ParseJacksonKey()
    ensures Parse(JACKSON_KEY) == Success(ScopedKey(Pattern("com.fasterxml.jackson.core", "jackson-databind"), Pattern("*", "*")))
  {
    JacksonKeySpelling();
    ParseBareModule("com.fasterxml.jackson.core", "jackson-databind", "*");
  }

  lemma JacksonKeySpelling()
    ensures ValidField("com.fasterxml.jackson.core") && ValidField("jackson-databind")
    ensures JACKSON_KEY == "com.fasterxml.jackson.core" + [':'] + "jackson-databind" + ['@'] + "*"
  {
    assert ValidField("com.fasterxml.jackson.core") && ValidField("jackson-databind");
  }

  lemma ParseUndertowKey()
    ensures Parse(UNDERTOW_KEY) == Success(ScopedKey(Pattern("io.undertow", "undertow-servlet"), Pattern("*", "*")))
  {
    UndertowKeySpelling();
    ParseBareModule("io.undertow", "undertow-servlet", "*");
  }

  lemma UndertowKeySpelling()
    ensures ValidField("io.undertow") && ValidField("undertow-servlet")
    ensures UNDERTOW_KEY == "io.undertow" + [':'] + "undertow-servlet" + ['@'] + "*"
  {
    assert ValidField("io.undertow") && ValidField("undertow-servlet");
  }

  lemma MockitoKeyIsCanonical()
    ensures ValidKey(ScopedKey(Pattern("org.mockito", "*"), Pattern("org.acme", "test")))
    ensures Render(ScopedKey(Pattern("org.mockito", "*"), Pattern("org.acme", "test"))) == MOCKITO_KEY
  {
  }

  lemma ParseMockitoKey()
    ensures Parse(MOCKITO_KEY) == Success(ScopedKey(Pattern("org.mockito", "*"), Pattern("org.acme", "test")))
  {
    MockitoKeyIsCanonical();
    ParseRender(ScopedKey(Pattern("org.mockito", "*"), Pattern("org.acme", "test")));
  }

  lemma WiremockKeyIsValid()
    ensures ValidKey(ScopedKey(Pattern("com.github.tomakehurst", "*"), Pattern("org.acme", "other")))
  {
    assert ValidField("com.github.tomakehurst");
    assert ValidField("org.acme");
  }

  lemma WiremockKeyIsCanonical()
    ensures Render(ScopedKey(Pattern("com.github.tomakehurst", "*"), Pattern("org.acme", "other"))) == WIREMOCK_KEY
  {
  }

  lemma ParseWiremockKey()
    ensures Parse(WIREMOCK_KEY) == Success(ScopedKey(Pattern("com.github.tomakehurst", "*"), Pattern("org.acme", "other")))
  {
    WiremockKeyIsValid();
    WiremockKeyIsCanonical();
    ParseRender(ScopedKey(Pattern("com.github.tomakehurst", "*"), Pattern("org.acme", "other")));
  }

  /** Among five keys of which only the last does not survive, the survivors are the first four. */
  lemma FourOfFiveSurvive(k1: string, k2: string, k3: string, k4: string, k5: string, moduleRef: Pattern)
    requires Survives(k1, moduleRef) && Survives(k2, moduleRef) && Survives(k3, moduleRef) && Survives(k4, moduleRef)
    requires !Survives(k5, moduleRef)
    ensures Survivors({k1, k2, k3, k4, k5}, moduleRef) == {k1, k2, k3, k4}
  {
    var survivors := Survivors({k1, k2, k3, k4, k5}, moduleRef);
    OnlySurvivorsRemain(k1, k2, k3, k4, k5, moduleRef);
    assert k1 in survivors && k2 in survivors;
    assert k3 in survivors && k4 in survivors;
  }

  lemma OnlySurvivorsRemain(k1: string, k2: string, k3: string, k4: string, k5: string, moduleRef: Pattern)
    requires !Survives(k5, moduleRef)
    ensures Survivors({k1, k2, k3, k4, k5}, moduleRef) <= {k1, k2, k3, k4}
  {
    forall k | k in Survivors({k1, k2, k3, k4, k5}, moduleRef) ensures k in {k1, k2, k3, k4} {
      assert Survives(k, moduleRef);
    }
  }

  /** Which of the five keys apply to `org.acme:test`. */
  lemma TestScopes()
    ensures Survives(HIBERNATE_KEY, MODULE) && Survives(JACKSON_KEY, MODULE)
    ensures Survives(UNDERTOW_KEY, MODULE) && Survives(MOCKITO_KEY, MODULE)
    ensures !Survives(WIREMOCK_KEY, MODULE)
  {
    HibernateKeySurvives();
    JacksonKeySurvives();
    UndertowKeySurvives();
    MockitoKeySurvives();
    WiremockKeyIsOutOfScope();
  }

  lemma HibernateKeySurvives() ensures Survives(HIBERNATE_KEY, MODULE) { ParseHibernateKey(); }
  lemma JacksonKeySurvives() ensures Survives(JACKSON_KEY, MODULE) { ParseJacksonKey(); }
  lemma UndertowKeySurvives() ensures Survives(UNDERTOW_KEY, MODULE) { ParseUndertowKey(); }
  lemma MockitoKeySurvives() ensures Survives(MOCKITO_KEY, MODULE) { ParseMockitoKey(); }
  lemma WiremockKeyIsOutOfScope() ensures !Survives(WIREMOCK_KEY, MODULE) { ParseWiremockKey(); }

  /** Every key but the one scoped to `org.acme:other` applies to `org.acme:test`. */
  lemma TestSurvivors()
    ensures SurvivingKeys(TestConfiguration(), MODULE) == {HIBERNATE_KEY, JACKSON_KEY, UNDERTOW_KEY, MOCKITO_KEY}
  {
    TestKeys();
    TestScopes();
    FourOfFiveSurvive(HIBERNATE_KEY, JACKSON_KEY, UNDERTOW_KEY, MOCKITO_KEY, WIREMOCK_KEY, MODULE);
  }

  /** How the four keys that apply to the module parse. */
  lemma SurvivingParses()
    ensures Parse(HIBERNATE_KEY) == Success(ScopedKey(Pattern("org.hibernate", "*"), Pattern("*", "*")))
    ensures Parse(JACKSON_KEY) == Success(ScopedKey(Pattern("com.fasterxml.jackson.core", "jackson-databind"), Pattern("*", "*")))
    ensures Parse(UNDERTOW_KEY) == Success(ScopedKey(Pattern("io.undertow", "undertow-servlet"), Pattern("*", "*")))
    ensures Parse(MOCKITO_KEY) == Success(ScopedKey(Pattern("org.mockito", "*"), Pattern("org.acme", "test")))
  {
    ParseHibernateKey();
    ParseJacksonKey();
    ParseUndertowKey();
    ParseMockitoKey();
  }

  /**
   * Which of the seven dependencies a configuration excludes when exactly four keys survive,
   * parsed as the four test keys are.
   */
  lemma TestExclusions(configuration: Configuration, h: string, j: string, u: string, m: string)
    requires SurvivingKeys(configuration, MODULE) == {h, j, u, m}
    requires Parse(h) == Success(ScopedKey(Pattern("org.hibernate", "*"), Pattern("*", "*")))
    requires Parse(j) == Success(ScopedKey(Pattern("com.fasterxml.jackson.core", "jackson-databind"), Pattern("*", "*")))
    requires Parse(u) == Success(ScopedKey(Pattern("io.undertow", "undertow-servlet"), Pattern("*", "*")))
    requires Parse(m) == Success(ScopedKey(Pattern("org.mockito", "*"), Pattern("org.acme", "test")))
    ensures ExcludedByConfiguration(configuration, MODULE, HIBERNATE_CORE)
    ensures ExcludedByConfiguration(configuration, MODULE, HIBERNATE_VALIDATOR)
    ensures !ExcludedByConfiguration(configuration, MODULE, UNDERTOW_CORE)
    ensures ExcludedByConfiguration(configuration, MODULE, JACKSON_DATABIND)
    ensures !ExcludedByConfiguration(configuration, MODULE, MONGO_DRIVER)
    ensures ExcludedByConfiguration(configuration, MODULE, MOCKITO_CORE)
    ensures !ExcludedByConfiguration(configuration, MODULE, WIREMOCK)
  {
    assert h in SurvivingKeys(configuration, MODULE) && Matches(Parse(h).value.dependency, HIBERNATE_CORE);
    assert Matches(Parse(h).value.dependency, HIBERNATE_VALIDATOR);
    assert j in SurvivingKeys(configuration, MODULE) && Matches(Parse(j).value.dependency, JACKSON_DATABIND);
    assert m in SurvivingKeys(configuration, MODULE) && Matches(Parse(m).value.dependency, MOCKITO_CORE);
    NoSurvivorMatches(configuration, h, j, u, m, UNDERTOW_CORE);
    NoSurvivorMatches(configuration, h, j, u, m, MONGO_DRIVER);
    NoSurvivorMatches(configuration, h, j, u, m, WIREMOCK);
  }

  /** A dependency none of the four surviving patterns matches is not excluded. */
  lemma NoSurvivorMatches(configuration: Configuration, h: string, j: string, u: string, m: string, gav: Gav)
    requires SurvivingKeys(configuration, MODULE) == {h, j, u, m}
    requires Parse(h).Success? && !Matches(Parse(h).value.dependency, gav)
    requires Parse(j).Success? && !Matches(Parse(j).value.dependency, gav)
    requires Parse(u).Success? && !Matches(Parse(u).value.dependency, gav)
    requires Parse(m).Success? && !Matches(Parse(m).value.dependency, gav)
    ensures !ExcludedByConfiguration(configuration, MODULE, gav)
  {
    NoneOfFourMatches(SurvivingKeys(configuration, MODULE), Parse, h, j, u, m, gav);
  }

  /** Four keys none of whose patterns match: stated over any parser, so that no parser body unfolds. */
  lemma NoneOfFourMatches(keys: set<string>, parse: string -> Result<ScopedKey, ParseError>,
                          h: string, j: string, u: string, m: string, gav: Gav)
    requires keys == {h, j, u, m}
    requires parse(h).Success? && !Matches(parse(h).value.dependency, gav)
    requires parse(j).Success? && !Matches(parse(j).value.dependency, gav)
    requires parse(u).Success? && !Matches(parse(u).value.dependency, gav)
    requires parse(m).Success? && !Matches(parse(m).value.dependency, gav)
    ensures forall k :: k in keys && parse(k).Success? ==> !Matches(parse(k).value.dependency, gav)
  {
  }

  /** A customizer that keeps what the four surviving test keys do not exclude, dependency by dependency. */
  lemma KeptTestDependencies(configuration: Configuration, c: RequestCustomizer)
    requires SurvivingKeys(configuration, MODULE) == {HIBERNATE_KEY, JACKSON_KEY, UNDERTOW_KEY, MOCKITO_KEY}
    requires forall d :: Keeps(c, d) <==> !ExcludedByConfiguration(configuration, MODULE, d)
    ensures !Keeps(c, HIBERNATE_CORE) && !Keeps(c, HIBERNATE_VALIDATOR) && Keeps(c, UNDERTOW_CORE)
    ensures !Keeps(c, JACKSON_DATABIND) && Keeps(c, MONGO_DRIVER) && !Keeps(c, MOCKITO_CORE) && Keeps(c, WIREMOCK)
  {
    SurvivingParses();
    TestExclusions(configuration, HIBERNATE_KEY, JACKSON_KEY, UNDERTOW_KEY, MOCKITO_KEY);
  }

  /** Filtering the seven test dependencies through a customizer that keeps these three leaves them in order. */
  lemma FilteredTestRequest(c: RequestCustomizer)
    requires !Keeps(c, HIBERNATE_CORE) && !Keeps(c, HIBERNATE_VALIDATOR) && Keeps(c, UNDERTOW_CORE)
    requires !Keeps(c, JACKSON_DATABIND) && Keeps(c, MONGO_DRIVER) && !Keeps(c, MOCKITO_CORE) && Keeps(c, WIREMOCK)
    ensures Customize(c, TestRequest()).dependencies == [UNDERTOW_CORE, MONGO_DRIVER, WIREMOCK]
  {
    KeepsThirdFifthSeventh(c, TestRequest().project, HIBERNATE_CORE, HIBERNATE_VALIDATOR, UNDERTOW_CORE,
      JACKSON_DATABIND, MONGO_DRIVER, MOCKITO_CORE, WIREMOCK);
  }

  /** Of seven dependencies a customizer that keeps only the third, fifth and seventh keeps those, in order. */
  lemma KeepsThirdFifthSeventh(c: RequestCustomizer, project: seq<Gav>, d1: Gav, d2: Gav, d3: Gav, d4: Gav,
                               d5: Gav, d6: Gav, d7: Gav)
    requires !Keeps(c, d1) && !Keeps(c, d2) && Keeps(c, d3) && !Keeps(c, d4) && Keeps(c, d5)
    requires !Keeps(c, d6) && Keeps(c, d7)
    ensures Customize(c, Request(project, [d1, d2, d3, d4, d5, d6, d7])).dependencies == [d3, d5, d7]
  {
    FilterSeven(CombinedPredicate(c.predicates), d1, d2, d3, d4, d5, d6, d7);
  }

  lemma FilterSeven(keep: Gav -> bool, d1: Gav, d2: Gav, d3: Gav, d4: Gav, d5: Gav, d6: Gav, d7: Gav)
    requires !keep(d1) && !keep(d2) && keep(d3) && !keep(d4) && keep(d5) && !keep(d6) && keep(d7)
    ensures Filter(keep, [d1, d2, d3, d4, d5, d6, d7]) == [d3, d5, d7]
  {
    var t7 := [d7];
    var t6 := [d6] + t7;
    var t5 := [d5] + t6;
    var t4 := [d4] + t5;
    var t3 := [d3] + t4;
    var t2 := [d2] + t3;
    var t1 := [d1] + t2;
    FilterHead(keep, d7, []);
    FilterHead(keep, d6, t7);
    FilterHead(keep, d5, t6);
    FilterHead(keep, d4, t5);
    FilterHead(keep, d3, t4);
    FilterHead(keep, d2, t3);
    FilterHead(keep, d1, t2);
    assert t7 == [d7] + [];
    assert t1 == [d1, d2, d3, d4, d5, d6, d7];
    assert [d3, d5, d7] == [d3] + ([d5] + [d7]);
  }

  /** One step of the filter: a kept head stays in front of the filtered tail, a dropped one goes. */
  lemma FilterHead(keep: Gav -> bool, d: Gav, tail: seq<Gav>)
    ensures Filter(keep, [d] + tail) == if keep(d) then [d] + Filter(keep, tail) else Filter(keep, tail)
  {
    assert ([d] + tail)[0] == d && ([d] + tail)[1..] == tail;
  }

  /**
   * The test itself: a customizer for `org.acme:test` that keeps exactly what the five test
   * properties do not exclude leaves the project as it is and keeps undertow-core,
   * mongo-java-driver and wiremock-jre8, in that order.
   */
  lemma ExclusionScenario(c: RequestCustomizer)
    requires forall d :: Keeps(c, d) <==> !ExcludedByConfiguration(TestConfiguration(), MODULE, d)
    ensures Customize(c, TestRequest()).project == TestRequest().project
    ensures Customize(c, TestRequest()).dependencies == [UNDERTOW_CORE, MONGO_DRIVER, WIREMOCK]
  {
    TestSurvivors();
    KeptTestDependencies(TestConfiguration(), c);
    FilteredTestRequest(c);
  }
}
