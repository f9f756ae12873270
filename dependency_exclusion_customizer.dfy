/**
 * The request customizer that removes excluded dependencies from a request, built per module
 * from the `dependencyExclusion.<group>:<artifact>@<module>` configuration keys.
 */
module DependencyExclusionCustomizer {
  import opened Wrappers
  import opened Coordinates
  import opened DependencyPropertyParser
  import opened Config
  import opened AlignmentService

  const PREFIX: string := "dependencyExclusion."

  /**
   * A request customizer: the distinguished identity `NOOP`, or an exclusion customizer
   * holding one rejection predicate per surviving key, each given by its dependency pattern.
   */
  datatype RequestCustomizer = NOOP | DependencyExclusion(predicates: seq<Pattern>)

  /**
   * `DependencyExclusionPredicate.test`: passes exactly the coordinates the pattern does not
   * match, that is, those differing from it in a field the pattern does not wildcard.
   */
  predicate Test(dependency: Pattern, gav: Gav)
    ensures Test(dependency, gav) <==>
      (dependency.group != WILDCARD && dependency.group != gav.group)
      || (dependency.artifact != WILDCARD && dependency.artifact != gav.artifact)
  {
    !Matches(dependency, gav)
  }

  /**
   * `predicates.stream().reduce(x -> true, Predicate::and)` applied to `gav`: a left fold seeded
   * with `true`, which passes a coordinate iff every predicate passes it.
   */
  predicate Combined(predicates: seq<Pattern>, gav: Gav)
    ensures Combined(predicates, gav) <==> forall i :: 0 <= i < |predicates| ==> Test(predicates[i], gav)
    decreases |predicates|
  {
    if predicates == [] then true
    else
      var init := predicates[..|predicates| - 1];
      assert forall i :: 0 <= i < |init| ==> init[i] == predicates[i];
      Combined(init, gav) && Test(predicates[|predicates| - 1], gav)
  }

  /** Whether the customizer lets `gav` through. */
  predicate Keeps(c: RequestCustomizer, gav: Gav) {
    match c
    case NOOP => true
    case DependencyExclusion(predicates) => Combined(predicates, gav)
  }

  /** `a` is `b` with some elements left out, the rest in their original order. */
  predicate IsSubsequence<T(==)>(a: seq<T>, b: seq<T>)
    decreases |b|
  {
    a == [] || (b != [] && ((a[0] == b[0] && IsSubsequence(a[1..], b[1..])) || IsSubsequence(a, b[1..])))
  }

  /**
   * The reduced predicate of an exclusion customizer, as the single function value it wraps:
   * it passes a coordinate iff none of the configured patterns matches it.
   */
  function CombinedPredicate(predicates: seq<Pattern>): (keep: Gav -> bool)
    ensures forall gav :: keep(gav) == Combined(predicates, gav)
    ensures forall gav :: keep(gav) <==> forall i :: 0 <= i < |predicates| ==> !Matches(predicates[i], gav)
  {
    gav => Combined(predicates, gav)
  }

  /** `stream().filter(keep).collect(toList())`: exactly the elements `keep` passes. */
  function Filter(keep: Gav -> bool, dependencies: seq<Gav>): (r: seq<Gav>)
    ensures |r| <= |dependencies|
  {
    if dependencies == [] then []
    else if keep(dependencies[0]) then [dependencies[0]] + Filter(keep, dependencies[1..])
    else Filter(keep, dependencies[1..])
  }

  /** The filter only leaves elements out; it never reorders them. */
  lemma {:induction false} FilterIsSubsequence(keep: Gav -> bool, dependencies: seq<Gav>)
    ensures IsSubsequence(Filter(keep, dependencies), dependencies)
  {
    if dependencies != [] {
      var rest := Filter(keep, dependencies[1..]);
      FilterIsSubsequence(keep, dependencies[1..]);
      if keep(dependencies[0]) {
        assert ([dependencies[0]] + rest)[1..] == rest;
      }
    }
  }

  /** A coordinate the filter passes keeps all its occurrences; any other loses them all. */
  lemma {:induction false} FilterCounts(keep: Gav -> bool, dependencies: seq<Gav>)
    ensures forall d :: (multiset(Filter(keep, dependencies))[d]
      == if keep(d) then multiset(dependencies)[d] else 0)
  {
    if dependencies != [] {
      FilterCounts(keep, dependencies[1..]);
      assert dependencies == [dependencies[0]] + dependencies[1..];
    }
  }

  /** Filtering a filtered list again removes nothing more. */
  lemma {:induction false} FilterIdempotent(keep: Gav -> bool, dependencies: seq<Gav>)
    ensures Filter(keep, Filter(keep, dependencies)) == Filter(keep, dependencies)
  {
    if dependencies != [] {
      FilterIdempotent(keep, dependencies[1..]);
      var rest := Filter(keep, dependencies[1..]);
      if keep(dependencies[0]) {
        assert ([dependencies[0]] + rest)[1..] == rest;
      }
    }
  }

  /**
   * `customize`: the project is passed through; the dependencies become exactly those the
   * customizer keeps, each as often as in the input, in their original relative order.
   */
  function Customize(c: RequestCustomizer, request: Request): (r: Request)
    ensures r.project == request.project
    ensures IsSubsequence(r.dependencies, request.dependencies)
    ensures forall d :: multiset(r.dependencies)[d] == if Keeps(c, d) then multiset(request.dependencies)[d] else 0
    ensures forall d :: d in r.dependencies <==> d in request.dependencies && Keeps(c, d)
  {
    match c
    case NOOP =>
      assert IsSubsequence(request.dependencies, request.dependencies) by { SubsequenceReflexive(request.dependencies); }
      request
    case DependencyExclusion(predicates) =>
      var keep := CombinedPredicate(predicates);
      FilterIsSubsequence(keep, request.dependencies);
      FilterCounts(keep, request.dependencies);
      var r := Request(request.project, Filter(keep, request.dependencies));
      assert forall d :: d in r.dependencies <==> multiset(r.dependencies)[d] > 0;
      r
  }

  lemma {:induction false} SubsequenceReflexive<T>(s: seq<T>)
    ensures IsSubsequence(s, s)
  {
    if s != [] { SubsequenceReflexive(s[1..]); }
  }

  /** Applying the same customizer twice gives the same request as applying it once. */
  lemma CustomizeIdempotent(c: RequestCustomizer, request: Request)
    ensures Customize(c, Customize(c, request)) == Customize(c, request)
  {
    if c.DependencyExclusion? {
      FilterIdempotent(CombinedPredicate(c.predicates), request.dependencies);
    }
  }

  /** A `group:*` pattern removes every dependency of that group, whatever its artifact. */
  lemma WildcardArtifactExcludesGroup(c: RequestCustomizer, request: Request, group: string)
    requires c.DependencyExclusion? && Pattern(group, WILDCARD) in c.predicates
    ensures forall d :: d in Customize(c, request).dependencies ==> d.group != group
  {
  }

  /** A single exact `group:artifact` pattern removes that artifact of that group and nothing else. */
  lemma ExactPatternExcludesOnlyItself(request: Request, group: string, artifact: string)
    requires group != WILDCARD && artifact != WILDCARD
    ensures forall d :: (d in Customize(DependencyExclusion([Pattern(group, artifact)]), request).dependencies
      <==> d in request.dependencies && !(d.group == group && d.artifact == artifact))
  {
  }

  /** Whether a key (prefix removed) parses and its scope covers the module. */
  predicate Survives(key: string, moduleRef: Pattern) {
    Parse(key).Success? && MatchesModule(Parse(key).value, moduleRef)
  }

  /** The keys among `keys` that survive parsing and scoping. */
  function Survivors(keys: set<string>, moduleRef: Pattern): (r: set<string>)
    ensures r <= keys
  {
    set k | k in keys && Survives(k, moduleRef)
  }

  /** The `dependencyExclusion.` keys, prefix removed, that survive parsing and scoping for the module. */
  function SurvivingKeys(configuration: Configuration, moduleRef: Pattern): set<string> {
    Survivors(PropertiesByPrefix(configuration.properties, PREFIX).Keys, moduleRef)
  }

  /** Whether the configuration excludes `gav` from the alignment of the module. */
  predicate ExcludedByConfiguration(configuration: Configuration, moduleRef: Pattern, gav: Gav) {
    exists k :: k in SurvivingKeys(configuration, moduleRef) && Matches(Parse(k).value.dependency, gav)
  }

  /** `predicates` holds one dependency pattern per key of `keys` that survives parsing and scoping. */
  predicate CollectedFrom(predicates: seq<Pattern>, keys: set<string>, moduleRef: Pattern) {
    && |predicates| == |Survivors(keys, moduleRef)|
    && (forall i :: 0 <= i < |predicates| ==>
         exists k :: k in Survivors(keys, moduleRef) && Parse(k).value.dependency == predicates[i])
    && (forall k :: k in Survivors(keys, moduleRef) ==> Parse(k).value.dependency in predicates)
  }

  /**
   * `order` lists the surviving keys of `keys`, each once, in the order the loop met them, and
   * `predicates[i]` is the dependency pattern of `order[i]`.
   */
  predicate InVisitOrder(predicates: seq<Pattern>, order: seq<string>, keys: set<string>, moduleRef: Pattern) {
    && |order| == |predicates|
    && (forall i :: 0 <= i < |order| ==>
         order[i] in Survivors(keys, moduleRef) && predicates[i] == Parse(order[i]).value.dependency)
    && (forall i, j :: 0 <= i < j < |order| ==> order[i] != order[j])
    && (forall k :: k in Survivors(keys, moduleRef) ==> k in order)
  }

  /** One turn of the loop: a surviving key adds its pattern, any other key adds nothing. */
  lemma CollectStep(predicates: seq<Pattern>, visited: set<string>, key: string, moduleRef: Pattern)
    requires key !in visited
    requires CollectedFrom(predicates, visited, moduleRef)
    ensures Survives(key, moduleRef) ==>
      CollectedFrom(predicates + [Parse(key).value.dependency], visited + {key}, moduleRef)
    ensures !Survives(key, moduleRef) ==> CollectedFrom(predicates, visited + {key}, moduleRef)
  {
    var before := Survivors(visited, moduleRef);
    var after := Survivors(visited + {key}, moduleRef);
    if Survives(key, moduleRef) {
      assert after == before + {key};
      var next := predicates + [Parse(key).value.dependency];
      forall i | 0 <= i < |next|
        ensures exists k :: k in after && Parse(k).value.dependency == next[i]
      {
        if i == |predicates| {
          assert key in after && Parse(key).value.dependency == next[i];
        } else {
          var k :| k in before && Parse(k).value.dependency == predicates[i];
          assert k in after && Parse(k).value.dependency == next[i];
        }
      }
    } else {
      assert after == before;
    }
  }

  /** One turn of the loop, for the visit order: a surviving key is appended, any other key is not. */
  lemma OrderStep(predicates: seq<Pattern>, order: seq<string>, visited: set<string>, key: string, moduleRef: Pattern)
    requires key !in visited
    requires InVisitOrder(predicates, order, visited, moduleRef)
    ensures Survives(key, moduleRef) ==>
      InVisitOrder(predicates + [Parse(key).value.dependency], order + [key], visited + {key}, moduleRef)
    ensures !Survives(key, moduleRef) ==> InVisitOrder(predicates, order, visited + {key}, moduleRef)
  {
    var before := Survivors(visited, moduleRef);
    var after := Survivors(visited + {key}, moduleRef);
    assert before <= after;
    if Survives(key, moduleRef) {
      assert after == before + {key};
      var next := order + [key];
      assert forall i :: 0 <= i < |order| ==> next[i] == order[i] && order[i] != key;
      assert next[|order|] == key;
    } else {
      assert after == before;
    }
  }

  /** One whole turn of the loop: what it makes of `predicates` and `order` keeps both invariants. */
  lemma LoopStep(predicates: seq<Pattern>, order: seq<string>, visited: set<string>, key: string,
                 moduleRef: Pattern, predicates': seq<Pattern>, order': seq<string>)
    requires key !in visited
    requires CollectedFrom(predicates, visited, moduleRef)
    requires InVisitOrder(predicates, order, visited, moduleRef)
    requires predicates' == if Survives(key, moduleRef) then predicates + [Parse(key).value.dependency] else predicates
    requires order' == if Survives(key, moduleRef) then order + [key] else order
    ensures CollectedFrom(predicates', visited + {key}, moduleRef)
    ensures InVisitOrder(predicates', order', visited + {key}, moduleRef)
  {
    CollectStep(predicates, visited, key, moduleRef);
    OrderStep(predicates, order, visited, key, moduleRef);
  }

  /** Moving the visited key from `remaining` to `visited` keeps the two disjoint and their union. */
  lemma MoveKey(remaining: set<string>, visited: set<string>, key: string)
    requires remaining !! visited && key in remaining
    ensures (remaining - {key}) !! (visited + {key})
    ensures (remaining - {key}) + (visited + {key}) == remaining + visited
  {
  }

  /**
   * The loop of `fromConfigurationForModule`: one predicate per surviving key, in the order the
   * keys are visited (`order`); keys that fail to parse or are out of scope are skipped.
   */
  method CollectPredicates(keys: set<string>, moduleRef: Pattern) returns (predicates: seq<Pattern>, ghost order: seq<string>)
    ensures CollectedFrom(predicates, keys, moduleRef)
    ensures InVisitOrder(predicates, order, keys, moduleRef)
  {
    var remaining := keys;
    predicates := [];
    order := [];
    ghost var visited: set<string> := {};
    while remaining != {}
      invariant remaining !! visited && remaining + visited == keys
      invariant CollectedFrom(predicates, visited, moduleRef)
      invariant InVisitOrder(predicates, order, visited, moduleRef)
      decreases remaining
    {
      var key :| key in remaining;
      ghost var predicatesBefore, orderBefore := predicates, order;
      var keyParseResult := Parse(key);
      if keyParseResult.Success? && MatchesModule(keyParseResult.value, moduleRef) {
        predicates := predicates + [keyParseResult.value.dependency];
        order := order + [key];
      }
      LoopStep(predicatesBefore, orderBefore, visited, key, moduleRef, predicates, order);
      MoveKey(remaining, visited, key);
      remaining := remaining - {key};
      visited := visited + {key};
    }
    assert visited == keys;
  }

  /**
   * `fromConfigurationForModule`: `NOOP` when no key survives parsing and scoping; otherwise one
   * predicate per surviving key, whose conjunction keeps exactly what no surviving key excludes.
   * `order` is the order in which the surviving keys were met.
   */
  method FromConfigurationForModule(configuration: Configuration, moduleRef: Pattern)
    returns (c: RequestCustomizer, ghost order: seq<string>)
    ensures c.NOOP? <==> SurvivingKeys(configuration, moduleRef) == {}
    ensures c.DependencyExclusion? ==> |c.predicates| == |SurvivingKeys(configuration, moduleRef)|
    ensures c.DependencyExclusion? ==> forall i :: 0 <= i < |c.predicates| ==>
      exists k :: k in SurvivingKeys(configuration, moduleRef) && Parse(k).value.dependency == c.predicates[i]
    ensures c.DependencyExclusion? ==>
      InVisitOrder(c.predicates, order, PropertiesByPrefix(configuration.properties, PREFIX).Keys, moduleRef)
    ensures forall d :: Keeps(c, d) <==> !ExcludedByConfiguration(configuration, moduleRef, d)
  {
    var prefixed := PropertiesByPrefix(configuration.properties, PREFIX);
    var predicates: seq<Pattern> := [];
    order := [];
    if prefixed != map[] {
      predicates, order := CollectPredicates(prefixed.Keys, moduleRef);
    }
    if predicates == [] {
      c := NOOP;
    } else {
      c := DependencyExclusion(predicates);
    }
    CollectedCustomizer(configuration, moduleRef, predicates, c);
  }

  /**
   * What the collected patterns make of the customizer (`NOOP` for none, the exclusion customizer
   * otherwise): `NOOP` iff no key survives; otherwise as many patterns as surviving keys, each
   * that of a surviving key; and it keeps exactly what the configuration does not exclude.
   */
  lemma CollectedCustomizer(configuration: Configuration, moduleRef: Pattern, predicates: seq<Pattern>,
                            c: RequestCustomizer)
    requires CollectedFrom(predicates, PropertiesByPrefix(configuration.properties, PREFIX).Keys, moduleRef)
    requires c == if predicates == [] then NOOP else DependencyExclusion(predicates)
    ensures c.NOOP? <==> SurvivingKeys(configuration, moduleRef) == {}
    ensures c.DependencyExclusion? ==> |c.predicates| == |SurvivingKeys(configuration, moduleRef)|
    ensures c.DependencyExclusion? ==> forall i :: 0 <= i < |c.predicates| ==>
      exists k :: k in SurvivingKeys(configuration, moduleRef) && Parse(k).value.dependency == c.predicates[i]
    ensures forall d :: Keeps(c, d) <==> !ExcludedByConfiguration(configuration, moduleRef, d)
  {
    assert SurvivingKeys(configuration, moduleRef) == Survivors(PropertiesByPrefix(configuration.properties, PREFIX).Keys, moduleRef);
    if predicates == [] {
      assert SurvivingKeys(configuration, moduleRef) == {};
    } else {
      CollectedKeepsIffNotExcluded(configuration, moduleRef, predicates);
    }
  }

  /** An exclusion customizer over the collected patterns keeps exactly what the configuration does not exclude. */
  lemma CollectedKeepsIffNotExcluded(configuration: Configuration, moduleRef: Pattern, predicates: seq<Pattern>)
    requires CollectedFrom(predicates, PropertiesByPrefix(configuration.properties, PREFIX).Keys, moduleRef)
    ensures forall d :: Keeps(DependencyExclusion(predicates), d) <==> !ExcludedByConfiguration(configuration, moduleRef, d)
  {
  }

  /** Without any property there is no surviving key, so the customizer built is `NOOP`. */
  lemma NoPropertiesNoSurvivors(moduleRef: Pattern)
    ensures SurvivingKeys(Config.WithDefaults(map[], None), moduleRef) == {}
  {
    assert PropertiesByPrefix(map[], PREFIX) == map[];
  }

  /** A malformed property (`dependencyExclusion.org.acme`, no `:`) is skipped rather than failing. */
  lemma MalformedKeyIsSkipped(moduleRef: Pattern)
    ensures SurvivingKeys(Config.WithDefaults(map["dependencyExclusion.org.acme" := ""], None), moduleRef) == {}
  {
    var properties := map["dependencyExclusion.org.acme" := ""];
    var rest := "org.acme";
    assert PREFIX + rest == "dependencyExclusion.org.acme";
    assert GROUP_SEPARATOR !in rest;
    forall other | other in PropertiesByPrefix(properties, PREFIX) ensures other == rest {
      assert other == (PREFIX + other)[|PREFIX|..];
    }
  }
}
