/**
 * Stand-ins for the two library helpers the exclusion customizer relies on:
 * `DependencyPropertyParser.parse` (a scoped key `group:artifact@moduleGroup:moduleArtifact`)
 * and `PropertiesUtils.getPropertiesByPrefix` (the entries under a key prefix, prefix removed).
 */
module DependencyPropertyParser {
  import opened Wrappers
  import opened Coordinates

  /** A parsed scoped key: which dependencies it targets and which modules it applies to. */
  datatype ScopedKey = ScopedKey(dependency: Pattern, scope: Pattern)

  datatype ParseError = MissingSeparator(key: string) | EmptyField(key: string)

  const GROUP_SEPARATOR: char := ':'
  const MODULE_SEPARATOR: char := '@'

  /** A field of a key: non-empty and free of either separator. */
  predicate ValidField(f: string) {
    f != [] && GROUP_SEPARATOR !in f && MODULE_SEPARATOR !in f
  }

  /** The position of the first occurrence of `c` in `s`. */
  function IndexOf(s: string, c: char): (r: Option<nat>)
    ensures r.None? <==> c !in s
    ensures r.Some? ==> r.value < |s| && s[r.value] == c && c !in s[..r.value]
  {
    if s == [] then None
    else if s[0] == c then Some(0)
    else match IndexOf(s[1..], c)
      case None => None
      case Some(i) =>
        assert s[1..][..i] == s[1..i + 1];
        Some(i + 1)
  }

  /** Splits `s` around the first `c`: the part before it (free of `c`) and the part after it. */
  function SplitOnce(s: string, c: char): (r: Option<(string, string)>)
    ensures r.None? <==> c !in s
    ensures r.Some? ==> s == r.value.0 + [c] + r.value.1 && c !in r.value.0
  {
    match IndexOf(s, c)
      case None => None
      case Some(i) =>
        assert s == s[..i] + [c] + s[i + 1..];
        Some((s[..i], s[i + 1..]))
  }

  /** In a joined string the first separator is the one in front of `b` when `a` has none. */
  lemma {:induction false} IndexOfJoin(a: string, c: char, b: string)
    requires c !in a
    ensures IndexOf(a + [c] + b, c) == Some(|a|)
  {
    if a != [] {
      assert (a + [c] + b)[1..] == a[1..] + [c] + b;
      IndexOfJoin(a[1..], c, b);
    }
  }

  /** Splitting a joined string recovers its parts when the first part is free of the separator. */
  lemma SplitOnceJoin(a: string, c: char, b: string)
    requires c !in a
    ensures SplitOnce(a + [c] + b, c) == Some((a, b))
  {
    IndexOfJoin(a, c, b);
    assert (a + [c] + b)[..|a|] == a;
    assert (a + [c] + b)[|a| + 1..] == b;
  }

  /** `group:artifact` with both fields valid. */
  function ParsePattern(s: string): (r: Result<Pattern, ParseError>)
    ensures r.Success? ==> ValidField(r.value.group) && ValidField(r.value.artifact)
    ensures r.Success? ==> s == r.value.group + [GROUP_SEPARATOR] + r.value.artifact
  {
    match SplitOnce(s, GROUP_SEPARATOR)
      case None => Failure(MissingSeparator(s))
      case Some((g, a)) =>
        if !ValidField(g) || !ValidField(a) then Failure(EmptyField(s))
        else Success(Pattern(g, a))
  }

  /** A module reference: `group:artifact`, or a bare artifact whose group is then the wildcard. */
  function ParseModule(s: string): (r: Result<Pattern, ParseError>)
    ensures r.Success? ==> ValidField(r.value.group) && ValidField(r.value.artifact)
  {
    if GROUP_SEPARATOR in s then ParsePattern(s)
    else if ValidField(s) then Success(Pattern(WILDCARD, s))
    else Failure(EmptyField(s))
  }

  /**
   * Stand-in for `DependencyPropertyParser.parse` on a key whose namespace prefix is already
   * removed. The module part after `@` is optional and defaults to `*:*`.
   */
  function Parse(key: string): (r: Result<ScopedKey, ParseError>)
    ensures r.Success? ==> ValidKey(r.value)
    ensures GROUP_SEPARATOR !in key ==> r.Failure?
  {
    match SplitOnce(key, MODULE_SEPARATOR)
      case None =>
        var dependency :- ParsePattern(key);
        Success(ScopedKey(dependency, Pattern(WILDCARD, WILDCARD)))
      case Some((d, m)) =>
        var dependency :- ParsePattern(d);
        var scope :- ParseModule(m);
        Success(ScopedKey(dependency, scope))
  }

  /** Every field of a parsed key is a valid field. */
  predicate ValidKey(k: ScopedKey) {
    && ValidField(k.dependency.group) && ValidField(k.dependency.artifact)
    && ValidField(k.scope.group) && ValidField(k.scope.artifact)
  }

  /** The canonical spelling of a key: `group:artifact@moduleGroup:moduleArtifact`. */
  function Render(k: ScopedKey): string {
    k.dependency.group + [GROUP_SEPARATOR] + k.dependency.artifact
      + [MODULE_SEPARATOR] + k.scope.group + [GROUP_SEPARATOR] + k.scope.artifact
  }

  /** Parsing the canonical spelling of a valid key gives the key back. */
  lemma {:induction false} ParseRender(k: ScopedKey)
    requires ValidKey(k)
    ensures Parse(Render(k)) == Success(k)
  {
    var d := k.dependency.group + [GROUP_SEPARATOR] + k.dependency.artifact;
    var m := k.scope.group + [GROUP_SEPARATOR] + k.scope.artifact;
    assert Render(k) == d + [MODULE_SEPARATOR] + m;
    assert MODULE_SEPARATOR !in d by {
      forall i | 0 <= i < |d| ensures d[i] != MODULE_SEPARATOR {
        if i < |k.dependency.group| { assert d[i] == k.dependency.group[i]; }
        else if i > |k.dependency.group| { assert d[i] == k.dependency.artifact[i - |k.dependency.group| - 1]; }
      }
    }
    SplitOnceJoin(d, MODULE_SEPARATOR, m);
    SplitOnceJoin(k.dependency.group, GROUP_SEPARATOR, k.dependency.artifact);
    SplitOnceJoin(k.scope.group, GROUP_SEPARATOR, k.scope.artifact);
    assert GROUP_SEPARATOR in m by { assert m[|k.scope.group|] == GROUP_SEPARATOR; }
  }

  /** A key whose module part is a bare artifact is scoped to that artifact in any group. */
  lemma ParseBareModule(group: string, artifact: string, moduleArtifact: string)
    requires ValidField(group) && ValidField(artifact) && ValidField(moduleArtifact)
    ensures Parse(group + [GROUP_SEPARATOR] + artifact + [MODULE_SEPARATOR] + moduleArtifact)
      == Success(ScopedKey(Pattern(group, artifact), Pattern(WILDCARD, moduleArtifact)))
  {
    var d := group + [GROUP_SEPARATOR] + artifact;
    assert MODULE_SEPARATOR !in d by {
      forall i | 0 <= i < |d| ensures d[i] != MODULE_SEPARATOR {
        if i < |group| { assert d[i] == group[i]; }
        else if i > |group| { assert d[i] == artifact[i - |group| - 1]; }
      }
    }
    assert group + [GROUP_SEPARATOR] + artifact + [MODULE_SEPARATOR] + moduleArtifact == d + [MODULE_SEPARATOR] + moduleArtifact;
    SplitOnceJoin(d, MODULE_SEPARATOR, moduleArtifact);
    SplitOnceJoin(group, GROUP_SEPARATOR, artifact);
  }

  /** A key without a module part applies to every module: its scope is `*:*`. */
  lemma NoModuleDefault(group: string, artifact: string)
    requires ValidField(group) && ValidField(artifact)
    ensures Parse(group + [GROUP_SEPARATOR] + artifact)
      == Success(ScopedKey(Pattern(group, artifact), Pattern(WILDCARD, WILDCARD)))
  {
    var d := group + [GROUP_SEPARATOR] + artifact;
    assert MODULE_SEPARATOR !in d by {
      forall i | 0 <= i < |d| ensures d[i] != MODULE_SEPARATOR {
        if i < |group| { assert d[i] == group[i]; }
        else if i > |group| { assert d[i] == artifact[i - |group| - 1]; }
      }
    }
    SplitOnceJoin(group, GROUP_SEPARATOR, artifact);
  }

  /** The scope test of a parsed key (`Result.matchesModule`). */
  predicate MatchesModule(k: ScopedKey, moduleRef: Pattern) {
    FieldMatches(k.scope.group, moduleRef.group) && FieldMatches(k.scope.artifact, moduleRef.artifact)
  }

  /** Whether `key` starts with `prefix`. */
  predicate HasPrefix(key: string, prefix: string) {
    |prefix| <= |key| && key[..|prefix|] == prefix
  }

  /**
   * Stand-in for `PropertiesUtils.getPropertiesByPrefix`: the properties whose name starts with
   * `prefix`, keyed by the rest of the name.
   */
  function PropertiesByPrefix(properties: map<string, string>, prefix: string): (r: map<string, string>)
    ensures forall rest :: rest in r <==> prefix + rest in properties
    ensures forall rest :: rest in r ==> r[rest] == properties[prefix + rest]
  {
    var rests := set k | k in properties && HasPrefix(k, prefix) :: k[|prefix|..];
    assert forall k :: HasPrefix(k, prefix) ==> k == prefix + k[|prefix|..];
    assert forall rest :: (prefix + rest)[..|prefix|] == prefix && (prefix + rest)[|prefix|..] == rest;
    var r := map rest | rest in rests :: properties[prefix + rest];
    r
  }
}
