/**
 * Where the analyzer's configuration values come from: the environment, with its variable names
 * converted to property names, the system properties, and the bundled defaults file, combined
 * once into a composite configuration that later calls hand out again.
 */
module ConfigurationFactory {
  import opened Wrappers

  predicate IsUpper(c: char) {
    'A' <= c <= 'Z'
  }

  /** One character of `key.toLowerCase().replace('_', '.')`, for ASCII. */
  function ConvertChar(c: char): char {
    if IsUpper(c) then (c as int + ('a' as int - 'A' as int)) as char
    else if c == '_' then '.'
    else c
  }

  /**
   * `convertKey`: the same length; no `_` and no upper-case letter remain; an upper-case letter
   * becomes its lower-case letter, `_` becomes `.`, and every other character is unchanged.
   */
  function ConvertKey(key: string): (r: string)
    ensures |r| == |key|
    ensures '_' !in r
    ensures forall i :: 0 <= i < |r| ==> !IsUpper(r[i])
    ensures forall i :: 0 <= i < |key| && IsUpper(key[i]) ==> r[i] == (key[i] as int + 32) as char
    ensures forall i :: 0 <= i < |key| && key[i] == '_' ==> r[i] == '.'
    ensures forall i :: 0 <= i < |key| && !IsUpper(key[i]) && key[i] != '_' ==> r[i] == key[i]
  {
    seq(|key|, i requires 0 <= i < |key| => ConvertChar(key[i]))
  }

  /** Converting a converted key changes nothing. */
  lemma ConvertKeyIdempotent(key: string)
    ensures ConvertKey(ConvertKey(key)) == ConvertKey(key)
  {
    var once := ConvertKey(key);
    forall i | 0 <= i < |once| ensures ConvertKey(once)[i] == once[i] {
      assert !IsUpper(once[i]) && once[i] != '_' by {
        assert once[i] in once;
      }
    }
  }

  /**
   * `converted` holds, for every environment variable, its converted name, and nothing else;
   * each entry carries the value of one of the variables whose name converts to it.
   */
  predicate ConvertedFrom(env: map<string, string>, converted: map<string, string>) {
    && converted.Keys == (set k | k in env :: ConvertKey(k))
    && forall name :: name in converted ==> exists k :: k in env && ConvertKey(k) == name && converted[name] == env[k]
  }

  /** Converting names cannot make more names than there were. */
  lemma {:induction false} ConvertedNamesNoMore(keys: set<string>)
    ensures |set k | k in keys :: ConvertKey(k)| <= |keys|
    decreases |keys|
  {
    if keys != {} {
      var x :| x in keys;
      var rest := keys - {x};
      ConvertedNamesNoMore(rest);
      assert (set k | k in keys :: ConvertKey(k)) == (set k | k in rest :: ConvertKey(k)) + {ConvertKey(x)};
    }
  }

  /**
   * `getEnvWithConvertedKeys`, over the environment given as a map: every variable is put under
   * its converted name, in the map's iteration order, which is not specified. The result has
   * at most as many entries as the environment, and a variable whose converted name no other
   * variable shares keeps its value.
   */
  method GetEnvWithConvertedKeys(env: map<string, string>) returns (converted: map<string, string>)
    ensures ConvertedFrom(env, converted)
    ensures |converted| <= |env|
    ensures forall k :: k in env ==> ConvertKey(k) in converted
    ensures forall k :: k in env && (forall k' :: k' in env && ConvertKey(k') == ConvertKey(k) ==> k' == k) ==>
      converted[ConvertKey(k)] == env[k]
  {
    converted := map[];
    var remaining := env.Keys;
    ghost var visited: set<string> := {};
    while remaining != {}
      invariant remaining !! visited && remaining + visited == env.Keys
      invariant converted.Keys == (set k | k in visited :: ConvertKey(k))
      invariant forall name :: name in converted ==>
        exists k :: k in visited && ConvertKey(k) == name && converted[name] == env[k]
      decreases remaining
    {
      var key :| key in remaining;
      converted := converted[ConvertKey(key) := env[key]];
      remaining := remaining - {key};
      visited := visited + {key};
    }
    assert visited == env.Keys;
    ConvertedNamesNoMore(env.Keys);
    forall k | k in env ensures ConvertKey(k) in converted {
      assert ConvertKey(k) in (set k | k in visited :: ConvertKey(k));
    }
  }

  /** One source of the composite configuration. */
  datatype ConfigurationSource =
    | ConvertingEnvironment(properties: map<string, string>)
    | SystemProperties(properties: map<string, string>)
    | PropertiesFile(properties: map<string, string>)

  /** The composite configuration: its sources, in the order they were added. */
  class CompositeConfiguration {
    var sources: seq<ConfigurationSource>

    constructor()
      ensures sources == []
    {
      sources := [];
    }

    method AddConfiguration(source: ConfigurationSource)
      modifies this
      ensures sources == old(sources) + [source]
    {
      sources := sources + [source];
    }
  }

  /** The factory's static state: the composite configuration once it has been created. */
  class ConfigurationFactory {
    var configuration: CompositeConfiguration?

    constructor()
      ensures configuration == null
    {
      configuration := null;
    }

    /**
     * `getConfiguration`: the first call creates the composite and adds the converted
     * environment, the system properties and the defaults file, in that order; every later call
     * returns the same composite untouched. The environment, the system properties and the
     * loaded defaults file (or its loading error) are parameters. The field is set before the
     * sources are added, so when the defaults file fails to load the error is raised and the
     * factory keeps a composite holding the first two sources.
     */
    method GetConfiguration(env: map<string, string>, systemProperties: map<string, string>,
                            defaultsFile: Result<map<string, string>, string>)
      returns (r: Result<CompositeConfiguration, string>)
      modifies this
      ensures old(configuration) != null ==>
        configuration == old(configuration) && r == Success(configuration)
        && configuration.sources == old(configuration.sources)
      ensures old(configuration) == null ==> configuration != null && fresh(configuration)
      ensures old(configuration) == null ==>
        && |configuration.sources| >= 2
        && configuration.sources[0].ConvertingEnvironment?
        && ConvertedFrom(env, configuration.sources[0].properties)
        && configuration.sources[1] == SystemProperties(systemProperties)
      ensures old(configuration) == null && defaultsFile.Success? ==>
        && configuration.sources == configuration.sources[..2] + [PropertiesFile(defaultsFile.value)]
        && r == Success(configuration)
      ensures old(configuration) == null && defaultsFile.Failure? ==>
        |configuration.sources| == 2 && r == Failure(defaultsFile.error)
    {
      if configuration == null {
        var composite := new CompositeConfiguration();
        configuration := composite;
        var converted := GetEnvWithConvertedKeys(env);
        composite.AddConfiguration(ConvertingEnvironment(converted));
        composite.AddConfiguration(SystemProperties(systemProperties));
        if defaultsFile.Failure? {
          return Failure(defaultsFile.error);
        }
        composite.AddConfiguration(PropertiesFile(defaultsFile.value));
      }
      return Success(configuration);
    }
  }
}
