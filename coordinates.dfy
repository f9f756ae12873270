/**
 * Maven coordinates (ProjectVersionRef) and group:artifact patterns (ProjectRef used as a
 * pattern), with the `*` wildcard of the exclusion keys.
 */
module Coordinates {

  /** A group/artifact/version coordinate; equality is field-wise. */
  datatype Gav = Gav(group: string, artifact: string, version: string)

  /** A group:artifact pattern; either field may be the wildcard `*`. */
  datatype Pattern = Pattern(group: string, artifact: string)

  const WILDCARD: string := "*"

  /** One pattern field matches a value when it is the wildcard or the exact value. */
  predicate FieldMatches(field: string, value: string) {
    field == WILDCARD || field == value
  }

  /**
   * Stand-in for `ProjectRef.matches`: group and artifact are matched independently,
   * the version is ignored.
   */
  predicate Matches(p: Pattern, gav: Gav) {
    FieldMatches(p.group, gav.group) && FieldMatches(p.artifact, gav.artifact)
  }

  /** A module is addressed by its group and artifact (a ProjectRef). */
  function ProjectRefOf(gav: Gav): Pattern {
    Pattern(gav.group, gav.artifact)
  }
}
