/** Results and errors of the attribute mapping.

    The original reports every failure by throwing an exception; here each
    failure is a value of `MappingError`, carried by `Result` or `Answer`.
 */
module Outcomes {

  datatype Option<+T> = None | Some(value: T)

  /** The exceptions raised while building or querying the mapping. */
  datatype MappingError =
      /** "the member '{0}' does not exist on type '{1}'" (member path resolution) */
    | MemberNotFound(name: string, onType: string)
      /** "more than one mapping attribute specified for member '{0}' on type '{1}'" */
    | DuplicateMapping(member: string, onType: string)
      /** `Substring(path.Length + 1)` on an annotation whose member path equals the nesting path */
    | PathTooShort(member: string, path: string)
      /** `SingleOrDefault` over an entity's tables when it has two or more */
    | MultipleTables(tableId: string)
      /** `ToDictionary` meeting the same member name twice */
    | DuplicateMemberKey(name: string)
      /** "The member '{0}.{1}' referenced in {2} for '{3}' is not mapped or does not exist" */
    | UnmappedReference(entityType: string, name: string, source: string, sourceType: string)
      /** the null table dereferenced when an entity without tables is asked for its table name */
    | MissingTable(tableId: string)

  datatype Result<+T> = Ok(value: T) | Err(error: MappingError)

  /** The outcome of a facade query that may hand the question back to the
      base mapping it overrides (whose behaviour is not part of this model). */
  datatype Answer<+T> = Answered(value: T) | Inherited | Failed(error: MappingError)
}
