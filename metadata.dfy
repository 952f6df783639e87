/** The passive inputs of the mapping: the mapping annotations attached to
    the members of the context type, and a description of the program's
    types that stands in for reflection. */
module Metadata {
  import opened Outcomes

  /** A type, named by its identity; its `Name` in messages is this string. */
  type TypeId = string

  /** Table-level annotations. A null string is the empty string here. */
  datatype TableAnnotation =
      /** `TableAttribute`: `EntityType` is the optional override of the mapped type. */
    | Table(name: string, alias: string, entityType: Option<TypeId>)
      /** `ExtensionTableAttribute`: a secondary table joined by key columns. */
    | ExtensionTable(name: string, alias: string, keyColumns: string,
                     relatedAlias: string, relatedKeyColumns: string)

  /** Member-level annotations; `member` is the (possibly dotted) member path. */
  datatype MemberAnnotation =
    | Column(member: string, name: string, alias: string, dbType: string,
             isComputed: bool, isPrimaryKey: bool, isGenerated: bool)
    | Association(member: string, name: string, keyMembers: string,
                  relatedEntityId: string, relatedEntityType: Option<TypeId>,
                  relatedKeyMembers: string, isForeignKey: bool)

  datatype MappingAttribute = TableLevel(table: TableAnnotation) | MemberLevel(annotation: MemberAnnotation)

  datatype MemberKind = Field | Property | OtherMember

  /** An instance member of a type, with the mapping attributes declared on it. */
  datatype MemberInfo = MemberInfo(name: string, kind: MemberKind, isPublic: bool,
                                   memberType: TypeId, attributes: seq<MappingAttribute>)

  /** What reflection tells about one type: its instance members in declaration
      order, the `T` of an `IEnumerable<T>` shape, and whether it is a collection. */
  datatype TypeInfo = TypeInfo(members: seq<MemberInfo>, elementType: Option<TypeId>, isEnumerable: bool)

  type Types = map<TypeId, TypeInfo>

  /** Every member has a name, as every declared field, property or method does. */
  predicate TypesWellFormed(types: Types) {
    forall t, m :: t in types && m in types[t].members ==> m.name != ""
  }

  function MembersOf(types: Types, t: TypeId): seq<MemberInfo> {
    if t in types then types[t].members else []
  }

  /** `TypeHelper.GetElementType`: the item type of a sequence type, else the type. */
  function ElementType(types: Types, t: TypeId): TypeId {
    if t in types && types[t].elementType.Some? then types[t].elementType.value else t
  }

  /** `typeof(IEnumerable).IsAssignableFrom(t)` */
  predicate IsEnumerable(types: Types, t: TypeId) {
    t in types && types[t].isEnumerable
  }
}
