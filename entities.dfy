/** The built mapping records: `AttributeMappingEntity`, its members
    (`AttributeMappingMember`) and its tables (the table annotations). */
module Entities {
  import opened Outcomes
  import opened Metadata

  /** One mapped member: either a plain member with its column or association
      annotation, or a compound member with its nested entity. */
  datatype MappingMember = MappingMember(member: MemberInfo, attribute: Option<MemberAnnotation>,
                                         nested: Option<Entity>)

  /** `tableName` is the `Name` of the single table, empty when there is none. */
  datatype Entity = Entity(elementType: TypeId, tableId: string, entityType: TypeId,
                           tables: seq<TableAnnotation>, tableName: string,
                           members: seq<MappingMember>)

  predicate NamesDistinct(ms: seq<MappingMember>) {
    forall i, j :: 0 <= i < j < |ms| ==> ms[i].member.name != ms[j].member.name
  }

  /** A member carries exactly one of an annotation and a nested entity. */
  predicate Shaped(mm: MappingMember) {
    mm.attribute.Some? != mm.nested.Some?
  }

  /** At most one table, whose name the entity keeps. */
  predicate TableShaped(e: Entity) {
    && |e.tables| <= 1
    && e.tableName == (if |e.tables| == 1 then e.tables[0].name else "")
  }

  /** What every entity the builder produces satisfies, down the nesting. */
  predicate WellFormed(e: Entity)
    decreases e
  {
    && TableShaped(e)
    && NamesDistinct(e.members)
    && forall i :: 0 <= i < |e.members| ==>
         && Shaped(e.members[i])
         && (e.members[i].nested.Some? ==> WellFormed(e.members[i].nested.value))
  }

  /** `GetMappingMember(name)`: the dictionary lookup by exact member name. */
  function GetMappingMember(e: Entity, name: string): (r: Option<MappingMember>)
    ensures r.Some? ==> r.value in e.members && r.value.member.name == name
    ensures r.None? <==> forall mm :: mm in e.members ==> mm.member.name != name
  {
    FindByName(e.members, name)
  }

  function FindByName(ms: seq<MappingMember>, name: string): (r: Option<MappingMember>)
    ensures r.Some? ==> r.value in ms && r.value.member.name == name
    ensures r.None? <==> forall mm :: mm in ms ==> mm.member.name != name
  {
    if ms == [] then None
    else if ms[0].member.name == name then Some(ms[0])
    else FindByName(ms[1..], name)
  }

  /** With distinct names, the lookup finds the member itself. */
  lemma {:induction false} LookupFindsMember(e: Entity, i: nat)
    requires NamesDistinct(e.members) && i < |e.members|
    ensures GetMappingMember(e, e.members[i].member.name) == Some(e.members[i])
  {
    var r := GetMappingMember(e, e.members[i].member.name);
    var j :| 0 <= j < |e.members| && e.members[j] == r.value;
    assert e.members[j].member.name == e.members[i].member.name;
  }

  /** The name `ToDictionary` fails on: the first member whose name was
      already seen (among `seen` or earlier in `ms`), if any. */
  function FirstDuplicateName(ms: seq<MappingMember>, seen: set<string>): (r: Option<string>)
    ensures r.None? <==> NamesDistinct(ms) && forall mm :: mm in ms ==> mm.member.name !in seen
    ensures r.Some? ==> exists j :: 0 <= j < |ms| && ms[j].member.name == r.value &&
                          (r.value in seen || exists i :: 0 <= i < j && ms[i].member.name == r.value)
  {
    if ms == [] then None
    else if ms[0].member.name in seen then Some(ms[0].member.name)
    else
      var r := FirstDuplicateName(ms[1..], seen + {ms[0].member.name});
      assert forall i :: 0 < i < |ms| ==> ms[i] == ms[1..][i - 1];
      if r.Some? then
        var jt :| 0 <= jt < |ms| - 1 && ms[1..][jt].member.name == r.value &&
                  (r.value in seen + {ms[0].member.name} || exists i :: 0 <= i < jt && ms[1..][i].member.name == r.value);
        assert ms[jt + 1].member.name == r.value;
        assert r.value !in seen && r.value != ms[0].member.name ==>
          exists i :: 0 <= i < jt && ms[1..][i].member.name == r.value;
        assert r.value !in seen && r.value != ms[0].member.name ==>
          exists i :: 0 <= i < jt + 1 && ms[i].member.name == r.value;
        r
      else
        r
  }

  /** The `AttributeMappingEntity` constructor: `SingleOrDefault` over the
      tables fails on two or more, and `ToDictionary` fails on a repeated
      member name. */
  function MakeEntity(elementType: TypeId, tableId: string, entityType: TypeId,
                      tables: seq<TableAnnotation>, members: seq<MappingMember>): (r: Result<Entity>)
    ensures |tables| > 1 ==> r == Err(MultipleTables(tableId))
    ensures |tables| <= 1 && !NamesDistinct(members) ==> r.Err? && r.error.DuplicateMemberKey?
    ensures r.Ok? <==> |tables| <= 1 && NamesDistinct(members)
    ensures r.Ok? ==> r.value.members == members && r.value.tables == tables
                      && r.value.tableId == tableId && r.value.elementType == elementType
                      && r.value.entityType == entityType && TableShaped(r.value)
    ensures r.Ok? ==> TableName(r.value) == (if |tables| == 1 && tables[0].name != "" then tables[0].name else tableId)
  {
    if |tables| > 1 then Err(MultipleTables(tableId))
    else
      var tableName := if |tables| == 1 then tables[0].name else "";
      match FirstDuplicateName(members, {})
      case Some(name) => Err(DuplicateMemberKey(name))
      case None => Ok(Entity(elementType, tableId, entityType, tables, tableName, members))
  }

  /** The entity's `TableName`: its single table's name, else its table id. */
  function TableName(e: Entity): string {
    if e.tableName == "" then e.tableId else e.tableName
  }
}
