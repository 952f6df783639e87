/** The read-only queries of the mapping over built entities: the member
    predicates, column facts, table names, extension tables, key-member
    references and the column search. Each looks a member up by its name in
    the entity's dictionary of mapping members. */
module Facade {
  import opened Outcomes
  import opened Text
  import opened Metadata
  import opened Entities

  /** The characters key lists are split on. */
  const KeySeparators: set<char> := {' ', ',', '|'}

  predicate IsColumnMember(mm: MappingMember) {
    mm.attribute.Some? && mm.attribute.value.Column?
  }

  predicate IsAssociationMember(mm: MappingMember) {
    mm.attribute.Some? && mm.attribute.value.Association?
  }

  /** `GetMappingMember(member.Name)`: with distinct names, the lookup is the
      member of that name in the entity's member list. */
  function MemberNamed(e: Entity, m: MemberInfo): (r: Option<MappingMember>)
    ensures r.Some? ==> r.value in e.members && r.value.member.name == m.name
    ensures NamesDistinct(e.members) ==>
              forall i :: 0 <= i < |e.members| && e.members[i].member.name == m.name ==> r == Some(e.members[i])
  {
    var r := GetMappingMember(e, m.name);
    if NamesDistinct(e.members) then
      assert forall i :: 0 <= i < |e.members| && e.members[i].member.name == m.name ==> r == Some(e.members[i]) by {
        forall i | 0 <= i < |e.members| && e.members[i].member.name == m.name {
          LookupFindsMember(e, i);
        }
      }
      r
    else r
  }

  /** Some mapping member has the member's name. */
  function IsMapped(e: Entity, m: MemberInfo): (r: bool)
    ensures r <==> exists i :: 0 <= i < |e.members| && e.members[i].member.name == m.name
  {
    MemberNamed(e, m).Some?
  }

  /** The member named like `m` carries a column annotation. */
  function IsColumn(e: Entity, m: MemberInfo): (r: bool)
    ensures r ==> IsMapped(e, m)
    ensures NamesDistinct(e.members) ==>
              (r <==> exists i :: 0 <= i < |e.members| && e.members[i].member.name == m.name
                                  && IsColumnMember(e.members[i]))
  {
    var mm := MemberNamed(e, m);
    mm.Some? && IsColumnMember(mm.value)
  }

  /** The column annotation of the member named like `m`. */
  function ColumnOf(e: Entity, m: MemberInfo): (r: MemberAnnotation)
    requires IsColumn(e, m)
    ensures r.Column? && Some(r) == MemberNamed(e, m).value.attribute
  {
    MemberNamed(e, m).value.attribute.value
  }

  /** The member named like `m` is a column marked computed. */
  function IsComputed(e: Entity, m: MemberInfo): (r: bool)
    ensures r ==> IsColumn(e, m)
    ensures NamesDistinct(e.members) ==>
              (r <==> exists i :: 0 <= i < |e.members| && e.members[i].member.name == m.name
                                  && IsColumnMember(e.members[i]) && e.members[i].attribute.value.isComputed)
  {
    IsColumn(e, m) && ColumnOf(e, m).isComputed
  }

  /** The member named like `m` is a column marked generated. */
  function IsGenerated(e: Entity, m: MemberInfo): (r: bool)
    ensures r ==> IsColumn(e, m)
    ensures NamesDistinct(e.members) ==>
              (r <==> exists i :: 0 <= i < |e.members| && e.members[i].member.name == m.name
                                  && IsColumnMember(e.members[i]) && e.members[i].attribute.value.isGenerated)
  {
    IsColumn(e, m) && ColumnOf(e, m).isGenerated
  }

  /** The member named like `m` is a column marked primary key. */
  function IsPrimaryKey(e: Entity, m: MemberInfo): (r: bool)
    ensures r ==> IsColumn(e, m)
    ensures NamesDistinct(e.members) ==>
              (r <==> exists i :: 0 <= i < |e.members| && e.members[i].member.name == m.name
                                  && IsColumnMember(e.members[i]) && e.members[i].attribute.value.isPrimaryKey)
  {
    IsColumn(e, m) && ColumnOf(e, m).isPrimaryKey
  }

  /** The member named like `m` carries an association annotation. */
  function IsAssociationRelationship(e: Entity, m: MemberInfo): (r: bool)
    ensures r ==> IsMapped(e, m) && !IsColumn(e, m)
    ensures NamesDistinct(e.members) ==>
              (r <==> exists i :: 0 <= i < |e.members| && e.members[i].member.name == m.name
                                  && IsAssociationMember(e.members[i]))
  {
    var mm := MemberNamed(e, m);
    mm.Some? && IsAssociationMember(mm.value)
  }

  /** The association annotation of the member named like `m`. */
  function AssociationOf(e: Entity, m: MemberInfo): (r: MemberAnnotation)
    requires IsAssociationRelationship(e, m)
    ensures r.Association? && Some(r) == MemberNamed(e, m).value.attribute
  {
    MemberNamed(e, m).value.attribute.value
  }

  /** The source side of an association: a foreign key on a member whose type
      is not a collection. */
  function IsRelationshipSource(types: Types, e: Entity, m: MemberInfo): (r: bool)
    ensures r ==> IsAssociationRelationship(e, m) && AssociationOf(e, m).isForeignKey
                  && !IsEnumerable(types, m.memberType)
  {
    IsAssociationRelationship(e, m) && AssociationOf(e, m).isForeignKey && !IsEnumerable(types, m.memberType)
  }

  /** The target side: not a foreign key, or a collection member. */
  function IsRelationshipTarget(types: Types, e: Entity, m: MemberInfo): (r: bool)
    ensures r ==> IsAssociationRelationship(e, m)
  {
    IsAssociationRelationship(e, m) && (!AssociationOf(e, m).isForeignKey || IsEnumerable(types, m.memberType))
  }

  /** The member named like `m` stands for a nested entity. */
  function IsNestedEntity(e: Entity, m: MemberInfo): (r: bool)
    ensures r ==> IsMapped(e, m)
    ensures NamesDistinct(e.members) ==>
              (r <==> exists i :: 0 <= i < |e.members| && e.members[i].member.name == m.name
                                  && e.members[i].nested.Some?)
  {
    var mm := MemberNamed(e, m);
    mm.Some? && mm.value.nested.Some?
  }

  /** The nested entity of a nested member; it is smaller than `e`. */
  function NestedOf(e: Entity, m: MemberInfo): (r: Entity)
    requires IsNestedEntity(e, m)
    ensures r < e
    ensures MemberNamed(e, m).value.nested == Some(r)
  {
    MemberNamed(e, m).value.nested.value
  }

  /** A column attribute implies a column, and a column a mapped member. */
  lemma ColumnFlagsImplyColumn(e: Entity, m: MemberInfo)
    ensures IsPrimaryKey(e, m) || IsComputed(e, m) || IsGenerated(e, m) ==> IsColumn(e, m)
    ensures IsColumn(e, m) ==> IsMapped(e, m)
  {
  }

  /** In a built entity, a mapped member is exactly one of a column, an
      association and a nested entity. */
  lemma MemberClassification(e: Entity, m: MemberInfo)
    requires WellFormed(e) && IsMapped(e, m)
    ensures IsColumn(e, m) || IsAssociationRelationship(e, m) || IsNestedEntity(e, m)
    ensures !(IsColumn(e, m) && IsNestedEntity(e, m))
    ensures !(IsAssociationRelationship(e, m) && IsNestedEntity(e, m))
  {
    var mm := MemberNamed(e, m).value;
    var i :| 0 <= i < |e.members| && e.members[i] == mm;
    assert Shaped(e.members[i]);
  }

  /** For an association member exactly one of source and target holds, and
      neither does for any other member. */
  lemma SourceOrTarget(types: Types, e: Entity, m: MemberInfo)
    ensures IsAssociationRelationship(e, m) ==> IsRelationshipSource(types, e, m) != IsRelationshipTarget(types, e, m)
    ensures !IsAssociationRelationship(e, m) ==> !IsRelationshipSource(types, e, m) && !IsRelationshipTarget(types, e, m)
  {
  }

  /** The base mapping's column name for a member, which an attribute
      without a `Name` falls back to. */
  type BaseColumnName = (Entity, MemberInfo) -> string

  /** `GetColumnName`: the column's name when it is given, else the base
      mapping's name for the member. */
  function ColumnName(e: Entity, m: MemberInfo, base: BaseColumnName): (r: string)
    ensures NamesDistinct(e.members) ==>
              forall i :: 0 <= i < |e.members| && e.members[i].member.name == m.name ==>
                r == if IsColumnMember(e.members[i]) && e.members[i].attribute.value.name != ""
                     then e.members[i].attribute.value.name else base(e, m)
    ensures (forall i :: 0 <= i < |e.members| && e.members[i].member.name == m.name ==> !IsColumnMember(e.members[i]))
            ==> r == base(e, m)
  {
    if IsColumn(e, m) && ColumnOf(e, m).name != "" then ColumnOf(e, m).name else base(e, m)
  }

  /** `GetColumnDbType`: the column's database type when it is given, else none. */
  function ColumnDbType(e: Entity, m: MemberInfo): (r: Option<string>)
    ensures r.Some? ==> r.value != ""
    ensures NamesDistinct(e.members) ==>
              forall i :: 0 <= i < |e.members| && e.members[i].member.name == m.name ==>
                r == if IsColumnMember(e.members[i]) && e.members[i].attribute.value.dbType != ""
                     then Some(e.members[i].attribute.value.dbType) else None
    ensures (forall i :: 0 <= i < |e.members| && e.members[i].member.name == m.name ==> !IsColumnMember(e.members[i]))
            ==> r == None
  {
    if IsColumn(e, m) && ColumnOf(e, m).dbType != "" then Some(ColumnOf(e, m).dbType) else None
  }

  /** `GetAlias(entity, member)`: the column's alias for a column member. */
  function ColumnAlias(e: Entity, m: MemberInfo): (r: Option<string>)
    ensures r.Some? <==> IsColumn(e, m)
    ensures NamesDistinct(e.members) ==>
              forall i :: 0 <= i < |e.members| && e.members[i].member.name == m.name ==>
                r == if IsColumnMember(e.members[i]) then Some(e.members[i].attribute.value.alias) else None
  {
    if IsColumn(e, m) then Some(ColumnOf(e, m).alias) else None
  }

  /** `MappedMembers`: the members of the mapping members, in insertion order. */
  function MappedMembers(e: Entity): (r: seq<MemberInfo>)
    ensures |r| == |e.members|
    ensures forall i :: 0 <= i < |r| ==> r[i] == e.members[i].member
  {
    seq(|e.members|, i requires 0 <= i < |e.members| => e.members[i].member)
  }

  /** Every mapped member is mapped, and with distinct names it is looked up
      as its own mapping member. */
  lemma MappedMembersAreMapped(e: Entity, i: nat)
    requires i < |MappedMembers(e)|
    ensures IsMapped(e, MappedMembers(e)[i])
    ensures NamesDistinct(e.members) ==> MemberNamed(e, MappedMembers(e)[i]) == Some(e.members[i])
  {
  }

  /** `AttributeMappingTable`: a table annotation of an entity. */
  datatype MappingTable = MappingTable(entity: Entity, attribute: TableAnnotation)

  /** `GetTables`: one mapping table per table annotation of the entity. */
  function Tables(e: Entity): (r: seq<MappingTable>)
    ensures |r| == |e.tables|
    ensures forall i :: 0 <= i < |r| ==> r[i].entity == e && r[i].attribute == e.tables[i]
  {
    seq(|e.tables|, i requires 0 <= i < |e.tables| => MappingTable(e, e.tables[i]))
  }

  /** `GetTableName(table)`: the table's name when given, else the entity's id. */
  function TableNameOf(t: MappingTable): (r: string)
    ensures t.attribute.name != "" ==> r == t.attribute.name
    ensures t.attribute.name == "" ==> r == t.entity.tableId
  {
    if t.attribute.name != "" then t.attribute.name else t.entity.tableId
  }

  /** `GetAlias(table)` */
  function TableAlias(t: MappingTable): (r: string)
    ensures r == t.attribute.alias
  {
    t.attribute.alias
  }

  /** `GetTableName(entity)` as written: the name of the first table, and a
      null dereference when the entity has no table. */
  function EntityTableName(e: Entity): (r: Result<string>)
    ensures r.Err? <==> e.tables == []
    ensures r.Err? ==> r.error == MissingTable(e.tableId)
    ensures r.Ok? ==> r.value == TableNameOf(Tables(e)[0])
  {
    if e.tables == [] then Err(MissingTable(e.tableId))
    else Ok(TableNameOf(MappingTable(e, e.tables[0])))
  }

  /** For a built entity with its table, both table names agree. */
  lemma EntityTableNameAgrees(e: Entity)
    requires WellFormed(e) && e.tables != []
    ensures EntityTableName(e) == Ok(TableName(e))
  {
  }

  /** The entity without a table: its `TableName` is its id, yet
      `GetTableName` fails. */
  lemma EntityTableNameWithoutTable(e: Entity)
    requires WellFormed(e) && e.tables == []
    ensures TableName(e) == e.tableId
    ensures EntityTableName(e) == Err(MissingTable(e.tableId))
  {
  }

  /** `GetTableName(entity)` as evidently intended: the name of the first
      table, falling back to the entity's id, as the two-argument
      `GetTableName` does for a missing table. */
  function EntityTableNameIntended(e: Entity): (r: string)
    ensures e.tables != [] ==> Ok(r) == EntityTableName(e)
  {
    if e.tables != [] && e.tables[0].name != "" then e.tables[0].name else e.tableId
  }

  /** The intended name is the entity's `TableName` for every built entity. */
  lemma EntityTableNameIntendedAgrees(e: Entity)
    requires WellFormed(e)
    ensures EntityTableNameIntended(e) == TableName(e)
  {
  }

  /** `IsExtensionTable` */
  function IsExtensionTable(t: MappingTable): (r: bool)
    ensures r <==> t.attribute.ExtensionTable?
  {
    t.attribute.ExtensionTable?
  }

  /** `GetExtensionRelatedAlias`: none for a plain table. */
  function ExtensionRelatedAlias(t: MappingTable): (r: Option<string>)
    ensures r.Some? <==> IsExtensionTable(t)
    ensures r.Some? ==> r.value == t.attribute.relatedAlias
  {
    if IsExtensionTable(t) then Some(t.attribute.relatedAlias) else None
  }

  /** `GetExtensionKeyColumnNames`: the key-column list split at every
      separator, empty pieces kept; joining the pieces back with the
      separators gives the list again. */
  function ExtensionKeyColumnNames(t: MappingTable): (r: seq<string>)
    ensures !IsExtensionTable(t) ==> r == []
    ensures IsExtensionTable(t) ==>
              && |r| == |Separators(t.attribute.keyColumns, KeySeparators)| + 1
              && Join(r, Separators(t.attribute.keyColumns, KeySeparators)) == t.attribute.keyColumns
              && forall i, c :: 0 <= i < |r| && c in r[i] ==> c !in KeySeparators
  {
    if IsExtensionTable(t) then
      SplitJoin(t.attribute.keyColumns, KeySeparators);
      Split(t.attribute.keyColumns, KeySeparators)
    else []
  }

  /** Some mapping member of `e` has exactly the member name `name`. */
  predicate HasMemberNamed(e: Entity, name: string) {
    exists mm :: mm in e.members && mm.member.name == name
  }

  /** `GetReferencedMember`: the member mapped under exactly `name`, or the
      error naming the entity type, the name, the annotation field and the
      type the reference comes from. */
  function ReferencedMember(e: Entity, name: string, source: string, sourceType: TypeId): (r: Result<MemberInfo>)
    ensures r.Ok? <==> HasMemberNamed(e, name)
    ensures r.Ok? ==> r.value.name == name && exists mm :: mm in e.members && mm.member == r.value
    ensures r.Err? ==> r.error == UnmappedReference(e.entityType, name, source, sourceType)
  {
    match GetMappingMember(e, name)
    case Some(mm) => Ok(mm.member)
    case None => Err(UnmappedReference(e.entityType, name, source, sourceType))
  }

  /** The names resolved in order; the first unmapped one is the error. */
  function ReferencedAll(e: Entity, names: seq<string>, source: string, sourceType: TypeId): (r: Result<seq<MemberInfo>>)
    ensures r.Ok? ==> |r.value| == |names|
  {
    if names == [] then Ok([])
    else
      match ReferencedMember(e, names[0], source, sourceType)
      case Err(err) => Err(err)
      case Ok(m) =>
        match ReferencedAll(e, names[1..], source, sourceType)
        case Err(err) => Err(err)
        case Ok(rest) => Ok([m] + rest)
  }

  /** `ReferencedAll` succeeds exactly when every name is mapped, and then
      holds the members of those names in order. */
  lemma {:induction false} ReferencedAllOk(e: Entity, names: seq<string>, source: string, sourceType: TypeId)
    ensures ReferencedAll(e, names, source, sourceType).Ok? <==>
              forall k :: 0 <= k < |names| ==> ReferencedMember(e, names[k], source, sourceType).Ok?
    ensures ReferencedAll(e, names, source, sourceType).Ok? ==>
              forall k :: 0 <= k < |names| ==>
                Ok(ReferencedAll(e, names, source, sourceType).value[k]) == ReferencedMember(e, names[k], source, sourceType)
  {
    if names != [] {
      var tail := names[1..];
      ReferencedAllOk(e, tail, source, sourceType);
      assert forall k :: 0 < k < |names| ==> names[k] == tail[k - 1];
      var head := ReferencedMember(e, names[0], source, sourceType);
      var rest := ReferencedAll(e, tail, source, sourceType);
      if head.Ok? && rest.Ok? {
        var r := ReferencedAll(e, names, source, sourceType);
        assert r == Ok([head.value] + rest.value);
        assert forall k :: 0 < k < |names| ==> r.value[k] == rest.value[k - 1];
      }
    }
  }

  /** A failing `ReferencedAll` reports the first unmapped name: the one at
      the returned index, all names before it being mapped. */
  lemma {:induction false} ReferencedAllFirstError(e: Entity, names: seq<string>, source: string, sourceType: TypeId)
    returns (k: nat)
    requires ReferencedAll(e, names, source, sourceType).Err?
    ensures k < |names|
    ensures Err(ReferencedAll(e, names, source, sourceType).error) == ReferencedMember(e, names[k], source, sourceType)
    ensures forall j :: 0 <= j < k ==> ReferencedMember(e, names[j], source, sourceType).Ok?
  {
    if ReferencedMember(e, names[0], source, sourceType).Err? {
      return 0;
    }
    var tail := names[1..];
    var i := ReferencedAllFirstError(e, tail, source, sourceType);
    assert forall j :: 0 < j < |names| ==> names[j] == tail[j - 1];
    k := i + 1;
  }

  /** The error of a failing `ReferencedAll` names one of the names, an
      unmapped one. */
  lemma ReferencedAllErrorNamed(e: Entity, names: seq<string>, source: string, sourceType: TypeId)
    requires ReferencedAll(e, names, source, sourceType).Err?
    ensures var err := ReferencedAll(e, names, source, sourceType).error;
            && err.UnmappedReference? && err.entityType == e.entityType
            && err.source == source && err.sourceType == sourceType && err.name in names
            && ReferencedMember(e, err.name, source, sourceType).Err?
  {
    var k := ReferencedAllFirstError(e, names, source, sourceType);
  }

  /** `GetReferencedMembers`: a key list split on space, comma and pipe, each
      piece resolved against the entity's mapped members. */
  function ReferencedMembers(e: Entity, names: string, source: string, sourceType: TypeId): (r: Result<seq<MemberInfo>>)
    ensures r.Ok? <==> forall k :: 0 <= k < |Split(names, KeySeparators)| ==>
                         HasMemberNamed(e, Split(names, KeySeparators)[k])
    ensures r.Ok? ==> |r.value| == |Split(names, KeySeparators)|
                      && forall k :: 0 <= k < |r.value| ==> r.value[k].name == Split(names, KeySeparators)[k]
    ensures r.Err? ==> && r.error.UnmappedReference? && r.error.entityType == e.entityType
                       && r.error.source == source && r.error.sourceType == sourceType
                       && r.error.name in Split(names, KeySeparators)
  {
    var pieces := Split(names, KeySeparators);
    var r := ReferencedAll(e, pieces, source, sourceType);
    ReferencedAllOk(e, pieces, source, sourceType);
    assert r.Err? ==> && r.error.UnmappedReference? && r.error.entityType == e.entityType
                      && r.error.source == source && r.error.sourceType == sourceType && r.error.name in pieces
                      && exists k :: 0 <= k < |pieces| && !HasMemberNamed(e, pieces[k]) by {
      if r.Err? {
        ReferencedAllErrorNamed(e, pieces, source, sourceType);
        var k :| 0 <= k < |pieces| && pieces[k] == r.error.name;
      }
    }
    r
  }

  /** Separators next to each other leave an empty piece, which no member is
      named: `"A, B"` fails on the empty name between comma and space. */
  lemma ReferencedMembersEmptyPiece(e: Entity, source: string, sourceType: TypeId)
    requires forall mm :: mm in e.members ==> mm.member.name != ""
    ensures ReferencedMembers(e, "A, B", source, sourceType).Err?
  {
    assert Split("A, B", KeySeparators)[1] == "";
  }

  /** `GetAssociationKeyMembers`: for an association member, its key members
      resolved on the entity itself; otherwise the base mapping answers. */
  function AssociationKeyMembers(e: Entity, m: MemberInfo): (r: Answer<seq<MemberInfo>>)
    ensures r.Inherited? <==> !IsAssociationRelationship(e, m)
    ensures r.Answered? ==> ReferencedMembers(e, AssociationOf(e, m).keyMembers, "Association.KeyMembers", e.entityType)
                              == Ok(r.value)
    ensures IsAssociationRelationship(e, m) ==>
              (r.Answered? <==> ReferencedMembers(e, AssociationOf(e, m).keyMembers, "Association.KeyMembers", e.entityType).Ok?)
    ensures r.Failed? ==> Err(r.error) == ReferencedMembers(e, AssociationOf(e, m).keyMembers, "Association.KeyMembers", e.entityType)
    ensures r.Failed? ==> r.error.UnmappedReference? && r.error.source == "Association.KeyMembers"
                          && r.error.sourceType == e.entityType
  {
    if IsAssociationRelationship(e, m) then
      match ReferencedMembers(e, AssociationOf(e, m).keyMembers, "Association.KeyMembers", e.entityType)
      case Ok(ms) => Answered(ms)
      case Err(err) => Failed(err)
    else Inherited
  }

  /** What the column search takes from the `i`-th mapping member alone: the
      nested entity's own hit, or the member itself when it is a column whose
      column name equals `column` up to case. */
  function HitAt(e: Entity, column: string, i: nat, base: BaseColumnName): Option<MemberInfo>
    requires i < |e.members|
    decreases e, 0, |e.members| - i, 0
  {
    var m := e.members[i].member;
    if IsNestedEntity(e, m) then MemberForColumn(NestedOf(e, m), column, base)
    else if IsColumn(e, m) && SameIgnoringCase(ColumnName(e, m, base), column) then Some(m)
    else None
  }

  /** The depth-first column search from the `i`-th mapping member on: the
      first member with a hit wins, a nested entity being searched in place. */
  function SearchFrom(e: Entity, column: string, i: nat, base: BaseColumnName): Option<MemberInfo>
    requires i <= |e.members|
    decreases e, 0, |e.members| - i, 1
  {
    if i == |e.members| then None
    else
      match HitAt(e, column, i, base)
      case Some(m) => Some(m)
      case None => SearchFrom(e, column, i + 1, base)
  }

  /** What `GetMemberForColumn` returns. */
  function MemberForColumn(e: Entity, column: string, base: BaseColumnName): Option<MemberInfo>
    decreases e, 1, 0, 0
  {
    SearchFrom(e, column, 0, base)
  }

  /** `m` is, somewhere down the nesting of `e`, a column member whose column
      name equals `column` up to case. */
  predicate MapsColumn(e: Entity, m: MemberInfo, column: string, base: BaseColumnName)
    decreases e, 1
  {
    exists k :: 0 <= k < |e.members| && MapsColumnAt(e, k, m, column, base)
  }

  /** ... through the `k`-th mapping member of `e`. */
  predicate MapsColumnAt(e: Entity, k: nat, m: MemberInfo, column: string, base: BaseColumnName)
    requires k < |e.members|
    decreases e, 0
  {
    || (e.members[k].nested.Some? && MapsColumn(e.members[k].nested.value, m, column, base))
    || (e.members[k].member == m && IsColumnMember(e.members[k])
        && SameIgnoringCase(ColumnName(e, m, base), column))
  }

  /** `m` is the depth-first first member of `e` from the `i`-th on that maps
      `column`: no member before the `k`-th maps it at all, and `m` is the
      first hit through the `k`-th. */
  ghost predicate FirstFrom(e: Entity, i: nat, m: MemberInfo, column: string, base: BaseColumnName)
    decreases e, 2
  {
    exists k :: i <= k < |e.members| && NoHitBetween(e, i, k, column, base) && FirstAt(e, k, m, column, base)
  }

  /** No member from the `i`-th to before the `k`-th maps `column`. */
  ghost predicate NoHitBetween(e: Entity, i: nat, k: nat, column: string, base: BaseColumnName)
    decreases e, 1
  {
    forall j, m' :: i <= j < k && j < |e.members| ==> !MapsColumnAt(e, j, m', column, base)
  }

  /** ... through the `k`-th mapping member: the nested entity's first hit,
      or the member itself when it is a column of that name. */
  ghost predicate FirstAt(e: Entity, k: nat, m: MemberInfo, column: string, base: BaseColumnName)
    requires k < |e.members|
    decreases e, 0
  {
    if e.members[k].nested.Some? then FirstFrom(e.members[k].nested.value, 0, m, column, base)
    else e.members[k].member == m && IsColumnMember(e.members[k]) && SameIgnoringCase(ColumnName(e, m, base), column)
  }

  /** The `i`-th member's hit maps the column through that member, and
      without a hit no member maps it through the `i`-th. */
  lemma HitAtCorrect(e: Entity, column: string, i: nat, base: BaseColumnName)
    requires WellFormed(e) && i < |e.members|
    ensures HitAt(e, column, i, base).Some? ==> MapsColumnAt(e, i, HitAt(e, column, i, base).value, column, base)
    ensures HitAt(e, column, i, base).None? ==> forall m :: !MapsColumnAt(e, i, m, column, base)
    decreases e, 0, |e.members| - i, 0
  {
    var mm := e.members[i];
    assert MemberNamed(e, mm.member) == Some(mm);
    assert Shaped(mm);
    if mm.nested.Some? {
      var n := mm.nested.value;
      MemberForColumnCorrect(n, column, base);
      assert HitAt(e, column, i, base) == MemberForColumn(n, column, base);
      if MemberForColumn(n, column, base).None? {
        forall m
          ensures !MapsColumnAt(e, i, m, column, base)
        {
          assert !MapsColumn(n, m, column, base);
          assert !IsColumnMember(mm);
        }
      }
    }
  }

  /** The search from `i` finds a member mapped at or after `i`, and finds
      one whenever some member at or after `i` maps the column. */
  lemma {:induction false} SearchFromCorrect(e: Entity, column: string, i: nat, base: BaseColumnName)
    requires WellFormed(e) && i <= |e.members|
    ensures SearchFrom(e, column, i, base).Some? ==> MapsColumn(e, SearchFrom(e, column, i, base).value, column, base)
    ensures SearchFrom(e, column, i, base).None? ==>
              forall m, k :: i <= k < |e.members| ==> !MapsColumnAt(e, k, m, column, base)
    decreases e, 0, |e.members| - i, 1
  {
    if i < |e.members| {
      HitAtCorrect(e, column, i, base);
      SearchFromCorrect(e, column, i + 1, base);
      var hit := HitAt(e, column, i, base);
      if hit.Some? {
        assert MapsColumnAt(e, i, hit.value, column, base);
      }
    }
  }

  /** `GetMemberForColumn` finds a member exactly when one maps the column,
      and what it finds maps the column. */
  lemma {:induction false} MemberForColumnCorrect(e: Entity, column: string, base: BaseColumnName)
    requires WellFormed(e)
    ensures MemberForColumn(e, column, base).Some? ==> MapsColumn(e, MemberForColumn(e, column, base).value, column, base)
    ensures MemberForColumn(e, column, base).None? <==> forall m :: !MapsColumn(e, m, column, base)
    decreases e, 1, 0, 0
  {
    SearchFromCorrect(e, column, 0, base);
    var r := MemberForColumn(e, column, base);
    if r.Some? {
      assert MapsColumn(e, r.value, column, base);
    }
  }

  /** The `i`-th member's hit is exactly its first hit. */
  lemma HitAtFirst(e: Entity, column: string, i: nat, m: MemberInfo, base: BaseColumnName)
    requires WellFormed(e) && i < |e.members|
    ensures HitAt(e, column, i, base) == Some(m) <==> FirstAt(e, i, m, column, base)
    decreases e, 0, |e.members| - i, 0
  {
    var mm := e.members[i];
    assert MemberNamed(e, mm.member) == Some(mm);
    assert Shaped(mm);
    if mm.nested.Some? {
      SearchFromFirst(mm.nested.value, column, 0, m, base);
    }
  }

  /** When the `i`-th member maps the column, the first hit from `i` on is
      the one through the `i`-th member. */
  lemma FirstFromHere(e: Entity, i: nat, m: MemberInfo, h: MemberInfo, column: string, base: BaseColumnName)
    requires i < |e.members| && MapsColumnAt(e, i, h, column, base)
    requires FirstAt(e, i, m, column, base) <==> m == h
    ensures FirstFrom(e, i, m, column, base) <==> m == h
  {
    if FirstFrom(e, i, m, column, base) {
      var k :| i <= k < |e.members| && NoHitBetween(e, i, k, column, base) && FirstAt(e, k, m, column, base);
      assert k == i;
    }
    if m == h {
      assert NoHitBetween(e, i, i, column, base) && FirstAt(e, i, m, column, base);
    }
  }

  /** When the `i`-th member maps nothing, the first hit from `i` on is the
      first hit from the next member on. */
  lemma FirstFromSkip(e: Entity, i: nat, m: MemberInfo, column: string, base: BaseColumnName)
    requires i < |e.members| && forall m' :: !MapsColumnAt(e, i, m', column, base)
    requires !FirstAt(e, i, m, column, base)
    ensures FirstFrom(e, i, m, column, base) <==> FirstFrom(e, i + 1, m, column, base)
  {
    if FirstFrom(e, i, m, column, base) {
      var k :| i <= k < |e.members| && NoHitBetween(e, i, k, column, base) && FirstAt(e, k, m, column, base);
      assert k != i;
      assert NoHitBetween(e, i + 1, k, column, base);
    }
    if FirstFrom(e, i + 1, m, column, base) {
      var k :| i + 1 <= k < |e.members| && NoHitBetween(e, i + 1, k, column, base) && FirstAt(e, k, m, column, base);
      assert NoHitBetween(e, i, k, column, base);
    }
  }

  /** The search from `i` returns exactly the depth-first first hit from `i` on. */
  lemma {:induction false} SearchFromFirst(e: Entity, column: string, i: nat, m: MemberInfo, base: BaseColumnName)
    requires WellFormed(e) && i <= |e.members|
    ensures SearchFrom(e, column, i, base) == Some(m) <==> FirstFrom(e, i, m, column, base)
    decreases e, 0, |e.members| - i, 1
  {
    if i < |e.members| {
      HitAtCorrect(e, column, i, base);
      HitAtFirst(e, column, i, m, base);
      var hit := HitAt(e, column, i, base);
      if hit.Some? {
        FirstFromHere(e, i, m, hit.value, column, base);
      } else {
        SearchFromFirst(e, column, i + 1, m, base);
        FirstFromSkip(e, i, m, column, base);
      }
    }
  }

  /** `GetMemberForColumn` returns exactly the depth-first first member that
      maps the column: members in order, a nested entity searched in place. */
  lemma MemberForColumnFirst(e: Entity, column: string, m: MemberInfo, base: BaseColumnName)
    requires WellFormed(e)
    ensures MemberForColumn(e, column, base) == Some(m) <==> FirstFrom(e, 0, m, column, base)
  {
    SearchFromFirst(e, column, 0, m, base);
  }

  /** `GetMemberForColumn`: walks the mapped members in order, recursing into
      nested entities, and returns the first hit. */
  method GetMemberForColumn(e: Entity, column: string, base: BaseColumnName) returns (r: Option<MemberInfo>)
    ensures r == MemberForColumn(e, column, base)
    decreases e
  {
    var i := 0;
    while i < |e.members|
      invariant 0 <= i <= |e.members|
      invariant MemberForColumn(e, column, base) == SearchFrom(e, column, i, base)
    {
      var m := e.members[i].member;
      if IsNestedEntity(e, m) {
        var found := GetMemberForColumn(NestedOf(e, m), column, base);
        if found.Some? {
          return found;
        }
      } else if IsColumn(e, m) && SameIgnoringCase(ColumnName(e, m, base), column) {
        return Some(m);
      }
      i := i + 1;
    }
    return None;
  }

  /** `GetExtensionRelatedMembers`: for an extension table, the member found
      for each related key column of its entity, none where the search fails. */
  function ExtensionRelatedMembers(t: MappingTable, base: BaseColumnName): (r: seq<Option<MemberInfo>>)
    ensures !IsExtensionTable(t) ==> r == []
    ensures IsExtensionTable(t) ==> |r| == |Split(t.attribute.relatedKeyColumns, KeySeparators)|
    ensures IsExtensionTable(t) && WellFormed(t.entity) ==>
              forall k :: 0 <= k < |r| && r[k].Some? ==>
                MapsColumn(t.entity, r[k].value, Split(t.attribute.relatedKeyColumns, KeySeparators)[k], base)
    ensures IsExtensionTable(t) && WellFormed(t.entity) ==>
              forall k :: 0 <= k < |r| ==>
                (r[k].None? <==> forall m :: !MapsColumn(t.entity, m, Split(t.attribute.relatedKeyColumns, KeySeparators)[k], base))
    ensures IsExtensionTable(t) && WellFormed(t.entity) ==>
              forall k, m :: 0 <= k < |r| ==>
                (r[k] == Some(m) <==> FirstFrom(t.entity, 0, m, Split(t.attribute.relatedKeyColumns, KeySeparators)[k], base))
  {
    if IsExtensionTable(t) then
      var names := Split(t.attribute.relatedKeyColumns, KeySeparators);
      var r := seq(|names|, k requires 0 <= k < |names| => MemberForColumn(t.entity, names[k], base));
      if WellFormed(t.entity) then
        MembersForColumns(t.entity, names, base, r);
        r
      else r
    else []
  }

  /** The members found for a list of column names, one search per name. */
  lemma MembersForColumns(e: Entity, names: seq<string>, base: BaseColumnName, r: seq<Option<MemberInfo>>)
    requires WellFormed(e) && |r| == |names|
    requires forall k :: 0 <= k < |r| ==> r[k] == MemberForColumn(e, names[k], base)
    ensures forall k :: 0 <= k < |r| && r[k].Some? ==> MapsColumn(e, r[k].value, names[k], base)
    ensures forall k :: 0 <= k < |r| ==> (r[k].None? <==> forall m :: !MapsColumn(e, m, names[k], base))
    ensures forall k, m :: 0 <= k < |r| ==> (r[k] == Some(m) <==> FirstFrom(e, 0, m, names[k], base))
  {
    forall k | 0 <= k < |r|
      ensures r[k].Some? ==> MapsColumn(e, r[k].value, names[k], base)
      ensures r[k].None? <==> forall m :: !MapsColumn(e, m, names[k], base)
    {
      MemberForColumnCorrect(e, names[k], base);
    }
    forall k, m | 0 <= k < |r|
      ensures r[k] == Some(m) <==> FirstFrom(e, 0, m, names[k], base)
    {
      MemberForColumnFirst(e, names[k], m, base);
    }
  }
}
