# LinqToVfp attribute mapping, modelled in Dafny

LinqToVfp maps the classes of a data context to Visual FoxPro tables. The
mapping is declared with attributes on the context's members:

- `TableAttribute` and `ExtensionTableAttribute` name the tables;
- `ColumnAttribute` and `AssociationAttribute` map the members of the entity
  type, each annotation naming its member by a (possibly dotted) member path.

`VfpAttributeMapping` reads these annotations and builds one mapping entity
per table id. A table id is either a context member's name (`Customers`) or
that name followed by a nesting path (`Customers.Address`) for a compound
member whose own members are mapped. Every entity it builds is kept in a
cache keyed by table id. On top of the built entities it answers the
queries the query translator asks: is a member mapped, is it a column or an
association, what is a table's name, which members are an association's
keys, which member maps a column.

The model is organised as the source is:

- `Outcomes` (`outcomes.dfy`): the exceptions the mapping throws, as values
  of `MappingError`, carried by `Result` and by `Answer` (which also says
  "the base mapping answers").
- `Text` (`text.dfy`): `IndexOf`, `StartsWith`, `Split` over separator
  characters (proved to lose nothing), case-insensitive equality and the
  ordinal order.
- `Ordering` (`ordering.dfy`): `OrderBy` as an insertion sort, proved sorted
  and a permutation.
- `Metadata` (`metadata.dfy`): the annotations and a finite description of
  the program's types, which stands in for reflection.
- `Reflection` (`reflection.dfy`): `FindMember`, the loop that resolves a
  dotted member path segment by segment, proved against the recursive
  definition `Resolve`.
- `Entities` (`entities.dfy`): `AttributeMappingMember` and
  `AttributeMappingEntity`, whose constructor `MakeEntity` fails as
  `SingleOrDefault` and `ToDictionary` do.
- `Planning` (`planning.dfy`): the part of `CreateEntity` that depends on
  names alone:
  - splitting the table id;
  - choosing and ordering the annotations under the nesting path;
  - the decision the loop takes on each annotation (`Advance`, folded over
    the annotations by `PlanOf`).
- `Facade` (`facade.dfy`): the read-only queries over built entities,
  including the depth-first column search `GetMemberForColumn`.
- `Mapping` (`mapping.dfy`): the class `AttributeMapping`. Its `entities`
  map is the cache, and its methods are:
  - `GetEntity`, `CreateEntity` and the loop of `CreateEntity`, which
    recurse into one another to build nested entities;
  - `GetTableId`;
  - `GetRelatedEntity` and `GetAssociationRelatedKeyMembers`, which may
    build entities.

The class invariant `Valid` states that the cache is valid:

- every entry is stored under its own table id;
- every entry is well formed: at most one table, distinct member names, and
  each member either annotated or nested;
- every nested entity held by an entry is the cache's entry under its own
  table id.

`CreateEntity` is specified by `Builds`, which describes the entity built
for a table id from the root member's attributes, member by member.

Each method of the build is also proved equal to a ghost function of the
cache it starts from: `GetSpec`, `CreateSpec`, `LoopSpec`, `ScanSpec`,
`NestedSpec` and `PlainStep`. These pin down the failures as well as the
results: which error is raised, and which nested entities are cached before
it. Lemmas tie them to the plan of the annotations (`Planning.PlanOf`).
Wherever the plan fails, the build fails too, and a pass whose planned
step fails raises that step's error.

The mutual recursion of `GetEntity` and `CreateEntity` terminates because of
two facts:

- A nested entity's id is `tableId + "." + segment`, whose nesting path is
  strictly longer.
- A nested entity is only built for an annotation whose member path is longer
  than that new nesting path.

The measure is therefore the longest member path annotated on the context,
minus the length of the nesting path.

## Model

| member | source | states |
|---|---|---|
| Text.IndexOf | Source/LinqToVfp/Mapping/VfpAttributeMapping.cs:90 | the index of the first occurrence of the character, -1 exactly when it does not occur |
| Text.IndexOfAppend | Source/LinqToVfp/Mapping/VfpAttributeMapping.cs:90-92 | the first dot of a concatenation is the left part's first dot when it has one, else the right part's, shifted |
| Text.Split | Source/LinqToVfp/Mapping/VfpAttributeMapping.cs:350 | splitting yields one piece more than there are separators, and no piece holds a separator |
| Text.SplitJoin | Source/LinqToVfp/Mapping/VfpAttributeMapping.cs:350 | joining the pieces back with the separators gives the original string, so splitting loses nothing |
| Text.SplitWithoutSeparators | Source/LinqToVfp/Mapping/VfpAttributeMapping.cs:150 | a name without dots is a single path segment |
| Text.OrdinalTotal | Source/LinqToVfp/Mapping/VfpAttributeMapping.cs:103 | any two strings are comparable, so ordering annotations by member path is well defined |
| Ordering.Insert | Source/LinqToVfp/Mapping/VfpAttributeMapping.cs:103 | inserting keeps a sorted sequence sorted and adds exactly the one element |
| Ordering.SortBy | Source/LinqToVfp/Mapping/VfpAttributeMapping.cs:94-95 | the ordered sequence is sorted by the key and is a permutation of the input |
| Ordering.SortByMembers | Source/LinqToVfp/Mapping/VfpAttributeMapping.cs:101-103 | ordering neither adds nor drops an annotation |
| Reflection.LookupMember | Source/LinqToVfp/Mapping/VfpAttributeMapping.cs:152 | the first declared member whose name equals the segment up to case (`SameIgnoringCase`, ASCII folding), and none exactly when no member matches |
| Reflection.ResolveNames | Source/LinqToVfp/Mapping/VfpAttributeMapping.cs:148-161 | a resolved path ends at a member named like its last segment, and a failure is a member-not-found naming one of the segments |
| Reflection.ResolveNamesFirstFailure | Source/LinqToVfp/Mapping/VfpAttributeMapping.cs:148-161 | a failing resolution fails on the first segment that is not found: every segment before it resolves, its lookup on the element type of the previous member (`TypeBefore`) finds nothing, and the error names exactly that segment and that type, as the throw at line 154 does |
| Reflection.ResolvableHead | Source/LinqToVfp/Mapping/VfpAttributeMapping.cs:150-152 | a path that resolves is non-empty and does not begin with a dot, since every member has a name |
| Reflection.ResolveSingle | Source/LinqToVfp/Mapping/VfpAttributeMapping.cs:148-161 | a name without dots resolves to a member declared on the type itself |
| Reflection.FindMember | Source/LinqToVfp/Mapping/VfpAttributeMapping.cs:148-161 | the segment loop, each lookup on the element type of the previous member found, returns exactly what `Resolve` defines, including the error for the first segment not found |
| Entities.GetMappingMember | Source/LinqToVfp/Mapping/VfpAttributeMapping.cs:488-492 | the lookup finds a member of exactly that name, and finds none only when no member has that name |
| Entities.LookupFindsMember | Source/LinqToVfp/Mapping/VfpAttributeMapping.cs:458 | with distinct member names, looking a member's name up finds that very member |
| Entities.FirstDuplicateName | Source/LinqToVfp/Mapping/VfpAttributeMapping.cs:458 | no name is reported exactly when the names are distinct, and a reported name occurs earlier as well |
| Entities.MakeEntity | Source/LinqToVfp/Mapping/VfpAttributeMapping.cs:446-459 | two or more tables fail as `SingleOrDefault` does, a repeated member name fails as `ToDictionary` does, and otherwise the entity holds its arguments with the single table's name, falling back to the table id (lines 465-474) |
| Planning.SplitTableId | Source/LinqToVfp/Mapping/VfpAttributeMapping.cs:90-92 | the id splits at its first dot into a dot-free root and a nesting path when that dot is past index 0; otherwise the whole id is the root and the path is empty |
| Planning.NestedIdSplit | Source/LinqToVfp/Mapping/VfpAttributeMapping.cs:128 | a nested entity's id keeps the parent's root, and its nesting path is the parent's extended by the segment |
| Planning.MemberAnnotationsOf | Source/LinqToVfp/Mapping/VfpAttributeMapping.cs:101 | the member annotations among the attributes, each as many times as it occurs there (equal multisets), so repeated annotations reach `ToDictionary` (line 458) |
| Planning.TableAnnotationsOf | Source/LinqToVfp/Mapping/VfpAttributeMapping.cs:94 | the table annotations among the attributes, each as many times as it occurs there (equal multisets), so repeated tables reach `SingleOrDefault` (line 452) |
| Planning.StartingWith | Source/LinqToVfp/Mapping/VfpAttributeMapping.cs:102 | the annotations whose member path starts with the nesting path (`Text.StartsWith`, the ordinal prefix test), each with its multiplicity, and no other |
| Planning.MemberAnnotationsUnder | Source/LinqToVfp/Mapping/VfpAttributeMapping.cs:101-103 | the member annotations starting with the nesting path, each with its multiplicity among the attributes, and none other, sorted by member path |
| Planning.OrderedTables | Source/LinqToVfp/Mapping/VfpAttributeMapping.cs:94-95 | the table annotations, as a permutation sorted by name |
| Planning.FirstTableAttribute | Source/LinqToVfp/Mapping/VfpAttributeMapping.cs:96 | the first `Table` annotation of the ordered tables: every table before it is an extension table, and none exactly when there is no `Table` annotation |
| Planning.WorkingEntityType | Source/LinqToVfp/Mapping/VfpAttributeMapping.cs:96-99 | the entity type is replaced only when it equals the element type, and then exactly by the first table annotation's `EntityType` when that is given |
| Planning.LeadingSegment | Source/LinqToVfp/Mapping/VfpAttributeMapping.cs:117-120 | the name up to its first dot, which holds no dot, so the check for a dot in it at line 118 never fires |
| Planning.AdvanceKeepsInvariant | Source/LinqToVfp/Mapping/VfpAttributeMapping.cs:105-141 | one loop pass (`Advance`: skip an empty path, fail a short one, record a nested segment once, reject a plain name already seen, else add a plain member) keeps the loop invariant: the `members` set is exactly the nested segments met, each nested segment gives one member, and every member comes from an annotation |
| Planning.PlanKeepsInvariant | Source/LinqToVfp/Mapping/VfpAttributeMapping.cs:105-141 | the loop invariant holds after every prefix of the annotations, for the loop's decisions folded in order (`PlanOf`) |
| Planning.AdvanceCovers | Source/LinqToVfp/Mapping/VfpAttributeMapping.cs:105-138 | a successful pass keeps every earlier member and accounts for its annotation: an empty path is skipped, an annotation on a member gives its own plain member, and one below a nested member gives, or finds, that segment's nested member |
| Planning.AdvanceDuplicate | Source/LinqToVfp/Mapping/VfpAttributeMapping.cs:132-134 | a pass reports a duplicate only for an annotation directly on a member whose name is already among the nested segments |
| Planning.PlanErrorPersists | Source/LinqToVfp/Mapping/VfpAttributeMapping.cs:105-141 | once an annotation fails, the later annotations do not change the outcome |
| Planning.PlanCovers | Source/LinqToVfp/Mapping/VfpAttributeMapping.cs:105-138 | after a successful loop every non-empty annotation has a relative name and is accounted for by a plain member or by its segment's nested member |
| Planning.CollisionWithSeenSegment | Source/LinqToVfp/Mapping/VfpAttributeMapping.cs:132-134 | an annotation directly on a member named like an already discovered nested segment makes the build fail with "more than one mapping attribute" |
| Planning.DuplicateMappingCause | Source/LinqToVfp/Mapping/VfpAttributeMapping.cs:122-134 | conversely, that error is only raised when an earlier annotation below a nested member has that name as its segment |
| Planning.SeenSegmentSource | Source/LinqToVfp/Mapping/VfpAttributeMapping.cs:122-126 | every segment in the `members` set comes from an earlier annotation below a nested member |
| Planning.RepeatedPlainPassesPlan | Source/LinqToVfp/Mapping/VfpAttributeMapping.cs:131-138 | two annotations directly on the same member both pass the loop, because plain names never enter the `members` set; the repetition fails only at `ToDictionary` (line 458) |
| Planning.AnnotationAtPathFails | Source/LinqToVfp/Mapping/VfpAttributeMapping.cs:110 | an annotation whose member path is the nesting path itself makes the loop fail, where `Substring(path.Length + 1)` runs past the end |
| Planning.PrefixWithoutDot | Source/LinqToVfp/Mapping/VfpAttributeMapping.cs:102-110 | the prefix test does not ask for a dot after the path, and the one character after the path is dropped whatever it is: under `Customer`, `CustomerId` passes with relative name `d` |
| Planning.MaxMemberLengthBounds | Source/LinqToVfp/Mapping/VfpAttributeMapping.cs:101-103 | no member annotation of a member is longer than its longest one |
| Planning.ContextMaxLengthBounds | Source/LinqToVfp/Mapping/VfpAttributeMapping.cs:93 | no member annotation on any context member is longer than the longest on the context |
| Planning.NestedPathBounds | Source/LinqToVfp/Mapping/VfpAttributeMapping.cs:116-129 | a nested entity's id keeps the root, and its nesting path is longer than its parent's and no longer than the annotation that caused it |
| Facade.MemberNamed | Source/LinqToVfp/Mapping/VfpAttributeMapping.cs:181 | the member looked up by the member's name, and with distinct names the one member so named |
| Facade.IsMapped | Source/LinqToVfp/Mapping/VfpAttributeMapping.cs:180-183 | true exactly when some mapping member has the member's name |
| Facade.IsColumn | Source/LinqToVfp/Mapping/VfpAttributeMapping.cs:185-188 | a column implies a mapped member, and with distinct names holds exactly when the member so named carries a column annotation |
| Facade.ColumnOf | Source/LinqToVfp/Mapping/VfpAttributeMapping.cs:407-409 | the column annotation of the member so named |
| Facade.IsComputed | Source/LinqToVfp/Mapping/VfpAttributeMapping.cs:190-193 | a computed member is a column, and with distinct names this holds exactly when the member so named carries a column annotation marked computed |
| Facade.IsGenerated | Source/LinqToVfp/Mapping/VfpAttributeMapping.cs:195-198 | a generated member is a column, and with distinct names this holds exactly when the member so named carries a column annotation marked generated |
| Facade.IsPrimaryKey | Source/LinqToVfp/Mapping/VfpAttributeMapping.cs:200-203 | a primary-key member is a column, and with distinct names this holds exactly when the member so named carries a column annotation marked primary key |
| Facade.IsAssociationRelationship | Source/LinqToVfp/Mapping/VfpAttributeMapping.cs:223-226 | an association member is mapped and is not a column, and with distinct names this holds exactly when the member so named carries an association annotation |
| Facade.AssociationOf | Source/LinqToVfp/Mapping/VfpAttributeMapping.cs:411-413 | the association annotation of the member so named |
| Facade.IsRelationshipSource | Source/LinqToVfp/Mapping/VfpAttributeMapping.cs:228-237 | a foreign-key association on a member whose type is not a collection |
| Facade.IsRelationshipTarget | Source/LinqToVfp/Mapping/VfpAttributeMapping.cs:239-248 | is only ever an association member |
| Facade.IsNestedEntity | Source/LinqToVfp/Mapping/VfpAttributeMapping.cs:250-253 | a nested member is mapped, and with distinct names this holds exactly when the member so named has a nested entity |
| Facade.NestedOf | Source/LinqToVfp/Mapping/VfpAttributeMapping.cs:415-417 | the nested entity of the member so named, structurally smaller than the entity |
| Facade.ColumnFlagsImplyColumn | Source/LinqToVfp/Mapping/VfpAttributeMapping.cs:180-203 | primary key, computed and generated each imply a column, and a column implies a mapped member |
| Facade.MemberClassification | Source/LinqToVfp/Mapping/VfpAttributeMapping.cs:397-417 | in a built entity a mapped member is a column, an association or a nested entity, and a nested one is neither column nor association |
| Facade.SourceOrTarget | Source/LinqToVfp/Mapping/VfpAttributeMapping.cs:228-248 | for an association member exactly one of source and target holds, and for any other member neither |
| Facade.ColumnName | Source/LinqToVfp/Mapping/VfpAttributeMapping.cs:205-212 | for the member of that name in an entity with distinct names, its column annotation's name when that is a column with a name, else the base mapping's name; for a member no column maps, the base mapping's name. `Mapping.AttributeMapping.BuiltColumn` ties it to the annotation that built the member |
| Facade.ColumnDbType | Source/LinqToVfp/Mapping/VfpAttributeMapping.cs:214-221 | for the member of that name in an entity with distinct names, its column annotation's non-empty database type, else none; none for a member no column maps |
| Facade.ColumnAlias | Source/LinqToVfp/Mapping/VfpAttributeMapping.cs:325-328 | present exactly for a column member, and then, with distinct names, the alias of the column annotation of the member of that name |
| Facade.MappedMembers | Source/LinqToVfp/Mapping/VfpAttributeMapping.cs:494-496 | the members of the mapping members, one each, in order |
| Facade.MappedMembersAreMapped | Source/LinqToVfp/Mapping/VfpAttributeMapping.cs:176-183 | every mapped member is mapped, and with distinct names is looked up as its own mapping member |
| Facade.Tables | Source/LinqToVfp/Mapping/VfpAttributeMapping.cs:317-319 | one mapping table per table annotation, in order, each pointing back to its entity |
| Facade.TableNameOf | Source/LinqToVfp/Mapping/VfpAttributeMapping.cs:169-174 | the table's name when it is given, else the entity's table id |
| Facade.TableAlias | Source/LinqToVfp/Mapping/VfpAttributeMapping.cs:321-323 | the alias of the table's annotation; `Mapping.AttributeMapping.BuiltTable` ties it to an annotation declared on the root member |
| Facade.IsExtensionTable | Source/LinqToVfp/Mapping/VfpAttributeMapping.cs:335-337 | true exactly for an `ExtensionTable` annotation; `Mapping.AttributeMapping.BuiltTable` states the flag for every table of a built entity |
| Facade.EntityTableName | Source/LinqToVfp/Mapping/VfpAttributeMapping.cs:163-167 | as written: the first table's name, and a failure exactly when the entity has no table |
| Facade.EntityTableNameAgrees | Source/LinqToVfp/Mapping/VfpAttributeMapping.cs:163-174 | for a built entity with its table, `GetTableName(entity)` agrees with the entity's `TableName` (lines 465-474) |
| Facade.EntityTableNameWithoutTable | Source/LinqToVfp/Mapping/VfpAttributeMapping.cs:163-167 | for a built entity without a table, `TableName` is the table id, yet `GetTableName(entity)` fails |
| Facade.EntityTableNameIntended | Source/LinqToVfp/Mapping/VfpAttributeMapping.cs:163-174 | the table-name query as evidently intended agrees with the as-written one wherever that succeeds |
| Facade.EntityTableNameIntendedAgrees | Source/LinqToVfp/Mapping/VfpAttributeMapping.cs:465-474 | the intended table name is the entity's `TableName` for every built entity |
| Facade.ExtensionRelatedAlias | Source/LinqToVfp/Mapping/VfpAttributeMapping.cs:339-342 | present exactly for an extension table, and then its related alias; `Mapping.AttributeMapping.BuiltTable` shows it is that of an extension annotation on the root member |
| Facade.ExtensionKeyColumnNames | Source/LinqToVfp/Mapping/VfpAttributeMapping.cs:344-351 | nothing for a plain table; for an extension table, the key-column list split on space, comma and pipe, with pieces that rejoin to the list |
| Facade.ReferencedMember | Source/LinqToVfp/Mapping/VfpAttributeMapping.cs:299-306 | succeeds exactly when a mapping member has exactly that name, with that member, and otherwise fails naming the entity type, the name, the annotation field and the referring type |
| Facade.ReferencedAllOk | Source/LinqToVfp/Mapping/VfpAttributeMapping.cs:295-297 | resolving a list of names (`ReferencedAll`, one `GetReferencedMember` per name) succeeds exactly when every name resolves, and then yields each name's member in order |
| Facade.ReferencedAllFirstError | Source/LinqToVfp/Mapping/VfpAttributeMapping.cs:295-306 | a failure is the failure of the first name that does not resolve |
| Facade.ReferencedAllErrorNamed | Source/LinqToVfp/Mapping/VfpAttributeMapping.cs:295-306 | the failure names an unmapped name of the list, the annotation field and the referring type |
| Facade.ReferencedMembers | Source/LinqToVfp/Mapping/VfpAttributeMapping.cs:295-297 | a key list split on space, comma and pipe resolves exactly when every piece names a mapped member, to those members in order; otherwise the error names an unmapped piece |
| Facade.ReferencedMembersEmptyPiece | Source/LinqToVfp/Mapping/VfpAttributeMapping.cs:272 | adjacent separators leave an empty piece, so `"A, B"` fails on the empty name |
| Facade.AssociationKeyMembers | Source/LinqToVfp/Mapping/VfpAttributeMapping.cs:274-282 | the base mapping answers exactly for a non-association member; for an association member the answer is given exactly when its key members resolve on the entity itself, and is those members; otherwise it fails with that resolution's own error, an unmapped reference from `Association.KeyMembers` of the entity type |
| Facade.HitAtCorrect | Source/LinqToVfp/Mapping/VfpAttributeMapping.cs:365-372 | looking at one member (`HitAt`: a nested entity's own search, else the member itself when its column name equals the column up to case) finds a member that maps the column there, and finds nothing only when that member maps no such column |
| Facade.SearchFromCorrect | Source/LinqToVfp/Mapping/VfpAttributeMapping.cs:363-377 | the search from a member on (`SearchFrom`, the first hit wins) finds a member that maps the column somewhere down the nesting, and finds nothing only when no later member maps it |
| Facade.MemberForColumnCorrect | Source/LinqToVfp/Mapping/VfpAttributeMapping.cs:363-377 | the column search (`MemberForColumn`) finds a member exactly when one maps the column (up to case, nested entities included), and what it finds maps it |
| Facade.HitAtFirst | Source/LinqToVfp/Mapping/VfpAttributeMapping.cs:365-372 | one member's hit is exactly the depth-first first hit through that member |
| Facade.SearchFromFirst | Source/LinqToVfp/Mapping/VfpAttributeMapping.cs:363-377 | the search from a member on returns exactly the depth-first first hit from there: no earlier member maps the column, and the hit is the first one through its own member |
| Facade.MemberForColumnFirst | Source/LinqToVfp/Mapping/VfpAttributeMapping.cs:363-377 | the column search returns exactly the first member, in member order with nested entities searched in place, that maps the column, so a nested hit before a plain column of the same name wins |
| Facade.GetMemberForColumn | Source/LinqToVfp/Mapping/VfpAttributeMapping.cs:363-377 | the loop, recursing into nested entities first and returning the first hit, computes exactly the column search |
| Facade.ExtensionRelatedMembers | Source/LinqToVfp/Mapping/VfpAttributeMapping.cs:353-361 | nothing for a plain table; for an extension table, one entry per related key column: the depth-first first member that maps that column, and none exactly when no member maps it |
| Facade.MembersForColumns | Source/LinqToVfp/Mapping/VfpAttributeMapping.cs:360 | one column search per name: each hit maps its name, a miss means nothing maps it, and each hit is the first one |
| Mapping.FirstCandidate | Source/LinqToVfp/Mapping/VfpAttributeMapping.cs:66-76 | the index of the first public field or property of the context whose element type is the entity type, and none exactly when there is no such member |
| Mapping.ChildExtendsId | Source/LinqToVfp/Mapping/VfpAttributeMapping.cs:128 | a nested entity's id lies below its parent's |
| Mapping.ExtendsIdTransitive | Source/LinqToVfp/Mapping/VfpAttributeMapping.cs:128-129 | an id below a nested entity's id lies below its parent's too |
| Mapping.InsertKeepsCacheValid | Source/LinqToVfp/Mapping/VfpAttributeMapping.cs:47-48 | adding a well-formed entity under its own id keeps the cache valid |
| Mapping.RealisesRetained | Source/LinqToVfp/Mapping/VfpAttributeMapping.cs:140 | members built earlier stay faithful to their steps while the cache grows |
| Mapping.AttributeMapping.constructor | Source/LinqToVfp/Mapping/VfpAttributeMapping.cs:27-29 | a mapping over the given context type starts with an empty, valid cache |
| Mapping.AttributeMapping.ResolvableRoot | Source/LinqToVfp/Mapping/VfpAttributeMapping.cs:90-93 | a table id whose root member exists is non-empty and does not begin with a dot, and its root is a member declared on the context |
| Mapping.AttributeMapping.AnnotationsWithinMaxPath | Source/LinqToVfp/Mapping/VfpAttributeMapping.cs:101-103 | no annotation the builder considers is longer than the longest on the context |
| Mapping.AttributeMapping.GetEntity | Source/LinqToVfp/Mapping/VfpAttributeMapping.cs:40-58 | equals `GetSpec` on the cache it starts from: a cached id returns its entity and changes nothing; on a miss it is what `CreateEntity` gives, cached exactly when it succeeds, and then what `Builds` describes; existing entries never change, new ones lie at or below the id, and the cache stays valid |
| Mapping.AttributeMapping.GetEntityTwice | Source/LinqToVfp/Mapping/VfpAttributeMapping.cs:40-58 | once an id is built, asking for it again returns the same entity, whatever element and entity types the second request passes |
| Mapping.AttributeMapping.BuildsRetained | Source/LinqToVfp/Mapping/VfpAttributeMapping.cs:40-58 | what a build produced stays described by `Builds` as the cache grows |
| Mapping.AttributeMapping.BuildsWellFormed | Source/LinqToVfp/Mapping/VfpAttributeMapping.cs:446-459 | what `Builds` describes is well formed and shares its nested entities with the cache |
| Mapping.AttributeMapping.BuiltColumn | Source/LinqToVfp/Mapping/VfpAttributeMapping.cs:205-221 | a column member of a built entity carries a column annotation declared on the root member under the entity's path, it is the member that annotation's name resolves to on the working type, and its column name (else the base name), database type, alias and primary-key, computed and generated flags are that annotation's |
| Mapping.AttributeMapping.BuiltTable | Source/LinqToVfp/Mapping/VfpAttributeMapping.cs:317-342 | each table of a built entity is a table annotation declared on the root member, and its alias, extension flag, related alias and name (else the entity's id) are that annotation's |
| Mapping.AttributeMapping.CreateEntity | Source/LinqToVfp/Mapping/VfpAttributeMapping.cs:83-144 | equals `CreateSpec`: the root member (`RootAttributes`, lines 60-63) not found fails with that error; else the annotation loop's failure is the result's; else the entity record `MakeEntity` builds from the ordered tables, the working entity type and the loop's members, which `Builds` describes; new cache entries lie below the id, which itself stays out |
| Mapping.AttributeMapping.BuildMembers | Source/LinqToVfp/Mapping/VfpAttributeMapping.cs:105-141 | equals `LoopSpec`: the passes over the annotations in order, stopping with the first pass's error; on success one member realises each step of the plan of the annotations |
| Mapping.AttributeMapping.LoopSpecFollowsPlan | Source/LinqToVfp/Mapping/VfpAttributeMapping.cs:105-141 | the loop fails whenever the plan of the annotations fails, so no duplicate and no path too short goes unreported, and on success it added one member per remaining step |
| Mapping.AttributeMapping.PlanFailureStopsLoop | Source/LinqToVfp/Mapping/VfpAttributeMapping.cs:105-141 | over all annotations under the path, a failing plan makes the loop fail |
| Mapping.AttributeMapping.ScanSpecFailsWithPlan | Source/LinqToVfp/Mapping/VfpAttributeMapping.cs:108-134 | where the plan's step fails, the pass fails with the same error (`PathTooShort` for line 110, `DuplicateMapping` for line 134) and leaves the cache untouched |
| Mapping.AttributeMapping.ScanAnnotation | Source/LinqToVfp/Mapping/VfpAttributeMapping.cs:106-140 | equals `ScanSpec`: an empty member path is skipped, a path not longer than the nesting path fails with `PathTooShort`, an annotation below a nested member goes to `ScanNested`, one directly on a member to `ScanPlain`; on success it takes the plan's step |
| Mapping.AttributeMapping.ScanSpecFollowsAdvance | Source/LinqToVfp/Mapping/VfpAttributeMapping.cs:106-140 | a pass that succeeds took the plan's step: the same nested segments afterwards and one member per step added |
| Mapping.AttributeMapping.ScanNested | Source/LinqToVfp/Mapping/VfpAttributeMapping.cs:116-130 | equals `ScanSpec` for an annotation below a nested member: a segment already seen is skipped with nothing changed, else `BuildNested`'s failure is the pass's, and its member is appended with the segment recorded |
| Mapping.AttributeMapping.NestedPassFollows | Source/LinqToVfp/Mapping/VfpAttributeMapping.cs:116-130 | the pass below a nested member follows the plan's step |
| Mapping.AttributeMapping.ScanPlain | Source/LinqToVfp/Mapping/VfpAttributeMapping.cs:131-140 | equals `PlainStep`: a name already among the nested segments fails with `DuplicateMapping` naming it and the working type; else the name's member not found fails with that error; else the mapping member of the resolved member and the annotation is appended, as the planned step says |
| Mapping.AttributeMapping.BuildNested | Source/LinqToVfp/Mapping/VfpAttributeMapping.cs:116-130 | equals `NestedSpec`: the segment not found on the working type fails with that error; else the nested entity is `GetEntity` of `tableId + "." + segment` with the member's own type as element and entity type (line 129), and that entity's failure is the result's |
| Mapping.AttributeMapping.NestedOutcome | Source/LinqToVfp/Mapping/VfpAttributeMapping.cs:116-130 | the nested entity got for the segment makes the member `NestedSpec` describes, the entity is the cache's entry under the child id, and only ids below the parent were added |
| Mapping.AttributeMapping.CacheBuilt | Source/LinqToVfp/Mapping/VfpAttributeMapping.cs:47-48 | caching an entity just built keeps the cache valid and the entity still described by `Builds` |
| Mapping.AttributeMapping.NestedBudget | Source/LinqToVfp/Mapping/VfpAttributeMapping.cs:128-129 | building a nested entity leaves strictly less room for further nesting |
| Mapping.AttributeMapping.GetEntityOfMember | Source/LinqToVfp/Mapping/VfpAttributeMapping.cs:31-34 | equals `GetSpec` for the member's name with the member's element type as both element and entity type: the cached entity, else what the build gives, success or failure, with the cache it leaves; a success is the cache's entry under the name |
| Mapping.AttributeMapping.GetEntityOfType | Source/LinqToVfp/Mapping/VfpAttributeMapping.cs:36-38 | equals `GetSpec` for the table id with the given type as both element and entity type: the cached entity, else what the build gives, success or failure, with the cache it leaves |
| Mapping.AttributeMapping.GetTableId | Source/LinqToVfp/Mapping/VfpAttributeMapping.cs:65-81 | the name of the first public field or property of the context whose element type is the entity type, else the type's own name |
| Mapping.AttributeMapping.GetRelatedEntity | Source/LinqToVfp/Mapping/VfpAttributeMapping.cs:255-270 | for an association member, exactly what `GetSpec` gives for `RelatedEntityID` (built as the member's element type or the annotation's `RelatedEntityType`): the entity, or the build's own error, with the cache it leaves; a nested member gives its nested entity without touching the cache; otherwise the base mapping answers |
| Mapping.AttributeMapping.AssociationRelatedKeyMembers | Source/LinqToVfp/Mapping/VfpAttributeMapping.cs:284-293 | for an association member, the cache `GetSpec` leaves for the related entity, and the build's own error when that entity cannot be built; else its related key members resolved on the related entity, reported against this entity's type, or that resolution's error; otherwise the base mapping answers |

## Left out

- Locking: the reader-writer lock and the double-checked lookup of
  `GetEntity` (lines 42-55) are concurrency. The cache is modelled as one
  sequential map.
- Reflection: the model takes it as input.
  - The types and their members are a finite map (`Metadata.Types`).
  - The mapping attributes of a member are a field of that member.
  - `TypeHelper.GetElementType` and `GetMemberType` are table lookups.
  - `IsAssignableFrom(IEnumerable)` is a flag of the type.
  - A type's `Name` is its identifier.
- Binding flags: the member lookup of `FindMember` includes non-public
  members, and `GetTableId` asks for public instance members. Static members
  are not modelled.
- Case-insensitive matching and ordering follow ordinal rules, not culture
  rules:
  - `IgnoreCase` and `string.Compare(.., true)` use ASCII case folding.
  - `OrderBy` and `StartsWith` use the ordinal order and the ordinal prefix
    test.
- Ordering.SortBy: stability is not proved, so annotations with equal keys
  may come out in either order.
  - For member annotations this is harmless. A pass reads an annotation's
    member path, and keeps the annotation itself only on a plain member. Two
    plain annotations on the same path fail at `ToDictionary` in either order.
  - For table annotations with the same name it is not harmless. The order
    of `Tables` differs.
  - When two `Table` annotations share a name but differ in `EntityType`,
    `FirstTableAttribute` picks a different working type. The members are
    then resolved on another type, which changes which `MemberNotFound` is
    raised and which nested entities are cached before `MakeEntity` fails
    with `MultipleTables`.
- Null values:
  - a null string is the empty string;
  - a null `EntityType` or `RelatedEntityType` is `None`;
  - a null context type is a type with no members;
  - a null table id cannot be passed. `Dictionary.TryGetValue` throws on
    null at line 43, before `CreateEntity` could replace it (lines 84-86).
- Null strings that the source dereferences throw there, while the model
  returns a value:
  - a null `Member` throws at `ma.Member.StartsWith(path)` (line 102),
    before the empty check at line 106. The model skips the annotation as
    empty.
  - a null `KeyColumns` (line 350), `RelatedKeyColumns` (line 360),
    `KeyMembers` or `RelatedKeyMembers` (line 296) throws at `Split`. The
    model splits the empty string into one empty piece, so
    `ExtensionKeyColumnNames` returns `[""]`.
  - a null `RelatedEntityID` reaches `entities.TryGetValue(null)` (line 43)
    through `GetRelatedEntity` and `GetReferencedEntity` (lines 262 and
    309) and throws. The model looks up the empty id and fails with
    `MemberNotFound` for the empty name on the context type.
- GetReferencedEntity: the null check (lines 310-312) is not modelled.
  `GetEntity` never returns null, so that branch is dead.
- Laziness: the `Select` calls at lines 296 and 360 are lazy. An unmapped
  key member, or a column search, runs only when the caller enumerates the
  result. The model evaluates eagerly, so `ReferencedMembers` reports the
  error at once.
- Exceptions are values of `MappingError`:
  - They keep the names and types the messages print, not the message text.
  - The casts to `AttributeMappingEntity` and `AttributeMappingTable` cannot
    fail in the model, since it builds no other kind of entity or table.
- Base-class fallbacks of the IQToolkit mapping are not visible:
  - `base.GetColumnName` is a function parameter.
  - `base.GetRelatedEntity`, `base.GetAssociationKeyMembers` and
    `base.GetAssociationRelatedKeyMembers` are the `Inherited` answer.
- Mapping.AttributeMapping.AssociationRelatedKeyMembers: the base
  `GetRelatedEntity` that the source calls first for a non-association member
  is not modelled, nor any effect or failure it has.
- Identity: entities are values, so reference identity is not modelled. The
  cache invariant instead states that a nested entity equals the cache entry
  under its table id.
- `Dictionary.Values` (`MappedMembers`, lines 494-496) is taken to
  enumerate in insertion order, as it does when nothing is removed.
- `CreateMapper` and `VfpAttributeMapper` (lines 379-390) only hand the
  mapping to the query translator.
- Source/LinqToVfp/Mapping/VfpBasicMapper.cs has no behaviour: its only body
  is commented out.
- Source/LinqToVfp/ExpressionRewriters/TakeRewriter.cs is an expression-tree
  visitor over the query translator, which is not part of this model.

## Findings

| source | as written | input that shows it | evidently intended | confidence | as-written member | corrected member |
|---|---|---|---|---|---|---|
| Source/LinqToVfp/Mapping/VfpAttributeMapping.cs:163-167 | `GetTableName(entity)` passes the entity's first table, null when there is none, to `GetTableName(table)`, which casts and dereferences it | an entity whose root context member carries column annotations but no `Table` attribute | fall back to the table id, as the two-argument `GetTableName` (lines 169-174) and `TableName` (lines 465-474) do | medium, not executed | Facade.EntityTableNameWithoutTable | Facade.EntityTableNameIntendedAgrees |
