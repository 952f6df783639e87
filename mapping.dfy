/** `VfpAttributeMapping`: the mapping object of a context type. It builds
    mapping entities from the attributes on the context's members and keeps
    every entity it builds in a cache keyed by table id, so that each table
    id is built at most once. */
module Mapping {
  import opened Outcomes
  import opened Text
  import opened Metadata
  import opened Reflection
  import opened Entities
  import opened Planning
  import opened Facade

  /** `k` begins with `id` followed by a dot. */
  predicate DottedPrefix(id: string, k: string)
    decreases |id|
  {
    if id == [] then k != [] && k[0] == '.'
    else k != [] && k[0] == id[0] && DottedPrefix(id[1..], k[1..])
  }

  /** `k` names an entity nested somewhere below the entity `id`. */
  predicate ExtendsId(k: string, id: string) {
    |k| > |id| && DottedPrefix(id, k)
  }

  /** The id of a nested entity lies below its parent's. */
  lemma {:induction false} ChildExtendsId(id: string, seg: string)
    ensures ExtendsId(id + "." + seg, id)
    decreases |id|
  {
    if id != [] {
      assert (id + "." + seg)[1..] == id[1..] + "." + seg;
      ChildExtendsId(id[1..], seg);
    }
  }

  lemma {:induction false} DottedPrefixTransitive(k: string, child: string, id: string)
    requires DottedPrefix(id, child) && DottedPrefix(child, k)
    ensures DottedPrefix(id, k)
    decreases |id|
  {
    if id != [] {
      DottedPrefixTransitive(k[1..], child[1..], id[1..]);
    }
  }

  lemma ExtendsIdTransitive(k: string, child: string, id: string)
    requires ExtendsId(child, id) && (k == child || ExtendsId(k, child))
    ensures ExtendsId(k, id)
  {
    if k != child {
      DottedPrefixTransitive(k, child, id);
    }
  }

  /** The cache only grows: every entry of `before` is in `after`, unchanged. */
  predicate Retains(before: map<string, Entity>, after: map<string, Entity>) {
    forall k :: k in before ==> k in after && after[k] == before[k]
  }

  /** The new keys of `after` are `id` itself or lie below it. */
  predicate AddedUnder(before: map<string, Entity>, after: map<string, Entity>, id: string) {
    forall k :: k in after && k !in before ==> k == id || ExtendsId(k, id)
  }

  /** Every nested member's entity is the cache entry under its table id. */
  predicate Coherent(e: Entity, cache: map<string, Entity>) {
    forall i :: 0 <= i < |e.members| && e.members[i].nested.Some? ==>
      && e.members[i].nested.value.tableId in cache
      && cache[e.members[i].nested.value.tableId] == e.members[i].nested.value
  }

  /** Each entry is stored under its own table id, is well formed, and shares
      its nested entities with the cache. */
  predicate CacheValid(cache: map<string, Entity>) {
    forall k :: k in cache ==> cache[k].tableId == k && WellFormed(cache[k]) && Coherent(cache[k], cache)
  }

  /** How the builder turns one planned step into a mapping member of the
      entity `tableId`, whose members are looked up on type `onType`: a plain
      step keeps its annotation on the member its name resolves to; a nested
      step holds the cached entity `tableId + "." + segment`. */
  predicate Realises(mm: MappingMember, step: Step, types: Types, onType: TypeId, tableId: string,
                     cache: map<string, Entity>) {
    match step
    case Plain(a, name) =>
      mm.attribute == Some(a) && mm.nested.None? && Resolve(types, onType, name) == Ok(mm.member)
    case Nested(seg) =>
      && mm.attribute.None? && Resolve(types, onType, seg) == Ok(mm.member)
      && tableId + "." + seg in cache && mm.nested == Some(cache[tableId + "." + seg])
  }

  lemma RealisesRetained(built: seq<MappingMember>, steps: seq<Step>, types: Types, onType: TypeId,
                         tableId: string, before: map<string, Entity>, after: map<string, Entity>)
    requires |built| == |steps| && Retains(before, after)
    requires forall k :: 0 <= k < |built| ==> Realises(built[k], steps[k], types, onType, tableId, before)
    ensures forall k :: 0 <= k < |built| ==> Realises(built[k], steps[k], types, onType, tableId, after)
  {
    forall k | 0 <= k < |built|
      ensures Realises(built[k], steps[k], types, onType, tableId, after)
    {
      if steps[k].Nested? {
        assert tableId + "." + steps[k].segment in before;
      }
    }
  }

  lemma RealisesAppend(built: seq<MappingMember>, steps: seq<Step>, mm: MappingMember, step: Step,
                       types: Types, onType: TypeId, tableId: string, cache: map<string, Entity>)
    requires |built| == |steps|
    requires forall k :: 0 <= k < |built| ==> Realises(built[k], steps[k], types, onType, tableId, cache)
    requires Realises(mm, step, types, onType, tableId, cache)
    ensures forall k :: 0 <= k < |built| + 1 ==>
              Realises((built + [mm])[k], (steps + [step])[k], types, onType, tableId, cache)
  {
  }

  /** Adding a new key keeps every entry. */
  lemma InsertRetains(cache: map<string, Entity>, id: string, e: Entity)
    requires id !in cache
    ensures Retains(cache, cache[id := e])
  {
  }

  /** Caching a well-formed entity under its own id keeps the cache valid. */
  lemma InsertKeepsCacheValid(cache: map<string, Entity>, id: string, e: Entity)
    requires CacheValid(cache) && id !in cache
    requires e.tableId == id && WellFormed(e) && Coherent(e, cache)
    ensures CacheValid(cache[id := e])
  {
    var after := cache[id := e];
    forall k | k in after
      ensures Coherent(after[k], after)
    {
      assert Coherent(after[k], cache);
    }
  }

  /** The first public instance field or property of the context whose
      element type is `entityType`. */
  predicate TableIdCandidate(types: Types, m: MemberInfo, entityType: TypeId) {
    m.isPublic && (m.kind == Field || m.kind == Property) && ElementType(types, m.memberType) == entityType
  }

  function FirstCandidate(types: Types, ms: seq<MemberInfo>, entityType: TypeId): (r: Option<nat>)
    ensures r.Some? ==> r.value < |ms| && TableIdCandidate(types, ms[r.value], entityType)
                        && forall j :: 0 <= j < r.value ==> !TableIdCandidate(types, ms[j], entityType)
    ensures r.None? <==> forall j :: 0 <= j < |ms| ==> !TableIdCandidate(types, ms[j], entityType)
  {
    if ms == [] then None
    else if TableIdCandidate(types, ms[0], entityType) then Some(0)
    else match FirstCandidate(types, ms[1..], entityType)
      case None => None
      case Some(k) => Some(k + 1)
  }

  /** The type an association's related entity is mapped as: the
      annotation's `RelatedEntityType` when given, else the element type. */
  function RelatedEntityType(a: MemberAnnotation, elementType: TypeId): TypeId
    requires a.Association?
  {
    if a.relatedEntityType.Some? then a.relatedEntityType.value else elementType
  }

  /** What a build step returns, with the cache it leaves behind. */
  datatype Built<T> = Built(result: Result<T>, cache: map<string, Entity>)

  /** A nested entity `g` got for member `m` becomes that member's mapping. */
  function WithNested(m: MemberInfo, g: Built<Entity>): Built<MappingMember> {
    if g.result.Err? then Built(Err(g.result.error), g.cache)
    else Built(Ok(MappingMember(m, None, Some(g.result.value))), g.cache)
  }

  /** A nested member's mapping `n` extends the pass's state with segment `seg`. */
  function AddNested(seen: set<string>, members: seq<MappingMember>, seg: string,
                     n: Built<MappingMember>): Built<(set<string>, seq<MappingMember>)> {
    if n.result.Err? then Built(Err(n.result.error), n.cache)
    else Built(Ok((seen + {seg}, members + [n.result.value])), n.cache)
  }

  /** Adding a nested member for a segment not seen yet follows the plan's step. */
  lemma AddNestedFollows(st: PlanState, a: MemberAnnotation, path: string, onType: TypeId,
                         members: seq<MappingMember>, n: Built<MappingMember>)
    requires Dotted(a, path) && SegmentOf(a, path) !in st.seen
    ensures PassFollows(AddNested(st.seen, members, SegmentOf(a, path), n).result, Advance(st, a, path, onType), st, members)
  {
  }

  /** A freshly built entity is cached under its id; a failure caches nothing. */
  function Cached(tableId: string, c: Built<Entity>): Built<Entity> {
    if c.result.Ok? then Built(c.result, c.cache[tableId := c.result.value]) else c
  }

  /** A pass's outcome `sc` agrees with the plan's step `adv` from `st`:
      when the pass succeeds, so did the step, with the same nested segments
      afterwards, and the pass added one member per step the plan added. */
  predicate PassFollows(sc: Result<(set<string>, seq<MappingMember>)>, adv: Result<PlanState>, st: PlanState,
                        members: seq<MappingMember>) {
    sc.Ok? ==> adv.Ok? && sc.value.0 == adv.value.seen && |sc.value.1| - |members| == |adv.value.steps| - |st.steps|
  }

  class AttributeMapping {
    /** What reflection knows about the program's types. */
    const types: Types
    const contextType: TypeId
    /** The cache of built entities, by table id. */
    var entities: map<string, Entity>

    ghost predicate Valid()
      reads this
    {
      TypesWellFormed(types) && CacheValid(entities)
    }

    constructor(types: Types, contextType: TypeId)
      requires TypesWellFormed(types)
      ensures Valid()
      ensures this.types == types && this.contextType == contextType && entities == map[]
    {
      this.types := types;
      this.contextType := contextType;
      entities := map[];
    }

    /** `GetMappingAttributes(rootEntityId)`: the mapping attributes on the
        context member the root id names. */
    function RootAttributes(rootId: string): Result<seq<MappingAttribute>> {
      match Resolve(types, contextType, rootId)
      case Ok(m) => Ok(m.attributes)
      case Err(e) => Err(e)
    }

    /** The longest member path annotated anywhere on the context type. */
    function MaxPath(): nat {
      ContextMaxLength(MembersOf(types, contextType))
    }

    /** How much longer the nesting path of `tableId` can grow. */
    function Budget(tableId: string): nat {
      var path := SplitTableId(tableId).1;
      if MaxPath() >= |path| then MaxPath() - |path| else 0
    }

    /** `tableId` names an entity that can be built, and `path` is its
        nesting path. */
    predicate Building(tableId: string, path: string) {
      tableId != "" && IndexOf(tableId, '.') != 0 && path == SplitTableId(tableId).1
    }

    /** Annotation `a` lies under `path` within the depth bound. */
    predicate Within(a: MemberAnnotation, path: string) {
      |a.member| <= MaxPath() && StartsWith(a.member, path)
    }

    /** A root id that resolves is a plain member name of the context, so the
        table id is not empty and does not start with a dot. */
    lemma ResolvableRoot(tableId: string)
      requires TypesWellFormed(types) && Resolve(types, contextType, SplitTableId(tableId).0).Ok?
      ensures Building(tableId, SplitTableId(tableId).1)
      ensures Resolve(types, contextType, SplitTableId(tableId).0).value in MembersOf(types, contextType)
    {
      var root := SplitTableId(tableId).0;
      ResolvableHead(types, contextType, root);
      if IndexOf(tableId, '.') <= 0 {
        assert root == tableId;
      }
      ResolveSingle(types, contextType, root);
    }

    /** No annotation on a context member is longer than `MaxPath()`. */
    lemma AnnotationsWithinMaxPath(m: MemberInfo, path: string)
      requires m in MembersOf(types, contextType)
      ensures forall x :: x in MemberAnnotationsUnder(m.attributes, path) ==> |x.member| <= MaxPath()
    {
      forall x | x in MemberAnnotationsUnder(m.attributes, path)
        ensures |x.member| <= MaxPath()
      {
        ContextMaxLengthBounds(MembersOf(types, contextType), m, x);
      }
    }

    /** The entity `CreateEntity` built for `tableId` from `elementType` and
        `entityType`: its root's attributes, its (single) table, its working
        entity type, and one member per step of the plan of the annotations
        under its path. */
    ghost predicate Builds(e: Entity, elementType: TypeId, tableId: string, entityType: TypeId,
                           cache: map<string, Entity>)
    {
      var (root, path) := SplitTableId(tableId);
      && RootAttributes(root).Ok?
      && var attrs := RootAttributes(root).value;
      && e.tables == OrderedTables(attrs)
      && e.elementType == elementType && e.tableId == tableId
      && TableShaped(e) && NamesDistinct(e.members)
      && e.entityType == WorkingEntityType(e.tables, elementType, entityType)
      && var plan := PlanOf(MemberAnnotationsUnder(attrs, path), path, e.entityType);
      && plan.Ok?
      && |e.members| == |plan.value.steps|
      && forall k :: 0 <= k < |e.members| ==>
           Realises(e.members[k], plan.value.steps[k], types, e.entityType, tableId, cache)
    }

    /** `GetEntity` as a function of the cache it starts from: the cached
        entity, else what `CreateEntity` builds, cached when it succeeds. */
    ghost function GetSpec(elementType: TypeId, tableId: string, entityType: TypeId,
                           cache: map<string, Entity>): Built<Entity>
      requires TypesWellFormed(types)
      decreases Budget(tableId), 4
    {
      if tableId in cache then Built(Ok(cache[tableId]), cache)
      else
        Cached(tableId, CreateSpec(elementType, tableId, entityType, cache))
    }

    /** Every annotation of `annotations` lies under `path` within the depth bound. */
    predicate AnnotationsWithin(annotations: seq<MemberAnnotation>, path: string) {
      forall x :: x in annotations ==> Within(x, path)
    }

    /** `GetSpec` answers from the cache on a hit and caches what
        `CreateSpec` builds on a miss. */
    lemma GetSpecOfCache(elementType: TypeId, tableId: string, entityType: TypeId, cache: map<string, Entity>)
      requires TypesWellFormed(types)
      ensures tableId in cache ==> GetSpec(elementType, tableId, entityType, cache) == Built(Ok(cache[tableId]), cache)
      ensures tableId !in cache ==>
                GetSpec(elementType, tableId, entityType, cache) == Cached(tableId, CreateSpec(elementType, tableId, entityType, cache))
    {
    }

    /** `CreateEntity` as a function of the cache: the root member's lookup
        fails, or the annotation loop fails, or the entity record is built
        from the loop's members. */
    ghost function CreateSpec(elementType: TypeId, tableId: string, entityType: TypeId,
                              cache: map<string, Entity>): Built<Entity>
      requires TypesWellFormed(types)
      decreases Budget(tableId), 3
    {
      var (root, path) := SplitTableId(tableId);
      var found := Resolve(types, contextType, root);
      if found.Err? then Built(Err(found.error), cache)
      else
        var rootMember := found.value;
        ResolvableRoot(tableId);
        AnnotationsWithinMaxPath(rootMember, path);
        var tables := OrderedTables(rootMember.attributes);
        var onType := WorkingEntityType(tables, elementType, entityType);
        var annotations := MemberAnnotationsUnder(rootMember.attributes, path);
        var b := LoopSpec(tableId, path, onType, annotations, 0, {}, [], cache);
        if b.result.Err? then Built(Err(b.result.error), b.cache)
        else Built(MakeEntity(elementType, tableId, onType, tables, b.result.value), b.cache)
    }

    /** The annotation loop from the `i`-th annotation on, given the nested
        segments `seen` and the members built so far: it stops at the first
        pass that fails. */
    ghost function LoopSpec(tableId: string, path: string, onType: TypeId, annotations: seq<MemberAnnotation>,
                            i: nat, seen: set<string>, members: seq<MappingMember>,
                            cache: map<string, Entity>): Built<seq<MappingMember>>
      requires TypesWellFormed(types) && i <= |annotations|
      requires Building(tableId, path)
      requires AnnotationsWithin(annotations, path)
      decreases Budget(tableId), 2, |annotations| - i
    {
      if i == |annotations| then Built(Ok(members), cache)
      else
        var p := ScanSpec(tableId, path, onType, annotations[i], seen, members, cache);
        if p.result.Err? then Built(Err(p.result.error), p.cache)
        else
          LoopSpec(tableId, path, onType, annotations, i + 1, p.result.value.0, p.result.value.1, p.cache)
    }

    /** `CreateSpec` once the root member is found: the loop over the root's
        annotations under the path, then the entity record. */
    lemma CreateSpecOfRoot(elementType: TypeId, tableId: string, entityType: TypeId,
                           cache: map<string, Entity>, rootMember: MemberInfo)
      requires TypesWellFormed(types) && Resolve(types, contextType, SplitTableId(tableId).0) == Ok(rootMember)
      ensures Building(tableId, SplitTableId(tableId).1)
      ensures AnnotationsWithin(MemberAnnotationsUnder(rootMember.attributes, SplitTableId(tableId).1), SplitTableId(tableId).1)
      ensures var path := SplitTableId(tableId).1;
              var tables := OrderedTables(rootMember.attributes);
              var onType := WorkingEntityType(tables, elementType, entityType);
              var b := LoopSpec(tableId, path, onType, MemberAnnotationsUnder(rootMember.attributes, path), 0, {}, [], cache);
              CreateSpec(elementType, tableId, entityType, cache)
                == if b.result.Err? then Built(Err(b.result.error), b.cache)
                   else Built(MakeEntity(elementType, tableId, onType, tables, b.result.value), b.cache)
    {
      ResolvableRoot(tableId);
      AnnotationsWithinMaxPath(rootMember, SplitTableId(tableId).1);
    }

    /** One pass of the loop on annotation `a`. */
    ghost function ScanSpec(tableId: string, path: string, onType: TypeId, a: MemberAnnotation,
                            seen: set<string>, members: seq<MappingMember>,
                            cache: map<string, Entity>): Built<(set<string>, seq<MappingMember>)>
      requires TypesWellFormed(types)
      requires Building(tableId, path) && Within(a, path)
      decreases Budget(tableId), 1
    {
      if a.member == "" then Built(Ok((seen, members)), cache)
      else if !HasRelativeName(a.member, path) then Built(Err(PathTooShort(a.member, path)), cache)
      else if '.' in RelativeName(a.member, path) then
        var seg := SegmentOf(a, path);
        if seg in seen then Built(Ok((seen, members)), cache)
        else
          AddNested(seen, members, seg, NestedSpec(tableId, path, onType, a, cache))
      else Built(PlainStep(path, onType, a, seen, members), cache)
    }

    /** The pass on an annotation directly on a member: a name already taken
        by a nested segment is a duplicate; otherwise the name is resolved on
        the working type and mapped with the annotation. */
    function PlainStep(path: string, onType: TypeId, a: MemberAnnotation, seen: set<string>,
                       members: seq<MappingMember>): Result<(set<string>, seq<MappingMember>)>
      requires Undotted(a, path)
    {
      var name := RelativeName(a.member, path);
      var found := Resolve(types, onType, name);
      if name in seen then Err(DuplicateMapping(name, onType))
      else if found.Err? then Err(found.error)
      else Ok((seen, members + [MappingMember(found.value, Some(a), None)]))
    }

    /** The pass on the first annotation below a nested member: the leading
        segment is resolved on the working type, and the nested entity is
        got for the member's own type under `tableId + "." + segment`. */
    ghost function NestedSpec(tableId: string, path: string, onType: TypeId, a: MemberAnnotation,
                              cache: map<string, Entity>): Built<MappingMember>
      requires TypesWellFormed(types)
      requires Building(tableId, path) && Within(a, path) && Dotted(a, path)
      decreases Budget(tableId), 0
    {
      var seg := SegmentOf(a, path);
      var found := Resolve(types, onType, seg);
      if found.Err? then Built(Err(found.error), cache)
      else
        ResolvableHead(types, onType, seg);
        NestedBudget(tableId, path, a);
        WithNested(found.value, GetSpec(found.value.memberType, tableId + "." + seg, found.value.memberType, cache))
    }

    /** `NestedSpec` once the leading segment resolves to `m`: the nested
        entity is got for `m`'s type under the segment's table id. */
    lemma NestedSpecOfMember(tableId: string, path: string, onType: TypeId, a: MemberAnnotation,
                             cache: map<string, Entity>, m: MemberInfo)
      requires TypesWellFormed(types)
      requires Building(tableId, path) && Within(a, path) && Dotted(a, path)
      requires Resolve(types, onType, SegmentOf(a, path)) == Ok(m)
      ensures SegmentOf(a, path) != ""
      ensures Budget(tableId + "." + SegmentOf(a, path)) < Budget(tableId)
      ensures NestedSpec(tableId, path, onType, a, cache)
              == WithNested(m, GetSpec(m.memberType, tableId + "." + SegmentOf(a, path), m.memberType, cache))
    {
      ResolvableHead(types, onType, SegmentOf(a, path));
      NestedBudget(tableId, path, a);
    }

    /** `NestedSpec` when the leading segment does not resolve. */
    lemma NestedSpecNotFound(tableId: string, path: string, onType: TypeId, a: MemberAnnotation, cache: map<string, Entity>)
      requires TypesWellFormed(types)
      requires Building(tableId, path) && Within(a, path) && Dotted(a, path)
      requires Resolve(types, onType, SegmentOf(a, path)).Err?
      ensures NestedSpec(tableId, path, onType, a, cache)
              == Built(Err(Resolve(types, onType, SegmentOf(a, path)).error), cache)
    {
    }

    /** What the nested entity's outcome `nested`, got with the cache going
        from `before` to `after`, makes of the pass on `a`: only ids below
        `tableId` were added, and the member's mapping is `NestedSpec`'s. */
    lemma NestedOutcome(tableId: string, path: string, onType: TypeId, a: MemberAnnotation, m: MemberInfo,
                        nested: Result<Entity>, before: map<string, Entity>, after: map<string, Entity>)
      requires TypesWellFormed(types) && tableId !in before
      requires Building(tableId, path) && Within(a, path) && Dotted(a, path)
      requires Resolve(types, onType, SegmentOf(a, path)) == Ok(m)
      requires var child := tableId + "." + SegmentOf(a, path);
               && Retains(before, after) && AddedUnder(before, after, child)
               && (nested.Ok? ==> child in after && after[child] == nested.value)
               && NestedSpec(tableId, path, onType, a, before) == WithNested(m, Built(nested, after))
      ensures tableId !in after
      ensures forall k :: k in after && k !in before ==> ExtendsId(k, tableId)
      ensures nested.Ok? ==> Realises(MappingMember(m, None, Some(nested.value)),
                                      Nested(SegmentOf(a, path)), types, onType, tableId, after)
      ensures nested.Err? ==> NestedSpec(tableId, path, onType, a, before) == Built(Err(nested.error), after)
      ensures nested.Ok? ==>
                NestedSpec(tableId, path, onType, a, before) == Built(Ok(MappingMember(m, None, Some(nested.value))), after)
    {
      var child := tableId + "." + SegmentOf(a, path);
      ChildExtendsId(tableId, SegmentOf(a, path));
      NewKeysBelow(before, after, tableId, child);
    }

    /** A pass that succeeds took the plan's step: the same nested segments
        afterwards, and one member per step it added. */
    lemma ScanSpecFollowsAdvance(tableId: string, path: string, onType: TypeId, a: MemberAnnotation,
                                 st: PlanState, members: seq<MappingMember>, cache: map<string, Entity>)
      requires TypesWellFormed(types)
      requires Building(tableId, path) && Within(a, path)
      ensures PassFollows(ScanSpec(tableId, path, onType, a, st.seen, members, cache).result,
                          Advance(st, a, path, onType), st, members)
    {
      if Dotted(a, path) {
        NestedPassFollows(tableId, path, onType, a, st, members, cache);
      } else if Undotted(a, path) {
        ScanSpecOfUndotted(tableId, path, onType, a, st.seen, members, cache);
        PlainStepFollows(st, a, path, onType, members);
      }
    }

    /** `ScanSpec` on the annotations a pass skips or rejects without a lookup. */
    lemma ScanSpecWithoutLookup(tableId: string, path: string, onType: TypeId, a: MemberAnnotation,
                                seen: set<string>, members: seq<MappingMember>, cache: map<string, Entity>)
      requires TypesWellFormed(types)
      requires Building(tableId, path) && Within(a, path)
      ensures a.member == "" ==> ScanSpec(tableId, path, onType, a, seen, members, cache) == Built(Ok((seen, members)), cache)
      ensures a.member != "" && !HasRelativeName(a.member, path) ==>
                ScanSpec(tableId, path, onType, a, seen, members, cache) == Built(Err(PathTooShort(a.member, path)), cache)
      ensures Dotted(a, path) && SegmentOf(a, path) in seen ==>
                ScanSpec(tableId, path, onType, a, seen, members, cache) == Built(Ok((seen, members)), cache)
    {
    }

    /** `ScanSpec` on an annotation directly on a member. */
    lemma ScanSpecOfUndotted(tableId: string, path: string, onType: TypeId, a: MemberAnnotation,
                             seen: set<string>, members: seq<MappingMember>, cache: map<string, Entity>)
      requires TypesWellFormed(types)
      requires Building(tableId, path) && Within(a, path) && Undotted(a, path)
      ensures ScanSpec(tableId, path, onType, a, seen, members, cache) == Built(PlainStep(path, onType, a, seen, members), cache)
    {
    }

    /** The pass on an annotation directly on a member follows the plan's step. */
    lemma PlainStepFollows(st: PlanState, a: MemberAnnotation, path: string, onType: TypeId, members: seq<MappingMember>)
      requires Undotted(a, path)
      ensures PassFollows(PlainStep(path, onType, a, st.seen, members), Advance(st, a, path, onType), st, members)
    {
    }

    /** ... for the first annotation below a nested member. */
    lemma NestedPassFollows(tableId: string, path: string, onType: TypeId, a: MemberAnnotation,
                            st: PlanState, members: seq<MappingMember>, cache: map<string, Entity>)
      requires TypesWellFormed(types)
      requires Building(tableId, path) && Within(a, path) && Dotted(a, path)
      ensures PassFollows(ScanSpec(tableId, path, onType, a, st.seen, members, cache).result,
                          Advance(st, a, path, onType), st, members)
    {
      if SegmentOf(a, path) !in st.seen {
        ScanSpecOfDotted(tableId, path, onType, a, st.seen, members, cache);
        AddNestedFollows(st, a, path, onType, members, NestedSpec(tableId, path, onType, a, cache));
      }
    }

    /** `ScanSpec` on the first annotation below a nested member not seen yet. */
    lemma ScanSpecOfDotted(tableId: string, path: string, onType: TypeId, a: MemberAnnotation,
                           seen: set<string>, members: seq<MappingMember>, cache: map<string, Entity>)
      requires TypesWellFormed(types)
      requires Building(tableId, path) && Within(a, path) && Dotted(a, path)
      requires SegmentOf(a, path) !in seen
      ensures ScanSpec(tableId, path, onType, a, seen, members, cache)
              == AddNested(seen, members, SegmentOf(a, path), NestedSpec(tableId, path, onType, a, cache))
    {
    }

    /** A pass fails where the plan's step fails (a path too short, a name
        taken by a nested segment), with the plan's error and the cache
        untouched. */
    lemma ScanSpecFailsWithPlan(tableId: string, path: string, onType: TypeId, a: MemberAnnotation,
                                st: PlanState, members: seq<MappingMember>, cache: map<string, Entity>)
      requires TypesWellFormed(types)
      requires Building(tableId, path) && Within(a, path)
      requires Advance(st, a, path, onType).Err?
      ensures ScanSpec(tableId, path, onType, a, st.seen, members, cache) == Built(Err(Advance(st, a, path, onType).error), cache)
    {
    }

    /** The loop from the `i`-th annotation on fails whenever the plan of the
        annotations fails, so no duplicate and no path too short goes
        unreported; when it succeeds it added one member per remaining step. */
    lemma {:induction false} LoopSpecFollowsPlan(tableId: string, path: string, onType: TypeId,
                                                 annotations: seq<MemberAnnotation>, i: nat, st: PlanState,
                                                 members: seq<MappingMember>, cache: map<string, Entity>)
      requires TypesWellFormed(types) && i <= |annotations|
      requires Building(tableId, path)
      requires AnnotationsWithin(annotations, path)
      requires PlanOf(annotations[..i], path, onType) == Ok(st)
      ensures var l := LoopSpec(tableId, path, onType, annotations, i, st.seen, members, cache).result;
              var plan := PlanOf(annotations, path, onType);
              && (plan.Err? ==> l.Err?)
              && (l.Ok? ==> plan.Ok? && |l.value| - |members| == |plan.value.steps| - |st.steps|)
      decreases |annotations| - i
    {
      if i == |annotations| {
        assert annotations[..i] == annotations;
      } else {
        PlanNext(annotations, i, path, onType, st);
        ScanSpecFollowsAdvance(tableId, path, onType, annotations[i], st, members, cache);
        if Advance(st, annotations[i], path, onType).Err? {
          ScanSpecFailsWithPlan(tableId, path, onType, annotations[i], st, members, cache);
        }
        var p := ScanSpec(tableId, path, onType, annotations[i], st.seen, members, cache);
        if Advance(st, annotations[i], path, onType).Err? {
          PlanErrorPersists(annotations, i + 1, path, onType);
        } else if p.result.Ok? {
          var st' := Advance(st, annotations[i], path, onType).value;
          LoopSpecFollowsPlan(tableId, path, onType, annotations, i + 1, st', p.result.value.1, p.cache);
        }
      }
    }

    /** The loop over all annotations under the path fails whenever their
        plan fails. */
    lemma PlanFailureStopsLoop(tableId: string, path: string, onType: TypeId,
                               annotations: seq<MemberAnnotation>, cache: map<string, Entity>)
      requires TypesWellFormed(types)
      requires Building(tableId, path)
      requires AnnotationsWithin(annotations, path)
      ensures PlanOf(annotations, path, onType).Err? ==>
                LoopSpec(tableId, path, onType, annotations, 0, {}, [], cache).result.Err?
    {
      assert annotations[..0] == [];
      LoopSpecFollowsPlan(tableId, path, onType, annotations, 0, PlanState({}, []), [], cache);
    }

    /** `GetEntity(elementType, tableId, entityType)`: the cached entity of
        `tableId`, else a freshly built one, which is then cached. */
    method GetEntity(elementType: TypeId, tableId: string, entityType: TypeId) returns (r: Result<Entity>)
      requires Valid()
      modifies this
      ensures Valid()
      ensures Retains(old(entities), entities) && AddedUnder(old(entities), entities, tableId)
      ensures tableId in old(entities) ==> r == Ok(old(entities)[tableId]) && entities == old(entities)
      ensures tableId !in old(entities) && r.Ok? ==> Builds(r.value, elementType, tableId, entityType, entities)
      ensures r.Ok? <==> tableId in entities
      ensures r.Ok? ==> entities[tableId] == r.value
      ensures Built(r, entities) == GetSpec(elementType, tableId, entityType, old(entities))
      decreases Budget(tableId), 5
    {
      GetSpecOfCache(elementType, tableId, entityType, entities);
      if tableId in entities {
        return Ok(entities[tableId]);
      }
      r := CreateEntity(elementType, tableId, entityType);
      if r.Ok? {
        CacheBuilt(r.value, elementType, tableId, entityType, entities);
        entities := entities[tableId := r.value];
      }
    }

    /** Caching an entity just built for `tableId` keeps the cache valid, and
        the entity is still what the cache with it builds. */
    lemma CacheBuilt(e: Entity, elementType: TypeId, tableId: string, entityType: TypeId, cache: map<string, Entity>)
      requires CacheValid(cache) && tableId !in cache && Builds(e, elementType, tableId, entityType, cache)
      ensures CacheValid(cache[tableId := e]) && Retains(cache, cache[tableId := e])
      ensures Builds(e, elementType, tableId, entityType, cache[tableId := e])
    {
      BuildsWellFormed(e, elementType, tableId, entityType, cache);
      InsertKeepsCacheValid(cache, tableId, e);
      InsertRetains(cache, tableId, e);
      BuildsRetained(e, elementType, tableId, entityType, cache, cache[tableId := e]);
    }

    lemma BuildsRetained(e: Entity, elementType: TypeId, tableId: string, entityType: TypeId,
                         before: map<string, Entity>, after: map<string, Entity>)
      requires Builds(e, elementType, tableId, entityType, before) && Retains(before, after)
      ensures Builds(e, elementType, tableId, entityType, after)
    {
      var (root, path) := SplitTableId(tableId);
      var attrs := RootAttributes(root).value;
      var plan := PlanOf(MemberAnnotationsUnder(attrs, path), path, e.entityType).value;
      RealisesRetained(e.members, plan.steps, types, e.entityType, tableId, before, after);
    }

    /** `CreateEntity`: scans the annotations under the id's nesting path in
        member-path order; an annotation directly on a member maps it, the
        first annotation below a nested member builds (or finds) that nested
        entity; then the entity record is built. */
    method CreateEntity(elementType: TypeId, tableId: string, entityType: TypeId) returns (r: Result<Entity>)
      requires Valid() && tableId !in entities
      modifies this
      ensures Valid() && tableId !in entities
      ensures Retains(old(entities), entities)
      ensures forall k :: k in entities && k !in old(entities) ==> ExtendsId(k, tableId)
      ensures r.Ok? ==> Builds(r.value, elementType, tableId, entityType, entities)
      ensures RootAttributes(SplitTableId(tableId).0).Err? ==> r == Err(RootAttributes(SplitTableId(tableId).0).error)
      ensures Built(r, entities) == CreateSpec(elementType, tableId, entityType, old(entities))
      decreases Budget(tableId), 4
    {
      var (root, path) := SplitTableId(tableId);
      var rootMember := FindMember(types, contextType, root);
      if rootMember.Err? {
        return Err(rootMember.error);
      }
      assert RootAttributes(root) == Ok(rootMember.value.attributes);
      CreateSpecOfRoot(elementType, tableId, entityType, entities, rootMember.value);
      ResolvableRoot(tableId);
      AnnotationsWithinMaxPath(rootMember.value, path);
      var attrs := rootMember.value.attributes;
      var tables := OrderedTables(attrs);
      var onType := WorkingEntityType(tables, elementType, entityType);
      var annotations := MemberAnnotationsUnder(attrs, path);

      var built: Result<seq<MappingMember>>;
      ghost var steps: seq<Step>;
      built, steps := BuildMembers(tableId, path, onType, annotations);
      if built.Err? {
        return Err(built.error);
      }
      r := MakeEntity(elementType, tableId, onType, tables, built.value);
      if r.Ok? {
        BuildsIntro(r.value, elementType, tableId, entityType, attrs, steps);
      }
    }

    /** The annotation loop of `CreateEntity` (lines 105-141): one mapping
        member per plan step, every nested member fetched from or added to the
        cache. */
    method BuildMembers(tableId: string, path: string, onType: TypeId, annotations: seq<MemberAnnotation>)
      returns (r: Result<seq<MappingMember>>, ghost steps: seq<Step>)
      requires Valid() && tableId !in entities
      requires Building(tableId, path)
      requires AnnotationsWithin(annotations, path)
      modifies this
      ensures Valid() && tableId !in entities
      ensures Retains(old(entities), entities)
      ensures forall k :: k in entities && k !in old(entities) ==> ExtendsId(k, tableId)
      ensures r.Ok? ==> PlanOf(annotations, path, onType).Ok? && PlanOf(annotations, path, onType).value.steps == steps
      ensures r.Ok? ==> |r.value| == |steps|
      ensures r.Ok? ==> forall k :: 0 <= k < |r.value| ==> Realises(r.value[k], steps[k], types, onType, tableId, entities)
      ensures Built(r, entities) == LoopSpec(tableId, path, onType, annotations, 0, {}, [], old(entities))
      decreases Budget(tableId), 3
    {
      var seen: set<string> := {};
      var members: seq<MappingMember> := [];
      steps := [];
      var i := 0;
      while i < |annotations|
        invariant 0 <= i <= |annotations|
        invariant Valid() && tableId !in entities
        invariant Retains(old(entities), entities)
        invariant forall k :: k in entities && k !in old(entities) ==> ExtendsId(k, tableId)
        invariant PlanOf(annotations[..i], path, onType) == Ok(PlanState(seen, steps))
        invariant |members| == |steps|
        invariant forall k :: 0 <= k < |members| ==> Realises(members[k], steps[k], types, onType, tableId, entities)
        invariant LoopSpec(tableId, path, onType, annotations, 0, {}, [], old(entities))
                  == LoopSpec(tableId, path, onType, annotations, i, seen, members, entities)
      {
        PlanNext(annotations, i, path, onType, PlanState(seen, steps));
        var next;
        next, steps := ScanAnnotation(tableId, path, onType, annotations[i], seen, members, steps);
        if next.Err? {
          r := Err(next.error);
          return;
        }
        seen, members := next.value.0, next.value.1;
        i := i + 1;
      }
      assert annotations[..|annotations|] == annotations;
      r := Ok(members);
    }

    /** One pass of that loop, on the annotation `a`, given the nested
        segments `seen` so far and the members built so far: an empty member
        path is skipped, a member path shorter than the nesting path fails,
        the first annotation below a nested member builds that member, and an
        annotation directly on a member maps it unless the name is taken. */
    method ScanAnnotation(tableId: string, path: string, onType: TypeId, a: MemberAnnotation,
                          seen: set<string>, members: seq<MappingMember>, ghost steps: seq<Step>)
      returns (r: Result<(set<string>, seq<MappingMember>)>, ghost nextSteps: seq<Step>)
      requires Valid() && tableId !in entities
      requires Building(tableId, path) && Within(a, path)
      requires |members| == |steps|
      requires forall k :: 0 <= k < |members| ==> Realises(members[k], steps[k], types, onType, tableId, entities)
      modifies this
      ensures Valid() && tableId !in entities
      ensures Retains(old(entities), entities)
      ensures forall k :: k in entities && k !in old(entities) ==> ExtendsId(k, tableId)
      ensures r.Ok? ==> Advance(PlanState(seen, steps), a, path, onType) == Ok(PlanState(r.value.0, nextSteps))
      ensures r.Ok? ==> |r.value.1| == |nextSteps|
      ensures r.Ok? ==> forall k :: 0 <= k < |r.value.1| ==> Realises(r.value.1[k], nextSteps[k], types, onType, tableId, entities)
      ensures Built(r, entities) == ScanSpec(tableId, path, onType, a, seen, members, old(entities))
      decreases Budget(tableId), 2
    {
      nextSteps := steps;
      ScanSpecWithoutLookup(tableId, path, onType, a, seen, members, entities);
      if a.member == "" {
        return Ok((seen, members)), steps;
      }
      if !HasRelativeName(a.member, path) {
        return Err(PathTooShort(a.member, path)), steps;
      }
      var name := RelativeName(a.member, path);
      if '.' in name {
        r, nextSteps := ScanNested(tableId, path, onType, a, seen, members, steps);
        return;
      }
      ScanSpecOfUndotted(tableId, path, onType, a, seen, members, entities);
      r, nextSteps := ScanPlain(tableId, path, onType, a, seen, members, steps);
    }

    /** The pass on an annotation below a nested member: only the first such
        annotation for a segment builds the nested member; later ones are
        skipped. */
    method ScanNested(tableId: string, path: string, onType: TypeId, a: MemberAnnotation,
                      seen: set<string>, members: seq<MappingMember>, ghost steps: seq<Step>)
      returns (r: Result<(set<string>, seq<MappingMember>)>, ghost nextSteps: seq<Step>)
      requires Valid() && tableId !in entities
      requires Building(tableId, path) && Within(a, path) && Dotted(a, path)
      requires |members| == |steps|
      requires forall k :: 0 <= k < |members| ==> Realises(members[k], steps[k], types, onType, tableId, entities)
      modifies this
      ensures Valid() && tableId !in entities
      ensures Retains(old(entities), entities)
      ensures forall k :: k in entities && k !in old(entities) ==> ExtendsId(k, tableId)
      ensures r.Ok? ==> Advance(PlanState(seen, steps), a, path, onType) == Ok(PlanState(r.value.0, nextSteps))
      ensures r.Ok? ==> |r.value.1| == |nextSteps|
      ensures r.Ok? ==> forall k :: 0 <= k < |r.value.1| ==> Realises(r.value.1[k], nextSteps[k], types, onType, tableId, entities)
      ensures Built(r, entities) == ScanSpec(tableId, path, onType, a, seen, members, old(entities))
      decreases Budget(tableId), 1
    {
      nextSteps := steps;
      var seg := LeadingSegment(RelativeName(a.member, path));
      if seg in seen {
        ScanSpecWithoutLookup(tableId, path, onType, a, seen, members, entities);
        return Ok((seen, members)), steps;
      }
      ScanSpecOfDotted(tableId, path, onType, a, seen, members, entities);
      var nested := BuildNested(tableId, path, onType, a);
      RealisesRetained(members, steps, types, onType, tableId, old(entities), entities);
      if nested.Err? {
        return Err(nested.error), steps;
      }
      RealisesAppend(members, steps, nested.value, Nested(seg), types, onType, tableId, entities);
      return Ok((seen + {seg}, members + [nested.value])), steps + [Nested(seg)];
    }

    /** The pass on an annotation directly on a member: the name must not be
        a nested segment already seen, and it is resolved on the working type. */
    method ScanPlain(tableId: string, path: string, onType: TypeId, a: MemberAnnotation,
                     seen: set<string>, members: seq<MappingMember>, ghost steps: seq<Step>)
      returns (r: Result<(set<string>, seq<MappingMember>)>, ghost nextSteps: seq<Step>)
      requires Undotted(a, path)
      requires |members| == |steps|
      requires forall k :: 0 <= k < |members| ==> Realises(members[k], steps[k], types, onType, tableId, entities)
      ensures r.Ok? ==> Advance(PlanState(seen, steps), a, path, onType) == Ok(PlanState(r.value.0, nextSteps))
      ensures r.Ok? ==> |r.value.1| == |nextSteps|
      ensures r.Ok? ==> forall k :: 0 <= k < |r.value.1| ==> Realises(r.value.1[k], nextSteps[k], types, onType, tableId, entities)
      ensures r == PlainStep(path, onType, a, seen, members)
    {
      nextSteps := steps;
      var name := RelativeName(a.member, path);
      if name in seen {
        return Err(DuplicateMapping(name, onType)), steps;
      }
      var member := FindMember(types, onType, name);
      if member.Err? {
        return Err(member.error), steps;
      }
      var mm := MappingMember(member.value, Some(a), None);
      RealisesAppend(members, steps, mm, Plain(a, name), types, onType, tableId, entities);
      return Ok((seen, members + [mm])), steps + [Plain(a, name)];
    }

    /** Lines 116-130 for the first annotation below a nested member: the
        member named by the leading segment is looked up on the entity type,
        and the nested entity `tableId + "." + segment` is fetched from the
        cache or built. */
    method BuildNested(tableId: string, path: string, onType: TypeId, a: MemberAnnotation)
      returns (r: Result<MappingMember>)
      requires Valid() && tableId !in entities
      requires Building(tableId, path) && Within(a, path) && Dotted(a, path)
      modifies this
      ensures Valid() && tableId !in entities
      ensures Retains(old(entities), entities)
      ensures forall k :: k in entities && k !in old(entities) ==> ExtendsId(k, tableId)
      ensures r.Ok? ==> Realises(r.value, Nested(SegmentOf(a, path)), types, onType, tableId, entities)
      ensures Built(r, entities) == NestedSpec(tableId, path, onType, a, old(entities))
      decreases Budget(tableId), 0
    {
      var seg := SegmentOf(a, path);
      var member := FindMember(types, onType, seg);
      if member.Err? {
        NestedSpecNotFound(tableId, path, onType, a, entities);
        return Err(member.error);
      }
      NestedSpecOfMember(tableId, path, onType, a, entities, member.value);
      var child := tableId + "." + seg;
      var nested := GetEntity(member.value.memberType, child, member.value.memberType);
      NestedOutcome(tableId, path, onType, a, member.value, nested, old(entities), entities);
      if nested.Err? {
        return Err(nested.error);
      }
      return Ok(MappingMember(member.value, None, Some(nested.value)));
    }

    lemma BuildsIntro(e: Entity, elementType: TypeId, tableId: string, entityType: TypeId,
                      attrs: seq<MappingAttribute>, steps: seq<Step>)
      requires RootAttributes(SplitTableId(tableId).0) == Ok(attrs)
      requires e.tables == OrderedTables(attrs) && e.elementType == elementType && e.tableId == tableId
      requires TableShaped(e) && NamesDistinct(e.members)
      requires e.entityType == WorkingEntityType(e.tables, elementType, entityType)
      requires PlanOf(MemberAnnotationsUnder(attrs, SplitTableId(tableId).1), SplitTableId(tableId).1, e.entityType).Ok?
      requires steps == PlanOf(MemberAnnotationsUnder(attrs, SplitTableId(tableId).1), SplitTableId(tableId).1, e.entityType).value.steps
      requires |e.members| == |steps|
      requires forall k :: 0 <= k < |e.members| ==> Realises(e.members[k], steps[k], types, e.entityType, tableId, entities)
      ensures Builds(e, elementType, tableId, entityType, entities)
    {
    }

    /** The nested entity's budget is below its parent's. */
    lemma NestedBudget(tableId: string, path: string, a: MemberAnnotation)
      requires Building(tableId, path) && Within(a, path) && Dotted(a, path) && SegmentOf(a, path) != ""
      ensures Budget(tableId + "." + SegmentOf(a, path)) < Budget(tableId)
    {
      NestedPathBounds(tableId, a);
    }

    /** Keys the nested build added lie below the parent as well. */
    lemma NewKeysBelow(before: map<string, Entity>, after: map<string, Entity>, id: string, child: string)
      requires AddedUnder(before, after, child) && ExtendsId(child, id)
      ensures forall k :: k in after && k !in before ==> ExtendsId(k, id)
    {
      forall k | k in after && k !in before
        ensures ExtendsId(k, id)
      {
        ExtendsIdTransitive(k, child, id);
      }
    }

    /** What `Builds` describes is a well-formed entity that shares its
        nested entities with a valid cache. */
    lemma BuildsWellFormed(e: Entity, elementType: TypeId, tableId: string, entityType: TypeId,
                           cache: map<string, Entity>)
      requires CacheValid(cache) && Builds(e, elementType, tableId, entityType, cache)
      ensures WellFormed(e) && Coherent(e, cache)
    {
      var (root, path) := SplitTableId(tableId);
      var attrs := RootAttributes(root).value;
      var steps := PlanOf(MemberAnnotationsUnder(attrs, path), path, e.entityType).value.steps;
      forall k | 0 <= k < |e.members|
        ensures Shaped(e.members[k])
        ensures e.members[k].nested.Some? ==> WellFormed(e.members[k].nested.value)
        ensures e.members[k].nested.Some? ==>
                  e.members[k].nested.value.tableId in cache
                  && cache[e.members[k].nested.value.tableId] == e.members[k].nested.value
      {
        assert Realises(e.members[k], steps[k], types, e.entityType, tableId, cache);
        if steps[k].Nested? {
          assert tableId + "." + steps[k].segment in cache;
        }
      }
    }

    /** A column member of a built entity carries a column annotation
        declared on the root member under the entity's path, it is the member
        the annotation's relative name resolves to on the working type, and
        every column query on it reads that annotation: the name (else the
        base mapping's), the database type, the alias and the three flags. */
    lemma BuiltColumn(e: Entity, elementType: TypeId, tableId: string, entityType: TypeId,
                      cache: map<string, Entity>, k: nat, base: BaseColumnName)
      requires Builds(e, elementType, tableId, entityType, cache) && k < |e.members|
      requires IsColumnMember(e.members[k])
      ensures var (root, path) := SplitTableId(tableId);
              var a := e.members[k].attribute.value;
              var m := e.members[k].member;
              && MemberLevel(a) in RootAttributes(root).value && StartsWith(a.member, path)
              && Undotted(a, path) && Resolve(types, e.entityType, RelativeName(a.member, path)) == Ok(m)
              && ColumnName(e, m, base) == (if a.name != "" then a.name else base(e, m))
              && ColumnDbType(e, m) == (if a.dbType != "" then Some(a.dbType) else None)
              && ColumnAlias(e, m) == Some(a.alias)
              && IsPrimaryKey(e, m) == a.isPrimaryKey && IsComputed(e, m) == a.isComputed
              && IsGenerated(e, m) == a.isGenerated
    {
      var (root, path) := SplitTableId(tableId);
      var attrs := RootAttributes(root).value;
      var annotations := MemberAnnotationsUnder(attrs, path);
      PlanKeepsInvariant(annotations, path, e.entityType);
      var steps := PlanOf(annotations, path, e.entityType).value.steps;
      assert Realises(e.members[k], steps[k], types, e.entityType, tableId, cache);
      assert Derived(steps[k], annotations, path);
      var m := e.members[k].member;
      assert MemberNamed(e, m) == Some(e.members[k]);
    }

    /** Each table of a built entity is a table annotation declared on the
        root member, and the table queries read that annotation: the alias,
        whether it is an extension table, its related alias, and the name
        (else the entity's id). */
    lemma BuiltTable(e: Entity, elementType: TypeId, tableId: string, entityType: TypeId,
                     cache: map<string, Entity>, i: nat)
      requires Builds(e, elementType, tableId, entityType, cache) && i < |Tables(e)|
      ensures var t := Tables(e)[i];
              && t.entity == e && TableLevel(t.attribute) in RootAttributes(SplitTableId(tableId).0).value
              && TableAlias(t) == t.attribute.alias
              && (IsExtensionTable(t) <==> t.attribute.ExtensionTable?)
              && ExtensionRelatedAlias(t) == (if t.attribute.ExtensionTable? then Some(t.attribute.relatedAlias) else None)
              && TableNameOf(t) == (if t.attribute.name != "" then t.attribute.name else tableId)
    {
      var attrs := RootAttributes(SplitTableId(tableId).0).value;
      assert e.tables[i] in multiset(e.tables);
      assert e.tables[i] in multiset(TableAnnotationsOf(attrs));
    }

    /** The cache is keyed by table id alone: once `tableId` is built, a
        later request for it returns that entity whatever types it passes. */
    method GetEntityTwice(elementType: TypeId, tableId: string, entityType: TypeId,
                          otherElementType: TypeId, otherEntityType: TypeId) returns (first: Result<Entity>, second: Result<Entity>)
      requires Valid()
      modifies this
      ensures Valid()
      ensures first.Ok? ==> second == first
      ensures first.Ok? ==> tableId in entities && entities[tableId] == first.value
    {
      first := GetEntity(elementType, tableId, entityType);
      second := GetEntity(otherElementType, tableId, otherEntityType);
    }

    /** `GetEntity(contextMember)`: the entity of a context member, keyed by
        the member's name and mapped as the member's element type. */
    method GetEntityOfMember(contextMember: MemberInfo) returns (r: Result<Entity>)
      requires Valid()
      modifies this
      ensures Valid()
      ensures Retains(old(entities), entities) && AddedUnder(old(entities), entities, contextMember.name)
      ensures r.Ok? <==> contextMember.name in entities
      ensures r.Ok? ==> entities[contextMember.name] == r.value
      ensures contextMember.name !in old(entities) && r.Ok? ==>
                var elementType := ElementType(types, contextMember.memberType);
                Builds(r.value, elementType, contextMember.name, elementType, entities)
      ensures var elementType := ElementType(types, contextMember.memberType);
              Built(r, entities) == GetSpec(elementType, contextMember.name, elementType, old(entities))
    {
      var elementType := ElementType(types, contextMember.memberType);
      r := GetEntity(elementType, contextMember.name, elementType);
    }

    /** `GetEntity(type, tableId)`: the entity of `tableId`, mapped as `t`. */
    method GetEntityOfType(t: TypeId, tableId: string) returns (r: Result<Entity>)
      requires Valid()
      modifies this
      ensures Valid()
      ensures Retains(old(entities), entities) && AddedUnder(old(entities), entities, tableId)
      ensures tableId in old(entities) ==> r == Ok(old(entities)[tableId]) && entities == old(entities)
      ensures r.Ok? <==> tableId in entities
      ensures r.Ok? ==> entities[tableId] == r.value
      ensures tableId !in old(entities) && r.Ok? ==> Builds(r.value, t, tableId, t, entities)
      ensures Built(r, entities) == GetSpec(t, tableId, t, old(entities))
    {
      r := GetEntity(t, tableId, t);
    }

    /** `GetTableId(entityType)`: the name of the first public instance
        field or property of the context whose element type is `entityType`,
        else the type's own name. */
    method GetTableId(entityType: TypeId) returns (r: string)
      ensures FirstCandidate(types, MembersOf(types, contextType), entityType).Some? ==>
                r == MembersOf(types, contextType)[FirstCandidate(types, MembersOf(types, contextType), entityType).value].name
      ensures FirstCandidate(types, MembersOf(types, contextType), entityType).None? ==> r == entityType
    {
      var ms := MembersOf(types, contextType);
      var i := 0;
      while i < |ms|
        invariant 0 <= i <= |ms|
        invariant forall j :: 0 <= j < i ==> !TableIdCandidate(types, ms[j], entityType)
      {
        var m := ms[i];
        if m.isPublic && m.kind == Field && ElementType(types, m.memberType) == entityType {
          return m.name;
        }
        if m.isPublic && m.kind == Property && ElementType(types, m.memberType) == entityType {
          return m.name;
        }
        i := i + 1;
      }
      return entityType;
    }

    /** `GetRelatedEntity`: for an association member, the entity its
        `RelatedEntityID` names, fetched from the cache or built (as the
        member's element type, or as the annotation's `RelatedEntityType`);
        for a nested member, its nested entity; otherwise the base mapping
        answers. */
    method GetRelatedEntity(e: Entity, member: MemberInfo) returns (r: Answer<Entity>)
      requires Valid()
      modifies this
      ensures Valid() && Retains(old(entities), entities)
      ensures IsAssociationRelationship(e, member) ==>
                var a := AssociationOf(e, member);
                var elementType := ElementType(types, member.memberType);
                && AddedUnder(old(entities), entities, a.relatedEntityId)
                && !r.Inherited?
                && (r.Answered? <==> a.relatedEntityId in entities)
                && (r.Answered? ==> r.value == entities[a.relatedEntityId])
                && (a.relatedEntityId in old(entities) ==>
                      r == Answered(old(entities)[a.relatedEntityId]) && entities == old(entities))
                && (a.relatedEntityId !in old(entities) && r.Answered? ==>
                      Builds(r.value, elementType, a.relatedEntityId, RelatedEntityType(a, elementType), entities))
      ensures IsAssociationRelationship(e, member) ==>
                var a := AssociationOf(e, member);
                var elementType := ElementType(types, member.memberType);
                var g := GetSpec(elementType, a.relatedEntityId, RelatedEntityType(a, elementType), old(entities));
                && entities == g.cache
                && r == (if g.result.Ok? then Answered(g.result.value) else Failed(g.result.error))
      ensures !IsAssociationRelationship(e, member) ==> entities == old(entities)
      ensures !IsAssociationRelationship(e, member) && IsNestedEntity(e, member) ==> r == Answered(NestedOf(e, member))
      ensures !IsAssociationRelationship(e, member) && !IsNestedEntity(e, member) ==> r == Inherited
    {
      var mm := GetMappingMember(e, member.name);
      if mm.Some? && mm.value.attribute.Some? && mm.value.attribute.value.Association? {
        var a := mm.value.attribute.value;
        var elementType := ElementType(types, member.memberType);
        var entityType := if a.relatedEntityType.Some? then a.relatedEntityType.value else elementType;
        var related := GetEntity(elementType, a.relatedEntityId, entityType);
        if related.Err? {
          return Failed(related.error);
        }
        return Answered(related.value);
      }
      if mm.Some? && mm.value.nested.Some? {
        return Answered(mm.value.nested.value);
      }
      return Inherited;
    }

    /** `GetAssociationRelatedKeyMembers`: the related entity is fetched
        first; for an association member, its related key members are then
        resolved on that entity, reported against this entity's type;
        otherwise the base mapping answers. */
    method AssociationRelatedKeyMembers(e: Entity, member: MemberInfo) returns (r: Answer<seq<MemberInfo>>)
      requires Valid()
      modifies this
      ensures Valid() && Retains(old(entities), entities)
      ensures !IsAssociationRelationship(e, member) ==> r == Inherited && entities == old(entities)
      ensures IsAssociationRelationship(e, member) ==>
                var a := AssociationOf(e, member);
                && AddedUnder(old(entities), entities, a.relatedEntityId)
                && (a.relatedEntityId !in entities ==> r.Failed?)
                && (a.relatedEntityId in entities ==>
                      var keys := ReferencedMembers(entities[a.relatedEntityId], a.relatedKeyMembers,
                                                    "Association.RelatedKeyMembers", e.entityType);
                      && (keys.Ok? ==> r == Answered(keys.value))
                      && (keys.Err? ==> r == Failed(keys.error)))
      ensures IsAssociationRelationship(e, member) ==>
                var a := AssociationOf(e, member);
                var elementType := ElementType(types, member.memberType);
                var g := GetSpec(elementType, a.relatedEntityId, RelatedEntityType(a, elementType), old(entities));
                && entities == g.cache
                && (g.result.Err? ==> r == Failed(g.result.error))
    {
      var related := GetRelatedEntity(e, member);
      var mm := GetMappingMember(e, member.name);
      assert mm == MemberNamed(e, member);
      if mm.Some? && mm.value.attribute.Some? && mm.value.attribute.value.Association? {
        assert IsAssociationRelationship(e, member) && mm.value.attribute.value == AssociationOf(e, member);
        if related.Failed? {
          return Failed(related.error);
        }
        var keys := ReferencedMembers(related.value, mm.value.attribute.value.relatedKeyMembers,
                                      "Association.RelatedKeyMembers", e.entityType);
        if keys.Err? {
          return Failed(keys.error);
        }
        return Answered(keys.value);
      }
      return Inherited;
    }
  }
}
