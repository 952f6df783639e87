/** The part of entity construction that depends on names alone: splitting
    the table id, choosing and ordering the annotations under the nesting
    path, and the sequence of decisions the builder loop takes for them
    (skip, plain member, nested member, or error). Resolving the names
    against types and building the nested entities happens in `Mapping`. */
module Planning {
  import opened Outcomes
  import opened Text
  import opened Ordering
  import opened Metadata

  /** A table id split at its first dot into root id and nesting path, when
      that dot is not the first character; otherwise the whole id is the root. */
  function SplitTableId(id: string): (r: (string, string))
    ensures IndexOf(id, '.') > 0 ==> r.0 != "" && '.' !in r.0 && id == r.0 + "." + r.1
    ensures IndexOf(id, '.') <= 0 ==> r.0 == id && r.1 == ""
  {
    var dot := IndexOf(id, '.');
    if dot > 0 then
      assert id == id[..dot] + "." + id[dot + 1..];
      (id[..dot], id[dot + 1..])
    else (id, "")
  }

  /** The id of a nested entity, `tableId + "." + segment`, keeps the root and
      extends the nesting path by the segment. */
  lemma NestedIdSplit(id: string, seg: string)
    requires id != "" && IndexOf(id, '.') != 0
    ensures SplitTableId(id + "." + seg).0 == SplitTableId(id).0
    ensures SplitTableId(id + "." + seg).1 ==
              if '.' in id then SplitTableId(id).1 + "." + seg else seg
  {
    if '.' in id {
      NestedIdSplitDotted(id, seg);
    } else {
      NestedIdSplitPlain(id, seg);
    }
  }

  lemma {:induction false} NestedIdSplitDotted(id: string, seg: string)
    requires '.' in id && IndexOf(id, '.') > 0
    ensures SplitTableId(id + "." + seg) == (SplitTableId(id).0, SplitTableId(id).1 + "." + seg)
  {
    var tail := "." + seg;
    var d := IndexOf(id, '.');
    IndexOfAppendLeft(id, tail, '.');
    SplitAt(id + tail, d);
    SplitAt(id, d);
    AppendSlices(id, tail, d);
    assert id[d + 1..] + tail == id[d + 1..] + "." + seg;
    assert id + "." + seg == id + tail;
  }

  lemma AppendSlices(s: string, t: string, d: nat)
    requires d < |s|
    ensures (s + t)[..d] == s[..d] && (s + t)[d + 1..] == s[d + 1..] + t
  {
  }

  lemma {:induction false} NestedIdSplitPlain(id: string, seg: string)
    requires '.' !in id && id != ""
    ensures SplitTableId(id + "." + seg) == (id, seg)
  {
    var tail := "." + seg;
    IndexOfAppend(id, tail, '.');
    assert tail[0] == '.';
    SplitAt(id + tail, |id|);
    assert (id + tail)[..|id|] == id;
    assert (id + tail)[|id| + 1..] == seg;
    assert id + "." + seg == id + tail;
  }

  lemma SplitAt(u: string, k: int)
    requires 0 < k < |u| && IndexOf(u, '.') == k
    ensures SplitTableId(u) == (u[..k], u[k + 1..])
  {
  }

  function MemberAnnotationsOf(attrs: seq<MappingAttribute>): (r: seq<MemberAnnotation>)
    ensures forall a :: a in r <==> MemberLevel(a) in attrs
    ensures forall a :: multiset(r)[a] == multiset(attrs)[MemberLevel(a)]
  {
    if attrs == [] then []
    else
      assert forall x :: x in attrs <==> x == attrs[0] || x in attrs[1..];
      assert attrs == [attrs[0]] + attrs[1..];
      (if attrs[0].MemberLevel? then [attrs[0].annotation] else []) + MemberAnnotationsOf(attrs[1..])
  }

  function TableAnnotationsOf(attrs: seq<MappingAttribute>): (r: seq<TableAnnotation>)
    ensures forall t :: t in r <==> TableLevel(t) in attrs
    ensures forall t :: multiset(r)[t] == multiset(attrs)[TableLevel(t)]
  {
    if attrs == [] then []
    else
      assert forall x :: x in attrs <==> x == attrs[0] || x in attrs[1..];
      assert attrs == [attrs[0]] + attrs[1..];
      (if attrs[0].TableLevel? then [attrs[0].table] else []) + TableAnnotationsOf(attrs[1..])
  }

  /** `.Where(ma => ma.Member.StartsWith(path))` */
  function StartingWith(ms: seq<MemberAnnotation>, path: string): (r: seq<MemberAnnotation>)
    ensures forall a :: a in r <==> a in ms && StartsWith(a.member, path)
    ensures forall a :: multiset(r)[a] == if StartsWith(a.member, path) then multiset(ms)[a] else 0
  {
    if ms == [] then []
    else
      assert forall x :: x in ms <==> x == ms[0] || x in ms[1..];
      assert ms == [ms[0]] + ms[1..];
      (if StartsWith(ms[0].member, path) then [ms[0]] else []) + StartingWith(ms[1..], path)
  }

  function MemberPath(a: MemberAnnotation): string { a.member }

  function TableNameKey(t: TableAnnotation): string { t.name }

  /** The member annotations the builder considers for `path`: exactly those
      whose member path starts with `path`, ordered by member path. */
  function MemberAnnotationsUnder(attrs: seq<MappingAttribute>, path: string): (r: seq<MemberAnnotation>)
    ensures forall a :: a in r <==> MemberLevel(a) in attrs && StartsWith(a.member, path)
    ensures forall a :: multiset(r)[a] == if StartsWith(a.member, path) then multiset(attrs)[MemberLevel(a)] else 0
    ensures SortedBy(r, MemberPath)
  {
    var chosen := StartingWith(MemberAnnotationsOf(attrs), path);
    var r := SortBy(chosen, MemberPath);
    assert forall a :: a in r <==> a in chosen by {
      forall a { SortByMembers(chosen, MemberPath, a); }
    }
    r
  }

  /** The table annotations, ordered by name. */
  function OrderedTables(attrs: seq<MappingAttribute>): (r: seq<TableAnnotation>)
    ensures multiset(r) == multiset(TableAnnotationsOf(attrs))
    ensures SortedBy(r, TableNameKey)
  {
    SortBy(TableAnnotationsOf(attrs), TableNameKey)
  }

  function FirstTableAttribute(tables: seq<TableAnnotation>): (r: Option<TableAnnotation>)
    ensures r.Some? ==> r.value.Table? && r.value in tables
    ensures r.None? <==> forall t :: t in tables ==> !t.Table?
    ensures r.Some? ==> exists k :: 0 <= k < |tables| && tables[k] == r.value
                                    && forall j :: 0 <= j < k ==> !tables[j].Table?
  {
    if tables == [] then None
    else if tables[0].Table? then Some(tables[0])
    else FirstTableAttribute(tables[1..])
  }

  /** The type the members are resolved on: the first table annotation's entity
      type overrides the caller's, when the caller gave none of its own. */
  function WorkingEntityType(tables: seq<TableAnnotation>, elementType: TypeId, entityType: TypeId): (r: TypeId)
    ensures r != entityType ==> entityType == elementType && FirstTableAttribute(tables).Some?
                                && FirstTableAttribute(tables).value.entityType == Some(r)
    ensures entityType == elementType && FirstTableAttribute(tables).Some?
            && FirstTableAttribute(tables).value.entityType.Some?
            ==> r == FirstTableAttribute(tables).value.entityType.value
  {
    match FirstTableAttribute(tables)
    case Some(Table(_, _, Some(t))) => if entityType == elementType then t else entityType
    case _ => entityType
  }

  /** Whether `member.Substring(path.Length + 1)` exists (or is not needed). */
  predicate HasRelativeName(member: string, path: string) {
    path == "" || |member| >= |path| + 1
  }

  /** The member path with the nesting path and the character after it removed. */
  function RelativeName(member: string, path: string): string
    requires HasRelativeName(member, path)
  {
    if path == "" then member else member[|path| + 1..]
  }

  /** The name up to its first dot. */
  function LeadingSegment(name: string): (r: string)
    requires '.' in name
    ensures '.' !in r && |r| < |name| && name[|r|] == '.' && name[..|r|] == r
  {
    name[..IndexOf(name, '.')]
  }

  /** Annotation `a` lies under a nested member of `path`. */
  predicate Dotted(a: MemberAnnotation, path: string) {
    a.member != "" && HasRelativeName(a.member, path) && '.' in RelativeName(a.member, path)
  }

  /** Annotation `a` lies directly on a member of `path`. */
  predicate Undotted(a: MemberAnnotation, path: string) {
    a.member != "" && HasRelativeName(a.member, path) && '.' !in RelativeName(a.member, path)
  }

  function SegmentOf(a: MemberAnnotation, path: string): string
    requires Dotted(a, path)
  {
    LeadingSegment(RelativeName(a.member, path))
  }

  /** One decision of the builder loop that yields a mapping member. */
  datatype Step = Plain(annotation: MemberAnnotation, name: string) | Nested(segment: string)

  /** `seen` is the builder's `members` set; `steps` the members it adds. */
  datatype PlanState = PlanState(seen: set<string>, steps: seq<Step>)

  /** The loop body for one annotation, before any name is resolved. */
  function Advance(st: PlanState, a: MemberAnnotation, path: string, onType: TypeId): Result<PlanState> {
    if a.member == "" then Ok(st)
    else if !HasRelativeName(a.member, path) then Err(PathTooShort(a.member, path))
    else
      var name := RelativeName(a.member, path);
      if '.' in name then
        var seg := LeadingSegment(name);
        if seg in st.seen then Ok(st)
        else Ok(PlanState(st.seen + {seg}, st.steps + [Nested(seg)]))
      else if name in st.seen then Err(DuplicateMapping(name, onType))
      else Ok(PlanState(st.seen, st.steps + [Plain(a, name)]))
  }

  function NestedSegments(steps: seq<Step>): set<string> {
    set k | 0 <= k < |steps| && steps[k].Nested? :: steps[k].segment
  }

  predicate NestedDistinct(steps: seq<Step>) {
    forall i, j :: 0 <= i < j < |steps| && steps[i].Nested? && steps[j].Nested? ==>
      steps[i].segment != steps[j].segment
  }

  /** Where a step comes from: a plain step from a non-empty annotation directly
      on a member, a nested step from the leading segment of a nested one. */
  predicate Derived(step: Step, s: seq<MemberAnnotation>, path: string) {
    match step
    case Plain(a, name) => a in s && Undotted(a, path) && name == RelativeName(a.member, path)
    case Nested(seg) => exists a :: a in s && Dotted(a, path) && seg == SegmentOf(a, path)
  }

  /** What holds of the loop's state after the annotations `s`: `seen` holds
      exactly the nested segments, each at most once, and every step comes
      from an annotation of `s`. */
  predicate PlanInvariant(st: PlanState, s: seq<MemberAnnotation>, path: string) {
    && st.seen == NestedSegments(st.steps)
    && NestedDistinct(st.steps)
    && forall k :: 0 <= k < |st.steps| ==> Derived(st.steps[k], s, path)
  }

  lemma NestedSegmentsAppend(steps: seq<Step>, x: Step)
    ensures NestedSegments(steps + [x]) == NestedSegments(steps) + (if x.Nested? then {x.segment} else {})
  {
    var all := steps + [x];
    assert forall k :: 0 <= k < |steps| ==> all[k] == steps[k];
    assert all[|steps|] == x;
  }

  lemma AdvanceKeepsInvariant(st: PlanState, init: seq<MemberAnnotation>, a: MemberAnnotation,
                              path: string, onType: TypeId)
    requires PlanInvariant(st, init, path)
    requires Advance(st, a, path, onType).Ok?
    ensures PlanInvariant(Advance(st, a, path, onType).value, init + [a], path)
  {
    var s := init + [a];
    var advanced := Advance(st, a, path, onType).value;
    assert a in s;
    assert forall x :: x in init ==> x in s;
    forall k | 0 <= k < |st.steps|
      ensures Derived(st.steps[k], s, path)
    {
      match st.steps[k]
      case Plain(_, _) =>
      case Nested(seg) =>
        var b :| b in init && Dotted(b, path) && seg == SegmentOf(b, path);
        assert b in s;
    }
    if advanced != st {
      var x := advanced.steps[|st.steps|];
      assert advanced.steps == st.steps + [x];
      NestedSegmentsAppend(st.steps, x);
      assert Derived(x, s, path);
    }
  }

  /** The decisions of the loop over the annotations `s`, in order. */
  function PlanOf(s: seq<MemberAnnotation>, path: string, onType: TypeId): Result<PlanState>
    decreases |s|
  {
    if s == [] then Ok(PlanState({}, []))
    else
      match PlanOf(s[..|s| - 1], path, onType)
      case Err(e) => Err(e)
      case Ok(st) => Advance(st, s[|s| - 1], path, onType)
  }

  /** The loop keeps its invariant: `seen` is exactly the set of nested
      segments, each nested segment yields one step, and every step comes from
      an annotation. */
  lemma {:induction false} PlanKeepsInvariant(s: seq<MemberAnnotation>, path: string, onType: TypeId)
    requires PlanOf(s, path, onType).Ok?
    ensures PlanInvariant(PlanOf(s, path, onType).value, s, path)
    decreases |s|
  {
    if s != [] {
      var init, last := s[..|s| - 1], s[|s| - 1];
      PlanUnfold(s, path, onType);
      var st := PlanOf(init, path, onType).value;
      PlanKeepsInvariant(init, path, onType);
      AdvanceKeepsInvariant(st, init, last, path, onType);
      assert init + [last] == s;
    }
  }

  /** One more annotation: the loop's state after `s` is that after all but
      its last annotation, advanced by the last. */
  lemma PlanUnfold(s: seq<MemberAnnotation>, path: string, onType: TypeId)
    requires s != []
    ensures PlanOf(s[..|s| - 1], path, onType).Err? ==> PlanOf(s, path, onType) == PlanOf(s[..|s| - 1], path, onType)
    ensures PlanOf(s[..|s| - 1], path, onType).Ok? ==>
              PlanOf(s, path, onType) == Advance(PlanOf(s[..|s| - 1], path, onType).value, s[|s| - 1], path, onType)
  {
  }

  /** A successful step keeps the earlier steps and accounts for its annotation. */
  lemma AdvanceCovers(st: PlanState, a: MemberAnnotation, path: string, onType: TypeId)
    requires st.seen == NestedSegments(st.steps)
    requires Advance(st, a, path, onType).Ok?
    ensures forall x :: x in st.steps ==> x in Advance(st, a, path, onType).value.steps
    ensures a.member != "" ==> HasRelativeName(a.member, path)
    ensures Undotted(a, path) ==> Plain(a, RelativeName(a.member, path)) in Advance(st, a, path, onType).value.steps
    ensures Dotted(a, path) ==> Nested(SegmentOf(a, path)) in Advance(st, a, path, onType).value.steps
  {
    if Dotted(a, path) && SegmentOf(a, path) in st.seen {
      var k :| 0 <= k < |st.steps| && st.steps[k].Nested? && st.steps[k].segment == SegmentOf(a, path);
      assert st.steps[k] == Nested(SegmentOf(a, path));
    }
  }

  /** A failing step reports a duplicate only for an annotation directly on a
      member whose name is already among the nested segments. */
  lemma AdvanceDuplicate(st: PlanState, a: MemberAnnotation, path: string, onType: TypeId, name: string)
    requires Advance(st, a, path, onType) == Err(DuplicateMapping(name, onType))
    ensures Undotted(a, path) && RelativeName(a.member, path) == name && name in st.seen
  {
  }

  /** The step of the loop on the `i`-th annotation, as the builder takes it. */
  lemma PlanNext(s: seq<MemberAnnotation>, i: nat, path: string, onType: TypeId, st: PlanState)
    requires i < |s| && PlanOf(s[..i], path, onType) == Ok(st)
    ensures PlanOf(s[..i + 1], path, onType) == Advance(st, s[i], path, onType)
  {
    assert s[..i + 1][..i] == s[..i];
    PlanUnfold(s[..i + 1], path, onType);
  }

  /** Once the loop has failed, the later annotations do not matter. */
  lemma {:induction false} PlanErrorPersists(s: seq<MemberAnnotation>, i: nat, path: string, onType: TypeId)
    requires i <= |s| && PlanOf(s[..i], path, onType).Err?
    ensures PlanOf(s, path, onType) == PlanOf(s[..i], path, onType)
    decreases |s|
  {
    if i < |s| {
      var init := s[..|s| - 1];
      assert init[..i] == s[..i];
      PlanErrorPersists(init, i, path, onType);
      PlanUnfold(s, path, onType);
    } else {
      assert s[..i] == s;
    }
  }

  /** Every non-empty annotation is accounted for: one directly on a member
      yields its own plain step, one under a nested member yields (or finds
      already present) the nested step of its leading segment. */
  lemma {:induction false} PlanCovers(s: seq<MemberAnnotation>, path: string, onType: TypeId)
    requires PlanOf(s, path, onType).Ok?
    ensures forall a :: a in s && a.member != "" ==> HasRelativeName(a.member, path)
    ensures forall a :: a in s && Undotted(a, path) ==>
              Plain(a, RelativeName(a.member, path)) in PlanOf(s, path, onType).value.steps
    ensures forall a :: a in s && Dotted(a, path) ==>
              Nested(SegmentOf(a, path)) in PlanOf(s, path, onType).value.steps
    decreases |s|
  {
    if s != [] {
      var init := s[..|s| - 1];
      var last := s[|s| - 1];
      PlanUnfold(s, path, onType);
      PlanCovers(init, path, onType);
      PlanKeepsInvariant(init, path, onType);
      var st := PlanOf(init, path, onType).value;
      var steps := PlanOf(s, path, onType).value.steps;
      AdvanceCovers(st, last, path, onType);
      assert s == init + [last];
      forall a | a in s
        ensures a.member != "" ==> HasRelativeName(a.member, path)
        ensures Undotted(a, path) ==> Plain(a, RelativeName(a.member, path)) in steps
        ensures Dotted(a, path) ==> Nested(SegmentOf(a, path)) in steps
      {
        if a != last {
          assert a in init;
        }
      }
    }
  }

  /** The duplicate check of the loop: an annotation directly on a member whose
      name is an already discovered nested segment makes the build fail. */
  lemma CollisionWithSeenSegment(s: seq<MemberAnnotation>, j: nat, path: string, onType: TypeId)
    requires j < |s| && PlanOf(s[..j], path, onType).Ok?
    requires Undotted(s[j], path)
    requires RelativeName(s[j].member, path) in PlanOf(s[..j], path, onType).value.seen
    ensures PlanOf(s, path, onType) == Err(DuplicateMapping(RelativeName(s[j].member, path), onType))
  {
    assert s[..j + 1][..j] == s[..j];
    assert s[..j + 1][j] == s[j];
    PlanUnfold(s[..j + 1], path, onType);
    PlanErrorPersists(s, j + 1, path, onType);
  }

  /** The only duplicate the loop itself reports is an annotation directly on
      a member named like a nested segment discovered before it. */
  lemma {:induction false} DuplicateMappingCause(s: seq<MemberAnnotation>, path: string, onType: TypeId, name: string)
    returns (i: nat, j: nat)
    requires PlanOf(s, path, onType) == Err(DuplicateMapping(name, onType))
    ensures i < j < |s| && Dotted(s[i], path) && SegmentOf(s[i], path) == name
            && Undotted(s[j], path) && RelativeName(s[j].member, path) == name
    decreases |s|
  {
    assert s != [];
    var init := s[..|s| - 1];
    PlanUnfold(s, path, onType);
    if PlanOf(init, path, onType).Err? {
      i, j := DuplicateMappingCause(init, path, onType, name);
      assert init[i] == s[i] && init[j] == s[j];
    } else {
      j := |s| - 1;
      i := SeenSegmentSource(init, path, onType, name);
      assert init[i] == s[i];
      AdvanceDuplicate(PlanOf(init, path, onType).value, s[j], path, onType, name);
    }
  }

  /** A segment the loop has seen comes from an earlier annotation. */
  lemma SeenSegmentSource(s: seq<MemberAnnotation>, path: string, onType: TypeId, name: string) returns (i: nat)
    requires PlanOf(s, path, onType).Ok? && name in PlanOf(s, path, onType).value.seen
    ensures i < |s| && Dotted(s[i], path) && SegmentOf(s[i], path) == name
  {
    var st := PlanOf(s, path, onType).value;
    PlanKeepsInvariant(s, path, onType);
    var k :| 0 <= k < |st.steps| && st.steps[k].Nested? && st.steps[k].segment == name;
    assert Derived(st.steps[k], s, path);
    var a :| a in s && Dotted(a, path) && SegmentOf(a, path) == name;
    i :| 0 <= i < |s| && s[i] == a;
  }

  /** An annotation whose member path is the nesting path itself has no
      relative name, so the loop fails on it (or on an earlier annotation). */
  lemma AnnotationAtPathFails(s: seq<MemberAnnotation>, path: string, onType: TypeId, a: MemberAnnotation)
    requires path != "" && a in s && a.member == path
    ensures PlanOf(s, path, onType).Err?
  {
    if PlanOf(s, path, onType).Ok? {
      PlanCovers(s, path, onType);
    }
  }

  /** The prefix test does not ask for a dot after the nesting path: any
      member path extending `path` passes it, and the one character after
      `path`, dot or not, is dropped from the relative name. With path
      `Customer`, the member path `CustomerId` passes and its relative name
      is `d`. */
  lemma PrefixWithoutDot(path: string, c: char, rest: string)
    requires path != ""
    ensures StartsWith(path + [c] + rest, path)
    ensures HasRelativeName(path + [c] + rest, path) && RelativeName(path + [c] + rest, path) == rest
  {
    assert (path + [c] + rest)[..|path|] == path;
    assert (path + [c] + rest)[|path| + 1..] == rest;
  }

  /** Two annotations directly on the same member pass the loop: the loop
      records only nested segments, so the repetition is left to the
      dictionary of members. */
  lemma RepeatedPlainPassesPlan(a: MemberAnnotation, b: MemberAnnotation, onType: TypeId)
    requires a.member == b.member && a.member != "" && '.' !in a.member
    ensures PlanOf([a, b], "", onType) == Ok(PlanState({}, [Plain(a, a.member), Plain(b, a.member)]))
  {
    assert [a, b][..1] == [a];
    assert [a][..0] == [];
    PlanUnfold([a], "", onType);
    assert PlanOf([], "", onType) == Ok(PlanState({}, []));
    assert RelativeName(a.member, "") == a.member;
    assert [] + [Plain(a, a.member)] == [Plain(a, a.member)];
    assert Advance(PlanState({}, []), a, "", onType) == Ok(PlanState({}, [Plain(a, a.member)]));
    assert PlanOf([a], "", onType) == Ok(PlanState({}, [Plain(a, a.member)]));
    PlanUnfold([a, b], "", onType);
    assert RelativeName(b.member, "") == a.member;
    assert [Plain(a, a.member)] + [Plain(b, a.member)] == [Plain(a, a.member), Plain(b, a.member)];
  }

  /** The longest member path of the annotations. */
  function MaxMemberLength(attrs: seq<MappingAttribute>): nat {
    if attrs == [] then 0
    else
      var rest := MaxMemberLength(attrs[1..]);
      if attrs[0].MemberLevel? && |attrs[0].annotation.member| > rest
      then |attrs[0].annotation.member| else rest
  }

  lemma {:induction false} MaxMemberLengthBounds(attrs: seq<MappingAttribute>, a: MemberAnnotation)
    requires MemberLevel(a) in attrs
    ensures |a.member| <= MaxMemberLength(attrs)
  {
    if attrs[0] != MemberLevel(a) {
      MaxMemberLengthBounds(attrs[1..], a);
    }
  }

  /** The longest member path annotated on any of the members `ms`. */
  function ContextMaxLength(ms: seq<MemberInfo>): nat {
    if ms == [] then 0
    else
      var rest := ContextMaxLength(ms[1..]);
      var here := MaxMemberLength(ms[0].attributes);
      if here > rest then here else rest
  }

  lemma {:induction false} ContextMaxLengthBounds(ms: seq<MemberInfo>, m: MemberInfo, a: MemberAnnotation)
    requires m in ms && MemberLevel(a) in m.attributes
    ensures |a.member| <= ContextMaxLength(ms)
  {
    if ms[0] == m {
      MaxMemberLengthBounds(m.attributes, a);
    } else {
      ContextMaxLengthBounds(ms[1..], m, a);
    }
  }

  /** A nested entity's nesting path is longer than its parent's and no longer
      than the annotation that caused it: what makes nested building stop. */
  lemma NestedPathBounds(id: string, a: MemberAnnotation)
    requires id != "" && IndexOf(id, '.') != 0
    requires StartsWith(a.member, SplitTableId(id).1) && Dotted(a, SplitTableId(id).1)
    requires SegmentOf(a, SplitTableId(id).1) != ""
    ensures var child := id + "." + SegmentOf(a, SplitTableId(id).1);
            && SplitTableId(child).0 == SplitTableId(id).0
            && |SplitTableId(id).1| < |SplitTableId(child).1| <= |a.member|
  {
    var path := SplitTableId(id).1;
    var seg := SegmentOf(a, path);
    var name := RelativeName(a.member, path);
    NestedIdSplit(id, seg);
    assert |seg| < |name|;
    if '.' !in id {
      assert IndexOf(id, '.') == -1;
    }
  }
}
