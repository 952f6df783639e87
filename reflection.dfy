/** Member path resolution: a dotted path of names is looked up segment by
    segment, case-insensitively, each segment on the element type of the
    member found for the one before. */
module Reflection {
  import opened Outcomes
  import opened Text
  import opened Metadata

  /** `type.GetMember(name, ... IgnoreCase).FirstOrDefault()`: the first
      declared member whose name equals `name` up to case. */
  function LookupMember(members: seq<MemberInfo>, name: string): (r: Option<MemberInfo>)
    ensures r.Some? ==> r.value in members && SameIgnoringCase(r.value.name, name)
    ensures r.None? <==> forall m :: m in members ==> !SameIgnoringCase(m.name, name)
  {
    if members == [] then None
    else if SameIgnoringCase(members[0].name, name) then Some(members[0])
    else LookupMember(members[1..], name)
  }

  /** Resolution of the segments `names` from type `t`. */
  function ResolveNames(types: Types, t: TypeId, names: seq<string>): (r: Result<MemberInfo>)
    requires |names| > 0
    ensures r.Ok? ==> SameIgnoringCase(r.value.name, names[|names| - 1])
    ensures r.Err? ==> r.error.MemberNotFound? && r.error.name in names
    decreases |names|
  {
    match LookupMember(MembersOf(types, t), names[0])
    case None => Err(MemberNotFound(names[0], t))
    case Some(m) =>
      if |names| == 1 then Ok(m)
      else ResolveNames(types, ElementType(types, m.memberType), names[1..])
  }

  /** The type the `k`-th segment is looked up on: `t` for the first, else the
      element type of the member the segments before it resolve to. */
  function TypeBefore(types: Types, t: TypeId, names: seq<string>, k: nat): TypeId
    requires k < |names| && (k > 0 ==> ResolveNames(types, t, names[..k]).Ok?)
  {
    if k == 0 then t else ElementType(types, ResolveNames(types, t, names[..k]).value.memberType)
  }

  /** Resolution fails on the first segment that is not found: every segment
      before it resolves, and the error names that segment and the type it
      was looked up on. */
  lemma {:induction false} ResolveNamesFirstFailure(types: Types, t: TypeId, names: seq<string>) returns (k: nat)
    requires |names| > 0 && ResolveNames(types, t, names).Err?
    ensures k < |names| && (k > 0 ==> ResolveNames(types, t, names[..k]).Ok?)
    ensures LookupMember(MembersOf(types, TypeBefore(types, t, names, k)), names[k]).None?
    ensures ResolveNames(types, t, names) == Err(MemberNotFound(names[k], TypeBefore(types, t, names, k)))
    decreases |names|
  {
    match LookupMember(MembersOf(types, t), names[0])
    case None =>
      k := 0;
    case Some(m) =>
      var next := ElementType(types, m.memberType);
      var k' := ResolveNamesFirstFailure(types, next, names[1..]);
      k := k' + 1;
      var prefix := names[..k];
      assert prefix[0] == names[0];
      assert prefix[1..] == names[1..][..k'];
      assert names[k] == names[1..][k'];
      if k' > 0 {
        assert ResolveNames(types, t, prefix) == ResolveNames(types, next, names[1..][..k']);
      }
  }

  /** The member a dotted path designates from type `t`. */
  function Resolve(types: Types, t: TypeId, path: string): Result<MemberInfo> {
    ResolveNames(types, t, Split(path, {'.'}))
  }

  /** A path whose first segment is empty never resolves, since every member
      has a name: a resolvable path is non-empty and does not start with a dot. */
  lemma ResolvableHead(types: Types, t: TypeId, path: string)
    requires TypesWellFormed(types)
    requires Resolve(types, t, path).Ok?
    ensures path != "" && path[0] != '.'
  {
  }

  /** A name without dots resolves to a member declared on the type itself. */
  lemma ResolveSingle(types: Types, t: TypeId, name: string)
    requires '.' !in name && Resolve(types, t, name).Ok?
    ensures Resolve(types, t, name).value in MembersOf(types, t)
  {
    SplitWithoutSeparators(name, {'.'});
  }

  /** `FindMember(type, path)`: walks the segments, unwrapping the element
      type of each member found, and fails on the first segment not found. */
  method FindMember(types: Types, t: TypeId, path: string) returns (r: Result<MemberInfo>)
    ensures r == Resolve(types, t, path)
  {
    var names := Split(path, {'.'});
    var ty := t;
    var member: Option<MemberInfo> := None;
    var i := 0;
    while i < |names|
      invariant 0 <= i <= |names|
      invariant i < |names| ==> Resolve(types, t, path) == ResolveNames(types, ty, names[i..])
      invariant i == |names| ==> member.Some? && Resolve(types, t, path) == Ok(member.value)
    {
      var found := LookupMember(MembersOf(types, ty), names[i]);
      if found.None? {
        return Err(MemberNotFound(names[i], ty));
      }
      assert names[i..][1..] == names[i + 1..];
      member := found;
      ty := ElementType(types, found.value.memberType);
      i := i + 1;
    }
    return Ok(member.value);
  }
}
