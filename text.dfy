/** The string operations the mapping relies on: `IndexOf`, `StartsWith`,
    `Split` over a set of separator characters, case-insensitive equality
    and the order used to sort annotations. */
module Text {

  /** `s.IndexOf(c)`: the index of the first `c` in `s`, or -1. */
  function IndexOf(s: string, c: char): (r: int)
    ensures -1 <= r < |s|
    ensures r == -1 <==> c !in s
    ensures r >= 0 ==> s[r] == c && c !in s[..r]
  {
    if |s| == 0 then -1
    else if s[0] == c then 0
    else
      var k := IndexOf(s[1..], c);
      if k == -1 then -1
      else
        assert s[1..][..k] == s[1..k + 1];
        assert s[..k + 1] == [s[0]] + s[1..k + 1];
        k + 1
  }

  /** The first occurrence is where `IndexOf` points. */
  lemma IndexOfFirst(u: string, c: char, i: nat)
    requires i < |u| && u[i] == c && c !in u[..i]
    ensures IndexOf(u, c) == i
  {
    var k := IndexOf(u, c);
    assert forall m :: 0 <= m < i ==> u[..i][m] == u[m];
  }

  /** `IndexOf` on a concatenation looks in the left part first. */
  lemma IndexOfAppend(s: string, t: string, c: char)
    ensures c in s ==> IndexOf(s + t, c) == IndexOf(s, c)
    ensures c !in s && c in t ==> IndexOf(s + t, c) == |s| + IndexOf(t, c)
  {
    if c in s {
      IndexOfAppendLeft(s, t, c);
    } else if c in t {
      IndexOfAppendRight(s, t, c);
    }
  }

  lemma IndexOfAppendLeft(s: string, t: string, c: char)
    requires c in s
    ensures IndexOf(s + t, c) == IndexOf(s, c)
  {
    var j := IndexOf(s, c);
    var u := s + t;
    assert u[..j] == s[..j];
    assert u[j] == s[j];
    IndexOfFirst(u, c, j);
  }

  lemma IndexOfAppendRight(s: string, t: string, c: char)
    requires c !in s && c in t
    ensures IndexOf(s + t, c) == |s| + IndexOf(t, c)
  {
    var j := IndexOf(t, c);
    var u := s + t;
    assert u[..|s| + j] == s + t[..j];
    assert c !in t[..j];
    assert u[|s| + j] == t[j];
    IndexOfFirst(u, c, |s| + j);
  }

  predicate StartsWith(s: string, prefix: string) {
    |prefix| <= |s| && s[..|prefix|] == prefix
  }

  /** The separator characters of `s`, in order. */
  function Separators(s: string, seps: set<char>): seq<char> {
    if s == [] then []
    else (if s[0] in seps then [s[0]] else []) + Separators(s[1..], seps)
  }

  /** `s.Split(seps)` without options: empty pieces are kept, and the
      empty string splits into one empty piece. */
  function Split(s: string, seps: set<char>): (r: seq<string>)
    ensures |r| == |Separators(s, seps)| + 1
    ensures forall i, c :: 0 <= i < |r| && c in r[i] ==> c !in seps
  {
    if s == [] then [""]
    else if s[0] in seps then [""] + Split(s[1..], seps)
    else
      var rest := Split(s[1..], seps);
      [[s[0]] + rest[0]] + rest[1..]
  }

  /** Puts the pieces back together, `glue[i]` between piece `i` and `i + 1`. */
  function Join(pieces: seq<string>, glue: seq<char>): string
    requires |pieces| == |glue| + 1
  {
    if glue == [] then pieces[0]
    else pieces[0] + [glue[0]] + Join(pieces[1..], glue[1..])
  }

  /** Prefixing the first piece prefixes the joined string. */
  lemma JoinPrefixHead(c: char, pieces: seq<string>, glue: seq<char>)
    requires |pieces| == |glue| + 1
    ensures Join([[c] + pieces[0]] + pieces[1..], glue) == [c] + Join(pieces, glue)
  {
    var moved := [[c] + pieces[0]] + pieces[1..];
    if glue != [] {
      assert moved[1..] == pieces[1..];
      assert ([c] + pieces[0]) + [glue[0]] + Join(pieces[1..], glue[1..])
          == [c] + (pieces[0] + [glue[0]] + Join(pieces[1..], glue[1..]));
    }
  }

  /** Splitting loses nothing: the pieces and the separators rebuild the input. */
  lemma {:induction false} SplitJoin(s: string, seps: set<char>)
    ensures Join(Split(s, seps), Separators(s, seps)) == s
  {
    if s != [] {
      SplitJoin(s[1..], seps);
      var rest := Split(s[1..], seps);
      if s[0] in seps {
        assert Split(s, seps) == [""] + rest;
        assert Separators(s, seps) == [s[0]] + Separators(s[1..], seps);
        assert ([""] + rest)[1..] == rest;
      } else {
        assert Separators(s, seps) == Separators(s[1..], seps);
        JoinPrefixHead(s[0], rest, Separators(s[1..], seps));
      }
      assert s == [s[0]] + s[1..];
    }
  }

  /** A string without separators is its own single piece. */
  lemma {:induction false} SplitWithoutSeparators(s: string, seps: set<char>)
    requires forall c :: c in s ==> c !in seps
    ensures Split(s, seps) == [s]
  {
    if s != [] {
      assert s[0] in s;
      assert forall c :: c in s[1..] ==> c in s;
      SplitWithoutSeparators(s[1..], seps);
      assert s == [s[0]] + s[1..];
    }
  }

  /** The case folding used for case-insensitive comparison (ASCII letters). */
  function Fold(c: char): char {
    if 'A' <= c <= 'Z' then (c as int + 32) as char else c
  }

  /** `string.Compare(a, b, true) == 0` and the IgnoreCase member lookup. */
  predicate SameIgnoringCase(a: string, b: string) {
    |a| == |b| && forall i :: 0 <= i < |a| ==> Fold(a[i]) == Fold(b[i])
  }

  /** Ordinal order of strings: the order the annotations are sorted by. */
  predicate OrdinalLessEq(a: string, b: string)
    decreases |a|
  {
    a == [] || (b != [] && (a[0] < b[0] || (a[0] == b[0] && OrdinalLessEq(a[1..], b[1..]))))
  }

  /** Any two strings are comparable, so sorting by this order is well defined. */
  lemma {:induction false} OrdinalTotal(a: string, b: string)
    ensures OrdinalLessEq(a, b) || OrdinalLessEq(b, a)
    decreases |a|
  {
    if a != [] && b != [] && a[0] == b[0] {
      OrdinalTotal(a[1..], b[1..]);
    }
  }
}
