/** Shared vocabulary: optional values, responses and facts about sequences. */
module Basics {

  datatype Option<+T> = None | Some(value: T)

  // MXResponse: a value or an error.
  datatype Response<+T, +E> = Success(value: T) | Failure(error: E)

  predicate NoDup<T(==)>(s: seq<T>) {
    forall i, j | 0 <= i < j < |s| :: s[i] != s[j]
  }

  function Keep<T>(s: seq<T>, p: T -> bool): (r: seq<T>)
    ensures |r| <= |s|
    ensures forall x | x in r :: x in s && p(x)
    ensures forall x | x in s && p(x) :: x in r
  {
    if s == [] then []
    else (if p(s[0]) then [s[0]] else []) + Keep(s[1..], p)
  }

  lemma KeepDistributes<T>(s: seq<T>, t: seq<T>, p: T -> bool)
    ensures Keep(s + t, p) == Keep(s, p) + Keep(t, p)
  {
    if s == [] {
      assert s + t == t;
    } else {
      assert (s + t)[1..] == s[1..] + t;
      KeepDistributes(s[1..], t, p);
    }
  }

  lemma {:induction false} KeepNoDup<T>(s: seq<T>, p: T -> bool)
    requires NoDup(s)
    ensures NoDup(Keep(s, p))
  {
    if s != [] {
      KeepNoDup(s[1..], p);
      assert s[0] !in s[1..];
    }
  }

  // Position of the first element satisfying p, or |s|.
  function FirstIndex<T>(s: seq<T>, p: T -> bool): (i: nat)
    ensures i <= |s|
    ensures i < |s| ==> p(s[i])
    ensures forall j | 0 <= j < i :: !p(s[j])
  {
    if s == [] || p(s[0]) then 0 else 1 + FirstIndex(s[1..], p)
  }

  // Swift's `first(where:)`.
  function First<T>(s: seq<T>, p: T -> bool): (r: Option<T>)
    ensures r.None? <==> forall x | x in s :: !p(x)
    ensures r.Some? ==> r.value in s && p(r.value)
  {
    var i := FirstIndex(s, p);
    if i < |s| then Some(s[i]) else None
  }

  function OrElse<T>(a: Option<T>, b: Option<T>): Option<T> { if a.Some? then a else b }

  lemma FirstIndexOfConcat<T>(a: seq<T>, b: seq<T>, p: T -> bool)
    ensures FirstIndex(a + b, p) == if FirstIndex(a, p) < |a| then FirstIndex(a, p) else |a| + FirstIndex(b, p)
  {
    if a == [] {
      assert a + b == b;
    } else if !p(a[0]) {
      assert (a + b)[1..] == a[1..] + b;
      FirstIndexOfConcat(a[1..], b, p);
    }
  }

  lemma FirstOfConcat<T>(a: seq<T>, b: seq<T>, p: T -> bool)
    ensures First(a + b, p) == OrElse(First(a, p), First(b, p))
  {
    FirstIndexOfConcat(a, b, p);
  }

  lemma FirstOfAppend<T>(s: seq<T>, x: T, p: T -> bool)
    ensures First(s + [x], p) == OrElse(First(s, p), if p(x) then Some(x) else None)
  {
    FirstOfConcat(s, [x], p);
  }

  lemma KeepAll<T>(s: seq<T>, p: T -> bool)
    requires forall x | x in s :: p(x)
    ensures Keep(s, p) == s
  {
  }

  lemma KeepNone<T>(s: seq<T>, p: T -> bool)
    requires forall x | x in s :: !p(x)
    ensures Keep(s, p) == []
  {
  }
}
