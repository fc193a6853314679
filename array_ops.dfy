/**
 * The JavaScript array operations the storage-backed services are built
 * from: `findIndex`, `find`, `filter`, and the "find the index, then
 * overwrite that slot" update that `updateUser` and `updateRole` perform.
 * Each is specified independently of its definition, and the facts the
 * services rely on (filtering keeps order, drops exactly the rejected
 * elements, shrinks exactly when something is rejected) are proved here once.
 */
module ArrayOps {
  import opened Wrappers

  /** `s.findIndex(p)`: the index of the first element satisfying `p`, or -1. */
  function FindIndex<T>(s: seq<T>, p: T -> bool): (r: int)
    ensures -1 <= r < |s|
    ensures r == -1 <==> forall i :: 0 <= i < |s| ==> !p(s[i])
    ensures 0 <= r ==> p(s[r]) && forall i :: 0 <= i < r ==> !p(s[i])
  {
    if |s| == 0 then -1
    else if p(s[0]) then 0
    else
      var k := FindIndex(s[1..], p);
      if k == -1 then -1 else k + 1
  }

  /** `s.find(p)`: the first element satisfying `p`, or `undefined` (None). */
  function Find<T>(s: seq<T>, p: T -> bool): (r: Option<T>)
    ensures r.None? <==> forall i :: 0 <= i < |s| ==> !p(s[i])
    ensures r.Some? ==>
      exists i :: 0 <= i < |s| && s[i] == r.value && p(s[i]) && forall j :: 0 <= j < i ==> !p(s[j])
  {
    var i := FindIndex(s, p);
    if i == -1 then None else Some(s[i])
  }

  /** `s.filter(p)`: the elements satisfying `p`, in their original order. */
  function Filter<T(==,!new)>(s: seq<T>, p: T -> bool): (r: seq<T>)
    ensures |r| <= |s|
    ensures forall x :: multiset(r)[x] == if p(x) then multiset(s)[x] else 0
  {
    if |s| == 0 then []
    else
      assert s == [s[0]] + s[1..];
      (if p(s[0]) then [s[0]] else []) + Filter(s[1..], p)
  }

  /**
   * `const i = s.findIndex(p); if (i !== -1) { s[i] = f(s[i]); }`: only the
   * first element satisfying `p` is replaced; every other slot is kept.
   */
  function UpdateFirst<T>(s: seq<T>, p: T -> bool, f: T -> T): (r: seq<T>)
    ensures |r| == |s|
    ensures forall i :: 0 <= i < |s| ==>
      r[i] == if p(s[i]) && (forall j :: 0 <= j < i ==> !p(s[j])) then f(s[i]) else s[i]
  {
    var i := FindIndex(s, p);
    if i == -1 then s else s[i := f(s[i])]
  }

  /** An element is in the filtered list exactly when it is in the input and accepted. */
  lemma FilterMembers<T(!new)>(s: seq<T>, p: T -> bool)
    ensures forall x :: x in Filter(s, p) <==> x in s && p(x)
  {
    forall x
      ensures x in Filter(s, p) <==> x in s && p(x)
    {
      assert x in Filter(s, p) <==> multiset(Filter(s, p))[x] > 0;
      assert x in s <==> multiset(s)[x] > 0;
    }
  }

  /** Filtering distributes over concatenation: the kept elements stay in order. */
  lemma {:induction false} FilterConcat<T(!new)>(a: seq<T>, b: seq<T>, p: T -> bool)
    ensures Filter(a + b, p) == Filter(a, p) + Filter(b, p)
  {
    if |a| == 0 {
      assert a + b == b;
    } else {
      assert (a + b)[1..] == a[1..] + b;
      FilterConcat(a[1..], b, p);
    }
  }

  /** When every element is accepted, `filter` returns the sequence itself. */
  lemma {:induction false} FilterAllAccepted<T(!new)>(s: seq<T>, p: T -> bool)
    requires forall i :: 0 <= i < |s| ==> p(s[i])
    ensures Filter(s, p) == s
  {
    if |s| != 0 {
      FilterAllAccepted(s[1..], p);
    }
  }

  /** `filter` shrinks the sequence exactly when some element is rejected. */
  lemma {:induction false} FilterShrinks<T(!new)>(s: seq<T>, p: T -> bool)
    ensures |Filter(s, p)| < |s| <==> exists i :: 0 <= i < |s| && !p(s[i])
  {
    if |s| != 0 {
      FilterShrinks(s[1..], p);
      if !p(s[0]) {
        assert 0 <= 0 < |s| && !p(s[0]);
      } else if exists i :: 0 <= i < |s[1..]| && !p(s[1..][i]) {
        var i :| 0 <= i < |s[1..]| && !p(s[1..][i]);
        assert !p(s[i + 1]);
      } else {
        assert forall i :: 0 <= i < |s| ==> p(s[i]) by {
          forall i | 0 <= i < |s| ensures p(s[i]) {
            if i > 0 { assert s[i] == s[1..][i - 1]; }
          }
        }
      }
    }
  }

  /** Two rejected elements make `filter` drop at least two. */
  lemma {:induction false} FilterDropsBoth<T(!new)>(s: seq<T>, p: T -> bool, i: nat, j: nat)
    requires i < j < |s| && !p(s[i]) && !p(s[j])
    ensures |Filter(s, p)| + 2 <= |s|
  {
    if i == 0 {
      assert !p(s[1..][j - 1]);
      FilterShrinks(s[1..], p);
    } else {
      FilterDropsBoth(s[1..], p, i - 1, j - 1);
    }
  }

  /** Applying the same filter twice is the same as applying it once. */
  lemma FilterIdempotent<T(!new)>(s: seq<T>, p: T -> bool)
    ensures Filter(Filter(s, p), p) == Filter(s, p)
  {
    FilterMembers(s, p);
    FilterAllAccepted(Filter(s, p), p);
  }

  /**
   * `find` over a sequence extended at the end: a match already present
   * shadows the new element, otherwise the new element is found when it matches.
   */
  lemma FindAfterAppend<T(!new)>(s: seq<T>, x: T, p: T -> bool)
    ensures (exists i :: 0 <= i < |s| && p(s[i])) ==> Find(s + [x], p) == Find(s, p)
    ensures (forall i :: 0 <= i < |s| ==> !p(s[i])) ==> Find(s + [x], p) == if p(x) then Some(x) else None
  {
    var t := s + [x];
    assert forall i :: 0 <= i < |s| ==> t[i] == s[i];
    assert t[|s|] == x;
  }
}
