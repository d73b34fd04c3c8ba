/** The array methods the app's updates are written with: `find`, `map`
    and `filter`, over immutable sequences. */
module Seqs {
  import opened Base

  /** `s[i]` is the first element satisfying `p`. */
  ghost predicate FirstAt<T>(s: seq<T>, p: T -> bool, i: int) {
    && 0 <= i < |s|
    && p(s[i])
    && forall j | 0 <= j < i :: !p(s[j])
  }

  /** `s.find(p)`: the first element satisfying `p`, if there is one. */
  function Find<T>(s: seq<T>, p: T -> bool): (r: Option<T>)
    ensures r.None? <==> forall i | 0 <= i < |s| :: !p(s[i])
    ensures r.Some? ==> exists i :: FirstAt(s, p, i) && s[i] == r.value
  {
    if s == [] then None
    else if p(s[0]) then
      assert FirstAt(s, p, 0);
      Some(s[0])
    else
      FirstAtShift(s, p);
      Find(s[1..], p)
  }

  /** Past an element that fails `p`, first positions move one place. */
  lemma FirstAtShift<T>(s: seq<T>, p: T -> bool)
    requires s != [] && !p(s[0])
    ensures forall i :: FirstAt(s[1..], p, i) ==> FirstAt(s, p, i + 1)
  {
    forall i | FirstAt(s[1..], p, i)
      ensures FirstAt(s, p, i + 1)
    {
      forall j | 0 <= j < i + 1 ensures !p(s[j]) {
        if j > 0 {
          assert s[j] == s[1..][j - 1];
        }
      }
    }
  }

  /** When at most one element satisfies `p`, `find` returns that element. */
  lemma FindUnique<T>(s: seq<T>, p: T -> bool, k: int)
    requires 0 <= k < |s| && p(s[k])
    requires forall i | 0 <= i < |s| && i != k :: !p(s[i])
    ensures Find(s, p) == Some(s[k])
  {
    var i :| FirstAt(s, p, i) && s[i] == Find(s, p).value;
  }

  /** `s.map(f)`. */
  function Map<T, U>(s: seq<T>, f: T -> U): (r: seq<U>)
    ensures |r| == |s|
    ensures forall i | 0 <= i < |s| :: r[i] == f(s[i])
  {
    seq(|s|, i requires 0 <= i < |s| => f(s[i]))
  }

  /** `s.filter(p)`: the elements satisfying `p`, in their order. */
  function Filter<T>(s: seq<T>, p: T -> bool): (r: seq<T>)
    ensures |r| <= |s|
    ensures forall i | 0 <= i < |r| :: p(r[i])
  {
    if s == [] then []
    else
      assert s == [s[0]] + s[1..];
      (if p(s[0]) then [s[0]] else []) + Filter(s[1..], p)
  }

  /** Filtering keeps everything when every element passes. */
  lemma {:induction false} FilterKeepsAll<T>(s: seq<T>, p: T -> bool)
    requires forall i | 0 <= i < |s| :: p(s[i])
    ensures Filter(s, p) == s
  {
    if s != [] {
      FilterKeepsAll(s[1..], p);
    }
  }

  /** An element is kept exactly when it occurs in `s` and passes. */
  lemma {:induction false} FilterMembers<T>(s: seq<T>, p: T -> bool)
    ensures forall x :: x in Filter(s, p) <==> x in s && p(x)
  {
    if s != [] {
      FilterMembers(s[1..], p);
      assert s == [s[0]] + s[1..];
    }
  }

  /** The multiset of kept elements: each element of `s` that passes, as
      often as it occurs. */
  lemma {:induction false} FilterMultiset<T>(s: seq<T>, p: T -> bool, x: T)
    ensures multiset(Filter(s, p))[x] == if p(x) then multiset(s)[x] else 0
  {
    if s != [] {
      FilterMultiset(s[1..], p, x);
      assert s == [s[0]] + s[1..];
    }
  }

  /** Filtering out exactly the element at `k` removes it and keeps the
      others in their order. */
  lemma {:induction false} FilterRemovesOne<T>(s: seq<T>, p: T -> bool, k: int)
    requires 0 <= k < |s| && !p(s[k])
    requires forall i | 0 <= i < |s| && i != k :: p(s[i])
    ensures Filter(s, p) == s[..k] + s[k + 1..]
  {
    if k == 0 {
      assert forall i | 0 <= i < |s[1..]| :: p(s[1..][i]) by {
        forall i | 0 <= i < |s[1..]| ensures p(s[1..][i]) {
          assert s[1..][i] == s[i + 1];
        }
      }
      FilterKeepsAll(s[1..], p);
    } else {
      FilterRemovesOne(s[1..], p, k - 1);
      assert s[..k] == [s[0]] + s[1..][..k - 1];
      assert s[k + 1..] == s[1..][k..];
    }
  }
}
