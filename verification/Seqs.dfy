/** Sequences filtered in place. */
module Seqs {
  function Retain<T>(s: seq<T>, p: T -> bool): (r: seq<T>)
    ensures |r| <= |s|
  {
    if s == [] then []
    else Retain(s[..|s| - 1], p) + (if p(s[|s| - 1]) then [s[|s| - 1]] else [])
  }

  lemma {:induction false} RetainOf<T>(s: seq<T>, p: T -> bool, x: T)
    ensures x in Retain(s, p) <==> x in s && p(x)
    decreases |s|
  {
    if s != [] {
      RetainOf(s[..|s| - 1], p, x);
      assert s == s[..|s| - 1] + [s[|s| - 1]];
    }
  }

  lemma {:induction false} RetainAll<T>(s: seq<T>, p: T -> bool)
    requires forall x | x in s :: p(x)
    ensures Retain(s, p) == s
    decreases |s|
  {
    if s != [] {
      assert s == s[..|s| - 1] + [s[|s| - 1]];
      RetainAll(s[..|s| - 1], p);
    }
  }

  lemma {:induction false} RetainJoin<T>(s: seq<T>, t: seq<T>, p: T -> bool)
    ensures Retain(s + t, p) == Retain(s, p) + Retain(t, p)
    decreases |t|
  {
    if t == [] {
      assert s + t == s;
    } else {
      assert (s + t)[..|s + t| - 1] == s + t[..|t| - 1];
      RetainJoin(s, t[..|t| - 1], p);
    }
  }

  /** No two elements, in either order of places, clash. */
  predicate Apart<T(!new)>(s: seq<T>, clash: (T, T) -> bool) {
    forall i, j | 0 <= i < j < |s| :: !clash(s[i], s[j])
  }

  lemma {:induction false} RetainApart<T(!new)>(s: seq<T>, p: T -> bool, clash: (T, T) -> bool)
    requires Apart(s, clash)
    ensures Apart(Retain(s, p), clash)
    decreases |s|
  {
    if s != [] {
      var init, x := s[..|s| - 1], s[|s| - 1];
      RetainApart(init, p, clash);
      var r := Retain(init, p);
      forall i | 0 <= i < |r| ensures !clash(r[i], x) {
        RetainOf(init, p, r[i]);
      }
    }
  }

  function Cut<T>(s: seq<T>, i: nat): (r: seq<T>)
    requires i < |s|
    ensures |r| == |s| - 1
  {
    s[..i] + s[i + 1..]
  }

  lemma CutOf<T>(s: seq<T>, i: nat, x: T)
    requires i < |s|
    ensures x in Cut(s, i) ==> x in s
    ensures x in s ==> x == s[i] || x in Cut(s, i)
  {
    if x in s {
      var k :| 0 <= k < |s| && s[k] == x;
      if k < i {
        assert Cut(s, i)[k] == x;
      } else if k > i {
        assert Cut(s, i)[k - 1] == x;
      }
    }
  }

  lemma CutApart<T(!new)>(s: seq<T>, i: nat, clash: (T, T) -> bool)
    requires i < |s| && Apart(s, clash)
    ensures Apart(Cut(s, i), clash)
  {}

  lemma CutRetain<T>(s: seq<T>, i: nat, p: T -> bool)
    requires i < |s| && !p(s[i])
    ensures Retain(Cut(s, i), p) == Retain(s, p)
  {
    hide Retain;
    var a, b := s[..i], s[i + 1..];
    assert s == a + ([s[i]] + b);
    RetainJoin(a, b, p);
    RetainJoin(a, [s[i]] + b, p);
    RetainJoin([s[i]], b, p);
    RetainOne(s[i], p);
    assert [] + Retain(b, p) == Retain(b, p);
  }

  lemma RetainOne<T>(x: T, p: T -> bool)
    ensures Retain([x], p) == if p(x) then [x] else []
  {
    assert [x][..0] == [];
    assert Retain([x], p) == Retain([], p) + (if p(x) then [x] else []);
  }

  lemma UpdateRetain<T>(s: seq<T>, i: nat, x: T, p: T -> bool)
    requires i < |s| && !p(s[i]) && !p(x)
    ensures Retain(s[i := x], p) == Retain(s, p)
  {
    CutRetain(s, i, p);
    CutRetain(s[i := x], i, p);
    assert Cut(s[i := x], i) == Cut(s, i);
  }

  lemma AppendApart<T(!new)>(s: seq<T>, x: T, clash: (T, T) -> bool)
    requires Apart(s, clash) && forall i | 0 <= i < |s| :: !clash(s[i], x)
    ensures Apart(s + [x], clash)
  {}

  /** Elements that p accepts survive a filter that keeps at least them. */
  lemma {:induction false} RetainTwice<T>(s: seq<T>, q: T -> bool, p: T -> bool)
    requires forall x | x in s && p(x) :: q(x)
    ensures Retain(Retain(s, q), p) == Retain(s, p)
    decreases |s|
  {
    if s != [] {
      var init, x := s[..|s| - 1], s[|s| - 1];
      assert s == init + [x];
      RetainTwice(init, q, p);
      RetainJoin(Retain(init, q), if q(x) then [x] else [], p);
      RetainOne(x, p);
    }
  }

  lemma {:induction false} RetainNone<T>(s: seq<T>, p: T -> bool)
    requires forall x | x in s :: !p(x)
    ensures Retain(s, p) == []
    decreases |s|
  {
    if s != [] {
      assert s[|s| - 1] in s;
      RetainNone(s[..|s| - 1], p);
    }
  }
}
