/** Total orders, and the one increasing list of a finite set.  The source keeps expert keys in
    ordered maps and sorts Worker identities; here both become `SortSet` under the matching order. */
module Ordering {

  ghost predicate TotalOrder<T(!new)>(le: (T, T) -> bool) {
    && (forall x :: le(x, x))
    && (forall x, y :: le(x, y) || le(y, x))
    && (forall x, y :: le(x, y) && le(y, x) ==> x == y)
    && (forall x, y, z :: le(x, y) && le(y, z) ==> le(x, z))
  }

  ghost predicate NoDuplicates<T>(s: seq<T>) {
    forall i, j :: 0 <= i < j < |s| ==> s[i] != s[j]
  }

  ghost predicate Increasing<T>(s: seq<T>, le: (T, T) -> bool) {
    forall i, j :: 0 <= i < j < |s| ==> s[i] != s[j] && le(s[i], s[j])
  }

  ghost predicate IsLeast<T>(s: set<T>, le: (T, T) -> bool, x: T) {
    x in s && forall y :: y in s ==> le(x, y)
  }

  lemma {:induction false} LeastExists<T(!new)>(s: set<T>, le: (T, T) -> bool)
    requires s != {} && TotalOrder(le)
    ensures exists x :: IsLeast(s, le, x)
    decreases |s|
  {
    var x :| x in s;
    if s == {x} {
      assert IsLeast(s, le, x);
    } else {
      var rest := s - {x};
      LeastExists(rest, le);
      var m :| IsLeast(rest, le, m);
      assert forall y :: y in s ==> y == x || y in rest;
      assert IsLeast(s, le, if le(x, m) then x else m);
    }
  }

  function Least<T(!new)>(s: set<T>, le: (T, T) -> bool): (least: T)
    requires s != {} && TotalOrder(le)
    ensures IsLeast(s, le, least)
  {
    LeastExists(s, le);
    assert exists x :: IsLeast(s, le, x);
    var least :| least in s && forall y :: y in s ==> le(least, y);
    least
  }

  /** The elements of `s`, each once, in increasing order. */
  function SortSet<T(!new)>(s: set<T>, le: (T, T) -> bool): (r: seq<T>)
    requires TotalOrder(le)
    ensures forall x :: x in r <==> x in s
    ensures |r| == |s|
    ensures Increasing(r, le)
    decreases |s|
  {
    if s == {} then
      []
    else
      var least := Least(s, le);
      var rest := SortSet(s - {least}, le);
      SortStep(s, le, least, rest);
      [least] + rest
  }

  lemma SortStep<T(!new)>(s: set<T>, le: (T, T) -> bool, least: T, rest: seq<T>)
    requires IsLeast(s, le, least) && Increasing(rest, le) && |rest| == |s| - 1 && forall x :: x in rest <==> x in s && x != least
    ensures Increasing([least] + rest, le) && forall x :: x in [least] + rest <==> x in s
  {
    forall i | 0 <= i < |rest| ensures least != rest[i] && le(least, rest[i]) { assert rest[i] in rest; }
  }

  predicate NatLe(a: nat, b: nat) { a <= b }

  lemma NatOrder()
    ensures TotalOrder(NatLe)
  {
  }

  /** Worker identities and host names compare like byte strings. */
  predicate StringLe(a: string, b: string) {
    a == "" || (b != "" && (a[0] < b[0] || (a[0] == b[0] && StringLe(a[1..], b[1..]))))
  }

  lemma StringLeAntisymmetric(a: string, b: string)
    requires StringLe(a, b) && StringLe(b, a)
    ensures a == b
  {
    if a != "" && b != "" {
      StringLeAntisymmetric(a[1..], b[1..]);
      assert a == [a[0]] + a[1..] && b == [b[0]] + b[1..];
    }
  }

  lemma StringLeTransitive(a: string, b: string, c: string)
    requires StringLe(a, b) && StringLe(b, c)
    ensures StringLe(a, c)
  {
    if a != "" && a[0] == b[0] && b[0] == c[0] {
      StringLeTransitive(a[1..], b[1..], c[1..]);
    }
  }

  lemma StringLeTotal(a: string, b: string)
    ensures StringLe(a, b) || StringLe(b, a)
  {
  }

  lemma StringOrder()
    ensures TotalOrder(StringLe)
  {
    forall a, b ensures StringLe(a, b) || StringLe(b, a) { StringLeTotal(a, b); }
    forall a ensures StringLe(a, a) { StringLeTotal(a, a); }
    forall a, b | StringLe(a, b) && StringLe(b, a) ensures a == b { StringLeAntisymmetric(a, b); }
    forall a, b, c | StringLe(a, b) && StringLe(b, c) ensures StringLe(a, c) { StringLeTransitive(a, b, c); }
  }

  lemma NonemptyHasMember<T>(t: seq<T>)
    ensures t == [] || exists x :: x in t
  {
    if t != [] { assert t[0] in t; }
  }

  /** Two increasing lists with the same members are the same list. */
  lemma {:induction false} IncreasingUnique<T(!new)>(s: seq<T>, t: seq<T>, le: (T, T) -> bool)
    requires TotalOrder(le)
    requires Increasing(s, le) && Increasing(t, le)
    requires forall x :: x in s <==> x in t
    ensures s == t
    decreases |s|
  {
    if s == [] {
      NonemptyHasMember(t);
    } else {
      assert s[0] in t && t != [];
      assert t[0] in s;
      var i :| 0 <= i < |s| && s[i] == t[0];
      var j :| 0 <= j < |t| && t[j] == s[0];
      assert le(s[0], s[i]) && le(t[0], t[j]);
      assert s[0] == t[0];
      forall x ensures x in s[1..] <==> x in t[1..] {
        assert x in s <==> x == s[0] || x in s[1..];
        assert x in t <==> x == t[0] || x in t[1..];
        if x in s[1..] { assert x != s[0]; }
        if x in t[1..] { assert x != t[0]; }
      }
      IncreasingUnique(s[1..], t[1..], le);
      assert s == [s[0]] + s[1..] && t == [t[0]] + t[1..];
    }
  }
}

/** Order of products; products of two variables are costly to reason about, so it is done here once. */
module Arithmetic {

  lemma {:induction false} MulOrder(a: nat, b: nat, m: nat)
    requires a < b
    ensures a * m + m <= b * m
  {
    if a + 1 < b { MulOrder(a, b - 1, m); }
    assert b * m == (b - 1) * m + m;
  }
}

/** Weighted sums over a list. */
module Sums {

  function Total<T>(s: seq<T>, weight: T -> nat): nat {
    if s == [] then 0 else weight(s[0]) + Total(s[1..], weight)
  }

  function Cut<T>(s: seq<T>, i: nat): seq<T>
    requires i < |s|
  {
    s[..i] + s[i + 1..]
  }

  lemma {:induction false} TotalAdds<T>(a: seq<T>, b: seq<T>, weight: T -> nat)
    ensures Total(a + b, weight) == Total(a, weight) + Total(b, weight)
    decreases |a|
  {
    if a == [] {
      assert a + b == b;
    } else {
      assert (a + b)[1..] == a[1..] + b;
      TotalAdds(a[1..], b, weight);
    }
  }

  lemma TotalOne<T>(x: T, weight: T -> nat)
    ensures Total([x], weight) == weight(x)
  {
  }

  lemma {:induction false} TotalCut<T>(s: seq<T>, i: nat, weight: T -> nat)
    requires i < |s|
    ensures Total(s, weight) == Total(Cut(s, i), weight) + weight(s[i])
  {
    var front, mid, back := s[..i], [s[i]], s[i + 1..];
    assert s == front + (mid + back);
    TotalAdds(front, mid + back, weight);
    TotalAdds(mid, back, weight);
    TotalAdds(front, back, weight);
    TotalOne(s[i], weight);
  }

  lemma CutMembers<T>(s: seq<T>, i: nat)
    requires i < |s|
    ensures forall x :: x in s <==> x in Cut(s, i) || x == s[i]
  {
    assert s == s[..i] + [s[i]] + s[i + 1..];
  }
}
