/** Stock containers and the sequence operations the relational model is built from. */
module Sequences {
  datatype Option<+T> = None | Some(value: T)

  datatype Result<+T, +E> = Ok(value: T) | Err(error: E) {
    predicate IsFailure() {
      Err?
    }

    function PropagateFailure<U>(): Result<U, E>
      requires Err?
    {
      Err(error)
    }

    function Extract(): T
      requires Ok?
    {
      value
    }
  }

  ghost predicate NoDup<T>(s: seq<T>) {
    forall i, j :: 0 <= i < j < |s| ==> s[i] != s[j]
  }

  ghost function Elements<T>(s: seq<T>): set<T> {
    set x | x in s
  }

  lemma HeadTail<T>(s: seq<T>)
    requires s != []
    ensures [s[0]] + s[1..] == s
  {
  }

  lemma Assoc<T>(a: seq<T>, b: seq<T>, c: seq<T>)
    ensures (a + b) + c == a + (b + c)
  {
  }

  lemma NonEmptyHasMember<T(!new)>(s: seq<T>)
    ensures s != [] <==> exists x :: x in s
  {
    if s != [] {
      assert s[0] in s;
    }
  }

  // ----- filtering -----

  /** The elements of `s` that satisfy `p`, in order. */
  function Filter<T>(p: T -> bool, s: seq<T>): seq<T> {
    if s == [] then [] else (if p(s[0]) then [s[0]] else []) + Filter(p, s[1..])
  }

  function Both<T>(q: T -> bool, p: T -> bool): T -> bool {
    x => q(x) && p(x)
  }

  lemma FilterCons<T>(p: T -> bool, s: seq<T>)
    requires s != []
    ensures Filter(p, s) == (if p(s[0]) then [s[0]] else []) + Filter(p, s[1..])
  {
  }

  lemma {:induction false} FilterHas<T(!new)>(p: T -> bool, s: seq<T>)
    ensures forall x :: x in Filter(p, s) <==> x in s && p(x)
  {
    if s == [] {
      return;
    }
    FilterHas(p, s[1..]);
    FilterCons(p, s);
    hide Filter;
    var rest := Filter(p, s[1..]);
    assert forall x :: x in s <==> x == s[0] || x in s[1..];
    assert forall x :: x in [s[0]] + rest <==> x == s[0] || x in rest;
  }

  lemma {:induction false} FilterNoDup<T(!new)>(p: T -> bool, s: seq<T>)
    requires NoDup(s)
    ensures NoDup(Filter(p, s))
  {
    if s == [] {
      return;
    }
    FilterNoDup(p, s[1..]);
    FilterHas(p, s[1..]);
    FilterCons(p, s);
    hide Filter;
    assert s[0] !in s[1..];
    assert s[0] !in Filter(p, s[1..]);
  }

  /** Filtering depends only on what the predicate says of the elements present. */
  lemma {:induction false} FilterCong<T(!new)>(p: T -> bool, q: T -> bool, s: seq<T>)
    requires forall x :: x in s ==> p(x) == q(x)
    ensures Filter(p, s) == Filter(q, s)
  {
    if s != [] {
      FilterCong(p, q, s[1..]);
    }
  }

  lemma {:induction false} FilterAll<T(!new)>(p: T -> bool, s: seq<T>)
    requires forall x :: x in s ==> p(x)
    ensures Filter(p, s) == s
  {
    if s != [] {
      FilterAll(p, s[1..]);
      HeadTail(s);
    }
  }

  /** Filtering twice is filtering once by the conjunction. */
  lemma {:induction false} FilterFilter<T>(p: T -> bool, q: T -> bool, s: seq<T>)
    ensures Filter(p, Filter(q, s)) == Filter(Both(q, p), s)
  {
    if s == [] {
      return;
    }
    FilterFilter(p, q, s[1..]);
    var rest := Filter(q, s[1..]);
    FilterCons(q, s);
    FilterCons(Both(q, p), s);
    if q(s[0]) {
      assert ([s[0]] + rest)[1..] == rest;
      FilterCons(p, [s[0]] + rest);
    } else {
      assert [] + rest == rest;
    }
  }

  lemma {:induction false} FilterAppend<T>(p: T -> bool, s: seq<T>, t: seq<T>)
    ensures Filter(p, s + t) == Filter(p, s) + Filter(p, t)
  {
    if s == [] {
      assert s + t == t;
      return;
    }
    hide *;
    FilterAppend(p, s[1..], t);
    assert (s + t)[0] == s[0] && (s + t)[1..] == s[1..] + t;
    FilterCons(p, s + t);
    FilterCons(p, s);
  }

  lemma FilterSnoc<T>(p: T -> bool, s: seq<T>, x: T)
    ensures Filter(p, s + [x]) == if p(x) then Filter(p, s) + [x] else Filter(p, s)
  {
    FilterAppend(p, s, [x]);
    FilterCons(p, [x]);
    assert Filter(p, [x]) == if p(x) then [x] else [];
    hide Filter;
    assert Filter(p, s) + [] == Filter(p, s);
  }

  lemma {:induction false} FilterSize<T>(p: T -> bool, s: seq<T>)
    ensures |Filter(p, s)| <= |s|
  {
    if s != [] {
      FilterSize(p, s[1..]);
    }
  }

  lemma {:induction false} FilterKeepsAllButLast<T(!new)>(p: T -> bool, s: seq<T>)
    requires s != [] && !p(s[|s| - 1])
    requires forall i :: 0 <= i < |s| - 1 ==> p(s[i])
    ensures Filter(p, s) == s[..|s| - 1]
  {
    var front, last := s[..|s| - 1], s[|s| - 1];
    assert s == front + [last];
    FilterAppend(p, front, [last]);
    FilterAll(p, front);
    FilterCons(p, [last]);
  }

  // ----- mapping -----

  function Map<T, U>(f: T -> U, s: seq<T>): (r: seq<U>)
    ensures |r| == |s|
  {
    if s == [] then [] else [f(s[0])] + Map(f, s[1..])
  }

  lemma {:induction false} MapAt<T, U>(f: T -> U, s: seq<T>, i: nat)
    requires i < |s|
    ensures Map(f, s)[i] == f(s[i])
  {
    if i > 0 {
      MapAt(f, s[1..], i - 1);
    }
  }

  lemma MapHas<T(!new), U(!new)>(f: T -> U, s: seq<T>)
    ensures forall y :: y in Map(f, s) <==> exists x :: x in s && f(x) == y
  {
    hide Map;
    forall i | 0 <= i < |s|
      ensures Map(f, s)[i] == f(s[i]) && s[i] in s
    {
      MapAt(f, s, i);
    }
    forall x | x in s
      ensures f(x) in Map(f, s)
    {
      var i :| 0 <= i < |s| && s[i] == x;
      assert Map(f, s)[i] == f(x);
    }
  }

  lemma {:induction false} MapCong<T, U>(f: T -> U, g: T -> U, s: seq<T>)
    requires forall x :: x in s ==> f(x) == g(x)
    ensures Map(f, s) == Map(g, s)
  {
    if s != [] {
      MapCong(f, g, s[1..]);
    }
  }

  lemma FilterNone<T(!new)>(p: T -> bool, s: seq<T>)
    requires forall x :: x in s ==> !p(x)
    ensures Filter(p, s) == []
  {
    FilterHas(p, s);
    NonEmptyHasMember(Filter(p, s));
  }

  lemma {:induction false} FilterMap<T(!new), U(!new)>(p: U -> bool, f: T -> U, q: T -> bool, s: seq<T>)
    requires forall x :: x in s ==> q(x) == p(f(x))
    ensures Filter(p, Map(f, s)) == Map(f, Filter(q, s))
  {
    if s != [] {
      FilterMap(p, f, q, s[1..]);
      FilterCons(p, Map(f, s));
      FilterCons(q, s);
      assert Map(f, s) == [f(s[0])] + Map(f, s[1..]);
      assert Map(f, s)[1..] == Map(f, s[1..]);
      if q(s[0]) {
        assert Map(f, [s[0]] + Filter(q, s[1..])) == [f(s[0])] + Map(f, Filter(q, s[1..]));
      } else {
        assert [] + Filter(q, s[1..]) == Filter(q, s[1..]);
        assert [] + Filter(p, Map(f, s[1..])) == Filter(p, Map(f, s[1..]));
      }
    }
  }

  lemma {:induction false} MapMap<T, U, V>(g: U -> V, f: T -> U, h: T -> V, s: seq<T>)
    requires forall x :: x in s ==> g(f(x)) == h(x)
    ensures Map(g, Map(f, s)) == Map(h, s)
  {
    if s != [] {
      MapMap(g, f, h, s[1..]);
      assert Map(f, s)[1..] == Map(f, s[1..]);
    }
  }

  lemma MapCons<T, U>(f: T -> U, s: seq<T>)
    requires s != []
    ensures Map(f, s) == [f(s[0])] + Map(f, s[1..])
  {
  }

  lemma {:induction false} MapAppend<T, U>(f: T -> U, s: seq<T>, t: seq<T>)
    ensures Map(f, s + t) == Map(f, s) + Map(f, t)
  {
    if s == [] {
      assert s + t == t;
      return;
    }
    MapCons(f, s);
    MapCons(f, s + t);
    hide *;
    MapAppend(f, s[1..], t);
    assert (s + t)[0] == s[0] && (s + t)[1..] == s[1..] + t;
  }

  // ----- DISTINCT -----

  function Differs<T(==)>(x: T): T -> bool {
    y => y != x
  }

  /** `s` with all but the first occurrence of each element removed. */
  function Distinct<T(==)>(s: seq<T>): seq<T> {
    if s == [] then [] else [s[0]] + Filter(Differs(s[0]), Distinct(s[1..]))
  }

  lemma {:induction false} DistinctIs<T(!new)>(s: seq<T>)
    ensures NoDup(Distinct(s))
    ensures forall x :: x in Distinct(s) <==> x in s
  {
    if s == [] {
      return;
    }
    DistinctIs(s[1..]);
    var rest := Filter(Differs(s[0]), Distinct(s[1..]));
    FilterNoDup(Differs(s[0]), Distinct(s[1..]));
    FilterHas(Differs(s[0]), Distinct(s[1..]));
    assert Distinct(s) == [s[0]] + rest;
    hide Distinct, Filter;
    assert s[0] !in rest;
    assert forall x :: x in [s[0]] + rest <==> x == s[0] || x in rest;
    assert forall x :: x in s <==> x == s[0] || x in s[1..];
  }

  lemma {:induction false} NoDupSize<T(!new)>(s: seq<T>)
    requires NoDup(s)
    ensures |Elements(s)| == |s|
  {
    if s != [] {
      NoDupSize(s[1..]);
      assert Elements(s) == {s[0]} + Elements(s[1..]);
      assert s[0] !in s[1..];
    }
  }
}
