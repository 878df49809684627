/** Stable sorting by a comparison, and the bytewise order of texts. */
module Sorting {

  // ----- texts

  predicate AtMost(a: string, b: string) {
    a == "" || (b != "" && (a[0] < b[0] || (a[0] == b[0] && AtMost(a[1..], b[1..]))))
  }

  lemma {:induction false} AtMostAntisymmetric(a: string, b: string)
    requires AtMost(a, b) && AtMost(b, a)
    ensures a == b
  {
    if a != "" {
      AtMostAntisymmetric(a[1..], b[1..]);
      assert a == [a[0]] + a[1..] && b == [b[0]] + b[1..];
    }
  }

  lemma {:induction false} AtMostTotal(a: string, b: string)
    ensures AtMost(a, b) || AtMost(b, a)
  {
    if a != "" && b != "" {
      AtMostTotal(a[1..], b[1..]);
    }
  }

  lemma {:induction false} AtMostTransitive(a: string, b: string, c: string)
    requires AtMost(a, b) && AtMost(b, c)
    ensures AtMost(a, c)
  {
    if a != "" && a[0] == b[0] == c[0] {
      AtMostTransitive(a[1..], b[1..], c[1..]);
    }
  }

  // ----- sorting

  /** Whether the first of two elements may come before the second. */
  type Comparison<!T> = (T, T) -> bool

  /** Of any two elements one may come first, and what may come before a second may come before a third. */
  ghost predicate IsOrder<T(!new)>(le: Comparison<T>) {
    && (forall a, b :: le(a, b) || le(b, a))
    && (forall a, b, c :: le(a, b) && le(b, c) ==> le(a, c))
  }

  ghost predicate InOrder<T>(ts: seq<T>, le: Comparison<T>) {
    forall i, j :: 0 <= i < j < |ts| ==> le(ts[i], ts[j])
  }

  /** Puts an element after those that may come before it. */
  function Insert<T>(ts: seq<T>, t: T, le: Comparison<T>): seq<T> {
    if ts == [] then [t]
    else
      var last := ts[|ts| - 1];
      if le(last, t) then ts + [t] else Insert(ts[..|ts| - 1], t, le) + [last]
  }

  function Sorted<T>(ts: seq<T>, le: Comparison<T>): seq<T> {
    if ts == [] then [] else Insert(Sorted(ts[..|ts| - 1], le), ts[|ts| - 1], le)
  }

  lemma Multisets<T>(ts: seq<T>, t: T)
    ensures multiset(ts + [t]) == multiset(ts) + multiset{t}
  {
  }

  lemma {:induction false} InsertKeeps<T>(ts: seq<T>, t: T, le: Comparison<T>)
    ensures multiset(Insert(ts, t, le)) == multiset(ts) + multiset{t}
  {
    Multisets(ts, t);
    if ts != [] && !le(ts[|ts| - 1], t) {
      var front, last := ts[..|ts| - 1], ts[|ts| - 1];
      InsertKeeps(front, t, le);
      Multisets(Insert(front, t, le), last);
      Multisets(front, last);
      assert ts == front + [last];
    }
  }

  lemma {:induction false} InsertBelow<T>(ts: seq<T>, t: T, le: Comparison<T>, bound: T)
    requires le(t, bound) && forall i :: 0 <= i < |ts| ==> le(ts[i], bound)
    ensures forall i :: 0 <= i < |Insert(ts, t, le)| ==> le(Insert(ts, t, le)[i], bound)
  {
    if ts != [] {
      InsertBelow(ts[..|ts| - 1], t, le, bound);
    }
  }

  lemma {:induction false} InsertInOrder<T(!new)>(ts: seq<T>, t: T, le: Comparison<T>)
    requires IsOrder(le) && InOrder(ts, le)
    ensures InOrder(Insert(ts, t, le), le)
  {
    if ts != [] {
      var last, front := ts[|ts| - 1], ts[..|ts| - 1];
      if !le(last, t) {
        InsertInOrder(front, t, le);
        InsertBelow(front, t, le, last);
      }
    }
  }

  lemma {:induction false} SortedKeeps<T>(ts: seq<T>, le: Comparison<T>)
    ensures multiset(Sorted(ts, le)) == multiset(ts)
  {
    if ts != [] {
      var front, last := ts[..|ts| - 1], ts[|ts| - 1];
      SortedKeeps(front, le);
      InsertKeeps(Sorted(front, le), last, le);
      assert ts == front + [last];
    }
  }

  lemma {:induction false} SortedInOrder<T(!new)>(ts: seq<T>, le: Comparison<T>)
    requires IsOrder(le)
    ensures InOrder(Sorted(ts, le), le)
  {
    if ts != [] {
      SortedInOrder(ts[..|ts| - 1], le);
      InsertInOrder(Sorted(ts[..|ts| - 1], le), ts[|ts| - 1], le);
    }
  }

  // ----- elements that may stand in either order

  predicate Tied<T>(a: T, b: T, le: Comparison<T>) {
    le(a, b) && le(b, a)
  }

  /** The elements that tie with `t`, as they stand. */
  function TiedWith<T>(ts: seq<T>, t: T, le: Comparison<T>): seq<T> {
    if ts == [] then []
    else TiedWith(ts[..|ts| - 1], t, le) + if Tied(ts[|ts| - 1], t, le) then [ts[|ts| - 1]] else []
  }

  lemma TiedAppend<T>(ts: seq<T>, x: T, t: T, le: Comparison<T>)
    ensures TiedWith(ts + [x], t, le) == TiedWith(ts, t, le) + if Tied(x, t, le) then [x] else []
  {
    assert (ts + [x])[..|ts|] == ts;
  }

  lemma {:induction false} InsertTied<T(!new)>(ts: seq<T>, x: T, t: T, le: Comparison<T>)
    requires IsOrder(le)
    ensures TiedWith(Insert(ts, x, le), t, le) == TiedWith(ts, t, le) + if Tied(x, t, le) then [x] else []
  {
    TiedAppend(ts, x, t, le);
    if ts == [] {
      assert ts + [x] == [x];
    } else if !le(ts[|ts| - 1], x) {
      var last, front := ts[|ts| - 1], ts[..|ts| - 1];
      InsertTied(front, x, t, le);
      TiedAppend(Insert(front, x, le), last, t, le);
    }
  }

  /** Sorting keeps the order of elements that tie. */
  lemma {:induction false} SortedIsStable<T(!new)>(ts: seq<T>, t: T, le: Comparison<T>)
    requires IsOrder(le)
    ensures TiedWith(Sorted(ts, le), t, le) == TiedWith(ts, t, le)
  {
    if ts != [] {
      SortedIsStable(ts[..|ts| - 1], t, le);
      InsertTied(Sorted(ts[..|ts| - 1], le), ts[|ts| - 1], t, le);
    }
  }

  lemma {:induction false} TiedIn<T>(ts: seq<T>, t: T, le: Comparison<T>)
    ensures forall x <- TiedWith(ts, t, le) :: x in ts && Tied(x, t, le)
    ensures forall x <- ts :: Tied(x, t, le) ==> x in TiedWith(ts, t, le)
  {
    if ts != [] {
      TiedIn(ts[..|ts| - 1], t, le);
    }
  }

  lemma {:induction false} TiedInOrder<T>(ts: seq<T>, t: T, le: Comparison<T>, order: Comparison<T>)
    requires InOrder(ts, order)
    ensures InOrder(TiedWith(ts, t, le), order)
  {
    if ts != [] {
      var front := ts[..|ts| - 1];
      var tied := TiedWith(front, t, le);
      TiedInOrder(front, t, le, order);
      TiedIn(front, t, le);
      forall i | 0 <= i < |tied| ensures order(tied[i], ts[|ts| - 1]) {
        assert tied[i] in front;
      }
    }
  }

  /** Nothing that ties with the last of `b` is missing in `a`, so the last of `a` does not come before it. */
  lemma LastNotBefore<T(!new)>(a: seq<T>, b: seq<T>, le: Comparison<T>)
    requires IsOrder(le) && InOrder(a, le) && b != []
    requires TiedWith(a, b[|b| - 1], le) == TiedWith(b, b[|b| - 1], le)
    ensures a != [] && le(b[|b| - 1], a[|a| - 1])
  {
    var last := b[|b| - 1];
    TiedIn(b, last, le);
    TiedIn(a, last, le);
    var x :| x in TiedWith(a, last, le);
    var i :| 0 <= i < |a| && a[i] == x;
    assert le(last, x) && le(x, a[|a| - 1]);
  }

  /** The same elements tie, in the same order. */
  ghost predicate TiedAlike<T(!new)>(a: seq<T>, b: seq<T>, le: Comparison<T>) {
    forall t :: TiedWith(a, t, le) == TiedWith(b, t, le)
  }

  /** There is one way to put elements in order that keeps those that tie as they are. */
  lemma {:induction false} OneStableOrder<T(!new)>(a: seq<T>, b: seq<T>, le: Comparison<T>)
    requires IsOrder(le) && InOrder(a, le) && InOrder(b, le) && TiedAlike(a, b, le)
    ensures a == b
  {
    if a == [] && b != [] {
      LastNotBefore(a, b, le);
    } else if a != [] {
      LastNotBefore(b, a, le);
      LastsEqual(a, b, le);
      FrontsTied(a, b, le);
      OneStableOrder(a[..|a| - 1], b[..|b| - 1], le);
      assert a == a[..|a| - 1] + [a[|a| - 1]] && b == b[..|b| - 1] + [b[|b| - 1]];
    }
  }

  lemma FrontsTied<T(!new)>(a: seq<T>, b: seq<T>, le: Comparison<T>)
    requires a != [] && b != [] && a[|a| - 1] == b[|b| - 1] && TiedAlike(a, b, le)
    ensures TiedAlike(a[..|a| - 1], b[..|b| - 1], le)
  {
    var front, other, last := a[..|a| - 1], b[..|b| - 1], a[|a| - 1];
    forall t ensures TiedWith(front, t, le) == TiedWith(other, t, le) {
      assert TiedWith(a, t, le) == TiedWith(b, t, le);
      SameBefore(TiedWith(front, t, le), TiedWith(other, t, le), if Tied(last, t, le) then [last] else []);
    }
  }

  lemma SameBefore<T>(s: seq<T>, t: seq<T>, end: seq<T>)
    requires s + end == t + end
    ensures s == t
  {
    assert |s| == |t|;
    assert (s + end)[..|s|] == s && (t + end)[..|t|] == t;
  }

  lemma LastsEqual<T(!new)>(a: seq<T>, b: seq<T>, le: Comparison<T>)
    requires IsOrder(le) && InOrder(a, le) && InOrder(b, le) && TiedAlike(a, b, le)
    requires a != [] && b != []
    ensures a[|a| - 1] == b[|b| - 1]
  {
    LastNotBefore(b, a, le);
    LastNotBefore(a, b, le);
    var x, y := a[|a| - 1], b[|b| - 1];
    assert Tied(x, x, le) && Tied(y, x, le) && TiedWith(a, x, le) == TiedWith(b, x, le);
    SameLast(TiedWith(a[..|a| - 1], x, le), TiedWith(b[..|b| - 1], x, le), x, y);
  }

  lemma SameLast<T>(s: seq<T>, t: seq<T>, x: T, y: T)
    requires s + [x] == t + [y]
    ensures x == y
  {
    assert (s + [x])[|s|] == (t + [y])[|t|];
  }

  // ----- elements with different keys

  predicate OneEach<T>(ts: seq<T>, key: T -> string) {
    forall i, j :: 0 <= i < j < |ts| ==> key(ts[i]) != key(ts[j])
  }

  ghost function Keys<T>(ts: seq<T>, key: T -> string): set<string> {
    set t <- ts :: key(t)
  }

  lemma OneEachNext<T>(ts: seq<T>, t: T, key: T -> string)
    ensures OneEach(ts + [t], key) <==> OneEach(ts, key) && key(t) !in Keys(ts, key)
    ensures Keys(ts + [t], key) == Keys(ts, key) + {key(t)}
  {
    var all := ts + [t];
    assert all[|ts|] == t && forall i :: 0 <= i < |ts| ==> all[i] == ts[i];
  }

  lemma OneEachBefore<T>(ts: seq<T>, n: nat, key: T -> string)
    requires n <= |ts|
    ensures OneEach(ts, key) ==> OneEach(ts[..n], key)
  {
  }

  // ----- elements of which no two tie

  /** Members that tie are the same. */
  predicate NoTies<T(==)>(ts: seq<T>, le: Comparison<T>) {
    forall i, j :: 0 <= i < j < |ts| ==> Tied(ts[i], ts[j], le) ==> ts[i] == ts[j]
  }

  /** The first of sorted elements is the least. */
  lemma SameFirst<T>(a: seq<T>, b: seq<T>, le: Comparison<T>)
    requires InOrder(a, le) && InOrder(b, le) && NoTies(a, le) && a != [] && b != []
    requires a[0] in b && b[0] in a
    ensures a[0] == b[0]
  {
    var i :| 0 <= i < |b| && b[i] == a[0];
    var j :| 0 <= j < |a| && a[j] == b[0];
    if i > 0 && j > 0 {
      assert Tied(a[0], a[j], le);
    }
  }

  lemma FirstAndRest<T>(s: seq<T>)
    requires s != []
    ensures s == [s[0]] + s[1..] && multiset(s[1..]) == multiset(s) - multiset{s[0]}
  {
    assert s == [s[0]] + s[1..];
  }

  lemma SameMembers<T>(a: seq<T>, b: seq<T>)
    requires multiset(a) == multiset(b)
    ensures |a| == |b| && forall t :: t in a <==> t in b
  {
    assert |multiset(a)| == |multiset(b)|;
    assert forall t :: t in a <==> t in multiset(a);
  }

  /** There is one way to put elements of which no two tie in order. */
  lemma {:induction false} OneOrder<T>(a: seq<T>, b: seq<T>, le: Comparison<T>)
    requires InOrder(a, le) && InOrder(b, le) && NoTies(a, le) && multiset(a) == multiset(b)
    ensures a == b
  {
    SameMembers(a, b);
    if a != [] {
      SameFirst(a, b, le);
      FirstAndRest(a);
      FirstAndRest(b);
      OneOrder(a[1..], b[1..], le);
    }
  }
}
