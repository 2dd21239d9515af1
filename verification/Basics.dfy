/** Sequences without repetitions, and the results of operations that can go wrong. */
module Basics {

  datatype Option<+T> = None | Some(value: T)

  /** `Fault` stands for a read or write through a pointer that is not what the code assumes. */
  datatype Outcome<+T> = Done(value: T) | Fault

  ghost predicate NoDup<T>(s: seq<T>) {
    forall i, j :: 0 <= i < j < |s| ==> s[i] != s[j]
  }

  ghost function Elems<T>(s: seq<T>): set<T> {
    set x | x in s
  }

  /** Unlinks one element, as a doubly linked list does. */
  function Remove<T(==)>(s: seq<T>, x: T): seq<T> {
    if s == [] then [] else if s[0] == x then s[1..] else [s[0]] + Remove(s[1..], x)
  }

  lemma NoDupSplit<T>(s: seq<T>, n: nat)
    requires NoDup(s) && n <= |s|
    ensures NoDup(s[..n]) && NoDup(s[n..])
    ensures forall x :: x in s <==> x in s[..n] || x in s[n..]
    ensures forall x :: !(x in s[..n] && x in s[n..])
  {
    assert s == s[..n] + s[n..];
  }

  lemma NoDupJoin<T>(a: seq<T>, b: seq<T>)
    requires NoDup(a) && NoDup(b)
    requires forall x :: !(x in a && x in b)
    ensures NoDup(a + b)
    ensures forall x :: x in a + b <==> x in a || x in b
  {
    forall i, j | 0 <= i < j < |a + b|
      ensures (a + b)[i] != (a + b)[j]
    {
      if i < |a| <= j {
        assert a[i] in a && b[j - |a|] in b;
      }
    }
  }

  lemma {:induction false} RemoveElems<T>(s: seq<T>, x: T)
    requires NoDup(s)
    ensures NoDup(Remove(s, x))
    ensures forall y :: y in Remove(s, x) <==> y in s && y != x
    ensures x in s ==> |Remove(s, x)| == |s| - 1
  {
    if s != [] && s[0] != x {
      var r := Remove(s[1..], x);
      RemoveElems(s[1..], x);
      assert s == [s[0]] + s[1..];
      assert s[0] !in r;
      NoDupJoin([s[0]], r);
    }
  }

  lemma {:induction false} NoDupSize<T>(s: seq<T>)
    requires NoDup(s)
    ensures |Elems(s)| == |s|
  {
    if s != [] {
      NoDupSize(s[1..]);
      assert s == [s[0]] + s[1..];
      assert Elems(s) == Elems(s[1..]) + {s[0]};
    }
  }

  /** Pigeonhole: a repetition-free list as long as the list that contains it has all its elements. */
  lemma FullList<T>(part: seq<T>, whole: seq<T>)
    requires NoDup(part) && NoDup(whole) && |part| == |whole|
    requires forall x :: x in part ==> x in whole
    ensures forall x :: x in whole ==> x in part
  {
    NoDupSize(part);
    NoDupSize(whole);
    var rest := Elems(whole) - Elems(part);
    assert Elems(part) <= Elems(whole);
    assert |Elems(part)| + |rest| == |Elems(whole)|;
    forall x | x in whole
      ensures x in part
    {
      assert x in Elems(whole);
    }
  }
}
