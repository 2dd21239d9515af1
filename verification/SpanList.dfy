/**
 The circular doubly linked list that holds the spans of a bucket, through the two link fields of
 the span records and a head record of its own. Its operations on links are the sequence operations
 the heap and the central lists are modelled with.
 */
module SpanList {
  import opened Basics
  import opened PageHeap

  /** `_next` and `_prev` of every record. */
  class Links {
    var next: map<SpanId, SpanId>
    var prev: map<SpanId, SpanId>

    constructor ()
      ensures next == map[] && prev == map[]
    {
      next, prev := map[], map[];
    }
  }

  /** Record number i on the way around and the one after it point at each other. */
  ghost predicate Joined(next: map<SpanId, SpanId>, prev: map<SpanId, SpanId>, a: SpanId, b: SpanId) {
    a in next && next[a] == b && b in prev && prev[b] == a
  }

  /** Once around the list: the head, every linked record once, and the head again. */
  ghost predicate Ring(next: map<SpanId, SpanId>, prev: map<SpanId, SpanId>, r: seq<SpanId>) {
    && |r| >= 2 && r[0] == r[|r| - 1] && NoDup(r[1..])
    && forall i :: 0 <= i < |r| - 1 ==> Joined(next, prev, r[i], r[i + 1])
  }

  /** Only the two ends of the way around are the same record. */
  lemma RingDistinct(r: seq<SpanId>, i: nat, j: nat)
    requires |r| >= 2 && r[0] == r[|r| - 1] && NoDup(r[1..]) && i < j < |r| && !(i == 0 && j == |r| - 1)
    ensures r[i] != r[j]
  {
    var t := r[1..];
    assert t[j - 1] == r[j];
    assert t[|r| - 2] == r[|r| - 1];
    assert i > 0 ==> t[i - 1] == r[i];
  }

  lemma NoDupInsert(s: seq<SpanId>, k: nat, n: SpanId)
    requires NoDup(s) && k <= |s| && n !in s
    ensures NoDup(s[..k] + [n] + s[k..])
  {
    NoDupSplit(s, k);
    NoDupJoin(s[..k], [n]);
    NoDupJoin(s[..k] + [n], s[k..]);
  }

  lemma NoDupErase(s: seq<SpanId>, k: nat)
    requires NoDup(s) && k < |s|
    ensures NoDup(s[..k] + s[k + 1..])
  {
  }

  /** The four assignments of `insert`. */
  lemma InsertRing(next: map<SpanId, SpanId>, prev: map<SpanId, SpanId>, r: seq<SpanId>, k: nat, n: SpanId)
    requires Ring(next, prev, r) && 1 <= k < |r| && n !in r
    ensures Ring(next[r[k - 1] := n][n := r[k]], prev[n := r[k - 1]][r[k] := n], r[..k] + [n] + r[k..])
  {
    var next', prev', r' := next[r[k - 1] := n][n := r[k]], prev[n := r[k - 1]][r[k] := n], r[..k] + [n] + r[k..];
    NoDupInsert(r[1..], k - 1, n);
    assert r'[1..] == r[1..][..k - 1] + [n] + r[1..][k - 1..];
    forall i | 0 <= i < |r'| - 1 ensures Joined(next', prev', r'[i], r'[i + 1]) {
      if i < k - 1 {
        assert Joined(next, prev, r[i], r[i + 1]);
        RingDistinct(r, i, k - 1);
        RingDistinct(r, i + 1, k);
      } else if i > k {
        assert Joined(next, prev, r[i - 1], r[i]);
        RingDistinct(r, k - 1, i - 1);
        RingDistinct(r, k, i);
      }
    }
  }

  /** After the two assignments of `erase`, neighbours on the way around still point at each other. */
  lemma EraseJoined(next: map<SpanId, SpanId>, prev: map<SpanId, SpanId>, r: seq<SpanId>, k: nat, i: nat)
    requires Ring(next, prev, r) && 1 <= k < |r| - 1 && i < |r| - 1 && i != k - 1 && i != k
    ensures Joined(next[r[k - 1] := r[k + 1]], prev[r[k + 1] := r[k - 1]], r[i], r[i + 1])
  {
    assert Joined(next, prev, r[i], r[i + 1]);
    if i < k - 1 {
      RingDistinct(r, i, k - 1);
      RingDistinct(r, i + 1, k + 1);
    } else {
      RingDistinct(r, k - 1, i);
      RingDistinct(r, k + 1, i + 1);
    }
  }

  lemma EraseRing(next: map<SpanId, SpanId>, prev: map<SpanId, SpanId>, r: seq<SpanId>, k: nat)
    requires Ring(next, prev, r) && 1 <= k < |r| - 1
    ensures Ring(next[r[k - 1] := r[k + 1]], prev[r[k + 1] := r[k - 1]], r[..k] + r[k + 1..])
  {
    var next', prev', r' := next[r[k - 1] := r[k + 1]], prev[r[k + 1] := r[k - 1]], r[..k] + r[k + 1..];
    NoDupErase(r[1..], k - 1);
    assert r'[1..] == r[1..][..k - 1] + r[1..][k..];
    forall i | 0 <= i < |r'| - 1 ensures Joined(next', prev', r'[i], r'[i + 1]) {
      if i != k - 1 {
        EraseJoined(next, prev, r, k, if i < k then i else i + 1);
      }
    }
  }

  lemma {:induction false} RemoveAt(s: seq<SpanId>, k: nat)
    requires NoDup(s) && k < |s|
    ensures Remove(s, s[k]) == s[..k] + s[k + 1..]
  {
    if k > 0 {
      assert s[0] != s[k];
      RemoveAt(s[1..], k - 1);
      assert s[..k] + s[k + 1..] == [s[0]] + (s[1..][..k - 1] + s[1..][k..]);
    }
  }

  lemma IndexOf(s: seq<SpanId>, x: SpanId) returns (j: nat)
    requires x in s
    ensures j < |s| && s[j] == x
  {
    j :| 0 <= j < |s| && s[j] == x;
  }

  lemma SpineNoDup(head: SpanId, s: seq<SpanId>)
    requires NoDup(([head] + s + [head])[1..])
    ensures NoDup(s)
  {
    assert ([head] + s + [head])[1..] == s + [head];
    assert forall i :: 0 <= i < |s| ==> s[i] == (s + [head])[i];
  }

  /** Taking record j off the list takes record j + 1 off the way around. */
  lemma EraseAround(head: SpanId, s: seq<SpanId>, j: nat)
    requires j < |s|
    ensures var r := [head] + s + [head];
            [head] + (s[..j] + s[j + 1..]) + [head] == r[..j + 1] + r[j + 2..]
  {
    var r := [head] + s + [head];
    assert r[..j + 1] == [head] + s[..j];
    assert r[j + 2..] == s[j + 1..] + [head];
  }

  class SpanList {
    const links: Links
    const head: SpanId
    /** The linked records in order. */
    ghost var spine: seq<SpanId>

    ghost function Around(): seq<SpanId>
      reads this
    {
      [head] + spine + [head]
    }

    ghost predicate Valid()
      reads this, links
    {
      Ring(links.next, links.prev, Around())
    }

    /** The head points at itself. */
    constructor (l: Links, h: SpanId)
      modifies l
      ensures links == l && head == h && Valid() && spine == []
    {
      links, head, spine := l, h, [];
      new;
      l.next := l.next[h := h];
      l.prev := l.prev[h := h];
    }

    method Begin() returns (n: SpanId)
      requires Valid()
      ensures n == Around()[1]
    {
      assert Joined(links.next, links.prev, Around()[0], Around()[1]);
      n := links.next[head];
    }

    method Empty() returns (b: bool)
      requires Valid()
      ensures b <==> spine == []
    {
      var n := Begin();
      b := n == head;
      if spine != [] {
        RingDistinct(Around(), 0, 1);
      }
    }

    /** Links `n` in front of `cur`, which is number `k` on the way around. */
    method Insert(cur: SpanId, n: SpanId, ghost k: nat)
      requires Valid() && 1 <= k <= |spine| + 1 && cur == Around()[k] && n !in Around()
      modifies this`spine, links
      ensures Valid() && spine == old(spine)[..k - 1] + [n] + old(spine)[k - 1..]
    {
      ghost var r := Around();
      assert Joined(links.next, links.prev, r[k - 1], r[k]);
      InsertRing(links.next, links.prev, r, k, n);
      var prev := links.prev[cur];
      links.next := links.next[prev := n];
      links.prev := links.prev[n := prev];
      links.next := links.next[n := cur];
      links.prev := links.prev[cur := n];
      spine := spine[..k - 1] + [n] + spine[k - 1..];
      assert Around() == r[..k] + [n] + r[k..];
    }

    method PushFront(n: SpanId)
      requires Valid() && n !in Around()
      modifies this`spine, links
      ensures Valid() && spine == [n] + old(spine)
    {
      var first := Begin();
      Insert(first, n, 1);
    }

    /** Unlinks a record that is on the list. */
    method Erase(cur: SpanId)
      requires Valid() && cur in spine
      modifies this`spine, links
      ensures Valid() && spine == Remove(old(spine), cur)
    {
      ghost var r, s := Around(), spine;
      ghost var j := IndexOf(s, cur);
      SpineNoDup(head, s);
      RemoveAt(s, j);
      EraseAround(head, s, j);
      assert Joined(links.next, links.prev, r[j], r[j + 1]) && Joined(links.next, links.prev, r[j + 1], r[j + 2]);
      EraseRing(links.next, links.prev, r, j + 1);
      var prev, next := links.prev[cur], links.next[cur];
      links.next := links.next[prev := next];
      links.prev := links.prev[next := prev];
      spine := Remove(s, cur);
    }

    method PopFront() returns (front: SpanId)
      requires Valid() && spine != []
      modifies this`spine, links
      ensures Valid() && [front] + spine == old(spine)
    {
      front := Begin();
      ghost var s := spine;
      assert front == s[0];
      Erase(front);
      assert s == [s[0]] + s[1..];
    }
  }
}
