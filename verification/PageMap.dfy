/**
 The three-level radix tree from page numbers to spans, with its nodes and leaves as arrays on the
 heap, and the finite map it stands for.
 */
module PageMap {
  import opened Basics
  import opened SizeClass
  import opened PageHeap

  /** Bits consumed at each interior level, and at the leaves. */
  function InteriorBits(bits: nat): nat { (bits + 2) / 3 }

  function LeafBits(bits: nat): nat
    requires bits >= 2
  {
    bits - 2 * InteriorBits(bits)
  }

  function Width(bits: nat): (r: nat)
    ensures r >= 1
  {
    Pow2(InteriorBits(bits))
  }

  function LeafWidth(bits: nat): (r: nat)
    requires bits >= 2
    ensures r >= 1
  {
    Pow2(LeafBits(bits))
  }

  /** `x >> b`. */
  function Shift(x: nat, b: nat): nat { Quotient(x, Pow2(b)) }

  function Quotient(x: nat, m: nat): nat
    requires m > 0
  {
    x / m
  }

  function I1(bits: nat, k: nat): nat
    requires bits >= 2
  {
    Shift(k, LeafBits(bits) + InteriorBits(bits))
  }

  function I2(bits: nat, k: nat): nat
    requires bits >= 2
  {
    BitAnd(Shift(k, LeafBits(bits)), Width(bits) - 1)
  }

  function I3(bits: nat, k: nat): nat
    requires bits >= 2
  {
    BitAnd(k, LeafWidth(bits) - 1)
  }

  /** The bits of a key split over the three levels, the interior ones getting a third each, rounded up. */
  lemma LevelsSplit(bits: nat)
    requires bits >= 2
    ensures 2 * InteriorBits(bits) + LeafBits(bits) == bits && LeafBits(bits) <= InteriorBits(bits)
    ensures bits <= 3 * InteriorBits(bits) <= bits + 2
  {
  }

  lemma {:induction false} LowBits(x: nat, k: nat)
    ensures BitAnd(x, Pow2(k) - 1) == x % Pow2(k)
    decreases k
  {
    if k > 0 {
      LowBits(x / 2, k - 1);
      LowBitsStep(x, k, Pow2(k - 1), Pow2(k));
    }
  }

  lemma LowBitsStep(x: nat, k: nat, half: nat, whole: nat)
    requires k > 0 && half == Pow2(k - 1) && whole == Pow2(k) && half >= 1 && whole == 2 * half
    requires BitAnd(x / 2, half - 1) == (x / 2) % half
    ensures BitAnd(x, whole - 1) == x % whole
  {
    DivModPow2(x, k);
    BitAndHalf(x, whole - 1);
    assert (whole - 1) / 2 == half - 1 && (whole - 1) % 2 == 1;
  }

  lemma {:induction false} Pow2Sum(a: nat, b: nat)
    ensures Pow2(a + b) == Pow2(a) * Pow2(b)
    decreases b
  {
    if b > 0 {
      Pow2Sum(a, b - 1);
      assert Pow2(a) * (2 * Pow2(b - 1)) == 2 * (Pow2(a) * Pow2(b - 1));
    }
  }

  lemma DivDiv(x: nat, a: nat, b: nat)
    requires a > 0 && b > 0
    ensures a * b > 0 && x / (a * b) == x / a / b
  {
    var q := x / a;
    DivMod(x, a);
    DivMod(q, b);
    var d, r := q / b, q % b;
    assert x == d * (a * b) + (r * a + x % a) by {
      assert (d * b + r) * a == d * (a * b) + r * a;
    }
    Multiple(r, b, a);
    ModUnique(x, a * b, d, r * a + x % a);
  }

  /** The leaf a key lives in. */
  function LeafOf(bits: nat, k: nat): nat
    requires bits >= 2
  {
    Shift(k, LeafBits(bits))
  }

  /** The indices written as shifts and masks are quotients and remainders. */
  lemma IndexForms(bits: nat, k: nat)
    requires bits >= 2
    ensures I1(bits, k) == LeafOf(bits, k) / Width(bits)
    ensures I2(bits, k) == LeafOf(bits, k) % Width(bits)
    ensures I3(bits, k) == k % LeafWidth(bits)
  {
    FirstIndex(k, LeafBits(bits), InteriorBits(bits));
    SecondIndex(bits, k, LeafOf(bits, k));
    ThirdIndex(bits, k);
  }

  lemma SecondIndex(bits: nat, k: nat, leaf: nat)
    requires bits >= 2 && leaf == LeafOf(bits, k)
    ensures I2(bits, k) == leaf % Width(bits)
  {
    LowBits(leaf, InteriorBits(bits));
  }

  lemma ThirdIndex(bits: nat, k: nat)
    requires bits >= 2
    ensures I3(bits, k) == k % LeafWidth(bits)
  {
    LowBits(k, LeafBits(bits));
  }

  lemma FirstIndex(k: nat, l: nat, i: nat)
    ensures k / Pow2(l + i) == k / Pow2(l) / Pow2(i)
  {
    Pow2Sum(l, i);
    DivDiv(k, Pow2(l), Pow2(i));
  }

  lemma Capacity(bits: nat)
    requires bits >= 2
    ensures Pow2(bits) == (LeafWidth(bits) * Width(bits)) * Width(bits)
    ensures LeafWidth(bits) <= Width(bits)
  {
    Pow2Sum3(LeafBits(bits), InteriorBits(bits), bits);
    Pow2Strict(LeafBits(bits), InteriorBits(bits));
  }

  lemma Pow2Sum3(l: nat, i: nat, bits: nat)
    requires l + i + i == bits
    ensures Pow2(bits) == (Pow2(l) * Pow2(i)) * Pow2(i)
  {
    Pow2Sum(l, i);
    Pow2Sum(l + i, i);
  }

  lemma QuotientBelow(x: nat, m: nat, w: nat)
    requires m > 0
    ensures x / m < w <==> x < m * w
  {
    DivMod(x, m);
    if x / m < w {
      Multiple(x / m, w, m);
    } else if x / m > w {
      Multiple(w, x / m, m);
    }
  }

  /**
   A key below 2^BITS has all three indices in bounds, the first exactly then; a leaf array as long
   as a node has room for every leaf index.
   */
  lemma IndicesInBounds(bits: nat, k: nat)
    requires bits >= 2
    ensures I1(bits, k) < Width(bits) <==> k < Pow2(bits)
    ensures I2(bits, k) < Width(bits) && I3(bits, k) < LeafWidth(bits) <= Width(bits)
  {
    IndexForms(bits, k);
    Capacity(bits);
    DivDiv(k, LeafWidth(bits), Width(bits));
    QuotientBelow(k, LeafWidth(bits) * Width(bits), Width(bits));
  }

  /** The three indices determine the key: the decomposition is injective. */
  lemma IndicesInjective(bits: nat, j: nat, k: nat)
    requires bits >= 2
    ensures I1(bits, j) == I1(bits, k) && I2(bits, j) == I2(bits, k) <==> LeafOf(bits, j) == LeafOf(bits, k)
    ensures I1(bits, j) == I1(bits, k) && I2(bits, j) == I2(bits, k) && I3(bits, j) == I3(bits, k) <==> j == k
  {
    IndexForms(bits, j);
    IndexForms(bits, k);
    DivMod(LeafOf(bits, j), Width(bits));
    DivMod(LeafOf(bits, k), Width(bits));
    DivMod(j, LeafWidth(bits));
    DivMod(k, LeafWidth(bits));
  }

  type Entry = Option<SpanId>
  type Leaf = array?<Entry>
  type Node = array?<Leaf>

  /** The first key of the next leaf. */
  function NextLeaf(bits: nat, key: nat): nat
    requires bits >= 2
  {
    (LeafOf(bits, key) + 1) * LeafWidth(bits)
  }

  lemma LeafMonotone(bits: nat, a: nat, b: nat)
    requires bits >= 2 && a <= b
    ensures LeafOf(bits, a) <= LeafOf(bits, b)
  {
    var m := LeafWidth(bits);
    DivMod(a, m);
    DivMod(b, m);
    if b / m < a / m {
      Multiple(b / m, a / m, m);
    }
  }

  lemma NextLeafIs(bits: nat, key: nat)
    requires bits >= 2
    ensures key < NextLeaf(bits, key) && LeafOf(bits, NextLeaf(bits, key)) == LeafOf(bits, key) + 1
    ensures forall k: nat :: k < NextLeaf(bits, key) ==> LeafOf(bits, k) <= LeafOf(bits, key)
  {
    var m, q := LeafWidth(bits), LeafOf(bits, key);
    DivMod(key, m);
    assert (q + 1) * m == q * m + m;
    ModUnique((q + 1) * m, m, q + 1, 0);
    forall k: nat | k < NextLeaf(bits, key) ensures LeafOf(bits, k) <= q {
      QuotientBelow(k, m, q + 1);
    }
  }

  lemma LeafCount(bits: nat) returns (n: nat)
    requires bits >= 2
    ensures Pow2(bits) == LeafWidth(bits) * n
  {
    n := Pow2(InteriorBits(bits) + InteriorBits(bits));
    Pow2Sum(LeafBits(bits), InteriorBits(bits) + InteriorBits(bits));
  }

  /** No leaf straddles the end of the key space. */
  lemma LeavesEnd(bits: nat, k: nat, key: nat)
    requires bits >= 2 && k < Pow2(bits) <= key
    ensures LeafOf(bits, k) < LeafOf(bits, key)
  {
    var leaves := LeafCount(bits);
    QuotientBelow(k, LeafWidth(bits), leaves);
    QuotientBelow(key, LeafWidth(bits), leaves);
  }

  lemma NextLeafInside(bits: nat, key: nat)
    requires bits >= 2 && key < Pow2(bits)
    ensures NextLeaf(bits, key) <= Pow2(bits)
  {
    NextLeafIs(bits, key);
    if Pow2(bits) < NextLeaf(bits, key) {
      LeavesEnd(bits, key, Pow2(bits));
    }
  }

  /** Where `start + n - 1` falls on 64-bit words. */
  function Last(start: nat, n: nat): nat
    requires start < WORD
  {
    (start + n + WORD - 1) % WORD
  }

  /** The key's leaf lies between those of `start` and `last`. */
  predicate Covers(bits: nat, start: nat, last: nat, k: nat)
    requires bits >= 2
  {
    start <= last && LeafOf(bits, start) <= LeafOf(bits, k) <= LeafOf(bits, last)
  }

  /** A request for n > 0 keys reaches all of them exactly when its end is a word. */
  lemma RangeCovered(bits: nat, start: nat, n: nat)
    requires bits >= 2 && start < WORD && 0 < n < WORD
    ensures (forall k: nat :: start <= k < start + n ==> Covers(bits, start, Last(start, n), k)) <==> start + n <= WORD
  {
    if start + n <= WORD {
      assert Last(start, n) == start + n - 1;
      forall k: nat | start <= k < start + n ensures Covers(bits, start, Last(start, n), k) {
        LeafMonotone(bits, start, k);
        LeafMonotone(bits, k, Last(start, n));
      }
    } else {
      assert Last(start, n) == start + n - 1 - WORD;
      assert !Covers(bits, start, Last(start, n), start);
    }
  }

  class PageMap {
    const bits: nat
    const root: array<Node>
    /** Which slot each node and each leaf hangs in: no two slots share one. */
    ghost var nodeHome: map<array<Leaf>, nat>
    ghost var leafHome: map<array<Entry>, (nat, nat)>
    /** The finite map the tree stands for. */
    ghost var contents: map<nat, SpanId>

    ghost predicate NodesOk()
      reads this, root, nodeHome.Keys
    {
      root.Length == Width(bits) &&
      forall i :: 0 <= i < root.Length && root[i] != null ==>
        root[i] in nodeHome && nodeHome[root[i]] == i && root[i].Length == Width(bits)
    }

    ghost predicate LeavesOk()
      requires NodesOk()
      reads this, root, nodeHome.Keys, leafHome.Keys
    {
      forall i, j {:trigger root[i][j]} ::
        0 <= i < root.Length && root[i] != null && 0 <= j < Width(bits) && root[i][j] != null ==>
        root[i][j] in leafHome && leafHome[root[i][j]] == (i, j) && root[i][j].Length == Width(bits)
    }

    ghost predicate Present(i: nat, j: nat)
      requires NodesOk()
      reads this, root, nodeHome.Keys
    {
      i < root.Length && j < Width(bits) && root[i] != null && root[i][j] != null
    }

    ghost function At(i: nat, j: nat, k: nat): Option<SpanId>
      requires NodesOk() && LeavesOk()
      reads this, root, nodeHome.Keys, leafHome.Keys
    {
      if Present(i, j) && k < Width(bits) then root[i][j][k] else None
    }

    ghost function Expected(k: nat): Option<SpanId>
      reads this
    {
      if k in contents then Some(contents[k]) else None
    }

    ghost predicate ContentsOk()
      requires bits >= 2 && NodesOk() && LeavesOk()
      reads this, root, nodeHome.Keys, leafHome.Keys
    {
      forall k: nat {:trigger Expected(k)} ::
        Expected(k) == if k < Pow2(bits) then At(I1(bits, k), I2(bits, k), I3(bits, k)) else None
    }

    ghost predicate Valid()
      reads this, root, nodeHome.Keys, leafHome.Keys
    {
      2 <= bits < 64 && NodesOk() && LeavesOk() && ContentsOk()
    }

    /** The key has a leaf to be stored in. */
    ghost predicate Settable(k: nat)
      requires bits >= 2 && NodesOk()
      reads this, root, nodeHome.Keys
    {
      k < Pow2(bits) && Present(I1(bits, k), I2(bits, k))
    }

    constructor (n: nat)
      requires 2 <= n < 64
      ensures Valid() && bits == n && contents == map[] && forall k: nat :: !Settable(k)
      ensures fresh(root) && nodeHome == map[] && leafHome == map[]
    {
      bits := n;
      root := new Node[Width(n)](_ => null);
      nodeHome, leafHome, contents := map[], map[], map[];
    }

    /** No key outside the key space has an entry. */
    lemma KeysSmall(k: nat)
      requires Valid() && k >= Pow2(bits)
      ensures k !in contents
    {
      assert Expected(k) == None;
    }

    /** `set`, whose callers must have made the key settable. */
    method Set(k: nat, s: SpanId)
      requires Valid() && Settable(k)
      modifies this`contents, leafHome.Keys
      ensures Valid() && contents == old(contents)[k := s]
      ensures forall j: nat :: Settable(j) <==> old(Settable(j))
    {
      IndicesInBounds(bits, k);
      var i1, i2, i3 := I1(bits, k), I2(bits, k), I3(bits, k);
      root[i1][i2][i3] := Some(s);
      contents := contents[k := s];
      forall j: nat ensures Expected(j) == if j < Pow2(bits) then At(I1(bits, j), I2(bits, j), I3(bits, j)) else None {
        IndicesInjective(bits, j, k);
        assert old(Expected(j)) == if j == k then old(Expected(j)) else Expected(j);
      }
    }

    /** `get`: null outside the key space, and wherever a node, a leaf or an entry is missing. */
    method Get(k: nat) returns (r: Option<SpanId>)
      requires Valid()
      ensures r == if k in contents then Some(contents[k]) else None
    {
      IndicesInBounds(bits, k);
      var i1, i2, i3 := I1(bits, k), I2(bits, k), I3(bits, k);
      if Shift(k, bits) > 0 || root[i1] == null || root[i1][i2] == null {
        ShiftPositive(k, bits);
        assert Expected(k) == None;
        return None;
      }
      ShiftPositive(k, bits);
      assert Expected(k) == At(i1, i2, i3);
      r := root[i1][i2][i3];
    }

    /** A node of null leaves for a slot that has none. */
    method AddNode(i1: nat)
      requires Valid() && i1 < Width(bits) && root[i1] == null
      modifies this`nodeHome, root
      ensures Valid() && root[i1] != null
      ensures forall i, j :: Present(i, j) <==> old(Present(i, j))
      ensures fresh(nodeHome.Keys - old(nodeHome.Keys))
    {
      var node := new Leaf[Width(bits)](_ => null);
      nodeHome := nodeHome[node := i1];
      root[i1] := node;
      forall k: nat ensures Expected(k) == if k < Pow2(bits) then At(I1(bits, k), I2(bits, k), I3(bits, k)) else None {
        assert old(Expected(k)) == Expected(k);
      }
    }

    /** A leaf of null entries for a slot that has none. */
    method AddLeaf(i1: nat, i2: nat)
      requires Valid() && i1 < Width(bits) && i2 < Width(bits) && root[i1] != null && root[i1][i2] == null
      modifies this`leafHome, root[i1]
      ensures Valid()
      ensures forall i, j :: Present(i, j) <==> old(Present(i, j)) || (i == i1 && j == i2)
      ensures fresh(leafHome.Keys - old(leafHome.Keys))
    {
      var leaf := new Entry[Width(bits)](_ => None);
      leafHome := leafHome[leaf := (i1, i2)];
      root[i1][i2] := leaf;
      forall k: nat ensures Expected(k) == if k < Pow2(bits) then At(I1(bits, k), I2(bits, k), I3(bits, k)) else None {
        assert old(Expected(k)) == Expected(k);
      }
    }

    /** Creates the node and the leaf for one slot, where they are missing. */
    method Provide(i1: nat, i2: nat)
      requires Valid() && i1 < Width(bits) && i2 < Width(bits)
      modifies this`nodeHome, this`leafHome, root, nodeHome.Keys
      ensures Valid()
      ensures forall i, j :: Present(i, j) <==> old(Present(i, j)) || (i == i1 && j == i2)
      ensures fresh(nodeHome.Keys - old(nodeHome.Keys)) && fresh(leafHome.Keys - old(leafHome.Keys))
    {
      if root[i1] == null {
        AddNode(i1);
      }
      if root[i1][i2] == null {
        AddLeaf(i1, i2);
      }
    }

    method ProvideFor(key: nat)
      requires Valid() && key < Pow2(bits)
      modifies this`nodeHome, this`leafHome, root, nodeHome.Keys
      ensures Valid()
      ensures forall k: nat :: k < Pow2(bits) ==>
        (Settable(k) <==> old(Settable(k)) || LeafOf(bits, k) == LeafOf(bits, key))
      ensures fresh(nodeHome.Keys - old(nodeHome.Keys)) && fresh(leafHome.Keys - old(leafHome.Keys))
    {
      IndicesInBounds(bits, key);
      Provide(I1(bits, key), I2(bits, key));
      forall k: nat | k < Pow2(bits)
        ensures Settable(k) <==> old(Settable(k)) || LeafOf(bits, k) == LeafOf(bits, key)
      {
        IndicesInjective(bits, k, key);
      }
    }

    /**
     `Ensure`: afterwards exactly the leaves from `start` to the last key exist besides those that did,
     no lookup changes, and the result says whether the last key is inside the key space. When the sum
     wraps around, nothing is created and the result is still true.
     */
    method Ensure(start: nat, n: nat) returns (ok: bool)
      requires Valid() && start < WORD && n < WORD
      modifies this`nodeHome, this`leafHome, root, nodeHome.Keys
      ensures Valid()
      ensures ok <==> Last(start, n) < start || Last(start, n) < Pow2(bits)
      ensures forall k: nat :: k < Pow2(bits) ==>
        (Settable(k) <==> old(Settable(k)) || Covers(bits, start, Last(start, n), k))
      ensures fresh(nodeHome.Keys - old(nodeHome.Keys)) && fresh(leafHome.Keys - old(leafHome.Keys))
    {
      var last := Last(start, n);
      var key := start;
      ghost var goal := if start <= last then LeafOf(bits, last) + 1 else LeafOf(bits, start);
      while key <= last
        invariant Valid() && start <= key
        invariant fresh(nodeHome.Keys - old(nodeHome.Keys)) && fresh(leafHome.Keys - old(leafHome.Keys))
        invariant key == start || (start <= last && LeafOf(bits, key) <= goal)
        invariant last < key ==> LeafOf(bits, key) == goal && (last < start || last < Pow2(bits))
        invariant forall k: nat :: k < Pow2(bits) ==>
          (Settable(k) <==> old(Settable(k)) || LeafOf(bits, start) <= LeafOf(bits, k) < LeafOf(bits, key))
        decreases last - key
      {
        IndicesInBounds(bits, key);
        var i1, i2 := I1(bits, key), I2(bits, key);
        if i1 >= Width(bits) || i2 >= Width(bits) {
          BeyondEnd(bits, key, last);
          return false;
        }
        ProvideFor(key);
        Advance(bits, start, key, last);
        key := NextLeaf(bits, key) % WORD;
      }
      return true;
    }
  }

  lemma ShiftPositive(k: nat, b: nat)
    ensures Shift(k, b) > 0 <==> k >= Pow2(b)
  {
    QuotientBelow(k, Pow2(b), 1);
  }

  lemma NoWrap(bits: nat)
    requires bits < 64
    ensures Pow2(bits) < WORD
  {
    Pow2Word();
    Pow2Strict(bits, 64);
  }

  lemma BeyondEnd(bits: nat, key: nat, last: nat)
    requires bits >= 2 && Pow2(bits) <= key <= last
    ensures forall k: nat :: k < Pow2(bits) ==> LeafOf(bits, k) < LeafOf(bits, key)
    ensures LeafOf(bits, key) <= LeafOf(bits, last)
  {
    forall k: nat | k < Pow2(bits) ensures LeafOf(bits, k) < LeafOf(bits, key) {
      LeavesEnd(bits, k, key);
    }
    LeafMonotone(bits, key, last);
  }

  /** One jump of the loop: it reaches the next leaf without wrapping around. */
  lemma Advance(bits: nat, start: nat, key: nat, last: nat)
    requires 2 <= bits < 64 && key < Pow2(bits) && start <= key <= last
    ensures var key' := NextLeaf(bits, key) % WORD;
            && key < key' && LeafOf(bits, key') == LeafOf(bits, key) + 1
            && (last < key' ==> LeafOf(bits, last) == LeafOf(bits, key) && last < Pow2(bits))
    ensures LeafOf(bits, start) <= LeafOf(bits, key) <= LeafOf(bits, last)
  {
    NextLeafIs(bits, key);
    var key' := NextWord(bits, key);
    LeafMonotone(bits, key, last);
    LeafMonotone(bits, start, key);
  }

  lemma NextWord(bits: nat, key: nat) returns (next: nat)
    requires 2 <= bits < 64 && key < Pow2(bits)
    ensures next == NextLeaf(bits, key) == NextLeaf(bits, key) % WORD && next <= Pow2(bits)
  {
    next := NextLeaf(bits, key);
    NextLeafInside(bits, key);
    NoWrap(bits);
    SmallWord(next);
  }

  lemma SmallWord(x: nat)
    requires x < WORD
    ensures x % WORD == x
  {
  }
}
