/**
 The record pool: records cut off 128 KiB chunks, deleted ones chained through their first word and
 handed out again, last deleted first. The n-th record ever cut is record n of the abstract pool.
 */
module ObjectPool {
  import opened Basics
  import opened PageHeap
  import opened Chains

  const CHUNK: nat := 131072

  predicate Apart(a: Addr, n: nat, b: Addr, m: nat) {
    a + n <= b || b + m <= a
  }

  /** Where the records of a list of record numbers lie. */
  ghost function Places(issued: seq<Addr>, ids: seq<SpanId>): (r: seq<Addr>)
    requires forall id :: id in ids ==> id < |issued|
  {
    seq(|ids|, i requires 0 <= i < |ids| => assert ids[i] in ids; issued[ids[i]])
  }

  ghost predicate AllApart(issued: seq<Addr>, n: nat) {
    forall i, j :: 0 <= i < j < |issued| ==> Apart(issued[i], n, issued[j], n)
  }

  lemma NotPlaced(issued: seq<Addr>, n: nat, ids: seq<SpanId>, id: SpanId)
    requires AllApart(issued, n) && n > 0 && id < |issued| && id !in ids
    requires forall j :: j in ids ==> j < |issued|
    ensures issued[id] !in Places(issued, ids)
  {
    forall i | 0 <= i < |ids| ensures Places(issued, ids)[i] != issued[id] {
      var j := ids[i];
      assert j in ids;
      assert if j < id then Apart(issued[j], n, issued[id], n) else Apart(issued[id], n, issued[j], n);
    }
  }

  lemma NullIsEmpty(next: map<Addr, Addr>, s: seq<Addr>)
    requires Chain(next, 0, s)
    ensures s == []
  {
  }

  class ObjectPool {
    const mem: Memory
    const objSize: nat
    var memory: Addr
    var remainBytes: nat
    var freeList: Addr
    /** The records cut so far, the chunk each lies in, and the abstract pool. */
    ghost var issued: seq<Addr>
    ghost var chunkOf: seq<Addr>
    ghost var chunk: Addr
    ghost var chunks: set<Addr>
    ghost var pool: Pool

    ghost predicate ChunksOk()
      reads this
    {
      && (forall c, d :: c in chunks && d in chunks && c != d ==> Apart(c, CHUNK, d, CHUNK))
      && |chunkOf| == |issued|
      && (forall i :: 0 <= i < |issued| ==>
            chunkOf[i] in chunks && 0 < chunkOf[i] <= issued[i] && issued[i] + objSize <= chunkOf[i] + CHUNK)
      && (remainBytes > 0 ==> chunk in chunks && 0 < chunk <= memory && memory + remainBytes == chunk + CHUNK)
    }

    /** Records lie apart from each other and from what is still to be cut. */
    ghost predicate RecordsOk()
      reads this
    {
      && AllApart(issued, objSize)
      && (forall i :: 0 <= i < |issued| ==> Apart(issued[i], objSize, memory, remainBytes))
    }

    ghost predicate FreeOk()
      reads this, mem
    {
      && pool.unused == |issued| && NoDup(pool.free)
      && (forall id :: id in pool.free ==> id < |issued|)
      && Chain(mem.next, freeList, Places(issued, pool.free))
    }

    ghost predicate Valid()
      reads this, mem
    {
      8 <= objSize <= CHUNK && ChunksOk() && RecordsOk() && FreeOk()
    }

    constructor (m: Memory, sizeofT: nat)
      requires sizeofT <= CHUNK
      ensures Valid() && mem == m && objSize == (if sizeofT < 8 then 8 else sizeofT)
      ensures pool == Pool([], 0) && issued == [] && chunks == {}
    {
      mem, objSize := m, if sizeofT < 8 then 8 else sizeofT;
      memory, remainBytes, freeList := 0, 0, 0;
      issued, chunkOf, chunk, chunks, pool := [], [], 0, {}, Pool([], 0);
    }

    /** A deleted record, the last one first. */
    method Recycle() returns (obj: Addr)
      requires Valid() && pool.free != []
      modifies this`freeList, this`pool
      ensures Valid() && pool == PoolNew(old(pool)).1
      ensures PoolNew(old(pool)).0 < |issued| && obj == issued[PoolNew(old(pool)).0]
    {
      ghost var s := Places(issued, pool.free);
      assert pool.free[0] in pool.free;
      RestChain(mem.next, s, 1);
      NoDupSplit(pool.free, 1);
      obj := freeList;
      freeList := mem.next[freeList];
      pool := pool.(free := pool.free[1..]);
      assert Places(issued, pool.free) == s[1..];
    }

    /** The next record of the current chunk. */
    method Cut() returns (obj: Addr)
      requires Valid() && remainBytes >= objSize && pool.free == []
      modifies this`memory, this`remainBytes, this`pool, this`issued, this`chunkOf
      ensures Valid() && pool == PoolNew(old(pool)).1 && issued == old(issued) + [obj]
      ensures obj == old(memory) && memory == obj + objSize && remainBytes == old(remainBytes) - objSize
    {
      obj := memory;
      remainBytes := remainBytes - objSize;
      memory := memory + objSize;
      issued, chunkOf := issued + [obj], chunkOf + [chunk];
      pool := pool.(unused := pool.unused + 1);
    }

    /** A chunk from the system; what is left of the previous one is dropped. */
    method Refresh(sys: Addr)
      requires Valid() && sys > 0 && forall c :: c in chunks ==> Apart(c, CHUNK, sys, CHUNK)
      modifies this`memory, this`remainBytes, this`chunk, this`chunks
      ensures Valid() && remainBytes == CHUNK && memory == sys && chunks == old(chunks) + {sys}
    {
      remainBytes, memory := CHUNK, sys;
      chunk, chunks := sys, chunks + {sys};
    }

    /**
     `New`; `sys` is the chunk the system would return. Only when no record waits and the current chunk
     has no room for one more is a chunk taken.
     */
    method New(sys: Addr) returns (obj: Addr)
      requires Valid() && sys > 0 && forall c :: c in chunks ==> Apart(c, CHUNK, sys, CHUNK)
      modifies this
      ensures Valid() && pool == PoolNew(old(pool)).1 && old(issued) <= issued
      ensures PoolNew(old(pool)).0 < |issued| && obj == issued[PoolNew(old(pool)).0]
      ensures old(pool).free != [] ==> chunks == old(chunks) && memory == old(memory) && remainBytes == old(remainBytes)
      ensures old(pool).free == [] && old(remainBytes) >= objSize ==>
        chunks == old(chunks) && obj == old(memory) && remainBytes == old(remainBytes) - objSize
      ensures old(pool).free == [] && old(remainBytes) < objSize ==>
        chunks == old(chunks) + {sys} && obj == sys && remainBytes == 131072 - objSize
    {
      if freeList != 0 {
        obj := Recycle();
      } else {
        NullIsEmpty(mem.next, Places(issued, pool.free));
        if remainBytes < objSize {
          Refresh(sys);
        }
        obj := Cut();
      }
    }

    /** `Delete` of record number `id`, which must not be on the free list already. */
    method Delete(obj: Addr, ghost id: SpanId)
      requires Valid() && id < |issued| && obj == issued[id] && id !in pool.free
      modifies this`freeList, this`pool, mem
      ensures Valid() && pool == PoolDelete(old(pool), id) && OnlyAt(old(mem.next), mem.next, {obj})
    {
      ghost var s := Places(issued, pool.free);
      NotPlaced(issued, objSize, pool.free, id);
      PushChain(mem.next, freeList, s, obj);
      mem.next := mem.next[obj := freeList];
      freeList := obj;
      NoDupJoin([id], pool.free);
      pool := PoolDelete(pool, id);
      assert Places(issued, pool.free) == [obj] + s;
    }
  }
}
