/** The registry of frame-buffer drivers: a hash table of names over `fb_mem`
    objects, which are reached by address and may be allocated where freed ones
    were. */
module FbMem {

  import opened Fnv
  import opened Registry
  import opened Buckets

  datatype Code = OK | NOK | EINVAL | EEXIST | ENOENT | ENXIO

  /** What `zalloc` answers: nothing, or an address not in use. */
  datatype Memory = NoMemory | At(addr: nat)

  /** A `char *` that may be null. */
  datatype Str = Null | Str(chars: Name)

  class Registered {
    const buckets: array<seq<Entry>>      // g_keyCacheHashEntrys
    var heap: map<nat, Data>              // the fb_mem objects and their data
    ghost var table: Table
    ghost var ops: seq<Op>                // what has been done, allocation failures apart

    ghost predicate Linked()
      reads buckets, `table
    {
      Represents(buckets[..], table) && Injective(table)
    }

    ghost predicate Valid()
      reads buckets, `heap, `table, `ops
    {
      Linked() && Allocated(table, heap) && View(table, heap) == Run(ops)
    }

    /** `KeyCacheInit`. */
    constructor ()
      ensures Valid() && ops == [] && heap == map[] && table == map[] && fresh(buckets)
    {
      buckets := new seq<Entry>[SIZE](_ => []);
      heap, table, ops := map[], map[], [];
    }

    /** `NameHash`, masked. */
    static method NameHash(name: Name) returns (i: nat)
      ensures i == Bucket(name)
    {
      var h := HashFNV32aBuf(name, |name|, FNV1_32A_INIT);
      assert name[..|name|] == name;
      i := Low9(h);
    }

    /** `KeyCacheAlloc` and `KeyCacheInsert`: `memory` says whether there was
        memory for the entry. */
    method KeyCacheAlloc(fbmem: nat, name: Name, memory: bool) returns (ok: bool)
      requires Linked() && IsName(name) && name !in table
      requires forall n :: n in table ==> table[n] != fbmem
      modifies buckets, `table
      ensures Linked() && ok == memory
      ensures table == if ok then old(table)[name := fbmem] else old(table)
    {
      hide Bucket, BucketOk, Holds;
      if |name| > NAME_MAX || !memory {
        return false;
      }
      var i := NameHash(name);
      InsertKeeps(buckets[..], table, Entry(name, fbmem));
      ghost var b := buckets[..];
      buckets[i] := [Entry(name, fbmem)] + buckets[i];
      assert buckets[..] == Inserted(b, Entry(name, fbmem));
      table := table[name := fbmem];
      ok := true;
    }

    /** `KeyCacheLookup`. */
    method KeyCacheLookup(name: Name) returns (r: Code, fbmem: nat)
      requires Linked() && IsString(name)
      ensures r == if name in table then OK else ENOENT
      ensures name in table ==> fbmem == table[name]
    {
      hide Bucket, IsName, IsString, BucketOk, Holds, Matches;
      var i := NameHash(name);
      var k := 0;
      while k < |buckets[i]|
        invariant 0 <= k <= |buckets[i]| && NoMatch(buckets[i], name, k)
      {
        if Matches(buckets[i][k], name) {
          LookupFinds(buckets[i], table, name, k);
          return OK, buckets[i][k].fbmem;
        }
        k := k + 1;
      }
      LookupMisses(buckets[..], table, name);
      return ENOENT, 0;
    }

    /** `FbMemKeyCacheFree`: delete the first entry found for the object. */
    method FbMemKeyCacheFree(fbmem: nat)
      requires Linked()
      modifies buckets, `table
      ensures Linked() && table == Without(old(table), fbmem)
    {
      hide Bucket, IsName, BucketOk, Holds, NoneTo;
      var i := 0;
      while i < SIZE
        invariant 0 <= i <= SIZE && buckets[..] == old(buckets[..]) && table == old(table)
        invariant forall j :: 0 <= j < i ==> NoneTo(buckets[j], fbmem, |buckets[j]|)
      {
        var k := FindTo(buckets[i], fbmem);
        if k < |buckets[i]| {
          FreeFinds(buckets[..], table, fbmem, i, k);
          buckets[i] := Deleted(buckets[i], k);
          assert buckets[..] == old(buckets[..])[i := Deleted(old(buckets[i]), k)];
          table := Without(table, fbmem);
          WithoutInjective(old(table), fbmem);
          return;
        }
        i := i + 1;
      }
      FreeMisses(buckets[..], table, fbmem);
    }

    /** `FbMemLookup`; `dummy` is the flag V_DUMMY, with which only
        `register_driver` calls it, after it has checked the length. */
    method FbMemLookup(key: Name, dummy: bool, mem: Memory, entryMem: bool) returns (r: Code, result: nat)
      requires Linked() && Allocated(table, heap) && IsString(key) && (dummy ==> IsName(key))
      requires mem.At? ==> mem.addr !in heap
      modifies buckets, `table, `heap
      ensures Linked() && Allocated(table, heap)
      ensures key in old(table) ==> r == OK && result == old(table)[key]
      ensures key !in old(table) ==> r == if !dummy then ENXIO else if mem.NoMemory? then NOK else OK
      ensures key in old(table) || r != OK ==>
                table == old(table) && heap == old(heap) && buckets[..] == old(buckets[..])
      ensures key !in old(table) && r == OK ==> result == mem.addr && heap == old(heap)[result := 0]
                                                && table == if entryMem then old(table)[key := result] else old(table)
    {
      hide IsName, Represents, Injective;
      r, result := KeyCacheLookup(key);
      if r == OK {
        return;
      }
      if !dummy {
        return ENXIO, 0;
      }
      if mem.NoMemory? {
        return NOK, 0;
      }
      heap := heap[mem.addr := 0];
      var _ := KeyCacheAlloc(mem.addr, key, entryMem);
      return OK, mem.addr;
    }

    /** `register_driver`.  It answers OK even when there was no memory for the
        entry, and then the name is not registered. */
    method RegisterDriver(key: Str, prev: Data, mem: Memory, entryMem: bool) returns (r: Code)
      requires Valid() && (key.Str? ==> 0 !in key.chars)
      requires mem.At? ==> mem.addr !in heap
      modifies buckets, `table, `heap, `ops
      ensures Valid()
      ensures r == EINVAL <==> key.Null? || |key.chars| >= 256
      ensures r != EINVAL ==> (r == EEXIST <==> key.chars in old(table))
      ensures r != EINVAL && r != EEXIST ==> r == if mem.At? then OK else NOK
      ensures r != OK ==> table == old(table) && heap == old(heap)
      ensures r == OK ==> heap == old(heap)[mem.addr := prev]
      ensures r == OK ==> table == if entryMem then old(table)[key.chars := mem.addr] else old(table)
      ensures r == OK ==> (key.chars in table <==> entryMem)
      ensures ops == if (r == OK && entryMem) || r == EEXIST then old(ops) + [Register(key.chars, prev)] else old(ops)
    {
      hide Represents, Injective, View, Allocated, Run, Effect;
      if key.Null? || |key.chars| >= NAME_LIMIT {
        return EINVAL;
      }
      ghost var t, h := table, heap;
      var name := key.chars;
      var fbmem;
      r, fbmem := FbMemLookup(name, false, NoMemory, entryMem);
      if r == OK {
        ViewSame(t, h, name, prev);
        RunNext(ops, Register(name, prev));
        ops := ops + [Register(name, prev)];
        return EEXIST;
      }
      r, fbmem := FbMemLookup(name, true, mem, entryMem);
      if r == OK {
        heap := heap[fbmem := prev];
        assert heap == h[fbmem := prev];
        if entryMem {
          ViewRegister(t, h, name, fbmem, prev);
          RunNext(ops, Register(name, prev));
          ops := ops + [Register(name, prev)];
        } else {
          ViewLeak(t, h, fbmem, prev);
        }
      }
    }

    /** `unregister_driver`. */
    method UnregisterDriver(key: Str) returns (r: Code)
      requires Valid() && (key.Str? ==> 0 !in key.chars)
      modifies buckets, `table, `heap, `ops
      ensures Valid()
      ensures r == EINVAL <==> key.Null? || |key.chars| >= 256
      ensures r != EINVAL ==> r == if key.chars in old(table) then OK else ENOENT
      ensures r != OK ==> table == old(table) && heap == old(heap)
      ensures r == OK ==> table == old(table) - {key.chars} && heap == old(heap) - {old(table)[key.chars]}
      ensures ops == if r == EINVAL then old(ops) else old(ops) + [Unregister(key.chars)]
    {
      hide Represents, View, Allocated, Run, Effect;
      if key.Null? || |key.chars| >= NAME_LIMIT {
        return EINVAL;
      }
      var name := key.chars;
      ghost var t, h := table, heap;
      var fbmem;
      r, fbmem := KeyCacheLookup(name);
      if r == OK {
        FbMemKeyCacheFree(fbmem);
        heap := heap - {fbmem};
        ViewUnregister(t, h, name);
      } else {
        ViewSame(t, h, name, 0);
      }
      RunNext(ops, Unregister(name));
      ops := ops + [Unregister(name)];
    }

    static method FindTo(list: seq<Entry>, fbmem: nat) returns (k: nat)
      ensures k <= |list| && NoneTo(list, fbmem, k)
      ensures k < |list| ==> list[k].fbmem == fbmem
    {
      k := 0;
      while k < |list| && list[k].fbmem != fbmem
        invariant k <= |list| && NoneTo(list, fbmem, k)
      {
        k := k + 1;
      }
    }
  }

  lemma WithoutInjective(t: Table, p: nat)
    requires Injective(t)
    ensures Injective(Without(t, p))
  {
  }
}
