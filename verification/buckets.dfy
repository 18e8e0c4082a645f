/** The hash buckets, as values. */
module Buckets {

  import opened Fnv
  import opened Registry

  const SIZE := 512   // LOSCFG_MAX_PATH_CACHE_SIZE
  const NAME_LIMIT := 256   // PATH_MAX
  const NAME_MAX := 255

  /** `struct KeyCache`; `fbmem` is an address. */
  datatype Entry = Entry(name: Name, fbmem: nat)

  type Table = map<Name, nat>

  /** The bucket of a name. */
  function Bucket(n: Name): (i: nat)
    ensures i < SIZE
  {
    Low9(Hash(n, FNV1_32A_INIT))
  }

  function Low9(h: bv32): (i: nat)
    ensures i < SIZE
  {
    (h & 511) as nat
  }

  /** The name "a" goes to bucket 300 of 512. */
  lemma KnownBucket()
    ensures Bucket([97]) == 300 && SIZE == 512
  {
    KnownHashes();
    assert (0xE40C_292C as bv32) & 511 == 300;
  }

  predicate IsName(n: Name) {
    |n| < NAME_LIMIT && IsString(n)
  }

  /** The characters of a C string before its terminator. */
  predicate IsString(n: Name) {
    0 !in n
  }

  function CharAt(s: Name, i: nat): Octet {
    if i < |s| then s[i] else 0
  }

  /** `!strncmp(a, b, n)` on terminated strings, from position `i`. */
  predicate StrnEqual(a: Name, b: Name, n: nat, i: nat)
    requires i <= n
    decreases n - i
  {
    i == n || (CharAt(a, i) == CharAt(b, i) && (CharAt(a, i) == 0 || StrnEqual(a, b, n, i + 1)))
  }

  lemma {:induction false} StrnEqualIs(a: Name, b: Name, i: nat)
    requires i <= |a| == |b| && 0 !in a && 0 !in b
    ensures StrnEqual(a, b, |a|, i) <==> a[i..] == b[i..]
    decreases |a| - i
  {
    if i < |a| {
      assert a[i] in a;
      StrnEqualIs(a, b, i + 1);
      assert a[i..] == [a[i]] + a[i + 1..] && b[i..] == [b[i]] + b[i + 1..];
    }
  }

  /** The test of `KeyCacheLookup`. */
  predicate Matches(e: Entry, n: Name) {
    |e.name| == |n| && StrnEqual(e.name, n, |n|, 0)
  }

  lemma MatchesIff(e: Entry, n: Name)
    requires IsName(e.name) && IsString(n)
    ensures Matches(e, n) <==> e.name == n
  {
    if |e.name| == |n| {
      StrnEqualIs(e.name, n, 0);
      assert e.name[0..] == e.name && n[0..] == n;
    }
  }

  // ----- buckets that represent a table -----

  predicate Placed(e: Entry, i: nat, t: Table) {
    IsName(e.name) && Bucket(e.name) == i && e.name in t && t[e.name] == e.fbmem
  }

  predicate Holds(list: seq<Entry>, n: Name) {
    exists k :: 0 <= k < |list| && list[k].name == n
  }

  /** At most one entry per name. */
  predicate Distinct(list: seq<Entry>) {
    forall k, l :: 0 <= k < l < |list| ==> list[k].name != list[l].name
  }

  predicate BucketOk(list: seq<Entry>, i: nat, t: Table) {
    (forall k :: 0 <= k < |list| ==> Placed(list[k], i, t)) && Distinct(list)
  }

  predicate Represents(b: seq<seq<Entry>>, t: Table) {
    && |b| == SIZE
    && (forall i :: 0 <= i < SIZE ==> BucketOk(b[i], i, t))
    && (forall n :: n in t ==> Holds(b[Bucket(n)], n))
  }

  /** No two names share an `fb_mem`. */
  predicate Injective(t: Table) {
    forall m, n :: m in t && n in t && t[m] == t[n] ==> m == n
  }

  function Inserted(b: seq<seq<Entry>>, e: Entry): seq<seq<Entry>>
    requires |b| == SIZE
  {
    b[Bucket(e.name) := [e] + b[Bucket(e.name)]]
  }

  function Deleted(list: seq<Entry>, k: nat): seq<Entry>
    requires k < |list|
  {
    list[..k] + list[k + 1..]
  }

  lemma BucketOkWider(list: seq<Entry>, i: nat, t: Table, n: Name, p: nat)
    requires BucketOk(list, i, t) && n !in t
    ensures BucketOk(list, i, t[n := p])
  {
    hide Bucket, IsName, Distinct;
  }

  lemma BucketOkInsert(list: seq<Entry>, t: Table, e: Entry)
    requires BucketOk(list, Bucket(e.name), t) && e.name !in t && IsName(e.name)
    ensures BucketOk([e] + list, Bucket(e.name), t[e.name := e.fbmem])
  {
    hide Bucket, IsName;
  }

  lemma InsertKeeps(b: seq<seq<Entry>>, t: Table, e: Entry)
    requires Represents(b, t) && e.name !in t && IsName(e.name)
    ensures Represents(Inserted(b, e), t[e.name := e.fbmem])
  {
    hide Bucket, IsName, BucketOk, Holds;
    var c, u := Inserted(b, e), t[e.name := e.fbmem];
    forall i | 0 <= i < SIZE ensures BucketOk(c[i], i, u) {
      BucketOkWider(b[i], i, t, e.name, e.fbmem);
      if i == Bucket(e.name) {
        BucketOkInsert(b[i], t, e);
      }
    }
    forall n | n in u ensures Holds(c[Bucket(n)], n) {
      HoldsInsert(b[Bucket(n)], e, n);
    }
  }

  lemma HoldsInsert(list: seq<Entry>, e: Entry, n: Name)
    ensures n == e.name || Holds(list, n) ==> Holds([e] + list, n)
  {
    if n == e.name {
      assert ([e] + list)[0].name == n;
    } else if Holds(list, n) {
      var k :| 0 <= k < |list| && list[k].name == n;
      assert ([e] + list)[k + 1].name == n;
    }
  }

  lemma BucketOkNarrower(list: seq<Entry>, i: nat, t: Table, n: Name)
    requires BucketOk(list, i, t) && Bucket(n) != i
    ensures BucketOk(list, i, t - {n})
  {
    hide Bucket, IsName, Distinct;
  }

  lemma BucketOkDelete(list: seq<Entry>, i: nat, t: Table, k: nat)
    requires BucketOk(list, i, t) && k < |list|
    ensures BucketOk(Deleted(list, k), i, t - {list[k].name})
  {
    hide Bucket, IsName;
    var d := Deleted(list, k);
    forall l | 0 <= l < |d| ensures Placed(d[l], i, t - {list[k].name}) {
      assert d[l] == list[if l < k then l else l + 1];
    }
  }

  lemma HoldsDelete(list: seq<Entry>, k: nat, n: Name)
    requires k < |list| && Holds(list, n) && n != list[k].name
    ensures Holds(Deleted(list, k), n)
  {
    var l :| 0 <= l < |list| && list[l].name == n;
    assert Deleted(list, k)[if l < k then l else l - 1] == list[l];
  }

  lemma DeleteKeeps(b: seq<seq<Entry>>, t: Table, i: nat, k: nat)
    requires Represents(b, t) && i < SIZE && k < |b[i]|
    ensures Represents(b[i := Deleted(b[i], k)], t - {b[i][k].name})
  {
    hide IsName, BucketOk, Holds, Deleted, Bucket;
    var n := b[i][k].name;
    PlacedThere(b[i], i, t, k);
    var c, u := b[i := Deleted(b[i], k)], t - {n};
    forall j | 0 <= j < SIZE ensures BucketOk(c[j], j, u) {
      if j == i {
        BucketOkDelete(b[i], i, t, k);
      } else {
        BucketOkNarrower(b[j], j, t, n);
      }
    }
    forall m | m in u ensures Holds(c[Bucket(m)], m) {
      if Bucket(m) == i {
        HoldsDelete(b[i], k, m);
      }
    }
  }

  lemma PlacedThere(list: seq<Entry>, i: nat, t: Table, k: nat)
    requires BucketOk(list, i, t) && k < |list|
    ensures Placed(list[k], i, t) && Bucket(list[k].name) == i
    ensures IsName(list[k].name) && list[k].name in t && t[list[k].name] == list[k].fbmem
  {
    hide Bucket, IsName, Distinct;
  }

  // ----- looking up and freeing -----

  lemma LookupFinds(list: seq<Entry>, t: Table, n: Name, k: nat)
    requires BucketOk(list, Bucket(n), t) && k < |list| && IsString(n) && Matches(list[k], n)
    ensures n in t && t[n] == list[k].fbmem
  {
    hide Bucket, Matches, IsName;
    PlacedThere(list, Bucket(n), t, k);
    MatchesIff(list[k], n);
  }

  predicate NoMatch(list: seq<Entry>, n: Name, k: nat) {
    forall j :: 0 <= j < k && j < |list| ==> !Matches(list[j], n)
  }

  lemma LookupMisses(b: seq<seq<Entry>>, t: Table, n: Name)
    requires Represents(b, t) && IsString(n) && NoMatch(b[Bucket(n)], n, |b[Bucket(n)]|)
    ensures n !in t
  {
    hide Bucket, Matches, IsName;
    var list := b[Bucket(n)];
    if n in t {
      var k :| 0 <= k < |list| && list[k].name == n;
      PlacedThere(list, Bucket(n), t, k);
      MatchesIff(list[k], n);
    }
  }

  /** No entry of the list points to `p`. */
  predicate NoneTo(list: seq<Entry>, p: nat, k: nat) {
    forall j :: 0 <= j < k && j < |list| ==> list[j].fbmem != p
  }

  /** The table without the names that map to `p`. */
  ghost function Without(t: Table, p: nat): Table {
    map n | n in t && t[n] != p :: t[n]
  }

  lemma FreeFinds(b: seq<seq<Entry>>, t: Table, p: nat, i: nat, k: nat)
    requires Represents(b, t) && Injective(t) && i < SIZE && k < |b[i]| && b[i][k].fbmem == p
    ensures Represents(b[i := Deleted(b[i], k)], Without(t, p))
  {
    hide IsName, Bucket, Placed, BucketOk, Holds, Deleted;
    PlacedThere(b[i], i, t, k);
    DeleteKeeps(b, t, i, k);
    assert Without(t, p) == t - {b[i][k].name};
  }

  lemma FreeMisses(b: seq<seq<Entry>>, t: Table, p: nat)
    requires Represents(b, t)
    requires forall i :: 0 <= i < SIZE ==> NoneTo(b[i], p, |b[i]|)
    ensures Without(t, p) == t
  {
    hide IsName, Bucket, BucketOk, Distinct;
    forall n | n in t ensures t[n] != p {
      var list := b[Bucket(n)];
      var k :| 0 <= k < |list| && list[k].name == n;
      PlacedThere(list, Bucket(n), t, k);
      assert NoneTo(list, p, |list|);
    }
  }

  // ----- what the registry shows -----

  ghost predicate Allocated(t: Table, heap: map<nat, Data>) {
    forall n :: n in t ==> t[n] in heap
  }

  ghost function View(t: Table, heap: map<nat, Data>): map<Name, Data>
    requires Allocated(t, heap)
  {
    map n | n in t :: heap[t[n]]
  }

  lemma ViewLeak(t: Table, heap: map<nat, Data>, p: nat, d: Data)
    requires Allocated(t, heap) && p !in heap
    ensures Allocated(t, heap[p := d]) && View(t, heap[p := d]) == View(t, heap)
  {
  }

  lemma ViewRegister(t: Table, heap: map<nat, Data>, n: Name, p: nat, d: Data)
    requires Allocated(t, heap) && Injective(t) && p !in heap && n !in t
    ensures Allocated(t[n := p], heap[p := d]) && Injective(t[n := p])
    ensures View(t[n := p], heap[p := d]) == Effect(View(t, heap), Register(n, d))
  {
  }

  lemma ViewUnregister(t: Table, heap: map<nat, Data>, n: Name)
    requires Allocated(t, heap) && Injective(t) && n in t
    ensures Allocated(Without(t, t[n]), heap - {t[n]}) && Injective(Without(t, t[n]))
    ensures View(Without(t, t[n]), heap - {t[n]}) == Effect(View(t, heap), Unregister(n))
    ensures Without(t, t[n]) == t - {n}
  {
  }

  lemma ViewSame(t: Table, heap: map<nat, Data>, n: Name, d: Data)
    requires Allocated(t, heap)
    ensures n in t ==> Effect(View(t, heap), Register(n, d)) == View(t, heap)
    ensures n !in t ==> Effect(View(t, heap), Unregister(n)) == View(t, heap)
  {
  }

  lemma RunNext(ops: seq<Op>, op: Op)
    ensures Run(ops + [op]) == Effect(Run(ops), op)
  {
    hide Effect;
    assert (ops + [op])[..|ops|] == ops;
  }
}
