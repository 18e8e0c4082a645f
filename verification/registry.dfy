/** The names registered, as a map and as the history that led to it. */
module Registry {

  type Octet = bv8
  type Name = seq<Octet>
  type Data = int

  /** What can be done to the registry. */
  datatype Op = Register(name: Name, data: Data) | Unregister(name: Name)

  function Effect(m: map<Name, Data>, op: Op): map<Name, Data> {
    match op
    case Register(n, d) => if n in m then m else m[n := d]
    case Unregister(n) => m - {n}
  }

  function Run(ops: seq<Op>): map<Name, Data> {
    if ops == [] then map[] else Effect(Run(ops[..|ops| - 1]), ops[|ops| - 1])
  }

  /** `ops[k]` is what registered `n`: the first attempt since it was last
      absent. */
  predicate Since(ops: seq<Op>, k: nat, n: Name) {
    && k < |ops| && ops[k].Register? && ops[k].name == n
    && (forall j :: k < j < |ops| ==> ops[j] != Unregister(n))
  }

  predicate FreeBefore(ops: seq<Op>, k: nat, n: Name) {
    k <= |ops| && n !in Run(ops[..k])
  }

  /** A name is present exactly if it has been registered and not unregistered
      since, with the data of the attempt that found it absent. */
  lemma {:induction false} PresentIff(ops: seq<Op>, n: Name)
    ensures n in Run(ops) <==> exists k: nat :: Since(ops, k, n)
    ensures n in Run(ops) ==> exists k: nat :: Since(ops, k, n) && FreeBefore(ops, k, n) && ops[k].data == Run(ops)[n]
  {
    if ops != [] {
      var last := |ops| - 1;
      var init := ops[..last];
      PresentIff(init, n);
      if ops[last] == Unregister(n) {
        forall k: nat ensures !Since(ops, k, n) {
        }
      } else {
        forall k: nat | Since(init, k, n) ensures Since(ops, k, n) {
        }
        forall k: nat | Since(ops, k, n) && k < last ensures Since(init, k, n) {
        }
        if n in Run(init) {
          var k: nat :| Since(init, k, n) && FreeBefore(init, k, n) && init[k].data == Run(init)[n];
          assert ops[..k] == init[..k];
          assert Since(ops, k, n) && FreeBefore(ops, k, n);
        } else if ops[last].Register? && ops[last].name == n {
          assert Since(ops, last, n) && FreeBefore(ops, last, n);
        }
      }
    }
  }
}
