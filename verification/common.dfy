/** Small helpers shared by the whole model: an optional value and the
    "insert pairs one after the other into a map" fold that both the SOAP
    argument decoder and the device's dispatch table perform. */
module Common {

  datatype Option<+T> = None | Some(value: T) {
    function GetOr(default: T): (v: T) {
      match this
      case Some(v) => v
      case None => default
    }
  }

  /** The map obtained by assigning `m[k] = v` for every pair of `ps`, first
      pair first (a C++ `map::operator[]` assignment loop). */
  function Insert<K, V>(acc: map<K, V>, ps: seq<(K, V)>): (m: map<K, V>)
    decreases |ps|
  {
    if ps == [] then acc else Insert(acc[ps[0].0 := ps[0].1], ps[1..])
  }

  /** The value of the LAST pair of `ps` whose key is `k`, if there is one. */
  function LastValue<K(==), V>(ps: seq<(K, V)>, k: K): (v: Option<V>)
    decreases |ps|
  {
    if ps == [] then None
    else match LastValue(ps[1..], k)
      case Some(v) => Some(v)
      case None => if ps[0].0 == k then Some(ps[0].1) else None
  }

  /** Looking a key up after the fold: a key written by some pair holds the
      value of the last such pair (later duplicates overwrite earlier ones);
      any other key keeps what `acc` had. */
  lemma {:induction false} InsertLookup<K, V>(acc: map<K, V>, ps: seq<(K, V)>, k: K)
    ensures LastValue(ps, k).Some? ==> k in Insert(acc, ps) && Insert(acc, ps)[k] == LastValue(ps, k).value
    ensures LastValue(ps, k).None? ==> (k in Insert(acc, ps) <==> k in acc)
    ensures LastValue(ps, k).None? && k in acc ==> Insert(acc, ps)[k] == acc[k]
    decreases |ps|
  {
    if ps != [] {
      InsertLookup(acc[ps[0].0 := ps[0].1], ps[1..], k);
    }
  }

  /** Some pair carries key `k` exactly when LastValue finds one. */
  lemma {:induction false} LastValueFound<K, V>(ps: seq<(K, V)>, k: K)
    ensures LastValue(ps, k).Some? <==> exists i :: 0 <= i < |ps| && ps[i].0 == k
    decreases |ps|
  {
    if ps != [] {
      LastValueFound(ps[1..], k);
      if exists i :: 0 <= i < |ps| && ps[i].0 == k {
        var i :| 0 <= i < |ps| && ps[i].0 == k;
        if i > 0 { assert ps[1..][i - 1].0 == k; }
      }
    }
  }

  /** LastValue really is the value of the last pair with that key. */
  lemma {:induction false} LastValueIsLast<K, V>(ps: seq<(K, V)>, i: nat)
    requires i < |ps|
    requires forall j :: i < j < |ps| ==> ps[j].0 != ps[i].0
    ensures LastValue(ps, ps[i].0) == Some(ps[i].1)
    decreases |ps|
  {
    if i == 0 {
      LastValueAbsent(ps[1..], ps[0].0);
    } else {
      LastValueIsLast(ps[1..], i - 1);
    }
  }

  /** No pair with key `k`: nothing is found. */
  lemma {:induction false} LastValueAbsent<K, V>(ps: seq<(K, V)>, k: K)
    requires forall j :: 0 <= j < |ps| ==> ps[j].0 != k
    ensures LastValue(ps, k) == None
    decreases |ps|
  {
    if ps != [] {
      LastValueAbsent(ps[1..], k);
    }
  }

  /** Moving a produced piece from the pending part of a result to the part
      already built. */
  lemma ShiftPrefix<T>(done: seq<T>, e: seq<T>, rest: seq<T>, tail: seq<T>, whole: seq<T>)
    requires done + rest == whole && rest == e + tail
    ensures (done + e) + tail == whole
  {
    assert done + (e + tail) == (done + e) + tail;
  }
}
