/** Types and finite-map sums shared by the storage-transfer modules. */
module Common {

  type byte = b: int | 0 <= b < 256

  /** Byte strings. Rust strings are their UTF-8 bytes, so names and CIDs are byte strings too. */
  type Bytes = seq<byte>

  datatype Option<+T> = None | Some(value: T)

  datatype Result<+T> = Ok(value: T) | Err

  const MAX_WANT_CHUNKS := 8192
  const MAX_WANT_BLOCK_BYTES := 8 * 1024 * 1024

  function Min(a: int, b: int): int {
    if a <= b then a else b
  }

  function Max(a: int, b: int): int {
    if a <= b then b else a
  }

  /** The sum of `f` over the values of a map, in no particular order. */
  ghost function Sum<K, V>(m: map<K, V>, f: V -> nat): nat
    decreases |m|
  {
    if m == map[] then 0 else
    var k :| k in m;
    f(m[k]) + Sum(m - {k}, f)
  }

  /** Any key may be taken out first. */
  lemma {:induction false} SumRemove<K, V>(m: map<K, V>, f: V -> nat, k: K)
    requires k in m
    ensures Sum(m, f) == f(m[k]) + Sum(m - {k}, f)
    decreases |m|
  {
    var j :| j in m && Sum(m, f) == f(m[j]) + Sum(m - {j}, f);
    if j != k {
      SumRemove(m - {j}, f, k);
      SumRemove(m - {k}, f, j);
      assert m - {j} - {k} == m - {k} - {j};
    }
  }

  lemma SumUpdate<K, V>(m: map<K, V>, f: V -> nat, k: K, v: V)
    ensures k in m ==> Sum(m[k := v], f) == Sum(m, f) - f(m[k]) + f(v)
    ensures k !in m ==> Sum(m[k := v], f) == Sum(m, f) + f(v)
  {
    SumRemove(m[k := v], f, k);
    assert m[k := v] - {k} == m - {k};
    if k in m {
      SumRemove(m, f, k);
    } else {
      assert m - {k} == m;
    }
  }

  /** Dropping keys and shrinking values cannot raise the sum, whatever the values are measured by. */
  lemma {:induction false} SumBelow<K, V, W>(small: map<K, V>, f: V -> nat, big: map<K, W>, g: W -> nat)
    requires forall k | k in small :: k in big && f(small[k]) <= g(big[k])
    ensures Sum(small, f) <= Sum(big, g)
    decreases |small|
  {
    if small != map[] {
      var k :| k in small;
      SumRemove(small, f, k);
      SumRemove(big, g, k);
      SumBelow(small - {k}, f, big - {k}, g);
    }
  }

  lemma SumShrinks<K, V>(small: map<K, V>, big: map<K, V>, f: V -> nat)
    requires forall k | k in small :: k in big && f(small[k]) <= f(big[k])
    ensures Sum(small, f) <= Sum(big, f)
  {
    SumBelow(small, f, big, f);
  }

  const Amount: nat -> nat := (n: nat) => n

  lemma UpdateSize<K, V>(m: map<K, V>, k: K, v: V)
    ensures |m[k := v]| == if k in m then |m| else |m| + 1
  {
    assert m[k := v].Keys == m.Keys + {k};
  }

  /** A map whose keys are among those of another has no more entries. */
  lemma SubmapSize<K, V, W>(small: map<K, V>, big: map<K, W>)
    requires small.Keys <= big.Keys
    ensures |small| <= |big|
  {
    SubsetSize(small.Keys, big.Keys);
  }

  lemma {:induction false} SubsetSize<K>(small: set<K>, big: set<K>)
    requires small <= big
    ensures |small| <= |big|
    decreases small
  {
    if small != {} {
      var k :| k in small;
      SubsetSize(small - {k}, big - {k});
    }
  }

  // ---- products ----

  lemma MulMonotone(a: nat, b: nat, c: nat)
    requires a <= b
    ensures a * c <= b * c
  {
    assert b * c == a * c + (b - a) * c;
  }

  lemma NotNegative(a: real, b: real, ab: real)
    requires a >= 0.0 && b >= 0.0 && ab == a * b
    ensures ab >= 0.0
  {
  }

  lemma Positive(a: real, b: real, ab: real)
    requires a > 0.0 && b > 0.0 && ab == a * b
    ensures ab > 0.0
  {
  }

  lemma MulCancel(a: nat, b: nat, c: nat)
    requires a * c < b * c
    ensures a < b
  {
    if b <= a { MulMonotone(b, a, c); }
  }
}
