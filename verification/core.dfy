/** Identifiers and small containers shared by every component. */
module Core {

  const U64_MAX: int := 0xFFFF_FFFF_FFFF_FFFF

  type U64 = n: int | 0 <= n <= 0xFFFF_FFFF_FFFF_FFFF

  type Byte = n: int | 0 <= n < 256

  type Bytes = seq<Byte>

  /** A 32-byte digest. */
  type Hash32 = b: Bytes | |b| == 32 witness seq(32, _ => 0)

  /** The UTF-8 bytes of a string; lengths are machine words. */
  type Text = b: Bytes | |b| <= U64_MAX

  /** Content address of an immutable block. */
  datatype BlockId = BlockId(raw: Hash32)

  datatype AgentId = AgentId(raw: Hash32)

  datatype Fingerprint = Fingerprint(modelId: Text, tokenizerHash: Text, kvLayout: Text)

  datatype CacheKey = CacheKey(fingerprint: Fingerprint, prefixHash: BlockId)

  datatype Option<+T> = None | Some(value: T)

  datatype Result<+T, +E> = Ok(value: T) | Err(error: E)

  /** The content hash is a parameter everywhere: nothing is assumed of it
      unless a lemma says so. */
  type Hasher = Bytes -> BlockId

  function Lookup<K, V>(m: map<K, V>, k: K): (r: Option<V>)
  {
    if k in m then Some(m[k]) else None
  }

  lemma SubsetSize<T>(a: set<T>, b: set<T>)
    requires a <= b
    ensures |a| <= |b|
  {
    assert b == a + (b - a);
  }
}

/** Sums over finite maps. */
module MapSums {

  /** The sum of all values of `weights`. */
  ghost function Total<K>(weights: map<K, nat>): (n: nat)
  {
    if weights == map[] then 0
    else
      var k :| k in weights;
      weights[k] + Total(weights - {k})
  }

  /** Any key may be taken out first. */
  lemma {:induction false} TotalPick<K>(weights: map<K, nat>, k: K)
    requires k in weights
    ensures Total(weights) == weights[k] + Total(weights - {k})
    decreases |weights|
  {
    var j :| j in weights && Total(weights) == weights[j] + Total(weights - {j});
    if j != k {
      TotalPick(weights - {j}, k);
      TotalPick(weights - {k}, j);
      assert weights - {j} - {k} == weights - {k} - {j};
    }
  }

  /** Writing one entry changes the sum by the difference of its values. */
  lemma TotalUpdate<K>(weights: map<K, nat>, k: K, v: nat)
    ensures Total(weights[k := v]) == Total(weights) - (if k in weights then weights[k] else 0) + v
  {
    TotalPick(weights[k := v], k);
    if k in weights {
      TotalPick(weights, k);
      assert weights[k := v] - {k} == weights - {k};
    } else {
      assert weights[k := v] - {k} == weights;
    }
  }

  /** Removing one entry lowers the sum by its value. */
  lemma TotalRemove<K>(weights: map<K, nat>, k: K)
    ensures Total(weights - {k}) == Total(weights) - (if k in weights then weights[k] else 0)
  {
    if k in weights {
      TotalPick(weights, k);
    } else {
      assert weights - {k} == weights;
    }
  }

  /** A single entry never exceeds the sum. */
  lemma TotalAtLeast<K>(weights: map<K, nat>, k: K)
    requires k in weights
    ensures weights[k] <= Total(weights)
  {
    TotalPick(weights, k);
  }

  /** Larger values, larger sum. */
  lemma {:induction false} TotalMonotone<K>(small: map<K, nat>, large: map<K, nat>)
    requires small.Keys == large.Keys && forall k :: k in small ==> small[k] <= large[k]
    ensures Total(small) <= Total(large)
    decreases |small|
  {
    if small != map[] {
      var k :| k in small;
      TotalPick(small, k);
      TotalPick(large, k);
      TotalMonotone(small - {k}, large - {k});
    }
  }

  lemma {:induction false} TotalZero<K>(w: map<K, nat>)
    requires forall k :: k in w ==> w[k] == 0
    ensures Total(w) == 0
    decreases |w|
  {
    if w != map[] {
      var k :| k in w;
      TotalPick(w, k);
      TotalZero(w - {k});
    }
  }
}
