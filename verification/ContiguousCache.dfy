/**
 The plain contiguous cache: one preallocated row of `maxLength` entries per batch row. What it holds before the first
 write is arbitrary.
 */
module ContiguousCaches {
  import opened PageContents

  /** A row after the entries [from, to) were assigned to the same positions of it. */
  function RowAssigned<T>(row: seq<T>, entries: seq<T>, from: nat, to: nat): (r: seq<T>)
    requires from <= to <= |entries| && to <= |row|
  {
    row[..from] + entries[from..to] + row[to..]
  }

  function RowsAssigned<T>(rows: seq<seq<T>>, entries: seq<seq<T>>, from: nat, to: nat): (r: seq<seq<T>>)
    requires |entries| == |rows| && from <= to && forall i | 0 <= i < |rows| :: to <= |entries[i]| && to <= |rows[i]|
    ensures |r| == |rows|
  {
    seq(|rows|, i requires 0 <= i < |rows| => RowAssigned(rows[i], entries[i], from, to))
  }

  class ContiguousCache<K, V> {
    const maxLength: nat
    const keyCache: array<seq<K>>
    const valueCache: array<seq<V>>

    ghost predicate Valid()
      reads keyCache, valueCache
    {
      && keyCache.Length == valueCache.Length && (keyCache as object) != (valueCache as object)
      && forall r | 0 <= r < keyCache.Length :: |keyCache[r]| == maxLength == |valueCache[r]|
    }

    constructor (maxLength: nat, keyRows: seq<seq<K>>, valueRows: seq<seq<V>>)
      requires |keyRows| == |valueRows| && forall r | 0 <= r < |keyRows| :: |keyRows[r]| == maxLength == |valueRows[r]|
      ensures Valid() && fresh(keyCache) && fresh(valueCache) && this.maxLength == maxLength
      ensures keyCache[..] == keyRows && valueCache[..] == valueRows
    {
      this.maxLength := maxLength;
      keyCache := new seq<K>[|keyRows|](i requires 0 <= i < |keyRows| => keyRows[i]);
      valueCache := new seq<V>[|valueRows|](i requires 0 <= i < |valueRows| => valueRows[i]);
    }

    method UpdateCache(newKeys: seq<seq<K>>, newValues: seq<seq<V>>, newLength: nat, prefix: nat)
      requires Valid() && newLength <= maxLength
      requires Complete(newKeys, keyCache.Length, newLength) && Complete(newValues, keyCache.Length, newLength)
      modifies keyCache, valueCache
      ensures Valid()
      ensures newLength <= prefix ==> keyCache[..] == old(keyCache[..]) && valueCache[..] == old(valueCache[..])
      ensures prefix < newLength ==>
                && keyCache[..] == RowsAssigned(old(keyCache[..]), newKeys, prefix, newLength)
                && valueCache[..] == RowsAssigned(old(valueCache[..]), newValues, prefix, newLength)
    {
      if prefix < newLength {
        AssignRows(keyCache, newKeys, prefix, newLength);
        AssignRows(valueCache, newValues, prefix, newLength);
      }
    }

    method AssignRows<T>(cache: array<seq<T>>, entries: seq<seq<T>>, from: nat, to: nat)
      requires |entries| == cache.Length && from <= to && forall i | 0 <= i < cache.Length ::
                 to <= |entries[i]| && to <= |cache[i]|
      modifies cache
      ensures cache[..] == RowsAssigned(old(cache[..]), entries, from, to)
    {
      for r := 0 to cache.Length
        invariant forall i | 0 <= i < r :: cache[i] == RowAssigned(old(cache[i]), entries[i], from, to)
        invariant forall i | r <= i < cache.Length :: cache[i] == old(cache[i])
      {
        cache[r] := cache[r][..from] + entries[r][from..to] + cache[r][to..];
      }
    }

    /** All rows are read before any is written. */
    method ReorderInPlace(hypo: seq<nat>)
      requires Valid() && |hypo| == keyCache.Length && forall j | 0 <= j < |hypo| :: hypo[j] < keyCache.Length
      modifies keyCache, valueCache
      ensures Valid()
      ensures keyCache[..] == Permuted(old(keyCache[..]), hypo) && valueCache[..] == Permuted(old(valueCache[..]), hypo)
    {
      forall r | 0 <= r < |hypo| { keyCache[r] := keyCache[hypo[r]]; }
      forall r | 0 <= r < |hypo| { valueCache[r] := valueCache[hypo[r]]; }
    }

    method SelectLayerPast(prefix: nat) returns (ks: seq<seq<K>>, vs: seq<seq<V>>)
      requires Valid() && prefix <= maxLength
      ensures |ks| == |vs| == keyCache.Length
      ensures forall r | 0 <= r < |ks| :: ks[r] == keyCache[r][..prefix] && vs[r] == valueCache[r][..prefix]
    {
      ks := seq(keyCache.Length, r requires 0 <= r < keyCache.Length
                && Valid() reads keyCache, valueCache => keyCache[r][..prefix]);
      vs := seq(valueCache.Length, r requires 0 <= r < valueCache.Length
                && Valid() reads keyCache, valueCache => valueCache[r][..prefix]);
    }
  }
}
