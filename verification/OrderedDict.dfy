/** An insertion-ordered dictionary of strings: headers, and user credentials. */
module OrderedDict {
  import opened Options

  type Dict = seq<(string, string)>

  function Get(d: Dict, key: string): Option<string> {
    if d == [] then None
    else if d[0].0 == key then Some(d[0].1)
    else Get(d[1..], key)
  }

  predicate Has(d: Dict, key: string) {
    Get(d, key).Some?
  }

  /** Assignment keeps the place of a key that is already there. */
  function Set(d: Dict, key: string, value: string): Dict {
    if d == [] then [(key, value)]
    else if d[0].0 == key then [(key, value)] + d[1..]
    else [d[0]] + Set(d[1..], key, value)
  }

  function Remove(d: Dict, key: string): Dict {
    if d == [] then []
    else if d[0].0 == key then d[1..]
    else [d[0]] + Remove(d[1..], key)
  }

  predicate DistinctKeys(d: Dict) {
    d == [] || (!Has(d[1..], d[0].0) && DistinctKeys(d[1..]))
  }

  lemma {:induction false} GetSet(d: Dict, key: string, value: string, other: string)
    ensures Get(Set(d, key, value), other) == if other == key then Some(value) else Get(d, other)
  {
    if d != [] && d[0].0 != key {
      GetSet(d[1..], key, value, other);
      assert Set(d, key, value)[1..] == Set(d[1..], key, value);
    }
  }

  lemma {:induction false} SetDistinct(d: Dict, key: string, value: string)
    requires DistinctKeys(d)
    ensures DistinctKeys(Set(d, key, value))
  {
    if d == [] {
      assert Set(d, key, value)[1..] == [];
    } else if d[0].0 != key {
      SetDistinct(d[1..], key, value);
      GetSet(d[1..], key, value, d[0].0);
      assert Set(d, key, value)[1..] == Set(d[1..], key, value);
    }
  }

  lemma {:induction false} GetRemove(d: Dict, key: string, other: string)
    requires DistinctKeys(d)
    ensures Get(Remove(d, key), other) == if other == key then None else Get(d, other)
    ensures DistinctKeys(Remove(d, key))
  {
    if d != [] && d[0].0 != key {
      GetRemove(d[1..], key, other);
      GetRemove(d[1..], key, d[0].0);
      assert Remove(d, key)[1..] == Remove(d[1..], key);
    }
  }

  /** Every stored pair is found under its own key. */
  lemma {:induction false} GetPair(d: Dict, i: nat)
    requires DistinctKeys(d) && i < |d|
    ensures Get(d, d[i].0) == Some(d[i].1)
  {
    if i > 0 {
      GetPair(d[1..], i - 1);
      assert d[1..][i - 1] == d[i];
    }
  }

  lemma {:induction false} GetIsPair(d: Dict, key: string) returns (i: nat)
    requires Has(d, key)
    ensures i < |d| && d[i] == (key, Get(d, key).value)
  {
    if d[0].0 == key {
      i := 0;
    } else {
      i := GetIsPair(d[1..], key);
      i := i + 1;
    }
  }
}
