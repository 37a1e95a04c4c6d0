/** A Python dictionary from bucket name to row count: insertion order is kept, and assigning
    to a key already present overwrites its count in place. */
module Counts {
  type Tally = seq<(string, nat)>

  function Put(d: Tally, key: string, n: nat): Tally {
    if d == [] then [(key, n)]
    else if d[0].0 == key then [(key, n)] + d[1..]
    else [d[0]] + Put(d[1..], key, n)
  }

  function Get(d: Tally, key: string): nat {
    if d == [] then 0 else if d[0].0 == key then d[0].1 else Get(d[1..], key)
  }

  function Total(d: Tally): nat {
    if d == [] then 0 else d[0].1 + Total(d[1..])
  }

  lemma {:induction false} GetPut(d: Tally, key: string, n: nat, other: string)
    ensures Get(Put(d, key, n), other) == if other == key then n else Get(d, other)
  {
    if d != [] && d[0].0 != key {
      GetPut(d[1..], key, n, other);
    }
  }

  /** Assigning to a key loses whatever count it held. */
  lemma {:induction false} TotalPut(d: Tally, key: string, n: nat)
    ensures Total(Put(d, key, n)) + Get(d, key) == Total(d) + n
  {
    if d != [] && d[0].0 != key {
      TotalPut(d[1..], key, n);
    }
  }
}
