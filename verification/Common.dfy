/** What several components share. */
module Options {
  datatype Option<+T> = None | Some(value: T)
}

module Hashes {
  /** A block hash. */
  type Hash(==, !new)

  function Elements(s: seq<Hash>): set<Hash> {
    set h | h in s
  }
}

module Sequences {
  /** Each value, labelled with its key. */
  function Label<K, V>(k: K, vs: seq<V>): seq<(K, V)> {
    seq(|vs|, i requires 0 <= i < |vs| => (k, vs[i]))
  }
}

/** 32-bit saturating arithmetic on natural numbers. */
module Numbers {
  const U32_MAX: nat := 0xFFFF_FFFF

  function SatAdd(a: nat, b: nat): nat {
    if a + b <= U32_MAX then a + b else U32_MAX
  }

  function SatMul(a: nat, b: nat): nat {
    if a * b <= U32_MAX then a * b else U32_MAX
  }

  function SatSub(a: nat, b: nat): nat {
    if b <= a then a - b else 0
  }

  function Min(a: nat, b: nat): nat {
    if a <= b then a else b
  }
}

module Sets {
  lemma {:induction false} SubsetCard<T>(a: set<T>, b: set<T>)
    requires a <= b
    ensures |a| <= |b|
  {
    if a == {} {
    } else {
      var x :| x in a;
      SubsetCard(a - {x}, b - {x});
    }
  }
}
