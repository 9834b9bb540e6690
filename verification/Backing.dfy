/** The check that a backed candidate was signed by the validators its bitfield names. */
module Backing {
  import opened Options

  type ValidatorId(==, !new)
  type Attestation(==, !new)

  datatype BackingResult = Ok(signed: nat) | Err

  /** The positions of the set bits, in ascending order. */
  function SetBits(bits: seq<bool>): seq<nat> {
    if bits == [] then []
    else
      var last := |bits| - 1;
      SetBits(bits[..last]) + (if bits[last] then [last] else [])
  }

  predicate Ascending(s: seq<nat>) {
    forall i, j :: 0 <= i < j < |s| ==> s[i] < s[j]
  }

  lemma AscendingSnoc(s: seq<nat>, x: nat)
    requires Ascending(s) && forall y :: y in s ==> y < x
    ensures Ascending(s + [x])
  {
    forall i, j | 0 <= i < j < |s + [x]|
      ensures (s + [x])[i] < (s + [x])[j]
    {
      assert s[i] in s;
    }
  }

  /** They ascend, are set, and leave out no set bit. */
  lemma {:induction false} SetBitsFacts(bits: seq<bool>)
    ensures Ascending(SetBits(bits)) && |SetBits(bits)| <= |bits|
    ensures forall p :: p in SetBits(bits) <==> 0 <= p < |bits| && bits[p]
  {
    if bits == [] {
    } else {
      var last := |bits| - 1;
      var before := SetBits(bits[..last]);
      SetBitsFacts(bits[..last]);
      AscendingSnoc(before, last);
      if bits[last] {
        assert SetBits(bits) == before + [last];
      } else {
        assert SetBits(bits) == before;
      }
    }
  }

  lemma {:induction false} SetBitsPrefix(bits: seq<bool>, p: nat)
    requires p <= |bits|
    ensures SetBits(bits[..p]) <= SetBits(bits)
  {
    if p == |bits| {
      assert bits[..p] == bits;
    } else {
      var last := |bits| - 1;
      assert bits[..last][..p] == bits[..p];
      SetBitsPrefix(bits[..last], p);
    }
  }

  /** The next bit, if set, is the next signer. */
  lemma NextSigner(bits: seq<bool>, p: nat)
    requires p < |bits|
    ensures SetBits(bits[..p + 1]) == SetBits(bits[..p]) + (if bits[p] then [p] else [])
    ensures bits[p] ==> |SetBits(bits[..p])| < |SetBits(bits)| && SetBits(bits)[|SetBits(bits[..p])|] == p
  {
    SetBitsPrefix(bits, p + 1);
    assert bits[..p + 1][..p] == bits[..p];
  }

  /** The i-th vote verifies under the validator at the i-th set bit. */
  ghost predicate VoteOk(signers: seq<nat>, votes: seq<Attestation>, lookup: nat -> Option<ValidatorId>,
                         verifies: (Attestation, ValidatorId) -> bool, i: nat)
    requires i < |signers| && i < |votes|
  {
    lookup(signers[i]).Some? && verifies(votes[i], lookup(signers[i]).value)
  }

  /**
   The check succeeds with `n` exactly when the bitfield has the length of the group, `n` is the number of votes
   and no more than the number of set bits, and each vote verifies under the validator at its set bit.
   */
  method CheckCandidateBacking(bits: seq<bool>, votes: seq<Attestation>, groupLen: nat,
                               lookup: nat -> Option<ValidatorId>, verifies: (Attestation, ValidatorId) -> bool)
    returns (r: BackingResult)
    ensures var signers := SetBits(bits);
            r.Ok? <==>
              && |bits| == groupLen && |votes| <= |signers|
              && forall i :: 0 <= i < |votes| ==> VoteOk(signers, votes, lookup, verifies, i)
    ensures r.Ok? ==> r.signed == |votes|
  {
    if |bits| != groupLen {
      return Err;
    }
    ghost var signers := SetBits(bits);
    SetBitsFacts(bits);
    if |votes| > groupLen {
      return Err;
    }
    var signed := 0;
    var p := 0;
    while p < |bits| && signed < |votes|
      invariant 0 <= p <= |bits| && 0 <= signed <= |votes| && signed <= |signers|
      invariant |SetBits(bits[..p])| == signed
      invariant forall i :: 0 <= i < signed ==> VoteOk(signers, votes, lookup, verifies, i)
    {
      NextSigner(bits, p);
      if bits[p] {
        var validator := lookup(p);
        if validator.None? || !verifies(votes[signed], validator.value) {
          assert !VoteOk(signers, votes, lookup, verifies, signed);
          return Err;
        }
        signed := signed + 1;
      }
      p := p + 1;
    }
    if p == |bits| {
      assert bits[..p] == bits;
    }
    if signed != |votes| {
      return Err;
    }
    return Ok(signed);
  }

  /** The positions that the votes were checked against. */
  function Signers(bits: seq<bool>, n: nat): set<nat>
    requires n <= |SetBits(bits)|
  {
    set p | p in SetBits(bits)[..n]
  }

  lemma {:induction false} SignersCount(bits: seq<bool>, n: nat)
    requires n <= |SetBits(bits)|
    ensures |Signers(bits, n)| == n
  {
    if n == 0 {
    } else {
      SignersCount(bits, n - 1);
      SetBitsFacts(bits);
      var s := SetBits(bits);
      assert s[..n] == s[..n - 1] + [s[n - 1]];
      assert Signers(bits, n) == Signers(bits, n - 1) + {s[n - 1]};
    }
  }

  /** A backing with `n` votes names `n` different positions of the group, each with a valid signature. */
  lemma DistinctSigners(bits: seq<bool>, votes: seq<Attestation>, lookup: nat -> Option<ValidatorId>,
                        verifies: (Attestation, ValidatorId) -> bool)
    requires |votes| <= |SetBits(bits)|
    requires forall i :: 0 <= i < |votes| ==> VoteOk(SetBits(bits), votes, lookup, verifies, i)
    ensures |Signers(bits, |votes|)| == |votes|
    ensures forall p :: p in Signers(bits, |votes|) ==>
              && p < |bits| && bits[p] && lookup(p).Some?
              && exists v :: v in votes && verifies(v, lookup(p).value)
  {
    SignersCount(bits, |votes|);
    SetBitsFacts(bits);
    forall p | p in Signers(bits, |votes|)
      ensures p < |bits| && bits[p] && lookup(p).Some? && exists v :: v in votes && verifies(v, lookup(p).value)
    {
      var i :| 0 <= i < |votes| && SetBits(bits)[i] == p;
      assert SetBits(bits)[i] in SetBits(bits);
      assert VoteOk(SetBits(bits), votes, lookup, verifies, i);
    }
  }
}
