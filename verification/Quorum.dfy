/** Thresholds over a validator set: how many may be faulty, and what two supermajorities share. */
module Quorum {
  import opened Sets

  type Validator(==, !new)

  const MAX_VALIDATORS: nat := 65536

  datatype Threshold = Ok(count: nat) | TooManyValidators | NotEnoughValidators

  function ByzantineThreshold(n: nat): nat {
    if n == 0 then 0 else (n - 1) / 3
  }

  function SupermajorityThreshold(n: nat): nat {
    n - ByzantineThreshold(n)
  }

  function RecoveryThreshold(n: nat): Threshold {
    if n > MAX_VALIDATORS then TooManyValidators
    else if n <= 1 then NotEnoughValidators
    else Ok((n - 1) / 3 + 1)
  }

  /** The fault bound is the largest number of which three fit below `n`, and a supermajority is all the others. */
  lemma ThresholdsExactly(n: nat, f: nat)
    ensures ByzantineThreshold(0) == 0 == SupermajorityThreshold(0)
    ensures n >= 1 ==> (f == ByzantineThreshold(n) <==> 3 * f + 1 <= n <= 3 * f + 3)
    ensures SupermajorityThreshold(n) + ByzantineThreshold(n) == n
  {
  }

  /** The recovery threshold is one more than the fault bound, for two up to the maximal number of validators. */
  lemma RecoveryThresholdExactly(n: nat)
    ensures RecoveryThreshold(n) == if n > 65536 then TooManyValidators
                                    else if n < 2 then NotEnoughValidators
                                    else Ok(ByzantineThreshold(n) + 1)
  {
  }

  lemma UnionCard(a: set<Validator>, b: set<Validator>, all: set<Validator>)
    requires a <= all && b <= all
    ensures |a| + |b| <= |all| + |a * b|
  {
    SubsetCard(a + b, all);
  }

  /** Any two supermajorities of a non-empty validator set share more members than can be faulty. */
  lemma SupermajoritiesIntersect(all: set<Validator>, a: set<Validator>, b: set<Validator>)
    requires all != {} && a <= all && b <= all
    requires |a| >= SupermajorityThreshold(|all|) && |b| >= SupermajorityThreshold(|all|)
    ensures |a * b| >= ByzantineThreshold(|all|) + 1
  {
    UnionCard(a, b, all);
  }

  /** So they share an honest member, whichever validators are faulty. */
  lemma SharedHonestMember(all: set<Validator>, a: set<Validator>, b: set<Validator>, faulty: set<Validator>)
    requires all != {} && a <= all && b <= all && |faulty| <= ByzantineThreshold(|all|)
    requires |a| >= SupermajorityThreshold(|all|) && |b| >= SupermajorityThreshold(|all|)
    ensures exists v :: v in a && v in b && v !in faulty
  {
    SupermajoritiesIntersect(all, a, b);
    if a * b <= faulty {
      SubsetCard(a * b, faulty);
    }
    var v :| v in a * b && v !in faulty;
  }

  /** What a supermajority holds can be recovered from its honest members alone, and the recovery threshold is tight. */
  lemma SupermajorityRecovers(all: set<Validator>, a: set<Validator>, faulty: set<Validator>)
    requires 2 <= |all| <= MAX_VALIDATORS && a <= all && |faulty| <= ByzantineThreshold(|all|)
    requires |a| >= SupermajorityThreshold(|all|)
    ensures RecoveryThreshold(|all|).Ok?
    ensures |a - faulty| >= RecoveryThreshold(|all|).count > |faulty|
  {
  }
}
