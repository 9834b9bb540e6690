/** The rotation of validator groups over cores. */
module GroupRotation {
  import opened Numbers

  datatype GroupRotationInfo = GroupRotationInfo(sessionStartBlock: nat, groupRotationFrequency: nat, now: nat)

  function Rotations(info: GroupRotationInfo): nat
    requires info.groupRotationFrequency > 0
  {
    SatSub(info.now, info.sessionStartBlock) / info.groupRotationFrequency
  }

  /** The number of cores, capped as the program caps it. */
  function Capped(cores: nat): nat {
    Min(cores, U32_MAX)
  }

  function GroupForCore(info: GroupRotationInfo, core: nat, cores: nat): nat {
    if info.groupRotationFrequency == 0 then core
    else if cores == 0 then 0
    else (core + Rotations(info)) % Capped(cores)
  }

  function CoreForGroup(info: GroupRotationInfo, group: nat, cores: nat): nat {
    if info.groupRotationFrequency == 0 then group
    else if cores == 0 then 0
    else
      var n := Capped(cores);
      var rotations := Rotations(info) % n;
      (group + n - rotations) % n
  }

  function NextRotationAt(info: GroupRotationInfo): nat
    requires info.groupRotationFrequency > 0
  {
    var cycleOnce := info.now + info.groupRotationFrequency;
    ModAtMost(SatSub(cycleOnce, info.sessionStartBlock), info.groupRotationFrequency);
    cycleOnce - SatSub(cycleOnce, info.sessionStartBlock) % info.groupRotationFrequency
  }

  function LastRotationAt(info: GroupRotationInfo): nat
    requires info.groupRotationFrequency > 0
  {
    ModAtMost(SatSub(info.now, info.sessionStartBlock), info.groupRotationFrequency);
    info.now - SatSub(info.now, info.sessionStartBlock) % info.groupRotationFrequency
  }

  function BumpRotation(info: GroupRotationInfo): GroupRotationInfo
    requires info.groupRotationFrequency > 0
  {
    info.(now := NextRotationAt(info))
  }

  // ---- division facts

  lemma ModAtMost(a: nat, n: nat)
    requires n > 0
    ensures a % n <= a && a % n < n
  {
  }

  /** The quotient and remainder are the only ones. */
  lemma DivModUnique(a: int, n: nat, q: int, r: nat)
    requires n > 0 && r < n && a == q * n + r
    ensures a / n == q && a % n == r
  {
    var q', r' := a / n, a % n;
    if q' > q {
      MulAtLeast(q' - q, n);
    } else if q' < q {
      MulAtLeast(q - q', n);
    }
  }

  lemma MulAtLeast(k: int, n: nat)
    requires k >= 1
    ensures k * n >= n
  {
  }

  lemma ModShift(a: int, k: int, n: nat)
    requires n > 0
    ensures (a + k * n) % n == a % n
    ensures (a + k * n) / n == a / n + k
  {
    DivModUnique(a + k * n, n, a / n + k, a % n);
  }

  /** Two numbers a multiple of `n` apart have the same remainder. */
  lemma SameMod(a: int, b: int, k: int, n: nat)
    requires n > 0 && a == b + k * n
    ensures a % n == b % n
  {
    ModShift(b, k, n);
  }

  lemma ModOfMod(a: int, b: int, n: nat)
    requires n > 0
    ensures (a % n + b) % n == (a + b) % n
  {
    SameMod(a + b, a % n + b, a / n, n);
  }

  lemma WholeTurns(x: nat, r: nat, n: nat)
    requires x < n
    ensures (x + r + (n - r % n)) % n == x
  {
    DivModUnique(x + r + (n - r % n), n, r / n + 1, x);
  }

  /** Turning by `r` and back by its remainder is no turn at all, in either order. */
  lemma TurnAndBack(x: nat, r: nat, n: nat)
    requires x < n
    ensures ((x + r) % n + n - r % n) % n == x
  {
    ModOfMod(x + r, n - r % n, n);
    WholeTurns(x, r, n);
  }

  lemma BackAndTurn(x: nat, r: nat, n: nat)
    requires x < n
    ensures ((x + n - r % n) % n + r) % n == x
  {
    var back := n - r % n;
    ModOfMod(x + back, r, n);
    WholeTurns(x, r, n);
  }

  // ---- the rotation is a permutation

  /** Each in-range core is found again from the group that validates it. */
  lemma CoreForGroupInverts(info: GroupRotationInfo, core: nat, cores: nat)
    requires core < Capped(cores)
    ensures CoreForGroup(info, GroupForCore(info, core, cores), cores) == core
  {
    if info.groupRotationFrequency != 0 {
      TurnAndBack(core, Rotations(info), Capped(cores));
    }
  }

  /** Each in-range group is found again from the core it validates. */
  lemma GroupForCoreInverts(info: GroupRotationInfo, group: nat, cores: nat)
    requires group < Capped(cores)
    ensures GroupForCore(info, CoreForGroup(info, group, cores), cores) == group
  {
    if info.groupRotationFrequency != 0 {
      BackAndTurn(group, Rotations(info), Capped(cores));
    }
  }

  /** Without rotations, and up to the end of the session's first period, every core has the group of its number. */
  lemma NotRotatedYet(info: GroupRotationInfo, core: nat, cores: nat)
    requires core < Capped(cores)
    requires info.groupRotationFrequency == 0 || info.now < info.sessionStartBlock + info.groupRotationFrequency
    ensures GroupForCore(info, core, cores) == core == CoreForGroup(info, core, cores)
  {
    if info.groupRotationFrequency != 0 {
      DivModUnique(SatSub(info.now, info.sessionStartBlock), info.groupRotationFrequency, 0,
                   SatSub(info.now, info.sessionStartBlock));
      DivModUnique(core, Capped(cores), 0, core);
      CoreForGroupInverts(info, core, cores);
    }
  }

  /** With no cores at all the program answers zero, if it rotates. */
  lemma NoCores(info: GroupRotationInfo, core: nat)
    ensures info.groupRotationFrequency > 0 ==> GroupForCore(info, core, 0) == 0 == CoreForGroup(info, core, 0)
  {
  }

  /** At or after the session start, the last rotation is not after the current block and the next one is. */
  lemma RotationsBracketNow(info: GroupRotationInfo)
    requires info.groupRotationFrequency > 0 && info.sessionStartBlock <= info.now
    ensures LastRotationAt(info) <= info.now < NextRotationAt(info)
    ensures NextRotationAt(info) == LastRotationAt(info) + info.groupRotationFrequency
    ensures LastRotationAt(info) == info.sessionStartBlock + Rotations(info) * info.groupRotationFrequency
  {
    var f := info.groupRotationFrequency;
    var since := info.now - info.sessionStartBlock;
    ModShift(since, 1, f);
  }

  lemma BumpedRotations(info: GroupRotationInfo)
    requires info.groupRotationFrequency > 0
    ensures Rotations(BumpRotation(info)) == if info.sessionStartBlock <= info.now then Rotations(info) + 1 else 0
    ensures info.now < info.sessionStartBlock ==> Rotations(info) == 0
  {
    var f := info.groupRotationFrequency;
    if info.sessionStartBlock <= info.now {
      RotationsBracketNow(info);
      var q := Rotations(info) + 1;
      assert NextRotationAt(info) - info.sessionStartBlock == q * f;
      DivModUnique(q * f, f, q, 0);
    }
  }

  /** A bump moves every core on by one group, if and only if the session has started (or there is one core only). */
  lemma BumpShiftsByOneExactly(info: GroupRotationInfo, core: nat, cores: nat)
    requires info.groupRotationFrequency > 0 && core < Capped(cores)
    ensures GroupForCore(BumpRotation(info), core, cores) == (GroupForCore(info, core, cores) + 1) % Capped(cores)
            <==> info.sessionStartBlock <= info.now || Capped(cores) == 1
  {
    var n := Capped(cores);
    BumpedRotations(info);
    ModOfMod(core + Rotations(info), 1, n);
  }

  /** Two cores, one block before the session starts: after a bump the first core still has the first group. */
  lemma BumpExample()
    ensures var info := GroupRotationInfo(10, 5, 9);
            && GroupForCore(info, 0, 2) == 0 && GroupForCore(BumpRotation(info), 0, 2) == 0
  {
    var info := GroupRotationInfo(10, 5, 9);
    BumpedRotations(info);
  }
}
