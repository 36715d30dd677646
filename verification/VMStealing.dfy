/** Which inputs let a VM take the base VM of another one's managed object, in some order of the two
    lists. */
module VMStealing {
  import opened Inventory
  import opened Sorting
  import opened VMDiff
  import opened VMMatching

  // ----- The condition, on the VMs alone

  type VMs = set<StoredVM>

  function Elements(vms: seq<StoredVM>): VMs { set vm | vm in vms }

  /** Some VM of the other run is the same managed object. */
  ghost predicate Partnered(others: VMs, vm: StoredVM) { exists o :: o in others && SameMoref(o.observation, vm.observation) }

  /** The target VM is the only one with its UUID, and the base VM has it too. */
  ghost predicate Claims(base: VMs, targets: VMs, t: StoredVM, kind: Basis, b: StoredVM) {
    && kind != Moref && t in targets && b in base
    && UUID(t.observation, kind) != "" && UUID(b.observation, kind) == UUID(t.observation, kind)
    && forall u :: u in targets && UUID(u.observation, kind) == UUID(t.observation, kind) ==> u == t
  }

  /** A target VM without a partner can get to a base VM by its BIOS UUID: it claims nothing by its
      instance UUID, or another one without a partner can get to that first, in n steps at most. */
  ghost predicate Reaches(base: VMs, targets: VMs, t: StoredVM, b: StoredVM, n: nat)
    decreases n, 0
  {
    && !Partnered(base, t) && Claims(base, targets, t, BIOSUUID, b)
    && ((forall c :: !Claims(base, targets, t, InstanceUUID, c))
        || (n > 0 && exists c ::
              !Partnered(targets, c) && Claims(base, targets, t, InstanceUUID, c) && Reached(base, targets, c, n - 1)))
  }

  ghost predicate Reached(base: VMs, targets: VMs, b: StoredVM, n: nat)
    decreases n, 1
  {
    exists t :: Reaches(base, targets, t, b, n)
  }

  /** A base VM can be taken from its partner. */
  ghost predicate Takable(base: VMs, targets: VMs, b: StoredVM) {
    || (exists t :: !Partnered(base, t) && Claims(base, targets, t, InstanceUUID, b))
    || (exists n :: Reached(base, targets, b, n))
  }

  ghost predicate NothingTakable(base: VMs, targets: VMs) {
    forall b :: b in base && Partnered(targets, b) ==> !Takable(base, targets, b)
  }

  // ----- What it decides

  /** Every VM with a partner is matched to it. */
  ghost predicate PartnersKept(base: seq<StoredVM>, targets: seq<StoredVM>, matches: seq<Match>, n: nat) {
    forall i: nat, j: nat :: i < n && i < |targets| && i < |matches| && j < |base| && SameMoref(base[j].observation, targets[i].observation)
      ==> matches[i] == Matched(j, Moref)
  }

  /** In every order of both lists. */
  ghost predicate AlwaysKept(base: seq<StoredVM>, targets: seq<StoredVM>) {
    forall b, t, matches ::
      (multiset(b) == multiset(base) && multiset(t) == multiset(targets) && Matching(b, t, matches) && |matches| == |t|)
      ==> PartnersKept(b, t, matches, |t|)
  }

  ghost predicate DistinctMorefs(base: seq<StoredVM>, targets: seq<StoredVM>) {
    DistinctBy(MorefKey, base) && DistinctBy(MorefKey, targets)
  }

  /** No two base VMs share a UUID. */
  ghost predicate DistinctUUIDs(base: VMs) {
    forall b, c, kind ::
      (b in base && c in base && kind != Moref && UUID(b.observation, kind) == UUID(c.observation, kind) != "") ==> b == c
  }

  // ----- Indices and elements

  lemma {:induction false} OneHolder(targets: seq<StoredVM>, kind: Basis, value: string, i: nat)
    requires i < |targets| && UUID(targets[i].observation, kind) == value
    requires forall k :: 0 <= k < |targets| && UUID(targets[k].observation, kind) == value ==> k == i
    ensures Holders(targets, kind, value) == 1
  {
    var n := |targets| - 1;
    if i < n {
      OneHolder(targets[..n], kind, value, i);
    } else {
      NoHolders(targets[..n], kind, value);
    }
  }

  lemma {:induction false} NoHolders(targets: seq<StoredVM>, kind: Basis, value: string)
    requires forall k :: 0 <= k < |targets| ==> UUID(targets[k].observation, kind) != value
    ensures Holders(targets, kind, value) == 0
  {
    if targets != [] {
      NoHolders(targets[..|targets| - 1], kind, value);
    }
  }

  /** What a match by UUID takes is claimed. */
  lemma TakenIsClaimed(base: seq<StoredVM>, targets: seq<StoredVM>, matches: seq<Match>, i: nat)
    requires DistinctMorefs(base, targets) && Matching(base, targets, matches) && i < |matches| && |matches| == |targets|
    requires matches[i].Matched? && matches[i].basis != Moref
    ensures matches[i].index < |base|
    ensures Claims(Elements(base), Elements(targets), targets[i], matches[i].basis, base[matches[i].index])
  {
    UUIDMatchIsUnambiguous(base, targets, matches, i);
    var kind := matches[i].basis;
    forall u | u in Elements(targets) && UUID(u.observation, kind) == UUID(targets[i].observation, kind) ensures u == targets[i] {
      var k :| 0 <= k < |targets| && targets[k] == u;
      assert k == i;
    }
  }

  /** A claim makes the base VM the only holder, as long as it is free. */
  lemma ClaimIsUnique(base: seq<StoredVM>, targets: seq<StoredVM>, matches: seq<Match>, i: nat, j: nat, kind: Basis)
    requires DistinctMorefs(base, targets) && DistinctUUIDs(Elements(base)) && i < |targets| && j < |base|
    requires Claims(Elements(base), Elements(targets), targets[i], kind, base[j]) && !Used(matches, j)
    ensures UniqueHolder(base, targets, matches, kind, targets[i].observation, j)
  {
    var value := UUID(targets[i].observation, kind);
    forall k | 0 <= k < |targets| && UUID(targets[k].observation, kind) == value ensures k == i {
      assert targets[k] in Elements(targets);
      SamePosition(targets, k, i);
    }
    OneHolder(targets, kind, value, i);
    forall k | FreeHolder(base, matches, kind, value, k) ensures k == j {
      assert base[k] in Elements(base) && base[j] in Elements(base);
      SamePosition(base, k, j);
    }
  }

  lemma SamePosition(vms: seq<StoredVM>, i: nat, j: nat)
    requires DistinctBy(MorefKey, vms) && i < |vms| && j < |vms| && vms[i] == vms[j]
    ensures i == j
  {
    assert forall a, b :: 0 <= a < b < |vms| ==> MorefKey(vms[a]) != MorefKey(vms[b]);
  }

  lemma HolderIsClaimed(base: seq<StoredVM>, targets: seq<StoredVM>, matches: seq<Match>, i: nat, j: nat, kind: Basis)
    requires DistinctMorefs(base, targets) && i < |targets| && kind != Moref
    requires UniqueHolder(base, targets, matches, kind, targets[i].observation, j)
    ensures 0 <= j < |base| && Claims(Elements(base), Elements(targets), targets[i], kind, base[j])
  {
    var value := UUID(targets[i].observation, kind);
    HoldersAtLeast(targets, kind, value, i);
    forall u | u in Elements(targets) && UUID(u.observation, kind) == value ensures u == targets[i] {
      var k :| 0 <= k < |targets| && targets[k] == u;
      assert k == i;
    }
  }

  // ----- Without takers, partners are kept

  /** No VM without a partner took a base VM with one, so far. */
  ghost predicate NoneTaken(base: seq<StoredVM>, targets: seq<StoredVM>, matches: seq<Match>, n: nat) {
    forall k: nat :: k < n && k < |matches| && k < |targets| && !Partnered(Elements(base), targets[k]) ==>
      (matches[k].Matched? && matches[k].index < |base| ==> !Partnered(Elements(targets), base[matches[k].index]))
  }

  lemma KeptTakesNoOther(base: seq<StoredVM>, targets: seq<StoredVM>, matches: seq<Match>, n: nat, k: nat)
    requires PartnersKept(base, targets, matches, n) && k < n && k < |targets| && k < |matches|
    requires Partnered(Elements(base), targets[k])
    ensures matches[k].Matched? && matches[k].basis == Moref
  {
    var p :| p in Elements(base) && SameMoref(p.observation, targets[k].observation);
    var q: nat :| q < |base| && base[q] == p;
    assert SameMoref(base[q].observation, targets[k].observation);
  }

  lemma NextKept(base: seq<StoredVM>, targets: seq<StoredVM>, matches: seq<Match>, i: nat, j: nat)
    requires DistinctMorefs(base, targets) && Matching(base, targets, matches) && |matches| == |targets|
    requires i < |targets| && PartnersKept(base, targets, matches, i) && NoneTaken(base, targets, matches, i)
    requires j < |base| && SameMoref(base[j].observation, targets[i].observation)
    ensures matches[i] == Matched(j, Moref)
  {
    forall k: nat | k < i ensures !StolenBy(matches, j, k) {
      if StolenBy(matches, j, k) {
        if Partnered(Elements(base), targets[k]) {
          KeptTakesNoOther(base, targets, matches, i, k);
        } else {
          assert targets[i] in Elements(targets);
          assert Partnered(Elements(targets), base[j]);
        }
      }
    }
    PartnerIsMatchedUnlessStolen(base, targets, matches, i, j);
  }

  lemma {:induction false} KeptSoFar(base: seq<StoredVM>, targets: seq<StoredVM>, matches: seq<Match>, n: nat)
    requires DistinctMorefs(base, targets) && Matching(base, targets, matches) && |matches| == |targets|
    requires n <= |targets| && NoneTaken(base, targets, matches, n)
    ensures PartnersKept(base, targets, matches, n)
  {
    if n > 0 {
      KeptSoFar(base, targets, matches, n - 1);
      forall j: nat | j < |base| && SameMoref(base[j].observation, targets[n - 1].observation)
        ensures matches[n - 1] == Matched(j, Moref)
      {
        NextKept(base, targets, matches, n - 1, j);
      }
    }
  }

  /** No target VM without a partner claims a base VM with one. */
  ghost predicate NoClaims(base: VMs, targets: VMs) {
    forall t, kind, b :: Claims(base, targets, t, kind, b) && !Partnered(base, t) ==> !Partnered(targets, b)
  }

  lemma WithoutPartnerTakesByUUID(base: seq<StoredVM>, targets: seq<StoredVM>, matches: seq<Match>, k: nat)
    requires Matching(base, targets, matches) && k < |matches| && !Partnered(Elements(base), targets[k]) && matches[k].Matched?
    ensures matches[k].basis != Moref && matches[k].index < |base|
  {
    assert Finds(base, targets, matches[..k], targets[k].observation, matches[k]);
    if matches[k].index < |base| {
      assert base[matches[k].index] in Elements(base);
    }
  }

  /** Whatever UUIDs partners carry, equal ones or not, and whoever shares them: when no VM without
      a partner claims a base VM with one, every VM is matched to its partner, in every order. */
  lemma NoClaimsKeepPartners(base: seq<StoredVM>, targets: seq<StoredVM>, matches: seq<Match>)
    requires DistinctMorefs(base, targets) && Matching(base, targets, matches) && |matches| == |targets|
    requires NoClaims(Elements(base), Elements(targets))
    ensures PartnersKept(base, targets, matches, |targets|)
  {
    forall k: nat | k < |targets| && !Partnered(Elements(base), targets[k]) && matches[k].Matched? && matches[k].index < |base|
      ensures !Partnered(Elements(targets), base[matches[k].index])
    {
      WithoutPartnerTakesByUUID(base, targets, matches, k);
      TakenIsClaimed(base, targets, matches, k);
    }
    KeptSoFar(base, targets, matches, |targets|);
  }

  // ----- Nothing takable: nothing taken

  /** A target VM that matched by its BIOS UUID, though it claims another base VM by its instance
      UUID, found that one used; and it was used by another one in the same way. */
  lemma InstanceWasUsed(base: seq<StoredVM>, targets: seq<StoredVM>, matches: seq<Match>, i: nat, c: StoredVM)
    returns (q: nat, k: nat)
    requires DistinctMorefs(base, targets) && DistinctUUIDs(Elements(base)) && Matching(base, targets, matches)
    requires i < |matches| && |matches| == |targets| && matches[i].Matched? && matches[i].basis == BIOSUUID
    requires Claims(Elements(base), Elements(targets), targets[i], InstanceUUID, c)
    ensures q < |base| && base[q] == c && k < i && matches[k].Matched? && matches[k].index == q
    ensures matches[k].basis != InstanceUUID
  {
    q :| q < |base| && base[q] == c;
    assert Finds(base, targets, matches[..i], targets[i].observation, matches[i]);
    if !Used(matches[..i], q) {
      ClaimIsUnique(base, targets, matches[..i], i, q, InstanceUUID);
    }
    k :| k < i && matches[..i][k].Matched? && matches[..i][k].index == q;
    if matches[k].basis == InstanceUUID {
      TakenIsClaimed(base, targets, matches, k);
      assert targets[i] in Elements(targets);
      SamePosition(targets, i, k);
    }
  }

  lemma {:induction false} BIOSMatchReaches(base: seq<StoredVM>, targets: seq<StoredVM>, matches: seq<Match>, i: nat)
    requires DistinctMorefs(base, targets) && DistinctUUIDs(Elements(base)) && Matching(base, targets, matches)
    requires i < |matches| && |matches| == |targets| && matches[i].Matched? && matches[i].basis == BIOSUUID
    requires !Partnered(Elements(base), targets[i]) && PartnersKept(base, targets, matches, i)
    requires NothingTakable(Elements(base), Elements(targets))
    ensures matches[i].index < |base|
    ensures Reaches(Elements(base), Elements(targets), targets[i], base[matches[i].index], i)
    decreases i
  {
    var b, t := Elements(base), Elements(targets);
    TakenIsClaimed(base, targets, matches, i);
    if c :| Claims(b, t, targets[i], InstanceUUID, c) {
      assert Takable(b, t, c);
      var q, k := InstanceWasUsed(base, targets, matches, i, c);
      UserHasNoPartner(base, targets, matches, i, k, c);
      BIOSMatchReaches(base, targets, matches, k);
      ReachesThrough(b, t, targets[i], base[matches[i].index], c, targets[k], k, i);
    }
  }

  lemma UserHasNoPartner(base: seq<StoredVM>, targets: seq<StoredVM>, matches: seq<Match>, i: nat, k: nat, c: StoredVM)
    requires Matching(base, targets, matches) && |matches| == |targets| && k < i <= |matches| && PartnersKept(base, targets, matches, i)
    requires matches[k].Matched? && matches[k].basis != InstanceUUID && matches[k].index < |base| && base[matches[k].index] == c
    requires !Partnered(Elements(targets), c)
    ensures !Partnered(Elements(base), targets[k]) && matches[k].basis == BIOSUUID
  {
    if Partnered(Elements(base), targets[k]) {
      KeptTakesItsPartner(base, targets, matches, i, k);
    } else {
      WithoutPartnerTakesByUUID(base, targets, matches, k);
    }
  }

  lemma ReachesThrough(base: VMs, targets: VMs, t: StoredVM, b: StoredVM, c: StoredVM, u: StoredVM, k: nat, n: nat)
    requires !Partnered(base, t) && Claims(base, targets, t, BIOSUUID, b) && !Partnered(targets, c)
    requires Claims(base, targets, t, InstanceUUID, c) && Reaches(base, targets, u, c, k) && k < n
    ensures Reaches(base, targets, t, b, n)
  {
    ReachesLonger(base, targets, u, c, k, n - 1);
    assert Reached(base, targets, c, n - 1);
  }

  /** A VM matched to its partner took a base VM that has one. */
  lemma KeptTakesItsPartner(base: seq<StoredVM>, targets: seq<StoredVM>, matches: seq<Match>, n: nat, k: nat)
    requires PartnersKept(base, targets, matches, n) && k < n && k < |targets| && k < |matches|
    requires Partnered(Elements(base), targets[k])
    ensures matches[k].Matched? && matches[k].index < |base| && Partnered(Elements(targets), base[matches[k].index])
  {
    var p :| p in Elements(base) && SameMoref(p.observation, targets[k].observation);
    var q: nat :| q < |base| && base[q] == p;
    assert SameMoref(base[q].observation, targets[k].observation) && targets[k] in Elements(targets);
  }

  lemma {:induction false} ReachesLonger(base: VMs, targets: VMs, t: StoredVM, b: StoredVM, n: nat, m: nat)
    requires Reaches(base, targets, t, b, n) && n <= m
    ensures Reaches(base, targets, t, b, m)
    decreases n
  {
    if c :| Claims(base, targets, t, InstanceUUID, c) && !Partnered(targets, c) && n > 0 && Reached(base, targets, c, n - 1) {
      var u :| Reaches(base, targets, u, c, n - 1);
      ReachesLonger(base, targets, u, c, n - 1, m - 1);
      assert Reached(base, targets, c, m - 1);
    }
  }

  lemma {:induction false} NothingTakableKeeps(base: seq<StoredVM>, targets: seq<StoredVM>, matches: seq<Match>, n: nat)
    requires DistinctMorefs(base, targets) && DistinctUUIDs(Elements(base)) && Matching(base, targets, matches)
    requires |matches| == |targets| && n <= |targets| && NothingTakable(Elements(base), Elements(targets))
    ensures PartnersKept(base, targets, matches, n) && NoneTaken(base, targets, matches, n)
  {
    if n > 0 {
      var k := n - 1;
      NothingTakableKeeps(base, targets, matches, k);
      var b, t := Elements(base), Elements(targets);
      if !Partnered(b, targets[k]) && matches[k].Matched? {
        WithoutPartnerTakesByUUID(base, targets, matches, k);
        TakenIsClaimed(base, targets, matches, k);
        var taken := base[matches[k].index];
        if matches[k].basis == BIOSUUID {
          BIOSMatchReaches(base, targets, matches, k);
          assert Reached(b, t, taken, k);
        }
        assert Takable(b, t, taken);
      }
      KeptSoFar(base, targets, matches, n);
    }
  }

  // ----- Something takable: an order in which it is taken

  lemma {:induction false} LeastFree(base: seq<StoredVM>, matches: seq<Match>, o: Observation, j: int) returns (least: nat)
    requires FreeMoref(base, matches, o, j)
    ensures FreeMoref(base, matches, o, least) && forall i :: FreeMoref(base, matches, o, i) ==> least <= i
    decreases j
  {
    if i :| FreeMoref(base, matches, o, i) && i < j {
      least := LeastFree(base, matches, o, i);
    } else {
      least := j;
    }
  }

  lemma FindsSomething(base: seq<StoredVM>, targets: seq<StoredVM>, matches: seq<Match>, o: Observation) returns (m: Match)
    ensures Finds(base, targets, matches, o, m)
  {
    if j :| FreeMoref(base, matches, o, j) {
      var least := LeastFree(base, matches, o, j);
      m := Matched(least, Moref);
    } else if j :| UniqueHolder(base, targets, matches, InstanceUUID, o, j) {
      m := Matched(j, InstanceUUID);
    } else if j :| UniqueHolder(base, targets, matches, BIOSUUID, o, j) {
      m := Matched(j, BIOSUUID);
    } else {
      m := NoMatch;
    }
  }

  lemma {:induction false} MatchesExist(base: seq<StoredVM>, targets: seq<StoredVM>, n: nat) returns (matches: seq<Match>)
    requires n <= |targets|
    ensures |matches| == n && Matching(base, targets, matches)
  {
    if n == 0 {
      matches := [];
    } else {
      var front := MatchesExist(base, targets, n - 1);
      var m := FindsSomething(base, targets, front, targets[n - 1].observation);
      MatchingPush(base, targets, front, m);
      matches := front + [m];
    }
  }

  /** Target VMs that take their base VMs by BIOS UUID one after the other: each claims nothing by
      its instance UUID, or what the one before it takes. */
  ghost predicate InTurn(base: VMs, targets: VMs, line: seq<StoredVM>, aims: seq<StoredVM>) {
    && |line| == |aims| && NoRepeats(line)
    && forall r :: 0 <= r < |line| ==> Turn(base, targets, line, aims, r)
  }

  ghost predicate Turn(base: VMs, targets: VMs, line: seq<StoredVM>, aims: seq<StoredVM>, r: int)
    requires 0 <= r < |line| == |aims|
  {
    && !Partnered(base, line[r]) && Claims(base, targets, line[r], BIOSUUID, aims[r])
    && forall c :: Claims(base, targets, line[r], InstanceUUID, c) ==> r > 0 && c == aims[r - 1]
  }

  lemma OneAim(base: VMs, targets: VMs, t: StoredVM, kind: Basis, b: StoredVM, c: StoredVM)
    requires DistinctUUIDs(base) && Claims(base, targets, t, kind, b) && Claims(base, targets, t, kind, c)
    ensures b == c
  {
  }

  lemma ReachedThrough(base: VMs, targets: VMs, t: StoredVM, b: StoredVM, c: StoredVM, m: nat)
    requires !Partnered(base, t) && Claims(base, targets, t, BIOSUUID, b) && !Partnered(targets, c)
    requires Claims(base, targets, t, InstanceUUID, c) && Reached(base, targets, c, m)
    ensures Reached(base, targets, b, m + 1)
  {
    assert Reaches(base, targets, t, b, m + 1);
  }

  /** The shortest way to a base VM is a line of target VMs, no one in it twice. */
  lemma {:induction false} LineTo(base: VMs, targets: VMs, t: StoredVM, b: StoredVM, n: nat)
    returns (line: seq<StoredVM>, aims: seq<StoredVM>)
    requires DistinctUUIDs(base) && Reaches(base, targets, t, b, n)
    requires forall m: nat :: m < n ==> !Reached(base, targets, b, m)
    ensures InTurn(base, targets, line, aims) && |line| == n + 1 && line[n] == t && aims[n] == b
    ensures forall r: nat :: r <= n ==> Reaches(base, targets, line[r], aims[r], r)
    decreases n
  {
    if forall c :: !Claims(base, targets, t, InstanceUUID, c) {
      assert Reaches(base, targets, t, b, 0);
      assert Reached(base, targets, b, 0);
      line, aims := [t], [b];
    } else {
      var c :| !Partnered(targets, c) && Claims(base, targets, t, InstanceUUID, c) && n > 0 && Reached(base, targets, c, n - 1);
      var u :| Reaches(base, targets, u, c, n - 1);
      forall m: nat | m < n - 1 ensures !Reached(base, targets, c, m) {
        if Reached(base, targets, c, m) {
          ReachedThrough(base, targets, t, b, c, m);
        }
      }
      var front, frontAims := LineTo(base, targets, u, c, n - 1);
      line, aims := front + [t], frontAims + [b];
      LineGrows(base, targets, front, frontAims, t, b, c);
    }
  }

  lemma LineGrows(base: VMs, targets: VMs, front: seq<StoredVM>, frontAims: seq<StoredVM>, t: StoredVM, b: StoredVM, c: StoredVM)
    requires DistinctUUIDs(base) && InTurn(base, targets, front, frontAims) && front != [] && frontAims[|front| - 1] == c
    requires forall r: nat :: r < |front| ==> Reaches(base, targets, front[r], frontAims[r], r)
    requires forall m: nat :: m < |front| ==> !Reached(base, targets, b, m)
    requires !Partnered(base, t) && Claims(base, targets, t, BIOSUUID, b) && Claims(base, targets, t, InstanceUUID, c)
    ensures InTurn(base, targets, front + [t], frontAims + [b])
  {
    var line, aims := front + [t], frontAims + [b];
    forall r: nat | r < |front| ensures front[r] != t {
      if front[r] == t {
        OneAim(base, targets, t, BIOSUUID, b, frontAims[r]);
        assert Reached(base, targets, b, r);
      }
    }
    forall r | 0 <= r < |line| ensures Turn(base, targets, line, aims, r) {
      if r < |front| {
        assert Turn(base, targets, front, frontAims, r);
      } else {
        forall d | Claims(base, targets, t, InstanceUUID, d) ensures d == c {
          OneAim(base, targets, t, InstanceUUID, c, d);
        }
      }
    }
  }

  lemma {:induction false} LineTakes(base: seq<StoredVM>, targets: seq<StoredVM>, matches: seq<Match>,
      line: seq<StoredVM>, aims: seq<StoredVM>, r: nat)
    requires DistinctMorefs(base, targets) && DistinctUUIDs(Elements(base)) && Matching(base, targets, matches)
    requires |matches| == |targets| && line <= targets && r < |line|
    requires InTurn(Elements(base), Elements(targets), line, aims)
    ensures matches[r].Matched? && matches[r].basis == BIOSUUID && matches[r].index < |base| && base[matches[r].index] == aims[r]
    decreases r
  {
    var b, t := Elements(base), Elements(targets);
    assert Turn(b, t, line, aims, r) && targets[r] == line[r];
    var q: nat :| q < |base| && base[q] == aims[r];
    forall s | 0 <= s < r ensures matches[s].Matched? && matches[s].index != q {
      LineTakes(base, targets, matches, line, aims, s);
      assert Turn(b, t, line, aims, s);
      AimsDiffer(b, t, line, aims, s, r);
    }
    assert !Used(matches[..r], q);
    ClaimIsUnique(base, targets, matches[..r], r, q, BIOSUUID);
    if r > 0 {
      LineTakes(base, targets, matches, line, aims, r - 1);
    }
    NoOtherMatch(base, targets, matches, line, aims, r);
    FindsByBIOS(base, targets, matches, r, q);
  }

  lemma AimsDiffer(base: VMs, targets: VMs, line: seq<StoredVM>, aims: seq<StoredVM>, s: nat, r: nat)
    requires InTurn(base, targets, line, aims) && s < r < |line|
    ensures aims[s] != aims[r]
  {
    assert Turn(base, targets, line, aims, s) && Turn(base, targets, line, aims, r);
  }

  /** In its turn it finds no partner, and nothing free by its instance UUID. */
  lemma NoOtherMatch(base: seq<StoredVM>, targets: seq<StoredVM>, matches: seq<Match>, line: seq<StoredVM>, aims: seq<StoredVM>, r: nat)
    requires DistinctMorefs(base, targets) && |matches| == |targets| && line <= targets && r < |line|
    requires InTurn(Elements(base), Elements(targets), line, aims)
    requires r > 0 ==> matches[r - 1].Matched? && matches[r - 1].index < |base| && base[matches[r - 1].index] == aims[r - 1]
    ensures NoMoref(base, matches[..r], targets[r].observation)
    ensures NoHolder(base, targets, matches[..r], InstanceUUID, targets[r].observation)
  {
    var b, t := Elements(base), Elements(targets);
    assert Turn(b, t, line, aims, r) && targets[r] == line[r];
    NoPartnerNoMoref(base, matches[..r], targets[r]);
    if r > 0 {
      assert matches[..r][r - 1] == matches[r - 1];
    }
    forall j ensures !UniqueHolder(base, targets, matches[..r], InstanceUUID, targets[r].observation, j) {
      if UniqueHolder(base, targets, matches[..r], InstanceUUID, targets[r].observation, j) {
        HolderIsClaimed(base, targets, matches[..r], r, j, InstanceUUID);
        SamePosition(base, j, matches[r - 1].index);
      }
    }
  }

  lemma NoPartnerNoMoref(base: seq<StoredVM>, matches: seq<Match>, t: StoredVM)
    requires !Partnered(Elements(base), t)
    ensures NoMoref(base, matches, t.observation)
  {
    forall j | 0 <= j < |base| ensures !SameMoref(base[j].observation, t.observation) {
      assert base[j] in Elements(base);
    }
  }

  lemma FindsByBIOS(base: seq<StoredVM>, targets: seq<StoredVM>, matches: seq<Match>, r: nat, q: nat)
    requires Matching(base, targets, matches) && r < |matches|
    requires NoMoref(base, matches[..r], targets[r].observation)
    requires NoHolder(base, targets, matches[..r], InstanceUUID, targets[r].observation)
    requires UniqueHolder(base, targets, matches[..r], BIOSUUID, targets[r].observation, q)
    ensures matches[r] == Matched(q, BIOSUUID)
  {
    FindsIsAFunction(base, targets, matches[..r], targets[r].observation, matches[r], Matched(q, BIOSUUID));
  }

  lemma FirstTakesByInstance(base: seq<StoredVM>, targets: seq<StoredVM>, matches: seq<Match>, b: StoredVM)
    requires DistinctMorefs(base, targets) && DistinctUUIDs(Elements(base)) && Matching(base, targets, matches)
    requires 0 < |matches| == |targets| && !Partnered(Elements(base), targets[0])
    requires Claims(Elements(base), Elements(targets), targets[0], InstanceUUID, b)
    ensures matches[0].Matched? && matches[0].basis == InstanceUUID && matches[0].index < |base| && base[matches[0].index] == b
  {
    var q: nat :| q < |base| && base[q] == b;
    ClaimIsUnique(base, targets, matches[..0], 0, q, InstanceUUID);
    NoPartnerNoMoref(base, matches[..0], targets[0]);
    FindsIsAFunction(base, targets, matches[..0], targets[0].observation, matches[0], Matched(q, InstanceUUID));
  }

  /** The VMs that are not in the line. */
  function Without(vms: seq<StoredVM>, line: seq<StoredVM>): seq<StoredVM> {
    if vms == [] then []
    else
      var n := |vms| - 1;
      Without(vms[..n], line) + if vms[n] in line then [] else [vms[n]]
  }

  lemma {:induction false} WithoutIs(vms: seq<StoredVM>, line: seq<StoredVM>)
    ensures forall x :: x in Without(vms, line) <==> x in vms && x !in line
    ensures NoRepeats(vms) ==> NoRepeats(Without(vms, line))
  {
    if vms != [] {
      var n := |vms| - 1;
      WithoutIs(vms[..n], line);
      assert vms == vms[..n] + [vms[n]];
      assert NoRepeats(vms) ==> vms[n] !in vms[..n];
    }
  }

  lemma NoneRepeats(vms: seq<StoredVM>)
    requires DistinctBy(MorefKey, vms)
    ensures NoRepeats(vms)
  {
    forall i, j | 0 <= i < j < |vms| ensures vms[i] != vms[j] {
      assert MorefKey(vms[i]) != MorefKey(vms[j]);
    }
  }

  /** The line can be put first. */
  lemma LineFirst(targets: seq<StoredVM>, line: seq<StoredVM>) returns (order: seq<StoredVM>)
    requires DistinctBy(MorefKey, targets) && NoRepeats(line) && forall x :: x in line ==> x in targets
    ensures multiset(order) == multiset(targets) && line <= order && Elements(order) == Elements(targets)
    ensures DistinctBy(MorefKey, order)
  {
    var rest := Without(targets, line);
    order := line + rest;
    WithoutIs(targets, line);
    NoneRepeats(targets);
    forall i, j | 0 <= i < j < |order| ensures order[i] != order[j] {
      if i < |line| <= j {
        assert order[i] in line && rest[j - |line|] in rest;
      }
    }
    SameThings(order, targets);
    DistinctAfterReordering(MorefKey, targets, order);
  }

  /** Matches in which a base VM went to another than its partner lose the partner. */
  lemma PartnerIsLost(base: seq<StoredVM>, targets: seq<StoredVM>, matches: seq<Match>, k: nat, b: StoredVM)
    requires Matching(base, targets, matches) && k < |matches| == |targets|
    requires matches[k].Matched? && matches[k].basis != Moref && matches[k].index < |base| && base[matches[k].index] == b
    requires Partnered(Elements(targets), b)
    ensures !PartnersKept(base, targets, matches, |targets|)
  {
    var o :| o in Elements(targets) && SameMoref(o.observation, b.observation);
    var i: nat :| i < |targets| && targets[i] == o;
    var j := matches[k].index;
    if matches[i] == Matched(j, Moref) {
      if i < k {
        MatchedOnce(base, targets, matches, i, k);
      } else {
        MatchedOnce(base, targets, matches, k, i);
      }
    }
    assert SameMoref(base[j].observation, targets[i].observation);
  }

  lemma TakenInSomeOrder(base: seq<StoredVM>, targets: seq<StoredVM>, b: StoredVM)
    requires DistinctMorefs(base, targets) && DistinctUUIDs(Elements(base))
    requires b in base && Partnered(Elements(targets), b) && Takable(Elements(base), Elements(targets), b)
    ensures !AlwaysKept(base, targets)
  {
    var bs, ts := Elements(base), Elements(targets);
    if t :| !Partnered(bs, t) && Claims(bs, ts, t, InstanceUUID, b) {
      var order := LineFirst(targets, [t]);
      var matches := MatchesExist(base, order, |order|);
      FirstTakesByInstance(base, order, matches, b);
      PartnerIsLost(base, order, matches, 0, b);
    } else {
      var n :| Reached(bs, ts, b, n);
      var m := ShortestReach(bs, ts, b, n);
      var t :| Reaches(bs, ts, t, b, m);
      var line, aims := LineTo(bs, ts, t, b, m);
      LineIsOfTargets(bs, ts, line, aims);
      var order := LineFirst(targets, line);
      var matches := MatchesExist(base, order, |order|);
      LineTakes(base, order, matches, line, aims, m);
      PartnerIsLost(base, order, matches, m, b);
    }
  }

  lemma {:induction false} ShortestReach(base: VMs, targets: VMs, b: StoredVM, n: nat) returns (m: nat)
    requires Reached(base, targets, b, n)
    ensures Reached(base, targets, b, m) && forall k: nat :: k < m ==> !Reached(base, targets, b, k)
    decreases n
  {
    if k: nat :| k < n && Reached(base, targets, b, k) {
      m := ShortestReach(base, targets, b, k);
    } else {
      m := n;
    }
  }

  lemma LineIsOfTargets(base: VMs, targets: VMs, line: seq<StoredVM>, aims: seq<StoredVM>)
    requires InTurn(base, targets, line, aims)
    ensures forall x :: x in line ==> x in targets
  {
    forall x | x in line ensures x in targets {
      var r :| 0 <= r < |line| && line[r] == x;
      assert Turn(base, targets, line, aims, r);
    }
  }

  lemma SameElements(a: seq<StoredVM>, b: seq<StoredVM>)
    requires multiset(a) == multiset(b)
    ensures Elements(a) == Elements(b)
  {
    SameMembers(a, b);
  }

  /** When no two base VMs share a UUID: every VM is matched to its partner in every order of both
      lists if and only if no base VM with a partner can be taken. It can be taken when some VM
      without a partner is the only one with its instance UUID, or gets to it by its BIOS UUID once
      others of that kind have what it would rather take. */
  lemma KeptInEveryOrderExactlyWhen(base: seq<StoredVM>, targets: seq<StoredVM>)
    requires DistinctMorefs(base, targets) && DistinctUUIDs(Elements(base))
    ensures AlwaysKept(base, targets) <==> NothingTakable(Elements(base), Elements(targets))
  {
    if NothingTakable(Elements(base), Elements(targets)) {
      forall b, t, matches
        | multiset(b) == multiset(base) && multiset(t) == multiset(targets) && Matching(b, t, matches) && |matches| == |t|
        ensures PartnersKept(b, t, matches, |t|)
      {
        SameElements(base, b);
        SameElements(targets, t);
        DistinctAfterReordering(MorefKey, base, b);
        DistinctAfterReordering(MorefKey, targets, t);
        NothingTakableKeeps(b, t, matches, |t|);
      }
    } else {
      var b :| b in Elements(base) && Partnered(Elements(targets), b) && Takable(Elements(base), Elements(targets), b);
      TakenInSomeOrder(base, targets, b);
    }
  }

  /** Whoever shares a UUID, in no order is a partner lost unless a VM without one claims a base VM
      that has one. */
  lemma NoClaimsAlwaysKeep(base: seq<StoredVM>, targets: seq<StoredVM>)
    requires DistinctMorefs(base, targets) && NoClaims(Elements(base), Elements(targets))
    ensures AlwaysKept(base, targets)
  {
    forall b, t, matches
      | multiset(b) == multiset(base) && multiset(t) == multiset(targets) && Matching(b, t, matches) && |matches| == |t|
      ensures PartnersKept(b, t, matches, |t|)
    {
      SameElements(base, b);
      SameElements(targets, t);
      DistinctAfterReordering(MorefKey, base, b);
      DistinctAfterReordering(MorefKey, targets, t);
      NoClaimsKeepPartners(b, t, matches);
    }
  }
}
