/** Distillation leases: several workers claim, check, commit and release in any interleaving, while
    the clock only moves forward. A check and the commit it guards are separate lock sections, so a
    lease may be lost in between; what still holds is proved here. */
module Leases {
  import opened Domain
  import opened OperationKeys

  datatype DistillationClaim = DistillationClaim(session: string, loop: string, digest: string, leaseId: nat, expiresAt: int)

  type ClaimKey = (string, string)

  function KeyOf(c: DistillationClaim): ClaimKey {
    (c.session, c.loop)
  }

  /** The claims table and the canonical abstract node per operation key, with what was ever issued or
      released. */
  datatype LeaseState = LeaseState(
    claims: map<ClaimKey, DistillationClaim>,
    abstracts: map<string, nat>,
    issued: set<DistillationClaim>,
    released: set<nat>,
    now: int
  )

  datatype Step =
    | Tick(to: int)
    | TryClaim(session: string, loop: string, digest: string, leaseFor: nat, leaseId: nat)
    | Release(claim: DistillationClaim)
    | Commit(operationKey: string, node: nat)

  predicate FreshLease(s: LeaseState, leaseId: nat) {
    forall c | c in s.issued :: c.leaseId != leaseId
  }

  /** Lease ids are unique and the clock is monotone. */
  predicate Possible(s: LeaseState, step: Step) {
    match step
    case Tick(to) => to >= s.now
    case TryClaim(_, _, _, _, leaseId) => FreshLease(s, leaseId)
    case _ => true
  }

  predicate Held(s: LeaseState, key: ClaimKey) {
    key in s.claims && s.claims[key].expiresAt > s.now
  }

  predicate Owns(s: LeaseState, c: DistillationClaim) {
    KeyOf(c) in s.claims && s.claims[KeyOf(c)].leaseId == c.leaseId
  }

  /** `distillation_claim_is_current` */
  predicate IsCurrent(s: LeaseState, c: DistillationClaim) {
    Owns(s, c) && s.claims[KeyOf(c)].digest == c.digest && s.claims[KeyOf(c)].expiresAt > s.now
  }

  function Apply(s: LeaseState, step: Step): LeaseState {
    match step
    case Tick(to) => s.(now := to)
    case TryClaim(session, loop, digest, leaseFor, leaseId) =>
      if Held(s, (session, loop)) then s
      else
        var c := DistillationClaim(session, loop, digest, leaseId, s.now + leaseFor);
        s.(claims := s.claims[(session, loop) := c], issued := s.issued + {c})
    case Release(c) =>
      if Owns(s, c) then s.(claims := s.claims - {KeyOf(c)}, released := s.released + {c.leaseId}) else s
    case Commit(key, node) =>
      if key in s.abstracts then s else s.(abstracts := s.abstracts[key := node])
  }

  // ---------------------------------------------------------------- safety over all runs

  /** Issued, not given back, not expired. */
  predicate Live(s: LeaseState, c: DistillationClaim) {
    c in s.issued && c.leaseId !in s.released && c.expiresAt > s.now
  }

  ghost predicate Safe(s: LeaseState) {
    && (forall a, b | a in s.issued && b in s.issued && a.leaseId == b.leaseId :: a == b)
    && (forall key | key in s.claims :: s.claims[key] in s.issued && KeyOf(s.claims[key]) == key && s.claims[key].leaseId !in s.released)
    && (forall c | Live(s, c) :: KeyOf(c) in s.claims && s.claims[KeyOf(c)] == c)
    && (forall id | id in s.released :: !FreshLease(s, id))
  }

  lemma StepKeepsSafe(s: LeaseState, step: Step)
    requires Safe(s) && Possible(s, step)
    ensures Safe(Apply(s, step))
  {
    var t := Apply(s, step);
    match step
    case Tick(to) =>
      forall c | Live(t, c)
        ensures Live(s, c)
      {
      }
    case TryClaim(session, loop, digest, leaseFor, leaseId) =>
      if !Held(s, (session, loop)) {
        ClaimKeepsSafe(s, step);
      }
    case Release(c) =>
      if Owns(s, c) {
        ReleaseKeepsSafe(s, c);
      }
    case Commit(_, _) =>
      assert forall c :: Live(t, c) <==> Live(s, c);
  }

  lemma ClaimKeepsSafe(s: LeaseState, step: Step)
    requires Safe(s) && step.TryClaim? && FreshLease(s, step.leaseId) && !Held(s, (step.session, step.loop))
    ensures Safe(Apply(s, step))
  {
    var t := Apply(s, step);
    var key := (step.session, step.loop);
    var claim := DistillationClaim(step.session, step.loop, step.digest, step.leaseId, s.now + step.leaseFor);
    assert t.claims[key] == claim && claim in t.issued;
    forall c | Live(t, c)
      ensures KeyOf(c) in t.claims && t.claims[KeyOf(c)] == c
    {
      if c != claim {
        assert Live(s, c);
        assert KeyOf(c) != key;
      }
    }
    forall id | id in t.released
      ensures !FreshLease(t, id)
    {
      var c :| c in s.issued && c.leaseId == id;
      assert c in t.issued;
    }
  }

  lemma ReleaseKeepsSafe(s: LeaseState, claim: DistillationClaim)
    requires Safe(s) && Owns(s, claim)
    ensures Safe(Apply(s, Release(claim)))
  {
    var t := Apply(s, Release(claim));
    var owned := s.claims[KeyOf(claim)];
    assert owned in s.issued && owned.leaseId == claim.leaseId;
    forall key | key in t.claims
      ensures t.claims[key].leaseId !in t.released
    {
      assert t.claims[key] in s.issued && KeyOf(t.claims[key]) == key && KeyOf(owned) == KeyOf(claim);
      assert t.claims[key] != owned;
    }
    forall c | Live(t, c)
      ensures KeyOf(c) in t.claims && t.claims[KeyOf(c)] == c
    {
      assert Live(s, c);
      assert KeyOf(c) == KeyOf(claim) ==> c == owned;
    }
  }

  function Run(s: LeaseState, steps: seq<Step>): LeaseState
    decreases |steps|
  {
    if steps == [] then s else Run(Apply(s, steps[0]), steps[1..])
  }

  ghost predicate PossibleRun(s: LeaseState, steps: seq<Step>)
    decreases |steps|
  {
    steps == [] || (Possible(s, steps[0]) && PossibleRun(Apply(s, steps[0]), steps[1..]))
  }

  lemma {:induction false} RunKeepsSafe(s: LeaseState, steps: seq<Step>)
    requires Safe(s) && PossibleRun(s, steps)
    ensures Safe(Run(s, steps))
    decreases |steps|
  {
    if steps != [] {
      StepKeepsSafe(s, steps[0]);
      RunKeepsSafe(Apply(s, steps[0]), steps[1..]);
    }
  }

  /** A worker's claim passes the check exactly while it is live. */
  lemma CurrentIffLive(s: LeaseState, c: DistillationClaim)
    requires Safe(s) && c in s.issued
    ensures IsCurrent(s, c) <==> Live(s, c)
  {
  }

  /** At any moment of any run at most one claim ever issued for a session and loop is current. */
  lemma {:induction false} AtMostOneCurrent(s: LeaseState, steps: seq<Step>, a: DistillationClaim, b: DistillationClaim)
    requires Safe(s) && PossibleRun(s, steps)
    requires var t := Run(s, steps);
             a in t.issued && b in t.issued && KeyOf(a) == KeyOf(b) && IsCurrent(t, a) && IsCurrent(t, b)
    ensures a == b
  {
    RunKeepsSafe(s, steps);
  }

  /** A release by a holder that no longer owns the claim changes nothing, so it cannot remove its
      successor; and a release never ends anyone else's lease. */
  lemma StaleReleaseIsHarmless(s: LeaseState, c: DistillationClaim, other: DistillationClaim)
    requires Safe(s) && other.leaseId != c.leaseId
    ensures !Owns(s, c) ==> Apply(s, Release(c)) == s
    ensures IsCurrent(s, other) ==> IsCurrent(Apply(s, Release(c)), other)
  {
  }

  lemma StepProtectsLive(s: LeaseState, step: Step, c: DistillationClaim)
    requires Safe(s) && Possible(s, step) && Live(s, c) && c.expiresAt > Apply(s, step).now
    requires !(step.Release? && step.claim.leaseId == c.leaseId)
    ensures Live(Apply(s, step), c)
  {
  }

  lemma {:induction false} ClockAdvances(s: LeaseState, steps: seq<Step>)
    requires PossibleRun(s, steps)
    ensures Run(s, steps).now >= s.now
    decreases |steps|
  {
    if steps != [] {
      ClockAdvances(Apply(s, steps[0]), steps[1..]);
    }
  }

  /** No interleaving takes a lease away before it expires unless it is given back. */
  lemma {:induction false} LeaseIsProtected(s: LeaseState, steps: seq<Step>, c: DistillationClaim)
    requires Safe(s) && PossibleRun(s, steps) && Live(s, c) && c.expiresAt > Run(s, steps).now
    requires forall i | 0 <= i < |steps| :: !(steps[i].Release? && steps[i].claim.leaseId == c.leaseId)
    ensures IsCurrent(Run(s, steps), c)
    decreases |steps|
  {
    if steps == [] {
      CurrentIffLive(s, c);
    } else {
      var next := Apply(s, steps[0]);
      ClockAdvances(next, steps[1..]);
      StepKeepsSafe(s, steps[0]);
      StepProtectsLive(s, steps[0], c);
      LeaseIsProtected(next, steps[1..], c);
    }
  }

  lemma StepNeverRevives(s: LeaseState, step: Step, c: DistillationClaim)
    requires Safe(s) && Possible(s, step) && c in s.issued && !Live(s, c)
    ensures c in Apply(s, step).issued && !Live(Apply(s, step), c)
  {
  }

  /** A lease that was lost, by expiry or release, is never current again. */
  lemma {:induction false} LostStaysLost(s: LeaseState, steps: seq<Step>, c: DistillationClaim)
    requires Safe(s) && PossibleRun(s, steps) && c in s.issued && !IsCurrent(s, c)
    ensures c in Run(s, steps).issued && !IsCurrent(Run(s, steps), c)
    decreases |steps|
  {
    CurrentIffLive(s, c);
    if steps != [] {
      var next := Apply(s, steps[0]);
      StepKeepsSafe(s, steps[0]);
      StepNeverRevives(s, steps[0], c);
      CurrentIffLive(next, c);
      LostStaysLost(next, steps[1..], c);
    }
  }

  // ---------------------------------------------------------------- commits

  /** The node a keyed commit returns. */
  function Canonical(s: LeaseState, key: string, node: nat): nat {
    if key in s.abstracts then s.abstracts[key] else node
  }

  lemma {:induction false} CommittedStays(s: LeaseState, steps: seq<Step>, key: string)
    requires key in s.abstracts
    ensures key in Run(s, steps).abstracts && Run(s, steps).abstracts[key] == s.abstracts[key]
    decreases |steps|
  {
    if steps != [] {
      CommittedStays(Apply(s, steps[0]), steps[1..], key);
    }
  }

  /** The operation key of the node at one position of a claimed batch's output. */
  function PositionKey(c: DistillationClaim, index: nat): string {
    DistillKey(c.session, c.loop, c.digest, index)
  }

  /** Claims on one batch, under whatever leases. */
  predicate SameBatch(a: DistillationClaim, b: DistillationClaim) {
    KeyOf(a) == KeyOf(b) && a.digest == b.digest
  }

  predicate PlainIds(c: DistillationClaim) {
    NoColon(c.session) && NoColon(c.loop) && NoColon(c.digest)
  }

  /** Two positions have one key exactly if they are the same position of the same batch. */
  lemma PositionKeysApart(a: DistillationClaim, i: nat, b: DistillationClaim, j: nat)
    requires PlainIds(a) && PlainIds(b)
    ensures PositionKey(a, i) == PositionKey(b, j) <==> SameBatch(a, b) && i == j
  {
    if PositionKey(a, i) == PositionKey(b, j) {
      DistillKeyInjective(a.session, a.loop, a.digest, i, b.session, b.loop, b.digest, j);
    }
  }

  /** However leases come and go between them, two holders of claims on one batch that commit a node at
      one position are given the same node, and the later commit changes nothing. */
  lemma {:induction false} OneNodePerPosition(s: LeaseState, steps: seq<Step>, a: DistillationClaim, b: DistillationClaim, index: nat, node1: nat, node2: nat)
    requires SameBatch(a, b)
    ensures var s1 := Apply(s, Commit(PositionKey(a, index), node1));
            var s2 := Run(s1, steps);
            && Canonical(s2, PositionKey(b, index), node2) == Canonical(s, PositionKey(a, index), node1)
            && Apply(s2, Commit(PositionKey(b, index), node2)) == s2
  {
    CommittedStays(Apply(s, Commit(PositionKey(a, index), node1)), steps, PositionKey(a, index));
  }

  // ---------------------------------------------------------------- reachable states

  /** Some interleaving leads from `s` to `t`. */
  ghost predicate Reaches(s: LeaseState, t: LeaseState) {
    exists steps :: PossibleRun(s, steps) && Run(s, steps) == t
  }

  lemma {:induction false} RunConcat(s: LeaseState, a: seq<Step>, b: seq<Step>)
    requires PossibleRun(s, a) && PossibleRun(Run(s, a), b)
    ensures PossibleRun(s, a + b) && Run(s, a + b) == Run(Run(s, a), b)
    decreases |a|
  {
    if a == [] {
      assert [] + b == b;
    } else {
      assert (a + b)[1..] == a[1..] + b;
      RunConcat(Apply(s, a[0]), a[1..], b);
    }
  }

  lemma ReachesSelf(s: LeaseState)
    ensures Reaches(s, s)
  {
    assert PossibleRun(s, []) && Run(s, []) == s;
  }

  lemma ReachesStep(s: LeaseState, step: Step)
    requires Possible(s, step)
    ensures Reaches(s, Apply(s, step))
  {
    assert [step][1..] == [];
    assert PossibleRun(s, [step]) && Run(s, [step]) == Apply(s, step);
  }

  lemma ReachesOn(s: LeaseState, t: LeaseState, u: LeaseState)
    requires Reaches(s, t) && Reaches(t, u)
    ensures Reaches(s, u)
  {
    var a :| PossibleRun(s, a) && Run(s, a) == t;
    var b :| PossibleRun(t, b) && Run(t, b) == u;
    RunConcat(s, a, b);
  }

  /** What every interleaving keeps: issued claims stay issued, committed nodes stay committed. */
  lemma ReachesKeeps(s: LeaseState, t: LeaseState)
    requires Reaches(s, t)
    ensures s.issued <= t.issued && t.now >= s.now
    ensures forall key | key in s.abstracts :: key in t.abstracts && t.abstracts[key] == s.abstracts[key]
  {
    var steps :| PossibleRun(s, steps) && Run(s, steps) == t;
    ClockAdvances(s, steps);
    forall c | c in s.issued
      ensures c in t.issued
    {
      IssuedStays(s, steps, c);
    }
    forall key | key in s.abstracts
      ensures key in t.abstracts && t.abstracts[key] == s.abstracts[key]
    {
      CommittedStays(s, steps, key);
    }
  }

  lemma {:induction false} IssuedStays(s: LeaseState, steps: seq<Step>, claim: DistillationClaim)
    requires claim in s.issued
    ensures claim in Run(s, steps).issued
    decreases |steps|
  {
    if steps != [] {
      IssuedStays(Apply(s, steps[0]), steps[1..], claim);
    }
  }
}
