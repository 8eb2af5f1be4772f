/** One worker's distillation of a claimed batch, with any number of other workers acting between
    any two of its repository calls. */
module Distillation {
  import opened Domain
  import opened OperationKeys
  import opened Leases

  datatype BatchNode = BatchNode(id: nat, session: Option<string>, loop: Option<string>)

  datatype DistillationOutput = DistillationOutput(newNodes: seq<nat>, rawUpdates: seq<nat>)

  datatype DistillationBatchResult = DistillationBatchResult(newAbstractIds: seq<nat>, updatedRawNodes: nat)

  datatype DistillError =
    | BatchTooLarge | CrossScopeBatch | DuplicateIds | DistillerFailed | BadUpdate | RecoveryUnsafe | BadProvenance | StorageProblem

  /** The points at which other workers may act. */
  datatype Moment = AfterClaim | BeforeCheck(index: nat) | BeforeCommit(index: nat) | BeforeUpdateCheck(index: nat) | BeforeUpdate(index: nat)
    | BeforeRelease

  /** Everything outside the worker: what others do at each moment, and how each repository call ends. */
  datatype Environment = Environment(
    others: Moment -> seq<Step>,
    claim: Persistence,
    checkFails: Moment -> bool,
    provenanceOk: nat -> bool,
    persist: nat -> Persistence,
    update: nat -> Persistence,
    release: Persistence
  )

  /** The digest of a batch: of its ids, sorted and without duplicates, hence of their set. */
  const BATCH_DIGEST: set<nat> -> string

  /** `claim_is_current` was read true in this state, then a node was committed under this key; `node` is
      the canonical node for the key, this worker's own if it was inserted. */
  datatype GuardedCommit = GuardedCommit(checkedAt: LeaseState, operationKey: string, node: nat, inserted: bool)

  /** `claim_is_current` was read true in this state, then the lifecycle of this raw node was updated. */
  datatype GuardedUpdate = GuardedUpdate(checkedAt: LeaseState, rawNode: nat)

  class DistillationRepository {
    var state: LeaseState
    /** The raw nodes this worker updated, in order. */
    var updated: seq<nat>

    constructor (now: int)
      ensures state == LeaseState(map[], map[], {}, {}, now) && Safe(state) && updated == []
    {
      state := LeaseState(map[], map[], {}, {}, now);
      updated := [];
    }

    method Do(step: Step)
      requires Safe(state) && Possible(state, step)
      modifies this`state
      ensures state == Apply(old(state), step) && Safe(state)
    {
      StepKeepsSafe(state, step);
      state := Apply(state, step);
    }

    /** Whatever else happens meanwhile: time passes, other workers claim, commit and release their own
        leases. Steps that cannot happen are skipped. */
    method Others(steps: seq<Step>, mine: DistillationClaim)
      requires Safe(state)
      modifies this`state
      ensures Safe(state) && Reaches(old(state), state)
      ensures mine.leaseId !in old(state).released ==> mine.leaseId !in state.released
    {
      hide Safe, Reaches;
      ReachesSelf(state);
      for i := 0 to |steps|
        invariant Safe(state) && Reaches(old(state), state)
        invariant mine.leaseId !in old(state).released ==> mine.leaseId !in state.released
      {
        var step := steps[i];
        if Possible(state, step) && !(step.Release? && step.claim.leaseId == mine.leaseId) {
          ReachesStep(state, step);
          ReachesOn(old(state), state, Apply(state, step));
          Do(step);
        }
      }
    }

    /** `try_claim_distillation` */
    method TryClaimDistillation(session: string, loop: string, digest: string, leaseFor: nat, leaseId: nat)
      returns (claim: Option<DistillationClaim>)
      requires Safe(state) && FreshLease(state, leaseId)
      modifies this`state
      ensures state == Apply(old(state), TryClaim(session, loop, digest, leaseFor, leaseId)) && Safe(state)
      ensures claim.None? <==> Held(old(state), (session, loop))
      ensures claim.Some? ==> claim.value == DistillationClaim(session, loop, digest, leaseId, old(state).now + leaseFor)
                              && claim.value in state.issued
    {
      var held := (session, loop) in state.claims && state.claims[(session, loop)].expiresAt > state.now;
      claim := if held then None else Some(DistillationClaim(session, loop, digest, leaseId, state.now + leaseFor));
      Do(TryClaim(session, loop, digest, leaseFor, leaseId));
    }

    method ClaimIsCurrent(claim: DistillationClaim) returns (current: bool)
      ensures current <==> IsCurrent(state, claim)
    {
      var key := (claim.session, claim.loop);
      if key in state.claims {
        var held := state.claims[key];
        current := held.leaseId == claim.leaseId && held.digest == claim.digest && held.expiresAt > state.now;
      } else {
        current := false;
      }
    }

    /** One guarded step's check: a failing read, or whether the claim is current. */
    method Check(claim: DistillationClaim, fails: bool) returns (r: Result<(), DistillError>)
      requires Safe(state) && claim in state.issued
      ensures r.Ok? <==> !fails && IsCurrent(state, claim)
      ensures r.Err? ==> r.error == if fails then StorageProblem else RecoveryUnsafe
      ensures r.Err? && r.error == RecoveryUnsafe ==> claim.leaseId in state.released || claim.expiresAt <= state.now
    {
      if fails {
        return Err(StorageProblem);
      }
      var current := ClaimIsCurrent(claim);
      CurrentIffLive(state, claim);
      r := if current then Ok(()) else Err(RecoveryUnsafe);
    }

    /** `release_distillation_claim` */
    method ReleaseClaim(claim: DistillationClaim, outcome: Persistence) returns (ok: bool)
      requires Safe(state)
      modifies this`state
      ensures ok <==> outcome == Persisted
      ensures state == if outcome == FailedBefore then old(state) else Apply(old(state), Release(claim))
      ensures Safe(state) && (outcome != FailedBefore ==> !Owns(state, claim))
    {
      if outcome != FailedBefore {
        Do(Release(claim));
      }
      ok := outcome == Persisted;
    }

    /** The commit in `persist_abstract_node`: dedup on the operation key. */
    method CommitAbstract(key: string, node: nat, outcome: Persistence) returns (ok: bool, inserted: bool)
      requires Safe(state)
      modifies this`state
      ensures ok <==> outcome == Persisted
      ensures state == if outcome == FailedBefore then old(state) else Apply(old(state), Commit(key, node))
      ensures Safe(state) && (inserted <==> key !in old(state).abstracts)
    {
      inserted := key !in state.abstracts;
      if outcome != FailedBefore {
        Do(Commit(key, node));
      }
      ok := outcome == Persisted;
    }

    /** `update_raw_lifecycle` of one node */
    method UpdateRaw(rawNode: nat, outcome: Persistence) returns (ok: bool)
      modifies this`updated
      ensures ok <==> outcome == Persisted
      ensures updated == if outcome == FailedBefore then old(updated) else old(updated) + [rawNode]
    {
      if outcome != FailedBefore {
        updated := updated + [rawNode];
      }
      ok := outcome == Persisted;
    }

    /** Every commit of a new node follows a check that the lease was current, with other workers acting
        before the check and between the two. The ids returned are those of the nodes this worker
        inserted. */
    method CommitNewNodes(claim: DistillationClaim, nodes: seq<nat>, env: Environment)
      returns (r: Result<seq<nat>, DistillError>, ghost log: seq<GuardedCommit>)
      requires Safe(state) && claim in state.issued
      modifies this`state
      ensures KeepsClaim(claim, old(state), state) && RefusedOnlyIfLost(claim, state, r)
      ensures Guarded(claim, nodes, log) && AllCommitted(log, state)
      ensures r.Ok? ==> |log| == |nodes| && r.value == InsertedNodes(log)
      ensures Excused(env, r)
    {
      hide Safe, Guarded, AllCommitted, Reaches, PositionKey, IsCurrent, Apply, KeepsClaim;
      var created: seq<nat> := [];
      log := [];
      NothingCommitted(claim, nodes, state);
      for index := 0 to |nodes|
        invariant KeepsClaim(claim, old(state), state)
        invariant |log| == index && Guarded(claim, nodes, log) && AllCommitted(log, state)
        invariant created == InsertedNodes(log)
      {
        ghost var s0 := state;
        StillSafe(claim, old(state), s0);
        Others(env.others(BeforeCheck(index)), claim);
        OthersKeep(claim, log, old(state), s0, state);
        var checked := Check(claim, env.checkFails(BeforeCheck(index)));
        if checked.Err? {
          LostIfReleased(claim, old(state), state);
          return Err(checked.error), log;
        }
        ghost var s1 := state;
        if !env.provenanceOk(index) {
          return Err(BadProvenance), log;
        }
        Others(env.others(BeforeCommit(index)), claim);
        OthersKeep(claim, log, old(state), s1, state);
        var key := PositionKey(claim, index);
        ghost var s2 := state;
        var ok, inserted := CommitAbstract(key, nodes[index], env.persist(index));
        ghost var c := GuardedCommit(s1, key, Canonical(s2, key, nodes[index]), inserted);
        CommitKeeps(claim, nodes, log, old(state), s2, nodes[index], c);
        if env.persist(index) != FailedBefore {
          log := log + [c];
        }
        if !ok {
          return Err(StorageProblem), log;
        }
        if inserted {
          created := created + [nodes[index]];
        }
      }
      r := Ok(created);
    }

    /** The lifecycle updates, each behind its own check. */
    method ApplyUpdates(claim: DistillationClaim, updates: seq<nat>, env: Environment, ghost log: seq<GuardedCommit>)
      returns (r: Result<nat, DistillError>, ghost applied: seq<GuardedUpdate>)
      requires Safe(state) && claim in state.issued && AllCommitted(log, state)
      modifies this
      ensures KeepsClaim(claim, old(state), state) && RefusedOnlyIfLost(claim, state, r)
      ensures AllCommitted(log, state)
      ensures GuardedUpdates(claim, updates, applied) && updated == old(updated) + updates[..|applied|]
      ensures r.Ok? ==> r.value == |updates| == |applied|
      ensures Excused(env, r)
    {
      hide Safe, AllCommitted, Reaches, IsCurrent, KeepsClaim;
      NothingLost(claim, state);
      applied := [];
      for i := 0 to |updates|
        invariant KeepsClaim(claim, old(state), state) && AllCommitted(log, state)
        invariant |applied| == i && GuardedUpdates(claim, updates, applied) && updated == old(updated) + updates[..i]
      {
        ghost var s0 := state;
        StillSafe(claim, old(state), s0);
        Others(env.others(BeforeUpdateCheck(i)), claim);
        OthersKeep(claim, log, old(state), s0, state);
        var checked := Check(claim, env.checkFails(BeforeUpdateCheck(i)));
        if checked.Err? {
          LostIfReleased(claim, old(state), state);
          return Err(checked.error), applied;
        }
        ghost var s1 := state;
        Others(env.others(BeforeUpdate(i)), claim);
        OthersKeep(claim, log, old(state), s1, state);
        var ok := UpdateRaw(updates[i], env.update(i));
        if env.update(i) != FailedBefore {
          applied := applied + [GuardedUpdate(s1, updates[i])];
          assert updates[..i + 1] == updates[..i] + [updates[i]];
        }
        if !ok {
          return Err(StorageProblem), applied;
        }
      }
      assert updates[..|updates|] == updates;
      r := Ok(|updates|);
    }

    /** The distiller's output: its updates are checked first, then its nodes are committed and its updates
        applied, each behind its own check. */
    method CommitOutput(claim: DistillationClaim, batch: set<nat>, output: DistillationOutput, env: Environment)
      returns (r: Result<DistillationBatchResult, DistillError>, ghost log: seq<GuardedCommit>, ghost applied: seq<GuardedUpdate>)
      requires Safe(state) && claim in state.issued
      modifies this
      ensures KeepsClaim(claim, old(state), state) && RefusedOnlyIfLost(claim, state, r)
      ensures Guarded(claim, output.newNodes, log) && AllCommitted(log, state)
      ensures r.Ok? ==> ValidUpdates(batch, output.rawUpdates) && |log| == |output.newNodes| && |applied| == |output.rawUpdates|
                        && r.value == DistillationBatchResult(InsertedNodes(log), |output.rawUpdates|)
      ensures r == Err(BadUpdate) <==> !ValidUpdates(batch, output.rawUpdates)
      ensures r == Err(BadUpdate) ==> log == [] && applied == [] && state == old(state)
      ensures GuardedUpdates(claim, output.rawUpdates, applied) && updated == old(updated) + output.rawUpdates[..|applied|]
      ensures ValidUpdates(batch, output.rawUpdates) ==> Excused(env, r)
    {
      hide Safe, Guarded, AllCommitted, Reaches, IsCurrent, ValidUpdates, KeepsClaim;
      log, applied := [], [];
      NothingCommitted(claim, output.newNodes, state);
      var valid := CheckUpdates(batch, output.rawUpdates);
      if !valid {
        return Err(BadUpdate), log, applied;
      }
      var checked := Check(claim, env.checkFails(AfterClaim));
      if checked.Err? {
        LostIfReleased(claim, old(state), state);
        return Err(checked.error), log, applied;
      }
      var created;
      created, log := CommitNewNodes(claim, output.newNodes, env);
      if created.Err? {
        return Err(created.error), log, applied;
      }
      ghost var s1 := state;
      StillSafe(claim, old(state), s1);
      var counted;
      counted, applied := ApplyUpdates(claim, output.rawUpdates, env, log);
      KeepsOn(claim, old(state), s1, state);
      if counted.Err? {
        return Err(counted.error), log, applied;
      }
      r := Ok(DistillationBatchResult(created.value, counted.value));
    }

    /** `distill_claimed_raw_nodes`. Nothing is committed without a claim, every commit was guarded by a
        check, and unless the release itself fails the claim is no longer this worker's when it returns,
        whether the work succeeded or not. */
    method DistillClaimedRawNodes(session: string, loop: string, nodes: seq<BatchNode>, maxLoopNodes: nat, leaseFor: nat, leaseId: nat,
                                  output: Option<DistillationOutput>, env: Environment)
      returns (r: Result<Option<DistillationBatchResult>, DistillError>, ghost mine: Option<DistillationClaim>, ghost log: seq<GuardedCommit>,
               ghost applied: seq<GuardedUpdate>)
      requires Safe(state) && FreshLease(state, leaseId)
      modifies this
      ensures Safe(state) && Reaches(old(state), state) && AllCommitted(log, state)
      ensures mine.None? ==> log == [] && updated == old(updated) && (state == old(state) || (env.claim == FailedAfter && r == Err(StorageProblem)))
      ensures mine.Some? ==>
                && mine.value.digest == BATCH_DIGEST(set n | n in nodes :: n.id) && KeyOf(mine.value) == (session, loop)
                && mine.value.leaseId == leaseId && mine.value in state.issued
                && (if output.Some? then Guarded(mine.value, output.value.newNodes, log) else log == [])
                && (if output.Some? then
                      GuardedUpdates(mine.value, output.value.rawUpdates, applied)
                      && updated == old(updated) + output.value.rawUpdates[..|applied|]
                    else updated == old(updated))
                && (env.release == FailedBefore || !Owns(state, mine.value))
                && (env.release != Persisted ==> r.Err?)
                && (r == Err(RecoveryUnsafe) ==> mine.value.expiresAt <= state.now)
      ensures mine.Some? <==> nodes != [] && AcceptableBatch(session, loop, nodes, maxLoopNodes) && env.claim == Persisted
                              && !Held(old(state), (session, loop))
      ensures nodes != [] && !AcceptableBatch(session, loop, nodes, maxLoopNodes) ==> r.Err?
      ensures nodes != [] && r == Ok(None) ==> Held(old(state), (session, loop))
      ensures r.Ok? && r.value.Some? && nodes != [] ==>
                && mine.Some? && output.Some? && ValidUpdates(set n | n in nodes :: n.id, output.value.rawUpdates)
                && |log| == |output.value.newNodes| && |applied| == |output.value.rawUpdates|
                && r.value.value == DistillationBatchResult(InsertedNodes(log), |output.value.rawUpdates|)
      ensures (nodes != [] && AcceptableBatch(session, loop, nodes, maxLoopNodes) && output.Some?
               && ValidUpdates(set n | n in nodes :: n.id, output.value.rawUpdates)) ==> Excused(env, r)
    {
      hide GuardedUpdates;
      hide Safe, Guarded, AllCommitted, Reaches, IsCurrent, ValidUpdates, KeepsClaim, Apply, FreshLease, Held;
      mine, log, applied := None, [], [];
      NothingCommitted(DistillationClaim(session, loop, "", leaseId, 0), [], state);
      ReachesSelf(state);
      if nodes == [] {
        return Ok(Some(DistillationBatchResult([], 0))), mine, log, applied;
      }
      if |nodes| > maxLoopNodes {
        return Err(BatchTooLarge), mine, log, applied;
      }
      if exists n | n in nodes :: n.session != Some(session) || n.loop != Some(loop) {
        return Err(CrossScopeBatch), mine, log, applied;
      }
      var batch := set n | n in nodes :: n.id;
      if |batch| != |nodes| {
        return Err(DuplicateIds), mine, log, applied;
      }
      if env.claim == FailedBefore {
        return Err(StorageProblem), mine, log, applied;
      }
      ghost var s0 := state;
      ClaimStep(s0, session, loop, BATCH_DIGEST(batch), leaseFor, leaseId);
      var claim := TryClaimDistillation(session, loop, BATCH_DIGEST(batch), leaseFor, leaseId);
      ghost var s1 := state;
      if env.claim == FailedAfter {
        NothingCommitted(DistillationClaim(session, loop, "", leaseId, 0), [], state);
        return Err(StorageProblem), mine, log, applied;
      }
      if claim.None? {
        return Ok(None), mine, log, applied;
      }
      mine := claim;
      NothingLost(claim.value, s1);
      NothingCommitted(claim.value, if output.Some? then output.value.newNodes else [], s1);
      Others(env.others(AfterClaim), claim.value);
      OthersKeep(claim.value, [], s1, s1, state);
      ghost var s2 := state;
      StillSafe(claim.value, s1, s2);
      var work;
      if output.None? {
        work := Err(DistillerFailed);
      } else {
        work, log, applied := CommitOutput(claim.value, batch, output.value, env);
        KeepsOn(claim.value, s1, s2, state);
      }
      ghost var s3 := state;
      StillSafe(claim.value, s1, s3);
      Others(env.others(BeforeRelease), claim.value);
      OthersKeep(claim.value, log, s1, s3, state);
      ghost var s4 := state;
      ReleaseKeeps(claim.value, log, s1, s3, s4);
      ReachesOn(s0, s1, s4);
      ReachesOn(s0, s1, Apply(s4, Release(claim.value)));
      var released := ReleaseClaim(claim.value, env.release);
      r := match work
           case Err(error) => Err(error)
           case Ok(result) => if released then Ok(Some(result)) else Err(StorageProblem);
    }
  }

  ghost predicate AcceptableBatch(session: string, loop: string, nodes: seq<BatchNode>, maxLoopNodes: nat) {
    && |nodes| <= maxLoopNodes
    && (forall n | n in nodes :: n.session == Some(session) && n.loop == Some(loop))
    && |set n | n in nodes :: n.id| == |nodes|
  }

  /** Every logged commit is still there: its key names the logged node. */
  ghost predicate AllCommitted(log: seq<GuardedCommit>, s: LeaseState) {
    forall i | 0 <= i < |log| :: log[i].operationKey in s.abstracts && s.abstracts[log[i].operationKey] == log[i].node
  }

  /** Each commit used its own position's key, after a check that passed, and brought its own node if it
      was inserted. */
  ghost predicate Guarded(claim: DistillationClaim, nodes: seq<nat>, log: seq<GuardedCommit>) {
    && |log| <= |nodes|
    && forall i | 0 <= i < |log| ::
         && IsCurrent(log[i].checkedAt, claim) && log[i].operationKey == PositionKey(claim, i)
         && (log[i].inserted ==> log[i].node == nodes[i])
  }

  /** Each update is that of its own position, after a check that passed. */
  ghost predicate GuardedUpdates(claim: DistillationClaim, updates: seq<nat>, applied: seq<GuardedUpdate>) {
    && |applied| <= |updates|
    && forall i | 0 <= i < |applied| :: IsCurrent(applied[i].checkedAt, claim) && applied[i].rawNode == updates[i]
  }

  /** An error is the fault of the lease, of a repository call that failed, or of a node without provenance. */
  ghost predicate Excused<T>(env: Environment, r: Result<T, DistillError>) {
    r.Err? ==>
      || r.error == RecoveryUnsafe
      || (r.error == BadProvenance && exists i :: !env.provenanceOk(i))
      || (r.error == StorageProblem
          && (env.claim != Persisted || env.release != Persisted
              || (exists m :: env.checkFails(m)) || (exists i :: env.persist(i) != Persisted) || (exists i :: env.update(i) != Persisted)))
  }

  /** The nodes this worker inserted, in order. */
  ghost function InsertedNodes(log: seq<GuardedCommit>): seq<nat> {
    if log == [] then []
    else
      var front, last := log[..|log| - 1], log[|log| - 1];
      InsertedNodes(front) + if last.inserted then [last.node] else []
  }

  /** From `s` to `t` the claim stays issued, and nobody but its holder gives it back. */
  ghost predicate KeepsClaim(claim: DistillationClaim, s: LeaseState, t: LeaseState) {
    && Safe(t) && claim in t.issued && Reaches(s, t)
    && (claim.leaseId !in s.released ==> claim.leaseId !in t.released)
  }

  /** A worker is turned away only when its lease has run out or was given back. */
  ghost predicate RefusedOnlyIfLost<T>(claim: DistillationClaim, s: LeaseState, r: Result<T, DistillError>) {
    r.Err? && r.error == RecoveryUnsafe ==> claim.leaseId in s.released || claim.expiresAt <= s.now
  }

  lemma NothingCommitted(claim: DistillationClaim, nodes: seq<nat>, s: LeaseState)
    ensures Guarded(claim, nodes, []) && AllCommitted([], s)
    ensures Safe(s) && claim in s.issued ==> KeepsClaim(claim, s, s)
  {
    ReachesSelf(s);
  }

  lemma NothingLost(claim: DistillationClaim, s: LeaseState)
    requires Safe(s) && claim in s.issued
    ensures KeepsClaim(claim, s, s)
  {
    ReachesSelf(s);
  }

  lemma StillSafe(claim: DistillationClaim, s: LeaseState, t: LeaseState)
    requires KeepsClaim(claim, s, t)
    ensures Safe(t) && claim in t.issued && Reaches(s, t)
    ensures claim.leaseId !in s.released ==> claim.leaseId !in t.released
  {
  }

  lemma LostIfReleased(claim: DistillationClaim, s: LeaseState, t: LeaseState)
    requires KeepsClaim(claim, s, t)
    ensures claim.leaseId !in s.released ==> claim.leaseId !in t.released
  {
  }

  lemma KeepsOn(claim: DistillationClaim, s: LeaseState, t: LeaseState, u: LeaseState)
    requires KeepsClaim(claim, s, t) && KeepsClaim(claim, t, u)
    ensures KeepsClaim(claim, s, u)
  {
    ReachesOn(s, t, u);
  }

  lemma OthersKeep(claim: DistillationClaim, log: seq<GuardedCommit>, s: LeaseState, t: LeaseState, u: LeaseState)
    requires KeepsClaim(claim, s, t) && Safe(u) && Reaches(t, u) && AllCommitted(log, t)
    requires claim.leaseId !in t.released ==> claim.leaseId !in u.released
    ensures KeepsClaim(claim, s, u) && AllCommitted(log, u) && Safe(u) && claim in u.issued
  {
    ReachesOn(s, t, u);
    ReachesKeeps(t, u);
  }

  lemma {:induction false} CommitKeeps(claim: DistillationClaim, nodes: seq<nat>, log: seq<GuardedCommit>, s: LeaseState, t: LeaseState, node: nat, c: GuardedCommit)
    requires KeepsClaim(claim, s, t) && Guarded(claim, nodes, log) && AllCommitted(log, t)
    requires IsCurrent(c.checkedAt, claim) && |log| < |nodes| && node == nodes[|log|]
    requires c.operationKey == PositionKey(claim, |log|) && c.node == Canonical(t, c.operationKey, node)
    requires c.inserted <==> c.operationKey !in t.abstracts
    ensures var u := Apply(t, Commit(c.operationKey, node));
            && KeepsClaim(claim, s, u) && Guarded(claim, nodes, log + [c]) && AllCommitted(log + [c], u)
            && InsertedNodes(log + [c]) == InsertedNodes(log) + if c.inserted then [node] else []
  {
    hide IsCurrent, PositionKey, AllCommitted, KeepsClaim, Apply, Guarded, InsertedNodes;
    CommitKeepsClaim(claim, s, t, c.operationKey, node);
    CommitLogged(log, t, node, c);
    CommitGuarded(claim, nodes, log, c);
  }

  lemma CommitKeepsClaim(claim: DistillationClaim, s: LeaseState, t: LeaseState, key: string, node: nat)
    requires KeepsClaim(claim, s, t)
    ensures KeepsClaim(claim, s, Apply(t, Commit(key, node)))
  {
    hide Safe, Reaches;
    StepKeepsSafe(t, Commit(key, node));
    ReachesStep(t, Commit(key, node));
    ReachesOn(s, t, Apply(t, Commit(key, node)));
  }

  lemma CommitGuarded(claim: DistillationClaim, nodes: seq<nat>, log: seq<GuardedCommit>, c: GuardedCommit)
    requires Guarded(claim, nodes, log) && IsCurrent(c.checkedAt, claim) && |log| < |nodes|
    requires c.operationKey == PositionKey(claim, |log|) && (c.inserted ==> c.node == nodes[|log|])
    ensures Guarded(claim, nodes, log + [c])
  {
    hide IsCurrent, PositionKey;
  }

  lemma {:induction false} CommitLogged(log: seq<GuardedCommit>, t: LeaseState, node: nat, c: GuardedCommit)
    requires AllCommitted(log, t) && c.node == Canonical(t, c.operationKey, node)
    ensures var u := Apply(t, Commit(c.operationKey, node));
            && u.released == t.released && AllCommitted(log + [c], u)
            && InsertedNodes(log + [c]) == InsertedNodes(log) + if c.inserted then [c.node] else []
  {
    assert (log + [c])[..|log|] == log;
  }

  lemma ReleaseKeeps(claim: DistillationClaim, log: seq<GuardedCommit>, s: LeaseState, worked: LeaseState, t: LeaseState)
    requires KeepsClaim(claim, s, worked) && KeepsClaim(claim, s, t) && Reaches(worked, t) && AllCommitted(log, t)
    ensures var u := Apply(t, Release(claim));
            && Reaches(s, t) && Reaches(s, u) && AllCommitted(log, u) && claim in u.issued && u.now == t.now && t.now >= worked.now
  {
    ReachesStep(t, Release(claim));
    ReachesOn(s, t, Apply(t, Release(claim)));
    ReachesKeeps(worked, t);
  }

  lemma ClaimStep(s: LeaseState, session: string, loop: string, digest: string, leaseFor: nat, leaseId: nat)
    requires Safe(s) && FreshLease(s, leaseId)
    ensures Reaches(s, Apply(s, TryClaim(session, loop, digest, leaseFor, leaseId)))
    ensures Held(s, (session, loop)) ==> Apply(s, TryClaim(session, loop, digest, leaseFor, leaseId)) == s
    ensures leaseId !in Apply(s, TryClaim(session, loop, digest, leaseFor, leaseId)).released
  {
    ReachesStep(s, TryClaim(session, loop, digest, leaseFor, leaseId));
  }

  /** Updates name different nodes of the batch. */
  ghost predicate ValidUpdates(batch: set<nat>, updates: seq<nat>) {
    (forall i | 0 <= i < |updates| :: updates[i] in batch) && (forall i, j | 0 <= i < j < |updates| :: updates[i] != updates[j])
  }

  method CheckUpdates(batch: set<nat>, updates: seq<nat>) returns (valid: bool)
    ensures valid <==> ValidUpdates(batch, updates)
  {
    var updated: set<nat> := {};
    for i := 0 to |updates|
      invariant ValidUpdates(batch, updates[..i])
      invariant forall id :: id in updated <==> id in updates[..i]
    {
      assert updates[..i + 1] == updates[..i] + [updates[i]];
      if updates[i] !in batch || updates[i] in updated {
        SomeInvalid(batch, updates, i);
        return false;
      }
      updated := updated + {updates[i]};
    }
    assert updates[..|updates|] == updates;
    valid := true;
  }

  lemma SomeInvalid(batch: set<nat>, updates: seq<nat>, i: nat)
    requires i < |updates| && (updates[i] !in batch || updates[i] in updates[..i])
    ensures !ValidUpdates(batch, updates)
  {
    if updates[i] in updates[..i] {
      var j :| 0 <= j < i && updates[..i][j] == updates[i];
      assert updates[j] == updates[i];
    }
  }
}
