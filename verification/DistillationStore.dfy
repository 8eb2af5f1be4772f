/** Distillation workers over the crash-prone store: the claims table and the directory as one state, in
    which lease operations, store calls, crashes and reopenings interleave freely. Every joint run is a
    run of the lease protocol whose commits are bodies on disk. */
module DistillationStore {
  import opened Domain
  import opened OperationKeys
  import opened RawIndexes
  import opened VectorShards
  import opened StoreModel
  import opened StoreInvariants
  import opened StoreRecovery
  import opened StoreHistories
  import L = Leases
  import D = Distillation

  // ---------------------------------------------------------------- the keys on disk

  /** `owners` names, for every operation key, the abstract body that carries it. */
  ghost predicate Mirrors(owners: map<string, nat>, abstracts: map<nat, AbstractNode>) {
    && (forall key | key in owners :: owners[key] in abstracts && abstracts[owners[key]].operationKey == Some(key))
    && (forall id | id in abstracts && abstracts[id].operationKey.Some? ::
          abstracts[id].operationKey.value in owners && owners[abstracts[id].operationKey.value] == id)
  }

  lemma MirrorUnique(a: map<string, nat>, b: map<string, nat>, abstracts: map<nat, AbstractNode>)
    requires Mirrors(a, abstracts) && Mirrors(b, abstracts)
    ensures a == b
  {
    assert forall key | key in a :: key in b && b[key] == a[key];
    assert forall key | key in b :: key in a;
  }

  /** The lease protocol's commit that a keyed abstract write is. */
  function CommitOf(call: Call): Option<L.Step> {
    if AbstractCallNode(call).Some? && AbstractCallNode(call).value.operationKey.Some? then
      Some(L.Commit(AbstractCallNode(call).value.operationKey.value, AbstractCallNode(call).value.id))
    else None
  }

  lemma KeyUnused(d: Disk, owners: map<string, nat>, key: string)
    requires Mirrors(owners, d.abstracts) && !KeyTaken(AbstractKeys(d.abstracts), Some(key))
    ensures key !in owners
    ensures forall id | id in d.abstracts :: d.abstracts[id].operationKey != Some(key)
  {
    forall id | id in d.abstracts
      ensures d.abstracts[id].operationKey != Some(key)
    {
      assert d.abstracts[id].operationKey == Some(key) ==> Owns(AbstractKeys(d.abstracts), RECEIPT_DIGEST(key), id);
    }
  }

  /** A body put under an unused key, or under none. */
  lemma PutMirrored(owners: map<string, nat>, abstracts: map<nat, AbstractNode>, node: AbstractNode)
    requires Mirrors(owners, abstracts)
    requires node.id in abstracts ==> abstracts[node.id].operationKey == node.operationKey
    requires node.operationKey.Some? ==> node.operationKey.value !in owners
    ensures Mirrors(if node.operationKey.Some? then owners[node.operationKey.value := node.id] else owners, abstracts[node.id := node])
  {
    assert node.operationKey.Some? ==> node.id !in abstracts;
  }

  lemma EffectOnAbstracts(d: Disk, call: Call)
    requires AdmissibleCall(d, call)
    ensures var node := AbstractCallNode(call);
            && CallEffect(CoreOf(d), call).abstracts
               == (if node.None? || KeyTaken(AbstractKeys(d.abstracts), node.value.operationKey) then d.abstracts
                   else d.abstracts[node.value.id := node.value])
            && (node.Some? && node.value.id in d.abstracts ==> d.abstracts[node.value.id].operationKey == node.value.operationKey)
  {
    hide KeyTaken;
  }

  /** The effect of a call on the abstract bodies is its commit on the owners, or nothing. */
  lemma EffectMirrored(s: L.LeaseState, d: Disk, call: Call)
    requires Mirrors(s.abstracts, d.abstracts) && AdmissibleCall(d, call)
    ensures var after := CallEffect(CoreOf(d), call).abstracts;
            || Mirrors(s.abstracts, after)
            || (CommitOf(call).Some? && Mirrors(L.Apply(s, CommitOf(call).value).abstracts, after))
  {
    hide Mirrors, CallEffect, AdmissibleCall, KeyTaken;
    EffectOnAbstracts(d, call);
    if AbstractCallNode(call).Some? && !KeyTaken(AbstractKeys(d.abstracts), AbstractCallNode(call).value.operationKey) {
      var node := AbstractCallNode(call).value;
      if node.operationKey.Some? { KeyUnused(d, s.abstracts, node.operationKey.value); }
      PutMirrored(s.abstracts, d.abstracts, node);
    }
  }

  // ---------------------------------------------------------------- joint runs

  datatype Joint = Joint(leases: L.LeaseState, disk: Disk)

  datatype JointStep = LeaseStep(step: L.Step) | StoreStep(event: Event)

  /** The leases are safe, the store is consistent, and the protocol's nodes are the bodies on disk. */
  ghost predicate Linked(j: Joint) {
    L.Safe(j.leases) && Consistent(j.disk) && Mirrors(j.leases.abstracts, j.disk.abstracts)
  }

  /** Commits go through the store; a store call may crash anywhere and be followed by interrupted
      reopenings. */
  ghost predicate JointPossible(j: Joint, step: JointStep) {
    match step
    case LeaseStep(step) => !step.Commit? && L.Possible(j.leases, step)
    case StoreStep(event) => ValidEvent(j.disk, event)
  }

  ghost function JointApply(j: Joint, step: JointStep): Joint
    requires JointPossible(j, step)
  {
    match step
    case LeaseStep(step) => j.(leases := L.Apply(j.leases, step))
    case StoreStep(event) =>
      var disk := AfterEvent(j.disk, event);
      if Mirrors(j.leases.abstracts, disk.abstracts) || CommitOf(event.call).None? then j.(disk := disk)
      else Joint(L.Apply(j.leases, CommitOf(event.call).value), disk)
  }

  lemma {:induction false} JointStepKeeps(j: Joint, step: JointStep)
    requires Linked(j) && JointPossible(j, step)
    ensures Linked(JointApply(j, step)) && L.Reaches(j.leases, JointApply(j, step).leases)
  {
    hide L.Safe, L.Reaches, Consistent, AdmissibleCall, AfterEvent, CallEffect;
    match step
    case LeaseStep(step) =>
      L.StepKeepsSafe(j.leases, step);
      L.ReachesStep(j.leases, step);
    case StoreStep(event) =>
      EventAtomic(j.disk, event);
      EffectMirrored(j.leases, j.disk, event.call);
      L.ReachesSelf(j.leases);
      if CommitOf(event.call).Some? {
        L.StepKeepsSafe(j.leases, CommitOf(event.call).value);
        L.ReachesStep(j.leases, CommitOf(event.call).value);
      }
  }

  ghost predicate JointPossibleRun(j: Joint, steps: seq<JointStep>)
    decreases |steps|
  {
    steps == [] || (JointPossible(j, steps[0]) && JointPossibleRun(JointApply(j, steps[0]), steps[1..]))
  }

  ghost function JointRun(j: Joint, steps: seq<JointStep>): Joint
    requires JointPossibleRun(j, steps)
    decreases |steps|
  {
    if steps == [] then j else JointRun(JointApply(j, steps[0]), steps[1..])
  }

  /** Every joint run of leases, store calls, crashes and reopenings is a run of the lease protocol, whose
      nodes stay exactly the bodies on a consistent disk. */
  lemma {:induction false} JointRunRefines(j: Joint, steps: seq<JointStep>)
    requires Linked(j) && JointPossibleRun(j, steps)
    ensures Linked(JointRun(j, steps)) && L.Reaches(j.leases, JointRun(j, steps).leases)
    decreases |steps|
  {
    hide Linked, L.Reaches, JointPossible, JointApply;
    if steps == [] {
      L.ReachesSelf(j.leases);
    } else {
      var next := JointApply(j, steps[0]);
      JointStepKeeps(j, steps[0]);
      JointRunRefines(next, steps[1..]);
      L.ReachesOn(j.leases, next.leases, JointRun(next, steps[1..]).leases);
    }
  }

  lemma LookupMirrored(s: L.LeaseState, d: Disk, key: string)
    requires Consistent(d) && Mirrors(s.abstracts, d.abstracts)
    ensures var found := LookupReceipt(d.abstractReceipts, d.abstracts.Keys, Some(key));
            && (found.Free? ==> key !in s.abstracts)
            && (found.Existing? ==> found.id in d.abstracts && key in s.abstracts && s.abstracts[key] == found.id)
            && (found.Free? <==> !KeyTaken(AbstractKeys(d.abstracts), Some(key)))
  {
    hide IndexesExact, VectorsExact;
    assert AbstractKeys(d.abstracts).Keys == d.abstracts.Keys;
    LookupDecides(AbstractKeys(d.abstracts), d.abstractReceipts, Some(key));
    var found := LookupReceipt(d.abstractReceipts, d.abstracts.Keys, Some(key));
    if found.Free? { KeyUnused(d, s.abstracts, key); }
    if found.Existing? { assert d.abstracts[found.id].operationKey == Some(key); }
  }

  /** A commit call that returns is the protocol's commit, and returns its canonical node. */
  lemma CommitCallIsCommit(j: Joint, call: Call)
    requires Linked(j) && JointPossible(j, StoreStep(Returned(call))) && CommitOf(call).Some?
    requires ReturnedAbstract(j.disk, AbstractCallNode(call).value).Some?
    ensures var commit := CommitOf(call).value;
            && JointApply(j, StoreStep(Returned(call))).leases == L.Apply(j.leases, commit)
            && ReturnedAbstract(j.disk, AbstractCallNode(call).value).value.id == L.Canonical(j.leases, commit.operationKey, commit.node)
  {
    hide L.Safe, Consistent, Mirrors, AdmissibleCall, CallEffect, AfterEvent, LookupReceipt, KeyTaken;
    var node := AbstractCallNode(call).value;
    var key := node.operationKey.value;
    EventAtomic(j.disk, Returned(call));
    EffectOnAbstracts(j.disk, call);
    LookupMirrored(j.leases, j.disk, key);
    ReturnedId(j, node);
    var after := AfterEvent(j.disk, Returned(call)).abstracts;
    if LookupReceipt(j.disk.abstractReceipts, j.disk.abstracts.Keys, node.operationKey).Free? {
      NotMirroredWithout(j.leases.abstracts, after, node.id, key);
    }
  }

  lemma ReturnedId(j: Joint, node: AbstractNode)
    requires Linked(j) && ReturnedAbstract(j.disk, node).Some?
    ensures var found := LookupReceipt(j.disk.abstractReceipts, j.disk.abstracts.Keys, node.operationKey);
            && !found.Collision?
            && (found.Existing? && found.id in j.disk.abstracts ==> ReturnedAbstract(j.disk, node).value.id == found.id)
            && (found.Free? ==> ReturnedAbstract(j.disk, node).value == node)
  {
  }

  lemma NotMirroredWithout(owners: map<string, nat>, abstracts: map<nat, AbstractNode>, id: nat, key: string)
    requires key !in owners && id in abstracts && abstracts[id].operationKey == Some(key)
    ensures !Mirrors(owners, abstracts)
  {
  }

  // ---------------------------------------------------------------- one body per position

  /** What a worker committed is on disk, under the key of its position. */
  lemma LoggedIsStored(j: Joint, c: L.DistillationClaim, nodes: seq<nat>, log: seq<D.GuardedCommit>, i: nat)
    requires Linked(j) && D.Guarded(c, nodes, log) && D.AllCommitted(log, j.leases) && i < |log|
    ensures log[i].node in j.disk.abstracts && j.disk.abstracts[log[i].node].operationKey == Some(L.PositionKey(c, i))
  {
    hide L.Safe, Consistent, L.IsCurrent, L.PositionKey;
    assert log[i].operationKey in j.leases.abstracts;
  }

  /** Two workers' commits, each under its own lease and any joint run apart, crashes included: their
      logged nodes are bodies on disk, and two of them are one body exactly if they are the same position
      of the same batch. */
  lemma {:induction false} OneBodyPerPosition(j: Joint, steps: seq<JointStep>,
                           c1: L.DistillationClaim, nodes1: seq<nat>, log1: seq<D.GuardedCommit>, i1: nat,
                           c2: L.DistillationClaim, nodes2: seq<nat>, log2: seq<D.GuardedCommit>, i2: nat)
    requires Linked(j) && JointPossibleRun(j, steps) && L.PlainIds(c1) && L.PlainIds(c2)
    requires D.Guarded(c1, nodes1, log1) && D.AllCommitted(log1, j.leases) && i1 < |log1|
    requires D.Guarded(c2, nodes2, log2) && D.AllCommitted(log2, JointRun(j, steps).leases) && i2 < |log2|
    ensures var d := JointRun(j, steps).disk;
            && log1[i1].node in d.abstracts && d.abstracts[log1[i1].node].operationKey == Some(L.PositionKey(c1, i1))
            && log2[i2].node in d.abstracts && d.abstracts[log2[i2].node].operationKey == Some(L.PositionKey(c2, i2))
            && (log1[i1].node == log2[i2].node <==> L.SameBatch(c1, c2) && i1 == i2)
  {
    hide D.Guarded, L.PositionKey, JointRun, JointPossibleRun, L.Reaches;
    var k := JointRun(j, steps);
    JointRunRefines(j, steps);
    StillLogged(log1, j.leases, k.leases);
    LoggedIsStored(k, c1, nodes1, log1, i1);
    LoggedIsStored(k, c2, nodes2, log2, i2);
    L.PositionKeysApart(c1, i1, c2, i2);
    if L.PositionKey(c1, i1) == L.PositionKey(c2, i2) {
      OneAbstractPerKey(k.disk, log1[i1].node, log2[i2].node);
    }
  }

  lemma StillLogged(log: seq<D.GuardedCommit>, s: L.LeaseState, t: L.LeaseState)
    requires D.AllCommitted(log, s) && L.Reaches(s, t)
    ensures D.AllCommitted(log, t)
  {
    L.ReachesKeeps(s, t);
  }

  /** A later commit for a logged position, by whichever holder of a claim on the batch and after whatever
      joint run, writes nothing and returns the logged node. */
  lemma {:induction false} LaterCommitFindsIt(j: Joint, steps: seq<JointStep>, c1: L.DistillationClaim, nodes: seq<nat>, log: seq<D.GuardedCommit>, i: nat,
                           c2: L.DistillationClaim, call: Call)
    requires Linked(j) && JointPossibleRun(j, steps) && D.Guarded(c1, nodes, log) && D.AllCommitted(log, j.leases) && i < |log|
    requires L.SameBatch(c1, c2) && AbstractCallNode(call).Some?
    requires AbstractCallNode(call).value.operationKey == Some(L.PositionKey(c2, i))
    ensures var d := JointRun(j, steps).disk;
            && CallWrites(d, call) == []
            && ReturnedAbstract(d, AbstractCallNode(call).value).Some?
            && ReturnedAbstract(d, AbstractCallNode(call).value).value.id == log[i].node
  {
    hide D.Guarded, JointRun, JointPossibleRun, L.Reaches, Mirrors, L.Safe;
    var k := JointRun(j, steps);
    JointRunRefines(j, steps);
    StillLogged(log, j.leases, k.leases);
    LoggedIsStored(k, c1, nodes, log, i);
    AbstractOwnerFound(k.disk, call, log[i].node);
    KeyedById(k.disk, log[i].node);
  }
}
