/** Values stored by the engine: ids, raw and abstract nodes, lifecycle patches. */
module Domain {

  datatype Option<+T> = None | Some(value: T)

  datatype Result<+T, +E> = Ok(value: T) | Err(error: E)

  datatype DistillationState = Undistilled | Distilled | PartiallyDistilled

  datatype OverflowPolicy = OverflowPolicy(wasPushedOutOfSession: bool, relaxRetrievalUntil: Option<int>)

  /** `content` stands for the kind, payload, embedding reference and metadata, which no store
      operation inspects. */
  datatype RawNode = RawNode(
    id: nat,
    operationKey: Option<string>,
    sessionId: Option<nat>,
    loopId: Option<nat>,
    timestamp: int,
    content: string,
    distillation: DistillationState,
    overflow: OverflowPolicy
  )

  datatype Relation = Relation(predicateName: string, target: string)

  datatype AbstractNode = AbstractNode(
    id: nat,
    operationKey: Option<string>,
    sessionId: Option<nat>,
    timestamp: int,
    content: string,
    abstractReferences: seq<nat>,
    relations: seq<Relation>
  )

  datatype RawLifecyclePatch = RawLifecyclePatch(
    distillation: Option<DistillationState>,
    overflow: Option<OverflowPolicy>
  )

  /** A raw id fixes who the node is; only its content and lifecycle may differ between versions. */
  predicate SameIdentity(a: RawNode, b: RawNode) {
    && a.id == b.id
    && a.operationKey == b.operationKey
    && a.sessionId == b.sessionId
    && a.loopId == b.loopId
    && a.timestamp == b.timestamp
  }

  function Patched(node: RawNode, patch: RawLifecyclePatch): RawNode {
    var n := if patch.distillation.Some? then node.(distillation := patch.distillation.value) else node;
    if patch.overflow.Some? then n.(overflow := patch.overflow.value) else n
  }

  /** How one repository call ends: done, refused before anything was written, or done but reported as an
      error. */
  datatype Persistence = Persisted | FailedBefore | FailedAfter
}
