/** The API server as the operator's client sees it: one slot per key, atomic requests, requests that may fail. */
module Api {
  import opened Wrappers
  import opened PlusTypes
  import opened Routes

  datatype Kind = DeploymentKind | ServiceKind | DestinationRuleKind | VirtualServiceKind | AutoscalerKind | PlusKind

  datatype Key = Key(kind: Kind, ns: string, name: string)

  datatype Meta = Meta(labels: StringMap, annotations: StringMap)

  /** `pod` stands for the pod-spec fields that are copied unread. */
  datatype DeploymentSpec = DeploymentSpec(replicas: int32, selector: StringMap, podLabels: StringMap,
                                           podAnnotations: StringMap, image: string, port: int32,
                                           resources: Resources, pod: string)

  datatype ServicePort = ServicePort(name: string, protocol: string, port: int32, targetPort: int32)

  datatype ServiceSpec = ServiceSpec(serviceType: string, selector: StringMap, ports: seq<ServicePort>,
                                     sessionAffinity: string)

  datatype AutoscalerSpec = AutoscalerSpec(minReplicas: int32, maxReplicas: int32, targetName: string,
                                           targetCpuPercent: int32)

  datatype Object =
    | DeploymentObject(meta: Meta, deployment: DeploymentSpec, available: int32)
    | ServiceObject(meta: Meta, service: ServiceSpec)
    | DestinationRuleObject(meta: Meta, destinationRule: DestinationRuleSpec)
    | VirtualServiceObject(meta: Meta, virtualService: VirtualServiceSpec)
    | AutoscalerObject(meta: Meta, autoscaler: AutoscalerSpec)
    | PlusObject(plus: Plus)

  function KindOf(o: Object): Kind {
    match o
    case DeploymentObject(_, _, _) => DeploymentKind
    case ServiceObject(_, _) => ServiceKind
    case DestinationRuleObject(_, _) => DestinationRuleKind
    case VirtualServiceObject(_, _) => VirtualServiceKind
    case AutoscalerObject(_, _) => AutoscalerKind
    case PlusObject(_) => PlusKind
  }

  /** `version` counts the writes to this key; it is the resourceVersion, and is never used twice for one key. */
  datatype Slot = Slot(version: nat, content: Option<Object>)

  const EMPTY := Slot(0, None)

  type Store = map<Key, Slot>

  function At(store: Store, key: Key): Slot {
    if key in store then store[key] else EMPTY
  }

  function Put(store: Store, key: Key, slot: Slot): (r: Store)
    ensures At(r, key) == slot
    ensures forall k | k != key :: At(r, k) == At(store, k)
  {
    if At(store, key) == slot then store else store[key := slot]
  }

  /** Typed reads: every slot holds objects of its key's kind. */
  ghost predicate WellTyped(store: Store) {
    forall k | At(store, k).content.Some? :: KindOf(At(store, k).content.value) == k.kind
  }

  datatype Verb =
    | Get
    | Create(obj: Object)
    | Update(obj: Object, ifVersion: Option<nat>)  // conditional when a version is given
    | Delete
    | PutStatus(status: Status, ifVersion: Option<nat>)

  datatype Failure = NotFound | AlreadyExists | Conflict | Unavailable

  datatype Response = Found(obj: Object, version: nat) | Absent | Stored(obj: Object, version: nat)
                    | Deleted | Failed(failure: Failure)

  /** Status is a subresource and the deletion mark belongs to the server: an update changes neither. */
  function Merge(old_: Object, new_: Object): Object {
    if old_.DeploymentObject? && new_.DeploymentObject? then new_.(available := old_.available)
    else if old_.PlusObject? && new_.PlusObject? then
      PlusObject(new_.plus.(deleting := old_.plus.deleting, status := old_.plus.status))
    else new_
  }

  /** A deleting Plus without finalizers is gone. */
  function Retained(o: Object): Option<Object> {
    if o.PlusObject? && o.plus.deleting && o.plus.finalizers == [] then None else Some(o)
  }

  /** Writing what is stored already changes nothing, not even the version. */
  function Replace(slot: Slot, o: Object): (Slot, Response)
    requires slot.content.Some?
  {
    if slot.content.value == o then (slot, Stored(o, slot.version))
    else (Slot(slot.version + 1, Retained(o)), Stored(o, slot.version + 1))
  }

  /** One request against one slot. */
  function Serve(slot: Slot, verb: Verb): (Slot, Response) {
    match verb
    case Get =>
      (slot, if slot.content.Some? then Found(slot.content.value, slot.version) else Absent)
    case Create(o) =>
      if slot.content.Some? then (slot, Failed(AlreadyExists))
      else (Slot(slot.version + 1, Some(o)), Stored(o, slot.version + 1))
    case Update(o, ifVersion) =>
      if slot.content.None? then (slot, Failed(NotFound))
      else if ifVersion.Some? && ifVersion.value != slot.version then (slot, Failed(Conflict))
      else Replace(slot, Merge(slot.content.value, o))
    case Delete =>
      if slot.content.None? then (slot, Failed(NotFound))
      else
        var o := slot.content.value;
        if o.PlusObject? && o.plus.finalizers != [] then
          (Replace(slot, PlusObject(o.plus.(deleting := true))).0, Deleted)
        else (Slot(slot.version + 1, None), Deleted)
    case PutStatus(status, ifVersion) =>
      if slot.content.None? || !slot.content.value.PlusObject? then (slot, Failed(NotFound))
      else if ifVersion.Some? && ifVersion.value != slot.version then (slot, Failed(Conflict))
      else Replace(slot, PlusObject(slot.content.value.plus.(status := status)))
  }

  datatype Request = Request(key: Key, verb: Verb)

  /** What becomes of a call: served, turned away, or served with the answer lost. */
  datatype Fate = Served | Refused | AnswerLost

  function Execute(store: Store, req: Request, fate: Fate): (Store, Response) {
    var (slot, response) := Serve(At(store, req.key), req.verb);
    match fate
    case Served => (Put(store, req.key, slot), response)
    case Refused => (store, Failed(Unavailable))
    case AnswerLost => (Put(store, req.key, slot), Failed(Unavailable))
  }

  /** The store, and how many calls this client has made: the fate of each call is fixed by its number. */
  datatype World = World(store: Store, calls: nat)

  type Fates = nat -> Fate

  function Call(w: World, req: Request, fates: Fates): (World, Response) {
    var (store, response) := Execute(w.store, req, fates(w.calls));
    (World(store, w.calls + 1), response)
  }

  /** A request touches its own key only. */
  lemma ExecuteFrame(store: Store, req: Request, fate: Fate)
    ensures forall k | k != req.key :: At(Execute(store, req, fate).0, k) == At(store, k)
  {
  }

  /** A request leaves a slot as it is, or gives it the next version. */
  lemma VersionsGrow(slot: Slot, verb: Verb)
    ensures Serve(slot, verb).0 == slot || Serve(slot, verb).0.version == slot.version + 1
  {
  }

  predicate VerbTyped(kind: Kind, verb: Verb) {
    match verb
    case Create(o) => KindOf(o) == kind
    case Update(o, _) => KindOf(o) == kind
    case _ => true
  }

  lemma ExecuteKeepsTypes(store: Store, req: Request, fate: Fate)
    requires WellTyped(store) && VerbTyped(req.key.kind, req.verb)
    ensures WellTyped(Execute(store, req, fate).0)
  {
    var slot := At(store, req.key);
    var slot' := Serve(slot, req.verb).0;
    assert slot'.content.Some? ==> KindOf(slot'.content.value) == req.key.kind;
  }

  /** The client: a handle on the shared store that numbers its calls. */
  class ApiServer {
    var store: Store
    var calls: nat
    const fates: Fates

    constructor (store: Store, fates: Fates)
      ensures Current() == World(store, 0) && this.fates == fates
    {
      this.store, this.calls, this.fates := store, 0, fates;
    }

    function Current(): World
      reads this
    {
      World(store, calls)
    }

    method Do(key: Key, verb: Verb) returns (response: Response)
      modifies this
      ensures (Current(), response) == Call(old(Current()), Request(key, verb), fates)
    {
      var (store', response') := Execute(store, Request(key, verb), fates(calls));
      store, calls, response := store', calls + 1, response';
    }
  }
}
