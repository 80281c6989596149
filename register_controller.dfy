/** The node reconciler (controllers/register_controller.go).  A Register
    object moves through the phases "" → uidgenerated → hardwarepushed: it
    receives a UUID label, then its hardware record is pushed to the
    registrar; while it is being deleted its hardware record is removed and
    its finalizer released. */
module RegisterController {
  import opened Common
  import opened Api
  import opened Store
  import Tink
  import opened Util

  /** containsString. */
  method ContainsString(slice: seq<string>, s: string) returns (b: bool)
    ensures b <==> s in slice
  {
    for i := 0 to |slice|
      invariant s !in slice[..i]
    {
      if slice[i] == s {
        return true;
      }
      SplitAtEnd(slice, i);
    }
    assert slice[..|slice|] == slice;
    return false;
  }

  /** controllerutil.AddFinalizer: appends `f` unless it is already there. */
  function AddFinalizer(meta: ObjectMeta, f: string): (m: ObjectMeta)
    ensures forall x :: x in m.finalizers <==> x in meta.finalizers || x == f
    ensures |meta.finalizers| <= |m.finalizers| <= |meta.finalizers| + 1
    ensures m.finalizers[..|meta.finalizers|] == meta.finalizers
    ensures m == meta.(finalizers := m.finalizers)
    ensures f in meta.finalizers ==> m == meta
    ensures f !in meta.finalizers ==> m.finalizers == meta.finalizers + [f]
  {
    if f in meta.finalizers then meta else meta.(finalizers := meta.finalizers + [f])
  }

  /** controllerutil.RemoveFinalizer: drops every occurrence of `f`. */
  function RemoveFinalizer(meta: ObjectMeta, f: string): (m: ObjectMeta)
    ensures forall x :: x in m.finalizers <==> x in meta.finalizers && x != f
    ensures Subseq(m.finalizers, meta.finalizers)
    ensures m == meta.(finalizers := m.finalizers)
  {
    meta.(finalizers := Without(meta.finalizers, f))
  }

  /** Adding a finalizer that was absent and removing it again restores the metadata. */
  lemma RemoveAfterAdd(meta: ObjectMeta, f: string)
    requires f !in meta.finalizers
    ensures RemoveFinalizer(AddFinalizer(meta, f), f) == meta
  {
    WithoutAppended(meta.finalizers, f);
    WithoutAbsent(meta.finalizers, f);
  }

  /** Adding a finalizer twice is adding it once. */
  lemma AddFinalizerIdempotent(meta: ObjectMeta, f: string)
    ensures AddFinalizer(AddFinalizer(meta, f), f) == AddFinalizer(meta, f)
  {
  }

  /** generateUID: the node's labels and its new status.  An existing `uuid`
      label is adopted into the status, leaving the phase as it was;
      otherwise the label is set to `newUID` (uuid.New) and the phase
      becomes uidgenerated. */
  function GenerateUID(reg: Register, newUID: string): (r: (Labels, RegisterStatus))
    ensures UUIDLabel in r.0 && r.0[UUIDLabel] == r.1.uuid
    ensures forall k :: k != UUIDLabel ==> (k in r.0 <==> k in reg.meta.labels)
    ensures forall k :: k != UUIDLabel && k in r.0 ==> r.0[k] == reg.meta.labels[k]
    ensures UUIDLabel in reg.meta.labels ==> r.0 == reg.meta.labels && r.1 == reg.status.(uuid := reg.meta.labels[UUIDLabel])
    ensures UUIDLabel !in reg.meta.labels ==> r.1 == reg.status.(uuid := newUID, status := UIDGenerated)
  {
    var labels := reg.meta.labels;
    if UUIDLabel in labels then (labels, reg.status.(uuid := labels[UUIDLabel]))
    else (labels[UUIDLabel := newUID], reg.status.(uuid := newUID, status := UIDGenerated))
  }

  /** Running generateUID on its own output adopts the label it wrote, so a
      node keeps its UUID whatever the next random value is. */
  lemma GenerateUIDStable(reg: Register, newUID: string, again: string)
    ensures var (labels, status) := GenerateUID(reg, newUID);
      var (labels', status') := GenerateUID(reg.(meta := reg.meta.(labels := labels), status := status), again);
      labels' == labels && status' == status
  {
  }

  /** What one reconcile amounts to before its final Update. */
  datatype Action =
    | Done
    | Failed(err: Error)
    | Write(obj: Register, requeue: bool)

  /** The registrar's records after the reconcile, and its action. */
  datatype Effect = Effect(records: map<string, Tink.Hardware>, action: Action)

  /** The store and the registrar after the effect `e` on the node `name`:
      `N`, `O` are the nodes and List order before, `nodes`, `order` after,
      `records` the registrar's records after; `requeue` and `err` are what
      Reconcile returns. */
  ghost predicate Applied(
    e: Effect, name: string, N: map<string, Register>, O: seq<string>, conflicts: set<string>,
    requeue: bool, err: Option<Error>, nodes: map<string, Register>, order: seq<string>,
    records: map<string, Tink.Hardware>)
  {
    && records == e.records
    && (e.action.Done? ==> !requeue && err.None?)
    && (e.action.Failed? ==> !requeue && err == Some(e.action.err))
    && (!e.action.Write? ==> nodes == N && order == O)
    && (e.action.Write? ==>
          var obj := e.action.obj;
          var conflict := name in conflicts;
          && requeue == e.action.requeue
          && err == (if conflict then Some(Store(Conflict)) else None)
          && (conflict ==> nodes == N && order == O)
          && (!conflict && Released(obj.meta) ==> nodes == N - {name} && order == Without(O, name))
          && (!conflict && !Released(obj.meta) ==> nodes == N[name := obj] && order == O))
  }

  /** The reconciler for Register objects.  `parseHost` stands for url.Parse
      followed by taking the host part: None when the URL does not parse. */
  class RegisterReconciler {
    const client: Client
    const registrar: Registrar
    const parseHost: string -> Option<string>

    constructor (client: Client, registrar: Registrar, parseHost: string -> Option<string>)
      ensures this.client == client && this.registrar == registrar && this.parseHost == parseHost
    {
      this.client := client;
      this.registrar := registrar;
      this.parseHost := parseHost;
    }

    /** The hardware record generateHardware pushes for `reg`, or the error
        that stops it before the push. */
    function HardwareFor(reg: Register): (r: Result<Tink.Hardware, Error>)
      reads client
      requires client.Valid()
      ensures var url := ServerURLFor(client, reg);
        && (url.Err? ==> r == Err(Wrapped("error fetching server url", url.error)))
        && (url.Ok? && parseHost(url.value).None? ==>
              r == Err(Wrapped("error during generatehwrequest", Wrapped("error parsing server url", Failure("invalid server url")))))
        && (url.Ok? && parseHost(url.value).Some? ==> r.Ok? && Ok(r.value) == Tink.GenerateHWRequest(reg, parseHost(url.value)))
    {
      var url := ServerURLFor(client, reg);
      if url.Err? then Err(Wrapped("error fetching server url", url.error))
      else
        var request := Tink.GenerateHWRequest(reg, parseHost(url.value));
        if request.Err? then Err(Wrapped("error during generatehwrequest", request.error))
        else Ok(request.value)
    }

    /** generateHardware: builds the hardware record and pushes it.  The
        status comes back unchanged on failure and with phase
        hardwarepushed on success. */
    method GenerateHardware(reg: Register) returns (status: RegisterStatus, err: Option<Error>)
      requires client.Valid()
      modifies registrar`records
      ensures HardwareFor(reg).Err? ==>
        status == reg.status && err == Some(HardwareFor(reg).error) && registrar.records == old(registrar.records)
      ensures HardwareFor(reg).Ok? && registrar.pushFault.Some? ==>
        status == reg.status && err == Some(Wrapped("error during hardware push", Failure(registrar.pushFault.value)))
        && registrar.records == old(registrar.records)
      ensures HardwareFor(reg).Ok? && registrar.pushFault.None? ==>
        status == reg.status.(status := HWPushed) && err.None?
        && registrar.records == old(registrar.records)[reg.status.uuid := HardwareFor(reg).value]
    {
      status := reg.status;
      var url := FetchServerURL(client, reg);
      if url.Err? {
        return status, Some(Wrapped("error fetching server url", url.error));
      }
      var request := Tink.GenerateHWRequest(reg, parseHost(url.value));
      if request.Err? {
        return status, Some(Wrapped("error during generatehwrequest", request.error));
      }
      var pushed := registrar.Push(request.value);
      if pushed.Some? {
        return status, Some(Wrapped("error during hardware push", Failure(pushed.value)));
      }
      status := status.(status := HWPushed);
      return status, None;
    }

    /** What deleteHardware does to the records, and its error. */
    function DeletionOf(uuid: string): (r: (map<string, Tink.Hardware>, Option<Error>))
      reads registrar
      ensures registrar.lookupFault.None? && registrar.deleteFault.None? ==>
        r.1.None? && uuid !in r.0 && r.0 == registrar.records - {uuid}
      ensures r.1.Some? ==> r.0 == registrar.records
      ensures registrar.lookupFault.Some? ==>
        r.0 == registrar.records
        && (r.1.None? <==> HasSubstring(registrar.lookupFault.value, NoRows))
      ensures registrar.lookupFault.Some? && !HasSubstring(registrar.lookupFault.value, NoRows) ==>
        r.1 == Some(Wrapped("error during get hardware", Failure(registrar.lookupFault.value)))
      // A record the registrar does not hold counts as deleted, whatever Delete would answer.
      ensures registrar.lookupFault.None? && uuid !in registrar.records ==> r == (registrar.records, None)
      // A found record whose Delete fails: that error, and the record stays.
      ensures registrar.lookupFault.None? && uuid in registrar.records && registrar.deleteFault.Some? ==>
        r == (registrar.records, Some(Failure(registrar.deleteFault.value)))
    {
      HasSubstringSelf(NoRows);
      match registrar.ByID(uuid)
      case Err(msg) =>
        if HasSubstring(msg, NoRows) then (registrar.records, None)
        else (registrar.records, Some(Wrapped("error during get hardware", Failure(msg))))
      case Ok(_) =>
        if registrar.deleteFault.Some? then (registrar.records, Some(Failure(registrar.deleteFault.value)))
        else (registrar.records - {uuid}, None)
    }

    /** deleteHardware: a record the registrar does not hold counts as deleted. */
    method DeleteHardware(uuid: string) returns (err: Option<Error>)
      modifies registrar`records
      ensures (registrar.records, err) == old(DeletionOf(uuid))
    {
      var found := registrar.ByID(uuid);
      if found.Err? {
        if HasSubstring(found.error, NoRows) {
          return None;
        }
        return Some(Wrapped("error during get hardware", Failure(found.error)));
      }
      var deleted := registrar.Delete(uuid);
      if deleted.Some? {
        return Some(Failure(deleted.value));
      }
      return None;
    }

    /** The effect of reconciling the stored object `reg`, before the Update. */
    function EffectOf(reg: Register, newUID: string): (e: Effect)
      reads client, registrar
      requires client.Valid()
    {
      if !reg.meta.deleting then
        var phase := reg.status.status;
        if phase == HWPushed then Effect(registrar.records, Done)
        else if phase == "" then
          var (labels, status) := GenerateUID(reg, newUID);
          var meta := AddFinalizer(reg.meta.(labels := labels), RegisterFinalizer);
          Effect(registrar.records, Write(reg.(meta := meta, status := status), true))
        else if phase == UIDGenerated then
          match HardwareFor(reg)
          case Err(e) => Effect(registrar.records, Failed(e))
          case Ok(hw) =>
            if registrar.pushFault.Some? then
              Effect(registrar.records, Failed(Wrapped("error during hardware push", Failure(registrar.pushFault.value))))
            else
              var meta := AddFinalizer(reg.meta, RegisterFinalizer);
              Effect(registrar.records[hw.id := hw], Write(reg.(meta := meta, status := reg.status.(status := HWPushed)), true))
        else
          Effect(registrar.records, Write(reg.(meta := AddFinalizer(reg.meta, RegisterFinalizer), status := ZeroRegisterStatus), true))
      else
        var (records, err) :=
          if RegisterFinalizer in reg.meta.finalizers && reg.status.uuid != "" then DeletionOf(reg.status.uuid)
          else (registrar.records, None);
        if err.Some? then Effect(records, Failed(err.value))
        else Effect(records, Write(reg.(meta := RemoveFinalizer(reg.meta, RegisterFinalizer)), false))
    }

    /** A written object is the same node: same name, namespace, spec and
        deletion state, and a `uuid` label it had is kept.  A live node
        carries the finalizer afterwards, a deleted one no longer does. */
    lemma EffectKeepsIdentity(reg: Register, newUID: string)
      requires client.Valid()
      ensures EffectOf(reg, newUID).action.Write? ==>
        var obj := EffectOf(reg, newUID).action.obj;
        && obj.meta.name == reg.meta.name && obj.meta.namespace == reg.meta.namespace
        && obj.spec == reg.spec && obj.meta.deleting == reg.meta.deleting
        && obj.meta.owner == reg.meta.owner
        && (UUIDLabel in reg.meta.labels ==> UUIDLabel in obj.meta.labels && obj.meta.labels[UUIDLabel] == reg.meta.labels[UUIDLabel])
        && (!reg.meta.deleting ==> RegisterFinalizer in obj.meta.finalizers)
        && (reg.meta.deleting ==> RegisterFinalizer !in obj.meta.finalizers)
    {
    }

    /** The live phases move forward only: "" to uidgenerated (or stays at
        "" when a `uuid` label is adopted), uidgenerated to hardwarepushed,
        and any other phase is reset to the zero status. */
    lemma EffectPhases(reg: Register, newUID: string)
      requires client.Valid()
      requires !reg.meta.deleting
      ensures var a := EffectOf(reg, newUID).action;
        && (reg.status.status == HWPushed <==> a.Done?)
        && (a.Write? ==> a.requeue)
        && (a.Failed? ==> reg.status.status == UIDGenerated)
        && (a.Write? && reg.status.status == "" ==>
              UUIDLabel in a.obj.meta.labels && a.obj.meta.labels[UUIDLabel] == a.obj.status.uuid
              && a.obj.status.status == (if UUIDLabel in reg.meta.labels then "" else UIDGenerated))
        && (a.Write? && reg.status.status == UIDGenerated ==> a.obj.status == reg.status.(status := HWPushed))
        && (a.Write? && reg.status.status !in {"", UIDGenerated, HWPushed} ==> a.obj.status == ZeroRegisterStatus)
    {
    }

    /** A pushed record is keyed by the node's UUID and its metadata sends the
        installer back to the config endpoint for exactly that UUID. */
    lemma PushedRecordNamesNode(reg: Register, newUID: string)
      requires client.Valid()
      requires !reg.meta.deleting && reg.status.status == UIDGenerated
      ensures EffectOf(reg, newUID).action.Write? ==>
        var records := EffectOf(reg, newUID).records;
        && reg.status.uuid in records
        && records[reg.status.uuid].id == reg.status.uuid
        && exists host :: Tink.ParseMetaData(records[reg.status.uuid].metadata) == Some((host, reg.status.uuid))
    {
      if EffectOf(reg, newUID).action.Write? {
        var hw := HardwareFor(reg).value;
        var url := ServerURLFor(client, reg).value;
        var host := Split(parseHost(url).value, ':')[0];
        assert Tink.ParseMetaData(hw.metadata) == Some((host, reg.status.uuid));
      }
    }

    /** A node being deleted whose hardware record exists and whose finalizer
        is the only one loses the record and is released, when the registrar
        answers without faults. */
    lemma DeletionReleases(reg: Register, newUID: string)
      requires client.Valid()
      requires reg.meta.deleting && reg.meta.finalizers == [RegisterFinalizer] && reg.status.uuid != ""
      requires registrar.lookupFault.None? && registrar.deleteFault.None?
      ensures EffectOf(reg, newUID).action.Write?
      ensures Released(EffectOf(reg, newUID).action.obj.meta)
      ensures EffectOf(reg, newUID).records == registrar.records - {reg.status.uuid}
    {
      assert [RegisterFinalizer][1..] == [];
    }

    /** A node being deleted whose hardware deletion fails is not written:
        the pass returns that error, the records are unchanged and the
        finalizer stays on the stored node. */
    lemma DeletionFailureKeepsFinalizer(reg: Register, newUID: string)
      requires client.Valid()
      requires reg.meta.deleting && RegisterFinalizer in reg.meta.finalizers && reg.status.uuid != ""
      requires DeletionOf(reg.status.uuid).1.Some?
      ensures EffectOf(reg, newUID).action == Failed(DeletionOf(reg.status.uuid).1.value)
      ensures EffectOf(reg, newUID).records == registrar.records
    {
    }

    /** The Update that ends a pass: the object written is `obj`, stored under its own name. */
    method WriteNode(obj: Register, again: bool) returns (requeue: bool, err: Option<Error>)
      requires client.Valid() && obj.meta.name in client.nodes
      modifies client`nodes, client`order
      ensures client.Valid()
      ensures Applied(Effect(registrar.records, Write(obj, again)), obj.meta.name, old(client.nodes), old(client.order),
                      client.nodeConflicts, requeue, err, client.nodes, client.order, registrar.records)
    {
      var updated := client.UpdateNode(obj);
      return again, if updated.Some? then Some(Store(updated.value)) else None;
    }

    /** A pass over a live node: the step of its phase, then the Update. */
    method ReconcileLive(reg: Register, newUID: string) returns (requeue: bool, err: Option<Error>)
      requires client.Valid() && reg.meta.name in client.nodes && client.nodes[reg.meta.name] == reg
      requires !reg.meta.deleting
      modifies client`nodes, client`order, registrar`records
      ensures client.Valid()
      ensures Applied(old(EffectOf(reg, newUID)), reg.meta.name, old(client.nodes), old(client.order),
                      client.nodeConflicts, requeue, err, client.nodes, client.order, registrar.records)
    {
      ghost var e := EffectOf(reg, newUID);
      var status: RegisterStatus;
      var failure: Option<Error> := None;
      var meta := reg.meta;
      if reg.status.status == "" {
        var (labels, uid) := GenerateUID(reg, newUID);
        meta, status := meta.(labels := labels), uid;
      } else if reg.status.status == UIDGenerated {
        status, failure := GenerateHardware(reg);
      } else if reg.status.status == HWPushed {
        return false, None;
      } else {
        status := ZeroRegisterStatus;
      }
      if failure.Some? {
        return false, failure;
      }
      var obj := reg.(meta := AddFinalizer(meta, RegisterFinalizer), status := status);
      assert e.action == Write(obj, true) && e.records == registrar.records;
      requeue, err := WriteNode(obj, true);
    }

    /** A pass over a node being deleted: its hardware record is deleted,
        then the finalizer removed. */
    method ReconcileDeleted(reg: Register, ghost newUID: string) returns (requeue: bool, err: Option<Error>)
      requires client.Valid() && reg.meta.name in client.nodes && client.nodes[reg.meta.name] == reg
      requires reg.meta.deleting
      modifies client`nodes, client`order, registrar`records
      ensures client.Valid()
      ensures Applied(old(EffectOf(reg, newUID)), reg.meta.name, old(client.nodes), old(client.order),
                      client.nodeConflicts, requeue, err, client.nodes, client.order, registrar.records)
    {
      var contains := ContainsString(reg.meta.finalizers, RegisterFinalizer);
      if contains && |reg.status.uuid| != 0 {
        var deleted := DeleteHardware(reg.status.uuid);
        if deleted.Some? {
          return false, deleted;
        }
      }
      requeue, err := WriteNode(reg.(meta := RemoveFinalizer(reg.meta, RegisterFinalizer)), false);
    }

    /** Reconcile of the Register named `name`; `newUID` is the value uuid.New
        would return. */
    method Reconcile(name: string, newUID: string) returns (requeue: bool, err: Option<Error>)
      requires client.Valid()
      modifies client`nodes, client`order, registrar`records
      ensures client.Valid()
      ensures name !in old(client.nodes) ==>
        !requeue && err.None? && client.nodes == old(client.nodes) && client.order == old(client.order)
        && registrar.records == old(registrar.records)
      ensures name in old(client.nodes) ==>
        Applied(old(EffectOf(client.nodes[name], newUID)), name, old(client.nodes), old(client.order),
                client.nodeConflicts, requeue, err, client.nodes, client.order, registrar.records)
    {
      if name !in client.nodes {
        return false, None;
      }
      var reg := client.nodes[name];
      if !reg.meta.deleting {
        requeue, err := ReconcileLive(reg, newUID);
      } else {
        requeue, err := ReconcileDeleted(reg, newUID);
      }
    }
  }
}
