/** The client-side instance manager (components/instances-module.tsx; the handlers
    of components/instance-list.tsx are the same code): the drift sweep that
    re-queries every record's status, delete, status change and the add form, each
    ending in one whole-list write to the "tensordock_instances" storage key. */
module InstancesModule {
  import opened Text
  import opened Wrappers
  import opened Instances
  import opened Db

  // ---------------------------------------------------------------------------
  // Drift sweep

  /** One record after its sweep reply: a successful reply sets `status` to
      whether the provider said "running"; any other reply leaves the record alone. */
  function Refreshed(x: Instance, reply: StatusReply): Instance {
    match ObservedRunning(reply)
    case Some(running) => x.(status := running)
    case None => x
  }

  /** The list a sweep produces from a snapshot and one reply per record: the same
      length, and each record refreshed from its own reply only. */
  function Swept(xs: seq<Instance>, replies: seq<StatusReply>): (r: seq<Instance>)
    requires |replies| == |xs|
    ensures |r| == |xs|
    ensures forall i :: 0 <= i < |xs| ==> r[i] == Refreshed(xs[i], replies[i])
  {
    if xs == [] then [] else [Refreshed(xs[0], replies[0])] + Swept(xs[1..], replies[1..])
  }

  /** A sweep keeps length, order and every field except `status`; it changes a
      record exactly when that record's reply succeeded and reports the opposite of
      the believed status; and it keeps provider identifiers unique. */
  lemma SweepChangesOnlyDrifted(xs: seq<Instance>, replies: seq<StatusReply>)
    requires |replies| == |xs|
    ensures var r := Swept(xs, replies);
      && |r| == |xs|
      && (forall i :: 0 <= i < |xs| ==>
            && r[i].id == xs[i].id && r[i].friendlyName == xs[i].friendlyName
            && r[i].instanceId == xs[i].instanceId && r[i].createdAt == xs[i].createdAt)
      && (forall i :: 0 <= i < |xs| ==>
            (r[i] != xs[i] <==> ObservedRunning(replies[i]) == Some(!xs[i].status)))
      && (forall i :: 0 <= i < |xs| && !(replies[i].Replied? && replies[i].success) ==> r[i] == xs[i])
      && (UniqueInstanceIds(xs) ==> UniqueInstanceIds(r))
  {
  }

  /** Isolation across partial failure: what one record's reply is does not affect
      any other record's outcome. */
  lemma SweepIsolation(xs: seq<Instance>, replies: seq<StatusReply>, j: nat, other: StatusReply)
    requires |replies| == |xs| && j < |xs|
    ensures forall i :: 0 <= i < |xs| && i != j ==> Swept(xs, replies[j := other])[i] == Swept(xs, replies)[i]
  {
  }

  /** The parallel per-index tasks of `refreshAllStatuses`, run one index after the
      other (each task reads and writes only its own index and the shared flag).
      `updated` is the swept list, and `hasChanges` is set exactly when some record
      changed. */
  method SweepStatuses(snapshot: seq<Instance>, replies: seq<StatusReply>)
    returns (updated: seq<Instance>, hasChanges: bool)
    requires |replies| == |snapshot|
    ensures updated == Swept(snapshot, replies)
    ensures hasChanges <==> updated != snapshot
  {
    updated := snapshot;
    hasChanges := false;
    var index := 0;
    while index < |updated|
      invariant 0 <= index <= |snapshot| == |updated|
      invariant forall k :: 0 <= k < index ==> updated[k] == Refreshed(snapshot[k], replies[k])
      invariant forall k :: index <= k < |snapshot| ==> updated[k] == snapshot[k]
      invariant hasChanges <==> exists k :: 0 <= k < index && updated[k] != snapshot[k]
    {
      var reply := replies[index];
      if reply.Replied? && reply.success {
        var newStatus := reply.status == "running";
        if updated[index].status != newStatus {
          updated := updated[index := updated[index].(status := newStatus)];
          hasChanges := true;
        }
      }
      index := index + 1;
    }
    assert forall k :: 0 <= k < |snapshot| ==> updated[k] == Swept(snapshot, replies)[k];
  }

  // ---------------------------------------------------------------------------
  // Adding a record

  datatype AddError = MissingFields | DuplicateInstanceId

  datatype AddResult = Added(list: seq<Instance>, record: Instance) | Rejected(error: AddError)

  /** The seeded status: true only for a successful status reply saying "running";
      an error or any other reply seeds false. */
  function SeedStatus(reply: StatusReply): (running: bool)
    ensures running <==> reply.Replied? && reply.success && reply.status == "running"
  {
    ObservedRunning(reply) == Some(true)
  }

  /** The add form's decision against the current list. A blank name or provider id
      (after trimming) is rejected first; then a trimmed provider id already present;
      otherwise the list gains exactly one record at the end, with trimmed fields and
      the seeded status. */
  function Register(instances: seq<Instance>, friendlyName: string, instanceId: string,
                    seed: StatusReply, newId: string, now: string): (r: AddResult)
    ensures r == Rejected(MissingFields) <==> Trim(friendlyName) == [] || Trim(instanceId) == []
    ensures r == Rejected(DuplicateInstanceId) <==>
      Trim(friendlyName) != [] && Trim(instanceId) != [] && HasInstanceId(instances, Trim(instanceId))
    ensures r.Added? ==>
      && r.record == Instance(newId, Trim(friendlyName), Trim(instanceId), SeedStatus(seed), now)
      && r.list == instances + [r.record]
    ensures r.Added? && UniqueInstanceIds(instances) ==> UniqueInstanceIds(r.list)
  {
    var name, rid := Trim(friendlyName), Trim(instanceId);
    if name == [] || rid == [] then Rejected(MissingFields)
    else if HasInstanceId(instances, rid) then Rejected(DuplicateInstanceId)
    else
      var record := Instance(newId, name, rid, SeedStatus(seed), now);
      AppendKeepsUnique(instances, record);
      Added(instances + [record], record)
  }

  // ---------------------------------------------------------------------------
  // The component

  /** The component's list state and the storage entry it writes. A write to
      storage can throw (`writeFails`); the handlers catch it. */
  class InstancesView {
    var instances: seq<Instance>
    var stored: Slot

    constructor (stored: Slot)
      ensures instances == [] && this.stored == stored
    {
      instances := [];
      this.stored := stored;
    }

    /** `refreshAllStatuses(snapshot)`: an empty snapshot returns at once; otherwise
        the list state and the storage entry are written once, with the whole swept
        list, and only when some status changed. The write replaces the state with
        the swept snapshot, whatever the state became meanwhile; the state is set
        before the storage write, so a failed write still updates it. */
    method RefreshAllStatuses(snapshot: seq<Instance>, replies: seq<StatusReply>, writeFails: bool)
      returns (changed: bool)
      requires |replies| == |snapshot|
      modifies this
      ensures changed <==> Swept(snapshot, replies) != snapshot
      ensures !changed ==> instances == old(instances) && stored == old(stored)
      ensures changed ==> instances == Swept(snapshot, replies)
      ensures changed ==> stored == if writeFails then old(stored) else Stored(Swept(snapshot, replies))
    {
      if |snapshot| == 0 {
        return false;
      }
      var updated;
      updated, changed := SweepStatuses(snapshot, replies);
      if changed {
        instances := updated;
        if !writeFails {
          stored := Stored(updated);
        }
      }
    }

    /** `handleDeleteInstance`: filter out the records with this local id (an absent
        id is not an error), write storage, then the state; a failed write changes
        neither. */
    method HandleDeleteInstance(id: string, writeFails: bool)
      modifies this
      ensures writeFails ==> instances == old(instances) && stored == old(stored)
      ensures !writeFails ==> instances == DeleteLocalInstance(old(instances), id) && stored == Stored(instances)
    {
      var updated := DeleteLocalInstance(instances, id);
      if !writeFails {
        stored := Stored(updated);
        instances := updated;
      }
    }

    /** `handleStatusChange`: set `status` on the records with this local id, leave
        every other record identical, write storage, then the state. */
    method HandleStatusChange(id: string, newStatus: bool, writeFails: bool)
      modifies this
      ensures writeFails ==> instances == old(instances) && stored == old(stored)
      ensures !writeFails ==> instances == SetStatus(old(instances), id, newStatus) && stored == Stored(instances)
    {
      var updated := SetStatus(instances, id, newStatus);
      if !writeFails {
        stored := Stored(updated);
        instances := updated;
      }
    }

    /** `handleSubmit`: validation and the duplicate check against the list state
        come before the status query (`queried`); an accepted record is appended and
        written to storage, then to the state. */
    method HandleSubmit(friendlyName: string, instanceId: string, seed: StatusReply,
                        newId: string, now: string, writeFails: bool)
      returns (r: AddResult, queried: bool)
      modifies this
      ensures r == Register(old(instances), friendlyName, instanceId, seed, newId, now)
      ensures queried <==> r.Added?
      ensures r.Rejected? || writeFails ==> instances == old(instances) && stored == old(stored)
      ensures r.Added? && !writeFails ==> instances == r.list && stored == Stored(r.list)
    {
      r := Register(instances, friendlyName, instanceId, seed, newId, now);
      queried := r.Added?;
      if r.Added? && !writeFails {
        stored := Stored(r.list);
        instances := r.list;
      }
    }
  }
}
