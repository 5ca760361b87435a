/** The stand-alone add form (components/add-instance-form.tsx): it reads the list
    from the "tensordock_instances" storage key instead of component state, then
    validates, seeds the status, pushes the record and writes the list back. */
module AddInstanceForm {
  import opened Text
  import opened Wrappers
  import opened Instances
  import opened InstancesModule

  /** The list the form starts from: an absent or unparseable entry counts as empty. */
  function StoredOrEmpty(slot: Slot): (r: seq<Instance>)
    ensures slot.Stored? ==> r == slot.list
    ensures !slot.Stored? ==> r == []
  {
    if slot.Stored? then slot.list else []
  }

  /** `handleSubmit` of the form. A blank field is rejected before storage is read
      (`storageRead`); a duplicate trimmed id is rejected before the status query
      (`queried`) and nothing is written; otherwise the written list (`written`,
      `None` when the write throws) is the stored list followed by exactly one record. */
  method HandleSubmit(friendlyName: string, instanceId: string, slot: Slot, seed: StatusReply,
                      newId: string, now: string, writeFails: bool)
    returns (r: AddResult, storageRead: bool, queried: bool, written: Option<seq<Instance>>)
    ensures r == Register(StoredOrEmpty(slot), friendlyName, instanceId, seed, newId, now)
    ensures storageRead <==> Trim(friendlyName) != [] && Trim(instanceId) != []
    ensures queried <==> r.Added?
    ensures written.Some? <==> r.Added? && !writeFails
    ensures written.Some? ==> written.value == StoredOrEmpty(slot) + [r.record]
  {
    storageRead, queried, written := false, false, None;
    if Trim(friendlyName) == [] || Trim(instanceId) == [] {
      r := Rejected(MissingFields);
      return;
    }
    storageRead := true;
    var instances: seq<Instance> := [];
    match slot {
      case Stored(list) => instances := list;
      case _ =>
    }
    if HasInstanceId(instances, Trim(instanceId)) {
      r := Rejected(DuplicateInstanceId);
      return;
    }
    queried := true;
    var instanceStatus := false;
    if seed.Replied? && seed.success {
      instanceStatus := seed.status == "running";
    }
    var newInstance := Instance(newId, Trim(friendlyName), Trim(instanceId), instanceStatus, now);
    instances := instances + [newInstance];
    if !writeFails {
      written := Some(instances);
    }
    r := Added(instances, newInstance);
  }
}
