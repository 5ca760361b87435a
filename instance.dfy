/** The registry record and the provider replies shared by every part of the
    registry: the `Instance` record, the reply of a status query, and the shape of a
    stored list under a storage key. */
module Instances {
  import opened Wrappers

  /** One registered GPU instance. `id` is the local key, `instanceId` the
      provider's identifier, `status` the believed power state (true = running). */
  datatype Instance = Instance(
    id: string,
    friendlyName: string,
    instanceId: string,
    status: bool,
    createdAt: string)

  /** What a status query for one instance yielded: it threw (network failure, a
      non-ok HTTP status or an unreadable body), or it answered with a `success`
      flag and a provider status string. */
  datatype StatusReply = Threw | Replied(success: bool, status: string)

  /** The contents of a storage key: no entry (or an empty string), an entry that
      JSON.parse rejects, or a stored list. */
  datatype Slot = Absent | Unparseable | Stored(list: seq<Instance>)

  /** The power state a reply reports, if it reports one: only a successful reply
      does, and then "running" means on and every other status string means off. */
  function ObservedRunning(reply: StatusReply): (r: Option<bool>)
    ensures r.Some? <==> reply.Replied? && reply.success
    ensures r.Some? ==> (r.value <==> reply.status == "running")
  {
    match reply
    case Replied(true, s) => Some(s == "running")
    case _ => None
  }

  /** `instances.some((i) => i.instanceId === rid)` */
  predicate HasInstanceId(xs: seq<Instance>, rid: string) {
    exists i :: 0 <= i < |xs| && xs[i].instanceId == rid
  }

  /** No two records share a provider identifier. */
  predicate UniqueInstanceIds(xs: seq<Instance>) {
    forall i, j :: 0 <= i < j < |xs| ==> xs[i].instanceId != xs[j].instanceId
  }

  /** Appending a record whose provider identifier is not yet present keeps the
      identifiers unique. */
  lemma AppendKeepsUnique(xs: seq<Instance>, x: Instance)
    requires !HasInstanceId(xs, x.instanceId)
    ensures UniqueInstanceIds(xs) ==> UniqueInstanceIds(xs + [x])
  {
    var ys := xs + [x];
    if UniqueInstanceIds(xs) {
      forall i, j | 0 <= i < j < |ys| ensures ys[i].instanceId != ys[j].instanceId {
        if j == |xs| {
          assert ys[i] == xs[i];
        }
      }
    }
  }
}
