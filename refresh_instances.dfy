/** The provider status projection (app/api/refresh-instances/route.ts): each
    requested id is mapped to the status of the first provider record with that
    id, or "unknown". */
module RefreshInstancesRoute {
  import opened Wrappers

  /** A provider record: only its id and status are read. */
  datatype ProviderInstance = ProviderInstance(id: string, status: string)

  /** The `instanceIds` field: absent (or falsy), present but not an array, or an
      array of ids. */
  datatype IdsField = Missing | NotArray | Ids(ids: seq<string>)

  datatype Body = Unparseable | Parsed(instanceIds: IdsField)

  datatype Entry = Entry(instanceId: string, status: string)

  datatype Response =
    | Projected(instances: seq<Entry>)   // 200, `success: true`
    | BadRequest(error: string)          // 400
    | ServerError                        // 500, `success: false`

  const Unknown := "unknown"

  /** `allInstances.find(i => i.id === id)?.status`: the status of the first record
      with the id. */
  function FindStatus(all: seq<ProviderInstance>, id: string): (r: Option<string>)
    ensures r.None? <==> forall k :: 0 <= k < |all| ==> all[k].id != id
    ensures r.Some? ==>
      exists k :: 0 <= k < |all| && all[k].id == id && all[k].status == r.value
        && forall j :: 0 <= j < k ==> all[j].id != id
  {
    if all == [] then None
    else if all[0].id == id then Some(all[0].status)
    else FindStatus(all[1..], id)
  }

  /** The status of the first match is determined: a record that matches with no
      earlier match supplies it. */
  lemma {:induction false} FirstMatchWins(all: seq<ProviderInstance>, id: string, k: nat)
    requires k < |all| && all[k].id == id
    requires forall j :: 0 <= j < k ==> all[j].id != id
    ensures FindStatus(all, id) == Some(all[k].status)
  {
    if k > 0 {
      FirstMatchWins(all[1..], id, k - 1);
    }
  }

  function StatusOf(all: seq<ProviderInstance>, id: string): string {
    match FindStatus(all, id)
    case Some(s) => s
    case None => Unknown
  }

  /** `instanceIds.map(...)`: one entry per requested id, in order. */
  function Project(ids: seq<string>, all: seq<ProviderInstance>): (r: seq<Entry>)
    ensures |r| == |ids|
    ensures forall i :: 0 <= i < |ids| ==> r[i].instanceId == ids[i]
    ensures forall i :: 0 <= i < |ids| ==>
      (r[i].status == Unknown && forall k :: 0 <= k < |all| ==> all[k].id != ids[i])
      || (exists k :: 0 <= k < |all| && all[k].id == ids[i] && all[k].status == r[i].status)
  {
    seq(|ids|, i requires 0 <= i < |ids| => Entry(ids[i], StatusOf(all, ids[i])))
  }

  /** Requesting an id twice yields the same entry twice. */
  lemma DuplicateIds(ids: seq<string>, all: seq<ProviderInstance>, i: nat, j: nat)
    requires i < |ids| && j < |ids| && ids[i] == ids[j]
    ensures Project(ids, all)[i] == Project(ids, all)[j]
  {
  }

  /** The projection of a concatenation is the concatenation of the projections. */
  lemma ProjectAppend(a: seq<string>, b: seq<string>, all: seq<ProviderInstance>)
    ensures Project(a + b, all) == Project(a, all) + Project(b, all)
  {
    var l := Project(a + b, all);
    var r := Project(a, all) + Project(b, all);
    forall i | 0 <= i < |l| ensures l[i] == r[i] {
      if i < |a| {
        assert (a + b)[i] == a[i];
      } else {
        assert (a + b)[i] == b[i - |a|];
      }
    }
  }

  /** The provider list the route receives from the helper it calls, which as
      written is a stub that always yields no records. */
  const StubProvider: seq<ProviderInstance> := []

  /** As written, every requested id is reported "unknown", whatever the provider
      actually runs. */
  lemma StubReportsUnknown(ids: seq<string>)
    ensures var r := Post(Parsed(Ids(ids)), Some(StubProvider));
      && r.Projected?
      && forall i :: 0 <= i < |r.instances| ==> r.instances[i] == Entry(ids[i], Unknown)
  {
  }

  /** With a provider list that holds the instances, an id the provider knows is
      reported with the status of its first record. */
  lemma PostReportsFirstMatch(ids: seq<string>, all: seq<ProviderInstance>, i: nat, k: nat)
    requires i < |ids| && k < |all| && all[k].id == ids[i]
    requires forall j :: 0 <= j < k ==> all[j].id != ids[i]
    ensures var r := Post(Parsed(Ids(ids)), Some(all));
      r.Projected? && r.instances[i] == Entry(ids[i], all[k].status)
  {
    FirstMatchWins(all, ids[i], k);
  }

  /** The route. `provider` is the provider's record list, `None` when the call
      throws. */
  function Post(body: Body, provider: Option<seq<ProviderInstance>>): (r: Response)
    ensures body.Unparseable? ==> r == ServerError
    ensures body.Parsed? && !body.instanceIds.Ids? ==> r == BadRequest("Instance IDs array is required")
    ensures body.Parsed? && body.instanceIds.Ids? && provider.None? ==> r == ServerError
    ensures r.Projected? <==> body.Parsed? && body.instanceIds.Ids? && provider.Some?
    ensures r.Projected? ==> (|r.instances| == |body.instanceIds.ids|
      && forall i :: 0 <= i < |r.instances| ==>
        r.instances[i] == Entry(body.instanceIds.ids[i], StatusOf(provider.value, body.instanceIds.ids[i])))
  {
    match body
    case Unparseable => ServerError
    case Parsed(Ids(ids)) =>
      (match provider
       case None => ServerError
       case Some(all) => Projected(Project(ids, all)))
    case Parsed(_) => BadRequest("Instance IDs array is required")
  }
}
