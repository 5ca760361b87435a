/** The server-side add route (POST of app/api/instances/route.ts): validate the two
    fields, reject a provider identifier already registered, and otherwise append a
    stopped record to the server cache with one whole-list save. */
module InstancesRoute {
  import opened Wrappers
  import opened Instances
  import opened InstanceStore

  /** The request body: unreadable JSON, or the two fields, each absent or a string. */
  datatype PostBody = Unreadable | PostBody(friendlyName: Option<string>, instanceId: Option<string>)

  datatype PostResponse =
    | Created(record: Instance)
    | BadRequest(error: string)
    | ServerError(error: string)

  /** The response and, when the route saves, the list it saves. */
  datatype PostResult = PostResult(response: PostResponse, saved: Option<seq<Instance>>)

  /** JavaScript truthiness of an optional string field. */
  predicate Truthy(field: Option<string>) {
    field.Some? && field.value != ""
  }

  function HttpStatus(r: PostResponse): int {
    match r
    case Created(_) => 201
    case BadRequest(_) => 400
    case ServerError(_) => 500
  }

  /** The route's decision against the list `getInstances` returned. A missing field
      gives 400 and no save; a registered `instanceId` gives 400 and no save; otherwise
      the record carries the fields exactly as sent (no trimming) and status false,
      and the saved list is the old one followed by that record. */
  function Decide(instances: seq<Instance>, body: PostBody, newId: string, now: string): (r: PostResult)
    ensures body.Unreadable? ==> r == PostResult(ServerError("Failed to create instance"), None)
    ensures body.PostBody? && !(Truthy(body.friendlyName) && Truthy(body.instanceId)) ==>
      r == PostResult(BadRequest("Missing required fields"), None)
    ensures body.PostBody? && Truthy(body.friendlyName) && Truthy(body.instanceId) ==>
      (HasInstanceId(instances, body.instanceId.value) <==> r.response.BadRequest?)
    ensures (body.PostBody? && Truthy(body.friendlyName) && Truthy(body.instanceId)
             && !HasInstanceId(instances, body.instanceId.value)) ==> r.response.Created?
    ensures r.response.Created? <==> r.saved.Some?
    ensures r.response.Created? ==>
      && body.PostBody?
      && r.response.record == Instance(newId, body.friendlyName.value, body.instanceId.value, false, now)
      && r.saved.value == instances + [r.response.record]
      && HttpStatus(r.response) == 201
    ensures r.saved.Some? && UniqueInstanceIds(instances) ==> UniqueInstanceIds(r.saved.value)
  {
    match body
    case Unreadable => PostResult(ServerError("Failed to create instance"), None)
    case PostBody(name, rid) =>
      if !Truthy(name) || !Truthy(rid) then PostResult(BadRequest("Missing required fields"), None)
      else if HasInstanceId(instances, rid.value) then
        PostResult(BadRequest("Instance with this ID already exists"), None)
      else
        var record := Instance(newId, name.value, rid.value, false, now);
        AppendKeepsUnique(instances, record);
        PostResult(Created(record), Some(instances + [record]))
  }

  /** The route as it runs against the store: the body checks come before any read,
      the list is read once, and at most one whole-list save happens. */
  method Post(store: Store, body: PostBody, newId: string, now: string, writeFails: bool)
    returns (response: PostResponse)
    modifies store
    ensures body.Unreadable? || !(Truthy(body.friendlyName) && Truthy(body.instanceId)) ==>
      store.cache == old(store.cache) && store.slot == old(store.slot)
    ensures var read := Reloaded(old(store.cache), old(store.slot), store.inBrowser);
      var d := Decide(read, body, newId, now);
      && response == d.response
      && (d.saved.Some? ==>
            (store.cache == d.saved.value
             && store.slot == SlotAfterSave(old(store.slot), d.saved.value, store.inBrowser, writeFails)))
      && (d.saved.None? && body.PostBody? && Truthy(body.friendlyName) && Truthy(body.instanceId) ==>
            (store.cache == read && store.slot == old(store.slot)))
  {
    if body.Unreadable? || !Truthy(body.friendlyName) || !Truthy(body.instanceId) {
      response := Decide([], body, newId, now).response;
      return;
    }
    var instances := store.GetInstances();
    var d := Decide(instances, body, newId, now);
    response := d.response;
    if d.saved.Some? {
      store.SaveInstances(d.saved.value, writeFails);
    }
  }
}
