/** The server-side power toggle (app/api/toggle-power/route.ts): validate the
    body, make one start/stop call, then compare a single observed status with the
    expected one. The provider calls are inputs; the 10-second wait is left out. */
module TogglePowerRoute {
  import opened Wrappers
  import opened Instances
  import opened InstanceCard

  /** The `turnOn` field: absent, or present with the truthiness of its value
      (`null`, `false`, `0` and `""` are present but falsy). */
  datatype TurnOn = Undefined | Given(truthy: bool)

  /** The request body: not JSON (so `request.json()` throws), or the two fields,
      `instanceId` being `None` when absent. */
  datatype Body = Unparseable | Parsed(instanceId: Option<string>, turnOn: TurnOn)

  datatype Response =
    | BadRequest(error: string)           // 400
    | Reported(success: bool, status: string)   // 200, `message` added when not confirmed
    | ServerError                         // 500, `success: false`

  /** The provider calls: whether the start/stop call throws, and the status read
      afterwards (`None` when that call throws). */
  datatype Provider = Provider(powerThrows: bool, observed: Option<string>)

  /** The route's outcome: the power call it made, if any, and the response. */
  datatype Outcome = Outcome(call: Option<PowerRequest>, response: Response)

  function ExpectedStatus(turnOn: bool): string {
    if turnOn then "running" else "stopped"
  }

  function Post(body: Body, provider: Provider): (r: Outcome)
    // A body that is not JSON throws before anything else: 500, no call.
    ensures body.Unparseable? ==> r == Outcome(None, ServerError)
    // The id is checked first: a missing or empty id is a 400 whatever `turnOn` is.
    ensures body.Parsed? && (body.instanceId.None? || body.instanceId.value == "") ==>
      r == Outcome(None, BadRequest("Instance ID is required"))
    ensures body.Parsed? && body.instanceId.Some? && body.instanceId.value != "" && body.turnOn.Undefined? ==>
      r == Outcome(None, BadRequest("turnOn parameter is required"))
    // A call is made exactly when both fields pass: start when truthy, stop otherwise.
    ensures r.call.Some? <==> body.Parsed? && body.instanceId.Some? && body.instanceId.value != "" && body.turnOn.Given?
    ensures r.call.Some? ==> r.call.value == (if body.turnOn.truthy then Start else Stop)
    // After a call, a throw from either provider call is a 500; otherwise the
    // observed status is echoed and success means it equals the expected one.
    ensures r.call.Some? ==>
      (r.response.ServerError? <==> provider.powerThrows || provider.observed.None?)
    ensures r.call.Some? && !provider.powerThrows && provider.observed.Some? ==> r.response.Reported?
    ensures r.response.Reported? ==>
      && r.call.Some?
      && provider.observed == Some(r.response.status)
      && (r.response.success <==> r.response.status == ExpectedStatus(body.turnOn.truthy))
  {
    match body
    case Unparseable => Outcome(None, ServerError)
    case Parsed(instanceId, turnOn) =>
      if instanceId.None? || instanceId.value == "" then Outcome(None, BadRequest("Instance ID is required"))
      else if turnOn.Undefined? then Outcome(None, BadRequest("turnOn parameter is required"))
      else
        var call := if turnOn.truthy then Start else Stop;
        if provider.powerThrows then Outcome(Some(call), ServerError)
        else match provider.observed
          case None => Outcome(Some(call), ServerError)
          case Some(currentStatus) =>
            Outcome(Some(call), Reported(currentStatus == ExpectedStatus(turnOn.truthy), currentStatus))
  }

  /** The route makes the same comparison as the card's poll: when the provider
      reports "running" or "stopped", success means the observed "running"-ness
      equals `turnOn`, which is what `Confirms` checks for a successful reply. The
      route asks for the request the card would choose for the opposite belief. */
  lemma SameComparisonAsCard(id: string, turnOn: bool, status: string)
    requires id != ""
    requires status == "running" || status == "stopped"
    ensures var r := Post(Parsed(Some(id), Given(turnOn)), Provider(false, Some(status)));
      && r.call == Some(RequestFor(!turnOn))
      && r.response.Reported?
      && (r.response.success <==> Confirms(Replied(true, status), turnOn))
  {
  }
}
