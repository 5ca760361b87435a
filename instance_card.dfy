/** One instance card (components/instance-card.tsx): the power toggle with its
    auth gate, single start/stop request and bounded confirmation poll, and the
    single-record status refresh. The toggle is described by the sequence of
    effects it produces, given the provider's answers as inputs. */
module InstanceCard {
  import opened Wrappers
  import opened Instances

  /** The poll budget: 12 attempts, each after a 5-second wait. */
  const MaxAttempts: nat := 12
  const PollIntervalMs: nat := 5000
  /** The delay before the busy flag is cleared after a request was made. */
  const ReleaseDelayMs: nat := 3000

  datatype PowerRequest = Start | Stop

  /** The start/stop call threw (network failure or non-ok HTTP status), or it
      answered with a `success` flag and a message ("" when absent). */
  datatype RequestReply = RequestThrew | RequestReplied(success: bool, message: string)

  datatype Warning = TimedOut | Refused(message: string) | Errored

  /** The observable effects of one toggle, in order. */
  datatype Effect =
    | SetBusy(on: bool)          // setIsTogglingPower
    | TestAuth                   // testTensorDockAuth()
    | AuthFailedToast
    | Request(kind: PowerRequest) // startInstance / stopInstance
    | Wait(ms: nat)
    | QueryStatus                // getInstanceStatus
    | StatusChange(online: bool) // onStatusChange(instance.id, online) and its toast
    | Warn(w: Warning)           // setPowerWarning(true) with a message
    | ReleaseBusyAfter(ms: nat)  // the `finally` timer that clears the busy flag

  /** The request chosen from the believed status: stop a running instance, start a
      stopped one. */
  function RequestFor(believed: bool): PowerRequest {
    if believed then Stop else Start
  }

  /** A poll reply confirms the target when it succeeded and its "running"-ness
      equals the target. */
  predicate Confirms(reply: StatusReply, target: bool) {
    ObservedRunning(reply) == Some(target)
  }

  /** The first attempt at or after `attempt` whose reply confirms the target, or
      the number of attempts when none does. (The budget is `|polls|`: one reply per
      attempt.) */
  function FirstConfirm(polls: seq<StatusReply>, target: bool, attempt: nat): (k: nat)
    requires attempt <= |polls|
    decreases |polls| - attempt
    ensures attempt <= k <= |polls|
    ensures forall j :: attempt <= j < k ==> !Confirms(polls[j], target)
    ensures k < |polls| ==> Confirms(polls[k], target)
  {
    if attempt == |polls| then |polls|
    else if Confirms(polls[attempt], target) then attempt
    else FirstConfirm(polls, target, attempt + 1)
  }

  /** The poll from `attempt` on: wait, query, and either confirm (one status
      change, then stop) or try the next attempt; after the last one, a timeout
      warning. */
  function PollTrace(polls: seq<StatusReply>, target: bool, attempt: nat): seq<Effect>
    requires attempt <= |polls|
    decreases |polls| - attempt
  {
    if attempt == |polls| then [Warn(TimedOut)]
    else
      [Wait(PollIntervalMs), QueryStatus]
      + (if Confirms(polls[attempt], target) then [StatusChange(target)]
         else PollTrace(polls, target, attempt + 1))
  }

  /** The warning shown when the provider refuses the request:
      `response.message || "Still On"/"Still Off"`. */
  function RefusalMessage(message: string, believed: bool): string {
    if message != "" then message else if believed then "Still On" else "Still Off"
  }

  /** What follows a request: a warning when it threw or was refused, the poll
      toward the negated believed status when it succeeded. */
  function AfterRequest(believed: bool, reply: RequestReply, polls: seq<StatusReply>): seq<Effect> {
    match reply
    case RequestThrew => [Warn(Errored)]
    case RequestReplied(true, _) => PollTrace(polls, !believed, 0)
    case RequestReplied(false, m) => [Warn(Refused(RefusalMessage(m, believed)))]
  }
  /** The effects around a request that was made: busy flag, auth test, the
      request, then `after`, then the timer that clears the busy flag. */
  function Framed(believed: bool, after: seq<Effect>): seq<Effect> {
    [SetBusy(true), TestAuth, Request(RequestFor(believed))] + after + [ReleaseBusyAfter(ReleaseDelayMs)]
  }

  /** The whole toggle. `authOk` is the auth test's verdict, `reply` the start/stop
      reply, `polls` one status reply per poll attempt. */
  function ToggleTrace(believed: bool, authOk: bool, reply: RequestReply, polls: seq<StatusReply>): seq<Effect>
    requires |polls| == MaxAttempts
  {
    if !authOk then [SetBusy(true), TestAuth, AuthFailedToast, SetBusy(false)]
    else Framed(believed, AfterRequest(believed, reply, polls))
  }

  /** How many times an effect occurs in a trace. */
  function Count(t: seq<Effect>, e: Effect): (n: nat)
    ensures n <= |t|
    ensures n == 0 <==> e !in t
  {
    if t == [] then 0 else (if t[0] == e then 1 else 0) + Count(t[1..], e)
  }

  lemma {:induction false} CountConcat(a: seq<Effect>, b: seq<Effect>, e: Effect)
    ensures Count(a + b, e) == Count(a, e) + Count(b, e)
  {
    if a == [] {
      assert a + b == b;
    } else {
      assert (a + b)[1..] == a[1..] + b;
      CountConcat(a[1..], b, e);
    }
  }

  /** Apart from the bookkeeping effects, the frame adds only the one request. */
  lemma FramedCount(believed: bool, after: seq<Effect>, e: Effect)
    requires !e.SetBusy? && e != TestAuth && !e.ReleaseBusyAfter?
    ensures Count(Framed(believed, after), e) == Count(after, e) + (if e == Request(RequestFor(believed)) then 1 else 0)
  {
    var head := [SetBusy(true), TestAuth, Request(RequestFor(believed))];
    var tail := [ReleaseBusyAfter(ReleaseDelayMs)];
    CountConcat(head + after, tail, e);
    CountConcat(head, after, e);
    assert Count(tail, e) == 0;
    assert head[1..][1..] == [Request(RequestFor(believed))];
  }

  /** One attempt of the poll: a wait and a query, then either the status change or
      the rest of the poll. */
  lemma PollStep(polls: seq<StatusReply>, target: bool, attempt: nat, e: Effect)
    requires attempt < |polls|
    ensures Count(PollTrace(polls, target, attempt), e)
      == (if e == Wait(PollIntervalMs) then 1 else 0) + (if e == QueryStatus then 1 else 0)
         + (if Confirms(polls[attempt], target) then (if e == StatusChange(target) then 1 else 0)
            else Count(PollTrace(polls, target, attempt + 1), e))
  {
    var rest := if Confirms(polls[attempt], target) then [StatusChange(target)]
                else PollTrace(polls, target, attempt + 1);
    CountConcat([Wait(PollIntervalMs), QueryStatus], rest, e);
  }

  /** The poll uses one query per attempt up to and including the first confirming
      one, or every attempt when none does. */
  lemma {:induction false} PollQueries(polls: seq<StatusReply>, target: bool, attempt: nat)
    requires attempt <= |polls|
    decreases |polls| - attempt
    ensures var k := FirstConfirm(polls, target, attempt);
      Count(PollTrace(polls, target, attempt), QueryStatus) == (if k < |polls| then k + 1 else |polls|) - attempt
  {
    if attempt < |polls| {
      PollStep(polls, target, attempt, QueryStatus);
      if !Confirms(polls[attempt], target) {
        PollQueries(polls, target, attempt + 1);
      }
    }
  }

  /** The poll changes the status to the target once if some attempt confirms, and
      never otherwise. */
  lemma {:induction false} PollChanges(polls: seq<StatusReply>, target: bool, attempt: nat)
    requires attempt <= |polls|
    decreases |polls| - attempt
    ensures Count(PollTrace(polls, target, attempt), StatusChange(target))
      == (if FirstConfirm(polls, target, attempt) < |polls| then 1 else 0)
  {
    if attempt < |polls| {
      PollStep(polls, target, attempt, StatusChange(target));
      if !Confirms(polls[attempt], target) {
        PollChanges(polls, target, attempt + 1);
      }
    }
  }

  /** The poll never changes the status away from the target. */
  lemma {:induction false} PollNeverReverts(polls: seq<StatusReply>, target: bool, attempt: nat)
    requires attempt <= |polls|
    decreases |polls| - attempt
    ensures StatusChange(!target) !in PollTrace(polls, target, attempt)
  {
    if attempt < |polls| {
      PollStep(polls, target, attempt, StatusChange(!target));
      if !Confirms(polls[attempt], target) {
        PollNeverReverts(polls, target, attempt + 1);
      }
    }
  }

  /** The poll warns of a timeout once exactly when no attempt confirms. */
  lemma {:induction false} PollTimesOut(polls: seq<StatusReply>, target: bool, attempt: nat)
    requires attempt <= |polls|
    decreases |polls| - attempt
    ensures Count(PollTrace(polls, target, attempt), Warn(TimedOut))
      == (if FirstConfirm(polls, target, attempt) < |polls| then 0 else 1)
  {
    if attempt < |polls| {
      PollStep(polls, target, attempt, Warn(TimedOut));
      if !Confirms(polls[attempt], target) {
        PollTimesOut(polls, target, attempt + 1);
      }
    }
  }

  /** The poll makes no start/stop request. */
  lemma {:induction false} PollMakesNoRequest(polls: seq<StatusReply>, target: bool, attempt: nat, kind: PowerRequest)
    requires attempt <= |polls|
    decreases |polls| - attempt
    ensures Request(kind) !in PollTrace(polls, target, attempt)
  {
    if attempt < |polls| {
      PollStep(polls, target, attempt, Request(kind));
      if !Confirms(polls[attempt], target) {
        PollMakesNoRequest(polls, target, attempt + 1, kind);
      }
    }
  }

  /** Every status query in `t` comes right after a 5-second wait. */
  predicate QueriesWaited(t: seq<Effect>) {
    forall i :: 0 <= i < |t| && t[i] == QueryStatus ==> i > 0 && t[i - 1] == Wait(PollIntervalMs)
  }

  /** In the poll, every query comes right after a 5-second wait. */
  lemma {:induction false} PollWaitsBeforeQuery(polls: seq<StatusReply>, target: bool, attempt: nat)
    requires attempt <= |polls|
    decreases |polls| - attempt
    ensures QueriesWaited(PollTrace(polls, target, attempt))
  {
    if attempt == |polls| {
      assert PollTrace(polls, target, attempt) == [Warn(TimedOut)];
    } else if Confirms(polls[attempt], target) {
      assert PollTrace(polls, target, attempt) == [Wait(PollIntervalMs), QueryStatus, StatusChange(target)];
    } else {
      PollWaitsBeforeQuery(polls, target, attempt + 1);
      var t := PollTrace(polls, target, attempt);
      var rest := PollTrace(polls, target, attempt + 1);
      assert t == [Wait(PollIntervalMs), QueryStatus] + rest;
      forall i | 0 <= i < |t| && t[i] == QueryStatus ensures i > 0 && t[i - 1] == Wait(PollIntervalMs) {
        if i >= 2 {
          assert rest[i - 2] == QueryStatus;
          assert i - 2 > 0 && rest[i - 3] == Wait(PollIntervalMs);
          assert t[i - 1] == rest[i - 3];
        } else {
          assert t[0] == Wait(PollIntervalMs);
        }
      }
    }
  }

  /** The auth gate: when the auth test fails, no request is made, nothing is
      polled and the status never changes; the busy flag is cleared at once. */
  lemma AuthGate(believed: bool, reply: RequestReply, polls: seq<StatusReply>)
    requires |polls| == MaxAttempts
    ensures ToggleTrace(believed, false, reply, polls) == [SetBusy(true), TestAuth, AuthFailedToast, SetBusy(false)]
  {
  }

  /** After a passed auth test, exactly one request is made, right after the auth
      test: stop when the believed status is on, start when it is off. */
  lemma RequestChoice(believed: bool, reply: RequestReply, polls: seq<StatusReply>)
    requires |polls| == MaxAttempts
    ensures var t := ToggleTrace(believed, true, reply, polls);
      && t[2] == Request(if believed then Stop else Start)
      && Count(t, Request(Start)) + Count(t, Request(Stop)) == 1
  {
    var a := AfterRequest(believed, reply, polls);
    assert Request(Start) !in a && Request(Stop) !in a by {
      if reply.RequestReplied? && reply.success {
        PollMakesNoRequest(polls, !believed, 0, Start);
        PollMakesNoRequest(polls, !believed, 0, Stop);
      }
    }
    FramedCount(believed, a, Request(Start));
    FramedCount(believed, a, Request(Stop));
  }

  /** A start/stop call that throws or answers `success: false` ends the toggle
      with a warning: no poll and no status change. */
  lemma RequestFailureStops(believed: bool, reply: RequestReply, polls: seq<StatusReply>)
    requires |polls| == MaxAttempts
    requires !(reply.RequestReplied? && reply.success)
    ensures ToggleTrace(believed, true, reply, polls) ==
      [SetBusy(true), TestAuth, Request(RequestFor(believed)),
       Warn(if reply.RequestThrew? then Errored else Refused(RefusalMessage(reply.message, believed))),
       ReleaseBusyAfter(ReleaseDelayMs)]
  {
  }

  /** The poll is bounded: at most 12 status queries, and none at all unless the
      auth test passed and the request succeeded. */
  lemma BoundedPoll(believed: bool, authOk: bool, reply: RequestReply, polls: seq<StatusReply>)
    requires |polls| == MaxAttempts
    ensures var t := ToggleTrace(believed, authOk, reply, polls);
      && Count(t, QueryStatus) <= MaxAttempts
      && (!(authOk && reply.RequestReplied? && reply.success) ==> QueryStatus !in t)
  {
    if authOk {
      var a := AfterRequest(believed, reply, polls);
      FramedCount(believed, a, QueryStatus);
      if reply.RequestReplied? && reply.success {
        PollQueries(polls, !believed, 0);
      }
    }
  }

  /** Every status query of the toggle comes right after a 5-second wait. */
  lemma QueriesFollowWaits(believed: bool, authOk: bool, reply: RequestReply, polls: seq<StatusReply>)
    requires |polls| == MaxAttempts
    ensures QueriesWaited(ToggleTrace(believed, authOk, reply, polls))
  {
    var t := ToggleTrace(believed, authOk, reply, polls);
    if authOk && reply.RequestReplied? && reply.success {
      var p := PollTrace(polls, !believed, 0);
      assert t == [SetBusy(true), TestAuth, Request(RequestFor(believed))] + p + [ReleaseBusyAfter(ReleaseDelayMs)];
      PollWaitsBeforeQuery(polls, !believed, 0);
      forall i | 0 <= i < |t| && t[i] == QueryStatus ensures i > 0 && t[i - 1] == Wait(PollIntervalMs) {
        assert 3 <= i < 3 + |p| && t[i] == p[i - 3];
        if i > 3 {
          assert t[i - 1] == p[i - 4];
        }
      }
    } else {
      BoundedPoll(believed, authOk, reply, polls);
    }
  }

  /** Some attempt within the budget reports the target status. */
  predicate SomeConfirm(polls: seq<StatusReply>, target: bool) {
    exists k :: 0 <= k < |polls| && Confirms(polls[k], target)
  }

  lemma SomeConfirmIff(polls: seq<StatusReply>, target: bool)
    ensures SomeConfirm(polls, target) <==> FirstConfirm(polls, target, 0) < |polls|
  {
    var k := FirstConfirm(polls, target, 0);
    if k < |polls| {
      assert Confirms(polls[k], target);
    }
  }

  /** `onStatusChange` is called at most once, only with the target (the negated
      believed status), and exactly when the auth test passed, the request
      succeeded and some poll reply within the 12 attempts reported the target. */
  lemma ChangeOnlyOnConfirm(believed: bool, authOk: bool, reply: RequestReply, polls: seq<StatusReply>)
    requires |polls| == MaxAttempts
    ensures var t := ToggleTrace(believed, authOk, reply, polls);
      && StatusChange(believed) !in t
      && Count(t, StatusChange(!believed))
         == (if authOk && reply.RequestReplied? && reply.success && SomeConfirm(polls, !believed) then 1 else 0)
  {
    if authOk {
      var a := AfterRequest(believed, reply, polls);
      FramedCount(believed, a, StatusChange(believed));
      FramedCount(believed, a, StatusChange(!believed));
      if reply.RequestReplied? && reply.success {
        SomeConfirmIff(polls, !believed);
        PollChanges(polls, !believed, 0);
        PollNeverReverts(polls, !believed, 0);
      }
    }
  }

  /** A failed or refused poll reply uses up its attempt: a confirmation at attempt
      k (0-based) comes after k + 1 queries. */
  lemma ConfirmAfterQueries(believed: bool, reply: RequestReply, polls: seq<StatusReply>, k: nat)
    requires |polls| == MaxAttempts
    requires reply.RequestReplied? && reply.success
    requires k < MaxAttempts && Confirms(polls[k], !believed)
    requires forall j :: 0 <= j < k ==> !Confirms(polls[j], !believed)
    ensures Count(ToggleTrace(believed, true, reply, polls), QueryStatus) == k + 1
  {
    assert FirstConfirm(polls, !believed, 0) == k by {
      var f := FirstConfirm(polls, !believed, 0);
      assert !(f < k) && !(k < f);
    }
    FramedCount(believed, PollTrace(polls, !believed, 0), QueryStatus);
    PollQueries(polls, !believed, 0);
  }

  /** When no attempt confirms, the toggle ends in a timeout warning after all 12
      queries and the status is left as it was. */
  lemma TimeoutLeavesStatus(believed: bool, reply: RequestReply, polls: seq<StatusReply>)
    requires |polls| == MaxAttempts
    requires reply.RequestReplied? && reply.success
    requires !SomeConfirm(polls, !believed)
    ensures var t := ToggleTrace(believed, true, reply, polls);
      && Count(t, Warn(TimedOut)) == 1
      && Count(t, QueryStatus) == MaxAttempts
      && StatusChange(true) !in t && StatusChange(false) !in t
  {
    var p := PollTrace(polls, !believed, 0);
    SomeConfirmIff(polls, !believed);
    FramedCount(believed, p, Warn(TimedOut));
    FramedCount(believed, p, QueryStatus);
    FramedCount(believed, p, StatusChange(true));
    FramedCount(believed, p, StatusChange(false));
    PollTimesOut(polls, !believed, 0);
    PollQueries(polls, !believed, 0);
    PollChanges(polls, !believed, 0);
    PollNeverReverts(polls, !believed, 0);
  }

  lemma AppendAssoc(a: seq<Effect>, b: seq<Effect>, c: seq<Effect>)
    ensures a + (b + c) == (a + b) + c
  {
  }

  /** The effects of `n` attempts that did not confirm: a wait and a query each. */
  function Unconfirmed(n: nat): (t: seq<Effect>)
    ensures |t| == 2 * n
  {
    if n == 0 then [] else Unconfirmed(n - 1) + [Wait(PollIntervalMs), QueryStatus]
  }

  /** While no attempt before `k` confirms, the poll is `k` unconfirmed attempts
      followed by the poll from attempt `k`. */
  lemma {:induction false} PollUnrolls(polls: seq<StatusReply>, target: bool, k: nat)
    requires k <= |polls|
    requires forall j :: 0 <= j < k ==> !Confirms(polls[j], target)
    ensures PollTrace(polls, target, 0) == Unconfirmed(k) + PollTrace(polls, target, k)
  {
    if k > 0 {
      PollUnrolls(polls, target, k - 1);
      var step := [Wait(PollIntervalMs), QueryStatus];
      var rest := PollTrace(polls, target, k);
      assert PollTrace(polls, target, k - 1) == step + rest;
      assert Unconfirmed(k) == Unconfirmed(k - 1) + step;
      AppendAssoc(Unconfirmed(k - 1), step, rest);
    }
  }

  /** The confirmation loop of `handleTogglePower`, with the source's counter,
      `confirmed` flag and `break`. */
  method Poll(polls: seq<StatusReply>, expectedStatus: bool) returns (effects: seq<Effect>)
    requires |polls| == MaxAttempts
    ensures effects == PollTrace(polls, expectedStatus, 0)
  {
    effects := [];
    var attempt := 0;
    var confirmed := false;
    while attempt < MaxAttempts
      invariant 0 <= attempt <= MaxAttempts
      invariant !confirmed
      invariant effects == Unconfirmed(attempt)
      invariant forall j :: 0 <= j < attempt ==> !Confirms(polls[j], expectedStatus)
    {
      effects := effects + [Wait(PollIntervalMs), QueryStatus];
      var statusResp := polls[attempt];
      if statusResp.Replied? && statusResp.success {
        var isOnline := statusResp.status == "running";
        if isOnline == expectedStatus {
          effects := effects + [StatusChange(isOnline)];
          confirmed := true;
          PollUnrolls(polls, expectedStatus, attempt);
          assert PollTrace(polls, expectedStatus, attempt)
            == [Wait(PollIntervalMs), QueryStatus] + [StatusChange(expectedStatus)];
          break;
        }
      }
      attempt := attempt + 1;
    }
    if !confirmed {
      PollUnrolls(polls, expectedStatus, attempt);
      effects := effects + [Warn(TimedOut)];
    }
  }

  /** `handleTogglePower`: auth test, one start/stop request chosen from the believed
      status, then the confirmation loop or a warning, then the busy-flag timer. */
  method TogglePower(believed: bool, authOk: bool, reply: RequestReply, polls: seq<StatusReply>)
    returns (trace: seq<Effect>)
    requires |polls| == MaxAttempts
    ensures trace == ToggleTrace(believed, authOk, reply, polls)
  {
    trace := [SetBusy(true), TestAuth];
    if !authOk {
      trace := trace + [AuthFailedToast, SetBusy(false)];
      return;
    }
    var kind := if believed then Stop else Start;
    trace := trace + [Request(kind)];
    var after: seq<Effect>;
    match reply {
      case RequestThrew =>
        after := [Warn(Errored)];
      case RequestReplied(success, message) =>
        if success {
          after := Poll(polls, !believed);
        } else {
          after := [Warn(Refused(if message != "" then message else if believed then "Still On" else "Still Off"))];
        }
    }
    trace := trace + after + [ReleaseBusyAfter(ReleaseDelayMs)];
  }

  // ---------------------------------------------------------------------------
  // Single-record refresh

  datatype RefreshToast = NoToast | UpdatedToast(online: bool) | ErrorToast

  /** What `handleRefreshStatus` does: the status-change call it makes (if any) and
      the toast it shows. */
  datatype RefreshOutcome = RefreshOutcome(change: Option<bool>, toast: RefreshToast)

  /** Every successful reply calls `onStatusChange` with "running"-ness, even when
      it equals the believed status; a toast follows only when it differs; an
      error shows an error toast; an unsuccessful reply does nothing. */
  function RefreshStatus(believed: bool, reply: StatusReply): (r: RefreshOutcome)
    ensures r.change.Some? <==> reply.Replied? && reply.success
    ensures r.change.Some? ==> (r.change.value <==> reply.status == "running")
    ensures r.toast.UpdatedToast? <==> r.change.Some? && r.change.value != believed
    ensures r.toast.UpdatedToast? ==> r.toast.online == r.change.value
    ensures r.toast == ErrorToast <==> reply.Threw?
  {
    match reply
    case Threw => RefreshOutcome(None, ErrorToast)
    case Replied(false, _) => RefreshOutcome(None, NoToast)
    case Replied(true, status) =>
      var newStatus := status == "running";
      RefreshOutcome(Some(newStatus), if newStatus != believed then UpdatedToast(newStatus) else NoToast)
  }
}
