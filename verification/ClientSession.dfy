/**
 The session manager on top of the HTTP layer. A call that the HTTP layer refuses fails at once, inside the handler that
 made it; a reply that finishes is delivered to the manager, which may make the next call.
 */
module ClientSession {
  import opened Prelude
  import M = AuthManager
  import A = ApiClient

  datatype System = System(client: M.Client, api: A.Api)

  /** What a successful reply carries, and the clock reading when it is handled. */
  datatype Payload = Payload(
    sessionId: string, challenge: string, challengeValid: bool, token: string, verified: Option<M.Verified>,
    profile: string, now: int)

  /** `prepared` says whether a call the event leads to can be prepared at all. */
  datatype Event =
    | Local(event: M.Event, prepared: bool)
    | ReplyFinished(reply: nat, accepted: bool, payload: Payload, prepared: bool)

  const START := System(M.START, A.START)

  // ---- The two machines joined ----

  function SuccessEvent(kind: A.Kind, generation: nat, payload: Payload): M.Event {
    match kind
    case LoginRequest => M.LoginSucceeded(generation, payload.sessionId, payload.challenge, payload.challengeValid)
    case DeviceRequest => M.DeviceVerified(generation, payload.token, payload.verified, payload.now)
    case ProfileRequest => M.ProfileLoaded(generation, payload.profile, payload.now)
  }

  function FailureEvent(kind: A.Kind, generation: nat): M.Event {
    match kind
    case LoginRequest => M.LoginFailed(generation)
    case DeviceRequest => M.DeviceVerificationFailed(generation)
    case ProfileRequest => M.ProfileFailed(generation)
  }

  function Cancel(s: System): System {
    s.(api := A.Step(s.api, A.CancelProfile).0)
  }

  /** A call; a refusal is signalled synchronously and handled before the call returns. */
  function Call(s: System, kind: A.Kind, generation: nat, prepared: bool): System {
    var (api, signals) := A.Step(s.api, A.Start(kind, generation, prepared));
    if signals == [] then System(s.client, api)
    else
      var (client, effects) := M.Step(s.client, FailureEvent(kind, generation));
      var s' := System(client, api);
      if M.CallCancelProfile in effects then Cancel(s') else s'
  }

  function Perform(s: System, effect: M.Effect, prepared: bool): System {
    match effect
    case CallLogin(_, _, _, generation) => Call(s, A.LoginRequest, generation, prepared)
    case CallVerifyDevice(_, _, _, _, _, generation) => Call(s, A.DeviceRequest, generation, prepared)
    case CallLoadProfile(_, _, _, generation) => Call(s, A.ProfileRequest, generation, prepared)
    case CallCancelProfile => Cancel(s)
    case _ => s
  }

  function PerformAll(s: System, effects: seq<M.Effect>, prepared: bool): System
    decreases |effects|
  {
    if effects == [] then s else PerformAll(Perform(s, effects[0], prepared), effects[1..], prepared)
  }

  function Deliver(s: System, e: M.Event, prepared: bool): System {
    var (client, effects) := M.Step(s.client, e);
    PerformAll(System(client, s.api), effects, prepared)
  }

  function Step(s: System, e: Event): System {
    match e
    case Local(event, prepared) => if M.IsLocal(event) then Deliver(s, event, prepared) else s
    case ReplyFinished(reply, accepted, payload, prepared) =>
      var (api, signals) := A.Step(s.api, A.Finish(reply, accepted));
      if signals == [] then System(s.client, api)
      else
        var signal := signals[0];
        Deliver(System(s.client, api),
                if signal.succeeded then SuccessEvent(signal.kind, signal.generation, payload)
                else FailureEvent(signal.kind, signal.generation),
                prepared)
  }

  function Run(events: seq<Event>): System {
    if events == [] then START else Step(Run(events[..|events| - 1]), events[|events| - 1])
  }

  // ---- The request that is outstanding ----

  datatype Pending = Nothing | Waiting(kind: A.Kind, generation: nat)

  ghost predicate IsPending(api: A.Api, p: Pending) {
    match p
    case Nothing => !api.requestActive
    case Waiting(kind, generation) =>
      exists i :: 0 <= i < |api.replies| && A.LiveReply(api.replies[i])
                  && api.replies[i].kind == kind && api.replies[i].generation == generation
  }

  lemma StartPending(api: A.Api, p: Pending, kind: A.Kind, generation: nat, prepared: bool)
    requires A.Inv(api) && IsPending(api, p)
    ensures var (api', signals) := A.Step(api, A.Start(kind, generation, prepared));
            && A.Inv(api')
            && (signals != [] <==> p != Nothing || !prepared)
            && IsPending(api', if signals == [] then Waiting(kind, generation) else p)
  {
    A.StepKeepsInv(api, A.Start(kind, generation, prepared));
    var (api', signals) := A.Step(api, A.Start(kind, generation, prepared));
    if signals == [] {
      assert A.LiveReply(api'.replies[|api.replies|]);
    }
  }

  lemma CancelPending(api: A.Api, p: Pending)
    requires A.Inv(api) && IsPending(api, p)
    ensures var api' := A.Step(api, A.CancelProfile).0;
            A.Inv(api') && IsPending(api', if p.Waiting? && p.kind == A.ProfileRequest then Nothing else p)
  {
    A.StepKeepsInv(api, A.CancelProfile);
    var api' := A.Step(api, A.CancelProfile).0;
    if p.Waiting? {
      var i :| 0 <= i < |api.replies| && A.LiveReply(api.replies[i])
               && api.replies[i].kind == p.kind && api.replies[i].generation == p.generation;
      assert p.kind == A.ProfileRequest <==> api.profileReply == Some(i);
      if p.kind != A.ProfileRequest {
        assert api'.replies[i] == api.replies[i];
      }
    }
  }

  lemma FinishPending(api: A.Api, p: Pending, reply: nat, accepted: bool)
    requires A.Inv(api) && IsPending(api, p)
    ensures var (api', signals) := A.Step(api, A.Finish(reply, accepted));
            && A.Inv(api')
            && if signals == [] then IsPending(api', p)
               else IsPending(api', Nothing) && p == Waiting(signals[0].kind, signals[0].generation)
  {
    A.StepKeepsInv(api, A.Finish(reply, accepted));
    var (api', signals) := A.Step(api, A.Finish(reply, accepted));
    if p.Waiting? && signals == [] {
      var i :| 0 <= i < |api.replies| && A.LiveReply(api.replies[i])
               && api.replies[i].kind == p.kind && api.replies[i].generation == p.generation;
      assert api'.replies[i] == api.replies[i];
    }
  }

  // ---- The joint invariant ----

  /**
   The outstanding request is the one the manager's phase waits for; or, when the manager waits for no request, it is
   a login or device request of an earlier attempt that nothing can cancel.
   */
  predicate Linked(c: M.Client, p: Pending) {
    match p
    case Nothing => c.state != M.Authenticating && (c.state == M.VerifyingDevice ==> M.Signs(c))
    case Waiting(kind, generation) =>
      && generation <= c.attempt
      && (generation == c.attempt ==>
            || (kind == A.LoginRequest && c.state == M.Authenticating && !c.profileLoading)
            || (kind == A.DeviceRequest && c.state == M.VerifyingDevice && !M.Signs(c))
            || (kind == A.ProfileRequest && c.state == M.Authenticating && c.profileLoading))
      && (generation < c.attempt ==>
            kind != A.ProfileRequest && c.state in {M.LoggedOut, M.Failed, M.CollectingDevice})
  }

  ghost predicate Inv(s: System) {
    M.Inv(s.client) && A.Inv(s.api) && exists p :: IsPending(s.api, p) && Linked(s.client, p)
  }

  /** The manager right after a step that made a call: the phase it has entered, nothing outstanding for it yet. */
  predicate Calls(c: M.Client, kind: A.Kind) {
    match kind
    case LoginRequest => c.state == M.Authenticating && !c.profileLoading
    case DeviceRequest => c.state == M.VerifyingDevice && !M.Signs(c)
    case ProfileRequest => c.state == M.Authenticating && c.profileLoading
  }

  predicate NoProfile(p: Pending) {
    p.Waiting? ==> p.kind != A.ProfileRequest
  }

  lemma FailureEnds(c: M.Client, kind: A.Kind)
    requires M.Inv(c) && Calls(c, kind)
    ensures var (c', effects) := M.Step(c, FailureEvent(kind, c.attempt));
            && M.Inv(c') && c'.state == M.Failed && c'.attempt == c.attempt + 1
  {
    M.StepKeepsInv(c, FailureEvent(kind, c.attempt));
  }

  lemma CallKeepsInv(s: System, p: Pending, kind: A.Kind, prepared: bool)
    requires M.Inv(s.client) && A.Inv(s.api) && IsPending(s.api, p) && Calls(s.client, kind)
    requires p.Waiting? ==> p.generation <= s.client.attempt && NoProfile(p)
    ensures Inv(Call(s, kind, s.client.attempt, prepared))
  {
    hide M.Inv, M.Step, A.Inv, A.Step, IsPending;
    StartPending(s.api, p, kind, s.client.attempt, prepared);
    var (api, signals) := A.Step(s.api, A.Start(kind, s.client.attempt, prepared));
    if signals == [] {
      assert Linked(s.client, Waiting(kind, s.client.attempt));
    } else {
      FailureEnds(s.client, kind);
      CancelPending(api, p);
      assert Linked(M.Step(s.client, FailureEvent(kind, s.client.attempt)).0, p);
    }
  }

  /** What one step of the manager asks of the HTTP layer, given what was outstanding when the step began. */
  lemma StepLinks(c: M.Client, p: Pending, e: M.Event)
    requires M.Inv(c) && Linked(c, p) && M.IsLocal(e)
    ensures var (c', effects) := M.Step(c, e);
            || (|effects| == 1 && CallIn(effects[0], A.LoginRequest, c'.attempt) && Calls(c', A.LoginRequest)
                && (p.Waiting? ==> p.generation <= c'.attempt && NoProfile(p)))
            || (|effects| == 1 && CallIn(effects[0], A.DeviceRequest, c'.attempt) && Calls(c', A.DeviceRequest)
                && p == Nothing)
            || (NoCalls(effects)
                && Linked(c', if M.CallCancelProfile in effects then WithoutProfile(p) else p))
  {
  }

  /** The same for the result of the request that was outstanding. */
  lemma ResultLinks(c: M.Client, p: Pending, e: M.Event)
    requires M.Inv(c) && Linked(c, p) && p.Waiting?
    requires || e == FailureEvent(p.kind, p.generation)
             || exists payload :: e == SuccessEvent(p.kind, p.generation, payload)
    ensures var (c', effects) := M.Step(c, e);
            || (|effects| == 1 && CallIn(effects[0], A.ProfileRequest, c'.attempt) && Calls(c', A.ProfileRequest))
            || (NoCalls(effects) && Linked(c', Nothing))
  {
  }

  predicate CallIn(effect: M.Effect, kind: A.Kind, generation: nat) {
    match kind
    case LoginRequest => effect.CallLogin? && effect.generation == generation
    case DeviceRequest => effect.CallVerifyDevice? && effect.generation == generation
    case ProfileRequest => effect.CallLoadProfile? && effect.generation == generation
  }

  predicate NoCalls(effects: seq<M.Effect>) {
    && |effects| <= 2
    && forall i :: 0 <= i < |effects| ==>
         !effects[i].CallLogin? && !effects[i].CallVerifyDevice? && !effects[i].CallLoadProfile?
  }

  function WithoutProfile(p: Pending): Pending {
    if p.Waiting? && p.kind == A.ProfileRequest then Nothing else p
  }

  lemma PerformCall(s: System, effects: seq<M.Effect>, kind: A.Kind, prepared: bool)
    requires |effects| == 1 && CallIn(effects[0], kind, s.client.attempt)
    ensures PerformAll(s, effects, prepared) == Call(s, kind, s.client.attempt, prepared)
  {
    hide Call;
    assert effects[1..] == [];
  }

  /** Effects without a call only cancel, and a second cancellation does nothing. */
  lemma {:induction false} PerformQuiet(s: System, p: Pending, effects: seq<M.Effect>, prepared: bool)
    requires A.Inv(s.api) && IsPending(s.api, p)
    requires forall i :: 0 <= i < |effects| ==>
               !effects[i].CallLogin? && !effects[i].CallVerifyDevice? && !effects[i].CallLoadProfile?
    ensures var s' := PerformAll(s, effects, prepared);
            && s'.client == s.client && A.Inv(s'.api)
            && IsPending(s'.api, if M.CallCancelProfile in effects then WithoutProfile(p) else p)
    decreases |effects|
  {
    hide A.Inv, A.Step, IsPending, Call;
    if effects != [] {
      assert effects == [effects[0]] + effects[1..];
      if effects[0] == M.CallCancelProfile {
        CancelPending(s.api, p);
        PerformQuiet(Cancel(s), WithoutProfile(p), effects[1..], prepared);
      } else {
        PerformQuiet(s, p, effects[1..], prepared);
      }
    }
  }

  lemma LocalKeepsInv(s: System, e: M.Event, prepared: bool)
    requires Inv(s) && M.IsLocal(e)
    ensures Inv(Deliver(s, e, prepared))
  {
    var p :| IsPending(s.api, p) && Linked(s.client, p);
    var (c', effects) := M.Step(s.client, e);
    M.StepKeepsInv(s.client, e);
    StepLinks(s.client, p, e);
    hide M.Inv, A.Inv, M.Step, A.Step, IsPending, Linked, Call, PerformAll, Calls;
    var s' := System(c', s.api);
    if NoCalls(effects) {
      PerformQuiet(s', p, effects, prepared);
    } else if CallIn(effects[0], A.LoginRequest, c'.attempt) {
      PerformCall(s', effects, A.LoginRequest, prepared);
      CallKeepsInv(s', p, A.LoginRequest, prepared);
    } else {
      PerformCall(s', effects, A.DeviceRequest, prepared);
      CallKeepsInv(s', p, A.DeviceRequest, prepared);
    }
  }

  lemma ResultKeepsInv(s: System, p: Pending, api: A.Api, e: M.Event, prepared: bool)
    requires M.Inv(s.client) && Linked(s.client, p) && p.Waiting? && A.Inv(api) && IsPending(api, Nothing)
    requires || e == FailureEvent(p.kind, p.generation)
             || exists payload :: e == SuccessEvent(p.kind, p.generation, payload)
    ensures Inv(Deliver(System(s.client, api), e, prepared))
  {
    var (c', effects) := M.Step(s.client, e);
    M.StepKeepsInv(s.client, e);
    ResultLinks(s.client, p, e);
    hide M.Inv, A.Inv, M.Step, A.Step, IsPending, Linked, Call, PerformAll, Calls;
    var s' := System(c', api);
    if NoCalls(effects) {
      PerformQuiet(s', Nothing, effects, prepared);
    } else {
      PerformCall(s', effects, A.ProfileRequest, prepared);
      CallKeepsInv(s', Nothing, A.ProfileRequest, prepared);
    }
  }

  lemma StepKeepsInv(s: System, e: Event)
    requires Inv(s)
    ensures Inv(Step(s, e))
  {
    match e
    case Local(event, prepared) =>
      if M.IsLocal(event) {
        LocalKeepsInv(s, event, prepared);
      }
    case ReplyFinished(reply, accepted, payload, prepared) =>
      var p :| IsPending(s.api, p) && Linked(s.client, p);
      FinishPending(s.api, p, reply, accepted);
      hide M.Inv, A.Inv, A.Step, IsPending, Linked, Deliver;
      var (api, signals) := A.Step(s.api, A.Finish(reply, accepted));
      if signals != [] {
        var kind, generation := signals[0].kind, signals[0].generation;
        assert SuccessEvent(kind, generation, payload) == SuccessEvent(p.kind, p.generation, payload);
        ResultKeepsInv(s, p, api,
                       if signals[0].succeeded then SuccessEvent(kind, generation, payload)
                           else FailureEvent(kind, generation),
                       prepared);
      }
  }

  lemma {:induction false} Reachable(events: seq<Event>)
    ensures Inv(Run(events))
  {
    if events == [] {
      assert IsPending(START.api, Nothing) && Linked(START.client, Nothing);
    } else {
      hide Inv, Step;
      Reachable(events[..|events| - 1]);
      StepKeepsInv(Run(events[..|events| - 1]), events[|events| - 1]);
    }
  }

  // ---- What a user can rely on ----

  /**
   The client never waits for nothing. In every run, in every phase that waits, the work it waits for is outstanding and
   belongs to the current attempt: the collection, the login request, the signature, the device or the profile request.
   */
  lemma NeverStuck(events: seq<Event>)
    ensures var s := Run(events);
            && (s.client.state == M.CollectingDevice ==> s.client.collection == Some(s.client.attempt))
            && (s.client.state == M.Authenticating ==>
                  var kind := if s.client.profileLoading then A.ProfileRequest else A.LoginRequest;
                  IsPending(s.api, Waiting(kind, s.client.attempt)))
            && (s.client.state == M.VerifyingDevice ==>
                  || M.Signs(s.client)
                  || IsPending(s.api, Waiting(A.DeviceRequest, s.client.attempt)))
  {
    Reachable(events);
    hide Run, A.Inv, IsPending;
  }

  /**
   Who can be refused because the client is busy. In every run only a login can meet an outstanding request, and that
   request is a login or device request of an earlier attempt; a device verification or a profile load never does.
   */
  lemma OnlyLoginsMeetBusyClient(events: seq<Event>)
    ensures var s := Run(events);
            && (M.Signs(s.client) && s.client.state == M.VerifyingDevice
               ==> !s.api.requestActive)
            && (s.client.state in {M.CollectingDevice, M.LoggedOut, M.Failed} && s.api.requestActive ==>
                  exists kind, generation: nat :: generation < s.client.attempt && kind != A.ProfileRequest
                                             && IsPending(s.api, Waiting(kind, generation)))
            && (s.client.state == M.Authenticated ==> !s.api.requestActive)
  {
    Reachable(events);
    var s := Run(events);
    var p :| IsPending(s.api, p) && Linked(s.client, p);
    hide Run;
    if p.Waiting? {
      LiveMeansActive(s.api, p);
    }
  }

  lemma LiveMeansActive(api: A.Api, p: Pending)
    requires A.Inv(api) && IsPending(api, p) && p.Waiting?
    ensures api.requestActive
  {
  }

  /** A collected device's login is refused exactly while a request is outstanding, and the attempt then fails. */
  lemma LoginRefusedExactly(events: seq<Event>, identity: M.Identity)
    requires Run(events).client.state == M.CollectingDevice
    ensures var s' := Step(Run(events), Local(M.CollectionFinished(true, identity, true), true));
            s'.client.state == if Run(events).api.requestActive then M.Failed else M.Authenticating
  {
    var s := Run(events);
    Reachable(events);
    hide Run, A.Inv;
    var (c', effects) := M.Step(s.client, M.CollectionFinished(true, identity, true));
    PerformCall(System(c', s.api), effects, A.LoginRequest, true);
    FailureEnds(c', A.LoginRequest);
  }

  lemma NothingToCancel(s: System)
    requires s.api.profileReply.None?
    ensures PerformAll(s, [M.CallCancelProfile, M.SignalSignedOut], true) == s
  {
    assert [M.CallCancelProfile, M.SignalSignedOut][1..] == [M.SignalSignedOut];
    assert [M.SignalSignedOut][1..] == [];
    assert Cancel(s) == s;
    assert PerformAll(s, [M.SignalSignedOut], true) == PerformAll(s, [], true) == s;
  }

  /**
   A login refused that way is possible: signing out during a login leaves its request running into the next attempt.
   */
  lemma EarlySignOutFailsNextLogin(email: string, password: string, identity: M.Identity)
    ensures var login := Local(M.Login(email, password), true);
            var collected := Local(M.CollectionFinished(true, identity, true), true);
            var s := Step(Step(Step(Step(Step(START, login), collected), Local(M.SignOut, true)), login), collected);
            s.client.state == M.Failed
  {
    var login := Local(M.Login(email, password), true);
    var collected := Local(M.CollectionFinished(true, identity, true), true);
    var s1 := Step(START, login);
    var s2 := Step(s1, collected);
    var c2 := M.Step(s1.client, collected.event).0;
    PerformCall(System(c2, s1.api), [M.CallLogin(email, password, identity.fingerprint, 1)], A.LoginRequest, true);
    assert s2 == Call(System(c2, s1.api), A.LoginRequest, 1, true);
    var s3 := Step(s2, Local(M.SignOut, true));
    NothingToCancel(System(M.Step(s2.client, M.SignOut).0, s2.api));
    var s4 := Step(s3, login);
    var c5 := M.Step(s4.client, collected.event).0;
    PerformCall(System(c5, s4.api), [M.CallLogin(email, password, identity.fingerprint, 3)], A.LoginRequest, true);
  }
}
