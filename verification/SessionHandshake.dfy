/** The login manager on top of the HTTP layer: in every joint run only a complete handshake signs the user in. */
module SessionHandshake {
  import opened Prelude
  import M = AuthManager
  import A = ApiClient
  import H = AuthHandshake
  import opened ClientSession

  // ---- What the manager is told in a joint run ----

  /** A refused call is answered by its failure, at once. */
  ghost function CallTells(s: System, kind: A.Kind, generation: nat, prepared: bool): seq<M.Event> {
    if A.Step(s.api, A.Start(kind, generation, prepared)).1 == [] then [] else [FailureEvent(kind, generation)]
  }

  ghost function Tells(s: System, effect: M.Effect, prepared: bool): seq<M.Event> {
    match effect
    case CallLogin(_, _, _, generation) => CallTells(s, A.LoginRequest, generation, prepared)
    case CallVerifyDevice(_, _, _, _, _, generation) => CallTells(s, A.DeviceRequest, generation, prepared)
    case CallLoadProfile(_, _, _, generation) => CallTells(s, A.ProfileRequest, generation, prepared)
    case _ => []
  }

  ghost function TellsAll(s: System, effects: seq<M.Effect>, prepared: bool): seq<M.Event>
    decreases |effects|
  {
    if effects == [] then []
    else Tells(s, effects[0], prepared) + TellsAll(Perform(s, effects[0], prepared), effects[1..], prepared)
  }

  ghost function DeliveryTells(s: System, e: M.Event, prepared: bool): seq<M.Event> {
    var (client, effects) := M.Step(s.client, e);
    [e] + TellsAll(System(client, s.api), effects, prepared)
  }

  /** The manager's event in a joint event, if any, and the HTTP layer it happens on. */
  ghost function Trigger(s: System, e: Event): Option<(M.Event, A.Api, bool)> {
    match e
    case Local(event, prepared) => if M.IsLocal(event) then Some((event, s.api, prepared)) else None
    case ReplyFinished(reply, accepted, payload, prepared) =>
      var (api, signals) := A.Step(s.api, A.Finish(reply, accepted));
      if signals == [] then None
      else
        var signal := signals[0];
        Some((if signal.succeeded then SuccessEvent(signal.kind, signal.generation, payload)
              else FailureEvent(signal.kind, signal.generation), api, prepared))
  }

  ghost function StepTells(s: System, e: Event): seq<M.Event> {
    match Trigger(s, e)
    case None => []
    case Some((event, api, prepared)) => DeliveryTells(System(s.client, api), event, prepared)
  }

  /** Every event of the manager in a joint run, in order. */
  ghost function Told(events: seq<Event>): seq<M.Event> {
    if events == [] then []
    else Told(events[..|events| - 1]) + StepTells(Run(events[..|events| - 1]), events[|events| - 1])
  }

  lemma {:induction false} ManagerConcat(s: M.Client, a: seq<M.Event>, b: seq<M.Event>)
    ensures M.Run(s, a + b) == M.Run(M.Run(s, a), b)
    decreases |b|
  {
    if b == [] {
      assert a + b == a;
    } else {
      hide M.Step;
      assert (a + b)[..|a + b| - 1] == a + b[..|b| - 1];
      ManagerConcat(s, a, b[..|b| - 1]);
    }
  }

  lemma ManagerOne(s: M.Client, e: M.Event)
    ensures M.Run(s, [e]) == M.Step(s, e).0
  {
    hide M.Step;
    assert [e][..0] == [];
  }

  lemma CallTold(s: System, kind: A.Kind, generation: nat, prepared: bool)
    ensures Call(s, kind, generation, prepared).client == M.Run(s.client, CallTells(s, kind, generation, prepared))
    ensures forall e :: e in CallTells(s, kind, generation, prepared) ==> !e.DeviceVerified?
  {
    hide M.Step, A.Step;
    ManagerOne(s.client, FailureEvent(kind, generation));
  }

  lemma EffectTold(s: System, effect: M.Effect, prepared: bool)
    ensures Perform(s, effect, prepared).client == M.Run(s.client, Tells(s, effect, prepared))
    ensures forall e :: e in Tells(s, effect, prepared) ==> !e.DeviceVerified?
  {
    hide M.Step, A.Step, Call, CallTells;
    match effect
    case CallLogin(_, _, _, generation) => CallTold(s, A.LoginRequest, generation, prepared);
    case CallVerifyDevice(_, _, _, _, _, generation) => CallTold(s, A.DeviceRequest, generation, prepared);
    case CallLoadProfile(_, _, _, generation) => CallTold(s, A.ProfileRequest, generation, prepared);
    case _ =>
  }

  lemma {:induction false} EffectsTold(s: System, effects: seq<M.Effect>, prepared: bool)
    ensures PerformAll(s, effects, prepared).client == M.Run(s.client, TellsAll(s, effects, prepared))
    ensures forall e :: e in TellsAll(s, effects, prepared) ==> !e.DeviceVerified?
    decreases |effects|
  {
    if effects != [] {
      hide Perform, Tells;
      var next := Perform(s, effects[0], prepared);
      EffectTold(s, effects[0], prepared);
      EffectsTold(next, effects[1..], prepared);
      ManagerConcat(s.client, Tells(s, effects[0], prepared), TellsAll(next, effects[1..], prepared));
    }
  }

  lemma DeliveryTold(s: System, e: M.Event, prepared: bool)
    ensures Deliver(s, e, prepared).client == M.Run(s.client, DeliveryTells(s, e, prepared))
  {
    hide PerformAll, TellsAll, M.Step;
    var (client, effects) := M.Step(s.client, e);
    EffectsTold(System(client, s.api), effects, prepared);
    ManagerOne(s.client, e);
    ManagerConcat(s.client, [e], TellsAll(System(client, s.api), effects, prepared));
  }

  lemma StepTold(s: System, e: Event)
    ensures Step(s, e).client == M.Run(s.client, StepTells(s, e))
  {
    hide Deliver, DeliveryTells, M.Step, A.Step;
    var trigger := Trigger(s, e);
    if trigger.Some? {
      DeliveryTold(System(s.client, trigger.value.1), trigger.value.0, trigger.value.2);
    }
  }

  /** The manager of a joint run is the manager of the events it was told. */
  lemma {:induction false} ToldExactly(events: seq<Event>)
    ensures Run(events).client == M.Run(M.START, Told(events))
  {
    if events != [] {
      hide Step, StepTells;
      var init, e := events[..|events| - 1], events[|events| - 1];
      ToldExactly(init);
      StepTold(Run(init), e);
      ManagerConcat(M.START, Told(init), StepTells(Run(init), e));
    }
  }

  // ---- The signature comes before the token ----

  /** Whoever holds a token has signed the challenge of the attempt before. */
  ghost predicate SignedFirst(c: M.Client, trail: seq<M.Event>) {
    c.token != "" ==> H.Signatures(trail) == 1
  }

  lemma StepSigned(c: M.Client, e: M.Event, trail: seq<M.Event>)
    requires M.Inv(c) && H.Evidence(c, trail) && SignedFirst(c, trail)
    requires e.DeviceVerified? && e.generation == c.attempt && c.state == M.VerifyingDevice ==> !M.Signs(c)
    ensures SignedFirst(M.Step(c, e).0, H.Extended(c, e, trail))
  {
    hide H.ProfileEvidence;
  }

  lemma TrailOneMore(told: seq<M.Event>, e: M.Event)
    ensures M.Run(M.START, told + [e]) == M.Step(M.Run(M.START, told), e).0
    ensures H.Trail(told + [e]) == H.Extended(M.Run(M.START, told), e, H.Trail(told))
  {
    hide M.Step, H.Extended;
    assert (told + [e])[..|told|] == told;
  }

  lemma ToldOneMore(told: seq<M.Event>, e: M.Event)
    requires SignedFirst(M.Run(M.START, told), H.Trail(told))
    requires var c := M.Run(M.START, told);
             e.DeviceVerified? && e.generation == c.attempt && c.state == M.VerifyingDevice ==> !M.Signs(c)
    ensures SignedFirst(M.Run(M.START, told + [e]), H.Trail(told + [e]))
  {
    hide *;
    M.QuiescentInvariant(told);
    H.EvidenceHeld(told);
    StepSigned(M.Run(M.START, told), e, H.Trail(told));
    TrailOneMore(told, e);
  }

  lemma {:induction false} RefusalsKeepSigned(told: seq<M.Event>, more: seq<M.Event>)
    requires SignedFirst(M.Run(M.START, told), H.Trail(told))
    requires forall e :: e in more ==> !e.DeviceVerified?
    ensures SignedFirst(M.Run(M.START, told + more), H.Trail(told + more))
    decreases |more|
  {
    hide SignedFirst, M.Run, H.Trail;
    if more == [] {
      assert told + more == told;
    } else {
      var n := |more| - 1;
      RefusalsKeepSigned(told, more[..n]);
      ToldOneMore(told + more[..n], more[n]);
      assert told + more == told + more[..n] + [more[n]];
    }
  }

  /** A verified device is reported to the current attempt only after its signature was sent. */
  lemma VerifiedAfterSigning(s: System, e: Event)
    requires Inv(s) && Trigger(s, e).Some?
    ensures var event := Trigger(s, e).value.0;
            event.DeviceVerified? && event.generation == s.client.attempt && s.client.state == M.VerifyingDevice
            ==> !M.Signs(s.client)
  {
    if e.ReplyFinished? {
      var p :| IsPending(s.api, p) && Linked(s.client, p);
      FinishPending(s.api, p, e.reply, e.accepted);
      hide A.Step, A.Inv, M.Inv, IsPending;
    }
  }

  lemma DeliveryKeepsSigned(told: seq<M.Event>, s: System, e: M.Event, prepared: bool)
    requires s.client == M.Run(M.START, told) && SignedFirst(s.client, H.Trail(told))
    requires e.DeviceVerified? && e.generation == s.client.attempt && s.client.state == M.VerifyingDevice
             ==> !M.Signs(s.client)
    ensures var more := DeliveryTells(s, e, prepared);
            SignedFirst(M.Run(M.START, told + more), H.Trail(told + more))
  {
    hide SignedFirst, M.Run, M.Step, H.Trail, TellsAll;
    var (client, effects) := M.Step(s.client, e);
    var more := TellsAll(System(client, s.api), effects, prepared);
    ToldOneMore(told, e);
    EffectsTold(System(client, s.api), effects, prepared);
    RefusalsKeepSigned(told + [e], more);
    assert told + ([e] + more) == told + [e] + more;
  }

  lemma StepKeepsSigned(told: seq<M.Event>, s: System, e: Event)
    requires Inv(s) && s.client == M.Run(M.START, told) && SignedFirst(s.client, H.Trail(told))
    ensures var more := StepTells(s, e);
            SignedFirst(M.Run(M.START, told + more), H.Trail(told + more))
  {
    hide SignedFirst, Inv, M.Run, H.Trail, Trigger, DeliveryTells;
    match Trigger(s, e)
    case None => assert told + [] == told;
    case Some((event, api, prepared)) =>
      VerifiedAfterSigning(s, e);
      DeliveryKeepsSigned(told, System(s.client, api), event, prepared);
  }

  lemma {:induction false} AlwaysSignedFirst(events: seq<Event>)
    ensures SignedFirst(Run(events).client, H.Trail(Told(events)))
  {
    if events != [] {
      hide SignedFirst, Inv, M.Run, H.Trail, Step, StepTells;
      var init, e := events[..|events| - 1], events[|events| - 1];
      AlwaysSignedFirst(init);
      ToldExactly(init);
      ToldExactly(events);
      Reachable(init);
      StepKeepsSigned(Told(init), Run(init), e);
    }
  }

  /**
   In every joint run a signed-in user has gone through the whole handshake, in order and in one attempt: the login, the
   collected device, the login answer, the signature, the verified token that is still held, and the profile that is
   held, the last two before the token's expiry.
   */
  lemma SignedInByHandshake(events: seq<Event>)
    requires Run(events).client.state == M.Authenticated
    ensures var s, trail := Run(events).client, H.Trail(Told(events));
            && |trail| == 6
            && trail[0].Login? && trail[0].newEmail == s.pendingLogin.email
            && trail[1] == M.CollectionFinished(true, s.hardware, true)
            && trail[2].LoginSucceeded? && trail[2].challengeValid
            && trail[2].generation == s.attempt && trail[2].newSessionId == s.sessionId
            && trail[3].SigningFinished? && trail[3].signed
            && trail[4].DeviceVerified? && trail[4].generation == s.attempt && trail[4].newToken == s.token
            && trail[4].verified.Some? && trail[4].now < trail[4].verified.value.expiresAt
            && trail[5].ProfileLoaded? && trail[5].generation == s.attempt && s.profile == Some(trail[5].newProfile)
            && trail[5].now < trail[4].verified.value.expiresAt
  {
    hide Run, Told, M.Run, H.Trail;
    ToldExactly(events);
    AlwaysSignedFirst(events);
    H.EvidenceHeld(Told(events));
    M.QuiescentInvariant(Told(events));
  }
}
