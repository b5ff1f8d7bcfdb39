/**
 What the login manager sends, and on what evidence. The accepted events of the current attempt are kept in a trail;
 in every run the trail is a prefix of the handshake, and everything sent is taken from it.
 */
module AuthHandshake {
  import opened Prelude
  import opened AuthManager

  /** The trail after one more event: a new attempt starts it again, an accepted event of the attempt extends it. */
  ghost function Extended(s: Client, e: Event, trail: seq<Event>): seq<Event> {
    if Step(s, e).0.attempt != s.attempt then (if e.Login? then [e] else [])
    else if Accepted(s, e) then trail + [e]
    else trail
  }

  /** The accepted events of the current attempt, in order, beginning with its login. */
  ghost function Trail(events: seq<Event>): seq<Event> {
    if events == [] then []
    else
      var init := events[..|events| - 1];
      Extended(Run(START, init), events[|events| - 1], Trail(init))
  }

  /** The answer to the signed challenge comes after the signature, or without one. */
  ghost function Signatures(trail: seq<Event>): nat {
    if |trail| > 3 && trail[3].SigningFinished? then 1 else 0
  }

  /** How many events the handshake has seen in each phase, without the signature. */
  ghost function Length(s: Client): nat {
    match s.state
    case CollectingDevice => 1
    case Authenticating => if s.profileLoading then 4 else 2
    case VerifyingDevice => 3
    case Authenticated => 5
    case _ => 0
  }

  /**
   The trail is the login with its password, the collected device, the login answer, the signature, the verified token
   and the profile, as far as the phase; and the fields of the manager are what these events brought.
   */
  ghost predicate Evidence(s: Client, trail: seq<Event>) {
    var n, k := Length(s), Signatures(trail);
    && |trail| == n + k && (k == 1 ==> n >= 3)
    && (n >= 1 ==> trail[0].Login? && trail[0].newEmail == s.pendingLogin.email)
    && (n == 1 ==> trail[0].newPassword == s.pendingLogin.password)
    && (n >= 2 ==> trail[1] == CollectionFinished(true, s.hardware, true))
    && (n >= 3 ==> trail[2].LoginSucceeded? && trail[2].generation == s.attempt && trail[2].challengeValid
                   && trail[2].newSessionId == s.sessionId)
    && (n == 3 ==> (k == 0 <==> Signs(s)) && (Signs(s) ==> trail[2].newChallenge == s.signing.value.challenge))
    && (k == 1 ==> trail[3].signed)
    && (n >= 4 ==> TokenEvidence(s, trail[3 + k]))
    && (n == 5 ==> ProfileEvidence(s, trail[4 + k]))
  }

  /** Nothing of an attempt is left. */
  ghost predicate NothingHeld(s: Client) {
    && s.pendingLogin == PendingLogin("", "") && s.hardware == Identity("", "") && s.sessionId == ""
    && s.token == "" && s.profile.None? && s.expiresAt.None? && s.timer.None?
  }

  /** The token held came with this event, which the verifier accepted before the token's expiry. */
  ghost predicate TokenEvidence(s: Client, e: Event) {
    && e.DeviceVerified? && e.generation == s.attempt && e.newToken == s.token != ""
    && e.verified.Some? && s.expiresAt == Some(e.verified.value.expiresAt) && e.now < e.verified.value.expiresAt
  }

  /** The profile held came with this event, before the token's expiry. */
  ghost predicate ProfileEvidence(s: Client, e: Event) {
    && e.ProfileLoaded? && e.generation == s.attempt && s.profile == Some(e.newProfile)
    && s.expiresAt.Some? && e.now < s.expiresAt.value
  }

  lemma LocalKeepsEvidence(s: Client, e: Event, trail: seq<Event>)
    requires Inv(s) && Evidence(s, trail) && IsLocal(e)
    ensures Evidence(Step(s, e).0, Extended(s, e, trail))
  {
  }

  lemma ReplyKeepsEvidence(s: Client, e: Event, trail: seq<Event>)
    requires Inv(s) && Evidence(s, trail) && !IsLocal(e)
    ensures Evidence(Step(s, e).0, Extended(s, e, trail))
  {
  }

  /** In every run the fields of the manager are what the accepted events of the current attempt brought. */
  lemma {:induction false} EvidenceHeld(events: seq<Event>)
    ensures Evidence(Run(START, events), Trail(events))
  {
    if events != [] {
      hide Evidence, Step, Inv;
      var init, e := events[..|events| - 1], events[|events| - 1];
      EvidenceHeld(init);
      QuiescentInvariant(init);
      if IsLocal(e) {
        LocalKeepsEvidence(Run(START, init), e, Trail(init));
      } else {
        ReplyKeepsEvidence(Run(START, init), e, Trail(init));
      }
    }
  }

  // ---- What is sent ----

  /**
   The credentials go out exactly when the device of the attempt has been collected by a configured client, and they
   are those of the login that started the attempt.
   */
  lemma LoginSent(events: seq<Event>, e: Event, email: string, password: string, fingerprint: string, generation: nat)
    ensures var s := Run(START, events);
            CallLogin(email, password, fingerprint, generation) in Step(s, e).1 <==>
              && generation == s.attempt && Trail(events) == [Login(email, password)]
              && e.CollectionFinished? && e.collected && e.configured && e.identity.fingerprint == fingerprint
  {
    EvidenceHeld(events);
    QuiescentInvariant(events);
    hide Run, Trail, TokenEvidence, ProfileEvidence;
  }

  /**
   The signature goes out exactly when it was made, over the challenge and for the session of the login answer of the
   attempt, with the device collected in the attempt.
   */
  lemma SignatureSent(events: seq<Event>, e: Event, sessionId: string, challenge: string, signature: string,
                      key: string, hardware: Identity, generation: nat)
    ensures var s, trail := Run(START, events), Trail(events);
            CallVerifyDevice(sessionId, challenge, signature, key, hardware, generation) in Step(s, e).1 <==>
              && generation == s.attempt && e == SigningFinished(true, signature, key)
              && |trail| == 3 && trail[0].Login?
              && trail[1] == CollectionFinished(true, hardware, true)
              && trail[2] == LoginSucceeded(generation, sessionId, challenge, true)
  {
    EvidenceHeld(events);
    QuiescentInvariant(events);
    hide Run, Trail, TokenEvidence, ProfileEvidence;
  }

  /** The token goes out exactly when it arrives verified and unexpired for an attempt whose challenge was answered. */
  lemma TokenSent(events: seq<Event>, e: Event, token: string, thumbprint: string, expiresAt: int, generation: nat)
    ensures var s, trail := Run(START, events), Trail(events);
            CallLoadProfile(token, thumbprint, expiresAt, generation) in Step(s, e).1 <==>
              && generation == s.attempt && e.DeviceVerified? && e.generation == generation
              && e.newToken == token != "" && e.verified == Some(Verified(thumbprint, expiresAt)) && e.now < expiresAt
              && |trail| == 3 + Signatures(trail) && trail[2].LoginSucceeded?
  {
    EvidenceHeld(events);
    QuiescentInvariant(events);
    hide Run, Trail, TokenEvidence, ProfileEvidence;
  }

  /**
   The user is signed in exactly when the profile arrives while the token that was verified in this attempt has not
   expired; the profile held is then that one.
   */
  lemma SignedInOnEvidence(events: seq<Event>, e: Event)
    ensures var s, trail := Run(START, events), Trail(events);
            var verified := 3 + Signatures(trail);
            SignalAuthenticated in Step(s, e).1 <==>
              && e.ProfileLoaded? && e.generation == s.attempt
              && |trail| == verified + 1 && TokenEvidence(s, trail[verified])
              && e.now < trail[verified].verified.value.expiresAt
    ensures SignalAuthenticated in Step(Run(START, events), e).1 ==>
              Step(Run(START, events), e).0.profile == Some(e.newProfile)
  {
    EvidenceHeld(events);
    QuiescentInvariant(events);
    hide Run, Trail;
  }

  // ---- How an attempt ends ----

  ghost predicate Idle(s: Client) {
    s.state == LoggedOut || s.state == Failed
  }

  lemma StepHoldsNothing(s: Client, e: Event)
    requires Inv(s) && (Idle(s) ==> NothingHeld(s))
    ensures Idle(Step(s, e).0) ==> NothingHeld(Step(s, e).0)
  {
  }

  /** In every run nothing of an attempt is held between attempts: no credentials, device, session, token or profile. */
  lemma {:induction false} IdleHoldsNothing(events: seq<Event>)
    ensures Idle(Run(START, events)) ==> NothingHeld(Run(START, events))
  {
    if events != [] {
      hide Step, Inv, NothingHeld, Idle;
      var init := events[..|events| - 1];
      IdleHoldsNothing(init);
      QuiescentInvariant(init);
      StepHoldsNothing(Run(START, init), events[|events| - 1]);
    }
  }

  /** The event that makes the current attempt fail, in the phase that waits for it. */
  ghost predicate Breaks(s: Client, e: Event) {
    match e
    case CollectionFinished(collected, _, configured) => s.state == CollectingDevice && !(collected && configured)
    case LoginSucceeded(g, _, _, valid) => Answers(s, g) && !valid
    case LoginFailed(g) => Answers(s, g)
    case SigningFinished(signed, _, _) => s.state == VerifyingDevice && Signs(s) && !signed
    case DeviceVerified(g, token, verified, _) =>
      g == s.attempt && s.state == VerifyingDevice && (verified.None? || token == "")
    case DeviceVerificationFailed(g) => g == s.attempt && s.state == VerifyingDevice
    case ProfileFailed(g) => g == s.attempt && s.state == Authenticating && s.profileLoading
    case _ => false
  }

  /** The answer to the login request of the current attempt. */
  ghost predicate Answers(s: Client, generation: nat) {
    generation == s.attempt && s.state == Authenticating && !s.profileLoading
  }

  /** The event that shows the token of the current attempt to be out of date. */
  ghost predicate Outdates(s: Client, e: Event) {
    match e
    case TimerFired => s.token != ""
    case DeviceVerified(g, token, verified, now) =>
      && g == s.attempt && s.state == VerifyingDevice && token != "" && verified.Some?
      && verified.value.expiresAt <= now
    case ProfileLoaded(g, _, now) =>
      && g == s.attempt && s.state == Authenticating && s.profileLoading
      && s.expiresAt.Some? && s.expiresAt.value <= now
    case _ => false
  }

  /**
   In every run an attempt fails exactly on a broken step, expires exactly when its token is seen to be out of date and
   is signed out exactly by the user; each end leaves nothing of the attempt behind.
   */
  lemma EndsExactly(events: seq<Event>, e: Event)
    ensures var (s', effects) := Step(Run(START, events), e);
            && (SignalFailed in effects <==> Breaks(Run(START, events), e))
            && (SignalReauthenticate in effects <==> Outdates(Run(START, events), e))
            && (SignalSignedOut in effects <==> e.SignOut?)
            && (SignalFailed in effects ==> s'.state == Failed && NothingHeld(s'))
            && (SignalReauthenticate in effects || SignalSignedOut in effects ==>
                  s'.state == LoggedOut && NothingHeld(s'))
  {
    QuiescentInvariant(events);
    hide Run;
  }
}
