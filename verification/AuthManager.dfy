/**
 The client's login state machine. Work finishes on other threads and on the network, so every result comes
 back as an event that may be late, repeated or missing and carries the number of the login attempt it
 belongs to. `Step` is the machine as a function; the class follows the source and refines it.
 */
module AuthManager {
  import opened Prelude

  datatype AuthState =
    LoggedOut | CollectingDevice | Authenticating | WaitingForDeviceChallenge | VerifyingDevice | Authenticated | Failed

  /** What a device collection gives: the identifiers and the fingerprint made of them. */
  datatype Identity = Identity(identifiers: string, fingerprint: string)

  const NO_IDENTITY := Identity("", "")

  /** What the verifier reports of a valid session token. */
  datatype Verified = Verified(thumbprint: string, expiresAt: int)

  datatype PendingLogin = PendingLogin(email: string, password: string)

  const NO_LOGIN := PendingLogin("", "")

  /** A signature being made: the attempt it belongs to and the challenge it answers. */
  datatype Signing = Signing(attempt: nat, challenge: string)

  /** The fields of the manager between events; times are in milliseconds. */
  datatype Client = Client(
    state: AuthState, attempt: nat, pendingLogin: PendingLogin, hardware: Identity, sessionId: string, token: string,
    profile: Option<string>, profileLoading: bool, expiresAt: Option<int>,
    timer: Option<nat>, collection: Option<nat>, signing: Option<Signing>)

  datatype Event =
    | Login(newEmail: string, newPassword: string)
    | SignOut
    | CollectionFinished(collected: bool, identity: Identity, configured: bool)
    | LoginSucceeded(generation: nat, newSessionId: string, newChallenge: string, challengeValid: bool)
    | LoginFailed(generation: nat)
    | SigningFinished(signed: bool, signature: string, key: string)
    | DeviceVerified(generation: nat, newToken: string, verified: Option<Verified>, now: int)
    | DeviceVerificationFailed(generation: nat)
    | ProfileLoaded(generation: nat, newProfile: string, now: int)
    | ProfileFailed(generation: nat)
    | TimerFired

  /** What an event makes the manager do to the outside: network calls and signals; a signal comes last. */
  datatype Effect =
    | CallLogin(email: string, password: string, fingerprint: string, generation: nat)
    | CallVerifyDevice(sessionId: string, challenge: string, signature: string, key: string, hardware: Identity,
        generation: nat)
    | CallLoadProfile(token: string, thumbprint: string, expiresAt: int, generation: nat)
    | CallCancelProfile
    | SignalAuthenticated
    | SignalFailed
    | SignalReauthenticate
    | SignalSignedOut

  const START := Client(LoggedOut, 0, NO_LOGIN, NO_IDENTITY, "", "", None, false, None, None, None, None)

  /** `clearSession`. */
  function Cleared(s: Client): Client {
    s.(pendingLogin := NO_LOGIN, hardware := NO_IDENTITY, sessionId := "", token := "",
       profile := None, profileLoading := false, expiresAt := None)
  }

  /** `fail`: the attempt ends, its timer is cancelled and its data is dropped. */
  function Fail(s: Client): (Client, seq<Effect>) {
    (Cleared(s).(state := Failed, timer := None, attempt := s.attempt + 1),
     (if s.profileLoading then [CallCancelProfile] else []) + [SignalFailed])
  }

  /** `requireReauthentication`. */
  function Expire(s: Client, generation: nat): (Client, seq<Effect>) {
    if generation != s.attempt || s.token == "" then (s, [])
    else (Cleared(s).(state := LoggedOut, timer := None, attempt := s.attempt + 1),
          [CallCancelProfile, SignalReauthenticate])
  }

  /** A token that the verifier accepted: an expired one ends the attempt, any other starts the profile load. */
  function Accept(s: Client, newToken: string, session: Verified, now: int): (Client, seq<Effect>) {
    var s' := s.(token := newToken, expiresAt := Some(session.expiresAt));
    if session.expiresAt <= now then Expire(s', s.attempt) else Load(s', session)
  }

  /** The profile load begins under the token just taken. */
  function Load(s: Client, session: Verified): (Client, seq<Effect>) {
    (s.(timer := Some(s.attempt), profile := None, profileLoading := true, state := Authenticating),
     [CallLoadProfile(s.token, session.thumbprint, session.expiresAt, s.attempt)])
  }

  /** The current attempt's signature is being made. */
  predicate Signs(s: Client) {
    s.signing.Some? && s.signing.value.attempt == s.attempt
  }

  /** One event, run to completion. */
  function Step(s: Client, e: Event): (Client, seq<Effect>) {
    match e
    case Login(newEmail, newPassword) =>
      if s.state != LoggedOut && s.state != Failed then (s, [])
      else (Cleared(s).(state := CollectingDevice, attempt := s.attempt + 1,
                        pendingLogin := PendingLogin(newEmail, newPassword), timer := None,
                        collection := Some(s.attempt + 1)), [])
    case SignOut =>
      (Cleared(s).(state := LoggedOut, attempt := s.attempt + 1, timer := None, collection := None, signing := None),
       [CallCancelProfile, SignalSignedOut])
    case CollectionFinished(collected, identity, configured) =>
      var s' := s.(collection := None);
      if s.collection != Some(s.attempt) || s.state != CollectingDevice then (s', [])
      else if !collected || !configured then Fail(s')
      else (s'.(state := Authenticating, hardware := identity, pendingLogin := s.pendingLogin.(password := "")),
            [CallLogin(s.pendingLogin.email, s.pendingLogin.password, identity.fingerprint, s.attempt)])
    case LoginSucceeded(generation, newSessionId, newChallenge, challengeValid) =>
      if generation != s.attempt || s.state != Authenticating || s.profileLoading then (s, [])
      else if !challengeValid then Fail(s)
      else (s.(state := VerifyingDevice, sessionId := newSessionId,
               signing := Some(Signing(s.attempt, newChallenge))), [])
    case LoginFailed(generation) =>
      if generation != s.attempt || s.state != Authenticating || s.profileLoading then (s, []) else Fail(s)
    case SigningFinished(signed, signature, key) =>
      var s' := s.(signing := None);
      if !Signs(s) || s.state != VerifyingDevice then (s', [])
      else if !signed then Fail(s')
      else (s', [CallVerifyDevice(s.sessionId, s.signing.value.challenge, signature, key, s.hardware, s.attempt)])
    case DeviceVerified(generation, newToken, verified, now) =>
      if generation != s.attempt || s.state != VerifyingDevice then (s, [])
      else if verified.None? || newToken == "" then Fail(s)
      else Accept(s, newToken, verified.value, now)
    case DeviceVerificationFailed(generation) =>
      if generation != s.attempt || s.state != VerifyingDevice then (s, []) else Fail(s)
    case ProfileLoaded(generation, newProfile, now) =>
      if generation != s.attempt || s.state != Authenticating || !s.profileLoading || s.token == "" then (s, [])
      else if s.expiresAt.None? || s.expiresAt.value <= now then Expire(s, generation)
      else (s.(profile := Some(newProfile), profileLoading := false, state := Authenticated), [SignalAuthenticated])
    case ProfileFailed(generation) =>
      if generation != s.attempt || s.state != Authenticating || !s.profileLoading then (s, []) else Fail(s)
    case TimerFired =>
      match s.timer
      case None => (s, [])
      case Some(generation) => Expire(s.(timer := None), generation)
  }

  // ---- The manager as it is written ----

  class Manager {
    var state: AuthState
    var attempt: nat
    var pendingLogin: PendingLogin
    var hardware: Identity
    var sessionId: string
    var token: string
    var profile: Option<string>
    var profileLoading: bool
    var expiresAt: Option<int>
    var timer: Option<nat>
    var collection: Option<nat>
    var signing: Option<Signing>
    var emitted: seq<Effect>

    constructor ()
      ensures Fields() == START && emitted == []
    {
      state, attempt, pendingLogin, hardware, sessionId := LoggedOut, 0, NO_LOGIN, NO_IDENTITY, "";
      token, profile, profileLoading := "", None, false;
      expiresAt, timer, collection, signing, emitted := None, None, None, None, [];
    }

    function Fields(): Client
      reads this
    {
      Client(state, attempt, pendingLogin, hardware, sessionId, token, profile, profileLoading, expiresAt, timer,
             collection, signing)
    }

    /** The new fields and the effects emitted are those of `r`. */
    ghost predicate Did(before: seq<Effect>, r: (Client, seq<Effect>))
      reads this
    {
      Fields() == r.0 && emitted == before + r.1
    }

    method ClearSession()
      modifies this
      ensures Did(old(emitted), (Cleared(old(Fields())), []))
    {
      pendingLogin, hardware, sessionId, token := NO_LOGIN, NO_IDENTITY, "", "";
      profile, profileLoading, expiresAt := None, false, None;
    }

    method FailAttempt()
      modifies this
      ensures Did(old(emitted), Fail(old(Fields())))
    {
      timer := None;
      if profileLoading {
        emitted := emitted + [CallCancelProfile];
      }
      attempt := attempt + 1;
      ClearSession();
      state := Failed;
      emitted := emitted + [SignalFailed];
    }

    method RequireReauthentication(generation: nat)
      modifies this
      ensures Did(old(emitted), Expire(old(Fields()), generation))
    {
      if generation != attempt || token == "" {
        return;
      }
      timer := None;
      emitted := emitted + [CallCancelProfile];
      attempt := attempt + 1;
      ClearSession();
      state := LoggedOut;
      emitted := emitted + [SignalReauthenticate];
    }

    method LogIn(newEmail: string, newPassword: string)
      modifies this
      ensures Did(old(emitted), Step(old(Fields()), Login(newEmail, newPassword)))
    {
      if state != LoggedOut && state != Failed {
        return;
      }
      timer := None;
      ClearSession();
      pendingLogin, attempt := PendingLogin(newEmail, newPassword), attempt + 1;
      state, collection := CollectingDevice, Some(attempt);
    }

    method CancelAndWait()
      modifies this
      ensures Did(old(emitted), (old(Fields()).(attempt := old(attempt) + 1, collection := None, signing := None), []))
    {
      attempt := attempt + 1;
      collection := None;
      signing := None;
    }

    method LogOut()
      modifies this
      ensures Did(old(emitted), Step(old(Fields()), SignOut))
    {
      CancelAndWait();
      timer := None;
      emitted := emitted + [CallCancelProfile];
      ClearSession();
      state := LoggedOut;
      emitted := emitted + [SignalSignedOut];
    }

    method CompleteCollection(collected: bool, identity: Identity, configured: bool)
      modifies this
      ensures Did(old(emitted), Step(old(Fields()), CollectionFinished(collected, identity, configured)))
    {
      if collection.None? {
        return;
      }
      var result := collection.value;
      collection := None;
      if result != attempt || state != CollectingDevice {
        return;
      }
      if !collected {
        FailAttempt();
        return;
      }
      hardware := identity;
      if !configured {
        FailAttempt();
        return;
      }
      state := Authenticating;
      emitted := emitted + [CallLogin(pendingLogin.email, pendingLogin.password, hardware.fingerprint, attempt)];
      pendingLogin := pendingLogin.(password := "");
    }

    method HandleLoginSucceeded(newSessionId: string, newChallenge: string, challengeValid: bool, generation: nat)
      modifies this
      ensures Did(old(emitted),
                  Step(old(Fields()), LoginSucceeded(generation, newSessionId, newChallenge, challengeValid)))
    {
      if generation != attempt || state != Authenticating || profileLoading {
        return;
      }
      state := WaitingForDeviceChallenge;
      if !challengeValid {
        FailAttempt();
        return;
      }
      sessionId := newSessionId;
      state := VerifyingDevice;
      signing := Some(Signing(attempt, newChallenge));
    }

    method HandleLoginFailed(generation: nat)
      modifies this
      ensures Did(old(emitted), Step(old(Fields()), LoginFailed(generation)))
    {
      if generation == attempt && state == Authenticating && !profileLoading {
        FailAttempt();
      }
    }

    method CompleteSigning(signed: bool, signature: string, key: string)
      modifies this
      ensures Did(old(emitted), Step(old(Fields()), SigningFinished(signed, signature, key)))
    {
      if signing.None? {
        return;
      }
      var result := signing.value;
      signing := None;
      if result.attempt != attempt || state != VerifyingDevice {
        return;
      }
      if !signed {
        FailAttempt();
        return;
      }
      emitted := emitted + [CallVerifyDevice(sessionId, result.challenge, signature, key, hardware, attempt)];
    }

    method AcceptSession(newToken: string, session: Verified, now: int)
      modifies this
      ensures Did(old(emitted), Accept(old(Fields()), newToken, session, now))
    {
      token, expiresAt := newToken, Some(session.expiresAt);
      if session.expiresAt <= now {
        RequireReauthentication(attempt);
      } else {
        BeginProfileLoad(session);
      }
    }

    method BeginProfileLoad(session: Verified)
      modifies this
      ensures Did(old(emitted), Load(old(Fields()), session))
    {
      timer, profile, profileLoading, state := Some(attempt), None, true, Authenticating;
      emitted := emitted + [CallLoadProfile(token, session.thumbprint, session.expiresAt, attempt)];
    }

    method HandleDeviceVerified(newToken: string, verified: Option<Verified>, now: int, generation: nat)
      modifies this
      ensures Did(old(emitted), Step(old(Fields()), DeviceVerified(generation, newToken, verified, now)))
    {
      if generation != attempt || state != VerifyingDevice {
        return;
      }
      if verified.None? || newToken == "" {
        FailAttempt();
        return;
      }
      AcceptSession(newToken, verified.value, now);
    }

    method HandleDeviceVerificationFailed(generation: nat)
      modifies this
      ensures Did(old(emitted), Step(old(Fields()), DeviceVerificationFailed(generation)))
    {
      if generation == attempt && state == VerifyingDevice {
        FailAttempt();
      }
    }

    method HandleProfileLoaded(response: string, now: int, generation: nat)
      modifies this
      ensures Did(old(emitted), Step(old(Fields()), ProfileLoaded(generation, response, now)))
    {
      if generation != attempt || state != Authenticating || !profileLoading || token == "" {
        return;
      }
      if expiresAt.None? || expiresAt.value <= now {
        RequireReauthentication(generation);
        return;
      }
      profile := Some(response);
      profileLoading := false;
      state := Authenticated;
      emitted := emitted + [SignalAuthenticated];
    }

    method HandleProfileFailed(generation: nat)
      modifies this
      ensures Did(old(emitted), Step(old(Fields()), ProfileFailed(generation)))
    {
      if generation == attempt && state == Authenticating && profileLoading {
        FailAttempt();
      }
    }

    method TimeOut()
      modifies this
      ensures Did(old(emitted), Step(old(Fields()), TimerFired))
    {
      var callback := timer;
      timer := None;
      if callback.Some? {
        RequireReauthentication(callback.value);
      }
    }
  }

  // ---- Runs ----

  function Run(s: Client, events: seq<Event>): Client {
    if events == [] then s else Step(Run(s, events[..|events| - 1]), events[|events| - 1]).0
  }

  /** What holds between any two events. */
  ghost predicate Inv(s: Client) {
    && (s.token != "" <==> s.profileLoading || s.state == Authenticated)
    && (s.profileLoading ==> s.state == Authenticating)
    && s.timer == (if s.token != "" then Some(s.attempt) else None)
    && (s.pendingLogin.password != "" ==> s.state == CollectingDevice)
    && (s.profile.Some? <==> s.state == Authenticated)
    && (s.token != "" <==> s.expiresAt.Some?)
    && s.state != WaitingForDeviceChallenge
    && (s.state == CollectingDevice <==> s.collection.Some?)
    && (s.collection.Some? ==> s.collection == Some(s.attempt))
    && (s.signing.Some? ==> s.signing.value.attempt <= s.attempt)
  }

  /** Events that do not come from the network: user actions, finished futures and the timer. */
  predicate IsLocal(e: Event) {
    e.Login? || e.SignOut? || e.CollectionFinished? || e.SigningFinished? || e.TimerFired?
  }

  lemma LocalKeepsInv(s: Client, e: Event)
    requires Inv(s) && IsLocal(e)
    ensures Inv(Step(s, e).0)
  {
  }

  lemma ReplyKeepsInv(s: Client, e: Event)
    requires Inv(s) && !IsLocal(e)
    ensures Inv(Step(s, e).0)
  {
  }

  lemma StepKeepsInv(s: Client, e: Event)
    requires Inv(s)
    ensures Inv(Step(s, e).0)
  {
    hide Inv, Step;
    if IsLocal(e) {
      LocalKeepsInv(s, e);
    } else {
      ReplyKeepsInv(s, e);
    }
  }

  /**
   In every run, between events: a token is held exactly while its profile loads or the user is signed in, the
   expiry timer is armed for the current attempt exactly then, a password is held only while the device is
   being identified, and profile data exists only while signed in.
   */
  lemma {:induction false} QuiescentInvariant(events: seq<Event>)
    ensures Inv(Run(START, events))
  {
    if events != [] {
      QuiescentInvariant(events[..|events| - 1]);
      StepKeepsInv(Run(START, events[..|events| - 1]), events[|events| - 1]);
    }
  }

  predicate UserAction(e: Event) {
    e.Login? || e.SignOut?
  }

  /** The attempt a callback belongs to. */
  function GenerationOf(s: Client, e: Event): Option<nat> {
    match e
    case CollectionFinished(_, _, _) => s.collection
    case SigningFinished(_, _, _) => if s.signing.None? then None else Some(s.signing.value.attempt)
    case TimerFired => s.timer
    case LoginSucceeded(g, _, _, _) => Some(g)
    case LoginFailed(g) => Some(g)
    case DeviceVerified(g, _, _, _) => Some(g)
    case DeviceVerificationFailed(g) => Some(g)
    case ProfileLoaded(g, _, _) => Some(g)
    case ProfileFailed(g) => Some(g)
    case _ => None
  }

  /** An event has an effect beyond forgetting a finished future. */
  ghost predicate Accepted(s: Client, e: Event) {
    var (s', effects) := Step(s, e);
    effects != [] || s' != s.(collection := s'.collection, signing := s'.signing)
  }

  /** How many phases of the attempt are still ahead. */
  function Rank(s: Client): nat {
    match s.state
    case CollectingDevice => 5
    case Authenticating => if s.profileLoading then 1 else 4
    case VerifyingDevice => if Signs(s) then 3 else 2
    case _ => 0
  }

  /** A callback is accepted only by its own attempt, and then either ends the attempt or lowers its rank. */
  lemma CallbackMakesProgress(s: Client, e: Event)
    requires Inv(s) && !UserAction(e) && Accepted(s, e)
    ensures GenerationOf(s, e) == Some(s.attempt)
    ensures var s' := Step(s, e).0;
            || (s'.attempt == s.attempt && Rank(s') < Rank(s))
            || (s'.attempt == s.attempt + 1 && (s'.state == Failed || s'.state == LoggedOut))
  {
  }

  // ---- Each attempt is finite and ends once ----

  /** Accepted callbacks of a run while attempt `a` is current. */
  ghost function AcceptedIn(s: Client, events: seq<Event>, a: nat): nat {
    if events == [] then 0
    else
      var before := Run(s, events[..|events| - 1]);
      var e := events[|events| - 1];
      AcceptedIn(s, events[..|events| - 1], a)
      + if before.attempt == a && !UserAction(e) && Accepted(before, e) then 1 else 0
  }

  /** Signals of a kind emitted while attempt `a` is current. */
  function SignalsIn(s: Client, events: seq<Event>, a: nat, signals: set<Effect>): nat {
    if events == [] then 0
    else
      var before := Run(s, events[..|events| - 1]);
      var effects := Step(before, events[|events| - 1]).1;
      SignalsIn(s, events[..|events| - 1], a, signals)
      + if before.attempt == a && effects != [] && effects[|effects| - 1] in signals then 1 else 0
  }

  /** Callbacks attempt `a` can still accept. */
  function Budget(s: Client, a: nat): nat {
    if s.attempt > a then 0
    else if s.attempt < a then 6
    else if s.state == LoggedOut || s.state == Failed then 0
    else Rank(s) + 1
  }

  lemma StepSpendsBudget(s: Client, e: Event, a: nat)
    requires Inv(s)
    ensures var spent := if s.attempt == a && !UserAction(e) && Accepted(s, e) then 1 else 0;
            Budget(Step(s, e).0, a) + spent <= Budget(s, a)
  {
  }

  /** Every attempt accepts at most six callbacks, in every run. */
  lemma {:induction false} AttemptIsFinite(events: seq<Event>, a: nat)
    ensures AcceptedIn(START, events, a) + Budget(Run(START, events), a) <= 6
  {
    if events != [] {
      var init := events[..|events| - 1];
      AttemptIsFinite(init, a);
      QuiescentInvariant(init);
      StepSpendsBudget(Run(START, init), events[|events| - 1], a);
    }
  }

  const ENDINGS: set<Effect> := {SignalFailed, SignalReauthenticate, SignalSignedOut}

  /** In every run each attempt signs the user in at most once. */
  lemma {:induction false} AuthenticatesOnce(events: seq<Event>, a: nat)
    ensures var s := Run(START, events);
            SignalsIn(START, events, a, {SignalAuthenticated})
            + (if s.attempt < a || (s.attempt == a && Rank(s) > 0) then 1 else 0) <= 1
  {
    if events != [] {
      var init := events[..|events| - 1];
      AuthenticatesOnce(init, a);
      QuiescentInvariant(init);
      AuthenticateStep(Run(START, init), events[|events| - 1]);
    }
  }

  lemma AuthenticateStep(s: Client, e: Event)
    requires Inv(s)
    ensures var (s', effects) := Step(s, e);
            && s.attempt <= s'.attempt <= s.attempt + 1
            && (effects != [] && effects[|effects| - 1] == SignalAuthenticated
               ==> s'.attempt == s.attempt && Rank(s) == 1 && Rank(s') == 0)
            && (effects != [] && effects[|effects| - 1] in ENDINGS ==> s'.attempt == s.attempt + 1)
            && (s'.attempt == s.attempt ==> Rank(s') <= Rank(s))
  {
  }

  /** In every run each attempt ends at most once, by failure, expiry or sign-out. */
  lemma {:induction false} EndsOnce(events: seq<Event>, a: nat)
    ensures SignalsIn(START, events, a, ENDINGS) + (if Run(START, events).attempt <= a then 1 else 0) <= 1
  {
    if events != [] {
      var init := events[..|events| - 1];
      EndsOnce(init, a);
      QuiescentInvariant(init);
      AuthenticateStep(Run(START, init), events[|events| - 1]);
    }
  }

  /** An attempt that ends while its profile request may be outstanding cancels that request. */
  lemma EndCancelsProfile(s: Client, e: Event)
    requires Inv(s) && s.profileLoading && Step(s, e).0.attempt != s.attempt
    ensures CallCancelProfile in Step(s, e).1
  {
  }
}
