/**
 The client's HTTP layer: one request at a time, results as signals tagged with the caller's generation, and a
 profile request that can be cancelled while its reply still finishes later. A reply finishes once, at any time.
 */
module ApiClient {
  import opened Prelude

  datatype Kind = LoginRequest | DeviceRequest | ProfileRequest

  datatype Reply = Reply(kind: Kind, generation: nat, cancelled: bool, finished: bool)

  /** The flag, the cancellable reply, and every reply ever created, by number. */
  datatype Api = Api(requestActive: bool, profileReply: Option<nat>, replies: seq<Reply>)

  datatype Event =
    | Start(kind: Kind, generation: nat, prepared: bool)
    | CancelProfile
    | Finish(reply: nat, accepted: bool)

  /** A result signal: of which kind, for which generation, success or failure, and for which reply if any. */
  datatype Signal = Signal(kind: Kind, generation: nat, succeeded: bool, reply: Option<nat>)

  const START := Api(false, None, [])

  /** One event; `prepared` covers the transport check, the device key and the proof of a protected request. */
  function Step(s: Api, e: Event): (Api, seq<Signal>) {
    match e
    case Start(kind, generation, prepared) =>
      if s.requestActive || !prepared then (s, [Signal(kind, generation, false, None)])
      else
        (Api(true, if kind == ProfileRequest then Some(|s.replies|) else s.profileReply,
             s.replies + [Reply(kind, generation, false, false)]), [])
    case CancelProfile =>
      if s.profileReply.None? || s.profileReply.value >= |s.replies| then (s, [])
      else
        var i := s.profileReply.value;
        (Api(false, None, s.replies[i := s.replies[i].(cancelled := true)]), [])
    case Finish(i, accepted) =>
      if i >= |s.replies| || s.replies[i].finished then (s, [])
      else
        var r := s.replies[i];
        var replies := s.replies[i := r.(finished := true)];
        if r.cancelled then (s.(replies := replies), [])
        else
          (Api(false, if s.profileReply == Some(i) then None else s.profileReply, replies),
           [Signal(r.kind, r.generation, accepted, Some(i))])
  }

  class Client {
    var requestActive: bool
    var profileReply: Option<nat>
    var replies: seq<Reply>
    var emitted: seq<Signal>

    constructor ()
      ensures Fields() == START && emitted == []
    {
      requestActive, profileReply, replies, emitted := false, None, [], [];
    }

    function Fields(): Api
      reads this
    {
      Api(requestActive, profileReply, replies)
    }

    ghost predicate Did(before: seq<Signal>, r: (Api, seq<Signal>))
      reads this
    {
      Fields() == r.0 && emitted == before + r.1
    }

    method LoadProfile(generation: nat, prepared: bool)
      modifies this
      ensures Did(old(emitted), Step(old(Fields()), Start(ProfileRequest, generation, prepared)))
    {
      if requestActive {
        emitted := emitted + [Signal(ProfileRequest, generation, false, None)];
        return;
      }
      if !prepared {
        emitted := emitted + [Signal(ProfileRequest, generation, false, None)];
        return;
      }
      requestActive := true;
      replies := replies + [Reply(ProfileRequest, generation, false, false)];
      profileReply := Some(|replies| - 1);
    }

    method Cancel()
      modifies this
      ensures Did(old(emitted), Step(old(Fields()), CancelProfile))
    {
      if profileReply.None? || profileReply.value >= |replies| {
        return;
      }
      var reply := profileReply.value;
      profileReply := None;
      replies := replies[reply := replies[reply].(cancelled := true)];
      requestActive := false;
    }

    method PostJson(deviceRequest: bool, generation: nat, prepared: bool)
      modifies this
      ensures var kind := if deviceRequest then DeviceRequest else LoginRequest;
              Did(old(emitted), Step(old(Fields()), Start(kind, generation, prepared)))
    {
      var kind := if deviceRequest then DeviceRequest else LoginRequest;
      if !prepared || requestActive {
        emitted := emitted + [Signal(kind, generation, false, None)];
        return;
      }
      requestActive := true;
      replies := replies + [Reply(kind, generation, false, false)];
    }

    /** The completion handler of a reply. */
    method OnFinished(reply: nat, accepted: bool)
      modifies this
      ensures Did(old(emitted), Step(old(Fields()), Finish(reply, accepted)))
    {
      if reply >= |replies| || replies[reply].finished {
        return;
      }
      replies := replies[reply := replies[reply].(finished := true)];
      if replies[reply].cancelled {
        return;
      }
      if profileReply == Some(reply) {
        profileReply := None;
      }
      requestActive := false;
      emitted := emitted + [Signal(replies[reply].kind, replies[reply].generation, accepted, Some(reply))];
    }
  }

  // ---- Runs ----

  function Init(events: seq<Event>): seq<Event>
    requires events != []
  {
    events[..|events| - 1]
  }

  function Run(events: seq<Event>): Api {
    if events == [] then START else Step(Run(Init(events)), events[|events| - 1]).0
  }

  /** All signals of a run, in order. */
  function Signals(events: seq<Event>): seq<Signal> {
    if events == [] then [] else Signals(Init(events)) + Step(Run(Init(events)), events[|events| - 1]).1
  }

  predicate LiveReply(r: Reply) {
    !r.finished && !r.cancelled
  }

  /** The flag is set exactly when some reply is live; at most one is; the profile pointer is the live profile reply. */
  ghost predicate Inv(s: Api) {
    && (s.requestActive <==> exists i :: 0 <= i < |s.replies| && LiveReply(s.replies[i]))
    && (forall i, j :: 0 <= i < j < |s.replies| ==> !(LiveReply(s.replies[i]) && LiveReply(s.replies[j])))
    && (forall i :: 0 <= i < |s.replies| ==>
          (s.profileReply == Some(i) <==> LiveReply(s.replies[i]) && s.replies[i].kind == ProfileRequest))
    && (s.profileReply.Some? ==> s.profileReply.value < |s.replies|)
  }

  lemma StepKeepsInv(s: Api, e: Event)
    requires Inv(s)
    ensures Inv(Step(s, e).0)
  {
    var s' := Step(s, e).0;
    match e
    case Start(_, _, prepared) =>
      if !s.requestActive && prepared {
        assert LiveReply(s'.replies[|s.replies|]);
      }
    case CancelProfile =>
    case Finish(i, _) =>
      if i < |s.replies| && !s.replies[i].finished && s.replies[i].cancelled && s.requestActive {
        var k :| 0 <= k < |s.replies| && LiveReply(s.replies[k]);
        assert s'.replies[k] == s.replies[k];
      }
  }

  /** In every run at most one request is live, and the flag says exactly whether one is. */
  lemma {:induction false} SingleFlight(events: seq<Event>)
    ensures Inv(Run(events))
  {
    if events != [] {
      SingleFlight(Init(events));
      StepKeepsInv(Run(Init(events)), events[|events| - 1]);
    }
  }

  function CountFor(signals: seq<Signal>, i: nat): nat {
    if signals == [] then 0
    else CountFor(signals[..|signals| - 1], i) + if signals[|signals| - 1].reply == Some(i) then 1 else 0
  }

  lemma {:induction false} CountForConcat(a: seq<Signal>, b: seq<Signal>, i: nat)
    requires |b| <= 1
    ensures CountFor(a + b, i) == CountFor(a, i) + if b != [] && b[0].reply == Some(i) then 1 else 0
  {
    if b == [] {
      assert a + b == a;
    } else {
      assert (a + b)[..|a|] == a;
    }
  }

  /** A reply that finished without having been cancelled. */
  predicate Answered(s: Api, i: nat) {
    i < |s.replies| && s.replies[i].finished && !s.replies[i].cancelled
  }

  /** A step signals reply `i` exactly when it makes it answered; it never takes a reply's identity or answer away. */
  lemma StepSignals(s: Api, e: Event, i: nat)
    requires Inv(s)
    ensures var (s', signals) := Step(s, e);
            && |signals| <= 1
            && (signals != [] && signals[0].reply == Some(i) <==> Answered(s', i) && !Answered(s, i))
            && (Answered(s, i) ==> Answered(s', i))
            && (i < |s.replies| ==> && i < |s'.replies| && s'.replies[i].kind == s.replies[i].kind
                                    && s'.replies[i].generation == s.replies[i].generation)
            && (signals != [] && signals[0].reply == Some(i) ==>
                  i < |s'.replies| && signals[0].kind == s'.replies[i].kind
                      && signals[0].generation == s'.replies[i].generation)
  {
  }

  /**
   In every run each started request produces exactly one result signal once it finishes, or none if cancelled first.
   */
  lemma {:induction false} OneSignalPerRequest(events: seq<Event>, i: nat)
    ensures CountFor(Signals(events), i) == if Answered(Run(events), i) then 1 else 0
  {
    hide Step, Inv, Answered;
    if events != [] {
      OneSignalPerRequest(Init(events), i);
      SingleFlight(Init(events));
      StepSignals(Run(Init(events)), events[|events| - 1], i);
      CountForConcat(Signals(Init(events)), Step(Run(Init(events)), events[|events| - 1]).1, i);
    } else {
      NothingAnswered(i);
    }
  }

  lemma NothingAnswered(i: nat)
    ensures !Answered(START, i)
  {
  }

  /** The signal of a request carries the request's own kind and generation. */
  lemma {:induction false} SignalsCarryTheirGeneration(events: seq<Event>, k: nat, i: nat)
    requires k < |Signals(events)| && Signals(events)[k].reply == Some(i)
    ensures i < |Run(events).replies|
    ensures Signals(events)[k].kind == Run(events).replies[i].kind
    ensures Signals(events)[k].generation == Run(events).replies[i].generation
  {
    hide Step, Inv, Answered;
    var init := Init(events);
    SingleFlight(init);
    StepSignals(Run(init), events[|events| - 1], i);
    if k < |Signals(init)| {
      SignalsCarryTheirGeneration(init, k, i);
    }
  }

  /**
   Every signal has its cause: the result of a request reports how its reply finished, and a refusal, which is always
   a failure, answers a start that met another request or could not be prepared.
   */
  lemma {:induction false} SignalHasCause(events: seq<Event>, k: nat) returns (n: nat)
    requires k < |Signals(events)|
    ensures n < |events|
    ensures var signal := Signals(events)[k];
            match signal.reply
            case Some(i) => events[n] == Finish(i, signal.succeeded)
            case None =>
              && !signal.succeeded && events[n].Start?
              && events[n].kind == signal.kind && events[n].generation == signal.generation
              && (Run(events[..n]).requestActive || !events[n].prepared)
  {
    var init := Init(events);
    if k < |Signals(init)| {
      n := SignalHasCause(init, k);
      assert init[..n] == events[..n];
    } else {
      n := |events| - 1;
      OneSignal(Run(init), events[n]);
    }
  }

  lemma OneSignal(s: Api, e: Event)
    ensures |Step(s, e).1| <= 1
  {
  }

  /** A cancelled reply that finishes late changes neither the flag nor the pointer of its successor. */
  lemma LateCancelledReplyIsHarmless(events: seq<Event>, i: nat, accepted: bool)
    requires i < |Run(events).replies| && Run(events).replies[i].cancelled
    ensures var s, s' := Run(events), Step(Run(events), Finish(i, accepted)).0;
            s'.requestActive == s.requestActive && s'.profileReply == s.profileReply
    ensures Step(Run(events), Finish(i, accepted)).1 == []
    ensures Run(events).requestActive ==>
              exists j :: 0 <= j < |Run(events).replies| && j != i && LiveReply(Run(events).replies[j])
  {
    SingleFlight(events);
  }

  /** After a cancellation a new request can start at once, whether or not the old reply has finished. */
  lemma CancelFreesTheClient(events: seq<Event>, kind: Kind, generation: nat)
    requires Run(events).profileReply.Some?
    ensures var s := Step(Run(events), CancelProfile).0;
            Step(s, Start(kind, generation, true)).1 == []
                && |Step(s, Start(kind, generation, true)).0.replies| == |s.replies| + 1
  {
    SingleFlight(events);
  }
}
