/** The video-call dialog: its call status, the local media flags, the
    signalling-socket dispatcher and the handlers behind its buttons. The
    WebRTC objects are reduced to what the handlers test: whether a peer
    connection exists, and each local track's kind and `enabled` flag. */
module VideoCall {
  import opened Wrappers

  datatype Status = Incoming | Calling | Ringing | Ongoing | Ended

  /** The parent callbacks the dialog may invoke. */
  datatype Callback = StartCall | EndCall | AnswerCall | RejectCall | Close

  datatype Kind = Audio | Video
  datatype Track = Track(kind: Kind, enabled: bool)

  /** Messages the dialog writes to the signalling socket. */
  datatype Outbound = SendAnswer | SendCallRejected

  /** `peerConnectionRef.current`: never created, open, or closed. */
  datatype Peer = NoPeer | Open | Closed

  /** The handler an inbound socket message is given to. */
  datatype Route = ToOffer | ToAnswer | ToCandidate | ToRejectCallback | Ignored

  /** The status the dialog opens in. */
  function InitialStatus(isIncomingCall: bool): (s: Status)
    ensures s == Incoming || s == Calling
    ensures s == Incoming <==> isIncomingCall
  {
    if isIncomingCall then Incoming else Calling
  }

  /** The dispatch on an inbound message's `type`. */
  function RouteOf(msgType: string): (r: Route)
    ensures r != Ignored <==> msgType in {"offer", "answer", "candidate", "call-rejected"}
  {
    if msgType == "offer" then ToOffer
    else if msgType == "answer" then ToAnswer
    else if msgType == "candidate" then ToCandidate
    else if msgType == "call-rejected" then ToRejectCallback
    else Ignored
  }

  /** The `type` that selects each handler. */
  function WireType(r: Route): string
    requires r != Ignored
  {
    match r
    case ToOffer => "offer"
    case ToAnswer => "answer"
    case ToCandidate => "candidate"
    case ToRejectCallback => "call-rejected"
  }

  /** Each handler is reached by exactly one message type, and a routed
      message reaches the handler named by its type. */
  lemma RouteRoundTrip(r: Route, msgType: string)
    ensures r != Ignored ==> RouteOf(WireType(r)) == r
    ensures RouteOf(msgType) != Ignored ==> WireType(RouteOf(msgType)) == msgType
  {
  }

  /** A track after the microphone toggle: audio tracks flip `enabled`,
      other tracks are untouched. */
  function MicToggledTrack(t: Track): Track
  {
    if t.kind == Audio then t.(enabled := !t.enabled) else t
  }

  function MicToggled(tracks: seq<Track>): (r: seq<Track>)
    ensures |r| == |tracks|
    ensures forall i :: 0 <= i < |r| ==> r[i].kind == tracks[i].kind
    ensures forall i :: 0 <= i < |r| && tracks[i].kind != Audio ==> r[i] == tracks[i]
    ensures forall i :: 0 <= i < |r| && tracks[i].kind == Audio ==> r[i].enabled != tracks[i].enabled
  {
    seq(|tracks|, i requires 0 <= i < |tracks| => MicToggledTrack(tracks[i]))
  }

  /** Toggling the microphone twice restores every track. */
  lemma MicToggleTwiceIsIdentity(tracks: seq<Track>)
    ensures MicToggled(MicToggled(tracks)) == tracks
  {
  }

  /** A callback the dialog guards with `if (onX)`: fired only when the parent
      passed it. */
  function IfProvided(c: Callback, provided: set<Callback>): (r: seq<Callback>)
    ensures c in r <==> c in provided
    ensures |r| <= 1
    ensures forall x :: x in r ==> x == c
  {
    if c in provided then [c] else []
  }

  /** The observable effects of one handler. */
  datatype Effects = Effects(fired: seq<Callback>, sent: seq<Outbound>)

  /** The Start/End action: from calling it starts ringing and fires at
      most the start callback; from any other status it ends the call, fires
      the end callback when passed, and closes the dialog last, once. */
  function CallAction(s: Status, provided: set<Callback>): (r: (Status, Effects))
    ensures r.0 == Ringing <==> s == Calling
    ensures r.0 == Ended <==> s != Calling
    ensures Close in r.1.fired <==> s != Calling
    ensures StartCall in r.1.fired <==> s == Calling && StartCall in provided
    ensures EndCall in r.1.fired <==> s != Calling && EndCall in provided
    ensures s == Calling ==> |r.1.fired| <= 1 && forall x :: x in r.1.fired ==> x == StartCall
    ensures s != Calling ==>
              |r.1.fired| == (if EndCall in provided then 2 else 1) &&
              r.1.fired[|r.1.fired| - 1] == Close &&
              forall i :: 0 <= i < |r.1.fired| - 1 ==> r.1.fired[i] == EndCall
    ensures r.1.sent == []
  {
    if s == Calling then (Ringing, Effects(IfProvided(StartCall, provided), []))
    else (Ended, Effects(IfProvided(EndCall, provided) + [Close], []))
  }

  /** The reject path: exactly one `call-rejected` message, then the optional
      `onRejectCall`, then `onClose`. */
  function RejectEffects(provided: set<Callback>): (e: Effects)
    ensures e.sent == [SendCallRejected]
    ensures |e.fired| == (if RejectCall in provided then 2 else 1)
    ensures e.fired[|e.fired| - 1] == Close
    ensures forall i :: 0 <= i < |e.fired| - 1 ==> e.fired[i] == RejectCall
    ensures RejectCall in e.fired <==> RejectCall in provided
  {
    Effects(IfProvided(RejectCall, provided) + [Close], [SendCallRejected])
  }

  /** The Accept/Reject buttons: "accept" enters the ongoing call, any other
      action rejects, keeping the status. */
  function IncomingAction(action: string, s: Status, provided: set<Callback>): (r: (Status, Effects))
    ensures action == "accept" ==> r.0 == Ongoing && r.1.sent == [] && Close !in r.1.fired
    ensures action == "accept" ==> |r.1.fired| <= 1 && forall x :: x in r.1.fired ==> x == AnswerCall
    ensures action != "accept" ==> r.0 == s && r.1 == RejectEffects(provided)
    ensures AnswerCall in r.1.fired <==> action == "accept" && AnswerCall in provided
  {
    if action == "accept" then (Ongoing, Effects(IfProvided(AnswerCall, provided), []))
    else (s, RejectEffects(provided))
  }

  /** The status line. */
  function Label(s: Status): string
  {
    if s == Incoming then "Incoming Call..."
    else if s == Ringing then "Ringing..."
    else if s == Calling then "Calling..."
    else "Ongoing Call"
  }

  /** The ended status has no line of its own: it reads "Ongoing Call". */
  lemma EndedReadsAsOngoing()
    ensures Label(Ended) == Label(Ongoing) == "Ongoing Call"
  {
  }

  /** The Start Call button is shown only while calling, and the
      Accept/Reject buttons only while incoming. */
  predicate ShowsStartButton(s: Status) { s == Calling }
  predicate ShowsAnswerButtons(s: Status) { s == Incoming }

  /** The Start Call button is shown exactly in the status whose action
      starts ringing, so the ending branch of the action is never reached
      from it. */
  lemma StartButtonOnlyStarts(s: Status, provided: set<Callback>)
    ensures ShowsStartButton(s) <==> CallAction(s, provided).0 == Ringing
  {
  }

  /** From the Accept/Reject buttons, accepting enters the ongoing call and
      rejecting leaves the status at "incoming". */
  lemma AnswerButtonsFromIncoming(s: Status, action: string, provided: set<Callback>)
    requires ShowsAnswerButtons(s)
    ensures action == "accept" ==> IncomingAction(action, s, provided).0 == Ongoing
    ensures action != "accept" ==> IncomingAction(action, s, provided).0 == Incoming
  {
  }

  class VideoCallModal {
    /** The optional callbacks the parent passed as props. */
    const provided: set<Callback>
    var callStatus: Status
    var isLocalVideoOn: bool
    var isRemoteVideoOn: bool
    var isMuted: bool
    var localStream: array?<Track>
    var peer: Peer
    /** Callbacks invoked and socket messages sent so far, in order. */
    var fired: seq<Callback>
    var sent: seq<Outbound>

    constructor (isIncomingCall: bool, callbacks: set<Callback>)
      ensures provided == callbacks
      ensures callStatus == InitialStatus(isIncomingCall)
      ensures isLocalVideoOn && !isRemoteVideoOn && !isMuted
      ensures localStream == null && peer == NoPeer
      ensures fired == [] && sent == []
    {
      provided := callbacks;
      callStatus := if isIncomingCall then Incoming else Calling;
      isLocalVideoOn, isRemoteVideoOn, isMuted := true, false, false;
      localStream, peer := null, NoPeer;
      fired, sent := [], [];
    }

    /** Stores the camera and microphone tracks once the device grants them;
        a refusal (`None`) is only logged. */
    method StartLocalStream(granted: Option<seq<Track>>)
      modifies this
      ensures granted.Some? ==> fresh(localStream) && localStream[..] == granted.value
      ensures granted.None? ==> localStream == old(localStream)
      ensures callStatus == old(callStatus) && isMuted == old(isMuted) && peer == old(peer)
      ensures isLocalVideoOn == old(isLocalVideoOn) && isRemoteVideoOn == old(isRemoteVideoOn)
      ensures fired == old(fired) && sent == old(sent)
    {
      if granted.Some? {
        var ts := granted.value;
        localStream := new Track[|ts|](i requires 0 <= i < |ts| => ts[i]);
      }
    }

    /** Negates `isMuted`, then flips `enabled` on every audio track of the
        local stream in place. Without a stream the track loop throws
        (`ok` is false) after the flag update has been scheduled. */
    method HandleMicToggle() returns (ok: bool)
      modifies this, localStream
      ensures isMuted == !old(isMuted)
      ensures ok <==> localStream != null
      ensures localStream == old(localStream)
      ensures localStream != null ==> localStream[..] == MicToggled(old(localStream[..]))
      ensures callStatus == old(callStatus) && isLocalVideoOn == old(isLocalVideoOn) && peer == old(peer)
      ensures isRemoteVideoOn == old(isRemoteVideoOn)
      ensures fired == old(fired) && sent == old(sent)
    {
      isMuted := !isMuted;
      if localStream == null {
        return false;
      }
      var tracks := localStream;
      var i := 0;
      while i < tracks.Length
        modifies tracks
        invariant 0 <= i <= tracks.Length
        invariant forall j :: 0 <= j < i ==> tracks[j] == MicToggledTrack(old(tracks[j]))
        invariant forall j :: i <= j < tracks.Length ==> tracks[j] == old(tracks[j])
      {
        if tracks[i].kind == Audio {
          tracks[i] := tracks[i].(enabled := !tracks[i].enabled);
        }
        i := i + 1;
      }
      ok := true;
    }

    /** Negates the local-video display flag only; no track is touched. */
    method ToggleLocalVideo()
      modifies this
      ensures isLocalVideoOn == !old(isLocalVideoOn)
      ensures localStream == old(localStream)
      ensures localStream != null ==> localStream[..] == old(localStream[..])
      ensures callStatus == old(callStatus) && isMuted == old(isMuted) && peer == old(peer)
      ensures isRemoteVideoOn == old(isRemoteVideoOn)
      ensures fired == old(fired) && sent == old(sent)
    {
      isLocalVideoOn := !isLocalVideoOn;
    }

    method HandleCallAction()
      modifies this
      ensures callStatus == CallAction(old(callStatus), provided).0
      ensures fired == old(fired) + CallAction(old(callStatus), provided).1.fired
      ensures sent == old(sent) && peer == old(peer) && localStream == old(localStream)
      ensures isMuted == old(isMuted) && isLocalVideoOn == old(isLocalVideoOn) && isRemoteVideoOn == old(isRemoteVideoOn)
    {
      if callStatus == Calling {
        callStatus := Ringing;
        if StartCall in provided { fired := fired + [StartCall]; }
      } else {
        callStatus := Ended;
        if EndCall in provided { fired := fired + [EndCall]; }
        fired := fired + [Close];
      }
    }

    /** The end-call icon as written: it closes the peer connection before
        anything else, so when none exists the handler throws (`ok` is
        false) and neither `onEndCall` nor `onClose` runs. The status never
        changes. */
    method HandleEndCall() returns (ok: bool)
      modifies this
      ensures ok <==> old(peer) != NoPeer
      ensures ok ==> peer == Closed && fired == old(fired) + IfProvided(EndCall, provided) + [Close]
      ensures !ok ==> peer == old(peer) && fired == old(fired)
      ensures callStatus == old(callStatus) && sent == old(sent) && localStream == old(localStream)
      ensures isMuted == old(isMuted) && isLocalVideoOn == old(isLocalVideoOn) && isRemoteVideoOn == old(isRemoteVideoOn)
    {
      if peer == NoPeer {
        return false;
      }
      peer := Closed;
      if EndCall in provided { fired := fired + [EndCall]; }
      fired := fired + [Close];
      ok := true;
    }

    /** The end-call icon with the peer connection closed only when there is
        one: the dialog always notifies the parent and closes. */
    method HandleEndCallGuarded()
      modifies this
      ensures peer == (if old(peer) == NoPeer then NoPeer else Closed)
      ensures fired == old(fired) + IfProvided(EndCall, provided) + [Close]
      ensures callStatus == old(callStatus) && sent == old(sent) && localStream == old(localStream)
      ensures isMuted == old(isMuted) && isLocalVideoOn == old(isLocalVideoOn) && isRemoteVideoOn == old(isRemoteVideoOn)
    {
      if peer != NoPeer {
        peer := Closed;
      }
      if EndCall in provided { fired := fired + [EndCall]; }
      fired := fired + [Close];
    }

    method HandleRejectCall()
      modifies this
      ensures sent == old(sent) + RejectEffects(provided).sent
      ensures fired == old(fired) + RejectEffects(provided).fired
      ensures callStatus == old(callStatus) && peer == old(peer) && localStream == old(localStream)
      ensures isMuted == old(isMuted) && isLocalVideoOn == old(isLocalVideoOn) && isRemoteVideoOn == old(isRemoteVideoOn)
    {
      sent := sent + [SendCallRejected];
      if RejectCall in provided { fired := fired + [RejectCall]; }
      fired := fired + [Close];
    }

    method HandleIncomingCallAction(action: string)
      modifies this
      ensures callStatus == IncomingAction(action, old(callStatus), provided).0
      ensures fired == old(fired) + IncomingAction(action, old(callStatus), provided).1.fired
      ensures sent == old(sent) + IncomingAction(action, old(callStatus), provided).1.sent
      ensures peer == old(peer) && localStream == old(localStream)
      ensures isMuted == old(isMuted) && isLocalVideoOn == old(isLocalVideoOn) && isRemoteVideoOn == old(isRemoteVideoOn)
    {
      if action == "accept" {
        callStatus := Ongoing;
        if AnswerCall in provided { fired := fired + [AnswerCall]; }
      } else {
        HandleRejectCall();
      }
    }

    /** The socket's message handler as written. It is installed once, when
        the dialog mounts, so the offer handler inside it sees the local
        stream of that first render, which is always `null`: it creates the
        peer connection and then throws before any answer is sent. The
        answer and candidate handlers throw while no peer connection exists;
        candidates are applied at once, never buffered. `call-rejected`
        calls `onRejectCall` unguarded. */
    method OnMessage(msgType: string) returns (ok: bool)
      modifies this
      ensures RouteOf(msgType) == ToOffer ==> !ok && peer == Open && sent == old(sent)
      ensures RouteOf(msgType) in {ToAnswer, ToCandidate} ==> (ok <==> old(peer) != NoPeer) && peer == old(peer)
      ensures RouteOf(msgType) == ToRejectCallback ==>
        (ok <==> RejectCall in provided) && fired == old(fired) + IfProvided(RejectCall, provided) && peer == old(peer)
      ensures RouteOf(msgType) == Ignored ==> ok && peer == old(peer)
      ensures RouteOf(msgType) != ToRejectCallback ==> fired == old(fired)
      ensures RouteOf(msgType) != ToOffer ==> sent == old(sent)
      ensures callStatus == old(callStatus) && localStream == old(localStream)
      ensures isMuted == old(isMuted) && isLocalVideoOn == old(isLocalVideoOn) && isRemoteVideoOn == old(isRemoteVideoOn)
    {
      ok := true;
      var route := RouteOf(msgType);
      if route == ToOffer {
        var streamAtMount: array?<Track> := null;
        ok := HandleOffer(streamAtMount);
      } else if route == ToAnswer || route == ToCandidate {
        ok := peer != NoPeer;
      } else if route == ToRejectCallback {
        if RejectCall in provided {
          fired := fired + [RejectCall];
        } else {
          ok := false;
        }
      }
    }

    /** An offer handled with the stream `stream`: a new peer connection,
        then (when the stream exists) its tracks are attached and one answer
        is sent back. */
    method HandleOffer(stream: array?<Track>) returns (ok: bool)
      modifies this
      ensures peer == Open
      ensures ok <==> stream != null
      ensures sent == old(sent) + (if ok then [SendAnswer] else [])
      ensures fired == old(fired) && callStatus == old(callStatus)
      ensures localStream == old(localStream)
      ensures isMuted == old(isMuted) && isLocalVideoOn == old(isLocalVideoOn) && isRemoteVideoOn == old(isRemoteVideoOn)
    {
      peer := Open;
      if stream == null {
        return false;
      }
      sent := sent + [SendAnswer];
      ok := true;
    }

    /** The message handler reading the current local stream: with the
        camera granted, every offer is answered exactly once. */
    method OnMessageCurrentStream(msgType: string) returns (ok: bool)
      modifies this
      ensures RouteOf(msgType) == ToOffer ==> peer == Open && (ok <==> localStream != null)
      ensures RouteOf(msgType) == ToOffer ==> sent == old(sent) + (if localStream != null then [SendAnswer] else [])
      ensures RouteOf(msgType) in {ToAnswer, ToCandidate} ==> (ok <==> old(peer) != NoPeer) && peer == old(peer)
      ensures RouteOf(msgType) == ToRejectCallback ==>
        (ok <==> RejectCall in provided) && fired == old(fired) + IfProvided(RejectCall, provided) && peer == old(peer)
      ensures RouteOf(msgType) == Ignored ==> ok && peer == old(peer)
      ensures RouteOf(msgType) != ToRejectCallback ==> fired == old(fired)
      ensures RouteOf(msgType) != ToOffer ==> sent == old(sent)
      ensures callStatus == old(callStatus) && localStream == old(localStream)
      ensures isMuted == old(isMuted) && isLocalVideoOn == old(isLocalVideoOn) && isRemoteVideoOn == old(isRemoteVideoOn)
    {
      var route := RouteOf(msgType);
      if route == ToOffer {
        ok := HandleOffer(localStream);
      } else {
        ok := OnMessage(msgType);
      }
    }
  }

  /** An outgoing call ended from the end-call icon before any offer
      arrived: the handler throws, so the click neither notifies the parent
      nor closes the dialog. */
  method EndCallWhileCalling(callbacks: set<Callback>) returns (ok: bool, closed: bool)
    ensures !ok && !closed
  {
    var m := new VideoCallModal(false, callbacks);
    ok := m.HandleEndCall();
    closed := Close in m.fired;
  }

  /** The same click with the guarded handler closes the dialog. */
  method EndCallWhileCallingGuarded(callbacks: set<Callback>) returns (closed: bool, notified: bool)
    ensures closed
    ensures notified <==> EndCall in callbacks
  {
    var m := new VideoCallModal(false, callbacks);
    m.HandleEndCallGuarded();
    closed := Close in m.fired;
    notified := EndCall in m.fired;
  }

  /** An incoming call whose camera was granted still never answers an
      offer: nothing is sent. */
  method OfferAfterStreamIsNeverAnswered(tracks: seq<Track>) returns (ok: bool, answers: nat)
    ensures !ok && answers == 0
  {
    var m := new VideoCallModal(true, {});
    m.StartLocalStream(Some(tracks));
    ok := m.OnMessage("offer");
    answers := |m.sent|;
  }

  /** Reading the current stream, the same offer is answered once. */
  method OfferAfterStreamAnswered(tracks: seq<Track>) returns (ok: bool, sent: seq<Outbound>)
    ensures ok && sent == [SendAnswer]
  {
    var m := new VideoCallModal(true, {});
    m.StartLocalStream(Some(tracks));
    ok := m.OnMessageCurrentStream("offer");
    sent := m.sent;
  }
}
