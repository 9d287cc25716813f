/** The audio-call dialog: a four-state call status driven by one action
    button, a mute flag, and the callbacks it hands to its parent. */
module AudioCall {

  datatype Status = Incoming | Calling | Ringing | Ongoing

  /** The parent callbacks the dialog invokes. */
  datatype Callback = ToggleMic | EndCall | Close | AnswerCall | StartCall

  /** The callbacks that act on the call itself, as opposed to the microphone
      or the dialog. */
  predicate IsCallCallback(c: Callback)
  {
    c == EndCall || c == AnswerCall || c == StartCall
  }

  /** How many call callbacks a sequence of invocations holds. */
  function CallCount(fired: seq<Callback>): nat
  {
    if fired == [] then 0
    else (if IsCallCallback(fired[0]) then 1 else 0) + CallCount(fired[1..])
  }

  lemma {:induction false} CallCountConcat(a: seq<Callback>, b: seq<Callback>)
    ensures CallCount(a + b) == CallCount(a) + CallCount(b)
  {
    if a != [] {
      assert (a + b)[1..] == a[1..] + b;
      CallCountConcat(a[1..], b);
    } else {
      assert a + b == b;
    }
  }

  /** The status the dialog opens in. */
  function InitialStatus(isIncomingCall: bool): (s: Status)
    ensures s == Incoming || s == Calling
    ensures s == Incoming <==> isIncomingCall
  {
    if isIncomingCall then Incoming else Calling
  }

  /** The outcome of one press of the action button: the next status and the
      callbacks fired, in order. */
  datatype Step = Step(next: Status, fired: seq<Callback>)

  /** One press of the call-action button. Every press fires exactly one call
      callback; only a press during an ongoing call closes the dialog, and
      that is the one press that keeps the status. */
  function Action(s: Status): (r: Step)
    ensures CallCount(r.fired) == 1
    ensures Close in r.fired <==> s == Ongoing
    ensures r.next == s <==> s == Ongoing
    ensures ToggleMic !in r.fired
    ensures r.next == Ongoing <==> s != Incoming
    ensures r.next == Ringing <==> s == Incoming
    ensures r.fired == [AnswerCall] <==> s == Incoming
    ensures r.fired == [StartCall] <==> s == Ringing || s == Calling
    ensures r.fired == [EndCall, Close] <==> s == Ongoing
  {
    match s
    case Ongoing => Step(Ongoing, [EndCall, Close])
    case Incoming => Step(Ringing, [AnswerCall])
    case Ringing => Step(Ongoing, [StartCall])
    case Calling => Step(Ongoing, [StartCall])
  }

  /** `n` presses of the action button in a row. */
  function Run(s: Status, n: nat): Step
    decreases n
  {
    if n == 0 then Step(s, [])
    else
      var first := Action(s);
      var rest := Run(first.next, n - 1);
      Step(rest.next, first.fired + rest.fired)
  }

  /** Each of `n` presses fires exactly one call callback. */
  lemma {:induction false} OneCallCallbackPerPress(s: Status, n: nat)
    ensures CallCount(Run(s, n).fired) == n
    decreases n
  {
    if n > 0 {
      var first := Action(s);
      var rest := Run(first.next, n - 1);
      assert Run(s, n).fired == first.fired + rest.fired;
      OneCallCallbackPerPress(first.next, n - 1);
      CallCountConcat(first.fired, rest.fired);
    }
  }

  /** An ongoing call stays ongoing however often the button is pressed, and
      each press ends the call and closes the dialog. */
  lemma {:induction false} OngoingIsAbsorbing(n: nat)
    ensures Run(Ongoing, n).next == Ongoing
    ensures |Run(Ongoing, n).fired| == 2 * n
    ensures forall i :: 0 <= i < n ==> Run(Ongoing, n).fired[2 * i] == EndCall && Run(Ongoing, n).fired[2 * i + 1] == Close
  {
    if n > 0 {
      OngoingIsAbsorbing(n - 1);
      var rest := Run(Ongoing, n - 1);
      var all := Run(Ongoing, n).fired;
      assert all == [EndCall, Close] + rest.fired;
      forall i | 1 <= i < n ensures all[2 * i] == EndCall && all[2 * i + 1] == Close {
        assert all[2 * i] == rest.fired[2 * (i - 1)];
        assert all[2 * i + 1] == rest.fired[2 * (i - 1) + 1];
      }
    }
  }

  /** Whatever the dialog opened in, two presses reach an ongoing call and
      it stays there. */
  lemma OngoingAfterTwoPresses(isIncomingCall: bool, n: nat)
    requires n >= 2
    ensures Run(InitialStatus(isIncomingCall), n).next == Ongoing
  {
    var s := InitialStatus(isIncomingCall);
    var after2 := Action(Action(s).next).next;
    assert after2 == Ongoing;
    OngoingIsAbsorbing(n - 2);
    assert Run(s, n).next == Run(after2, n - 2).next by {
      assert Run(s, n).next == Run(Action(s).next, n - 1).next;
      assert Run(Action(s).next, n - 1).next == Run(after2, n - 2).next;
    }
  }

  /** The status line. */
  function Label(s: Status): string
  {
    if s == Incoming then "Incoming Call..."
    else if s == Ringing then "Ringing..."
    else if s == Calling then "Calling..."
    else "Ongoing Call"
  }

  /** Every status has its own line. */
  lemma LabelsDistinct(s: Status, t: Status)
    requires s != t
    ensures Label(s) != Label(t)
  {
  }

  /** The add-user control is offered only during an ongoing call, the one
      status in which the action button ends the call. */
  predicate ShowsAddUser(s: Status)
  {
    s == Ongoing
  }

  lemma AddUserOnlyWhileOngoing(s: Status)
    ensures ShowsAddUser(s) <==> EndCall in Action(s).fired
  {
  }

  /** The round action button shows the green call icon while incoming or
      ringing and the red hang-up icon otherwise. */
  predicate ShowsAnswerIcon(s: Status)
  {
    s == Incoming || s == Ringing
  }

  /** While calling, the button shows the hang-up icon, yet pressing it
      starts the call. */
  lemma HangUpIconStartsWhileCalling()
    ensures !ShowsAnswerIcon(Calling) && Action(Calling).fired == [StartCall]
  {
  }

  class AudioCallModal {
    var callStatus: Status
    var isMuted: bool
    /** The parent callbacks invoked so far, in order. */
    var fired: seq<Callback>

    constructor (isIncomingCall: bool)
      ensures callStatus == InitialStatus(isIncomingCall)
      ensures !isMuted && fired == []
    {
      callStatus := if isIncomingCall then Incoming else Calling;
      isMuted := false;
      fired := [];
    }

    /** Negates the mute flag and calls `onToggleMic` once; two toggles
        restore the flag. */
    method HandleMicToggle()
      modifies this
      ensures isMuted == !old(isMuted)
      ensures callStatus == old(callStatus)
      ensures fired == old(fired) + [ToggleMic]
    {
      isMuted := !isMuted;
      fired := fired + [ToggleMic];
    }

    method HandleCallAction()
      modifies this
      ensures callStatus == Action(old(callStatus)).next
      ensures fired == old(fired) + Action(old(callStatus)).fired
      ensures isMuted == old(isMuted)
    {
      if callStatus == Ongoing {
        fired := fired + [EndCall];
        fired := fired + [Close];
        return;
      }
      if callStatus == Incoming {
        callStatus := Ringing;
        fired := fired + [AnswerCall];
      } else if callStatus == Ringing || callStatus == Calling {
        callStatus := Ongoing;
        fired := fired + [StartCall];
      }
    }
  }
}
