/** The live-recording handlers of the page script (static/script.js:220-315)
    as a state machine. The browser delivers events one at a time: clicks on
    the two buttons, Socket.IO `connect`/`disconnect`, the server's
    `transcription-notes` and `error` messages, and the recorder's
    `dataavailable` and `stop`. The state is what the handlers read and write
    through the globals `socket` and `mediaRecorder`, the two buttons, and what
    they send: the audio frames (kept as a multiset of their sizes, since the
    `arrayBuffer().then` callbacks may complete in any order), the
    `stop-recording` signals and the calls to `socket.disconnect()`. */
module LiveRecording {
  import opened Wrappers

  datatype Live = Live(
    hasRecorder: bool,        // `mediaRecorder` is defined
    recording: bool,          // `mediaRecorder.state !== "inactive"`
    connected: bool,          // `socket.connected`
    startDisabled: bool,
    stopDisabled: bool,
    sentFrames: multiset<nat>,
    stopSignals: nat,
    disconnectCalls: nat,
    notesShown: seq<string>,
    serverErrors: seq<string>)

  datatype LiveEvent =
    | StartClick(supported: bool, micGranted: bool)   // :220-304
    | SocketConnected                                 // :237-242
    | SocketDisconnected                              // :244-248
    | NotesArrived(notes: Option<string>)             // :254-265
    | ServerError(message: string)                    // :267-273
    | DataAvailable(size: nat)                        // :275-282
    | RecorderStopped                                 // :285-291
    | StopClick                                       // :306-315

  /** The page before any click. */
  const Initial := Live(false, false, false, false, false, multiset{}, 0, 0, [], [])

  /** `socket.disconnect()` on a connected socket: the socket closes at once
      and its `disconnect` handler runs, re-enabling the start button. */
  function Disconnect(s: Live): Live
  {
    s.(connected := false, disconnectCalls := s.disconnectCalls + 1, startDisabled := false, stopDisabled := true)
  }

  /** What one handler does. */
  function Next(s: Live, e: LiveEvent): Live
  {
    match e
    case StartClick(supported, micGranted) =>
      // A new recorder (inactive) and a new, not yet connected socket.
      if !supported || !micGranted then s
      else s.(hasRecorder := true, recording := false, connected := false)
    case SocketConnected =>
      // `mediaRecorder.start` throws on a recorder that is already recording,
      // and the button updates after it are skipped.
      if s.recording then s.(connected := true)
      else s.(connected := true, recording := true, startDisabled := true, stopDisabled := false)
    case SocketDisconnected =>
      s.(connected := false, startDisabled := false, stopDisabled := true)
    case NotesArrived(notes) =>
      var s1 := if notes.Some? && |notes.value| > 0 then s.(notesShown := s.notesShown + [notes.value]) else s;
      if s1.connected then Disconnect(s1) else s1
    case ServerError(message) =>
      var s1 := s.(serverErrors := s.serverErrors + [message]);
      if s1.connected then Disconnect(s1) else s1
    case DataAvailable(size) =>
      if size > 0 && s.connected then s.(sentFrames := s.sentFrames + multiset{size}) else s
    case RecorderStopped =>
      if s.connected then s.(stopSignals := s.stopSignals + 1) else s
    case StopClick =>
      if s.hasRecorder && s.recording then s.(recording := false, startDisabled := false, stopDisabled := true)
      else s
  }

  function Run(s: Live, events: seq<LiveEvent>): Live
    decreases |events|
  {
    if |events| == 0 then s else Run(Next(s, events[0]), events[1..])
  }

  class LiveSession {
    var hasRecorder: bool
    var recording: bool
    var connected: bool
    var startDisabled: bool
    var stopDisabled: bool
    var sentFrames: multiset<nat>
    var stopSignals: nat
    var disconnectCalls: nat
    var notesShown: seq<string>
    var serverErrors: seq<string>

    function State(): Live
      reads this
    {
      Live(hasRecorder, recording, connected, startDisabled, stopDisabled,
           sentFrames, stopSignals, disconnectCalls, notesShown, serverErrors)
    }

    constructor ()
      ensures State() == Initial
    {
      hasRecorder, recording, connected := false, false, false;
      startDisabled, stopDisabled := false, false;
      sentFrames, stopSignals, disconnectCalls := multiset{}, 0, 0;
      notesShown, serverErrors := [], [];
    }

    /** The start button (static/script.js:220-304). */
    method OnStartClick(supported: bool, micGranted: bool)
      modifies this
      ensures State() == Next(old(State()), StartClick(supported, micGranted))
    {
      if !supported || !micGranted {
        return;
      }
      hasRecorder := true;
      recording := false;
      connected := false;
    }

    method OnConnect()
      modifies this
      ensures State() == Next(old(State()), SocketConnected)
    {
      connected := true;
      if recording {
        return;
      }
      recording := true;
      startDisabled := true;
      stopDisabled := false;
    }

    method OnDisconnect()
      modifies this
      ensures State() == Next(old(State()), SocketDisconnected)
    {
      connected := false;
      startDisabled := false;
      stopDisabled := true;
    }

    /** `socket.disconnect()` when connected. */
    method CloseIfConnected()
      modifies this
      ensures old(connected) ==> State() == Disconnect(old(State()))
      ensures !old(connected) ==> State() == old(State())
    {
      if connected {
        disconnectCalls := disconnectCalls + 1;
        OnDisconnect();
      }
    }

    method OnTranscriptionNotes(notes: Option<string>)
      modifies this
      ensures State() == Next(old(State()), NotesArrived(notes))
    {
      if notes.Some? && |notes.value| > 0 {
        notesShown := notesShown + [notes.value];
      }
      CloseIfConnected();
    }

    method OnServerError(message: string)
      modifies this
      ensures State() == Next(old(State()), ServerError(message))
    {
      serverErrors := serverErrors + [message];
      CloseIfConnected();
    }

    method OnDataAvailable(size: nat)
      modifies this
      ensures State() == Next(old(State()), DataAvailable(size))
    {
      if size > 0 && connected {
        sentFrames := sentFrames + multiset{size};
      }
    }

    method OnRecorderStop()
      modifies this
      ensures State() == Next(old(State()), RecorderStopped)
    {
      if connected {
        stopSignals := stopSignals + 1;
      }
    }

    method OnStopClick()
      modifies this
      ensures State() == Next(old(State()), StopClick)
    {
      if hasRecorder && recording {
        recording := false;
        startDisabled := false;
        stopDisabled := true;
      }
    }
  }

  // ---------------------------------------------------------------------------
  // The guards

  /** A frame is sent only when it is not empty and the socket is connected. */
  lemma FrameGuard(s: Live, size: nat)
    ensures var t := Next(s, DataAvailable(size));
            && (size > 0 && s.connected ==> t.sentFrames == s.sentFrames + multiset{size})
            && (size == 0 || !s.connected ==> t == s)
  {
  }

  /** `stop-recording` is sent only on a connected socket. */
  lemma StopSignalGuard(s: Live)
    ensures Next(s, RecorderStopped).stopSignals == s.stopSignals + (if s.connected then 1 else 0)
  {
  }

  /** On notes or an error from the server, `disconnect()` is called exactly
      when the socket is connected, and the socket is closed afterwards. */
  lemma DisconnectGuard(s: Live, e: LiveEvent)
    requires e.NotesArrived? || e.ServerError?
    ensures Next(s, e).disconnectCalls == s.disconnectCalls + (if s.connected then 1 else 0)
    ensures !Next(s, e).connected
  {
  }

  /** A stop click on a missing or inactive recorder changes nothing. */
  lemma InactiveStopClick(s: Live)
    requires !s.hasRecorder || !s.recording
    ensures Next(s, StopClick) == s
  {
  }

  // ---------------------------------------------------------------------------
  // Over any sequence of events

  function Connects(events: seq<LiveEvent>): nat
  {
    if |events| == 0 then 0 else (if events[0].SocketConnected? then 1 else 0) + Connects(events[1..])
  }

  function OpenCount(s: Live): nat
  {
    if s.connected then 1 else 0
  }

  /** Every handler keeps `disconnect()` calls plus an open socket within the
      number of connections made. */
  lemma {:induction false} DisconnectsBounded(s: Live, events: seq<LiveEvent>)
    ensures var t := Run(s, events);
            t.disconnectCalls + OpenCount(t) <= s.disconnectCalls + OpenCount(s) + Connects(events)
    decreases |events|
  {
    if |events| > 0 {
      DisconnectStep(s, events[0]);
      DisconnectsBounded(Next(s, events[0]), events[1..]);
    }
  }

  /** One handler closes at most what is open, and opens only on `connect`. */
  lemma DisconnectStep(s: Live, e: LiveEvent)
    ensures Next(s, e).disconnectCalls + OpenCount(Next(s, e))
         <= s.disconnectCalls + OpenCount(s) + (if e.SocketConnected? then 1 else 0)
  {
  }

  /** From the page's first state, `disconnect()` is called at most once per
      connection. */
  lemma DisconnectOncePerConnection(events: seq<LiveEvent>)
    ensures Run(Initial, events).disconnectCalls <= Connects(events)
  {
    DisconnectsBounded(Initial, events);
  }

  /** No empty frame is ever sent. */
  lemma {:induction false} FramesNeverEmpty(s: Live, events: seq<LiveEvent>)
    requires forall x | x in s.sentFrames :: x > 0
    ensures forall x | x in Run(s, events).sentFrames :: x > 0
    decreases |events|
  {
    if |events| > 0 {
      FramesNeverEmpty(Next(s, events[0]), events[1..]);
    }
  }

  /** Nothing is sent and nothing is closed before the socket has connected. */
  lemma {:induction false} NothingBeforeConnect(s: Live, events: seq<LiveEvent>)
    requires !s.connected
    requires forall i | 0 <= i < |events| :: !events[i].SocketConnected?
    ensures var t := Run(s, events);
            t.sentFrames == s.sentFrames && t.stopSignals == s.stopSignals && t.disconnectCalls == s.disconnectCalls
    decreases |events|
  {
    if |events| > 0 {
      NothingBeforeConnect(Next(s, events[0]), events[1..]);
    }
  }
}
