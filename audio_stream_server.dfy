/** The `/audio-stream` Socket.IO handlers of routes.py:58-118 and the table
    `audio_buffers` they share: one growing byte buffer per session id. The
    handlers run one at a time; what they send back with `emit` goes to the
    session that raised the event and is kept in a log.

    `Handle` says what one event does to the table and the log; the class
    `AudioBufferTable` updates its fields in place as the handlers do and is
    proved to follow `Handle`. */
module AudioStreamServer {
  import opened Wrappers
  import opened Transcripts

  newtype byte = x: int | 0 <= x < 256

  /** A Socket.IO session id, `request.sid`. */
  type Sid = string

  /** What an `audio-stream` event carries: `bytes`, `bytearray`, or anything
      else (text, a list, a dictionary). */
  datatype Payload = Bytes(data: seq<byte>) | ByteArray(data: seq<byte>) | Other

  /** What a handler emits. */
  datatype Emission =
    | TranscriptionNotes(transcription: string, notes: string)
    | Error(message: string)

  datatype Sent = Sent(to: Sid, emission: Emission)

  /** The foreign services behind `stop-recording`: cutting the saved audio into
      chunks and transcribing each (`split_audio` and Whisper), then generating
      notes from the combined transcription. A failure carries `str(e)`. */
  datatype Services = Services(
    transcribeChunks: seq<byte> -> Result<seq<string>, string>,
    generateNotes: string -> Result<string, string>)

  const NoAudioMessage := "No audio data available."

  /** The `try` block of routes.py:104-112 on the buffered bytes. */
  function Process(data: seq<byte>, services: Services): Emission
  {
    match services.transcribeChunks(data)
    case Failure(e) => Error(e)
    case Success(parts) =>
      var transcription := JoinWords(parts);
      match services.generateNotes(transcription)
      case Failure(e) => Error(e)
      case Success(notes) => TranscriptionNotes(transcription, notes)
  }

  /** `audio_buffer.write(data)` for a payload the handler accepts. */
  function Append(buffer: seq<byte>, p: Payload): seq<byte>
  {
    match p
    case Bytes(data) => buffer + data
    case ByteArray(data) => buffer + data
    case Other => buffer
  }

  datatype Event = Connect(sid: Sid) | Disconnect(sid: Sid) | Stream(sid: Sid, payload: Payload) | Stop(sid: Sid)

  datatype Server = Server(buffers: map<Sid, seq<byte>>, log: seq<Sent>)

  /** What one handler does. */
  function Handle(s: Server, e: Event, services: Services): Server
  {
    match e
    case Connect(sid) =>
      Server(s.buffers[sid := []], s.log)
    case Disconnect(sid) =>
      Server(s.buffers - {sid}, s.log)
    case Stream(sid, p) =>
      var buffer := if sid in s.buffers then s.buffers[sid] else [];
      Server(s.buffers[sid := Append(buffer, p)], s.log)
    case Stop(sid) =>
      if sid !in s.buffers then Server(s.buffers, s.log + [Sent(sid, Error(NoAudioMessage))])
      else Server(s.buffers - {sid}, s.log + [Sent(sid, Process(s.buffers[sid], services))])
  }

  function Run(s: Server, events: seq<Event>, services: Services): Server
    decreases |events|
  {
    if |events| == 0 then s else Run(Handle(s, events[0], services), events[1..], services)
  }

  class AudioBufferTable {
    var buffers: map<Sid, seq<byte>>
    var log: seq<Sent>

    function State(): Server
      reads this
    {
      Server(buffers, log)
    }

    constructor ()
      ensures buffers == map[] && log == []
    {
      buffers := map[];
      log := [];
    }

    /** `handle_audio_connect`: a fresh, empty buffer replaces any old one.
        Only the stop handler uses the services; the other handlers take them
        so that each one is stated against the same `Handle`. */
    method HandleConnect(sid: Sid, services: Services)
      modifies this
      ensures buffers == old(buffers)[sid := []] && log == old(log)
      ensures State() == Handle(old(State()), Connect(sid), services)
    {
      buffers := buffers[sid := []];
    }

    /** `handle_audio_disconnect`: the entry goes if there is one. */
    method HandleDisconnect(sid: Sid, services: Services)
      modifies this
      ensures buffers == old(buffers) - {sid} && log == old(log)
      ensures State() == Handle(old(State()), Disconnect(sid), services)
    {
      if sid in buffers {
        buffers := buffers - {sid};
      }
    }

    /** `handle_audio_stream`: a missing buffer is created, then bytes are
        appended; any other payload leaves the buffer as it was. */
    method HandleAudioStream(sid: Sid, data: Payload, services: Services)
      modifies this
      ensures sid in buffers && log == old(log)
      ensures buffers == old(buffers)[sid := Append(if sid in old(buffers) then old(buffers)[sid] else [], data)]
      ensures State() == Handle(old(State()), Stream(sid, data), services)
    {
      if sid !in buffers {
        buffers := buffers[sid := []];
      }
      var buffer := buffers[sid];
      if data.Bytes? || data.ByteArray? {
        buffers := buffers[sid := buffer + data.data];
      }
    }

    /** `process_audio_buffer`: without a buffer, one error; with one, the
        buffered bytes are processed, exactly one emission reports the outcome,
        and the entry goes on both paths. */
    method ProcessAudioBuffer(sid: Sid, services: Services)
      modifies this
      ensures sid !in old(buffers) ==> buffers == old(buffers) && log == old(log) + [Sent(sid, Error(NoAudioMessage))]
      ensures sid in old(buffers) ==>
                buffers == old(buffers) - {sid} && log == old(log) + [Sent(sid, Process(old(buffers)[sid], services))]
      ensures State() == Handle(old(State()), Stop(sid), services)
    {
      if sid !in buffers {
        log := log + [Sent(sid, Error(NoAudioMessage))];
        return;
      }
      var data := buffers[sid];
      var emission;
      match services.transcribeChunks(data) {
        case Failure(e) =>
          emission := Error(e);
        case Success(parts) =>
          var transcription := JoinWords(parts);
          match services.generateNotes(transcription) {
            case Failure(e) => emission := Error(e);
            case Success(notes) => emission := TranscriptionNotes(transcription, notes);
          }
      }
      log := log + [Sent(sid, emission)];
      buffers := buffers - {sid};
    }
  }

  // ---------------------------------------------------------------------------
  // Properties of the handlers

  /** Connect gives the session an empty buffer and touches no other session. */
  lemma ConnectInstallsEmpty(s: Server, sid: Sid, services: Services)
    ensures var t := Handle(s, Connect(sid), services);
            && t.buffers[sid] == []
            && t.log == s.log
            && forall other | other != sid :: (other in t.buffers <==> other in s.buffers)
                                                && (other in s.buffers ==> t.buffers[other] == s.buffers[other])
  {
  }

  /** Disconnect without a buffer changes nothing. */
  lemma DisconnectWithoutBuffer(s: Server, sid: Sid, services: Services)
    requires sid !in s.buffers
    ensures Handle(s, Disconnect(sid), services) == s
  {
    assert s.buffers - {sid} == s.buffers;
  }

  /** A stream event appends the bytes it carries at the end of the session's
      buffer, and only bytes. */
  lemma StreamAppends(s: Server, sid: Sid, p: Payload, services: Services)
    ensures var t := Handle(s, Stream(sid, p), services);
            var before := if sid in s.buffers then s.buffers[sid] else [];
            && sid in t.buffers && t.log == s.log
            && (p.Other? ==> t.buffers[sid] == before)
            && (!p.Other? ==> t.buffers[sid] == before + p.data)
  {
  }

  /** Stop without a buffer emits the one error and leaves the table alone. */
  lemma StopWithoutBuffer(s: Server, sid: Sid, services: Services)
    requires sid !in s.buffers
    ensures var t := Handle(s, Stop(sid), services);
            && t.buffers == s.buffers
            && t.log == s.log + [Sent(sid, Error("No audio data available."))]
  {
  }

  /** Stop with a buffer emits exactly one event, `transcription-notes` or
      `error`, and removes the session's entry whichever it was. */
  lemma StopWithBuffer(s: Server, sid: Sid, services: Services)
    requires sid in s.buffers
    ensures var t := Handle(s, Stop(sid), services);
            && sid !in t.buffers
            && |t.log| == |s.log| + 1 && t.log[..|s.log|] == s.log
            && t.log[|s.log|].to == sid
            && (t.log[|s.log|].emission.TranscriptionNotes? <==>
                  services.transcribeChunks(s.buffers[sid]).Success?
                  && services.generateNotes(JoinWords(services.transcribeChunks(s.buffers[sid]).value)).Success?)
  {
  }

  /** A second stop in a row finds no buffer. */
  lemma SecondStopFindsNoBuffer(s: Server, sid: Sid, services: Services)
    ensures var t := Handle(Handle(s, Stop(sid), services), Stop(sid), services);
            t.log[|t.log| - 1] == Sent(sid, Error(NoAudioMessage))
  {
  }

  /** The bytes the stream events of `sid` in `events` carry, in arrival order. */
  function Received(events: seq<Event>, sid: Sid): seq<byte>
  {
    if |events| == 0 then []
    else
      var e := events[0];
      var mine := if e.Stream? && e.sid == sid then Append([], e.payload) else [];
      mine + Received(events[1..], sid)
  }

  /** The events that start or end a session's buffer. */
  predicate Resets(e: Event, sid: Sid)
  {
    (e.Connect? || e.Disconnect? || e.Stop?) && e.sid == sid
  }

  /** Between two resets, the session's buffer grows by exactly the bytes its
      own stream events carry, in arrival order, whatever other sessions do. */
  lemma {:induction false} BufferCollectsStream(s: Server, events: seq<Event>, sid: Sid, services: Services)
    requires sid in s.buffers
    requires forall i | 0 <= i < |events| :: !Resets(events[i], sid)
    ensures var t := Run(s, events, services);
            sid in t.buffers && t.buffers[sid] == s.buffers[sid] + Received(events, sid)
    decreases |events|
  {
    if |events| == 0 {
      assert s.buffers[sid] + [] == s.buffers[sid];
    } else {
      var e, rest := events[0], events[1..];
      var s1 := Handle(s, e, services);
      var mine := if e.Stream? && e.sid == sid then Append([], e.payload) else [];
      CollectStep(s, e, sid, services);
      NoResetsInTail(events, sid);
      BufferCollectsStream(s1, rest, sid, services);
      assert Run(s, events, services) == Run(s1, rest, services);
      assert Received(events, sid) == mine + Received(rest, sid);
      BytesAssoc(s.buffers[sid], mine, Received(rest, sid));
    }
  }

  lemma NoResetsInTail(events: seq<Event>, sid: Sid)
    requires |events| > 0 && forall i | 0 <= i < |events| :: !Resets(events[i], sid)
    ensures !Resets(events[0], sid) && forall i | 0 <= i < |events[1..]| :: !Resets(events[1..][i], sid)
  {
    forall i | 0 <= i < |events[1..]| ensures !Resets(events[1..][i], sid) {
      assert events[1..][i] == events[i + 1];
    }
  }

  lemma BytesAssoc(a: seq<byte>, b: seq<byte>, c: seq<byte>)
    ensures a + b + c == a + (b + c)
  {
  }

  /** One event that does not reset the session's buffer adds to it what the
      event carries for the session. */
  lemma CollectStep(s: Server, e: Event, sid: Sid, services: Services)
    requires sid in s.buffers && !Resets(e, sid)
    ensures var t := Handle(s, e, services);
            sid in t.buffers && t.buffers[sid] == s.buffers[sid] + (if e.Stream? && e.sid == sid then Append([], e.payload) else [])
  {
    if e.Stream? && e.sid == sid {
      StreamAppends(s, sid, e.payload, services);
    } else {
      assert s.buffers[sid] + [] == s.buffers[sid];
    }
  }

  /** A recording session: after connect, the stop that ends it processes
      exactly the bytes streamed for the session since the connect. */
  lemma StopProcessesSession(s: Server, sid: Sid, events: seq<Event>, services: Services)
    requires forall i | 0 <= i < |events| :: !Resets(events[i], sid)
    ensures var t := Run(s, [Connect(sid)] + events + [Stop(sid)], services);
            |t.log| > 0 && t.log[|t.log| - 1] == Sent(sid, Process(Received(events, sid), services))
            && sid !in t.buffers
  {
    var s1 := Handle(s, Connect(sid), services);
    BufferCollectsStream(s1, events, sid, services);
    RunAppend(s, [Connect(sid)], events, services);
    RunAppend(s, [Connect(sid)] + events, [Stop(sid)], services);
    assert [] + Received(events, sid) == Received(events, sid);
  }

  lemma {:induction false} RunAppend(s: Server, a: seq<Event>, b: seq<Event>, services: Services)
    ensures Run(s, a + b, services) == Run(Run(s, a, services), b, services)
    decreases |a|
  {
    if |a| > 0 {
      assert (a + b)[1..] == a[1..] + b;
      RunAppend(Handle(s, a[0], services), a[1..], b, services);
    } else {
      assert a + b == b;
    }
  }
}
