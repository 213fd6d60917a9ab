/** The Asterisk ARI WebSocket serializer: raw G.711 mu-law bytes in both
    directions (no envelope), a per-call session record, and a hang-up through
    the ARI REST interface when the call ends. Every operation is a pure
    function from the old session to the new one. */
module Asterisk {
  import opened Wrappers
  import opened Frames
  import opened CallControl

  /** Filter state of one streaming resampler. The serializer only threads it
      from one call of the codec to the next; it never looks inside. */
  datatype ResamplerState = ResamplerState(history: seq<int>)

  /** One codec call: the converted bytes (the library may return `None`) and
      the resampler state to use for the next chunk. */
  datatype Conversion = Conversion(data: Option<Bytes>, next: ResamplerState)

  /** How `json.loads` classifies a text message. */
  datatype JsonShape = Malformed | JsonObject | NotAnObject

  /** The library calls the serializer makes, as uninterpreted functions:
      `pcm_to_ulaw` and `ulaw_to_pcm` take (bytes, from rate, to rate, state). */
  datatype Library = Library(
    pcmToUlaw: (Bytes, int, int, ResamplerState) -> Conversion,
    ulawToPcm: (Bytes, int, int, ResamplerState) -> Conversion,
    parseJson: string -> JsonShape)

  datatype InputParams = InputParams(asteriskSampleRate: int, sampleRate: Option<int>, autoHangUp: bool)

  /** `AsteriskFrameSerializer.InputParams()`: 8 kHz mu-law, no rate override, hang up on end. */
  const DefaultParams := InputParams(8000, None, true)

  datatype Session = Session(
    channelId: string,
    ariEndpoint: string,
    appName: string,
    appPassword: string,
    params: InputParams,
    asteriskSampleRate: int,
    /** The pipeline's input rate; 0 until `Setup`. */
    sampleRate: int,
    inputResampler: ResamplerState,
    outputResampler: ResamplerState,
    hangupAttempted: bool)

  /** A message on the Asterisk media WebSocket. */
  datatype WireMessage = Binary(data: Bytes) | Text(text: string)

  /** Result of `serialize`: the next session, the bytes to send (if any), and
      whether this call issued the hang-up. */
  datatype Serialized = Serialized(session: Session, output: Option<Bytes>, hangUpRequested: bool)

  datatype Deserialized = Deserialized(session: Session, frame: Option<Frame>)

  /** The exception `deserialize` lets escape: valid JSON that is not an
      object has no `.get`. */
  datatype Uncaught = AttributeError

  /** The constructor. `initial` is the state `create_stream_resampler()` returns. */
  function New(channelId: string, ariEndpoint: string, appName: string, appPassword: string,
               params: Option<InputParams>, initial: ResamplerState): (s: Session)
    ensures params.Some? ==> s.params == params.value
    ensures params.None? ==> s.params == DefaultParams
    ensures s.asteriskSampleRate == s.params.asteriskSampleRate
    ensures params.None? ==> s.asteriskSampleRate == 8000 && s.params.autoHangUp
    ensures s.sampleRate == 0 && !s.hangupAttempted
    ensures s.inputResampler == initial && s.outputResampler == initial
    ensures s.channelId == channelId && s.ariEndpoint == ariEndpoint
    ensures s.appName == appName && s.appPassword == appPassword
  {
    var p := params.GetOr(DefaultParams);
    Session(channelId, ariEndpoint, appName, appPassword, p, p.asteriskSampleRate, 0, initial, initial, false)
  }

  /** The pipeline rate `setup` records: the override when it is truthy,
      otherwise the StartFrame's input rate. */
  function PipelineRate(params: InputParams, audioInSampleRate: int): int {
    if params.sampleRate.Some? && params.sampleRate.value != 0 then params.sampleRate.value
    else audioInSampleRate
  }

  function Setup(s: Session, audioInSampleRate: int): (r: Session)
    ensures r.sampleRate == PipelineRate(s.params, audioInSampleRate)
    ensures s.params.sampleRate.None? ==> r.sampleRate == audioInSampleRate
    ensures s.params.sampleRate == Some(0) ==> r.sampleRate == audioInSampleRate
    ensures r == s.(sampleRate := r.sampleRate)
  {
    s.(sampleRate := PipelineRate(s.params, audioInSampleRate))
  }

  /** The first branch of `serialize`: auto hang-up on, not yet attempted, and a terminal frame. */
  predicate TriggersHangUp(s: Session, frame: Frame) {
    s.params.autoHangUp && !s.hangupAttempted && IsTerminal(frame)
  }

  /** Non-empty converted bytes, or nothing. */
  function NonEmpty(data: Option<Bytes>): (r: Option<Bytes>)
    ensures r.Some? <==> data.Some? && |data.value| > 0
    ensures r.Some? ==> r == data
  {
    if data.Some? && |data.value| > 0 then data else None
  }

  function Serialize(lib: Library, s: Session, frame: Frame): (r: Serialized)
    // hang-up: requested exactly when the guard holds; the flag is set and never cleared
    ensures r.hangUpRequested <==> TriggersHangUp(s, frame)
    ensures r.session.hangupAttempted == (s.hangupAttempted || r.hangUpRequested)
    // payload: only audio, only when the conversion produced bytes, sent as-is
    ensures r.output.Some? ==> frame.Audio?
    ensures !frame.Audio? ==> r.output.None? && r.session == s.(hangupAttempted := r.session.hangupAttempted)
    ensures frame.Audio? ==>
      var c := lib.pcmToUlaw(frame.audio, frame.sampleRate, s.asteriskSampleRate, s.outputResampler);
      && (r.output.Some? <==> c.data.Some? && |c.data.value| > 0)
      && (r.output.Some? ==> r.output == c.data)
      && r.session == s.(outputResampler := c.next)
  {
    if TriggersHangUp(s, frame) then
      Serialized(s.(hangupAttempted := true), None, true)
    else
      match frame
      case Interruption => Serialized(s, None, false)
      case Audio(audio, rate, _) =>
        var c := lib.pcmToUlaw(audio, rate, s.asteriskSampleRate, s.outputResampler);
        Serialized(s.(outputResampler := c.next), NonEmpty(c.data), false)
      case _ => Serialized(s, None, false)
  }

  function Deserialize(lib: Library, s: Session, message: WireMessage): (r: Result<Deserialized, Uncaught>)
    ensures message.Text? ==> (r.Err? <==> lib.parseJson(message.text) == NotAnObject)
    ensures message.Text? && r.Ok? ==> r.value == Deserialized(s, None)
    ensures message.Binary? ==>
      var c := lib.ulawToPcm(message.data, s.asteriskSampleRate, s.sampleRate, s.inputResampler);
      && r.Ok?
      && r.value.session == s.(inputResampler := c.next)
      && (r.value.frame.Some? <==> c.data.Some? && |c.data.value| > 0)
      && (r.value.frame.Some? ==> r.value.frame == Some(Audio(c.data.value, s.sampleRate, 1)))
  {
    match message
    case Binary(data) =>
      var c := lib.ulawToPcm(data, s.asteriskSampleRate, s.sampleRate, s.inputResampler);
      var pcm := NonEmpty(c.data);
      var frame := if pcm.Some? then Some(Audio(pcm.value, s.sampleRate, 1)) else None;
      Ok(Deserialized(s.(inputResampler := c.next), frame))
    case Text(text) =>
      match lib.parseJson(text)
      case Malformed => Ok(Deserialized(s, None))
      case JsonObject => Ok(Deserialized(s, None))
      case NotAnObject => Err(AttributeError)
  }

  /** The DELETE request `_hang_up_call` would send, or none when an identifier is missing. */
  function HangUpRequest(s: Session): (r: Option<HttpRequest>)
    ensures r.Some? <==> |s.channelId| > 0 && |s.ariEndpoint| > 0
    ensures r.Some? ==> r.value.verb == Delete
    ensures r.Some? ==> r.value.auth == BasicAuth(s.appName, s.appPassword)
    ensures r.Some? ==> r.value.url == s.ariEndpoint + "/ari/channels/" + s.channelId
  {
    if |s.channelId| == 0 || |s.ariEndpoint| == 0 then None
    else Some(HttpRequest(Delete, s.ariEndpoint + "/ari/channels/" + s.channelId,
                          BasicAuth(s.appName, s.appPassword)))
  }

  /** Status classification of the ARI reply. */
  function Classify(status: int): (r: Outcome)
    ensures r == Terminated <==> status == 200 || status == 204
    ensures r == AlreadyTerminated <==> status == 404
    ensures r.IsError() <==> status !in {200, 204, 404}
    ensures r.IsError() ==> r == Rejected(status)
  {
    if status == 200 || status == 204 then Terminated
    else if status == 404 then AlreadyTerminated
    else Rejected(status)
  }

  /** `_hang_up_call` end to end: every failure is a logged outcome, never an exception. */
  function HangUp(s: Session, reply: Reply): (r: Outcome)
    ensures HangUpRequest(s).None? <==> r == NotSent
    ensures HangUpRequest(s).Some? && reply.Raised? ==> r == Failed
    ensures HangUpRequest(s).Some? && reply.Status? ==> r == Classify(reply.code)
  {
    Settle(HangUpRequest(s), reply, Classify)
  }

  /** One thing that can happen to a session after construction. */
  datatype Event = SetUp(audioInSampleRate: int) | Outbound(frame: Frame) | Inbound(message: WireMessage)

  datatype Trace = Trace(session: Session, outputs: seq<Option<Bytes>>, hangUps: nat)

  /** Replays events against a session, counting the hang-ups issued. An inbound
      message that raises leaves the session as it was (the text path changes nothing). */
  function Replay(lib: Library, s: Session, events: seq<Event>): Trace
    decreases |events|
  {
    if |events| == 0 then Trace(s, [], 0)
    else
      match events[0]
      case SetUp(rate) => Replay(lib, Setup(s, rate), events[1..])
      case Inbound(message) =>
        var next := match Deserialize(lib, s, message)
          case Ok(d) => d.session
          case Err(_) => s;
        Replay(lib, next, events[1..])
      case Outbound(frame) =>
        var step := Serialize(lib, s, frame);
        var rest := Replay(lib, step.session, events[1..]);
        Trace(rest.session, [step.output] + rest.outputs,
              rest.hangUps + if step.hangUpRequested then 1 else 0)
  }

  predicate HasTerminal(events: seq<Event>) {
    exists i :: 0 <= i < |events| && events[i].Outbound? && IsTerminal(events[i].frame)
  }

  /** At most one hang-up per session, whatever the mix and number of End and
      Cancel frames; exactly one when auto hang-up is on, none was attempted
      before, and some terminal frame goes out. */
  lemma {:induction false} HangUpAtMostOnce(lib: Library, s: Session, events: seq<Event>)
    ensures var t := Replay(lib, s, events);
      && t.hangUps <= (if s.hangupAttempted then 0 else 1)
      && (t.hangUps == 1 <==> s.params.autoHangUp && !s.hangupAttempted && HasTerminal(events))
      && t.session.params == s.params
      && t.session.hangupAttempted == (s.hangupAttempted || t.hangUps == 1)
    decreases |events|
  {
    if |events| > 0 {
      var tail := events[1..];
      assert HasTerminal(events) <==>
        (events[0].Outbound? && IsTerminal(events[0].frame)) || HasTerminal(tail) by {
        if HasTerminal(tail) {
          var i :| 0 <= i < |tail| && tail[i].Outbound? && IsTerminal(tail[i].frame);
          assert events[i + 1] == tail[i];
        }
        if HasTerminal(events) {
          var i :| 0 <= i < |events| && events[i].Outbound? && IsTerminal(events[i].frame);
          if i > 0 { assert tail[i - 1] == events[i]; }
        }
      }
      match events[0]
      case SetUp(rate) => HangUpAtMostOnce(lib, Setup(s, rate), tail);
      case Inbound(message) =>
        var next := match Deserialize(lib, s, message)
          case Ok(d) => d.session
          case Err(_) => s;
        HangUpAtMostOnce(lib, next, tail);
      case Outbound(frame) =>
        HangUpAtMostOnce(lib, Serialize(lib, s, frame).session, tail);
    }
  }

  /** With auto hang-up off, no sequence of events ever issues a hang-up. */
  lemma NoAutoHangUpNeverHangsUp(lib: Library, s: Session, events: seq<Event>)
    requires !s.params.autoHangUp
    ensures Replay(lib, s, events).hangUps == 0
  {
    HangUpAtMostOnce(lib, s, events);
  }

  /** After setup, inbound audio carries the rate setup chose and one channel. */
  lemma DecodedAudioUsesPipelineRate(lib: Library, s: Session, rate: int, data: Bytes)
    ensures var r := Deserialize(lib, Setup(s, rate), Binary(data));
      r.Ok? && r.value.frame.Some? ==>
        r.value.frame.value.Audio? &&
        r.value.frame.value.sampleRate == PipelineRate(s.params, rate) &&
        r.value.frame.value.numChannels == 1
  {
  }

  /** Sending audio touches only the output resampler and receiving only the
      input one: the two directions never share state. */
  lemma DirectionsIndependent(lib: Library, s: Session, frame: Frame, message: WireMessage)
    ensures Serialize(lib, s, frame).session.inputResampler == s.inputResampler
    ensures var r := Deserialize(lib, s, message);
      r.Ok? ==> r.value.session.outputResampler == s.outputResampler &&
                r.value.session.hangupAttempted == s.hangupAttempted
  {
  }
}
