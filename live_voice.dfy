/**
 * The playback side of the live-voice demo (components/demos/LiveVoice.tsx): the `onmessage`
 * handler that schedules each inbound audio chunk gaplessly on the output clock and stops all
 * playing chunks on an interrupt, the `ended` listener of each chunk, and `disconnect`.
 *
 * The playback state is specified by the value `Player` and its transition functions; the
 * component class `LiveVoiceComponent` keeps the same state in fields (the refs `nextStartTimeRef`
 * and `sourcesRef`) and is proved to follow those functions.  Clock readings (`currentTime`) are
 * inputs; starting and stopping a source are recorded in a log instead of being performed.
 */
module LiveVoice {

  import opened Wrappers
  import opened TypedArrays
  import Base64
  import opened LiveVoiceCodec

  // ---------------------------------------------------------------- inbound messages

  /** The parts of a `LiveServerMessage` the handler looks at; every level may be absent. */
  datatype InlineData = InlineData(data: Option<string>)
  datatype Part = Part(inlineData: Option<InlineData>)
  datatype ModelTurn = ModelTurn(parts: Option<seq<Part>>)
  datatype ServerContent = ServerContent(modelTurn: Option<ModelTurn>, interrupted: Option<bool>)
  datatype ServerMessage = ServerMessage(serverContent: Option<ServerContent>)

  /**
   * `message.serverContent?.modelTurn?.parts?.[0]?.inlineData?.data`, kept only when truthy: a
   * missing level, an empty `parts` list and the empty string all give `None`.
   */
  function AudioPayload(message: ServerMessage): (r: Option<string>)
    ensures r.Some? ==> r.value != []
    ensures r.Some? ==> message.serverContent.Some? && message.serverContent.value.modelTurn.Some?
    ensures r.Some? ==> var parts := message.serverContent.value.modelTurn.value.parts;
      parts.Some? && |parts.value| > 0 && parts.value[0].inlineData == Some(InlineData(r))
    ensures message.serverContent.Some? && message.serverContent.value.modelTurn.Some? ==>
      var parts := message.serverContent.value.modelTurn.value.parts;
      parts.Some? && |parts.value| > 0 && parts.value[0].inlineData.Some?
      && parts.value[0].inlineData.value.data.Some? && parts.value[0].inlineData.value.data.value != [] ==>
      r == parts.value[0].inlineData.value.data
  {
    match message.serverContent
    case None => None
    case Some(content) =>
      match content.modelTurn
      case None => None
      case Some(turn) =>
        match turn.parts
        case None => None
        case Some(parts) =>
          if parts == [] then None
          else
            match parts[0].inlineData
            case None => None
            case Some(inline) =>
              match inline.data
              case None => None
              case Some(data) => if data == [] then None else Some(data)
  }

  /** Whether `message.serverContent?.interrupted` is truthy. */
  predicate Interrupted(message: ServerMessage): (b: bool)
    ensures message.serverContent.None? ==> !b
    ensures message.serverContent.Some? ==> (b <==> message.serverContent.value.interrupted == Some(true))
  {
    message.serverContent.Some? && message.serverContent.value.interrupted == Some(true)
  }

  // ---------------------------------------------------------------- playback state

  /** A scheduled `AudioBufferSourceNode`: its identity, start time and duration in seconds. */
  datatype Source = Source(id: nat, start: real, duration: real) {
    function End(): real { start + duration }
  }

  /** The effects on sources the handler performs: `source.start(t)` and `source.stop()`. */
  datatype PlayEvent = Started(source: Source) | Stopped(source: Source)

  /**
   * The playback state: the cursor `nextStartTimeRef.current`, the active set `sourcesRef.current`
   * in insertion order (the iteration order of a JavaScript `Set`), the identity the next source
   * gets, and the start/stop effects performed so far.
   */
  datatype Player = Player(cursor: real, active: seq<Source>, nextId: nat, log: seq<PlayEvent>)

  function Max(a: real, b: real): (r: real)
    ensures r >= a && r >= b && (r == a || r == b)
  {
    if a >= b then a else b
  }

  /** `a` plays wholly before `b` starts, and was created before it. */
  predicate Before(a: Source, b: Source) {
    a.End() <= b.start && a.id < b.id
  }

  /** The active sources are in creation order and none overlaps a later one. */
  predicate Ordered(s: seq<Source>) {
    forall i, j :: 0 <= i < j < |s| ==> Before(s[i], s[j])
  }

  /**
   * The scheduling invariant: active sources have positive durations, do not overlap, carry
   * identities below the next one, and all end by the cursor, so a chunk placed at the cursor
   * overlaps none of them.
   */
  ghost predicate ValidPlayer(p: Player) {
    && Ordered(p.active)
    && forall i :: 0 <= i < |p.active| ==>
         p.active[i].duration > 0.0 && p.active[i].id < p.nextId && p.active[i].End() <= p.cursor
  }

  /** The state before any message: cursor 0, no sources. */
  function InitialPlayer(): (p: Player)
    ensures ValidPlayer(p) && p.active == [] && p.log == []
  {
    Player(0.0, [], 0, [])
  }

  /**
   * Lines 92 and 101-111 for a chunk that decoded to a buffer of `duration` seconds: move the cursor
   * up to the clock, start the source at the cursor, advance the cursor by the duration and add the
   * source to the active set.
   */
  function Enqueue(p: Player, now: real, duration: real): (r: Player)
    requires duration > 0.0
    ensures |r.active| == |p.active| + 1 && r.active[..|p.active|] == p.active
    ensures var s := r.active[|p.active|];
      && s.id == p.nextId && s.duration == duration
      && s.start >= now && s.start >= p.cursor && (s.start == now || s.start == p.cursor)
      && r.cursor == s.End() && r.nextId == p.nextId + 1 && r.log == p.log + [Started(s)]
  {
    var start := Max(p.cursor, now);
    var source := Source(p.nextId, start, duration);
    Player(start + duration, p.active + [source], p.nextId + 1, p.log + [Started(source)])
  }

  /**
   * Lines 89-115 for a truthy payload `audio`: the cursor is moved up to the clock before decoding;
   * a chunk that fails to decode (its error is caught) adds nothing else.
   */
  function ReceiveAudio(p: Player, now: real, audio: string): (r: Player)
    ensures ChunkDuration(audio).None? ==> r == p.(cursor := Max(p.cursor, now))
    ensures ChunkDuration(audio).Some? ==> r == Enqueue(p, now, ChunkDuration(audio).value)
  {
    match ChunkDuration(audio)
    case None => p.(cursor := Max(p.cursor, now))
    case Some(d) => Enqueue(p, now, d)
  }

  /** One `Stopped` effect per source, in the order given. */
  function StopAll(sources: seq<Source>): (r: seq<PlayEvent>)
    ensures |r| == |sources|
    ensures forall i :: 0 <= i < |sources| ==> r[i] == Stopped(sources[i])
  {
    seq(|sources|, i requires 0 <= i < |sources| => Stopped(sources[i]))
  }

  /** Lines 117-121: stop every active source, clear the set and put the cursor back to 0. */
  function Interrupt(p: Player): (r: Player)
    ensures r.active == [] && r.cursor == 0.0 && r.nextId == p.nextId
    ensures r.log == p.log + StopAll(p.active)
  {
    Player(0.0, [], p.nextId, p.log + StopAll(p.active))
  }

  /** The whole `onmessage` handler: the audio part first, then the interrupt part. */
  function HandleMessage(p: Player, now: real, message: ServerMessage): (r: Player)
    ensures r.nextId >= p.nextId && p.log <= r.log
    ensures Interrupted(message) ==> r.active == [] && r.cursor == 0.0
    ensures !Interrupted(message) ==> p.active <= r.active && |r.active| <= |p.active| + 1
    ensures AudioPayload(message).None? && !Interrupted(message) ==> r == p
  {
    var afterAudio := match AudioPayload(message)
      case None => p
      case Some(audio) => ReceiveAudio(p, now, audio);
    if Interrupted(message) then Interrupt(afterAudio) else afterAudio
  }

  /** `Set.prototype.delete` by identity: keep every source except the one with identity `id`. */
  function Remove(s: seq<Source>, id: nat): (r: seq<Source>)
    ensures forall x :: x in r <==> x in s && x.id != id
    ensures |r| <= |s|
  {
    if s == [] then []
    else (if s[0].id == id then [] else [s[0]]) + Remove(s[1..], id)
  }

  /** Lines 105-107: the `ended` listener of source `id` deletes it from the active set. */
  function HandleEnded(p: Player, id: nat): (r: Player)
    ensures r.cursor == p.cursor && r.nextId == p.nextId && r.log == p.log
  {
    p.(active := Remove(p.active, id))
  }

  // ---------------------------------------------------------------- scheduling properties

  /**
   * While the cursor is still ahead of the clock when the next chunk arrives, the next chunk
   * starts exactly where the previous one ends: no gap and no overlap.
   */
  lemma BackToBack(p: Player, now1: real, d1: real, now2: real, d2: real)
    requires d1 > 0.0 && d2 > 0.0
    requires now2 <= Enqueue(p, now1, d1).cursor
    ensures var q := Enqueue(p, now1, d1);
      Enqueue(q, now2, d2).active[|q.active|].start == q.active[|p.active|].End()
  {
  }

  /** After an interrupt, the next chunk starts exactly at the clock reading when it arrives. */
  lemma InterruptThenChunk(p: Player, now: real, d: real)
    requires now >= 0.0 && d > 0.0
    ensures Enqueue(Interrupt(p), now, d).active == [Source(p.nextId, now, d)]
  {
  }

  /**
   * A message carrying both audio and `interrupted` schedules its chunk first and then stops it
   * together with every other active source, leaving nothing active and the cursor at 0.
   */
  lemma AudioThenInterrupt(p: Player, now: real, message: ServerMessage)
    requires AudioPayload(message).Some? && Interrupted(message)
    requires ChunkDuration(AudioPayload(message).value).Some?
    ensures var d := ChunkDuration(AudioPayload(message).value).value;
      var s := Source(p.nextId, Max(p.cursor, now), d);
      var q := HandleMessage(p, now, message);
      q.active == [] && q.cursor == 0.0 && q.nextId == p.nextId + 1
      && q.log == p.log + [Started(s)] + StopAll(p.active) + [Stopped(s)]
  {
    var d := ChunkDuration(AudioPayload(message).value).value;
    var s := Source(p.nextId, Max(p.cursor, now), d);
    assert StopAll(p.active + [s]) == StopAll(p.active) + [Stopped(s)];
  }

  /**
   * A chunk that fails to decode leaves the active set, the identities and the effects as they
   * were; its only trace is the cursor moved up to the clock.  An odd byte count is such a chunk.
   */
  lemma DecodeFailureOnlyAdvancesCursor(p: Player, now: real, bytes: seq<byte>)
    requires |bytes| % 2 == 1
    ensures var q := ReceiveAudio(p, now, Base64.Encode(bytes));
      q.active == p.active && q.nextId == p.nextId && q.log == p.log && q.cursor == Max(p.cursor, now)
  {
    OddBytesFail(bytes);
  }

  /**
   * Three chunks of 0.5 s, 0.3 s and 0.2 s arriving at clock readings 0.0, 0.1 and 0.2 play back to
   * back at 0.0, 0.5 and 0.8; an interrupt after them lets a chunk arriving at 1.5 start at 1.5.
   */
  lemma ThreeChunksThenInterrupt(p1: Player, p2: Player, p3: Player)
    requires p1 == Enqueue(Player(0.0, [], 0, []), 0.0, 0.5)
    requires p2 == Enqueue(p1, 0.1, 0.3)
    requires p3 == Enqueue(p2, 0.2, 0.2)
    ensures p3.active == [Source(0, 0.0, 0.5), Source(1, 0.5, 0.3), Source(2, 0.8, 0.2)] && p3.cursor == 1.0
    ensures Enqueue(Interrupt(p3), 1.5, 0.4).active == [Source(3, 1.5, 0.4)]
  {
    var s0, s1, s2 := Source(0, 0.0, 0.5), Source(1, 0.5, 0.3), Source(2, 0.8, 0.2);
    assert Max(0.0, 0.0) == 0.0;
    assert p1 == Player(0.5, [s0], 1, [Started(s0)]);
    assert Max(0.5, 0.1) == 0.5;
    assert p2 == Player(0.8, [s0, s1], 2, [Started(s0), Started(s1)]);
    assert Max(0.8, 0.2) == 0.8;
    assert p3 == Player(1.0, [s0, s1, s2], 3, [Started(s0), Started(s1), Started(s2)]);
    assert Max(0.0, 1.5) == 1.5;
  }

  // ---------------------------------------------------------------- the `ended` listener

  predicate DistinctIds(s: seq<Source>) {
    forall i, j :: 0 <= i < j < |s| ==> s[i].id != s[j].id
  }

  /** Deleting an identity that is not in the set changes nothing (the late `ended` after a clear). */
  lemma {:induction false} RemoveAbsent(s: seq<Source>, id: nat)
    requires forall i :: 0 <= i < |s| ==> s[i].id != id
    ensures Remove(s, id) == s
  {
    if s != [] {
      RemoveAbsent(s[1..], id);
    }
  }

  /** The `ended` event of an active source removes exactly that source, keeping the others in order. */
  lemma {:induction false} RemoveExactlyOne(s: seq<Source>, k: nat)
    requires k < |s| && DistinctIds(s)
    ensures Remove(s, s[k].id) == s[..k] + s[k + 1..]
  {
    if k == 0 {
      RemoveAbsent(s[1..], s[0].id);
      assert s[..0] + s[1..] == s[1..];
    } else {
      var tail := s[1..];
      assert DistinctIds(tail);
      assert tail[k - 1] == s[k];
      RemoveExactlyOne(tail, k - 1);
      RemoveKeepsHead(s, s[k].id);
      SpliceCons(s, k);
    }
  }

  lemma RemoveKeepsHead(s: seq<Source>, id: nat)
    requires s != [] && s[0].id != id
    ensures Remove(s, id) == [s[0]] + Remove(s[1..], id)
  {
  }

  lemma SpliceCons<T>(s: seq<T>, k: nat)
    requires 0 < k < |s|
    ensures [s[0]] + (s[1..][..k - 1] + s[1..][k..]) == s[..k] + s[k + 1..]
  {
    assert s[1..][..k - 1] == s[1..k];
    assert s[1..][k..] == s[k + 1..];
    assert [s[0]] + s[1..k] == s[..k];
  }

  /** Deleting keeps the remaining sources in creation order without overlap. */
  lemma {:induction false} RemoveOrdered(s: seq<Source>, id: nat)
    requires Ordered(s)
    ensures Ordered(Remove(s, id))
  {
    if s != [] {
      RemoveOrdered(s[1..], id);
      var rest := Remove(s[1..], id);
      forall x | x in rest ensures Before(s[0], x) {
        var k :| 0 <= k < |s[1..]| && s[1..][k] == x;
        assert s[k + 1] == x;
      }
    }
  }

  lemma OrderedDistinct(s: seq<Source>)
    requires Ordered(s)
    ensures DistinctIds(s)
  {
  }

  lemma OnEndedExactlyOne(p: Player, k: nat)
    requires ValidPlayer(p) && k < |p.active|
    ensures HandleEnded(p, p.active[k].id).active == p.active[..k] + p.active[k + 1..]
  {
    OrderedDistinct(p.active);
    RemoveExactlyOne(p.active, k);
  }

  // ---------------------------------------------------------------- the invariant over a run

  /** What can happen to the playback state: a message at a clock reading, or a source ending. */
  datatype Event = Message(message: ServerMessage, now: real) | Ended(id: nat)

  function Step(p: Player, e: Event): (r: Player)
    ensures r.nextId >= p.nextId && p.log <= r.log
    ensures e.Ended? ==> r.log == p.log && r.cursor == p.cursor && |r.active| <= |p.active|
  {
    match e
    case Message(message, now) => HandleMessage(p, now, message)
    case Ended(id) => HandleEnded(p, id)
  }

  function Run(p: Player, events: seq<Event>): (r: Player)
    ensures r.nextId >= p.nextId && p.log <= r.log
    decreases |events|
  {
    if events == [] then p else Run(Step(p, events[0]), events[1..])
  }

  lemma EnqueueValid(p: Player, now: real, d: real)
    requires ValidPlayer(p) && d > 0.0
    ensures ValidPlayer(Enqueue(p, now, d))
  {
    var q := Enqueue(p, now, d);
    var s := q.active[|p.active|];
    forall i, j | 0 <= i < j < |q.active| ensures Before(q.active[i], q.active[j]) {
      if j == |p.active| {
        assert q.active[i] == p.active[i];
      } else {
        assert q.active[i] == p.active[i] && q.active[j] == p.active[j];
      }
    }
    forall i | 0 <= i < |q.active|
      ensures q.active[i].duration > 0.0 && q.active[i].id < q.nextId && q.active[i].End() <= q.cursor
    {
      if i < |p.active| {
        assert q.active[i] == p.active[i];
      }
    }
  }

  lemma OnMessageValid(p: Player, now: real, message: ServerMessage)
    requires ValidPlayer(p)
    ensures ValidPlayer(HandleMessage(p, now, message))
  {
    match AudioPayload(message)
    case None =>
    case Some(audio) =>
      match ChunkDuration(audio)
      case None =>
      case Some(d) => EnqueueValid(p, now, d);
  }

  lemma OnEndedValid(p: Player, id: nat)
    requires ValidPlayer(p)
    ensures ValidPlayer(HandleEnded(p, id))
  {
    RemoveOrdered(p.active, id);
  }

  /**
   * From the initial state (or any state meeting it), every sequence of messages and `ended`
   * events keeps the scheduling invariant, never reuses an identity and only appends effects.
   */
  lemma {:induction false} RunValid(p: Player, events: seq<Event>)
    requires ValidPlayer(p)
    ensures ValidPlayer(Run(p, events))
    ensures Run(p, events).nextId >= p.nextId
    ensures p.log <= Run(p, events).log
    decreases |events|
  {
    if events != [] {
      var q := Step(p, events[0]);
      match events[0] {
        case Message(message, now) => OnMessageValid(p, now, message);
        case Ended(id) => OnEndedValid(p, id);
      }
      RunValid(q, events[1..]);
    }
  }

  // ---------------------------------------------------------------- the component

  /** An opaque handle held in a ref: the live session, the microphone stream, the output context. */
  datatype Handle = Handle(id: nat)

  /** The teardown calls `disconnect` makes on the handles it finds. */
  datatype Teardown = CloseSession(session: Handle) | StopTracks(stream: Handle) | CloseContext(context: Handle)

  /** The teardown calls for the handles present, in the order `disconnect` makes them. */
  function TeardownOf(session: Option<Handle>, stream: Option<Handle>, context: Option<Handle>): (r: seq<Teardown>)
    ensures |r| == (if session.Some? then 1 else 0) + (if stream.Some? then 1 else 0) + (if context.Some? then 1 else 0)
    ensures r == [] <==> session.None? && stream.None? && context.None?
    ensures session.Some? ==> r[0] == CloseSession(session.value)
    ensures context.Some? ==> r[|r| - 1] == CloseContext(context.value)
  {
    (if session.Some? then [CloseSession(session.value)] else [])
    + (if stream.Some? then [StopTracks(stream.value)] else [])
    + (if context.Some? then [CloseContext(context.value)] else [])
  }

  /** A teardown call is made for a handle exactly when that handle is present. */
  lemma TeardownOfMembers(session: Option<Handle>, stream: Option<Handle>, context: Option<Handle>, h: Handle)
    ensures CloseSession(h) in TeardownOf(session, stream, context) <==> session == Some(h)
    ensures StopTracks(h) in TeardownOf(session, stream, context) <==> stream == Some(h)
    ensures CloseContext(h) in TeardownOf(session, stream, context) <==> context == Some(h)
  {
  }

  /**
   * `decodeAudioData(decode(audio), ctx, 24000, 1)` and the duration of the buffer it returns,
   * or `None` where either step throws.
   */
  method DecodeChunk(audio: string) returns (duration: Option<real>)
    ensures duration == ChunkDuration(audio)
  {
    var bytes := Decode(audio);
    if bytes.None? {
      return None;
    }
    var buffer := DecodeAudioData(bytes.value, OutputSampleRate, OutputChannels);
    if buffer.None? {
      return None;
    }
    duration := Some(buffer.value.Duration());
  }

  const ConnectionErrorText: string := "Connection error occurred."
  const ConnectFailedText: string := "Failed to access microphone or connect."

  class LiveVoiceComponent {
    var connected: bool
    var status: string
    var error: Option<string>
    var session: Option<Handle>
    var stream: Option<Handle>
    var audioContext: Option<Handle>
    var nextStartTime: real
    var sources: seq<Source>
    var nextSourceId: nat
    var playLog: seq<PlayEvent>
    var teardownLog: seq<Teardown>

    /** The playback state held in the refs. */
    function Playback(): Player
      reads this
    {
      Player(nextStartTime, sources, nextSourceId, playLog)
    }

    ghost predicate Valid()
      reads this
    {
      ValidPlayer(Playback())
    }

    /** Mounting: disconnected, no handles, cursor 0 and no sources. */
    constructor()
      ensures Valid()
      ensures !connected && status == "Disconnected" && error.None?
      ensures session.None? && stream.None? && audioContext.None?
      ensures Playback() == InitialPlayer() && teardownLog == []
    {
      connected := false;
      status := "Disconnected";
      error := None;
      session := None;
      stream := None;
      audioContext := None;
      nextStartTime := 0.0;
      sources := [];
      nextSourceId := 0;
      playLog := [];
      teardownLog := [];
    }

    /** The `onmessage` callback at clock reading `now`; only the playback state changes. */
    method OnMessage(message: ServerMessage, now: real)
      modifies this
      ensures Playback() == HandleMessage(old(Playback()), now, message)
      ensures old(Valid()) ==> Valid()
      ensures connected == old(connected) && status == old(status) && error == old(error)
      ensures session == old(session) && stream == old(stream) && audioContext == old(audioContext)
      ensures teardownLog == old(teardownLog)
    {
      ghost var p := Playback();
      var base64Audio := AudioPayload(message);
      if base64Audio.Some? {
        ReceiveChunk(base64Audio.value, now);
      }
      if Interrupted(message) {
        StopAllSources();
      }
      if ValidPlayer(p) {
        OnMessageValid(p, now, message);
      }
    }

    /** Lines 90-114 of the handler, for the truthy payload `audio`. */
    method ReceiveChunk(audio: string, now: real)
      modifies this
      ensures Playback() == ReceiveAudio(old(Playback()), now, audio)
      ensures connected == old(connected) && status == old(status) && error == old(error)
      ensures session == old(session) && stream == old(stream) && audioContext == old(audioContext)
      ensures teardownLog == old(teardownLog)
    {
      nextStartTime := Max(nextStartTime, now);
      var duration := DecodeChunk(audio);
      if duration.Some? {
        var source := Source(nextSourceId, nextStartTime, duration.value);
        nextSourceId := nextSourceId + 1;
        playLog := playLog + [Started(source)];
        nextStartTime := nextStartTime + duration.value;
        sources := sources + [source];
      }
    }

    /** Lines 117-121: stop each active source in order, clear the set and reset the cursor. */
    method StopAllSources()
      modifies this
      ensures Playback() == Interrupt(old(Playback()))
      ensures connected == old(connected) && status == old(status) && error == old(error)
      ensures session == old(session) && stream == old(stream) && audioContext == old(audioContext)
      ensures teardownLog == old(teardownLog)
    {
      var log := playLog;
      var i := 0;
      while i < |sources|
        invariant 0 <= i <= |sources|
        invariant log == playLog + StopAll(sources[..i])
      {
        assert StopAll(sources[..i + 1]) == StopAll(sources[..i]) + [Stopped(sources[i])];
        log := log + [Stopped(sources[i])];
        i := i + 1;
      }
      assert sources[..i] == sources;
      playLog := log;
      sources := [];
      nextStartTime := 0.0;
    }

    /** The `ended` listener of source `id`. */
    method OnEnded(id: nat)
      modifies this
      ensures Playback() == HandleEnded(old(Playback()), id)
      ensures old(Valid()) ==> Valid()
      ensures connected == old(connected) && status == old(status) && error == old(error)
      ensures session == old(session) && stream == old(stream) && audioContext == old(audioContext)
      ensures teardownLog == old(teardownLog)
    {
      ghost var p := Playback();
      sources := Remove(sources, id);
      if ValidPlayer(p) {
        OnEndedValid(p, id);
      }
    }

    /**
     * `disconnect`: close and drop each handle present, then report disconnected.  The cursor and
     * the active sources are left as they are.
     */
    method Disconnect()
      modifies this
      ensures session.None? && stream.None? && audioContext.None?
      ensures !connected && status == "Disconnected" && error == old(error)
      ensures teardownLog == old(teardownLog) + TeardownOf(old(session), old(stream), old(audioContext))
      ensures Playback() == old(Playback())
    {
      if session.Some? {
        teardownLog := teardownLog + [CloseSession(session.value)];
        session := None;
      }
      if stream.Some? {
        teardownLog := teardownLog + [StopTracks(stream.value)];
        stream := None;
      }
      if audioContext.Some? {
        teardownLog := teardownLog + [CloseContext(audioContext.value)];
        audioContext := None;
      }
      connected := false;
      status := "Disconnected";
    }

    /**
     * `connect` up to its first await: clear the error, report initialising, and keep the new
     * output context in its ref (before the microphone is asked for).
     */
    method BeginConnect(context: Handle)
      modifies this
      ensures error.None? && status == "Initializing Audio..." && audioContext == Some(context)
      ensures connected == old(connected) && session == old(session) && stream == old(stream)
      ensures teardownLog == old(teardownLog) && Playback() == old(Playback())
    {
      error := None;
      status := "Initializing Audio...";
      audioContext := Some(context);
    }

    /** `connect` once the microphone stream `mic` is granted. */
    method MediaReady(mic: Handle)
      modifies this
      ensures stream == Some(mic) && status == "Connecting to Gemini..."
      ensures connected == old(connected) && error == old(error) && session == old(session)
      ensures audioContext == old(audioContext)
      ensures teardownLog == old(teardownLog) && Playback() == old(Playback())
    {
      stream := Some(mic);
      status := "Connecting to Gemini...";
    }

    /** The session promise resolves: keep the session so `disconnect` can close it. */
    method SessionResolved(s: Handle)
      modifies this
      ensures session == Some(s)
      ensures connected == old(connected) && status == old(status) && error == old(error)
      ensures stream == old(stream) && audioContext == old(audioContext)
      ensures teardownLog == old(teardownLog) && Playback() == old(Playback())
    {
      session := Some(s);
    }

    /** The `onopen` callback (the capture pipeline it wires up is not modelled). */
    method OnOpen()
      modifies this
      ensures connected && status == "Connected! Speak now."
      ensures error == old(error) && session == old(session) && stream == old(stream)
      ensures audioContext == old(audioContext) && teardownLog == old(teardownLog)
      ensures Playback() == old(Playback())
    {
      status := "Connected! Speak now.";
      connected := true;
    }

    /** The `onclose` callback: report disconnected without touching the handles. */
    method OnClose()
      modifies this
      ensures !connected && status == "Disconnected"
      ensures error == old(error) && session == old(session) && stream == old(stream)
      ensures audioContext == old(audioContext) && teardownLog == old(teardownLog)
      ensures Playback() == old(Playback())
    {
      status := "Disconnected";
      connected := false;
    }

    /** The `onerror` callback: record the error, then disconnect. */
    method OnError()
      modifies this
      ensures error == Some(ConnectionErrorText)
      ensures session.None? && stream.None? && audioContext.None? && !connected && status == "Disconnected"
      ensures teardownLog == old(teardownLog) + TeardownOf(old(session), old(stream), old(audioContext))
      ensures Playback() == old(Playback())
    {
      error := Some(ConnectionErrorText);
      Disconnect();
    }

    /** The `catch` of `connect`: record the failure, then disconnect. */
    method ConnectFailed()
      modifies this
      ensures error == Some(ConnectFailedText)
      ensures session.None? && stream.None? && audioContext.None? && !connected && status == "Disconnected"
      ensures teardownLog == old(teardownLog) + TeardownOf(old(session), old(stream), old(audioContext))
      ensures Playback() == old(Playback())
    {
      error := Some(ConnectFailedText);
      Disconnect();
    }
  }

  /** A second `disconnect` finds no handle and so makes no teardown call. */
  lemma DisconnectIdempotent(c: LiveVoiceComponent)
    requires c.session.None? && c.stream.None? && c.audioContext.None?
    ensures TeardownOf(c.session, c.stream, c.audioContext) == []
  {
  }

  /** `disconnect` twice in a row has exactly the effect of one call. */
  method DisconnectTwice(c: LiveVoiceComponent)
    modifies c
    ensures c.session.None? && c.stream.None? && c.audioContext.None?
    ensures !c.connected && c.status == "Disconnected" && c.error == old(c.error)
    ensures c.teardownLog == old(c.teardownLog) + TeardownOf(old(c.session), old(c.stream), old(c.audioContext))
    ensures c.Playback() == old(c.Playback())
  {
    c.Disconnect();
    DisconnectIdempotent(c);
    c.Disconnect();
  }

  /**
   * `connect` whose microphone request is refused: the output context was already kept before
   * the await, so the `catch` closes it, and it is the only teardown call.
   */
  method RefusedMicrophone(context: Handle) returns (log: seq<Teardown>, error: Option<string>, connected: bool)
    ensures log == [CloseContext(context)]
    ensures error == Some(ConnectFailedText) && !connected
  {
    var c := new LiveVoiceComponent();
    c.BeginConnect(context);
    c.ConnectFailed();
    log, error, connected := c.teardownLog, c.error, c.connected;
  }
}
