/**
 * Whole sessions: the player driven by a sequence of callbacks, in the order
 * the HTTP client and the owner deliver them, and what can be said about all
 * the effects of such a sequence.
 */
module HttpTsSession {
  import opened SockErrors
  import opened HttpTsModel

  /** One invocation of the player by the HTTP client or by its owner. */
  datatype Call =
    | Header(status: string, header: Headers)
    | Body(data: seq<byte>, recvedSize: nat, totalSize: nat)
    | ResponseCompleted
    | Disconnect(ex: SockException)
    | SetOnComplete(registered: bool)
    | SetOnPacket(registered: bool)

  /**
   * A body call never presents an empty first chunk (the player reads its
   * first byte when the status is accepted). Sessions ask this of every body
   * call, whatever the status, so that it does not depend on the state.
   */
  predicate CallOk(c: Call) {
    c.Body? ==> (IsFirstChunk(c.data, c.recvedSize) ==> |c.data| > 0)
  }

  predicate CallsOk(calls: seq<Call>) {
    forall i :: 0 <= i < |calls| ==> CallOk(calls[i])
  }

  function Step(p: PlayerState, c: Call): Outcome
    requires CallOk(c)
  {
    match c
    case Header(status, header) =>
      var h := OnResponseHeader(p, status, header);
      Outcome(h.next, h.effects)
    case Body(data, recvedSize, totalSize) => OnResponseBody(p, data, recvedSize, totalSize)
    case ResponseCompleted => OnResponseCompleted(p)
    case Disconnect(ex) => OnDisconnect(p, ex)
    case SetOnComplete(registered) => Outcome(p.(hasOnComplete := registered), [])
    case SetOnPacket(registered) => Outcome(p.(hasOnPacket := registered), [])
  }

  /** The final state and the effects, in order, of delivering `calls` to a player in state `p`. */
  function Run(p: PlayerState, calls: seq<Call>): Outcome
    requires CallsOk(calls)
    decreases |calls|
  {
    if calls == [] then Outcome(p, [])
    else
      var first := Step(p, calls[0]);
      var rest := Run(first.next, calls[1..]);
      Outcome(rest.next, first.effects + rest.effects)
  }

  /** The data of the body calls, in order. */
  function BodyChunks(calls: seq<Call>): seq<seq<byte>> {
    if calls == [] then []
    else (if calls[0].Body? then [calls[0].data] else []) + BodyChunks(calls[1..])
  }

  /** The number of calls that end the response: end of body or disconnect. */
  function TerminalCalls(calls: seq<Call>): nat {
    if calls == [] then 0
    else (if calls[0].ResponseCompleted? || calls[0].Disconnect? then 1 else 0) + TerminalCalls(calls[1..])
  }

  predicate IsSyncFirstChunk(c: Call) {
    c.Body? && IsFirstChunk(c.data, c.recvedSize) && |c.data| > 0 && c.data[0] == TS_SYNC_BYTE
  }

  predicate NoHeader(calls: seq<Call>) {
    forall i :: 0 <= i < |calls| ==> !calls[i].Header?
  }

  predicate NoSinkChange(calls: seq<Call>) {
    forall i :: 0 <= i < |calls| ==> !calls[i].SetOnPacket? && !calls[i].SetOnComplete?
  }

  predicate NoPacketSinkChange(calls: seq<Call>) {
    forall i :: 0 <= i < |calls| ==> !calls[i].SetOnPacket?
  }

  predicate NoCompletionSinkChange(calls: seq<Call>) {
    forall i :: 0 <= i < |calls| ==> !calls[i].SetOnComplete?
  }

  /** The segmentation mode chosen at construction is never changed by any callback. */
  lemma {:induction false} SplitTsNeverChanges(p: PlayerState, calls: seq<Call>)
    requires CallsOk(calls)
    ensures Run(p, calls).next.splitTs == p.splitTs
    decreases |calls|
  {
    if calls != [] {
      SplitTsNeverChanges(Step(p, calls[0]).next, calls[1..]);
    }
  }

  /** One callback other than a header, delivered after a rejected status. */
  lemma RejectedStep(p: PlayerState, c: Call)
    requires CallOk(c) && !c.Header?
    requires !StatusAccepted(p.status)
    ensures var r := Step(p, c);
      && r.next == p.(hasOnComplete := r.next.hasOnComplete, hasOnPacket := r.next.hasOnPacket)
      && Packets(r.effects) == []
      && SegmentInputs(r.effects) == []
      && Shutdowns(r.effects) == []
      && WarningCount(r.effects) == 0
  {
  }

  /** One callback other than a header or a sink change, delivered after an accepted status. */
  lemma AcceptedStep(p: PlayerState, c: Call)
    requires CallOk(c) && !c.Header? && !c.SetOnPacket? && !c.SetOnComplete?
    requires StatusAccepted(p.status)
    ensures var r := Step(p, c);
      && SegmentInputs(r.effects) == (if p.splitTs && c.Body? then [c.data] else [])
      && Packets(r.effects) == (if !p.splitTs && p.hasOnPacket && c.Body? then [c.data] else [])
      && r.next == p.(isFirstPacketTs := r.next.isFirstPacketTs)
  {
  }

  /**
   * Once a rejected status is stored and no new header arrives, the player
   * forwards nothing, warns about nothing and keeps its fields except for
   * the sink registrations.
   */
  lemma {:induction false} RejectedStatusForwardsNothing(p: PlayerState, calls: seq<Call>)
    requires CallsOk(calls) && NoHeader(calls)
    requires !StatusAccepted(p.status)
    ensures var r := Run(p, calls);
      && r.next == p.(hasOnComplete := r.next.hasOnComplete, hasOnPacket := r.next.hasOnPacket)
      && Packets(r.effects) == []
      && SegmentInputs(r.effects) == []
      && Shutdowns(r.effects) == []
      && WarningCount(r.effects) == 0
    decreases |calls|
  {
    if calls != [] {
      var first := Step(p, calls[0]);
      RejectedStep(p, calls[0]);
      RejectedStatusForwardsNothing(first.next, calls[1..]);
      ProjectionsConcat(first.effects, Run(first.next, calls[1..]).effects);
    }
  }

  /**
   * A response with a status other than 200 or 206 asks the client to shut
   * down once, with the status in the reason, and no later body chunk
   * reaches the segmenter or is passed directly to `onPacket`.
   */
  lemma RejectedResponse(p: PlayerState, status: string, header: Headers, rest: seq<Call>)
    requires CallsOk(rest) && NoHeader(rest)
    requires !StatusAccepted(status)
    ensures var r := Run(p, [Header(status, header)] + rest);
      && Shutdowns(r.effects) == [BadStatus(status)]
      && Packets(r.effects) == []
      && SegmentInputs(r.effects) == []
      && r.next.status == status
      && r.next.isTsContent == p.isTsContent
      && r.next.isFirstPacketTs == p.isFirstPacketTs
  {
    var calls := [Header(status, header)] + rest;
    assert calls[0] == Header(status, header) && calls[1..] == rest;
    var first := Step(p, calls[0]);
    RejectedStatusForwardsNothing(first.next, rest);
    ProjectionsConcat(first.effects, Run(first.next, rest).effects);
  }

  /**
   * With an accepted status, every body chunk is forwarded once, unchanged
   * and in order: to the segmenter in split mode, otherwise to the packet
   * sink when one is registered; never to both.
   */
  lemma {:induction false} AcceptedChunksForwardedInOrder(p: PlayerState, calls: seq<Call>)
    requires CallsOk(calls) && NoHeader(calls) && NoSinkChange(calls)
    requires StatusAccepted(p.status)
    ensures var r := Run(p, calls);
      && SegmentInputs(r.effects) == (if p.splitTs then BodyChunks(calls) else [])
      && Packets(r.effects) == (if !p.splitTs && p.hasOnPacket then BodyChunks(calls) else [])
      && r.next == p.(isFirstPacketTs := r.next.isFirstPacketTs)
    decreases |calls|
  {
    if calls != [] {
      var first := Step(p, calls[0]);
      AcceptedStep(p, calls[0]);
      AcceptedChunksForwardedInOrder(first.next, calls[1..]);
      ProjectionsConcat(first.effects, Run(first.next, calls[1..]).effects);
    }
  }

  /**
   * One callback other than a packet-sink change, delivered in split mode
   * and in pass-through mode to otherwise equal players with a packet sink:
   * the segmenter's input in one is the direct `onPacket` delivery in the
   * other, and the players stay equal apart from the mode.
   */
  lemma SplitAndPassThroughStep(p: PlayerState, c: Call)
    requires CallOk(c) && !c.SetOnPacket?
    requires p.hasOnPacket
    ensures var t := Step(p.(splitTs := true), c);
      var f := Step(p.(splitTs := false), c);
      && SegmentInputs(t.effects) == Packets(f.effects)
      && t.next == f.next.(splitTs := true)
      && f.next == t.next.(splitTs := false)
      && f.next.hasOnPacket
  {
    if c.Body? {
      BodyEffects(p.(splitTs := true), c.data, c.recvedSize, c.totalSize);
      BodyEffects(p.(splitTs := false), c.data, c.recvedSize, c.totalSize);
    }
  }

  /**
   * Split mode and pass-through mode hand the same bytes downstream over a
   * whole session, headers included, as long as a packet sink stays
   * registered: the segmenter's inputs in one are the direct `onPacket`
   * deliveries in the other, and the two players end in the same state
   * apart from the mode.
   */
  lemma {:induction false} SplitAndPassThroughForwardSameBytes(p: PlayerState, calls: seq<Call>)
    requires CallsOk(calls) && NoPacketSinkChange(calls)
    requires p.hasOnPacket
    ensures SegmentInputs(Run(p.(splitTs := true), calls).effects)
         == Packets(Run(p.(splitTs := false), calls).effects)
    ensures Run(p.(splitTs := true), calls).next == Run(p.(splitTs := false), calls).next.(splitTs := true)
    decreases |calls|
  {
    if calls != [] {
      var t := Step(p.(splitTs := true), calls[0]);
      var f := Step(p.(splitTs := false), calls[0]);
      SplitAndPassThroughStep(p, calls[0]);
      assert t.next == f.next.(splitTs := true) && f.next == f.next.(splitTs := false);
      SplitAndPassThroughForwardSameBytes(f.next, calls[1..]);
      SegmentInputsConcat(t.effects, Run(t.next, calls[1..]).effects);
      PacketsConcat(f.effects, Run(f.next, calls[1..]).effects);
    }
  }

  /**
   * isFirstPacketTs is only ever set by a first body chunk that starts with
   * the sync byte.
   */
  lemma {:induction false} FirstPacketTsNeedsSyncByte(p: PlayerState, calls: seq<Call>)
    requires CallsOk(calls)
    ensures Run(p, calls).next.isFirstPacketTs ==>
      p.isFirstPacketTs || exists i :: 0 <= i < |calls| && IsSyncFirstChunk(calls[i])
    decreases |calls|
  {
    if calls != [] {
      var first := Step(p, calls[0]);
      FirstPacketTsNeedsSyncByte(first.next, calls[1..]);
      if first.next.isFirstPacketTs && !p.isFirstPacketTs {
        assert IsSyncFirstChunk(calls[0]);
      }
      if exists i :: 0 <= i < |calls[1..]| && IsSyncFirstChunk(calls[1..][i]) {
        var i :| 0 <= i < |calls[1..]| && IsSyncFirstChunk(calls[1..][i]);
        assert IsSyncFirstChunk(calls[i + 1]);
      }
    }
  }

  /** Once set, `isFirstPacketTs` stays set whatever callbacks follow. */
  lemma {:induction false} FirstPacketTsNeverCleared(p: PlayerState, calls: seq<Call>)
    requires CallsOk(calls)
    requires p.isFirstPacketTs
    ensures Run(p, calls).next.isFirstPacketTs
    decreases |calls|
  {
    if calls != [] {
      FirstPacketTsNeverCleared(Step(p, calls[0]).next, calls[1..]);
    }
  }

  /** One callback other than a completion-sink change, with a completion sink registered. */
  lemma TerminalStep(p: PlayerState, c: Call)
    requires CallOk(c) && !c.SetOnComplete?
    requires p.hasOnComplete
    ensures var r := Step(p, c);
      && |Completions(r.effects)| == (if c.ResponseCompleted? || c.Disconnect? then 1 else 0)
      && r.next.hasOnComplete
  {
  }

  /**
   * With a completion sink registered, every end of body and every
   * disconnect reaches it: nothing limits the session to one completion.
   */
  lemma {:induction false} EveryTerminalCallCompletes(p: PlayerState, calls: seq<Call>)
    requires CallsOk(calls) && NoCompletionSinkChange(calls)
    requires p.hasOnComplete
    ensures |Completions(Run(p, calls).effects)| == TerminalCalls(calls)
    ensures Run(p, calls).next.hasOnComplete
    decreases |calls|
  {
    if calls != [] {
      var first := Step(p, calls[0]);
      TerminalStep(p, calls[0]);
      EveryTerminalCallCompletes(first.next, calls[1..]);
      ProjectionsConcat(first.effects, Run(first.next, calls[1..]).effects);
    }
  }

  /** A freshly constructed player after its owner has registered both sinks. */
  function Registered(splitTs: bool): (p: PlayerState)
    ensures p == Run(Initial(splitTs), [SetOnComplete(true), SetOnPacket(true)]).next
  {
    var c := [SetOnComplete(true), SetOnPacket(true)];
    assert c[1..] == [SetOnPacket(true)];
    Initial(splitTs).(hasOnComplete := true, hasOnPacket := true)
  }

  // Concrete sessions, each from a freshly registered player to the end of
  // the response. Each proof walks the calls from the last state back to
  // the first.

  /** A TS response ending normally: the packet is delivered whole and the session completes successfully. */
  lemma ScenarioTsResponseCompletes(tail: seq<byte>)
    requires |tail| == 187
    ensures var packet := [TS_SYNC_BYTE] + tail;
      var r := Run(Registered(false), [Header("200", map[CONTENT_TYPE := "video/mp2t"]), Body(packet, 188, 188), ResponseCompleted]);
      && r.effects == [Packet(packet), Completion(PLAY_COMPLETED)]
      && r.next.isTsContent && r.next.isFirstPacketTs
  {
    var packet := [TS_SYNC_BYTE] + tail;
    var header := map[CONTENT_TYPE := "video/mp2t"];
    var c := [Header("200", header), Body(packet, 188, 188), ResponseCompleted];
    assert c[1..] == [Body(packet, 188, 188), ResponseCompleted];
    assert IsTsMediaType(HeaderValue(header, CONTENT_TYPE));
    var p1 := Registered(false).(status := "200", isTsContent := true);
    assert Step(Registered(false), c[0]) == Outcome(p1, []);
    SyncChunkThenEnd(p1, packet);
  }

  /** The body part of the scenario above, from the state the 200 header leaves. */
  lemma SyncChunkThenEnd(p: PlayerState, packet: seq<byte>)
    requires p == Registered(false).(status := "200", isTsContent := true)
    requires |packet| == 188 && packet[0] == TS_SYNC_BYTE
    ensures Run(p, [Body(packet, 188, 188), ResponseCompleted])
         == Outcome(p.(isFirstPacketTs := true), [Packet(packet), Completion(PLAY_COMPLETED)])
  {
    var c := [Body(packet, 188, 188), ResponseCompleted];
    assert c[1..] == [ResponseCompleted];
    var p2 := p.(isFirstPacketTs := true);
    assert CheckFirstChunk(p, packet, 188) == Outcome(p2, []);
    assert Route(p, packet) == [Packet(packet)];
    var body := Step(p, Body(packet, 188, 188));
    assert body == Outcome(p2, [Packet(packet)]);
    var end := Run(p2, [ResponseCompleted]);
    assert end == Outcome(p2, [Completion(PLAY_COMPLETED)]);
    assert body.effects + end.effects == [Packet(packet), Completion(PLAY_COMPLETED)];
  }

  /** A 404 response: one shutdown request naming the status, and later body bytes are dropped. */
  lemma ScenarioNotFound(data: seq<byte>)
    requires |data| > 0
    ensures var r := Run(Registered(false), [Header("404", map[]), Body(data, |data|, |data|)]);
      && r.effects == [Shutdown(BadStatus("404"))]
      && BadStatus("404").what == "bad http status code:404"
  {
    var c := [Header("404", map[]), Body(data, |data|, |data|)];
    assert c[1..] == [Body(data, |data|, |data|)];
    assert Run(Registered(false).(status := "404"), c[1..]).effects == [];
  }

  /** A 206 response whose first byte is not the sync byte: a warning, yet the bytes are still delivered. */
  lemma ScenarioNotSyncByteStillDelivered(data: seq<byte>)
    requires |data| > 0 && data[0] != TS_SYNC_BYTE
    ensures var r := Run(Registered(false), [Header("206", map[]), Body(data, |data|, 0), ResponseCompleted]);
      && r.effects == [NotTsWarning, Packet(data), Completion(PLAY_COMPLETED)]
      && !r.next.isFirstPacketTs && !r.next.isTsContent
  {
    var c := [Header("206", map[]), Body(data, |data|, 0), ResponseCompleted];
    assert c[1..] == [Body(data, |data|, 0), ResponseCompleted];
    var p1 := Registered(false).(status := "206");
    assert Step(Registered(false), Header("206", map[])) == Outcome(p1, []);
    NotSyncChunkThenEnd(p1, data);
  }

  /** The body part of the scenario above, from the state the 206 header leaves. */
  lemma NotSyncChunkThenEnd(p: PlayerState, data: seq<byte>)
    requires p == Registered(false).(status := "206")
    requires |data| > 0 && data[0] != TS_SYNC_BYTE
    ensures Run(p, [Body(data, |data|, 0), ResponseCompleted])
         == Outcome(p, [NotTsWarning, Packet(data), Completion(PLAY_COMPLETED)])
  {
    var c := [Body(data, |data|, 0), ResponseCompleted];
    assert c[1..] == [ResponseCompleted];
    assert CheckFirstChunk(p, data, |data|) == Outcome(p, [NotTsWarning]);
    assert Route(p, data) == [Packet(data)];
    var body := Step(p, Body(data, |data|, 0));
    assert body == Outcome(p, [NotTsWarning, Packet(data)]);
    var end := Run(p, [ResponseCompleted]);
    assert end == Outcome(p, [Completion(PLAY_COMPLETED)]);
    assert body.effects + end.effects == [NotTsWarning, Packet(data), Completion(PLAY_COMPLETED)];
  }

  /** A disconnect in the middle of the body completes the session with the client's exception as it is. */
  lemma ScenarioDisconnectMidBody(data: seq<byte>, ex: SockException)
    requires |data| > 0 && data[0] == TS_SYNC_BYTE
    ensures var r := Run(Registered(true), [Header("200", map[]), Body(data, |data|, 0), Disconnect(ex)]);
      && r.effects == [SegmentInput(data), Completion(ex)]
      && r.next.isFirstPacketTs
  {
    var c := [Header("200", map[]), Body(data, |data|, 0), Disconnect(ex)];
    assert c[1..] == [Body(data, |data|, 0), Disconnect(ex)];
    assert c[1..][1..] == [Disconnect(ex)];
    var p1 := Registered(true).(status := "200");
    var p2 := p1.(isFirstPacketTs := true);
    assert Step(p1, Body(data, |data|, 0)) == Outcome(p2, [SegmentInput(data)]);
    assert Run(p2, [Disconnect(ex)]) == Outcome(p2, [Completion(ex)]);
    assert Run(p1, c[1..]) == Outcome(p2, [SegmentInput(data), Completion(ex)]);
  }

}
