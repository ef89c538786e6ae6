/**
 * The HTTP-TS player as values: the state of one playback session, the
 * effects it has on its collaborators, and one function per callback that
 * the HTTP client invokes. The class in http_ts_player.dfy is proved to
 * follow these functions call by call.
 */
module HttpTsModel {
  import opened Wrappers
  import opened SockErrors
  import opened StringFind

  newtype byte = x: int | 0 <= x < 256

  /** Response headers; a missing key reads as the empty string. */
  type Headers = map<string, string>

  /** The first byte of every MPEG-TS packet (ISO/IEC 13818-1, section 2.4.3.3, sync_byte). */
  const TS_SYNC_BYTE: byte := 0x47

  /** Returned from the header callback: the body has no predeclared length. */
  const BODY_LENGTH_UNBOUNDED: int := -1

  /** Returned from the header callback after a rejected status. */
  const BODY_LENGTH_REJECTED: int := 0

  const CONTENT_TYPE: string := "Content-Type"
  const MIME_MP2T: string := "video/mp2t"
  const MIME_MPEG: string := "video/mpeg"
  const BAD_STATUS_PREFIX: string := "bad http status code:"
  const PLAY_COMPLETED: SockException := SockException(ErrSuccess, "play completed")

  /**
   * The fields of one player. `hasOnComplete` and `hasOnPacket` say whether
   * the completion sink and the packet sink are registered (a non-empty
   * callback).
   */
  datatype PlayerState = PlayerState(
    status: string,
    isTsContent: bool,
    isFirstPacketTs: bool,
    splitTs: bool,
    hasOnComplete: bool,
    hasOnPacket: bool)

  /** What a callback does to the world outside the player's own fields, in order. */
  datatype Effect =
    | Shutdown(reason: SockException)      // the player asks the HTTP client to abort
    | NotTsWarning                         // the first body byte is not the sync byte
    | SegmentInput(data: seq<byte>)        // bytes handed to the TS segmenter
    | Packet(data: seq<byte>)              // bytes the player itself passes to onPacket
    | Completion(result: SockException)    // the completion sink is called

  datatype HeaderOutcome = HeaderOutcome(next: PlayerState, bodyLength: int, effects: seq<Effect>)

  datatype Outcome = Outcome(next: PlayerState, effects: seq<Effect>)

  /** A freshly constructed player: no status, no flag set, no sink registered. */
  function Initial(splitTs: bool): PlayerState {
    PlayerState("", false, false, splitTs, false, false)
  }

  predicate StatusAccepted(status: string) {
    status == "200" || status == "206"
  }

  function HeaderValue(header: Headers, key: string): string {
    if key in header then header[key] else ""
  }

  /** The media types the player recognises as a transport stream. */
  predicate IsTsMediaType(contentType: string) {
    MIME_MP2T <= contentType || MIME_MPEG <= contentType
  }

  /** The player's test on the Content-Type value, written with `find`. */
  function ContentTypeIsTs(contentType: string): (r: bool)
    ensures r <==> IsTsMediaType(contentType)
  {
    FindZeroIsPrefix(contentType, MIME_MP2T);
    FindZeroIsPrefix(contentType, MIME_MPEG);
    Find(contentType, MIME_MP2T) == Some(0) || Find(contentType, MIME_MPEG) == Some(0)
  }

  /** The reason given to shutdown for a rejected status: an ErrOther whose message contains the status. */
  function BadStatus(status: string): (ex: SockException)
    ensures ex.code == ErrOther
    ensures Contains(ex.what, status)
  {
    var what := BAD_STATUS_PREFIX + status;
    assert OccursAt(what, status, |BAD_STATUS_PREFIX|);
    SockException(ErrOther, what)
  }

  // Projections of an effect trace onto one collaborator, and how each splits over concatenation.

  /** The bytes the player itself passes to `onPacket` (the segmenter's own calls are not modelled). */
  function Packets(e: seq<Effect>): seq<seq<byte>> {
    if e == [] then [] else (if e[0].Packet? then [e[0].data] else []) + Packets(e[1..])
  }

  lemma {:induction false} PacketsConcat(a: seq<Effect>, b: seq<Effect>)
    ensures Packets(a + b) == Packets(a) + Packets(b)
  {
    if a == [] {
      assert a + b == b;
    } else {
      assert (a + b)[0] == a[0] && (a + b)[1..] == a[1..] + b;
      PacketsConcat(a[1..], b);
    }
  }

  /** The bytes handed to the segmenter. */
  function SegmentInputs(e: seq<Effect>): seq<seq<byte>> {
    if e == [] then [] else (if e[0].SegmentInput? then [e[0].data] else []) + SegmentInputs(e[1..])
  }

  lemma {:induction false} SegmentInputsConcat(a: seq<Effect>, b: seq<Effect>)
    ensures SegmentInputs(a + b) == SegmentInputs(a) + SegmentInputs(b)
  {
    if a == [] {
      assert a + b == b;
    } else {
      assert (a + b)[0] == a[0] && (a + b)[1..] == a[1..] + b;
      SegmentInputsConcat(a[1..], b);
    }
  }

  /** The results passed to the completion sink. */
  function Completions(e: seq<Effect>): seq<SockException> {
    if e == [] then [] else (if e[0].Completion? then [e[0].result] else []) + Completions(e[1..])
  }

  lemma {:induction false} CompletionsConcat(a: seq<Effect>, b: seq<Effect>)
    ensures Completions(a + b) == Completions(a) + Completions(b)
  {
    if a == [] {
      assert a + b == b;
    } else {
      assert (a + b)[0] == a[0] && (a + b)[1..] == a[1..] + b;
      CompletionsConcat(a[1..], b);
    }
  }

  /** The reasons given with shutdown requests. */
  function Shutdowns(e: seq<Effect>): seq<SockException> {
    if e == [] then [] else (if e[0].Shutdown? then [e[0].reason] else []) + Shutdowns(e[1..])
  }

  lemma {:induction false} ShutdownsConcat(a: seq<Effect>, b: seq<Effect>)
    ensures Shutdowns(a + b) == Shutdowns(a) + Shutdowns(b)
  {
    if a == [] {
      assert a + b == b;
    } else {
      assert (a + b)[0] == a[0] && (a + b)[1..] == a[1..] + b;
      ShutdownsConcat(a[1..], b);
    }
  }

  /** How many not-TS warnings were logged. */
  function WarningCount(e: seq<Effect>): nat {
    if e == [] then 0 else (if e[0].NotTsWarning? then 1 else 0) + WarningCount(e[1..])
  }

  lemma {:induction false} WarningCountConcat(a: seq<Effect>, b: seq<Effect>)
    ensures WarningCount(a + b) == WarningCount(a) + WarningCount(b)
  {
    if a == [] {
      assert a + b == b;
    } else {
      assert (a + b)[0] == a[0] && (a + b)[1..] == a[1..] + b;
      WarningCountConcat(a[1..], b);
    }
  }

  /** Every projection of a trace is the projection of its first part followed by that of the rest. */
  lemma ProjectionsConcat(a: seq<Effect>, b: seq<Effect>)
    ensures Packets(a + b) == Packets(a) + Packets(b)
    ensures SegmentInputs(a + b) == SegmentInputs(a) + SegmentInputs(b)
    ensures Completions(a + b) == Completions(a) + Completions(b)
    ensures Shutdowns(a + b) == Shutdowns(a) + Shutdowns(b)
    ensures WarningCount(a + b) == WarningCount(a) + WarningCount(b)
  {
    PacketsConcat(a, b);
    SegmentInputsConcat(a, b);
    CompletionsConcat(a, b);
    ShutdownsConcat(a, b);
    WarningCountConcat(a, b);
  }

  /**
   * Header callback. The status is stored whatever it is. A status other
   * than 200 or 206 aborts the transfer; otherwise a TS media type sets
   * (and never clears) isTsContent, and the body is read without a length.
   */
  function OnResponseHeader(p: PlayerState, status: string, header: Headers): (r: HeaderOutcome)
    ensures r.next == p.(status := status, isTsContent := r.next.isTsContent)
    ensures !StatusAccepted(status) ==>
      && r.bodyLength == BODY_LENGTH_REJECTED
      && r.effects == [Shutdown(BadStatus(status))]
      && r.next.isTsContent == p.isTsContent
    ensures StatusAccepted(status) ==>
      && r.bodyLength == BODY_LENGTH_UNBOUNDED
      && r.effects == []
      && (r.next.isTsContent <==> p.isTsContent || IsTsMediaType(HeaderValue(header, CONTENT_TYPE)))
  {
    var stored := p.(status := status);
    if !StatusAccepted(status) then
      HeaderOutcome(stored, BODY_LENGTH_REJECTED, [Shutdown(BadStatus(status))])
    else if ContentTypeIsTs(HeaderValue(header, CONTENT_TYPE)) then
      HeaderOutcome(stored.(isTsContent := true), BODY_LENGTH_UNBOUNDED, [])
    else
      HeaderOutcome(stored, BODY_LENGTH_UNBOUNDED, [])
  }

  /** A body chunk is the first of the response when the bytes received so far are exactly this chunk. */
  predicate IsFirstChunk(data: seq<byte>, recvedSize: nat) {
    recvedSize == |data|
  }

  /** The packet-sink callback: forwards the bytes when a sink is registered. */
  function OnPacket(p: PlayerState, data: seq<byte>): (e: seq<Effect>)
    ensures Packets(e) == (if p.hasOnPacket then [data] else [])
    ensures |e| == |Packets(e)|
  {
    if p.hasOnPacket then [Packet(data)] else []
  }

  /**
   * The sync-byte check on a body chunk: only the first chunk of the
   * response is looked at; a leading sync byte sets isFirstPacketTs (never
   * clearing it), any other leading byte only records a warning.
   */
  function CheckFirstChunk(p: PlayerState, data: seq<byte>, recvedSize: nat): (r: Outcome)
    requires IsFirstChunk(data, recvedSize) ==> |data| > 0
    ensures r.next == p.(isFirstPacketTs := r.next.isFirstPacketTs)
    ensures r.next.isFirstPacketTs <==>
      p.isFirstPacketTs || (IsFirstChunk(data, recvedSize) && data[0] == TS_SYNC_BYTE)
    ensures WarningCount(r.effects) == if IsFirstChunk(data, recvedSize) && data[0] != TS_SYNC_BYTE then 1 else 0
    ensures Packets(r.effects) == [] && SegmentInputs(r.effects) == []
    ensures Completions(r.effects) == [] && Shutdowns(r.effects) == []
  {
    if !IsFirstChunk(data, recvedSize) then Outcome(p, [])
    else if data[0] == TS_SYNC_BYTE then Outcome(p.(isFirstPacketTs := true), [])
    else Outcome(p, [NotTsWarning])
  }

  /**
   * Where a body chunk goes: the whole chunk to the segmenter in split
   * mode, otherwise the whole chunk straight to `onPacket`, which passes it
   * to the packet sink if one is registered.
   */
  function Route(p: PlayerState, data: seq<byte>): (e: seq<Effect>)
    ensures SegmentInputs(e) == (if p.splitTs then [data] else [])
    ensures Packets(e) == (if !p.splitTs && p.hasOnPacket then [data] else [])
    ensures WarningCount(e) == 0 && Completions(e) == [] && Shutdowns(e) == []
  {
    if p.splitTs then [SegmentInput(data)] else OnPacket(p, data)
  }

  /**
   * Body callback. Nothing happens unless the stored status is accepted.
   * The first chunk is checked for the sync byte; then the chunk is routed,
   * unchanged and whatever its first byte. BodyEffects states what the
   * effects are.
   */
  function OnResponseBody(p: PlayerState, data: seq<byte>, recvedSize: nat, totalSize: nat): (r: Outcome)
    requires StatusAccepted(p.status) && IsFirstChunk(data, recvedSize) ==> |data| > 0
    ensures !StatusAccepted(p.status) ==> r == Outcome(p, [])
    ensures r.next == p.(isFirstPacketTs := r.next.isFirstPacketTs)
    ensures r.next.isFirstPacketTs <==>
      p.isFirstPacketTs ||
      (StatusAccepted(p.status) && IsFirstChunk(data, recvedSize) && data[0] == TS_SYNC_BYTE)
  {
    if !StatusAccepted(p.status) then Outcome(p, [])
    else
      var checked := CheckFirstChunk(p, data, recvedSize);
      Outcome(checked.next, checked.effects + Route(p, data))
  }

  /**
   * The effects of one body chunk: at most one warning, and only for a
   * first chunk of an accepted response that lacks the sync byte; with an
   * accepted status, the whole chunk once to the segmenter in split mode or
   * directly through `onPacket` to the registered packet sink otherwise; never a shutdown or a completion.
   */
  lemma BodyEffects(p: PlayerState, data: seq<byte>, recvedSize: nat, totalSize: nat)
    requires StatusAccepted(p.status) && IsFirstChunk(data, recvedSize) ==> |data| > 0
    ensures var r := OnResponseBody(p, data, recvedSize, totalSize);
      && WarningCount(r.effects) ==
        (if StatusAccepted(p.status) && IsFirstChunk(data, recvedSize) && data[0] != TS_SYNC_BYTE then 1 else 0)
      && (StatusAccepted(p.status) ==>
        && SegmentInputs(r.effects) == (if p.splitTs then [data] else [])
        && Packets(r.effects) == (if !p.splitTs && p.hasOnPacket then [data] else []))
      && Completions(r.effects) == []
      && Shutdowns(r.effects) == []
  {
    if StatusAccepted(p.status) {
      ProjectionsConcat(CheckFirstChunk(p, data, recvedSize).effects, Route(p, data));
    }
  }

  /** The completion-sink callback: reports `ex` when a sink is registered. */
  function EmitOnComplete(p: PlayerState, ex: SockException): (e: seq<Effect>)
    ensures Completions(e) == (if p.hasOnComplete then [ex] else [])
    ensures |e| == |Completions(e)|
  {
    if p.hasOnComplete then [Completion(ex)] else []
  }

  /** End of body: the session completes successfully with "play completed". */
  function OnResponseCompleted(p: PlayerState): (r: Outcome)
    ensures r.next == p
    ensures Completions(r.effects) == (if p.hasOnComplete then [SockException(ErrSuccess, "play completed")] else [])
    ensures |r.effects| == |Completions(r.effects)|
  {
    Outcome(p, EmitOnComplete(p, PLAY_COMPLETED))
  }

  /** Disconnect: the session completes with the client's exception, unchanged. */
  function OnDisconnect(p: PlayerState, ex: SockException): (r: Outcome)
    ensures r.next == p
    ensures Completions(r.effects) == (if p.hasOnComplete then [ex] else [])
    ensures |r.effects| == |Completions(r.effects)|
  {
    Outcome(p, EmitOnComplete(p, ex))
  }

}
