/**
 * The player as an object: the fields its callbacks update in place, and a
 * ghost trace of what it has done to its collaborators (shutdown requests,
 * warnings, segmenter input, packet and completion sink calls). Every
 * callback is proved to change the fields and extend the trace exactly as
 * its counterpart in HttpTsModel (or, for the sink setters, the matching
 * session step) says, so the properties proved there hold of the object.
 */
module Player {
  import opened Wrappers
  import opened SockErrors
  import opened StringFind
  import opened HttpTsModel

  class HttpTsPlayer {
    var status: string
    var isTsContent: bool
    var isFirstPacketTs: bool
    const splitTs: bool
    var hasOnComplete: bool
    var hasOnPacket: bool

    /** Everything the player has done to the outside world, oldest first. */
    ghost var Effects: seq<Effect>

    /** The player's fields as a value. */
    function State(): PlayerState
      reads this`status, this`isTsContent, this`isFirstPacketTs, this`hasOnComplete, this`hasOnPacket
    {
      PlayerState(status, isTsContent, isFirstPacketTs, splitTs, hasOnComplete, hasOnPacket)
    }

    /** The segmentation mode is chosen here and cannot change afterwards. */
    constructor (splitTs: bool)
      ensures State() == Initial(splitTs)
      ensures Effects == []
    {
      this.status := "";
      this.isTsContent := false;
      this.isFirstPacketTs := false;
      this.splitTs := splitTs;
      this.hasOnComplete := false;
      this.hasOnPacket := false;
      this.Effects := [];
    }

    /** Asks the HTTP client to abort the transfer. */
    method RequestShutdown(ex: SockException)
      modifies this`Effects
      ensures Effects == old(Effects) + [Shutdown(ex)]
    {
      Effects := Effects + [Shutdown(ex)];
    }

    /** Logs that the stream may not be HTTP-TS. */
    method WarnNotTs()
      modifies this`Effects
      ensures Effects == old(Effects) + [NotTsWarning]
    {
      Effects := Effects + [NotTsWarning];
    }

    /** Hands bytes to the TS segmenter. */
    method SegmentInputCall(data: seq<byte>)
      modifies this`Effects
      ensures Effects == old(Effects) + [SegmentInput(data)]
    {
      Effects := Effects + [SegmentInput(data)];
    }

    method OnResponseHeader(status: string, header: Headers) returns (bodyLength: int)
      modifies this
      ensures var r := HttpTsModel.OnResponseHeader(old(State()), status, header);
        && State() == r.next
        && bodyLength == r.bodyLength
        && Effects == old(Effects) + r.effects
    {
      this.status := status;
      if !StatusAccepted(status) {
        RequestShutdown(SockException(ErrOther, BAD_STATUS_PREFIX + status));
        return BODY_LENGTH_REJECTED;
      }
      var contentType := HeaderValue(header, CONTENT_TYPE);
      if Find(contentType, MIME_MP2T) == Some(0) || Find(contentType, MIME_MPEG) == Some(0) {
        isTsContent := true;
      }
      return BODY_LENGTH_UNBOUNDED;
    }

    method OnResponseBody(data: seq<byte>, recvedSize: nat, totalSize: nat)
      requires StatusAccepted(status) && IsFirstChunk(data, recvedSize) ==> |data| > 0
      modifies this
      ensures var r := HttpTsModel.OnResponseBody(old(State()), data, recvedSize, totalSize);
        && State() == r.next
        && Effects == old(Effects) + r.effects
    {
      if !StatusAccepted(status) {
        return;
      }
      AcceptedBody(data, recvedSize);
    }

    /** A body chunk of an accepted response: the sync-byte check, then routing. */
    method AcceptedBody(data: seq<byte>, recvedSize: nat)
      requires IsFirstChunk(data, recvedSize) ==> |data| > 0
      modifies this`isFirstPacketTs, this`Effects
      ensures var checked := HttpTsModel.CheckFirstChunk(old(State()), data, recvedSize);
        && State() == checked.next
        && Effects == old(Effects) + checked.effects + Route(old(State()), data)
    {
      CheckFirstChunk(data, recvedSize);
      RouteChunk(data);
    }

    /** The sync-byte check on the first chunk of an accepted response. */
    method CheckFirstChunk(data: seq<byte>, recvedSize: nat)
      requires IsFirstChunk(data, recvedSize) ==> |data| > 0
      modifies this`isFirstPacketTs, this`Effects
      ensures var r := HttpTsModel.CheckFirstChunk(old(State()), data, recvedSize);
        && State() == r.next
        && Effects == old(Effects) + r.effects
    {
      if recvedSize == |data| {
        if data[0] == TS_SYNC_BYTE {
          isFirstPacketTs := true;
        } else {
          WarnNotTs();
        }
      }
    }

    /** Forwards a chunk of an accepted response to the segmenter or the packet sink. */
    method RouteChunk(data: seq<byte>)
      modifies this`Effects
      ensures Effects == old(Effects) + Route(State(), data)
    {
      if splitTs {
        SegmentInputCall(data);
      } else {
        OnPacket(data);
      }
    }

    method OnResponseCompleted()
      modifies this
      ensures var r := HttpTsModel.OnResponseCompleted(old(State()));
        && State() == r.next
        && Effects == old(Effects) + r.effects
    {
      EmitOnComplete(SockException(ErrSuccess, "play completed"));
    }

    method OnDisconnect(ex: SockException)
      modifies this
      ensures var r := HttpTsModel.OnDisconnect(old(State()), ex);
        && State() == r.next
        && Effects == old(Effects) + r.effects
    {
      EmitOnComplete(ex);
    }

    method EmitOnComplete(ex: SockException)
      modifies this`Effects
      ensures Effects == old(Effects) + HttpTsModel.EmitOnComplete(State(), ex)
    {
      if hasOnComplete {
        Effects := Effects + [Completion(ex)];
      }
    }

    method OnPacket(data: seq<byte>)
      modifies this`Effects
      ensures Effects == old(Effects) + HttpTsModel.OnPacket(State(), data)
    {
      if hasOnPacket {
        Effects := Effects + [Packet(data)];
      }
    }

    /** Replaces the completion sink; `registered` is false for an empty callback. */
    method SetOnComplete(registered: bool)
      modifies this`hasOnComplete
      ensures State() == old(State()).(hasOnComplete := registered)
    {
      hasOnComplete := registered;
    }

    /** Replaces the packet sink; `registered` is false for an empty callback. */
    method SetOnPacket(registered: bool)
      modifies this`hasOnPacket
      ensures State() == old(State()).(hasOnPacket := registered)
    {
      hasOnPacket := registered;
    }
  }

}
