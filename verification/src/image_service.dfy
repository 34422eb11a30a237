/** The image service of the communication layer: the client streams a
    picture to the agent in fixed-size chunks (`ImageServiceClient`), and
    the server reads the stream back into one picture before handing it to
    its processing callback (`ImageServiceServer`); the image definition
    call carries a colour format across.

    What the peer does is a parameter: how many writes the stream accepts
    before one fails, the status `Finish` returns, and on the server side
    the messages that arrive. */
module ImageService {
  import opened Wrappers
  import opened ServiceBase

  /** Two mebibytes: the size of every chunk but the last. */
  const ChunkSize: nat := 2097152

  /** The server reads the chunk count into an unsigned 32-bit integer. */
  const CountModulus: nat := 0x1_0000_0000

  datatype Rect = Rect(x: int, y: int, width: int, height: int)

  /** The rectangle of a message that does not set one. */
  const NoRect: Rect := Rect(0, 0, 0, 0)

  /** `tvimageservice::GrabResult`: the chunk count and the dirty rectangle
      (set on the first message only) and one chunk of picture data. */
  datatype GrabResult = GrabResult(chunks: nat, dirtyRect: Rect, picture: string)

  // ---------------------------------------------------------------------
  // Splitting

  /** The number of chunks a picture of `size` bytes is sent in. */
  function ChunkCount(size: nat): (r: nat)
    ensures r == 0 <==> size == 0
    ensures size > 0 ==> (r - 1) * ChunkSize < size <= r * ChunkSize
  {
    size / ChunkSize + (if size % ChunkSize != 0 then 1 else 0)
  }

  /** Chunk `k` of `p`: `ChunkSize` bytes from `k * ChunkSize`, except the
      last, which runs to the end. */
  function Chunk(p: string, k: nat): (r: string)
    requires k < ChunkCount(|p|)
    ensures 0 < |r| <= ChunkSize
    ensures k < ChunkCount(|p|) - 1 ==> |r| == ChunkSize
  {
    var n := ChunkCount(|p|);
    if k == n - 1 then p[k * ChunkSize..] else p[k * ChunkSize..(k + 1) * ChunkSize]
  }

  /** The message carrying chunk `k`. */
  function Message(p: string, rect: Rect, k: nat): (r: GrabResult)
    requires k < ChunkCount(|p|)
    ensures r.picture == Chunk(p, k)
    ensures k == 0 ==> r.chunks == ChunkCount(|p|) && r.dirtyRect == rect
    ensures k != 0 ==> r.chunks == 0 && r.dirtyRect == NoRect
  {
    if k == 0 then GrabResult(ChunkCount(|p|), rect, Chunk(p, 0))
    else GrabResult(0, NoRect, Chunk(p, k))
  }

  /** `UpdateImage`'s writing loop: the messages written before the first
      write the stream refuses. `accepts` is how many writes succeed. */
  method WriteChunks(p: string, rect: Rect, accepts: nat) returns (written: seq<GrabResult>)
    ensures |written| == if accepts < ChunkCount(|p|) then accepts else ChunkCount(|p|)
    ensures forall k :: 0 <= k < |written| ==> written[k] == Message(p, rect, k)
  {
    var size := |p|;
    var chunks := size / ChunkSize;
    if size % ChunkSize != 0 {
      chunks := chunks + 1;
    }
    written := [];
    var counter := 0;
    while counter < chunks
      invariant chunks == ChunkCount(|p|)
      invariant counter <= chunks && counter <= accepts
      invariant |written| == counter
      invariant forall k :: 0 <= k < counter ==> written[k] == Message(p, rect, k)
    {
      var g := GrabResult(0, NoRect, []);
      if counter == 0 {
        g := GrabResult(chunks, rect, []);
      }
      var buffer;
      if counter == chunks - 1 {
        buffer := p[counter * ChunkSize..];
      } else {
        buffer := p[counter * ChunkSize..(counter + 1) * ChunkSize];
      }
      g := g.(picture := buffer);
      if counter == accepts {
        break;
      }
      written := written + [g];
      counter := counter + 1;
    }
  }

  /** A client image update: the status returned and the messages written. */
  datatype Upload = Upload(status: CallStatus, written: seq<GrabResult>)

  /** `UpdateImage`: the common pipeline around the writing loop; the
      status is whatever `finish` (the stream's `Finish`) says. */
  method UpdateImage(c: Client, comId: string, rect: Rect, p: string, accepts: nat, finish: Status) returns (r: Upload)
    ensures !c.connected ==> r == Upload(FailWith(MissingStartClient), [])
    ensures c.connected && comId == [] ==> r == Upload(FailWith(InvalidInputParameter), [])
    ensures c.connected && comId != [] ==> (
      && r.status == HandleResponse(finish)
      && |r.written| == (if accepts < ChunkCount(|p|) then accepts else ChunkCount(|p|))
      && forall k :: 0 <= k < |r.written| ==> r.written[k] == Message(p, rect, k))
  {
    if !c.connected {
      return Upload(FailWith(MissingStartClient), []);
    }
    if !DefaultValid(comId) {
      return Upload(FailWith(InvalidInputParameter), []);
    }
    var written := WriteChunks(p, rect, accepts);
    r := Upload(HandleResponse(finish), written);
  }

  // ---------------------------------------------------------------------
  // Reassembly

  /** The pictures of `ms` appended in order, as the server's `+=` builds
      them. */
  function Pictures(ms: seq<GrabResult>): (r: string)
    ensures ms == [] ==> r == []
  {
    if ms == [] then [] else Pictures(ms[..|ms| - 1]) + ms[|ms| - 1].picture
  }

  /** What the server hands its callback. */
  datatype ImageUpdate = ImageUpdate(comId: string, rect: Rect, picture: string)

  /** A served image update: the status returned and the update delivered to
      the callback, if it was. */
  datatype ImageServed = ImageServed(status: Status, delivered: Option<ImageUpdate>)

  /** `ImageServiceServer::UpdateImage`. `stream` is what the client wrote;
      `comId` is the metadata entry, empty when missing (this call, unlike
      the others, does not insist on one); `report` is what the callback
      passes to its response processing, if it does. A first message with
      a zero count is taken as the whole picture; otherwise the server reads
      as many messages as the first one announces. */
  function ServeUpdateImage(argsPresent: bool, hasCallback: bool, stream: seq<GrabResult>, comId: Option<string>, report: Option<CallStatus>): (r: ImageServed)
    ensures r.delivered.Some? ==> argsPresent && hasCallback && stream != []
    ensures r.delivered.Some? ==> (
      && r.delivered.value.comId == (if comId.Some? then comId.value else [])
      && r.delivered.value.rect == stream[0].dirtyRect)
    ensures r.delivered.Some? ==> r.status == (if report.Some? then ResponseStatus(report.value) else NotCalled)
    ensures argsPresent && hasCallback && stream == [] ==> r == ImageServed(Status(CANCELLED, NoMessage), None)
    ensures argsPresent && hasCallback && stream != [] && r.delivered.None? ==> r.status == Status(ABORTED, ReadingChunksFailed)
  {
    if !argsPresent then ImageServed(Status(INTERNAL, NoMessage), None)
    else if !hasCallback then ImageServed(Status(UNAVAILABLE, NoProcessingCallback), None)
    else if stream == [] then ImageServed(Status(CANCELLED, NoMessage), None)
    else
      var id := if comId.Some? then comId.value else [];
      var status := if report.Some? then ResponseStatus(report.value) else NotCalled;
      var n := stream[0].chunks % CountModulus;
      if n == 0 then ImageServed(status, Some(ImageUpdate(id, stream[0].dirtyRect, stream[0].picture)))
      else if |stream| < n then ImageServed(Status(ABORTED, ReadingChunksFailed), None)
      else ImageServed(status, Some(ImageUpdate(id, stream[0].dirtyRect, Pictures(stream[..n]))))
  }

  /** The first `k` chunks of a picture, appended, are its first
      `k * ChunkSize` bytes. */
  lemma {:induction false} ChunksPrefix(p: string, rect: Rect, ms: seq<GrabResult>, k: nat)
    requires k < ChunkCount(|p|)
    requires |ms| == k && forall i :: 0 <= i < k ==> ms[i] == Message(p, rect, i)
    ensures Pictures(ms) == p[..k * ChunkSize]
  {
    if k > 0 {
      var front := ms[..k - 1];
      ChunksPrefix(p, rect, front, k - 1);
      assert ms[k - 1].picture == p[(k - 1) * ChunkSize..k * ChunkSize];
      assert p[..k * ChunkSize] == p[..(k - 1) * ChunkSize] + p[(k - 1) * ChunkSize..k * ChunkSize];
    }
  }

  /** All chunks of a picture, appended, are the picture. */
  lemma ChunksJoin(p: string, rect: Rect, ms: seq<GrabResult>)
    requires |ms| == ChunkCount(|p|) && forall i :: 0 <= i < |ms| ==> ms[i] == Message(p, rect, i)
    ensures Pictures(ms) == p
  {
    var n := |ms|;
    if n > 0 {
      ChunksPrefix(p, rect, ms[..n - 1], n - 1);
      assert ms[n - 1].picture == p[(n - 1) * ChunkSize..];
      assert p == p[..(n - 1) * ChunkSize] + p[(n - 1) * ChunkSize..];
    }
  }

  /** The round trip: a non-empty picture the stream fully accepts reaches
      the server's callback unchanged, with its rectangle and the caller's
      communication id, and the client learns what the callback reported. */
  method UpdateImageRoundTrip(c: Client, comId: string, rect: Rect, p: string, report: Option<CallStatus>) returns (served: ImageServed, client: CallStatus)
    requires c.connected && comId != [] && p != []
    requires ChunkCount(|p|) < CountModulus
    ensures served.delivered == Some(ImageUpdate(comId, rect, p))
    ensures served.status == (if report.Some? then ResponseStatus(report.value) else NotCalled)
    ensures report.Some? ==> client.state == report.value.state
    ensures report.Some? && !report.value.IsOk() ==> client == report.value
    ensures report.None? ==> !client.IsOk()
  {
    var up := UpdateImage(c, comId, rect, p, ChunkCount(|p|), StatusOk);
    ServeWhole(p, rect, up.written, comId, report);
    served := ServeUpdateImage(true, true, up.written, Some(comId), report);
    client := HandleResponse(served.status);
    if report.Some? {
      CallbackReportReachesClient(report.value);
    }
  }

  /** The server reassembles a complete stream of a non-empty picture. */
  lemma ServeWhole(p: string, rect: Rect, stream: seq<GrabResult>, comId: string, report: Option<CallStatus>)
    requires p != [] && ChunkCount(|p|) < CountModulus
    requires |stream| == ChunkCount(|p|) && forall k :: 0 <= k < |stream| ==> stream[k] == Message(p, rect, k)
    ensures ServeUpdateImage(true, true, stream, Some(comId), report)
      == ImageServed(if report.Some? then ResponseStatus(report.value) else NotCalled, Some(ImageUpdate(comId, rect, p)))
  {
    var n := ChunkCount(|p|);
    assert stream[0].chunks == n;
    assert stream[0].chunks % CountModulus == n;
    assert stream[..n] == stream;
    ChunksJoin(p, rect, stream);
  }

  /** An empty picture is sent as no messages at all, which the server
      answers with CANCELLED, so the client reports a failure. */
  method EmptyPictureRefused(c: Client, comId: string, rect: Rect, report: Option<CallStatus>) returns (served: ImageServed, client: CallStatus)
    requires c.connected && comId != []
    ensures served == ImageServed(Status(CANCELLED, NoMessage), None)
    ensures client.state == Failed
  {
    var up := UpdateImage(c, comId, rect, [], 1, StatusOk);
    served := ServeUpdateImage(true, true, up.written, Some(comId), report);
    client := HandleResponse(served.status);
  }

  /** A stream that breaks after some but not all chunks of a picture aborts
      on the server without reaching the callback. */
  method BrokenStreamAborts(c: Client, comId: string, rect: Rect, p: string, accepts: nat, report: Option<CallStatus>) returns (served: ImageServed)
    requires c.connected && comId != []
    requires 0 < accepts < ChunkCount(|p|) < CountModulus
    ensures served == ImageServed(Status(ABORTED, ReadingChunksFailed), None)
  {
    var up := UpdateImage(c, comId, rect, p, accepts, StatusOk);
    served := ServeUpdateImage(true, true, up.written, Some(comId), report);
    assert up.written[0].chunks == ChunkCount(|p|);
  }

  // ---------------------------------------------------------------------
  // Image definition

  /** The image service's `ColorFormat`. */
  datatype ColorFormat = Unknown | BGRA32 | R5G6B5 | RGBA32 | UnlistedColorFormat(raw: int)

  /** The protobuf `tvimageservice::ColorFormat`. */
  datatype WireColorFormat = WireUnknown | WireBGRA32 | WireR5G6B5 | WireRGBA32 | WireUnlistedColorFormat(raw: int)

  /** `UpdateImageDefinition` on the client: an unlisted format is sent as
      Unknown. */
  function ColorFormatToWire(f: ColorFormat): (r: WireColorFormat)
    ensures !r.WireUnlistedColorFormat?
    ensures r == WireUnknown <==> f == Unknown || f.UnlistedColorFormat?
  {
    match f
    case BGRA32 => WireBGRA32
    case R5G6B5 => WireR5G6B5
    case RGBA32 => WireRGBA32
    case _ => WireUnknown
  }

  /** `UpdateImageDefinition` on the server: an unlisted format is handed to
      the callback as Unknown. */
  function ColorFormatFromWire(w: WireColorFormat): (r: ColorFormat)
    ensures !r.UnlistedColorFormat?
    ensures r == Unknown <==> w == WireUnknown || w.WireUnlistedColorFormat?
  {
    match w
    case WireBGRA32 => BGRA32
    case WireR5G6B5 => R5G6B5
    case WireRGBA32 => RGBA32
    case _ => Unknown
  }

  /** A listed format arrives as itself; anything else arrives as Unknown. */
  lemma ColorFormatRoundTrip(f: ColorFormat)
    ensures ColorFormatFromWire(ColorFormatToWire(f)) == if f.UnlistedColorFormat? then Unknown else f
  {
  }
}
