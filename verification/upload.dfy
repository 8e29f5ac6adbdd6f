/** A streamed upload from the client's socket to the handler. */
module Upload {
  import opened Bytes
  import E = Echo
  import H = HttpRequest

  /** Feed, pump and gather together: the handler of a concurrent worker gets exactly the body, and the next request
      on the connection begins right behind it, or it knows that the upload was cut short. It is cut short exactly if
      the feed fails, which takes a client that stalls or closes too early, or an application that gives up. */
  method StreamUpload(c: H.Client, b: H.Backend, initial: seq<byte>, total: u64) returns (body: Option<seq<byte>>)
    requires c.Valid() && |initial| < total
    modifies c, b
    ensures c.Valid() && (body.Some? ==> |body.value| == total && body.value + c.Rest() == initial + old(c.Rest()))
    ensures body.Some? ==> c.stalled == old(c.stalled) && b.gone == old(b.gone)
    ensures body.None? ==> c.stalled || b.gone || |initial + old(c.Rest())| < total
  {
    var chunks, ok := H.FeedBody(c, b, initial, total);
    var frames := E.PumpBody(chunks);
    E.StreamedBodyIsExact(chunks, total);
    body := E.ReadBody(frames, total);
  }
}
