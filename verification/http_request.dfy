/** Requests on a keep-alive connection: where heads end, whose bytes the bodies are, what pipelining leaves over. */
module HttpRequest {
  import opened Bytes

  const MAX_HEADER_BYTES := 32 * 1024
  const HEAD_READ := 8 * 1024
  const BODY_READ := 16 * 1024
  const BLANK_LINE: seq<byte> := [13, 10, 13, 10]

  // --- the end of a head ---

  /** A blank line, in bytes, ends at place i. */
  predicate BlankBefore(s: seq<byte>, i: int) {
    4 <= i <= |s| && s[i - 4..i] == [13, 10, 13, 10]
  }

  /** The end of the first blank line of s. */
  ghost predicate FirstBlank(s: seq<byte>, e: nat) {
    BlankBefore(s, e) && forall i | i < e :: !BlankBefore(s, i)
  }

  function FindFrom(s: seq<byte>, i: nat): (r: Option<nat>)
    ensures r.Some? ==> BlankBefore(s, r.value) && forall k | i + 4 <= k < r.value :: !BlankBefore(s, k)
    ensures r.None? ==> forall k | i + 4 <= k :: !BlankBefore(s, k)
    decreases |s| - i
  {
    if i + 4 > |s| then None
    else if s[i..i + 4] == BLANK_LINE then Some(i + 4)
    else
      assert !BlankBefore(s, i + 4);
      FindFrom(s, i + 1)
  }

  /** Just past the first blank line; none exactly if there is no blank line. */
  function FindEnd(s: seq<byte>): (r: Option<nat>)
    ensures r.Some? ==> FirstBlank(s, r.value)
    ensures r.None? ==> forall i :: !BlankBefore(s, i)
  {
    FindFrom(s, 0)
  }

  lemma {:induction false} BlankInFront(a: seq<byte>, b: seq<byte>, i: int)
    requires i <= |a|
    ensures BlankBefore(a + b, i) <==> BlankBefore(a, i)
  {
    if i >= 4 {
      assert (a + b)[i - 4..i] == a[i - 4..i];
    }
  }

  /** An end once found stays the end as more arrives; one found later lies past what there was. */
  lemma {:induction false} FindEndStable(a: seq<byte>, b: seq<byte>)
    ensures FindEnd(a).Some? ==> FindEnd(a + b) == FindEnd(a)
    ensures FindEnd(a).None? && FindEnd(a + b).Some? ==> FindEnd(a + b).value > |a|
  {
    forall i | i <= |a|
      ensures BlankBefore(a + b, i) <==> BlankBefore(a, i)
    {
      BlankInFront(a, b, i);
    }
    if FindEnd(a).Some? {
      assert BlankBefore(a + b, FindEnd(a).value);
      OneFirstBlank(a + b, FindEnd(a).value);
    }
  }

  lemma {:induction false} OneFirstBlank(s: seq<byte>, e: nat)
    requires FirstBlank(s, e)
    ensures FindEnd(s) == Some(e)
  {
  }

  /** A head: it ends in a blank line and holds none before. */
  ghost predicate IsHead(head: seq<byte>) {
    FirstBlank(head, |head|)
  }

  lemma {:induction false} HeadIsHead(s: seq<byte>, e: nat)
    requires FindEnd(s) == Some(e)
    ensures IsHead(s[..e])
  {
    forall i | i <= e
      ensures BlankBefore(s[..e], i) <==> BlankBefore(s, i)
    {
      BlankInFront(s[..e], s[e..], i);
      assert s[..e] + s[e..] == s;
    }
  }

  /** The first blank line is where it is found. */
  lemma {:induction false} HeadIsFound(head: seq<byte>, rest: seq<byte>)
    requires IsHead(head)
    ensures FindEnd(head + rest) == Some(|head|)
  {
    OneFirstBlank(head, |head|);
    FindEndStable(head, rest);
  }

  // --- what a stream of bytes means ---

  /** What the head says, and what the router makes of it before the body: `refused` covers the answers that close
      the connection, `streams` an application that takes its body from the socket. */
  datatype Parsed = Parsed(contentLength: nat, keepAlive: bool, refused: bool, streams: bool)

  type Parser = seq<byte> -> Option<Parsed>

  datatype Exchange = Exchange(head: seq<byte>, body: seq<byte>)

  predicate Accepted(p: Option<Parsed>, maxBody: nat) {
    p.Some? && !p.value.refused && p.value.contentLength <= maxBody
  }

  /** The requests of a whole byte stream, read at once. */
  function Requests(parse: Parser, maxBody: nat, s: seq<byte>): seq<Exchange>
    decreases |s|
  {
    match FindEnd(s)
    case None => []
    case Some(e) =>
      var p := parse(s[..e]);
      if !Accepted(p, maxBody) || |s| - e < p.value.contentLength then []
      else
        var next := e + p.value.contentLength;
        [Exchange(s[..e], s[e..next])] + if p.value.keepAlive then Requests(parse, maxBody, s[next..]) else []
  }

  /** One request in bytes: a head that the parser reads and nothing refuses, and a body as long as it says. */
  ghost predicate IsRequest(parse: Parser, maxBody: nat, x: Exchange) {
    && IsHead(x.head) && parse(x.head).Some? && !parse(x.head).value.refused
    && |x.body| == parse(x.head).value.contentLength && |x.body| <= maxBody
  }

  ghost predicate InFront(parse: Parser, maxBody: nat, s: seq<byte>, x: Exchange) {
    IsRequest(parse, maxBody, x) && x.head + x.body <= s
  }

  lemma {:induction false} HeadAndBody(s: seq<byte>, head: seq<byte>, body: seq<byte>)
    requires head + body <= s
    ensures s == head + s[|head|..] && s[..|head|] == head && |s| - |head| >= |body|
    ensures s[|head|..|head| + |body|] == body
  {
    var all := head + body;
    assert all == s[..|all|];
    assert s[..|head|] == all[..|head|] && s[|head|..|all|] == all[|head|..];
  }

  lemma {:induction false} OneInFront(parse: Parser, maxBody: nat, s: seq<byte>, x: Exchange)
    requires InFront(parse, maxBody, s, x)
    ensures Requests(parse, maxBody, s) == [x] + (if parse(x.head).value.keepAlive
                                                  then Requests(parse, maxBody, s[|x.head| + |x.body|..]) else [])
  {
    HeadAndBody(s, x.head, x.body);
    HeadIsFound(x.head, s[|x.head|..]);
    FirstRequest(parse, maxBody, s, |x.head|, x.body, s[|x.head| + |x.body|..]);
  }

  lemma {:induction false} FirstIsInFront(parse: Parser, maxBody: nat, s: seq<byte>)
    requires Requests(parse, maxBody, s) != []
    ensures InFront(parse, maxBody, s, Requests(parse, maxBody, s)[0])
  {
    var e := FindEnd(s).value;
    var x := Requests(parse, maxBody, s)[0];
    HeadIsHead(s, e);
    assert x.head + x.body == s[..e + |x.body|];
  }

  /** The requests of a stream are those that stand one behind the other at its front, head and body, up to the first that
      does not keep the connection. */
  lemma {:induction false} RequestsExactly(parse: Parser, maxBody: nat, s: seq<byte>)
    ensures Requests(parse, maxBody, s) == [] <==> forall x :: !InFront(parse, maxBody, s, x)
    ensures forall x :: InFront(parse, maxBody, s, x) ==>
      Requests(parse, maxBody, s) == [x] + (if parse(x.head).value.keepAlive
                                            then Requests(parse, maxBody, s[|x.head| + |x.body|..]) else [])
  {
    forall x | InFront(parse, maxBody, s, x)
      ensures Requests(parse, maxBody, s) == [x] + (if parse(x.head).value.keepAlive
                                                    then Requests(parse, maxBody, s[|x.head| + |x.body|..]) else [])
    {
      OneInFront(parse, maxBody, s, x);
    }
    if Requests(parse, maxBody, s) != [] {
      FirstIsInFront(parse, maxBody, s);
    }
  }

  ghost predicate AllRequests(parse: Parser, maxBody: nat, xs: seq<Exchange>) {
    forall i | 0 <= i < |xs| :: IsRequest(parse, maxBody, xs[i])
  }

  lemma {:induction false} OneThenMore(parse: Parser, maxBody: nat, x: Exchange, more: seq<Exchange>)
    requires IsRequest(parse, maxBody, x) && AllRequests(parse, maxBody, more)
    ensures AllRequests(parse, maxBody, [x] + more)
  {
  }

  /** Each of them is a request. */
  lemma {:induction false} RequestsAreRequests(parse: Parser, maxBody: nat, s: seq<byte>)
    ensures AllRequests(parse, maxBody, Requests(parse, maxBody, s))
    decreases |s|
  {
    if Requests(parse, maxBody, s) != [] {
      var x := Requests(parse, maxBody, s)[0];
      var rest := s[|x.head| + |x.body|..];
      FirstIsInFront(parse, maxBody, s);
      OneInFront(parse, maxBody, s, x);
      RequestsAreRequests(parse, maxBody, rest);
      OneThenMore(parse, maxBody, x, if parse(x.head).value.keepAlive then Requests(parse, maxBody, rest) else []);
    }
  }

  /** The next request's head is so long that it may be refused: the limit is looked at only while the end is
      missing, so one byte more than the limit always passes. */
  predicate NextTooLong(all: seq<Exchange>) {
    |all| > 0 && |all[0].head| > MAX_HEADER_BYTES + 1
  }

  // --- the socket and the application ---

  datatype ReadResult = Data(chunk: seq<byte>) | Eof | TimedOut

  /** A client that will send `data` and then close. It may stall at any time, for good. */
  class Client {
    const data: seq<byte>
    var pos: nat
    var stalled: bool

    ghost predicate Valid()
      reads this
    {
      pos <= |data|
    }

    ghost function Rest(): seq<byte>
      requires Valid()
      reads this
    {
      data[pos..]
    }

    constructor (data: seq<byte>)
      ensures Valid() && this.data == data && pos == 0 && !stalled
    {
      this.data, pos, stalled := data, 0, false;
    }

    /** At most `want` bytes, as many as the network pleases. */
    method Read(want: nat) returns (r: ReadResult)
      requires Valid() && want > 0
      modifies this
      ensures Valid() && old(pos) <= pos
      ensures r.Data? ==> 0 < |r.chunk| <= want && old(Rest()) == r.chunk + Rest() && stalled == old(stalled)
      ensures r.Eof? ==> pos == old(pos) == |data| && stalled == old(stalled)
      ensures r.TimedOut? ==> stalled && pos == old(pos)
    {
      var stalls := *;
      if stalls {
        stalled := true;
        return TimedOut;
      }
      if pos == |data| {
        return Eof;
      }
      var most := if |data| - pos < want then |data| - pos else want;
      var n :| 0 < n <= most;
      r := Data(data[pos..pos + n]);
      assert data[pos..] == data[pos..pos + n] + data[pos + n..];
      pos := pos + n;
    }
  }

  /** The application side of a connection: at any time it may give up, and the connection with it. */
  class Backend {
    var gone: bool

    constructor ()
      ensures !gone
    {
      gone := false;
    }

    method StillThere() returns (ok: bool)
      modifies this
      ensures ok ==> gone == old(gone)
      ensures !ok ==> gone
    {
      ok := *;
      if !ok {
        gone := true;
      }
    }
  }

  // --- the connection loop ---

  datatype HeadResult = Found(end: nat) | TooLarge | NoMore

  /** Reads as the inner loop makes them. */
  predicate HeadReads(parts: seq<seq<byte>>) {
    forall i | 0 <= i < |parts| :: 0 < |parts[i]| <= HEAD_READ
  }

  /** What the inner loop makes of the buffer and the reads that follow. */
  function HeadOver(buf: seq<byte>, parts: seq<seq<byte>>): HeadResult
    decreases |parts|
  {
    if FindEnd(buf).Some? then Found(FindEnd(buf).value)
    else if |buf| > MAX_HEADER_BYTES then TooLarge
    else if |parts| == 0 then NoMore
    else HeadOver(buf + parts[0], parts[1..])
  }

  lemma {:induction false} FourParts(a: seq<byte>, b: seq<byte>, c: seq<byte>, d: seq<byte>)
    ensures a + (b + c + d) == (a + b) + (c + d)
  {
  }

  /** While there is no result, the loop goes on with one more read. */
  lemma {:induction false} LooksOn(buf: seq<byte>, parts: seq<seq<byte>>, chunk: seq<byte>)
    requires HeadOver(buf, parts).NoMore?
    ensures HeadOver(buf, parts + [chunk]) == HeadOver(buf + (Concat(parts) + chunk), [])
    decreases |parts|
  {
    var more := parts + [chunk];
    if |parts| == 0 {
      assert more[1..] == [] && Concat(parts) + chunk == chunk;
    } else {
      assert more[1..] == parts[1..] + [chunk];
      LooksOn(buf + parts[0], parts[1..], chunk);
      FourParts(buf, parts[0], Concat(parts[1..]), chunk);
    }
  }

  lemma {:induction false} OneMoreRead(buf: seq<byte>, parts: seq<seq<byte>>, chunk: seq<byte>, grown: seq<byte>,
                                       rest: seq<byte>)
    requires grown == buf + Concat(parts)
    ensures Concat(parts + [chunk]) == Concat(parts) + chunk && grown + chunk == buf + (Concat(parts) + chunk)
    ensures grown + (chunk + rest) == grown + chunk + rest
  {
    ConcatAppend(parts, [chunk]);
    assert [chunk][1..] == [] && Concat([chunk]) == chunk;
  }

  lemma {:induction false} NothingBehind(s: seq<byte>, rest: seq<byte>)
    requires rest == []
    ensures s + rest == s
  {
  }

  /** The inner loop stops here, or reads on. */
  lemma {:induction false} HeadOverNow(buf: seq<byte>)
    ensures HeadOver(buf, []) == (if FindEnd(buf).Some? then Found(FindEnd(buf).value)
                                  else if |buf| > MAX_HEADER_BYTES then TooLarge else NoMore)
  {
  }

  /** The inner loop: reads until the head is complete. `parts` are the reads the network made of it. */
  method ReadHead(c: Client, buf: seq<byte>) returns (r: HeadResult, grown: seq<byte>, ghost parts: seq<seq<byte>>)
    requires c.Valid()
    modifies c
    ensures c.Valid() && grown + c.Rest() == buf + old(c.Rest()) && old(c.pos) <= c.pos
    ensures HeadReads(parts) && grown == buf + Concat(parts) && r == HeadOver(buf, parts)
    ensures r.Found? ==> FindEnd(grown) == Some(r.end) && IsHead(grown[..r.end]) && c.stalled == old(c.stalled)
    ensures r.TooLarge? ==> FindEnd(grown).None? && |grown| > MAX_HEADER_BYTES
    ensures r.NoMore? ==> c.stalled || FindEnd(buf + old(c.Rest())).None?
    ensures |grown| <= |buf| || |grown| <= MAX_HEADER_BYTES + HEAD_READ
  {
    grown, parts := buf, [];
    assert buf + Concat([]) == buf;
    while true
      invariant c.Valid() && grown + c.Rest() == buf + old(c.Rest()) && c.stalled == old(c.stalled)
      invariant HeadReads(parts) && grown == buf + Concat(parts) && HeadOver(buf, parts) == HeadOver(grown, [])
      invariant old(c.pos) <= c.pos && (|grown| <= |buf| || |grown| <= MAX_HEADER_BYTES + HEAD_READ)
      decreases |c.data| - c.pos
    {
      HeadOverNow(grown);
      var end := FindEnd(grown);
      if end.Some? {
        HeadIsHead(grown, end.value);
        return Found(end.value), grown, parts;
      }
      if |grown| > MAX_HEADER_BYTES {
        return TooLarge, grown, parts;
      }
      var got := c.Read(HEAD_READ);
      match got {
        case Data(chunk) =>
          LooksOn(buf, parts, chunk);
          OneMoreRead(buf, parts, chunk, grown, c.Rest());
          grown, parts := grown + chunk, parts + [chunk];
        case Eof =>
          NothingBehind(grown, c.Rest());
          return NoMore, grown, parts;
        case TimedOut =>
          return NoMore, grown, parts;
      }
    }
  }

  lemma {:induction false} Regrouped(a: seq<byte>, b: seq<byte>, c: seq<byte>)
    ensures a + (b + c) == a + b + c
  {
  }

  lemma {:induction false} SplitAt(s: seq<byte>, n: nat, rest: seq<byte>)
    requires n <= |s|
    ensures s[..n] + (s[n..] + rest) == s + rest
  {
  }

  /** `take_body`: what has arrived already, then the socket; the rest stays for the next request. */
  method TakeBody(c: Client, buf: seq<byte>, length: nat) returns (body: Option<seq<byte>>, rest: seq<byte>)
    requires c.Valid()
    modifies c
    ensures c.Valid() && old(c.pos) <= c.pos
    ensures body.Some? ==> |body.value| == length && body.value + (rest + c.Rest()) == buf + old(c.Rest())
    ensures body.Some? ==> c.stalled == old(c.stalled) && |rest| <= |buf|
    ensures body.None? ==> c.stalled || |buf + old(c.Rest())| < length
  {
    if |buf| > length {
      SplitAt(buf, length, c.Rest());
      return Some(buf[..length]), buf[length..];
    }
    var got := buf;
    while |got| < length
      invariant c.Valid() && got + c.Rest() == buf + old(c.Rest()) && c.stalled == old(c.stalled)
      invariant old(c.pos) <= c.pos && |got| <= length
      decreases length - |got|
    {
      var left := length - |got|;
      var r := c.Read(if left < BODY_READ then left else BODY_READ);
      match r {
        case Data(chunk) =>
          Regrouped(got, chunk, c.Rest());
          got := got + chunk;
        case Eof =>
          NothingBehind(got, c.Rest());
          return None, [];
        case TimedOut => return None, [];
      }
    }
    assert [] + c.Rest() == c.Rest();
    return Some(got), [];
  }

  /** `feed_body`: the body as it comes, chunk by chunk, never a byte beyond it; a chunk counts once it is accepted. */
  method FeedBody(c: Client, b: Backend, initial: seq<byte>, total: nat) returns (chunks: seq<seq<byte>>, ok: bool)
    requires c.Valid() && |initial| < total
    modifies c, b
    ensures c.Valid() && old(c.pos) <= c.pos
    ensures Concat(chunks) <= initial + old(c.Rest()) && |Concat(chunks)| <= total
    ensures ok <==> |Concat(chunks)| == total
    ensures ok ==> Concat(chunks) + c.Rest() == initial + old(c.Rest())
    ensures ok ==> c.stalled == old(c.stalled) && b.gone == old(b.gone)
    ensures !ok ==> c.stalled || b.gone || |initial + old(c.Rest())| < total
  {
    chunks, ok := [], true;
    var remaining := total - |initial|;
    if |initial| > 0 {
      ok := b.StillThere();
      if !ok {
        return;
      }
      chunks := [initial];
      assert [initial][1..] == [];
    }
    assert Concat(chunks) == initial;
    while remaining > 0
      invariant c.Valid() && c.stalled == old(c.stalled) && b.gone == old(b.gone) && old(c.pos) <= c.pos
      invariant 0 <= remaining <= total && |Concat(chunks)| == total - remaining
      invariant Concat(chunks) + c.Rest() == initial + old(c.Rest())
      decreases remaining
    {
      var r := c.Read(if remaining < BODY_READ then remaining else BODY_READ);
      match r {
        case Data(chunk) =>
          var there := b.StillThere();
          if !there {
            return chunks, false;
          }
          remaining := remaining - |chunk|;
          ConcatAppend(chunks, [chunk]);
          assert [chunk][1..] == [] && Concat([chunk]) == chunk;
          Regrouped(Concat(chunks), chunk, c.Rest());
          chunks := chunks + [chunk];
        case Eof =>
          NothingBehind(Concat(chunks), c.Rest());
          return chunks, false;
        case TimedOut => return chunks, false;
      }
    }
    return chunks, true;
  }

  /** One request off the front of a stream. */
  lemma {:induction false} FirstRequest(parse: Parser, maxBody: nat, s: seq<byte>, e: nat, body: seq<byte>, rest: seq<byte>)
    requires FindEnd(s) == Some(e) && Accepted(parse(s[..e]), maxBody)
    requires s[e..] == body + rest && |body| == parse(s[..e]).value.contentLength
    ensures var keep := parse(s[..e]).value.keepAlive;
      Requests(parse, maxBody, s) == [Exchange(s[..e], body)] + (if keep then Requests(parse, maxBody, rest) else [])
  {
    BodyAndRest(s, e, body, rest);
  }

  lemma {:induction false} BodyAndRest(s: seq<byte>, e: nat, body: seq<byte>, rest: seq<byte>)
    requires e <= |s| && s[e..] == body + rest
    ensures |s| - e >= |body| && s[e..e + |body|] == body && s[e + |body|..] == rest
  {
    var next := e + |body|;
    assert s[e..next] == s[e..][..|body|] == body;
    assert s[next..] == s[e..][|body|..] == rest;
  }

  lemma {:induction false} FirstHead(parse: Parser, maxBody: nat, s: seq<byte>)
    ensures |Requests(parse, maxBody, s)| > 0 ==>
      FindEnd(s).Some? && Requests(parse, maxBody, s)[0].head == s[..FindEnd(s).value]
  {
  }

  /** Where the loop stands: what has been served, and what the rest of the stream still means. */
  ghost predicate OnTrack(parse: Parser, maxBody: nat, all: seq<byte>, served: seq<Exchange>, left: seq<byte>) {
    Requests(parse, maxBody, all) == served + Requests(parse, maxBody, left)
  }

  ghost predicate SmallHeads(served: seq<Exchange>) {
    forall i | 0 <= i < |served| :: |served[i].head| <= MAX_HEADER_BYTES + HEAD_READ
  }

  /** What has been served of a stream: requests off its front, each with its own head and body; all of them, unless the
      connection was `cut` or the next head is too long. */
  ghost predicate ServedOf(parse: Parser, maxBody: nat, data: seq<byte>, served: seq<Exchange>, cut: bool) {
    var all := Requests(parse, maxBody, data);
    && served <= all && SmallHeads(served)
    && AllRequests(parse, maxBody, served)
    && (!cut ==> served == all || NextTooLong(all[|served|..]))
  }

  lemma {:induction false} ServedSo(parse: Parser, maxBody: nat, data: seq<byte>, served: seq<Exchange>, cut: bool)
    requires var all := Requests(parse, maxBody, data);
      served <= all && SmallHeads(served) && (!cut ==> served == all || NextTooLong(all[|served|..]))
    ensures ServedOf(parse, maxBody, data, served, cut)
  {
    RequestsAreRequests(parse, maxBody, data);
  }

  lemma {:induction false} StoppedThere(parse: Parser, maxBody: nat, data: seq<byte>, served: seq<Exchange>, left: seq<byte>,
                                         cut: bool)
    requires OnTrack(parse, maxBody, data, served, left) && SmallHeads(served)
    requires !cut ==> var rest := Requests(parse, maxBody, left); rest == [] || NextTooLong(rest)
    ensures ServedOf(parse, maxBody, data, served, cut)
  {
    assert Requests(parse, maxBody, data)[|served|..] == Requests(parse, maxBody, left);
    ServedSo(parse, maxBody, data, served, cut);
  }

  lemma {:induction false} OneMore(all: seq<Exchange>, served: seq<Exchange>, x: Exchange, more: seq<Exchange>)
    requires all == served + ([x] + more)
    ensures all == served + [x] + more && served + [x] <= all
  {
  }

  /** What one turn has established: x is the first request left, and `rest` is what follows it. */
  ghost predicate FirstOf(parse: Parser, maxBody: nat, left: seq<byte>, x: Exchange, rest: seq<byte>, keep: bool) {
    && Requests(parse, maxBody, left) == [x] + (if keep then Requests(parse, maxBody, rest) else [])
    && |x.head| <= MAX_HEADER_BYTES + HEAD_READ && |rest| < |left|
  }

  lemma {:induction false} OneServed(parse: Parser, maxBody: nat, all: seq<byte>, served: seq<Exchange>, left: seq<byte>,
                                     x: Exchange, rest: seq<byte>, keep: bool)
    requires OnTrack(parse, maxBody, all, served, left) && SmallHeads(served)
    requires FirstOf(parse, maxBody, left, x, rest, keep)
    ensures keep ==> OnTrack(parse, maxBody, all, served + [x], rest)
    ensures SmallHeads(served + [x]) && ServedOf(parse, maxBody, all, served + [x], keep)
  {
    var more := if keep then Requests(parse, maxBody, rest) else [];
    OneMore(Requests(parse, maxBody, all), served, x, more);
    ServedSo(parse, maxBody, all, served + [x], keep);
  }

  lemma {:induction false} CutThere(parse: Parser, maxBody: nat, data: seq<byte>, served: seq<Exchange>, cut: bool)
    requires ServedOf(parse, maxBody, data, served, cut)
    ensures ServedOf(parse, maxBody, data, served, true)
  {
  }

  /** The head, at the front of everything left. */
  lemma {:induction false} HeadOf(grown: seq<byte>, rest: seq<byte>, e: nat)
    requires FindEnd(grown) == Some(e)
    ensures FindEnd(grown + rest) == Some(e) && (grown + rest)[..e] == grown[..e] && (grown + rest)[e..] == grown[e..] + rest
  {
    FindEndStable(grown, rest);
  }

  /** The body on the path that the parsed head and the buffer call for. */
  method GetBody(c: Client, b: Backend, p: Parsed, buf: seq<byte>) returns (body: Option<seq<byte>>, rest: seq<byte>)
    requires c.Valid()
    modifies c, b
    ensures c.Valid() && (body.Some? ==> |rest| <= |buf| && c.stalled == old(c.stalled) && b.gone == old(b.gone))
    ensures body.Some? ==>
      |body.value| == p.contentLength && body.value + (rest + c.Rest()) == buf + old(c.Rest())
    ensures body.None? ==> c.stalled || b.gone || |buf + old(c.Rest())| < p.contentLength
  {
    if p.streams && p.contentLength > 0 && |buf| < p.contentLength {
      var chunks, ok := FeedBody(c, b, buf, p.contentLength);
      assert [] + c.Rest() == c.Rest();
      return if ok then Some(Concat(chunks)) else None, [];
    }
    body, rest := TakeBody(c, buf, p.contentLength);
  }

  /** One turn of the loop. */
  method ServeOne(c: Client, b: Backend, parse: Parser, maxBody: nat, buf: seq<byte>)
      returns (x: Option<Exchange>, rest: seq<byte>, keep: bool)
    requires c.Valid() && !c.stalled && !b.gone && |buf| <= MAX_HEADER_BYTES + HEAD_READ
    modifies c, b
    ensures c.Valid() && |rest| <= MAX_HEADER_BYTES + HEAD_READ
    ensures x.Some? ==> !c.stalled && !b.gone
    ensures x.Some? ==> FirstOf(parse, maxBody, buf + old(c.Rest()), x.value, rest + c.Rest(), keep)
    ensures x.None? && !c.stalled && !b.gone ==>
      var all := Requests(parse, maxBody, buf + old(c.Rest())); all == [] || NextTooLong(all)
  {
    ghost var left := buf + c.Rest();
    rest, keep, x := [], false, None;
    var found, grown, _ := ReadHead(c, buf);
    match found {
      case NoMore => return;
      case TooLarge =>
        FindEndStable(grown, c.Rest());
        FirstHead(parse, maxBody, left);
        return;
      case Found(e) =>
        HeadOf(grown, c.Rest(), e);
        var p := parse(grown[..e]);
        if !Accepted(p, maxBody) {
          return;
        }
        var body;
        body, rest := GetBody(c, b, p.value, grown[e..]);
        if body.None? {
          rest := [];
          return;
        }
        assert left[e..] == body.value + (rest + c.Rest());
        FirstRequest(parse, maxBody, left, e, body.value, rest + c.Rest());
        x, keep := Some(Exchange(grown[..e], body.value)), p.value.keepAlive;
    }
  }

  /** `serve_connection`: for every division of the client's bytes into reads, on the buffered and on the streamed
      body path, the requests served are those of the whole stream, in order and with their own bodies: all of them,
      unless the client stalls, the application gives up or the next head is more than one byte over the limit. */
  method ServeConnection(c: Client, b: Backend, parse: Parser, maxBody: nat) returns (served: seq<Exchange>)
    requires c.Valid() && c.pos == 0 && !c.stalled && !b.gone
    modifies c, b
    ensures ServedOf(parse, maxBody, c.data, served, c.stalled || b.gone)
  {
    served := [];
    var buf: seq<byte> := [];
    assert [] + c.Rest() == c.data;
    ghost var left := c.data;
    while true
      invariant c.Valid() && !c.stalled && !b.gone && |buf| <= MAX_HEADER_BYTES + HEAD_READ && left == buf + c.Rest()
      invariant OnTrack(parse, maxBody, c.data, served, left) && SmallHeads(served)
      decreases |left|
    {
      var x, keep;
      x, buf, keep := ServeOne(c, b, parse, maxBody, buf);
      if x.None? {
        StoppedThere(parse, maxBody, c.data, served, left, c.stalled || b.gone);
        return;
      }
      OneServed(parse, maxBody, c.data, served, left, x.value, buf + c.Rest(), keep);
      served, left := served + [x.value], buf + c.Rest();
      var there := b.StillThere();
      if !there || !keep {
        CutThere(parse, maxBody, c.data, served, keep);
        return;
      }
    }
  }

  // --- the limit on heads ---

  /** The stream, in some division into reads. */
  ghost predicate Division(parts: seq<seq<byte>>, s: seq<byte>) {
    HeadReads(parts) && Concat(parts) == s
  }

  /** However the rest of the stream arrives. */
  ghost predicate FoundAlways(buf: seq<byte>, rest: seq<byte>) {
    forall parts | Division(parts, rest) :: HeadOver(buf, parts).Found?
  }

  ghost predicate RefusedAlways(buf: seq<byte>, rest: seq<byte>) {
    forall parts | Division(parts, rest) :: HeadOver(buf, parts).TooLarge?
  }

  lemma {:induction false} FirstRead(buf: seq<byte>, parts: seq<seq<byte>>, rest: seq<byte>)
    requires Division(parts, rest) && |parts| > 0
    ensures Division(parts[1..], rest[|parts[0]|..]) && rest == parts[0] + rest[|parts[0]|..]
    ensures (buf + parts[0]) + rest[|parts[0]|..] == buf + rest
  {
    assert Concat(parts) == parts[0] + Concat(parts[1..]);
    assert rest[|parts[0]|..] == Concat(parts[1..]);
    assert forall i | 0 <= i < |parts| - 1 :: parts[1..][i] == parts[i + 1];
    assert rest == parts[0] + rest[|parts[0]|..];
  }

  /** An end that comes at the limit or one byte later is found in every division. */
  lemma {:induction false} ShortIsFound(buf: seq<byte>, parts: seq<seq<byte>>, rest: seq<byte>, e: nat)
    requires Division(parts, rest) && FindEnd(buf + rest) == Some(e) && e <= MAX_HEADER_BYTES + 1
    ensures HeadOver(buf, parts) == Found(e)
    decreases |parts|
  {
    FindEndStable(buf, rest);
    if FindEnd(buf).None? {
      assert |parts| == 0 ==> buf + rest == buf;
      if |parts| > 0 {
        FirstRead(buf, parts, rest);
        ShortIsFound(buf + parts[0], parts[1..], rest[|parts[0]|..], e);
      }
    }
  }

  /** One that comes more than a read past the limit is found in none. */
  lemma {:induction false} LongIsRefused(buf: seq<byte>, parts: seq<seq<byte>>, rest: seq<byte>, e: nat)
    requires Division(parts, rest) && FindEnd(buf + rest) == Some(e)
    requires e > MAX_HEADER_BYTES + HEAD_READ && |buf| <= MAX_HEADER_BYTES + HEAD_READ
    ensures HeadOver(buf, parts).TooLarge?
    decreases |parts|
  {
    FindEndStable(buf, rest);
    if |buf| <= MAX_HEADER_BYTES {
      assert |parts| == 0 ==> buf + rest == buf;
      if |parts| > 0 {
        FirstRead(buf, parts, rest);
        LongIsRefused(buf + parts[0], parts[1..], rest[|parts[0]|..], e);
      }
    }
  }

  /** One byte at a time. */
  function Singles(s: seq<byte>): seq<seq<byte>>
    decreases |s|
  {
    if |s| == 0 then [] else [s[..1]] + Singles(s[1..])
  }

  lemma {:induction false} SinglesDivide(s: seq<byte>)
    ensures Division(Singles(s), s)
    decreases |s|
  {
    if |s| > 0 {
      SinglesDivide(s[1..]);
      assert Singles(s)[0] == s[..1] && Singles(s)[1..] == Singles(s[1..]);
      assert s == s[..1] + s[1..];
    }
  }

  lemma {:induction false} SinglesAreRefused(buf: seq<byte>, rest: seq<byte>, e: nat)
    requires FindEnd(buf + rest) == Some(e) && e > MAX_HEADER_BYTES + 1 && |buf| <= MAX_HEADER_BYTES + 1
    ensures HeadOver(buf, Singles(rest)).TooLarge?
    decreases |rest|
  {
    FindEndStable(buf, rest);
    if |buf| <= MAX_HEADER_BYTES {
      assert |rest| == 0 ==> buf + rest == buf;
      assert buf + rest[..1] + rest[1..] == buf + rest;
      SinglesAreRefused(buf + rest[..1], rest[1..], e);
      assert Singles(rest)[1..] == Singles(rest[1..]);
    }
  }

  /** One byte at a time up to the limit, then as much as one read takes. */
  function Leap(room: nat, s: seq<byte>): seq<seq<byte>>
    decreases room
  {
    if |s| == 0 then []
    else if room > 0 then [s[..1]] + Leap(room - 1, s[1..])
    else
      var n := if |s| < HEAD_READ then |s| else HEAD_READ;
      [s[..n]] + Singles(s[n..])
  }

  lemma {:induction false} LeapDivides(room: nat, s: seq<byte>)
    ensures Division(Leap(room, s), s)
    decreases room
  {
    if |s| > 0 {
      if room > 0 {
        LeapDivides(room - 1, s[1..]);
        FirstPart(s, 1, Leap(room - 1, s[1..]));
      } else {
        var n := if |s| < HEAD_READ then |s| else HEAD_READ;
        SinglesDivide(s[n..]);
        FirstPart(s, n, Singles(s[n..]));
      }
    }
  }

  lemma {:induction false} FirstPart(s: seq<byte>, n: nat, more: seq<seq<byte>>)
    requires 0 < n <= |s| && n <= HEAD_READ && Division(more, s[n..])
    ensures Division([s[..n]] + more, s)
  {
    var parts := [s[..n]] + more;
    assert parts[1..] == more && parts[0] == s[..n];
    assert s == s[..n] + s[n..];
  }

  lemma {:induction false} LeapFinds(buf: seq<byte>, rest: seq<byte>, e: nat)
    requires FindEnd(buf + rest) == Some(e) && e <= MAX_HEADER_BYTES + HEAD_READ && |buf| <= MAX_HEADER_BYTES
    ensures HeadOver(buf, Leap(MAX_HEADER_BYTES - |buf|, rest)) == Found(e)
    decreases |rest|
  {
    FindEndStable(buf, rest);
    if FindEnd(buf).None? {
      assert |rest| == 0 ==> buf + rest == buf;
      var parts := Leap(MAX_HEADER_BYTES - |buf|, rest);
      LeapDivides(MAX_HEADER_BYTES - |buf|, rest);
      FirstRead(buf, parts, rest);
      if |buf| < MAX_HEADER_BYTES {
        assert parts[0] == rest[..1] && parts[1..] == Leap(MAX_HEADER_BYTES - |buf| - 1, rest[1..]);
        LeapFinds(buf + rest[..1], rest[1..], e);
      } else {
        FindEndStable(buf + parts[0], rest[|parts[0]|..]);
      }
    }
  }

  /** A head whose end has not arrived yet is found in every division of what follows exactly up to one byte over the
      limit, and refused in every division exactly if it is more than one read over. */
  lemma {:induction false} HeadLimitExactly(buf: seq<byte>, rest: seq<byte>, e: nat)
    requires FindEnd(buf + rest) == Some(e) && FindEnd(buf).None? && |buf| <= MAX_HEADER_BYTES
    ensures FoundAlways(buf, rest) <==> e <= MAX_HEADER_BYTES + 1
    ensures RefusedAlways(buf, rest) <==> e > MAX_HEADER_BYTES + HEAD_READ
  {
    forall parts | Division(parts, rest)
      ensures e <= MAX_HEADER_BYTES + 1 ==> HeadOver(buf, parts).Found?
      ensures e > MAX_HEADER_BYTES + HEAD_READ ==> HeadOver(buf, parts).TooLarge?
    {
      if e <= MAX_HEADER_BYTES + 1 { ShortIsFound(buf, parts, rest, e); }
      if e > MAX_HEADER_BYTES + HEAD_READ { LongIsRefused(buf, parts, rest, e); }
    }
    if e > MAX_HEADER_BYTES + 1 {
      SinglesDivide(rest);
      SinglesAreRefused(buf, rest, e);
      assert !HeadOver(buf, Singles(rest)).Found?;
    }
    if e <= MAX_HEADER_BYTES + HEAD_READ {
      var parts := Leap(MAX_HEADER_BYTES - |buf|, rest);
      LeapDivides(MAX_HEADER_BYTES - |buf|, rest);
      LeapFinds(buf, rest, e);
      assert !HeadOver(buf, parts).TooLarge?;
    }
  }

  /** n bytes with no line end among them, and the blank line. */
  function PlainHead(n: nat): seq<byte> {
    if n == 0 then BLANK_LINE else [97] + PlainHead(n - 1)
  }

  lemma {:induction false} PlainHeadEnds(n: nat)
    ensures |PlainHead(n)| == n + 4 && FindEnd(PlainHead(n)) == Some(n + 4)
  {
    PlainHeadIs(n);
    var s := PlainHead(n);
    forall i | 4 <= i < n + 4
      ensures !BlankBefore(s, i)
    {
      assert s[i - 4..i][0] == 97;
    }
    OneFirstBlank(s, n + 4);
  }

  lemma {:induction false} PlainHeadIs(n: nat)
    ensures |PlainHead(n)| == n + 4 && PlainHead(n)[n..n + 4] == BLANK_LINE
    ensures forall i | 0 <= i < n :: PlainHead(n)[i] == 97
    decreases n
  {
    if n > 0 {
      PlainHeadIs(n - 1);
      assert PlainHead(n)[n..n + 4] == PlainHead(n - 1)[n - 1..n + 3];
    } else {
      assert BLANK_LINE[0..4] == BLANK_LINE;
    }
  }

  /** A head of the limit and two bytes: refused if it comes one byte at a time, found if the last read is long. */
  lemma {:induction false} SameHeadBothWays(n: nat) returns (slow: seq<seq<byte>>, fast: seq<seq<byte>>)
    requires n == MAX_HEADER_BYTES - 2
    ensures Division(slow, PlainHead(n)) && HeadOver([], slow).TooLarge?
    ensures Division(fast, PlainHead(n)) && HeadOver([], fast) == Found(MAX_HEADER_BYTES + 2)
  {
    var s := PlainHead(n);
    PlainHeadEnds(n);
    assert [] + s == s;
    slow, fast := Singles(s), Leap(MAX_HEADER_BYTES, s);
    SinglesDivide(s);
    LeapDivides(MAX_HEADER_BYTES, s);
    SinglesAreRefused([], s, n + 4);
    LeapFinds([], s, n + 4);
  }
}
