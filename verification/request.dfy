/** The flat request encoding: a table of offsets followed by one blob. */
module Request {
  import opened Bytes

  const TABLE_FIXED := 80
  const FIELD_ENTRY := 16
  const BODY_ENTRY := 8

  /** A place in the blob, as stored in the table. */
  datatype Pair = Pair(off: u32, len: u32)

  datatype Field = Field(name: seq<byte>, value: seq<byte>)
  datatype FieldEntry = FieldEntry(name: Pair, value: Pair)

  /** The slots a setter fills, in table order; the body's entry follows the fields. */
  datatype Slot = Method | Path | Target | Query | Version | RemoteAddr | ServerName | Body

  function Index(s: Slot): nat {
    match s
    case Method => 0 case Path => 1 case Target => 2 case Query => 3
    case Version => 4 case RemoteAddr => 5 case ServerName => 6 case Body => 7
  }

  datatype BwpError = Truncated(expected: nat, actual: nat) | OutOfBounds(off: nat, len: nat, blob: nat)

  /** What the router means to say. */
  datatype Content = Content(texts: seq<seq<byte>>, contentLength: u64, serverPort: u16, fields: seq<Field>)

  /** What the builder holds. */
  datatype Layout = Layout(blob: seq<byte>, texts: seq<Pair>, contentLength: u64, serverPort: u16,
                           fields: seq<FieldEntry>)

  // --- reading ---

  datatype View = View(payload: seq<byte>, blobOff: nat, fieldsCount: nat)

  function TableLen(fields: nat): nat { TABLE_FIXED + fields * FIELD_ENTRY + BODY_ENTRY }

  ghost predicate WellFormed(v: View) {
    TableLen(v.fieldsCount) <= v.blobOff <= |v.payload|
  }

  function Parse(payload: seq<byte>): (r: Result<View, BwpError>)
    ensures r.Ok? ==> WellFormed(r.value) && r.value.payload == payload
  {
    if |payload| < TABLE_FIXED then Err(Truncated(TABLE_FIXED, |payload|))
    else
      var blobOff, count := ReadLe32(payload, 0), ReadLe32(payload, 76);
      if |payload| < TableLen(count) || blobOff < TableLen(count) || blobOff > |payload|
      then Err(Truncated(TableLen(count), |payload|))
      else Ok(View(payload, blobOff, count))
  }

  /** Whatever the table says, the slice lies inside the blob. */
  function SliceAt(v: View, pos: nat): (r: Result<seq<byte>, BwpError>)
    requires WellFormed(v) && pos + 8 <= TableLen(v.fieldsCount)
    ensures r.Ok? ==>
      var start := v.blobOff + ReadLe32(v.payload, pos);
      v.blobOff <= start && start + |r.value| <= |v.payload| && r.value == v.payload[start..start + |r.value|]
  {
    var off, len := ReadLe32(v.payload, pos), ReadLe32(v.payload, pos + 4);
    var start := v.blobOff + off;
    var end := start + len;
    if end > |v.payload| then Err(OutOfBounds(off, len, |v.payload|)) else Ok(v.payload[start..end])
  }

  /** Where a slot's entry stands in the table. */
  function Position(s: Slot, fields: nat): (pos: nat)
    ensures pos + 8 <= TableLen(fields)
  {
    if s.Body? then TABLE_FIXED + fields * FIELD_ENTRY else 4 + 8 * Index(s)
  }

  /** The accessors `method` to `server_name`, and `preread_body`. */
  function Text(v: View, s: Slot): Result<seq<byte>, BwpError>
    requires WellFormed(v)
  {
    SliceAt(v, Position(s, v.fieldsCount))
  }

  function ContentLength(v: View): u64
    requires WellFormed(v)
  {
    ReadLe64(v.payload, 60)
  }

  /** `as u16` keeps the low half. */
  function ServerPort(v: View): u16
    requires WellFormed(v)
  {
    ReadLe32(v.payload, 72) % 0x1_0000
  }

  function FieldAt(v: View, i: nat): Result<Field, BwpError>
    requires WellFormed(v) && i < v.fieldsCount
  {
    var base := TABLE_FIXED + i * FIELD_ENTRY;
    match SliceAt(v, base)
    case Err(e) => Err(e)
    case Ok(name) =>
      match SliceAt(v, base + 8)
      case Err(e) => Err(e)
      case Ok(value) => Ok(Field(name, value))
  }

  // --- writing ---

  function EncodePair(p: Pair): (s: seq<byte>)
    ensures |s| == 8
  {
    Le(p.off, 4) + Le(p.len, 4)
  }

  function Pairs(ps: seq<Pair>): (s: seq<byte>)
    ensures |s| == 8 * |ps|
  {
    if ps == [] then [] else Pairs(ps[..|ps| - 1]) + EncodePair(ps[|ps| - 1])
  }

  function Flatten(fs: seq<FieldEntry>): (ps: seq<Pair>)
    ensures |ps| == 2 * |fs|
  {
    if fs == [] then [] else Flatten(fs[..|fs| - 1]) + [fs[|fs| - 1].name, fs[|fs| - 1].value]
  }

  /** The `as u32` cast of a count or a length. */
  function Cast(n: nat): u32 { n % U32_LIMIT }

  function Scalars(l: Layout): (s: seq<byte>)
    ensures |s| == 20
  {
    Le(l.contentLength, 8) + Le(0, 4) + Le(l.serverPort, 4) + Le(Cast(|l.fields|), 4)
  }

  /** The bytes `finish` returns. */
  function Encode(l: Layout): seq<byte>
    requires |l.texts| == 8
  {
    Head(l) + Pairs(l.texts[..7]) + Scalars(l) + Pairs(Tail(l)) + l.blob
  }

  /** The blob holds v where p says. */
  ghost predicate Located(blob: seq<byte>, p: Pair, v: seq<byte>) {
    p.len == |v| && p.off + |v| <= |blob| && blob[p.off..p.off + |v|] == v
  }

  ghost predicate Represents(l: Layout, c: Content) {
    && |l.texts| == 8 == |c.texts| && |l.fields| == |c.fields|
    && l.contentLength == c.contentLength && l.serverPort == c.serverPort
    && (forall i | 0 <= i < 8 :: Located(l.blob, l.texts[i], c.texts[i]))
    && (forall i | 0 <= i < |l.fields| :: Located(l.blob, l.fields[i].name, c.fields[i].name)
                                          && Located(l.blob, l.fields[i].value, c.fields[i].value))
  }

  lemma {:induction false} LocatedLater(blob: seq<byte>, more: seq<byte>, p: Pair, v: seq<byte>)
    requires Located(blob, p, v)
    ensures Located(blob + more, p, v)
  {
    assert (blob + more)[p.off..p.off + |v|] == blob[p.off..p.off + |v|];
  }

  lemma {:induction false} RepresentsLater(l: Layout, c: Content, more: seq<byte>)
    requires Represents(l, c)
    ensures Represents(l.(blob := l.blob + more), c)
  {
    forall i | 0 <= i < 8
      ensures Located(l.blob + more, l.texts[i], c.texts[i])
    {
      LocatedLater(l.blob, more, l.texts[i], c.texts[i]);
    }
    forall i | 0 <= i < |l.fields|
      ensures Located(l.blob + more, l.fields[i].name, c.fields[i].name)
      ensures Located(l.blob + more, l.fields[i].value, c.fields[i].value)
    {
      LocatedLater(l.blob, more, l.fields[i].name, c.fields[i].name);
      LocatedLater(l.blob, more, l.fields[i].value, c.fields[i].value);
    }
  }

  // --- reading back what was written ---

  lemma {:induction false} PairReads(buf: seq<byte>, pos: nat, p: Pair)
    requires At(buf, pos, EncodePair(p))
    ensures ReadLe32(buf, pos) == p.off && ReadLe32(buf, pos + 4) == p.len
  {
    Spans();
    AtParts(buf, pos, Le(p.off, 4), Le(p.len, 4));
    ReadLeAt(buf, pos, p.off, 4);
    ReadLeAt(buf, pos + 4, p.len, 4);
  }

  lemma {:induction false} PairAt(buf: seq<byte>, pos: nat, ps: seq<Pair>, i: nat)
    requires At(buf, pos, Pairs(ps)) && i < |ps|
    ensures pos + 8 * i + 8 <= |buf|
    ensures ReadLe32(buf, pos + 8 * i) == ps[i].off && ReadLe32(buf, pos + 8 * i + 4) == ps[i].len
  {
    var n := |ps| - 1;
    AtParts(buf, pos, Pairs(ps[..n]), EncodePair(ps[n]));
    if i < n {
      PairAt(buf, pos, ps[..n], i);
    } else {
      PairReads(buf, pos + 8 * n, ps[n]);
    }
  }

  lemma {:induction false} FlattenAt(fs: seq<FieldEntry>, i: nat)
    requires i < |fs|
    ensures Flatten(fs)[2 * i] == fs[i].name && Flatten(fs)[2 * i + 1] == fs[i].value
  {
    if i < |fs| - 1 {
      FlattenAt(fs[..|fs| - 1], i);
    }
  }

  /** The sizes fit the table's 32-bit entries. */
  predicate Fits(l: Layout) {
    TableLen(|l.fields|) < U32_LIMIT && |l.blob| < U32_LIMIT
  }

  function Head(l: Layout): (s: seq<byte>)
    ensures |s| == 4
  {
    Le(Cast(TableLen(|l.fields|)), 4)
  }

  /** The entries after the scalars. */
  function Tail(l: Layout): (ps: seq<Pair>)
    requires |l.texts| == 8
    ensures |ps| == 2 * |l.fields| + 1
  {
    Flatten(l.fields) + [l.texts[7]]
  }

  lemma {:induction false} FivePlaces(buf: seq<byte>, a: seq<byte>, b: seq<byte>, c: seq<byte>, d: seq<byte>, e: seq<byte>)
    requires buf == a + b + c + d + e
    ensures At(buf, 0, a) && At(buf, |a|, b) && At(buf, |a| + |b|, c) && At(buf, |a| + |b| + |c|, d)
    ensures At(buf, |a| + |b| + |c| + |d|, e) && |buf| == |a| + |b| + |c| + |d| + |e|
  {
    assert At(buf, 0, buf);
    AtParts(buf, 0, a + b + c + d, e);
    AtParts(buf, 0, a + b + c, d);
    AtParts(buf, 0, a + b, c);
    AtParts(buf, 0, a, b);
  }

  /** The parts of the encoding stand where the table says. */
  ghost predicate Laid(buf: seq<byte>, l: Layout)
    requires |l.texts| == 8
  {
    && |buf| == TableLen(|l.fields|) + |l.blob|
    && At(buf, 0, Head(l)) && At(buf, 4, Pairs(l.texts[..7])) && At(buf, 60, Scalars(l))
    && At(buf, TABLE_FIXED, Pairs(Tail(l))) && At(buf, TableLen(|l.fields|), l.blob)
  }

  lemma {:induction false} Places(l: Layout)
    requires |l.texts| == 8
    ensures Laid(Encode(l), l)
  {
    FivePlaces(Encode(l), Head(l), Pairs(l.texts[..7]), Scalars(l), Pairs(Tail(l)), l.blob);
  }

  lemma {:induction false} FourScalars(buf: seq<byte>, pos: nat, a: seq<byte>, b: seq<byte>, c: seq<byte>, d: seq<byte>)
    requires At(buf, pos, a + b + c + d) && |a| == 8 && |b| == 4 && |c| == 4
    ensures At(buf, pos, a) && At(buf, pos + 12, c) && At(buf, pos + 16, d)
  {
    AtParts(buf, pos, a + b + c, d);
    AtParts(buf, pos, a + b, c);
    AtParts(buf, pos, a, b);
  }

  lemma {:induction false} CastKeeps(n: nat)
    requires TableLen(n) < U32_LIMIT
    ensures Cast(n) == n
  {
  }

  lemma {:induction false} ThreeRead(buf: seq<byte>, pos: nat, length: u64, gap: seq<byte>, port: u32, count: u32)
    requires |gap| == 4 && At(buf, pos, Le(length, 8) + gap + Le(port, 4) + Le(count, 4))
    ensures ReadLe64(buf, pos) == length && ReadLe32(buf, pos + 12) == port && ReadLe32(buf, pos + 16) == count
  {
    FourScalars(buf, pos, Le(length, 8), gap, Le(port, 4), Le(count, 4));
    Spans();
    ReadLeAt(buf, pos, length, 8);
    ReadLeAt(buf, pos + 12, port, 4);
    ReadLeAt(buf, pos + 16, count, 4);
  }

  lemma {:induction false} ScalarsRead(buf: seq<byte>, pos: nat, l: Layout)
    requires Fits(l) && At(buf, pos, Scalars(l))
    ensures ReadLe64(buf, pos) == l.contentLength && ReadLe32(buf, pos + 12) == l.serverPort
    ensures ReadLe32(buf, pos + 16) == |l.fields|
  {
    CastKeeps(|l.fields|);
    ThreeRead(buf, pos, l.contentLength, Le(0, 4), l.serverPort, Cast(|l.fields|));
  }

  /** The view a buffer so laid out parses to. */
  function ViewOf(buf: seq<byte>, l: Layout): View {
    View(buf, TableLen(|l.fields|), |l.fields|)
  }

  lemma {:induction false} ParseAccepts(buf: seq<byte>, blobOff: nat, count: nat)
    requires TableLen(count) <= blobOff <= |buf| && ReadLe32(buf, 0) == blobOff && ReadLe32(buf, 76) == count
    ensures Parse(buf) == Ok(View(buf, blobOff, count))
  {
  }

  lemma {:induction false} HeadReads(buf: seq<byte>, n: nat)
    requires n < U32_LIMIT && At(buf, 0, Le(n, 4))
    ensures ReadLe32(buf, 0) == n
  {
    Spans();
    ReadLeAt(buf, 0, n, 4);
  }

  lemma {:induction false} FixedPartReads(buf: seq<byte>, l: Layout, n: nat)
    requires Fits(l) && n == TableLen(|l.fields|) && n <= |buf| && At(buf, 0, Le(n, 4)) && At(buf, 60, Scalars(l))
    ensures ReadLe32(buf, 0) == n && ReadLe64(buf, 60) == l.contentLength && ReadLe32(buf, 72) == l.serverPort
    ensures ReadLe32(buf, 76) == |l.fields|
  {
    HeadReads(buf, n);
    ScalarsRead(buf, 60, l);
  }

  lemma {:induction false} ParsesFrom(buf: seq<byte>, n: nat, count: nat, length: u64, port: u16)
    requires n == TableLen(count) && n <= |buf| && ReadLe32(buf, 0) == n && ReadLe32(buf, 76) == count
    requires ReadLe64(buf, 60) == length && ReadLe32(buf, 72) == port
    ensures Parse(buf) == Ok(View(buf, n, count))
    ensures ContentLength(View(buf, n, count)) == length && ServerPort(View(buf, n, count)) == port
  {
    ParseAccepts(buf, n, count);
  }

  lemma {:induction false} HeadIs(l: Layout, n: nat)
    requires n == TableLen(|l.fields|) < U32_LIMIT
    ensures Head(l) == Le(n, 4)
  {
  }

  lemma {:induction false} ParsesBack(buf: seq<byte>, l: Layout)
    requires |l.texts| == 8 && Fits(l) && Laid(buf, l)
    ensures Parse(buf) == Ok(ViewOf(buf, l))
    ensures ContentLength(ViewOf(buf, l)) == l.contentLength && ServerPort(ViewOf(buf, l)) == l.serverPort
  {
    var n := TableLen(|l.fields|);
    HeadIs(l, n);
    FixedPartReads(buf, l, n);
    ParsesFrom(buf, n, |l.fields|, l.contentLength, l.serverPort);
  }

  lemma {:induction false} SliceReads(v: View, blob: seq<byte>, p: Pair, value: seq<byte>, pos: nat)
    requires WellFormed(v) && At(v.payload, v.blobOff, blob) && Located(blob, p, value)
    requires pos + 8 <= TableLen(v.fieldsCount)
    requires ReadLe32(v.payload, pos) == p.off && ReadLe32(v.payload, pos + 4) == p.len
    ensures SliceAt(v, pos) == Ok(value)
  {
    SubSlice(v.payload, v.blobOff, blob, p.off, p.len);
  }

  /** A value whose pair stands in the table is what the accessor finds. */
  lemma {:induction false} EntryReads(v: View, blob: seq<byte>, first: nat, ps: seq<Pair>, i: nat, value: seq<byte>, pos: nat)
    requires WellFormed(v) && At(v.payload, v.blobOff, blob) && At(v.payload, first, Pairs(ps))
    requires i < |ps| && Located(blob, ps[i], value) && pos == first + 8 * i && pos + 8 <= TableLen(v.fieldsCount)
    ensures SliceAt(v, pos) == Ok(value)
  {
    PairThere(v.payload, first, ps, i, ps[i], pos);
    SliceReads(v, blob, ps[i], value, pos);
  }

  lemma {:induction false} SlicesMakeField(v: View, i: nat, f: Field)
    requires WellFormed(v) && i < v.fieldsCount
    requires SliceAt(v, TABLE_FIXED + i * FIELD_ENTRY) == Ok(f.name)
    requires SliceAt(v, TABLE_FIXED + i * FIELD_ENTRY + 8) == Ok(f.value)
    ensures FieldAt(v, i) == Ok(f)
  {
  }

  lemma {:induction false} SamePlace(buf: seq<byte>, a: nat, b: nat)
    requires a == b && a + 8 <= |buf|
    ensures ReadLe32(buf, a) == ReadLe32(buf, b) && ReadLe32(buf, a + 4) == ReadLe32(buf, b + 4)
  {
  }

  /** One entry of the table, at a known place. */
  lemma {:induction false} PairThere(buf: seq<byte>, pos: nat, ps: seq<Pair>, i: nat, p: Pair, there: nat)
    requires At(buf, pos, Pairs(ps)) && i < |ps| && ps[i] == p && there == pos + 8 * i
    ensures there + 8 <= |buf| && ReadLe32(buf, there) == p.off && ReadLe32(buf, there + 4) == p.len
  {
    PairAt(buf, pos, ps, i);
    SamePlace(buf, there, pos + 8 * i);
  }

  lemma {:induction false} FieldPlaces(l: Layout, i: nat)
    requires |l.texts| == 8 && i < |l.fields|
    ensures Tail(l)[2 * i] == l.fields[i].name && Tail(l)[2 * i + 1] == l.fields[i].value
  {
    FlattenAt(l.fields, i);
  }

  lemma {:induction false} TextReadsBack(buf: seq<byte>, l: Layout, c: Content, s: Slot)
    requires Represents(l, c) && Laid(buf, l)
    ensures Text(ViewOf(buf, l), s) == Ok(c.texts[Index(s)])
  {
    var i, pos := Index(s), Position(s, |l.fields|);
    if s.Body? {
      EntryReads(ViewOf(buf, l), l.blob, TABLE_FIXED, Tail(l), 2 * |l.fields|, c.texts[i], pos);
    } else {
      EntryReads(ViewOf(buf, l), l.blob, 4, l.texts[..7], i, c.texts[i], pos);
    }
  }

  /** Entry k of those after the scalars. */
  lemma {:induction false} TailReads(v: View, l: Layout, k: nat, value: seq<byte>, pos: nat)
    requires |l.texts| == 8 && WellFormed(v) && At(v.payload, v.blobOff, l.blob) && At(v.payload, TABLE_FIXED, Pairs(Tail(l)))
    requires k < |Tail(l)| && Located(l.blob, Tail(l)[k], value)
    requires pos == TABLE_FIXED + 8 * k && pos + 8 <= TableLen(v.fieldsCount)
    ensures SliceAt(v, pos) == Ok(value)
  {
    EntryReads(v, l.blob, TABLE_FIXED, Tail(l), k, value, pos);
  }

  lemma {:induction false} FieldNameReads(buf: seq<byte>, l: Layout, c: Content, i: nat, pos: nat)
    requires Represents(l, c) && Laid(buf, l) && i < |l.fields| && pos == TABLE_FIXED + i * FIELD_ENTRY
    ensures SliceAt(ViewOf(buf, l), pos) == Ok(c.fields[i].name)
  {
    FieldPlaces(l, i);
    TailReads(ViewOf(buf, l), l, 2 * i, c.fields[i].name, pos);
  }

  lemma {:induction false} FieldValueReads(buf: seq<byte>, l: Layout, c: Content, i: nat, pos: nat)
    requires Represents(l, c) && Laid(buf, l) && i < |l.fields| && pos == TABLE_FIXED + i * FIELD_ENTRY + 8
    ensures SliceAt(ViewOf(buf, l), pos) == Ok(c.fields[i].value)
  {
    FieldPlaces(l, i);
    TailReads(ViewOf(buf, l), l, 2 * i + 1, c.fields[i].value, pos);
  }

  lemma {:induction false} FieldReadsBack(buf: seq<byte>, l: Layout, c: Content, i: nat)
    requires Represents(l, c) && Laid(buf, l) && i < |l.fields|
    ensures FieldAt(ViewOf(buf, l), i) == Ok(c.fields[i])
  {
    var pos := TABLE_FIXED + i * FIELD_ENTRY;
    FieldNameReads(buf, l, c, i, pos);
    FieldValueReads(buf, l, c, i, pos + 8);
    SlicesMakeField(ViewOf(buf, l), i, c.fields[i]);
  }

  /** Everything a view reports. */
  ghost predicate Shows(v: View, c: Content) {
    && WellFormed(v) && v.fieldsCount == |c.fields| && |c.texts| == 8
    && ContentLength(v) == c.contentLength && ServerPort(v) == c.serverPort
    && (forall s: Slot :: Text(v, s) == Ok(c.texts[Index(s)]))
    && (forall i | 0 <= i < |c.fields| :: FieldAt(v, i) == Ok(c.fields[i]))
  }

  lemma {:induction false} LaidRoundTrip(buf: seq<byte>, l: Layout, c: Content)
    requires Represents(l, c) && Fits(l) && Laid(buf, l)
    ensures Parse(buf).Ok? && Shows(Parse(buf).value, c)
  {
    ParsesBack(buf, l);
    forall s: Slot
      ensures Text(ViewOf(buf, l), s) == Ok(c.texts[Index(s)])
    {
      TextReadsBack(buf, l, c, s);
    }
    forall i | 0 <= i < |c.fields|
      ensures FieldAt(ViewOf(buf, l), i) == Ok(c.fields[i])
    {
      FieldReadsBack(buf, l, c, i);
    }
  }

  /** The worker sees what the router meant. */
  lemma {:induction false} RoundTrip(l: Layout, c: Content)
    requires Represents(l, c) && Fits(l)
    ensures Parse(Encode(l)).Ok? && Shows(Parse(Encode(l)).value, c)
  {
    Places(l);
    LaidRoundTrip(Encode(l), l, c);
  }

  // --- the builder ---

  /** Nothing said yet. */
  function Blank(): Content { Content([[], [], [], [], [], [], [], []], 0, 0, []) }

  class RequestBuilder {
    var table: seq<byte>
    var blob: seq<byte>
    var fields: seq<FieldEntry>
    var texts: seq<Pair>
    var length: u64
    var port: u16
    /** What has been set. */
    ghost var content: Content

    ghost function State(): Layout
      reads this
    {
      Layout(blob, texts, length, port, fields)
    }

    /** While the blob is smaller than 4 GiB no offset has been truncated. */
    ghost predicate Valid()
      reads this
    {
      |texts| == 8 && |content.texts| == 8 && |fields| == |content.fields|
      && (|blob| < U32_LIMIT ==> Represents(State(), content))
    }

    constructor ()
      ensures Valid() && content == Blank()
    {
      table, blob, fields := [], [], [];
      texts := [Pair(0, 0), Pair(0, 0), Pair(0, 0), Pair(0, 0), Pair(0, 0), Pair(0, 0), Pair(0, 0), Pair(0, 0)];
      length, port := 0, 0;
      content := Blank();
    }

    method Append(data: seq<byte>) returns (p: Pair)
      requires Valid()
      modifies this`blob
      ensures Valid() && blob == old(blob) + data
      ensures |blob| < U32_LIMIT ==> Located(blob, p, data)
    {
      p := Pair(|blob| % U32_LIMIT, |data| % U32_LIMIT);
      if |blob| < U32_LIMIT {
        RepresentsLater(State(), content, data);
      }
      blob := blob + data;
    }

    /** The seven text setters and `preread_body`: the last value set counts. */
    method Set(s: Slot, v: seq<byte>)
      requires Valid()
      modifies this`blob, this`texts, this`content
      ensures Valid()
      ensures content == old(content).(texts := old(content).texts[Index(s) := v])
    {
      var p := Append(v);
      texts := texts[Index(s) := p];
      content := content.(texts := content.texts[Index(s) := v]);
    }

    method SetContentLength(v: u64)
      requires Valid()
      modifies this`length, this`content
      ensures Valid() && content == old(content).(contentLength := v)
    {
      length := v;
      content := content.(contentLength := v);
    }

    method SetServerPort(v: u16)
      requires Valid()
      modifies this`port, this`content
      ensures Valid() && content == old(content).(serverPort := v)
    {
      port := v;
      content := content.(serverPort := v);
    }

    method AddField(name: seq<byte>, value: seq<byte>)
      requires Valid()
      modifies this`blob, this`fields, this`content
      ensures Valid()
      ensures content == old(content).(fields := old(content).fields + [Field(name, value)])
    {
      var n := Append(name);
      ghost var mid := blob;
      var v := Append(value);
      if |blob| < U32_LIMIT {
        LocatedLater(mid, value, n, name);
      }
      fields := fields + [FieldEntry(n, v)];
      content := content.(fields := content.fields + [Field(name, value)]);
    }

    /** The encoding of everything set so far; setting can go on afterwards, and a second call gives the
        same bytes. */
    method Finish() returns (payload: seq<byte>)
      requires Valid()
      modifies this`table
      ensures Valid() && payload == Encode(State())
      ensures Fits(State()) ==> Parse(payload).Ok? && Shows(Parse(payload).value, content)
    {
      table := [];
      PushTexts();
      table := table + Le(length, 8) + Le(0, 4) + Le(port, 4) + Le(Cast(|fields|), 4);
      AppendScalars(Head(State()) + Pairs(texts[..7]), State());
      PushFields();
      table := table + Le(texts[7].off, 4) + Le(texts[7].len, 4);
      AppendBody(Head(State()) + Pairs(texts[..7]) + Scalars(State()), State());
      payload := table + blob;
      table := [];
      if Fits(State()) {
        RoundTrip(State(), content);
      }
    }

    /** The table up to the seven text pairs. */
    method PushTexts()
      requires Valid() && table == []
      modifies this`table
      ensures table == Head(State()) + Pairs(texts[..7])
    {
      table := Le(Cast(TableLen(|fields|)), 4);
      ghost var front := table;
      for i := 0 to 7
        invariant table == front + Pairs(texts[..i])
      {
        AppendPair(front, texts[..i], texts[i]);
        assert texts[..i] + [texts[i]] == texts[..i + 1];
        table := table + Le(texts[i].off, 4) + Le(texts[i].len, 4);
      }
    }

    method PushFields()
      modifies this`table
      ensures table == old(table) + Pairs(Flatten(fields))
    {
      ghost var front := table;
      for i := 0 to |fields|
        invariant table == front + Pairs(Flatten(fields[..i]))
      {
        AppendField(front, fields[..i], fields[i]);
        assert fields[..i] + [fields[i]] == fields[..i + 1];
        table := table + Le(fields[i].name.off, 4) + Le(fields[i].name.len, 4)
          + Le(fields[i].value.off, 4) + Le(fields[i].value.len, 4);
      }
      assert fields[..|fields|] == fields;
    }
  }

  lemma {:induction false} AppendPair(front: seq<byte>, ps: seq<Pair>, p: Pair)
    ensures front + Pairs(ps) + Le(p.off, 4) + Le(p.len, 4) == front + Pairs(ps + [p])
  {
    assert (ps + [p])[..|ps|] == ps;
  }

  lemma {:induction false} AppendField(front: seq<byte>, fs: seq<FieldEntry>, f: FieldEntry)
    ensures front + Pairs(Flatten(fs)) + Le(f.name.off, 4) + Le(f.name.len, 4) + Le(f.value.off, 4) + Le(f.value.len, 4)
         == front + Pairs(Flatten(fs + [f]))
  {
    var ps := Flatten(fs);
    AppendPair(front, ps, f.name);
    AppendPair(front, ps + [f.name], f.value);
    assert (fs + [f])[..|fs|] == fs;
    assert ps + [f.name] + [f.value] == ps + [f.name, f.value];
  }

  lemma {:induction false} AppendScalars(front: seq<byte>, l: Layout)
    ensures front + Le(l.contentLength, 8) + Le(0, 4) + Le(l.serverPort, 4) + Le(Cast(|l.fields|), 4) == front + Scalars(l)
  {
  }

  lemma {:induction false} AppendBody(front: seq<byte>, l: Layout)
    requires |l.texts| == 8
    ensures front + Pairs(Flatten(l.fields)) + Le(l.texts[7].off, 4) + Le(l.texts[7].len, 4) == front + Pairs(Tail(l))
  {
    AppendPair(front, Flatten(l.fields), l.texts[7]);
  }
}
