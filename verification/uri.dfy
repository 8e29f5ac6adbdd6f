/** Request paths: percent-decoding and the collapse of dot segments. */
module Uri {
  import opened Bytes

  const SLASH: byte := 47
  const DOT: byte := 46
  const PERCENT: byte := 37

  // --- percent-decoding ---

  function Hex(b: byte): Option<byte> {
    if 48 <= b <= 57 then Some(b - 48)
    else if 97 <= b <= 102 then Some(b - 97 + 10)
    else if 65 <= b <= 70 then Some(b - 65 + 10)
    else None
  }

  /** An escape of two hexadecimal digits stands at i. */
  predicate EscapeAt(s: seq<byte>, i: nat) {
    i + 2 < |s| && s[i] == PERCENT && Hex(s[i + 1]).Some? && Hex(s[i + 2]).Some?
  }

  function EscapedByte(s: seq<byte>, i: nat): byte
    requires EscapeAt(s, i)
  {
    var hi: int, lo: int := Hex(s[i + 1]).value, Hex(s[i + 2]).value;
    (16 * hi + lo) % 256
  }

  /** b is the hexadecimal digit for v. */
  predicate HexFor(b: byte, v: int) {
    || (0 <= v < 10 && b as int == '0' as int + v)
    || (10 <= v < 16 && (b as int == 'a' as int + (v - 10) || b as int == 'A' as int + (v - 10)))
  }

  /** At i stand a percent sign and the digits for hi and lo. */
  predicate Spells(s: seq<byte>, i: nat, hi: int, lo: int) {
    i + 2 < |s| && s[i] as int == '%' as int && HexFor(s[i + 1], hi) && HexFor(s[i + 2], lo)
  }

  /** An escape is a percent sign and two hexadecimal digits of either case, and stands for the byte they spell. */
  lemma {:induction false} EscapeMeans(s: seq<byte>, i: nat)
    ensures EscapeAt(s, i) <==> exists hi, lo :: Spells(s, i, hi, lo)
    ensures EscapeAt(s, i) ==> forall hi, lo :: Spells(s, i, hi, lo) ==> EscapedByte(s, i) == 16 * hi + lo
  {
    if i + 2 < |s| {
      HexMeans(s[i + 1]);
      HexMeans(s[i + 2]);
      if EscapeAt(s, i) {
        assert Spells(s, i, Hex(s[i + 1]).value, Hex(s[i + 2]).value);
      }
    }
  }

  lemma {:induction false} HexMeans(b: byte)
    ensures Hex(b).Some? <==> exists v :: HexFor(b, v)
    ensures forall v :: HexFor(b, v) ==> Hex(b) == Some(v)
  {
    if Hex(b).Some? {
      assert HexFor(b, Hex(b).value);
    }
  }

  /** Anything that is not an escape stays as it is. */
  function Decode(s: seq<byte>): (r: seq<byte>)
    ensures |r| <= |s|
    decreases |s|
  {
    if |s| == 0 then []
    else if EscapeAt(s, 0) then [EscapedByte(s, 0)] + Decode(s[3..])
    else [s[0]] + Decode(s[1..])
  }

  lemma {:induction false} Regrouped(a: seq<byte>, b: seq<byte>, c: seq<byte>)
    ensures a + (b + c) == a + b + c
  {
  }

  method PercentDecode(input: seq<byte>) returns (out: seq<byte>)
    ensures out == Decode(input)
  {
    out := [];
    var i := 0;
    while i < |input|
      invariant i <= |input| && Decode(input) == out + Decode(input[i..])
      decreases |input| - i
    {
      DecodeAt(input, i);
      if EscapeAt(input, i) {
        Regrouped(out, [EscapedByte(input, i)], Decode(input[i + 3..]));
        out := out + [EscapedByte(input, i)];
        i := i + 3;
      } else {
        Regrouped(out, [input[i]], Decode(input[i + 1..]));
        out := out + [input[i]];
        i := i + 1;
      }
    }
    assert input[i..] == [];
  }

  lemma {:induction false} DecodeAt(s: seq<byte>, i: nat)
    requires i < |s|
    ensures Decode(s[i..]) == if EscapeAt(s, i) then [EscapedByte(s, i)] + Decode(s[i + 3..]) else [s[i]] + Decode(s[i + 1..])
  {
    var t := s[i..];
    assert t[0] == s[i] && t[1..] == s[i + 1..];
    if EscapeAt(s, i) {
      assert t[1] == s[i + 1] && t[2] == s[i + 2] && t[3..] == s[i + 3..];
    }
  }

  predicate HasEscape(s: seq<byte>) {
    exists i :: 0 <= i < |s| && EscapeAt(s, i)
  }

  /** Decoding leaves a string alone exactly when it has no escape, and shortens it otherwise. */
  lemma {:induction false} DecodeFixes(s: seq<byte>)
    ensures !HasEscape(s) ==> Decode(s) == s
    ensures HasEscape(s) ==> |Decode(s)| < |s|
    decreases |s|
  {
    if |s| > 0 && !EscapeAt(s, 0) {
      DecodeFixes(s[1..]);
      EscapeInRest(s, s[1..]);
      assert [s[0]] + s[1..] == s;
    }
  }

  lemma {:induction false} EscapeInRest(s: seq<byte>, t: seq<byte>)
    requires |s| > 0 && !EscapeAt(s, 0) && t == s[1..]
    ensures HasEscape(s) <==> HasEscape(t)
  {
    forall i: nat | i < |t|
      ensures EscapeAt(t, i) <==> EscapeAt(s, i + 1)
    {
    }
    assert forall i: nat | 0 < i < |s| :: EscapeAt(s, i) ==> t[i - 1] == s[i];
    if i: nat :| 0 < i < |s| && EscapeAt(s, i) {
      assert EscapeAt(t, i - 1);
    }
  }

  /** How a byte may be written: as itself, or as an escape with digits of either case. */
  datatype Style = Plain | Escaped(upperHigh: bool, upperLow: bool)

  function Digit(n: nat, upper: bool): byte
    requires n < 16
  {
    if n < 10 then 48 + n else if upper then 55 + n else 87 + n
  }

  function EncodeByte(b: byte, style: Style): seq<byte> {
    match style
    case Plain => [b]
    case Escaped(high, low) => [PERCENT, Digit(b / 16, high), Digit(b % 16, low)]
  }

  /** An encoding may leave any byte as it is, except the percent sign. */
  ghost predicate Encodes(p: seq<byte>, styles: seq<Style>) {
    |styles| == |p| && forall i | 0 <= i < |p| :: styles[i].Plain? ==> p[i] != PERCENT
  }

  function Encode(p: seq<byte>, styles: seq<Style>): seq<byte>
    requires |styles| == |p|
    decreases |p|
  {
    if |p| == 0 then [] else EncodeByte(p[0], styles[0]) + Encode(p[1..], styles[1..])
  }

  lemma DigitReads(n: nat, upper: bool)
    requires n < 16
    ensures Hex(Digit(n, upper)) == Some(n)
  {
  }

  lemma {:induction false} DecodeEncode(p: seq<byte>, styles: seq<Style>)
    requires Encodes(p, styles)
    ensures Decode(Encode(p, styles)) == p
    decreases |p|
  {
    if |p| > 0 {
      var rest := Encode(p[1..], styles[1..]);
      var s := Encode(p, styles);
      DecodeEncode(p[1..], styles[1..]);
      match styles[0] {
        case Plain => assert s[1..] == rest;
        case Escaped(high, low) =>
          DigitReads(p[0] / 16, high);
          DigitReads(p[0] % 16, low);
          assert s == [PERCENT, Digit(p[0] / 16, high), Digit(p[0] % 16, low)] + rest;
          assert s[3..] == rest && EscapeAt(s, 0) && EscapedByte(s, 0) == p[0];
      }
      assert [p[0]] + p[1..] == p;
    }
  }

  // --- segments ---

  /** `split` on the slash: always at least one segment. */
  function Split(s: seq<byte>): (r: seq<seq<byte>>)
    ensures |r| > 0
    decreases |s|
  {
    if |s| == 0 then [[]]
    else
      var rest := Split(s[1..]);
      if s[0] == SLASH then [[]] + rest else [[s[0]] + rest[0]] + rest[1..]
  }

  predicate Up(seg: seq<byte>) { seg == [DOT, DOT] }

  predicate Skipped(seg: seq<byte>) { seg == [] || seg == [DOT] }

  /** Not empty, and neither one dot nor two. */
  predicate Ordinary(seg: seq<byte>) { seg != [] && seg != [46] && seg != [46, 46] }

  function Walk(stack: seq<seq<byte>>, seg: seq<byte>): seq<seq<byte>> {
    if Skipped(seg) then stack
    else if Up(seg) then if |stack| == 0 then [] else stack[..|stack| - 1]
    else stack + [seg]
  }

  function Resolve(segs: seq<seq<byte>>): seq<seq<byte>>
    decreases |segs|
  {
    if |segs| == 0 then [] else Walk(Resolve(segs[..|segs| - 1]), segs[|segs| - 1])
  }

  /** Each segment behind a slash. */
  function Body(segs: seq<seq<byte>>): seq<byte>
    decreases |segs|
  {
    if |segs| == 0 then [] else Body(segs[..|segs| - 1]) + [SLASH] + segs[|segs| - 1]
  }

  predicate EndsWithSlash(s: seq<byte>) { |s| > 0 && s[|s| - 1] == SLASH }

  function Render(stack: seq<seq<byte>>, slash: bool): seq<byte> {
    if |stack| == 0 || slash then Body(stack) + [SLASH] else Body(stack)
  }

  function Normalize(path: seq<byte>): seq<byte> {
    var decoded := Decode(path);
    Render(Resolve(Split(decoded)), EndsWithSlash(decoded))
  }

  method NormalizePath(path: seq<byte>) returns (out: seq<byte>)
    ensures out == Normalize(path)
  {
    var decoded := PercentDecode(path);
    var segments := Split(decoded);
    var stack: seq<seq<byte>> := [];
    for i := 0 to |segments|
      invariant stack == Resolve(segments[..i])
    {
      assert segments[..i + 1][..i] == segments[..i];
      var segment := segments[i];
      if segment == [] || segment == [DOT] {
      } else if segment == [DOT, DOT] {
        if |stack| > 0 {
          stack := stack[..|stack| - 1];
        }
      } else {
        stack := stack + [segment];
      }
    }
    assert segments[..|segments|] == segments;
    out := [];
    for i := 0 to |stack|
      invariant out == Body(stack[..i])
    {
      assert stack[..i + 1][..i] == stack[..i];
      out := out + [SLASH] + stack[i];
    }
    assert stack[..|stack|] == stack;
    BodyLength(stack);
    if out == [] || (|decoded| > 0 && decoded[|decoded| - 1] == SLASH) {
      out := out + [SLASH];
    }
  }

  // --- what resolving does ---

  ghost predicate AllOrdinary(segs: seq<seq<byte>>) {
    forall i | 0 <= i < |segs| :: Ordinary(segs[i])
  }

  lemma {:induction false} ResolvedAreOrdinary(segs: seq<seq<byte>>)
    ensures AllOrdinary(Resolve(segs))
    decreases |segs|
  {
    if |segs| > 0 {
      ResolvedAreOrdinary(segs[..|segs| - 1]);
    }
  }

  lemma {:induction false} OrdinaryResolve(segs: seq<seq<byte>>)
    requires AllOrdinary(segs)
    ensures Resolve(segs) == segs
    decreases |segs|
  {
    if |segs| > 0 {
      OrdinaryResolve(segs[..|segs| - 1]);
      assert segs[..|segs| - 1] + [segs[|segs| - 1]] == segs;
    }
  }

  /** Resolving twice is resolving once. */
  lemma ResolveIdempotent(segs: seq<seq<byte>>)
    ensures Resolve(Resolve(segs)) == Resolve(segs)
  {
    ResolvedAreOrdinary(segs);
    OrdinaryResolve(Resolve(segs));
  }

  /** a is b with some elements left out. */
  predicate Subsequence(a: seq<seq<byte>>, b: seq<seq<byte>>)
    decreases |b|
  {
    |a| == 0 ||
    (|b| > 0 && (Subsequence(a, b[..|b| - 1]) ||
                 (a[|a| - 1] == b[|b| - 1] && Subsequence(a[..|a| - 1], b[..|b| - 1]))))
  }

  lemma {:induction false} ShorterSubsequence(a: seq<seq<byte>>, b: seq<seq<byte>>)
    requires Subsequence(a, b) && |a| > 0
    ensures Subsequence(a[..|a| - 1], b)
    decreases |b|
  {
    if Subsequence(a, b[..|b| - 1]) {
      ShorterSubsequence(a, b[..|b| - 1]);
    }
  }

  /** Nothing is made up or reordered. */
  lemma {:induction false} ResolvedIsSubsequence(segs: seq<seq<byte>>)
    ensures Subsequence(Resolve(segs), segs)
    decreases |segs|
  {
    if |segs| > 0 {
      var n := |segs| - 1;
      var stack := Resolve(segs[..n]);
      ResolvedIsSubsequence(segs[..n]);
      if Ordinary(segs[n]) {
        assert (stack + [segs[n]])[..|stack|] == stack;
      } else if Up(segs[n]) && |stack| > 0 {
        ShorterSubsequence(stack, segs[..n]);
      }
    }
  }

  function Weight(seg: seq<byte>): int {
    if seg == [46, 46] then -1 else if Ordinary(seg) then 1 else 0
  }

  /** Descents minus ascents. */
  function Balance(segs: seq<seq<byte>>): int
    decreases |segs|
  {
    if |segs| == 0 then 0 else Balance(segs[..|segs| - 1]) + Weight(segs[|segs| - 1])
  }

  /** The lowest balance of any prefix, the empty one included. */
  function Lowest(segs: seq<seq<byte>>): (r: int)
    ensures r <= 0 && r <= Balance(segs)
    decreases |segs|
  {
    if |segs| == 0 then 0
    else
      var before := Lowest(segs[..|segs| - 1]);
      if Balance(segs) < before then Balance(segs) else before
  }

  /** Ascents above the root are absorbed, all others count. */
  lemma {:induction false} DepthFormula(segs: seq<seq<byte>>)
    ensures |Resolve(segs)| == Balance(segs) - Lowest(segs)
    decreases |segs|
  {
    if |segs| > 0 {
      DepthFormula(segs[..|segs| - 1]);
    }
  }

  // --- splitting and joining ---

  /** No slash inside. */
  ghost predicate Whole(seg: seq<byte>) {
    forall i | 0 <= i < |seg| :: seg[i] != SLASH
  }

  lemma {:induction false} SplitGivesWhole(s: seq<byte>)
    ensures forall i | 0 <= i < |Split(s)| :: Whole(Split(s)[i])
    decreases |s|
  {
    if |s| > 0 {
      SplitGivesWhole(s[1..]);
      var rest := Split(s[1..]);
      if s[0] != SLASH {
        assert Whole([s[0]] + rest[0]);
      }
    }
  }

  lemma {:induction false} ResolvedAreWhole(segs: seq<seq<byte>>)
    requires forall i | 0 <= i < |segs| :: Whole(segs[i])
    ensures forall i | 0 <= i < |Resolve(segs)| :: Whole(Resolve(segs)[i])
    decreases |segs|
  {
    if |segs| > 0 {
      ResolvedAreWhole(segs[..|segs| - 1]);
    }
  }

  /** The last segment is cut off at the last slash. */
  lemma {:induction false} SplitAtLastSlash(s: seq<byte>, seg: seq<byte>)
    requires Whole(seg)
    ensures Split(s + [SLASH] + seg) == Split(s) + [seg]
    decreases |s|
  {
    var all := s + [SLASH] + seg;
    if |s| == 0 {
      assert all[1..] == seg;
      SplitWhole(seg);
    } else {
      assert all[1..] == s[1..] + [SLASH] + seg;
      SplitAtLastSlash(s[1..], seg);
      assert all[0] == s[0];
    }
  }

  lemma {:induction false} SplitWhole(seg: seq<byte>)
    requires Whole(seg)
    ensures Split(seg) == [seg]
    decreases |seg|
  {
    if |seg| > 0 {
      SplitWhole(seg[1..]);
      assert [seg[0]] + seg[1..] == seg;
    }
  }

  /** Joining whole segments and splitting gives them back, behind the empty one in front of the first slash. */
  lemma {:induction false} SplitBody(segs: seq<seq<byte>>)
    requires forall i | 0 <= i < |segs| :: Whole(segs[i])
    ensures Split(Body(segs)) == [[]] + segs
    decreases |segs|
  {
    if |segs| > 0 {
      var n := |segs| - 1;
      SplitBody(segs[..n]);
      SplitAtLastSlash(Body(segs[..n]), segs[n]);
      assert segs[..n] + [segs[n]] == segs;
    }
  }

  /** Splitting and joining gives the string back. */
  lemma {:induction false} JoinSplit(s: seq<byte>)
    ensures Split(s)[0] + Body(Split(s)[1..]) == s
    decreases |s|
  {
    if |s| > 0 {
      JoinSplit(s[1..]);
      var rest := Split(s[1..]);
      if s[0] == SLASH {
        assert Split(s)[1..] == rest;
        BodyFirst(rest);
        assert [SLASH] + s[1..] == s;
      } else {
        assert Split(s)[1..] == rest[1..];
        assert [s[0]] + s[1..] == s;
        assert [s[0]] + rest[0] + Body(rest[1..]) == [s[0]] + (rest[0] + Body(rest[1..]));
      }
    }
  }

  lemma {:induction false} BodyFirst(segs: seq<seq<byte>>)
    requires |segs| > 0
    ensures Body(segs) == [SLASH] + segs[0] + Body(segs[1..])
    decreases |segs|
  {
    var n := |segs| - 1;
    if n == 0 {
      assert segs[..0] == [] && segs[1..] == [];
      assert [] + [SLASH] + segs[0] == [SLASH] + segs[0] + [];
    } else {
      BodyFirst(segs[..n]);
      assert segs[..n][1..] == segs[1..][..n - 1];
      var a, b, c := [SLASH] + segs[0], Body(segs[1..][..n - 1]), [SLASH] + segs[n];
      assert Body(segs) == a + b + c;
      assert Body(segs[1..]) == b + c;
      assert a + b + c == a + (b + c);
    }
  }

  /** Bytes the joined segments take. */
  lemma {:induction false} BodyLength(segs: seq<seq<byte>>)
    ensures |Body(segs)| >= |segs|
    ensures |segs| > 0 ==> Body(segs)[0] == SLASH
    decreases |segs|
  {
    if |segs| > 0 {
      BodyLength(segs[..|segs| - 1]);
    }
  }

  // --- canonical paths ---

  /** A leading slash, and no empty, `.` or `..` segment except that the last may be empty: a trailing slash. */
  ghost predicate Canonical(p: seq<byte>) {
    var segs := Split(p);
    |segs| >= 2 && segs[0] == [] && AllOrdinary(segs[1..|segs| - 1])
    && (Ordinary(segs[|segs| - 1]) || segs[|segs| - 1] == [])
  }

  lemma {:induction false} RenderedSegments(stack: seq<seq<byte>>, slash: bool)
    requires forall i | 0 <= i < |stack| :: Whole(stack[i])
    ensures Split(Render(stack, slash)) == [[]] + stack + if |stack| == 0 || slash then [[]] else []
  {
    SplitBody(stack);
    if |stack| == 0 || slash {
      SplitAtLastSlash(Body(stack), []);
      assert Body(stack) + [SLASH] + [] == Body(stack) + [SLASH];
    }
  }

  /** Whatever comes in, what goes out is canonical. */
  lemma {:induction false} NormalizeIsCanonical(path: seq<byte>)
    ensures Canonical(Normalize(path))
    ensures Normalize(path)[0] == SLASH
  {
    var decoded := Decode(path);
    var stack := Resolve(Split(decoded));
    SplitGivesWhole(decoded);
    ResolvedAreWhole(Split(decoded));
    ResolvedAreOrdinary(Split(decoded));
    RenderedSegments(stack, EndsWithSlash(decoded));
    var segs := Split(Normalize(path));
    assert segs[1..|segs| - 1] == if |stack| == 0 || EndsWithSlash(decoded) then stack else stack[..|stack| - 1];
    BodyLength(stack);
  }

  lemma {:induction false} LastSegment(s: seq<byte>)
    requires |Split(s)| >= 2
    ensures EndsWithSlash(s) <==> Split(s)[|Split(s)| - 1] == []
  {
    var segs := Split(s);
    var n := |segs| - 1;
    JoinSplit(s);
    SplitGivesWhole(s);
    assert segs[1..][..n - 1] == segs[1..n] && segs[1..][n - 1] == segs[n];
    assert s == segs[0] + Body(segs[1..n]) + [SLASH] + segs[n];
    if |segs[n]| > 0 {
      assert s[|s| - 1] == segs[n][|segs[n]| - 1];
    }
  }

  lemma {:induction false} ResolveCanonical(segs: seq<seq<byte>>)
    requires |segs| >= 2 && segs[0] == [] && AllOrdinary(segs[1..|segs| - 1])
    requires Ordinary(segs[|segs| - 1]) || segs[|segs| - 1] == []
    ensures Resolve(segs) == if segs[|segs| - 1] == [] then segs[1..|segs| - 1] else segs[1..]
  {
    var n := |segs| - 1;
    SkipFirst(segs[..n]);
    assert segs[..n][1..] == segs[1..n];
    OrdinaryResolve(segs[1..n]);
    assert segs[1..n] + [segs[n]] == segs[1..];
  }

  lemma {:induction false} SkipFirst(segs: seq<seq<byte>>)
    requires |segs| > 0 && segs[0] == []
    ensures Resolve(segs) == Resolve(segs[1..])
    decreases |segs|
  {
    var n := |segs| - 1;
    if n == 0 {
      assert segs[..0] == [] && segs[1..] == [];
    } else {
      SkipFirst(segs[..n]);
      assert segs[..n][1..] == segs[1..][..n - 1];
    }
  }

  lemma {:induction false} CanonicalRenders(p: seq<byte>)
    requires Canonical(p)
    ensures Render(Resolve(Split(p)), EndsWithSlash(p)) == p
  {
    var segs := Split(p);
    var n := |segs| - 1;
    ResolveCanonical(segs);
    LastSegment(p);
    JoinSplit(p);
    assert [] + Body(segs[1..]) == Body(segs[1..]);
    assert segs[1..][..n - 1] == segs[1..n] && segs[1..][n - 1] == segs[n];
    assert segs[n] == [] ==> Body(segs[1..n]) + [SLASH] + segs[n] == Body(segs[1..n]) + [SLASH];
  }

  /** However a canonical path is percent-encoded, normalising gives it back. */
  lemma {:induction false} NormalizeUndoesEncoding(p: seq<byte>, styles: seq<Style>)
    requires Canonical(p) && Encodes(p, styles)
    ensures Normalize(Encode(p, styles)) == p
  {
    DecodeEncode(p, styles);
    CanonicalRenders(p);
  }

  // --- normalising twice ---

  /** What the segments other than empty ones take when joined. */
  function Mass(segs: seq<seq<byte>>): nat
    decreases |segs|
  {
    if |segs| == 0 then 0 else Mass(segs[..|segs| - 1]) + if segs[|segs| - 1] == [] then 0 else |segs[|segs| - 1]| + 1
  }

  lemma {:induction false} ResolvingAddsNoMass(segs: seq<seq<byte>>)
    ensures |Body(Resolve(segs))| <= Mass(segs)
    decreases |segs|
  {
    if |segs| > 0 {
      var n := |segs| - 1;
      ResolvingAddsNoMass(segs[..n]);
      var stack := Resolve(segs[..n]);
      if Ordinary(segs[n]) {
        assert (stack + [segs[n]])[..|stack|] == stack;
      }
    }
  }

  lemma {:induction false} BodyHasMass(segs: seq<seq<byte>>)
    ensures |Body(segs)| >= Mass(segs)
    ensures |segs| > 0 && segs[|segs| - 1] == [] ==> |Body(segs)| >= Mass(segs) + 1
    decreases |segs|
  {
    if |segs| > 0 {
      BodyHasMass(segs[..|segs| - 1]);
    }
  }

  lemma {:induction false} MassSkipsFirst(segs: seq<seq<byte>>)
    requires |segs| > 0 && segs[0] == []
    ensures Mass(segs) == Mass(segs[1..])
    decreases |segs|
  {
    var n := |segs| - 1;
    if n == 0 {
      assert segs[..0] == [] && segs[1..] == [];
    } else {
      MassSkipsFirst(segs[..n]);
      assert segs[..n][1..] == segs[1..][..n - 1];
    }
  }

  /** A path with a leading slash does not grow. */
  lemma {:induction false} RenderingDoesNotGrow(p: seq<byte>)
    requires |p| > 0 && p[0] == SLASH
    ensures |Render(Resolve(Split(p)), EndsWithSlash(p))| <= |p|
  {
    var segs := Split(p);
    var tail := segs[1..];
    assert segs == [[]] + Split(p[1..]);
    JoinSplit(p);
    assert |p| == |Body(tail)|;
    ResolvingAddsNoMass(segs);
    MassSkipsFirst(segs);
    BodyHasMass(tail);
    LastSegment(p);
    assert tail[|tail| - 1] == segs[|segs| - 1];
  }

  /** Normalising a normal form changes it exactly when it still contains an escape: then the path was encoded
      more than once. */
  lemma {:induction false} NormalizeAgain(n: seq<byte>)
    requires Canonical(n)
    ensures Normalize(n) == n <==> !HasEscape(n)
  {
    DecodeFixes(n);
    CanonicalRenders(n);
    if HasEscape(n) {
      JoinSplit(n);
      BodyLength(Split(n)[1..]);
      assert n == Body(Split(n)[1..]) && n[0] == SLASH;
      DecodeAt(n, 0);
      assert n[0..] == n;
      RenderingDoesNotGrow(Decode(n));
    }
  }

  lemma {:induction false} OneSegment(seg: seq<byte>)
    requires Whole(seg) && Ordinary(seg)
    ensures Canonical([SLASH] + seg)
  {
    SplitWhole(seg);
    assert ([SLASH] + seg)[1..] == seg;
  }

  lemma {:induction false} EncodeCons(b: byte, style: Style, p: seq<byte>, styles: seq<Style>)
    requires |styles| == |p|
    ensures Encode([b] + p, [style] + styles) == EncodeByte(b, style) + Encode(p, styles)
  {
    assert ([b] + p)[1..] == p && ([style] + styles)[1..] == styles;
  }

  /** `%41` with its percent sign encoded. */
  const TWICE: seq<byte> := [SLASH, PERCENT, 50, 53, 52, 49]
  const ONCE: seq<byte> := [SLASH, PERCENT, 52, 49]

  lemma {:induction false} FirstRound()
    ensures Normalize(TWICE) == ONCE
  {
    OneSegment([PERCENT, 52, 49]);
    assert [SLASH] + [PERCENT, 52, 49] == ONCE;
    EncodedTwice();
    NormalizeUndoesEncoding(ONCE, [Plain, Escaped(false, false), Plain, Plain]);
  }

  lemma {:induction false} EncodedTwice()
    ensures Encode(ONCE, [Plain, Escaped(false, false), Plain, Plain]) == TWICE
  {
    var tail: seq<Style> := [Plain, Plain];
    assert Encode([52, 49], tail) == [52, 49];
    assert Encode([PERCENT, 52, 49], [Escaped(false, false), Plain, Plain]) == [PERCENT, 50, 53, 52, 49] by {
      EncodeCons(PERCENT, Escaped(false, false), [52, 49], tail);
    }
    EncodeCons(SLASH, Plain, [PERCENT, 52, 49], [Escaped(false, false), Plain, Plain]);
  }

  lemma {:induction false} SecondRound()
    ensures Normalize(ONCE) == [SLASH, 65]
  {
    OneSegment([65]);
    assert [SLASH] + [65] == [SLASH, 65];
    NormalizeUndoesEncoding([SLASH, 65], [Plain, Escaped(false, false)]);
    assert Encode([SLASH, 65], [Plain, Escaped(false, false)]) == ONCE;
  }

  /** `/%2541` needs two rounds: normalising is not idempotent. */
  lemma {:induction false} DoublyEncoded()
    ensures Normalize(TWICE) == ONCE && Normalize(Normalize(TWICE)) != Normalize(TWICE)
  {
    FirstRound();
    SecondRound();
  }
}
