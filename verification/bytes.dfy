/** Bytes, fixed-width integers and their little- and big-endian encodings. */
module Bytes {
  type byte = b: int | 0 <= b < 256
  type u16 = x: int | 0 <= x < 0x1_0000
  type u32 = x: int | 0 <= x < 0x1_0000_0000
  type u64 = x: int | 0 <= x < 0x1_0000_0000_0000_0000

  const U32_LIMIT := 0x1_0000_0000
  const U64_LIMIT := 0x1_0000_0000_0000_0000

  datatype Option<+T> = None | Some(value: T)

  datatype Result<+T, +E> = Ok(value: T) | Err(error: E)

  /** 256 to the power n. */
  function Span(n: nat): (r: nat)
    ensures r > 0
  {
    if n == 0 then 1 else 256 * Span(n - 1)
  }

  /** The n low bytes of x, least significant first. */
  function Le(x: nat, n: nat): (s: seq<byte>)
    ensures |s| == n
  {
    if n == 0 then [] else [x % 256] + Le(x / 256, n - 1)
  }

  function ReadLe(s: seq<byte>, pos: nat, n: nat): (r: nat)
    requires pos + n <= |s|
    ensures r < Span(n)
    decreases n, |s|
  {
    if n == 0 then 0 else
      var low: int := s[pos];
      low + 256 * ReadLe(s, pos + 1, n - 1)
  }

  /** The n low bytes of x, most significant first. */
  function Be(x: nat, n: nat): (s: seq<byte>)
    ensures |s| == n
  {
    if n == 0 then [] else Be(x / 256, n - 1) + [x % 256]
  }

  function ReadBe(s: seq<byte>, pos: nat, n: nat): (r: nat)
    requires pos + n <= |s|
    ensures r < Span(n)
  {
    if n == 0 then 0 else
      var low: int := s[pos + n - 1];
      256 * ReadBe(s, pos, n - 1) + low
  }

  lemma {:induction false} Spans()
    ensures Span(2) == 0x1_0000 && Span(4) == U32_LIMIT && Span(8) == U64_LIMIT
  {
    assert Span(3) == 0x100_0000 && Span(4) == U32_LIMIT;
    assert Span(5) == 256 * U32_LIMIT && Span(6) == 0x1_0000 * U32_LIMIT && Span(7) == 0x100_0000 * U32_LIMIT;
  }

  function ReadLe32(s: seq<byte>, pos: nat): u32
    requires pos + 4 <= |s|
  {
    Spans(); ReadLe(s, pos, 4)
  }

  function ReadLe64(s: seq<byte>, pos: nat): u64
    requires pos + 8 <= |s|
  {
    Spans(); ReadLe(s, pos, 8)
  }

  /** Reading back what was written, wherever it stands in a buffer. */
  lemma {:induction false} ReadLeOf(pre: seq<byte>, x: nat, n: nat, post: seq<byte>)
    requires x < Span(n)
    ensures ReadLe(pre + Le(x, n) + post, |pre|, n) == x
    decreases n
  {
    if n > 0 {
      ReadLeOf(pre + [x % 256], x / 256, n - 1, post);
      assert pre + Le(x, n) + post == pre + [x % 256] + Le(x / 256, n - 1) + post;
    }
  }

  lemma {:induction false} ReadBeOf(pre: seq<byte>, x: nat, n: nat, post: seq<byte>)
    requires x < Span(n)
    ensures ReadBe(pre + Be(x, n) + post, |pre|, n) == x
  {
    if n > 0 {
      ReadBeOf(pre, x / 256, n - 1, [x % 256] + post);
      assert pre + Be(x, n) + post == pre + Be(x / 256, n - 1) + ([x % 256] + post);
    }
  }

  /** Writing back what was read: an encoding has no second representation. */
  lemma {:induction false} LeOfRead(s: seq<byte>, pos: nat, n: nat)
    requires pos + n <= |s|
    ensures Le(ReadLe(s, pos, n), n) == s[pos..pos + n]
    decreases n
  {
    if n > 0 {
      LeOfRead(s, pos + 1, n - 1);
    }
  }

  /** A read depends on nothing but the bytes it covers. */
  lemma {:induction false} ReadLeStable(s: seq<byte>, t: seq<byte>, pos: nat, n: nat)
    requires pos + n <= |s| && pos + n <= |t| && s[pos..pos + n] == t[pos..pos + n]
    ensures ReadLe(s, pos, n) == ReadLe(t, pos, n)
    decreases n
  {
    if n > 0 {
      assert s[pos] == s[pos..pos + n][0] && t[pos] == t[pos..pos + n][0];
      assert s[pos + 1..pos + n] == s[pos..pos + n][1..] && t[pos + 1..pos + n] == t[pos..pos + n][1..];
      ReadLeStable(s, t, pos + 1, n - 1);
    }
  }

  lemma {:induction false} ReadBeStable(s: seq<byte>, t: seq<byte>, pos: nat, n: nat)
    requires pos + n <= |s| && pos + n <= |t| && s[pos..pos + n] == t[pos..pos + n]
    ensures ReadBe(s, pos, n) == ReadBe(t, pos, n)
  {
    if n > 0 {
      assert s[pos + n - 1] == s[pos..pos + n][n - 1] && t[pos + n - 1] == t[pos..pos + n][n - 1];
      assert s[pos..pos + n - 1] == s[pos..pos + n][..n - 1] && t[pos..pos + n - 1] == t[pos..pos + n][..n - 1];
      ReadBeStable(s, t, pos, n - 1);
    }
  }

  /** The chunk stands in the buffer at pos. */
  predicate At(buf: seq<byte>, pos: nat, chunk: seq<byte>) {
    pos + |chunk| <= |buf| && buf[pos..pos + |chunk|] == chunk
  }

  lemma {:induction false} AtParts(buf: seq<byte>, pos: nat, a: seq<byte>, b: seq<byte>)
    requires At(buf, pos, a + b)
    ensures At(buf, pos, a) && At(buf, pos + |a|, b)
  {
    var ab := buf[pos..pos + |a| + |b|];
    assert buf[pos..pos + |a|] == ab[..|a|] == a;
    assert buf[pos + |a|..pos + |a| + |b|] == ab[|a|..] == b;
  }

  lemma {:induction false} SubSlice(buf: seq<byte>, pos: nat, chunk: seq<byte>, off: nat, len: nat)
    requires At(buf, pos, chunk) && off + len <= |chunk|
    ensures buf[pos + off..pos + off + len] == chunk[off..off + len]
  {
    var there := buf[pos + off..pos + off + len];
    forall k | 0 <= k < len
      ensures there[k] == chunk[off..off + len][k]
    {
      assert buf[pos..pos + |chunk|][off + k] == buf[pos + off + k];
    }
  }

  lemma {:induction false} ReadLeAt(buf: seq<byte>, pos: nat, x: nat, n: nat)
    requires At(buf, pos, Le(x, n)) && x < Span(n)
    ensures ReadLe(buf, pos, n) == x
  {
    var pre, post := buf[..pos], buf[pos + n..];
    assert buf == pre + Le(x, n) + post;
    ReadLeOf(pre, x, n, post);
  }

  function Concat(parts: seq<seq<byte>>): seq<byte> {
    if parts == [] then [] else parts[0] + Concat(parts[1..])
  }

  lemma {:induction false} ConcatAppend(a: seq<seq<byte>>, b: seq<seq<byte>>)
    ensures Concat(a + b) == Concat(a) + Concat(b)
  {
    if a == [] {
      assert a + b == b;
    } else {
      assert (a + b)[0] == a[0] && (a + b)[1..] == a[1..] + b;
      ConcatAppend(a[1..], b);
    }
  }
}
