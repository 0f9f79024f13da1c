/** Bytes, the UTF-8 encoding of text, and the base64 encoding of section 4
    of RFC 4648 (alphabet A-Z a-z 0-9 + /, padding with '='), with the
    round trip Decode(Encode(b)) == Some(b) proved. */
module Base64 {
  import opened Wrappers

  type Byte = b: int | 0 <= b < 256
  type Bytes = seq<Byte>

  // ---------------------------------------------------------------------
  // UTF-8 (Python's str.encode() and the bytes of a C string)

  function Utf8Char(c: char): (r: Bytes)
    ensures 1 <= |r| <= 4
    ensures (c as int < 128) <==> (|r| == 1)
    ensures c as int < 128 ==> r == [c as int]
  {
    var n := c as int;
    if n < 0x80 then [n]
    else if n < 0x800 then [0xC0 + n / 64, 0x80 + n % 64]
    else if n < 0x10000 then [0xE0 + n / 4096, 0x80 + (n / 64) % 64, 0x80 + n % 64]
    else [0xF0 + n / 262144, 0x80 + (n / 4096) % 64, 0x80 + (n / 64) % 64, 0x80 + n % 64]
  }

  function Utf8(s: string): (r: Bytes)
    ensures |r| >= |s|
    ensures (forall i :: 0 <= i < |s| ==> s[i] as int < 128) ==> |r| == |s|
  {
    if s == [] then [] else Utf8Char(s[0]) + Utf8(s[1..])
  }

  lemma {:induction false} Utf8Append(a: string, b: string)
    ensures Utf8(a + b) == Utf8(a) + Utf8(b)
  {
    if a == [] {
      assert a + b == b;
    } else {
      assert (a + b)[1..] == a[1..] + b;
      Utf8Append(a[1..], b);
    }
  }

  /** ASCII text encodes one byte per character. */
  lemma {:induction false} Utf8Ascii(s: string)
    requires forall i :: 0 <= i < |s| ==> s[i] as int < 128
    ensures |Utf8(s)| == |s|
    ensures forall i :: 0 <= i < |s| ==> Utf8(s)[i] == s[i] as int
  {
    if s != [] {
      Utf8Ascii(s[1..]);
    }
  }

  // ---------------------------------------------------------------------
  // The alphabet

  function Char(i: nat): (c: char)
    requires i < 64
  {
    if i < 26 then ('A' as int + i) as char
    else if i < 52 then ('a' as int + i - 26) as char
    else if i < 62 then ('0' as int + i - 52) as char
    else if i == 62 then '+'
    else '/'
  }

  predicate InAlphabet(c: char) {
    ('A' <= c <= 'Z') || ('a' <= c <= 'z') || ('0' <= c <= '9') || c == '+' || c == '/'
  }

  function Index(c: char): (i: nat)
    requires InAlphabet(c)
    ensures i < 64
  {
    if 'A' <= c <= 'Z' then c as int - 'A' as int
    else if 'a' <= c <= 'z' then c as int - 'a' as int + 26
    else if '0' <= c <= '9' then c as int - '0' as int + 52
    else if c == '+' then 62
    else 63
  }

  lemma IndexOfChar(i: nat)
    requires i < 64
    ensures InAlphabet(Char(i)) && Index(Char(i)) == i
  {
  }

  lemma CharOfIndex(c: char)
    requires InAlphabet(c)
    ensures Char(Index(c)) == c
  {
  }

  // ---------------------------------------------------------------------
  // Encoding

  /** Three bytes as four characters. */
  function Quad(b0: Byte, b1: Byte, b2: Byte): string {
    [Char(b0 / 4), Char((b0 % 4) * 16 + b1 / 16), Char((b1 % 16) * 4 + b2 / 64), Char(b2 % 64)]
  }

  function Encode(b: Bytes): (s: string)
    ensures |s| % 4 == 0
    ensures |b| > 0 ==> |s| >= 4
  {
    if |b| == 0 then ""
    else if |b| == 1 then [Char(b[0] / 4), Char((b[0] % 4) * 16), '=', '=']
    else if |b| == 2 then [Char(b[0] / 4), Char((b[0] % 4) * 16 + b[1] / 16), Char((b[1] % 16) * 4), '=']
    else Quad(b[0], b[1], b[2]) + Encode(b[3..])
  }

  // ---------------------------------------------------------------------
  // Decoding (strict: the length is a multiple of four, padding only at the end)

  function DecodeGroup(g: string, last: bool): (r: Option<Bytes>)
    requires |g| == 4
    ensures r.Some? ==> 1 <= |r.value| <= 3
    ensures r.Some? && !last ==> |r.value| == 3
  {
    if !InAlphabet(g[0]) || !InAlphabet(g[1]) then None
    else
      var v0, v1 := Index(g[0]), Index(g[1]);
      if last && g[2] == '=' && g[3] == '=' then Some([v0 * 4 + v1 / 16])
      else if !InAlphabet(g[2]) then None
      else
        var v2 := Index(g[2]);
        if last && g[3] == '=' then Some([v0 * 4 + v1 / 16, (v1 % 16) * 16 + v2 / 4])
        else if !InAlphabet(g[3]) then None
        else
          var v3 := Index(g[3]);
          Some([v0 * 4 + v1 / 16, (v1 % 16) * 16 + v2 / 4, (v2 % 4) * 64 + v3])
  }

  function Decode(s: string): (r: Option<Bytes>)
    ensures |s| % 4 != 0 ==> r.None?
    decreases |s|
  {
    if |s| == 0 then Some([])
    else if |s| < 4 then None
    else match DecodeGroup(s[..4], |s| == 4)
      case None => None
      case Some(g) =>
        match Decode(s[4..])
        case None => None
        case Some(rest) => Some(g + rest)
  }

  /** The bit arithmetic of a group: the second character keeps the low two
      bits of the first byte and the high four bits of the second. */
  lemma ByteSplit(b0: Byte, b1: Byte)
    ensures (b0 / 4) * 4 + ((b0 % 4) * 16 + b1 / 16) / 16 == b0
    ensures (((b0 % 4) * 16 + b1 / 16) % 16) * 16 == (b1 / 16) * 16
  {
  }

  /** The bit arithmetic of a full group: the four six-bit values of Quad
      put back together give the three bytes. */
  lemma QuadArith(b0: Byte, b1: Byte, b2: Byte)
    ensures (b0 / 4) * 4 + ((b0 % 4) * 16 + b1 / 16) / 16 == b0
    ensures (((b0 % 4) * 16 + b1 / 16) % 16) * 16 + ((b1 % 16) * 4 + b2 / 64) / 4 == b1
    ensures (((b1 % 16) * 4 + b2 / 64) % 4) * 64 + b2 % 64 == b2
  {
    ByteSplit(b0, b1);
  }

  /** A group of four alphabet characters decodes to three bytes. */
  lemma FullGroup(g: string, last: bool)
    requires |g| == 4 && forall i :: 0 <= i < 4 ==> InAlphabet(g[i])
    ensures DecodeGroup(g, last) == Some([Index(g[0]) * 4 + Index(g[1]) / 16,
                                          (Index(g[1]) % 16) * 16 + Index(g[2]) / 4,
                                          (Index(g[2]) % 4) * 64 + Index(g[3])])
  {
    assert InAlphabet(g[2]) && InAlphabet(g[3]);
  }

  lemma QuadRoundTrip(b0: Byte, b1: Byte, b2: Byte, last: bool)
    ensures DecodeGroup(Quad(b0, b1, b2), last) == Some([b0, b1, b2])
  {
    var q := Quad(b0, b1, b2);
    IndexOfChar(b0 / 4);
    IndexOfChar((b0 % 4) * 16 + b1 / 16);
    IndexOfChar((b1 % 16) * 4 + b2 / 64);
    IndexOfChar(b2 % 64);
    FullGroup(q, last);
    QuadArith(b0, b1, b2);
  }

  lemma OneByteRoundTrip(b0: Byte)
    ensures Decode(Encode([b0])) == Some([b0])
  {
    var s := Encode([b0]);
    IndexOfChar(b0 / 4);
    IndexOfChar((b0 % 4) * 16);
    assert s[..4] == s && s[4..] == "";
    assert ((b0 % 4) * 16) / 16 == b0 % 4;
    assert DecodeGroup(s, true) == Some([b0]);
    assert Decode(s[4..]) == Some([]);
    assert [b0] + [] == [b0];
  }

  lemma TwoByteRoundTrip(b0: Byte, b1: Byte)
    ensures Decode(Encode([b0, b1])) == Some([b0, b1])
  {
    var s := Encode([b0, b1]);
    IndexOfChar(b0 / 4);
    IndexOfChar((b0 % 4) * 16 + b1 / 16);
    IndexOfChar((b1 % 16) * 4);
    assert s[..4] == s && s[4..] == "";
    ByteSplit(b0, b1);
    assert DecodeGroup(s, true) == Some([b0, b1]);
    assert Decode(s[4..]) == Some([]);
    assert [b0, b1] + [] == [b0, b1];
  }

  lemma DecodePrepend(q: string, t: string, g: Bytes, r: Bytes)
    requires |q| == 4
    requires DecodeGroup(q, |t| == 0) == Some(g)
    requires Decode(t) == Some(r)
    ensures Decode(q + t) == Some(g + r)
  {
    var s := q + t;
    assert s[..4] == q;
    assert s[4..] == t;
  }

  lemma QuadPrepend(b0: Byte, b1: Byte, b2: Byte, t: string, r: Bytes)
    requires Decode(t) == Some(r)
    ensures Decode(Quad(b0, b1, b2) + t) == Some([b0, b1, b2] + r)
  {
    QuadRoundTrip(b0, b1, b2, |t| == 0);
    DecodePrepend(Quad(b0, b1, b2), t, [b0, b1, b2], r);
  }

  lemma EncodeCons(b: Bytes)
    requires |b| >= 3
    ensures Encode(b) == Quad(b[0], b[1], b[2]) + Encode(b[3..])
  {
  }

  lemma SplitThree(b: Bytes)
    requires |b| >= 3
    ensures [b[0], b[1], b[2]] + b[3..] == b
  {
  }

  lemma QuadStep(b: Bytes)
    requires |b| >= 3
    requires Decode(Encode(b[3..])) == Some(b[3..])
    ensures Decode(Encode(b)) == Some(b)
  {
    var tail := b[3..];
    var t := Encode(tail);
    EncodeCons(b);
    QuadPrepend(b[0], b[1], b[2], t, tail);
    SplitThree(b);
  }

  /** Decoding undoes encoding. */
  lemma {:induction false} DecodeEncode(b: Bytes)
    ensures Decode(Encode(b)) == Some(b)
    decreases |b|
  {
    if |b| == 1 {
      assert b == [b[0]];
      OneByteRoundTrip(b[0]);
    } else if |b| == 2 {
      assert b == [b[0], b[1]];
      TwoByteRoundTrip(b[0], b[1]);
    } else if |b| >= 3 {
      DecodeEncode(b[3..]);
      QuadStep(b);
    }
  }

  /** Every three bytes, and a final one or two, become four characters. */
  lemma {:induction false} EncodeLength(b: Bytes)
    ensures |Encode(b)| == 4 * ((|b| + 2) / 3)
    decreases |b|
  {
    if |b| >= 3 {
      var n := |b| - 3;
      EncodeLength(b[3..]);
      EncodeCons(b);
      assert |Quad(b[0], b[1], b[2])| == 4;
      assert (n + 3 + 2) / 3 == (n + 2) / 3 + 1;
    }
  }

  /** Only the alphabet and '=' appear in an encoding. */
  lemma {:induction false} EncodeAlphabet(b: Bytes)
    ensures forall i :: 0 <= i < |Encode(b)| ==> InAlphabet(Encode(b)[i]) || Encode(b)[i] == '='
    decreases |b|
  {
    if |b| >= 3 {
      EncodeAlphabet(b[3..]);
      IndexOfChar(b[0] / 4);
      IndexOfChar((b[0] % 4) * 16 + b[1] / 16);
      IndexOfChar((b[1] % 16) * 4 + b[2] / 64);
      IndexOfChar(b[2] % 64);
    } else if |b| == 2 {
      IndexOfChar(b[0] / 4);
      IndexOfChar((b[0] % 4) * 16 + b[1] / 16);
      IndexOfChar((b[1] % 16) * 4);
    } else if |b| == 1 {
      IndexOfChar(b[0] / 4);
      IndexOfChar((b[0] % 4) * 16);
    }
  }

  /** Distinct byte strings have distinct encodings. */
  lemma EncodeInjective(a: Bytes, b: Bytes)
    requires Encode(a) == Encode(b)
    ensures a == b
  {
    DecodeEncode(a);
    DecodeEncode(b);
  }

  // ---------------------------------------------------------------------
  // Python's base64.b64decode(s) (validate=False), which hands the text to
  // binascii.a2b_base64 in its non-strict mode

  /** The characters b64decode looks at: the alphabet and the padding. */
  function KeepBase64(s: string): (r: string)
    ensures |r| <= |s|
  {
    if s == [] then []
    else (if InAlphabet(s[0]) || s[0] == '=' then [s[0]] else []) + KeepBase64(s[1..])
  }

  predicate IsAscii(s: string) {
    forall i :: 0 <= i < |s| ==> s[i] as int < 128
  }

  /** What a2b_base64 keeps while it scans: how many data characters of
      the current group it has read, the bits of the last one not yet
      written, the '=' seen since the last data character and counted
      towards the padding, and the bytes written so far. */
  datatype Scan = Scan(quadPos: nat, leftChar: nat, pads: nat, written: Bytes)

  const Start: Scan := Scan(0, 0, 0, [])

  /** A data character of six-bit value v: every character but the first
      of a group completes one byte (stored in an unsigned char), and the
      padding count starts again. */
  function Feed(st: Scan, v: nat): (r: Scan)
    requires v < 64
    ensures r.pads == 0 && (st.quadPos < 4 ==> r.quadPos == (st.quadPos + 1) % 4)
    ensures |r.written| == |st.written| + (if st.quadPos == 0 then 0 else 1)
    ensures st.written <= r.written
  {
    if st.quadPos == 0 then Scan(1, v, 0, st.written)
    else if st.quadPos == 1 then Scan(2, v % 16, 0, st.written + [(st.leftChar * 4 + v / 16) % 256])
    else if st.quadPos == 2 then Scan(3, v % 4, 0, st.written + [(st.leftChar * 16 + v / 4) % 256])
    else Scan(0, 0, 0, st.written + [(st.leftChar * 64 + v) % 256])
  }

  /** The scan of a2b_base64 over the rest of the text. A '=' counts
      towards the padding only once two data characters of the group are
      in; the scan stops, keeping what it wrote, as soon as the group and
      its padding make four. Other characters outside the alphabet are
      skipped. At the end of the text a group left incomplete is an error
      (None). */
  function A2b(s: string, st: Scan): (r: Option<Bytes>)
    ensures r.Some? ==> st.written <= r.value
    ensures s == [] ==> (r.Some? <==> st.quadPos == 0)
    decreases |s|
  {
    if s == [] then (if st.quadPos == 0 then Some(st.written) else None)
    else if s[0] == '=' then
      if st.quadPos >= 2 && st.quadPos + st.pads + 1 >= 4 then Some(st.written)
      else A2b(s[1..], if st.quadPos >= 2 then st.(pads := st.pads + 1) else st)
    else if InAlphabet(s[0]) then A2b(s[1..], Feed(st, Index(s[0])))
    else A2b(s[1..], st)
  }

  /** base64.b64decode of a str: non-ASCII text is refused, then the
      scan runs from the start; None is the exception it raises. */
  function PythonDecode(s: string): (r: Option<Bytes>)
    ensures !IsAscii(s) ==> r.None?
    ensures IsAscii(s) && r.Some? ==> |r.value| <= |s|
  {
    if !IsAscii(s) then None
    else if A2b(s, Start).None? then None
    else A2bLength(s, Start); A2b(s, Start)
  }

  /** At most one byte is written per character read. */
  lemma {:induction false} A2bLength(s: string, st: Scan)
    requires A2b(s, st).Some?
    ensures |A2b(s, st).value| <= |st.written| + |s|
    decreases |s|
  {
    if s != [] && !(s[0] == '=' && st.quadPos >= 2 && st.quadPos + st.pads + 1 >= 4) {
      if s[0] == '=' {
        A2bLength(s[1..], if st.quadPos >= 2 then st.(pads := st.pads + 1) else st);
      } else if InAlphabet(s[0]) {
        A2bLength(s[1..], Feed(st, Index(s[0])));
      } else {
        A2bLength(s[1..], st);
      }
    }
  }

  lemma A2bData(c: char, x: string, st: Scan)
    requires InAlphabet(c)
    ensures A2b([c] + x, st) == A2b(x, Feed(st, Index(c)))
  {
    assert ([c] + x)[1..] == x;
  }

  lemma A2bPad(x: string, st: Scan)
    ensures A2b(['='] + x, st) ==
      if st.quadPos >= 2 && st.quadPos + st.pads + 1 >= 4 then Some(st.written)
      else A2b(x, if st.quadPos >= 2 then st.(pads := st.pads + 1) else st)
  {
    assert (['='] + x)[1..] == x;
  }

  /** Four data characters from the start of a group write three bytes. */
  lemma FeedGroup(w: Bytes, v0: nat, v1: nat, v2: nat, v3: nat)
    requires v0 < 64 && v1 < 64 && v2 < 64 && v3 < 64
    ensures Feed(Feed(Feed(Feed(Scan(0, 0, 0, w), v0), v1), v2), v3)
      == Scan(0, 0, 0, w + [(v0 * 4 + v1 / 16) % 256, ((v1 % 16) * 16 + v2 / 4) % 256, ((v2 % 4) * 64 + v3) % 256])
  {
    var x0, x1, x2 := (v0 * 4 + v1 / 16) % 256, ((v1 % 16) * 16 + v2 / 4) % 256, ((v2 % 4) * 64 + v3) % 256;
    assert w + [x0] + [x1] + [x2] == w + [x0, x1, x2];
  }

  /** The bytes a group of Quad's characters writes are the three bytes. */
  lemma QuadBytes(b0: Byte, b1: Byte, b2: Byte)
    ensures var v0, v1, v2, v3 := b0 / 4, (b0 % 4) * 16 + b1 / 16, (b1 % 16) * 4 + b2 / 64, b2 % 64;
      (v0 * 4 + v1 / 16) % 256 == b0 && ((v1 % 16) * 16 + v2 / 4) % 256 == b1 && ((v2 % 4) * 64 + v3) % 256 == b2
  {
    QuadArith(b0, b1, b2);
  }

  /** Four data characters are read one after the other. */
  lemma ScanFour(c0: char, c1: char, c2: char, c3: char, x: string, st: Scan)
    requires InAlphabet(c0) && InAlphabet(c1) && InAlphabet(c2) && InAlphabet(c3)
    ensures A2b([c0, c1, c2, c3] + x, st)
      == A2b(x, Feed(Feed(Feed(Feed(st, Index(c0)), Index(c1)), Index(c2)), Index(c3)))
  {
    assert [c0, c1, c2, c3] + x == [c0] + ([c1] + ([c2] + ([c3] + x)));
    var s1 := Feed(st, Index(c0));
    var s2 := Feed(s1, Index(c1));
    var s3 := Feed(s2, Index(c2));
    A2bData(c0, [c1] + ([c2] + ([c3] + x)), st);
    A2bData(c1, [c2] + ([c3] + x), s1);
    A2bData(c2, [c3] + x, s2);
    A2bData(c3, x, s3);
  }

  /** A full group of an encoding writes its three bytes and leaves the
      scan at the start of the next group. */
  lemma QuadScan(b0: Byte, b1: Byte, b2: Byte, x: string, w: Bytes)
    ensures A2b(Quad(b0, b1, b2) + x, Scan(0, 0, 0, w)) == A2b(x, Scan(0, 0, 0, w + [b0, b1, b2]))
  {
    var v0, v1, v2, v3 := b0 / 4, (b0 % 4) * 16 + b1 / 16, (b1 % 16) * 4 + b2 / 64, b2 % 64;
    IndexOfChar(v0);
    IndexOfChar(v1);
    IndexOfChar(v2);
    IndexOfChar(v3);
    ScanFour(Char(v0), Char(v1), Char(v2), Char(v3), x, Scan(0, 0, 0, w));
    FeedGroup(w, v0, v1, v2, v3);
    QuadBytes(b0, b1, b2);
  }

  /** The last group of an encoding of one byte: two data characters,
      then "==", which ends the scan. */
  lemma OneByteScan(b0: Byte, x: string, w: Bytes)
    ensures A2b(Encode([b0]) + x, Scan(0, 0, 0, w)) == Some(w + [b0])
  {
    var v0, v1 := b0 / 4, (b0 % 4) * 16;
    var c0, c1 := Char(v0), Char(v1);
    IndexOfChar(v0);
    IndexOfChar(v1);
    assert Encode([b0]) + x == [c0] + ([c1] + (['='] + (['='] + x)));
    var s0 := Scan(0, 0, 0, w);
    var s1 := Feed(s0, v0);
    var s2 := Feed(s1, v1);
    A2bData(c0, [c1] + (['='] + (['='] + x)), s0);
    A2bData(c1, ['='] + (['='] + x), s1);
    A2bPad(['='] + x, s2);
    A2bPad(x, s2.(pads := 1));
    assert (v0 * 4 + v1 / 16) % 256 == b0;
    assert s2 == Scan(2, v1 % 16, 0, w + [b0]);
  }

  /** Three data characters from the start of a group write two bytes. */
  lemma FeedThree(w: Bytes, v0: nat, v1: nat, v2: nat)
    requires v0 < 64 && v1 < 64 && v2 < 64
    ensures Feed(Feed(Feed(Scan(0, 0, 0, w), v0), v1), v2)
      == Scan(3, v2 % 4, 0, w + [(v0 * 4 + v1 / 16) % 256, ((v1 % 16) * 16 + v2 / 4) % 256])
  {
    var x0, x1 := (v0 * 4 + v1 / 16) % 256, ((v1 % 16) * 16 + v2 / 4) % 256;
    assert w + [x0] + [x1] == w + [x0, x1];
  }

  lemma ScanThree(c0: char, c1: char, c2: char, x: string, st: Scan)
    requires InAlphabet(c0) && InAlphabet(c1) && InAlphabet(c2)
    ensures A2b([c0, c1, c2] + x, st) == A2b(x, Feed(Feed(Feed(st, Index(c0)), Index(c1)), Index(c2)))
  {
    assert [c0, c1, c2] + x == [c0] + ([c1] + ([c2] + x));
    var s1 := Feed(st, Index(c0));
    var s2 := Feed(s1, Index(c1));
    A2bData(c0, [c1] + ([c2] + x), st);
    A2bData(c1, [c2] + x, s1);
    A2bData(c2, x, s2);
  }

  /** The last group of an encoding of two bytes: three data characters,
      then "=", which ends the scan. */
  lemma TwoByteScan(b0: Byte, b1: Byte, x: string, w: Bytes)
    ensures A2b(Encode([b0, b1]) + x, Scan(0, 0, 0, w)) == Some(w + [b0, b1])
  {
    var v0, v1, v2 := b0 / 4, (b0 % 4) * 16 + b1 / 16, (b1 % 16) * 4;
    var c0, c1, c2 := Char(v0), Char(v1), Char(v2);
    IndexOfChar(v0);
    IndexOfChar(v1);
    IndexOfChar(v2);
    assert Encode([b0, b1]) == [c0, c1, c2, '='];
    assert [c0, c1, c2, '='] + x == [c0, c1, c2] + (['='] + x);
    ScanThree(c0, c1, c2, ['='] + x, Scan(0, 0, 0, w));
    FeedThree(w, v0, v1, v2);
    QuadBytes(b0, b1, 0);
    A2bPad(x, Scan(3, v2 % 4, 0, w + [b0, b1]));
  }

  /** A final group of one or two bytes ends the scan. */
  lemma A2bEncodeShort(b: Bytes, x: string, w: Bytes)
    requires 1 <= |b| <= 2
    ensures A2b(Encode(b) + x, Scan(0, 0, 0, w)) == Some(w + b)
  {
    if |b| == 1 {
      assert b == [b[0]];
      OneByteScan(b[0], x, w);
    } else {
      assert b == [b[0], b[1]];
      TwoByteScan(b[0], b[1], x, w);
    }
  }

  /** The first full group of an encoding writes the first three bytes. */
  lemma A2bEncodeStep(b: Bytes, x: string, w: Bytes)
    requires |b| >= 3
    ensures A2b(Encode(b) + x, Scan(0, 0, 0, w)) == A2b(Encode(b[3..]) + x, Scan(0, 0, 0, w + [b[0], b[1], b[2]]))
  {
    EncodeCons(b);
    var q, e := Quad(b[0], b[1], b[2]), Encode(b[3..]);
    assert (q + e) + x == q + (e + x);
    QuadScan(b[0], b[1], b[2], e + x, w);
  }

  lemma LessThree(n: nat)
    requires n >= 3
    ensures (n - 3) % 3 == n % 3
  {
  }

  lemma AppendThree(w: Bytes, b: Bytes)
    requires |b| >= 3
    ensures w + [b[0], b[1], b[2]] + b[3..] == w + b
  {
    SplitThree(b);
    assert w + [b[0], b[1], b[2]] + b[3..] == w + ([b[0], b[1], b[2]] + b[3..]);
  }

  /** Scanning an encoding writes its bytes; when the encoding ends in
      padding the scan stops there and what follows is never read. */
  lemma {:induction false} A2bEncode(b: Bytes, x: string, w: Bytes)
    ensures |b| % 3 == 0 ==> A2b(Encode(b) + x, Scan(0, 0, 0, w)) == A2b(x, Scan(0, 0, 0, w + b))
    ensures |b| % 3 != 0 ==> A2b(Encode(b) + x, Scan(0, 0, 0, w)) == Some(w + b)
    decreases |b|
  {
    if |b| == 0 {
      assert Encode(b) + x == x && w + b == w;
    } else if |b| <= 2 {
      A2bEncodeShort(b, x, w);
    } else {
      var w' := w + [b[0], b[1], b[2]];
      A2bEncodeStep(b, x, w);
      A2bEncode(b[3..], x, w');
      AppendThree(w, b);
      LessThree(|b|);
    }
  }

  lemma EncodeAscii(b: Bytes)
    ensures IsAscii(Encode(b))
  {
    EncodeAlphabet(b);
  }

  /** b64decode(b64encode(b)) == b */
  lemma PythonDecodeEncode(b: Bytes)
    ensures PythonDecode(Encode(b)) == Some(b)
  {
    EncodeAscii(b);
    A2bEncode(b, "", []);
    assert Encode(b) + "" == Encode(b);
    assert [] + b == b;
    assert A2b(Encode(b), Start) == Some(b);
  }

  lemma AsciiJoin(p: string, q: string)
    requires IsAscii(p) && IsAscii(q)
    ensures IsAscii(p + q)
  {
    var s := p + q;
    forall i | 0 <= i < |s| ensures s[i] as int < 128 {
      if i >= |p| {
        assert s[i] == q[i - |p|];
      }
    }
  }

  /** Once the padding of a final short group is complete, the rest of
      the text is ignored ("QQ==QQ==" and "QQ===" both decode to "A"). */
  lemma PythonDecodeStopsAtPadding(b: Bytes, t: string)
    requires |b| % 3 != 0 && IsAscii(t)
    ensures PythonDecode(Encode(b) + t) == Some(b)
  {
    EncodeAscii(b);
    AsciiJoin(Encode(b), t);
    A2bEncode(b, t, []);
    assert [] + b == b;
    assert A2b(Encode(b) + t, Start) == Some(b);
  }

  lemma A2bSkipsEarlyPad(a: Bytes, b: Bytes)
    requires |a| % 3 == 0
    ensures A2b(Encode(a) + (['='] + Encode(b)), Start) == Some(a + b)
  {
    A2bEncode(a, ['='] + Encode(b), []);
    assert [] + a == a;
    A2bPad(Encode(b), Scan(0, 0, 0, a));
    A2bEncode(b, "", a);
    assert Encode(b) + "" == Encode(b);
  }

  /** A '=' read before the second data character of a group is skipped
      ("QUJD=QUJD" decodes to "ABCABC"). */
  lemma PythonDecodeSkipsEarlyPad(a: Bytes, b: Bytes)
    requires |a| % 3 == 0
    ensures PythonDecode(Encode(a) + "=" + Encode(b)) == Some(a + b)
  {
    EncodeAscii(a);
    EncodeAscii(b);
    AsciiJoin("=", Encode(b));
    AsciiJoin(Encode(a), "=" + Encode(b));
    assert Encode(a) + "=" + Encode(b) == Encode(a) + (['='] + Encode(b));
    A2bSkipsEarlyPad(a, b);
  }

  /** Characters outside the alphabet and '=' make no difference. */
  lemma {:induction false} A2bSkipsOthers(s: string, st: Scan)
    ensures A2b(s, st) == A2b(KeepBase64(s), st)
    decreases |s|
  {
    if s != [] {
      var k := KeepBase64(s[1..]);
      if InAlphabet(s[0]) || s[0] == '=' {
        assert KeepBase64(s) == [s[0]] + k;
        assert KeepBase64(s)[1..] == k;
        if s[0] == '=' {
          A2bSkipsOthers(s[1..], if st.quadPos >= 2 then st.(pads := st.pads + 1) else st);
        } else {
          A2bSkipsOthers(s[1..], Feed(st, Index(s[0])));
        }
      } else {
        assert KeepBase64(s) == k;
        A2bSkipsOthers(s[1..], st);
      }
    }
  }

  /** The number of data characters in s. */
  function DataCount(s: string): (n: nat)
    ensures n <= |s|
  {
    if s == [] then 0 else (if InAlphabet(s[0]) then 1 else 0) + DataCount(s[1..])
  }

  /** Without '=', the scan succeeds exactly when the data characters
      complete the last group; otherwise it reports the incomplete group. */
  lemma {:induction false} A2bWithoutPadding(s: string, st: Scan)
    requires '=' !in s && st.quadPos < 4
    ensures A2b(s, st).Some? <==> (st.quadPos + DataCount(s)) % 4 == 0
    decreases |s|
  {
    if s != [] {
      assert s[0] != '=';
      if InAlphabet(s[0]) {
        var st' := Feed(st, Index(s[0]));
        assert A2b(s, st) == A2b(s[1..], st');
        assert DataCount(s) == 1 + DataCount(s[1..]);
        A2bWithoutPadding(s[1..], st');
        QuadPosStep(st.quadPos, DataCount(s[1..]));
      } else {
        assert A2b(s, st) == A2b(s[1..], st);
        assert DataCount(s) == DataCount(s[1..]);
        A2bWithoutPadding(s[1..], st);
      }
    }
  }

  lemma QuadPosStep(q: nat, d: nat)
    requires q < 4
    ensures ((q + 1) % 4 + d) % 4 == (q + 1 + d) % 4
  {
  }
}
