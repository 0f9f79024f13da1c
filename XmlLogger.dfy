/** The decision and text logic of xml_logger.c: the directory name made
    from a client address, the redaction of secrets before an error
    capture is saved, the choice of the mount a directory lives on, the
    cached decision whether XML logging is on, the request and response
    file names, and the size of an error capture. File-system calls are
    parameters: what stat, access, realpath, mkdir and /proc/mounts
    answered. */
module XmlLogger {
  import opened Wrappers
  import opened CString
  import Conf

  // ---------------------------------------------------------------------
  // sanitize_ip_address

  /** The characters a directory name keeps: letters, digits, '.', ':'
      (for IPv6) and '-'. */
  predicate Allowed(c: char) {
    ('0' <= c <= '9') || ('a' <= c <= 'z') || ('A' <= c <= 'Z') || c == '.' || c == ':' || c == '-'
  }

  function SafeChar(c: char): (r: char)
    ensures Allowed(c) ==> r == c
    ensures !Allowed(c) ==> r == '_'
  {
    if Allowed(c) then c else '_'
  }

  /** The text sanitize_ip_address leaves in a buffer of `size` bytes:
      at most size - 1 characters of the address, each kept or replaced
      by '_'; nothing for a missing address. */
  function Sanitized(ip: Option<string>, size: nat): (r: string)
    ensures |r| == (if ip.None? || size == 0 then 0 else Min(|ip.value|, size - 1))
    ensures forall i :: 0 <= i < |r| ==> r[i] == SafeChar(ip.value[i])
  {
    if ip.None? || size == 0 then ""
    else seq(Min(|ip.value|, size - 1), i requires 0 <= i < Min(|ip.value|, size - 1) => SafeChar(ip.value[i]))
  }

  function Min(a: nat, b: nat): nat {
    if a <= b then a else b
  }

  /** Every character of a sanitized name is allowed or '_', and a name
      made only of allowed characters passes unchanged. */
  lemma SanitizedNames(ip: string, size: nat)
    requires size > 0
    ensures forall i :: 0 <= i < |Sanitized(Some(ip), size)| ==> Allowed(Sanitized(Some(ip), size)[i]) || Sanitized(Some(ip), size)[i] == '_'
    ensures |ip| < size && (forall i :: 0 <= i < |ip| ==> Allowed(ip[i])) ==> Sanitized(Some(ip), size) == ip
  {
  }

  /** sanitize_ip_address into `buffer`: the sanitized text, then a NUL. */
  method SanitizeIp(ip: Option<string>, buffer: array<char>)
    modifies buffer
    ensures buffer.Length > 0 ==>
      var r := Sanitized(ip, buffer.Length);
      buffer[..|r|] == r && buffer[|r|] == '\0' && buffer[|r| + 1..] == old(buffer[|r| + 1..])
    ensures buffer.Length == 0 ==> buffer[..] == old(buffer[..])
  {
    if ip.None? || buffer.Length == 0 {
      if buffer.Length > 0 {
        buffer[0] := '\0';
      }
      return;
    }
    var s := ip.value;
    var i := 0;
    while i < buffer.Length - 1 && i < |s|
      invariant 0 <= i <= Min(|s|, buffer.Length - 1)
      invariant forall k :: 0 <= k < i ==> buffer[k] == SafeChar(s[k])
      invariant buffer[i..] == old(buffer[i..])
    {
      buffer[i] := SafeChar(s[i]);
      i := i + 1;
    }
    buffer[i] := '\0';
    assert buffer[..i] == Sanitized(ip, buffer.Length);
  }

  // ---------------------------------------------------------------------
  // redact_between_tags

  const Replacement := "REDACTED"

  /** What the element text of n characters becomes: REDACTED padded with
      spaces, or its first n characters when the text is shorter. */
  function Mask(n: nat): (r: string)
    ensures |r| == n
  {
    seq(n, i => MaskAt(i))
  }

  /** Character i of a mask: the i-th letter of REDACTED, or a space. */
  function MaskAt(i: int): char {
    if 0 <= i < |Replacement| then Replacement[i] else ' '
  }

  /** A mask is REDACTED followed by spaces, or the first n characters of
      REDACTED when the element text is shorter. */
  lemma MaskShape(n: nat)
    ensures n >= |Replacement| ==> Mask(n)[..|Replacement|] == Replacement && forall i :: |Replacement| <= i < n ==> Mask(n)[i] == ' '
    ensures n < |Replacement| ==> Mask(n) == Replacement[..n]
  {
  }

  /** The characters a mask is made of. */
  predicate MaskChar(c: char) {
    c == ' ' || c == 'R' || c == 'E' || c == 'D' || c == 'A' || c == 'C' || c == 'T'
  }

  lemma MaskChars(n: nat)
    ensures forall i :: 0 <= i < n ==> MaskChar(Mask(n)[i])
  {
    forall i | 0 <= i < n ensures MaskChar(Mask(n)[i]) {
      assert Mask(n)[i] == MaskAt(i);
    }
  }

  /** s with `text` written over it from position `at`. */
  function Overlay(s: string, at: nat, text: string): (r: string)
    requires at + |text| <= |s|
    ensures |r| == |s|
  {
    seq(|s|, i requires 0 <= i < |s| => if at <= i < at + |text| then text[i - at] else s[i])
  }

  /** Outside the written range the text is unchanged; inside it is `text`. */
  lemma OverlayAt(s: string, at: nat, text: string)
    requires at + |text| <= |s|
    ensures forall i :: 0 <= i < |s| && !(at <= i < at + |text|) ==> Overlay(s, at, text)[i] == s[i]
    ensures Overlay(s, at, text)[at..at + |text|] == text
  {
    assert forall i :: 0 <= i < |text| ==> Overlay(s, at, text)[at..at + |text|][i] == text[i];
  }

  /** strstr(s + from, t), as a position in s. */
  function FindFrom(s: string, t: string, from: nat): (r: Option<nat>)
    requires from <= |s|
    decreases |s| - from
    ensures r.Some? ==> from <= r.value && r.value + |t| <= |s|
  {
    if from + |t| > |s| then None
    else if s[from..from + |t|] == t then Some(from)
    else FindFrom(s, t, from + 1)
  }

  /** strchr(s + from, c), as a position in s. */
  function CharFrom(s: string, c: char, from: nat): (r: Option<nat>)
    requires from <= |s|
    decreases |s| - from
    ensures r.Some? ==> from <= r.value < |s|
  {
    if from == |s| then None
    else if s[from] == c then Some(from)
    else CharFrom(s, c, from + 1)
  }

  /** FindFrom finds the first occurrence at or after `from`, and none
      only when there is none. */
  lemma {:induction false} FindFromSpec(s: string, t: string, from: nat)
    requires from <= |s|
    decreases |s| - from
    ensures FindFrom(s, t, from).Some? ==> OccursAt(s, t, FindFrom(s, t, from).value)
    ensures forall k :: from <= k && (FindFrom(s, t, from).Some? ==> k < FindFrom(s, t, from).value) ==> !OccursAt(s, t, k)
  {
    if from + |t| <= |s| && s[from..from + |t|] != t {
      FindFromSpec(s, t, from + 1);
    }
  }

  /** CharFrom finds the first `c` at or after `from`, and none only when
      there is none. */
  lemma {:induction false} CharFromSpec(s: string, c: char, from: nat)
    requires from <= |s|
    decreases |s| - from
    ensures CharFrom(s, c, from).Some? ==> s[CharFrom(s, c, from).value] == c
    ensures forall k :: from <= k < |s| && (CharFrom(s, c, from).Some? ==> k < CharFrom(s, c, from).value) ==> s[k] != c
  {
    if from < |s| && s[from] != c {
      CharFromSpec(s, c, from + 1);
    }
  }

  /** From position `from`: the next opening tag, the '>' that ends it and
      the closing tag after that. The result is the element text, from
      its first character up to the closing tag. */
  function NextElement(s: string, open: string, close: string, from: nat): (r: Option<(nat, nat)>)
    requires from <= |s|
    ensures r.Some? ==> from < r.value.0 <= r.value.1 && r.value.1 + |close| <= |s|
  {
    match FindFrom(s, open, from)
    case None => None
    case Some(p) =>
      match CharFrom(s, '>', p)
      case None => None
      case Some(g) =>
        match FindFrom(s, close, g + 1)
        case None => None
        case Some(h) => Some((g + 1, h))
  }

  /** Where the search goes on after an element: just past its closing
      tag. */
  function Resume(q: nat, close: string): nat {
    q + |close|
  }

  /** The loop of one tag pair from position `from` on: every element
      text in turn is masked, and the search goes on after its closing
      tag. */
  function RedactFrom(s: string, open: string, close: string, from: nat): (r: string)
    requires from <= |s|
    decreases |s| - from
    ensures |r| == |s|
  {
    var next := NextElement(s, open, close, from);
    if next.None? then s
    else
      var a := next.value.0;
      var q := next.value.1;
      RedactFrom(Overlay(s, a, Mask(q - a)), open, close, Resume(q, close))
  }

  /** RedactFrom when no further element is found, and when one is. */
  lemma RedactDone(s: string, open: string, close: string, from: nat)
    requires from <= |s| && NextElement(s, open, close, from).None?
    ensures RedactFrom(s, open, close, from) == s
  {
  }

  lemma RedactStep(s: string, open: string, close: string, from: nat, a: nat, q: nat)
    requires from <= |s| && NextElement(s, open, close, from).Some?
    requires NextElement(s, open, close, from).value.0 == a && NextElement(s, open, close, from).value.1 == q
    ensures a <= q && q + |close| <= |s|
    ensures RedactFrom(s, open, close, from) == RedactFrom(Overlay(s, a, Mask(q - a)), open, close, Resume(q, close))
  {
  }

  /** The loop's step: after masking the element found from `from`, the
      rest of the pass goes on from just after its closing tag. */
  lemma RedactAdvance(s: string, t: string, open: string, close: string, from: nat, a: nat, q: nat, p: nat)
    requires from <= |s| && NextElement(s, open, close, from).Some?
    requires NextElement(s, open, close, from).value.0 == a && NextElement(s, open, close, from).value.1 == q
    requires a + (q - a) <= |s| && t == Overlay(s, a, Mask(q - a)) && p == Resume(q, close)
    ensures p <= |t| && RedactFrom(t, open, close, p) == RedactFrom(s, open, close, from)
  {
    RedactStep(s, open, close, from, a, q);
  }

  /** What NextElement finds: an opening tag at or after `from`, then the
      first '>' after it, then the first closing tag after that; the
      element text lies between the '>' and the closing tag. */
  lemma NextElementSpec(s: string, open: string, close: string, from: nat)
    requires from <= |s| && NextElement(s, open, close, from).Some?
    ensures var (a, q) := NextElement(s, open, close, from).value;
            s[a - 1] == '>' && OccursAt(s, close, q) &&
            (forall k :: a <= k < q ==> !OccursAt(s, close, k)) &&
            (exists p :: from <= p < a && OccursAt(s, open, p))
  {
    var p := FindFrom(s, open, from).value;
    FindFromSpec(s, open, from);
    var g := CharFrom(s, '>', p).value;
    CharFromSpec(s, '>', p);
    FindFromSpec(s, close, g + 1);
    assert from <= p < g + 1 && OccursAt(s, open, p);
  }

  /** Everything before `from` is left as it was. */
  lemma {:induction false} RedactFromKeepsPrefix(s: string, open: string, close: string, from: nat)
    requires from <= |s|
    decreases |s| - from
    ensures forall i :: 0 <= i < from ==> RedactFrom(s, open, close, from)[i] == s[i]
  {
    var next := NextElement(s, open, close, from);
    if next.None? {
      RedactDone(s, open, close, from);
    } else {
      var a := next.value.0;
      var q := next.value.1;
      var t := Overlay(s, a, Mask(q - a));
      var p := Resume(q, close);
      RedactAdvance(s, t, open, close, from, a, q, p);
      OverlayAt(s, a, Mask(q - a));
      RedactFromKeepsPrefix(t, open, close, p);
    }
  }

  /** Every character is kept or is part of a mask. */
  lemma {:induction false} RedactFromMasks(s: string, open: string, close: string, from: nat)
    requires from <= |s|
    decreases |s| - from
    ensures forall i :: 0 <= i < |s| ==> RedactFrom(s, open, close, from)[i] == s[i] || MaskChar(RedactFrom(s, open, close, from)[i])
  {
    var next := NextElement(s, open, close, from);
    if next.None? {
      RedactDone(s, open, close, from);
    } else {
      var a := next.value.0;
      var q := next.value.1;
      var t := Overlay(s, a, Mask(q - a));
      var p := Resume(q, close);
      RedactAdvance(s, t, open, close, from, a, q, p);
      var r := RedactFrom(s, open, close, from);
      OverlayAt(s, a, Mask(q - a));
      RedactFromMasks(t, open, close, p);
      MaskChars(q - a);
      forall i | 0 <= i < |s| ensures r[i] == s[i] || MaskChar(r[i]) {
        if a <= i < q {
          assert t[i] == t[a..q][i - a];
        }
      }
    }
  }

  /** The first element found is masked in the result. */
  lemma FirstElementMasked(s: string, open: string, close: string, from: nat, a: nat, q: nat)
    requires from <= |s| && NextElement(s, open, close, from).Some?
    requires NextElement(s, open, close, from).value.0 == a && NextElement(s, open, close, from).value.1 == q
    ensures a <= q <= |s| && RedactFrom(s, open, close, from)[a..q] == Mask(q - a)
  {
    RedactStep(s, open, close, from, a, q);
    var t := Overlay(s, a, Mask(q - a));
    var p := Resume(q, close);
    RedactAdvance(s, t, open, close, from, a, q, p);
    OverlayAt(s, a, Mask(q - a));
    RedactFromKeepsPrefix(t, open, close, p);
    var r := RedactFrom(s, open, close, from);
    forall i | a <= i < q ensures r[i] == t[i] {
    }
    assert r[a..q] == t[a..q];
  }

  /** The searches read nothing before where they start: two texts of the
      same length that agree from `from` on give the same answers. */
  lemma {:induction false} FindFromSuffix(s: string, u: string, t: string, from: nat)
    requires from <= |s| == |u|
    requires forall i :: from <= i < |s| ==> s[i] == u[i]
    decreases |s| - from
    ensures FindFrom(s, t, from) == FindFrom(u, t, from)
  {
    if from + |t| <= |s| {
      assert s[from..from + |t|] == u[from..from + |t|];
      if s[from..from + |t|] != t {
        FindFromSuffix(s, u, t, from + 1);
      }
    }
  }

  lemma {:induction false} CharFromSuffix(s: string, u: string, c: char, from: nat)
    requires from <= |s| == |u|
    requires forall i :: from <= i < |s| ==> s[i] == u[i]
    decreases |s| - from
    ensures CharFrom(s, c, from) == CharFrom(u, c, from)
  {
    if from < |s| {
      CharFromSuffix(s, u, c, from + 1);
    }
  }

  lemma NextElementSuffix(s: string, u: string, open: string, close: string, from: nat)
    requires from <= |s| == |u|
    requires forall i :: from <= i < |s| ==> s[i] == u[i]
    ensures NextElement(s, open, close, from) == NextElement(u, open, close, from)
  {
    FindFromSuffix(s, u, open, from);
    if FindFrom(s, open, from).Some? {
      var p := FindFrom(s, open, from).value;
      CharFromSuffix(s, u, '>', p);
      if CharFrom(s, '>', p).Some? {
        FindFromSuffix(s, u, close, CharFrom(s, '>', p).value + 1);
      }
    }
  }

  /** The element texts one pass masks, in order: the element NextElement
      finds from `from`, then those found after its closing tag. Each lies
      after the previous closing tag. */
  function ElementRanges(s: string, open: string, close: string, from: nat): (r: seq<(nat, nat)>)
    requires from <= |s|
    decreases |s| - from
    ensures r == [] <==> NextElement(s, open, close, from).None?
    ensures r != [] ==> r[0] == NextElement(s, open, close, from).value
    ensures forall k :: 0 <= k < |r| ==> from < r[k].0 <= r[k].1 && r[k].1 + |close| <= |s|
    ensures forall k :: 0 < k < |r| ==> r[k - 1].1 + |close| < r[k].0
  {
    var next := NextElement(s, open, close, from);
    if next.None? then []
    else [next.value] + ElementRanges(s, open, close, Resume(next.value.1, close))
  }

  lemma {:induction false} ElementRangesSuffix(s: string, u: string, open: string, close: string, from: nat)
    requires from <= |s| == |u|
    requires forall i :: from <= i < |s| ==> s[i] == u[i]
    decreases |s| - from
    ensures ElementRanges(s, open, close, from) == ElementRanges(u, open, close, from)
  {
    NextElementSuffix(s, u, open, close, from);
    var next := NextElement(s, open, close, from);
    if next.Some? {
      ElementRangesSuffix(s, u, open, close, Resume(next.value.1, close));
    }
  }

  /** Position i lies in the text of one of the ranges. */
  predicate Covered(rs: seq<(nat, nat)>, i: int) {
    exists k :: 0 <= k < |rs| && rs[k].0 <= i < rs[k].1
  }

  /** r is s with the text of every range of rs replaced by its mask and
      every other character kept. */
  predicate MasksExactly(s: string, r: string, rs: seq<(nat, nat)>) {
    |r| == |s| &&
    (forall k :: 0 <= k < |rs| ==> rs[k].0 <= rs[k].1 <= |s| && r[rs[k].0..rs[k].1] == Mask(rs[k].1 - rs[k].0)) &&
    (forall i :: 0 <= i < |s| && !Covered(rs, i) ==> r[i] == s[i])
  }

  lemma CoveredCons(x: (nat, nat), rest: seq<(nat, nat)>, i: int)
    ensures Covered([x] + rest, i) <==> (x.0 <= i < x.1 || Covered(rest, i))
  {
    var rs := [x] + rest;
    if x.0 <= i < x.1 {
      assert rs[0] == x;
    }
    if Covered(rest, i) {
      var k :| 0 <= k < |rest| && rest[k].0 <= i < rest[k].1;
      assert rs[k + 1] == rest[k];
    }
    if Covered(rs, i) {
      var k :| 0 <= k < |rs| && rs[k].0 <= i < rs[k].1;
      if k > 0 {
        assert rest[k - 1] == rs[k];
      }
    }
  }

  /** Masking one more range in front of the others. */
  lemma MasksExactlyCons(s: string, t: string, r: string, a: nat, q: nat, rest: seq<(nat, nat)>)
    requires a <= q <= |s| && t == Overlay(s, a, Mask(q - a))
    requires MasksExactly(t, r, rest)
    requires forall k :: 0 <= k < |rest| ==> q <= rest[k].0
    ensures MasksExactly(s, r, [(a, q)] + rest)
  {
    var rs := [(a, q)] + rest;
    OverlayAt(s, a, Mask(q - a));
    forall i | a <= i < q ensures r[i] == t[i] {
      assert !Covered(rest, i);
    }
    assert r[a..q] == t[a..q];
    forall i | 0 <= i < |s| && !Covered(rs, i) ensures r[i] == s[i] {
      CoveredCons((a, q), rest, i);
    }
    forall k | 0 <= k < |rs|
      ensures rs[k].0 <= rs[k].1 <= |s| && r[rs[k].0..rs[k].1] == Mask(rs[k].1 - rs[k].0)
    {
      if k == 0 {
        assert rs[0] == (a, q);
        assert r[a..q] == Mask(q - a);
      } else {
        var x := rest[k - 1];
        assert rs[k] == x;
        assert r[x.0..x.1] == Mask(x.1 - x.0);
      }
    }
  }

  /** One step of the pass: masking the first element and masking the
      ranges found after it mask exactly the ranges found from `from`. */
  lemma RedactStepMasks(s: string, open: string, close: string, from: nat, a: nat, q: nat, r: string)
    requires from <= |s| && NextElement(s, open, close, from) == Some((a, q))
    requires MasksExactly(Overlay(s, a, Mask(q - a)), r, ElementRanges(Overlay(s, a, Mask(q - a)), open, close, Resume(q, close)))
    ensures MasksExactly(s, r, ElementRanges(s, open, close, from))
  {
    var t := Overlay(s, a, Mask(q - a));
    var p := Resume(q, close);
    OverlayAt(s, a, Mask(q - a));
    ElementRangesSuffix(t, s, open, close, p);
    var rest := ElementRanges(s, open, close, p);
    assert ElementRanges(s, open, close, from) == [(a, q)] + rest;
    MasksExactlyCons(s, t, r, a, q, rest);
  }

  /** The pass from `from` masks exactly the element texts it finds. */
  lemma {:induction false} RedactFromMasksExactly(s: string, open: string, close: string, from: nat)
    requires from <= |s|
    decreases |s| - from
    ensures MasksExactly(s, RedactFrom(s, open, close, from), ElementRanges(s, open, close, from))
  {
    var next := NextElement(s, open, close, from);
    if next.None? {
      RedactDone(s, open, close, from);
    } else {
      var a := next.value.0;
      var q := next.value.1;
      var t := Overlay(s, a, Mask(q - a));
      var p := Resume(q, close);
      RedactAdvance(s, t, open, close, from, a, q, p);
      RedactFromMasksExactly(t, open, close, p);
      RedactStepMasks(s, open, close, from, a, q, RedactFrom(s, open, close, from));
    }
  }

  /** One redaction pass over a whole text: the text of every element the
      pass finds from the start is masked, every other character is kept,
      and so every character is kept or part of a mask. */
  function RedactTagPass(s: string, open: string, close: string): (r: string)
    ensures MasksExactly(s, r, ElementRanges(s, open, close, 0))
    ensures forall i :: 0 <= i < |s| ==> r[i] == s[i] || MaskChar(r[i])
  {
    RedactFromMasks(s, open, close, 0);
    RedactFromMasksExactly(s, open, close, 0);
    RedactFrom(s, open, close, 0)
  }

  const PasswordOpen := "<wsse:Password"
  const PasswordClose := "</wsse:Password>"
  const CreatedOpen := "<wsu:Created"
  const CreatedClose := "</wsu:Created>"
  const NonceOpen := "<wsse:Nonce"
  const NonceClose := "</wsse:Nonce>"

  /** A character inside a masked range is a mask character. */
  lemma CoveredIsMask(s: string, r: string, rs: seq<(nat, nat)>, i: int)
    requires MasksExactly(s, r, rs) && 0 <= i < |s| && Covered(rs, i)
    ensures MaskChar(r[i])
  {
    var k :| 0 <= k < |rs| && rs[k].0 <= i < rs[k].1;
    var x := rs[k];
    assert r[i] == r[x.0..x.1][i - x.0];
    MaskChars(x.1 - x.0);
  }

  /** A later pass keeps every mask character of an earlier one. */
  lemma MaskSurvives(s: string, r: string, rs: seq<(nat, nat)>, i: int)
    requires MasksExactly(s, r, rs) && 0 <= i < |s| && MaskChar(s[i])
    ensures MaskChar(r[i])
  {
    if Covered(rs, i) {
      CoveredIsMask(s, r, rs, i);
    }
  }

  /** What three passes leave: the text of every range of the first pass
      and of the second is made of mask characters, and every character
      outside all three passes' ranges is kept. */
  lemma ThreePasses(xml: string, a: string, b: string, r: string, ra: seq<(nat, nat)>, rb: seq<(nat, nat)>, rn: seq<(nat, nat)>)
    requires MasksExactly(xml, a, ra) && MasksExactly(a, b, rb) && MasksExactly(b, r, rn)
    ensures forall i :: 0 <= i < |xml| && Covered(ra, i) ==> MaskChar(r[i])
    ensures forall i :: 0 <= i < |xml| && Covered(rb, i) ==> MaskChar(r[i])
    ensures forall i :: (0 <= i < |xml| && !Covered(ra, i) && !Covered(rb, i) && !Covered(rn, i)) ==> r[i] == xml[i]
  {
    forall i | 0 <= i < |xml| && Covered(ra, i) ensures MaskChar(r[i]) {
      CoveredIsMask(xml, a, ra, i);
      MaskSurvives(a, b, rb, i);
      MaskSurvives(b, r, rn, i);
    }
    forall i | 0 <= i < |xml| && Covered(rb, i) ensures MaskChar(r[i]) {
      CoveredIsMask(a, b, rb, i);
      MaskSurvives(b, r, rn, i);
    }
  }

  /** The redacted copy: the wsse:Password, wsu:Created and wsse:Nonce
      passes in that order. It is as long as the XML, every character is
      kept or part of a mask, the text of every password element is made
      of mask characters, and only characters inside an element some pass
      found differ from the XML. */
  function Redact(xml: string): (r: string)
    ensures |r| == |xml|
    ensures forall i :: 0 <= i < |xml| ==> r[i] == xml[i] || MaskChar(r[i])
    ensures forall i :: 0 <= i < |xml| && Covered(ElementRanges(xml, PasswordOpen, PasswordClose, 0), i) ==> MaskChar(r[i])
    ensures var a := RedactTagPass(xml, PasswordOpen, PasswordClose);
            var b := RedactTagPass(a, CreatedOpen, CreatedClose);
            (forall i :: 0 <= i < |xml| && Covered(ElementRanges(a, CreatedOpen, CreatedClose, 0), i) ==> MaskChar(r[i])) &&
            MasksExactly(b, r, ElementRanges(b, NonceOpen, NonceClose, 0)) &&
            (forall i :: (0 <= i < |xml| && !Covered(ElementRanges(xml, PasswordOpen, PasswordClose, 0), i)
                          && !Covered(ElementRanges(a, CreatedOpen, CreatedClose, 0), i)
                          && !Covered(ElementRanges(b, NonceOpen, NonceClose, 0), i)) ==> r[i] == xml[i])
  {
    var a := RedactTagPass(xml, PasswordOpen, PasswordClose);
    var b := RedactTagPass(a, CreatedOpen, CreatedClose);
    var r := RedactTagPass(b, NonceOpen, NonceClose);
    ThreePasses(xml, a, b, r, ElementRanges(xml, PasswordOpen, PasswordClose, 0),
                ElementRanges(a, CreatedOpen, CreatedClose, 0), ElementRanges(b, NonceOpen, NonceClose, 0));
    r
  }

  /** Write Mask(n) over out[at..at + n]: the memcpy and memset. */
  method Fill(out: array<char>, at: nat, n: nat)
    requires at + n <= out.Length
    modifies out
    ensures out[..] == Overlay(old(out[..]), at, Mask(n))
  {
    var m := Mask(n);
    var j := 0;
    while j < n
      invariant 0 <= j <= n
      invariant forall i :: 0 <= i < out.Length && !(at <= i < at + j) ==> out[i] == old(out[i])
      invariant forall i :: at <= i < at + j ==> out[i] == m[i - at]
    {
      out[at + j] := m[j];
      j := j + 1;
    }
    ghost var r := Overlay(old(out[..]), at, m);
    OverlayAt(old(out[..]), at, m);
    assert forall i :: at <= i < at + n ==> r[i] == r[at..at + n][i - at];
    assert out[..] == r;
  }

  /** The while loop of one tag pair, in place. */
  method RedactTag(out: array<char>, open: string, close: string)
    modifies out
    ensures out[..] == RedactFrom(old(out[..]), open, close, 0)
  {
    ghost var goal := RedactFrom(old(out[..]), open, close, 0);
    var p: nat := 0;
    while true
      invariant p <= out.Length
      invariant RedactFrom(out[..], open, close, p) == goal
      decreases out.Length - p
    {
      var before := out[..];
      var next := NextElement(before, open, close, p);
      if next.None? {
        RedactDone(before, open, close, p);
        break;
      }
      var a := next.value.0;
      var q := next.value.1;
      ghost var from := p;
      Fill(out, a, q - a);
      p := Resume(q, close);
      RedactAdvance(before, out[..], open, close, from, a, q, p);
    }
  }

  /** redact_between_tags: a copy of the XML with the three secrets
      masked. */
  method RedactBetweenTags(xml: string) returns (out: array<char>)
    ensures fresh(out) && out[..] == Redact(xml)
  {
    out := new char[|xml|];
    var i := 0;
    while i < |xml|
      invariant 0 <= i <= |xml|
      invariant forall k :: 0 <= k < i ==> out[k] == xml[k]
    {
      out[i] := xml[i];
      i := i + 1;
    }
    assert out[..] == xml;
    RedactTag(out, PasswordOpen, PasswordClose);
    RedactTag(out, CreatedOpen, CreatedClose);
    RedactTag(out, NonceOpen, NonceClose);
  }

  // ---------------------------------------------------------------------
  // is_external_mount_ready

  /** One line of /proc/mounts. */
  datatype Mount = Mount(device: string, point: string, fstype: string)

  /** The mount point is a leading part of the path ending at the end of
      the path or at a '/'. */
  predicate Covers(path: string, point: string) {
    |point| > 0 && StartsWith(path, point) && (|path| == |point| || path[|point|] == '/')
  }

  /** The mount scan: the index of the first of the longest mount points
      that cover the path, or -1. */
  method BestMount(resolved: string, mounts: seq<Mount>) returns (best: int)
    ensures best == -1 <==> forall i :: 0 <= i < |mounts| ==> !Covers(resolved, mounts[i].point)
    ensures best != -1 ==> 0 <= best < |mounts| && Covers(resolved, mounts[best].point)
    ensures best != -1 ==> forall i :: 0 <= i < |mounts| && Covers(resolved, mounts[i].point) ==>
                             |mounts[i].point| <= |mounts[best].point|
    ensures best != -1 ==> forall i :: 0 <= i < best && Covers(resolved, mounts[i].point) ==>
                             |mounts[i].point| < |mounts[best].point|
  {
    best := -1;
    var bestLen := -1;
    var i := 0;
    while i < |mounts|
      invariant 0 <= i <= |mounts|
      invariant best == -1 <==> bestLen == -1
      invariant best == -1 ==> forall k :: 0 <= k < i ==> !Covers(resolved, mounts[k].point)
      invariant best != -1 ==> 0 <= best < i && bestLen == |mounts[best].point| && Covers(resolved, mounts[best].point)
      invariant best != -1 ==> forall k :: 0 <= k < i && Covers(resolved, mounts[k].point) ==> |mounts[k].point| <= bestLen
      invariant best != -1 ==> forall k :: 0 <= k < best && Covers(resolved, mounts[k].point) ==> |mounts[k].point| < bestLen
    {
      var point := mounts[i].point;
      if |point| > 0 && StartsWith(resolved, point) && (|resolved| == |point| || resolved[|point|] == '/') {
        if |point| > bestLen {
          best := i;
          bestLen := |point|;
        }
      }
      i := i + 1;
    }
  }

  const Disallowed: seq<string> := ["overlay", "tmpfs", "ramfs", "rootfs"]

  /** What the checks before the scan found: stat and access succeeded,
      and realpath resolved the directory. */
  datatype DirectoryProbe = DirectoryProbe(present: bool, writable: bool, resolved: Option<string>)

  /** The verdict on a chosen mount: not the root, not an in-memory or
      overlay file system. */
  predicate ExternalMount(m: Mount) {
    m.point != "/" && m.fstype !in Disallowed
  }

  /** is_external_mount_ready: a configured, existing, writable directory
      that resolves and lies on an external mount. `mounts` is None when
      /proc/mounts cannot be opened. */
  method ExternalMountReady(dir: Option<string>, probe: DirectoryProbe, mounts: Option<seq<Mount>>)
    returns (ready: bool)
    ensures ready ==> dir.Some? && dir.value != [] && probe.present && probe.writable && probe.resolved.Some? && mounts.Some?
    ensures ready <==> dir.Some? && dir.value != [] && probe.present && probe.writable && probe.resolved.Some? && mounts.Some?
                       && (exists i :: 0 <= i < |mounts.value| && Covers(probe.resolved.value, mounts.value[i].point)
                             && (forall k :: 0 <= k < |mounts.value| && Covers(probe.resolved.value, mounts.value[k].point) ==>
                                   |mounts.value[k].point| <= |mounts.value[i].point|)
                             && (forall k :: 0 <= k < i && Covers(probe.resolved.value, mounts.value[k].point) ==>
                                   |mounts.value[k].point| < |mounts.value[i].point|)
                             && ExternalMount(mounts.value[i]))
  {
    if dir.None? || dir.value == [] || !probe.present || !probe.writable || probe.resolved.None? || mounts.None? {
      return false;
    }
    var best := BestMount(probe.resolved.value, mounts.value);
    if best < 0 {
      return false;
    }
    ready := ExternalMount(mounts.value[best]);
    FirstLongestUnique(probe.resolved.value, mounts.value, best);
  }

  /** There is only one first longest covering mount. */
  lemma FirstLongestUnique(path: string, ms: seq<Mount>, b: nat)
    requires b < |ms| && Covers(path, ms[b].point)
    requires forall k :: 0 <= k < |ms| && Covers(path, ms[k].point) ==> |ms[k].point| <= |ms[b].point|
    requires forall k :: 0 <= k < b && Covers(path, ms[k].point) ==> |ms[k].point| < |ms[b].point|
    ensures forall i :: 0 <= i < |ms| && Covers(path, ms[i].point)
              && (forall k :: 0 <= k < |ms| && Covers(path, ms[k].point) ==> |ms[k].point| <= |ms[i].point|)
              && (forall k :: 0 <= k < i && Covers(path, ms[k].point) ==> |ms[k].point| < |ms[i].point|)
              ==> i == b
  {
  }

  /** Two covering mount points of one path are one inside the other. */
  lemma CoveringMountsNest(path: string, a: string, b: string)
    requires Covers(path, a) && Covers(path, b) && |a| <= |b|
    ensures StartsWith(b, a)
  {
    assert b[..|a|] == path[..|a|];
  }

  // ---------------------------------------------------------------------
  // xml_logger_is_enabled and the request and response logs

  const LevelDebug := 4

  /** What is checked the first time: debug level, a configured
      directory, and that it exists, is a directory and is writable. */
  predicate LoggingDecision(loglevel: int, directory: Option<string>, directoryUsable: bool) {
    loglevel >= LevelDebug && directory.Some? && directory.value != [] && directoryUsable
  }

  /** The configuration loader never assigns raw_log_directory (it reads
      "raw_xml_log_file" instead), so the directory is NULL and XML logging
      is never turned on, whatever the main file holds: even one with a
      "log_directory" member and the debug level. */
  lemma LoggingNeverEnabledAsLoaded(j: Conf.Json, directoryUsable: bool)
    ensures Conf.SettingsFrom(j).rawLogDirectory == None
    ensures !LoggingDecision(Conf.SettingsFrom(j).loglevel, Conf.SettingsFrom(j).rawLogDirectory, directoryUsable)
  {
  }

  /** The directory as the loader evidently means to read it: the
      "log_directory" member of the main file, the key the declaration of
      raw_log_directory names (src/onvif_simple_server.h:310), unset when
      absent. */
  function LogDirectoryCorrected(j: Conf.Json): (r: Option<string>)
    ensures (Conf.Item(j, "log_directory").Some? && Conf.Item(j, "log_directory").value.JString?) ==>
              r == Some(Conf.Item(j, "log_directory").value.text)
    ensures !(Conf.Item(j, "log_directory").Some? && Conf.Item(j, "log_directory").value.JString?) ==> r == None
  {
    Conf.Getters(j, "log_directory", None, 0, 0.0);
    Conf.GetString(j, "log_directory", None)
  }

  /** With the directory read from the main file, the debug level and a
      usable non-empty directory turn logging on, and nothing else does. */
  lemma LoggingEnabledCorrected(j: Conf.Json, directoryUsable: bool)
    ensures LoggingDecision(Conf.SettingsFrom(j).loglevel, LogDirectoryCorrected(j), directoryUsable) <==>
              (Conf.GetInt(j, "loglevel", 0) >= LevelDebug && Conf.Item(j, "log_directory").Some? &&
               Conf.Item(j, "log_directory").value.JString? && Conf.Item(j, "log_directory").value.text != [] &&
               directoryUsable)
  {
  }

  /** What the file system answers a log call. */
  datatype LogEnvironment = LogEnvironment(
    loglevel: int, directory: Option<string>, directoryUsable: bool,
    ipDirectoryReady: bool, writeSucceeds: bool)

  /** "<base>/<ip>/<timestamp>_<kind>.xml" */
  function LogFileName(base: string, ip: string, timestamp: string, kind: string): string {
    base + "/" + ip + "/" + timestamp + "_" + kind + ".xml"
  }

  /** The client directory component: the sanitized address, "unknown"
      when there is none. */
  function ClientDirectory(remote: Option<string>): (r: string)
    ensures remote.None? || remote.value == [] ==> r == "unknown"
    ensures remote.Some? && remote.value != [] ==> r == Sanitized(remote, 256)
  {
    Sanitized(if remote.None? || remote.value == [] then Some("unknown") else remote, 256)
  }

  /** How snprintf prints a NULL directory. */
  function BaseDirectory(directory: Option<string>): string {
    directory.GetOr("(null)")
  }

  /** The cached decision after one more xml_logger_is_enabled call: a
      decision once made is kept; otherwise it is made from the level and
      the directory checks. */
  function Decided(enabled: int, env: LogEnvironment): (r: int)
    ensures enabled != -1 ==> r == enabled
    ensures enabled == -1 ==> (r == 0 || r == 1) && (r == 1 <==> LoggingDecision(env.loglevel, env.directory, env.directoryUsable))
  {
    if enabled != -1 then enabled
    else if LoggingDecision(env.loglevel, env.directory, env.directoryUsable) then 1 else 0
  }

  /** ip_dir[1024] as create_ip_directory fills it. */
  function IpDirectory(env: LogEnvironment, remote: Option<string>): string {
    BaseDirectory(env.directory) + "/" + ClientDirectory(remote)
  }

  /** The outcome of create_ip_directory, the snprintf into filepath[1280]
      and write_xml_file: the file written, or -1 when the directory name is
      too long or cannot be made, the path is too long, or the write fails. */
  function WriteOutcome(env: LogEnvironment, remote: Option<string>, timestamp: string, kind: string): (r: (int, Option<string>))
    ensures r.0 == 0 || r.0 == -1
    ensures r.1.Some? <==> r.0 == 0
    ensures r.1.Some? <==> (|IpDirectory(env, remote)| < 1024 && env.ipDirectoryReady
                            && |LogFileName(BaseDirectory(env.directory), ClientDirectory(remote), timestamp, kind)| < 1280
                            && env.writeSucceeds)
    ensures r.1.Some? ==> r.1.value == LogFileName(BaseDirectory(env.directory), ClientDirectory(remote), timestamp, kind)
  {
    var path := IpDirectory(env, remote) + "/" + timestamp + "_" + kind + ".xml";
    if |IpDirectory(env, remote)| >= 1024 || !env.ipDirectoryReady || |path| >= 1280 || !env.writeSucceeds then (-1, None)
    else (0, Some(path))
  }

  /** The static state of xml_logger.c: the cached decision (-1 not yet
      made) and the timestamp a request and its response share. */
  class XmlLogState {
    var enabled: int
    var currentTimestamp: string

    predicate Valid()
      reads this
    {
      -1 <= enabled <= 1
    }

    /** xml_logger_init */
    constructor ()
      ensures Valid() && enabled == -1 && currentTimestamp == ""
    {
      enabled := -1;
      currentTimestamp := "";
    }

    /** xml_logger_is_enabled: decided once, then answered from the cache. */
    method IsEnabled(env: LogEnvironment) returns (on: bool)
      requires Valid()
      modifies this
      ensures Valid() && currentTimestamp == old(currentTimestamp)
      ensures enabled == Decided(old(enabled), env) && on == (enabled == 1)
    {
      if enabled != -1 {
        return enabled == 1;
      }
      on := LoggingDecision(env.loglevel, env.directory, env.directoryUsable);
      enabled := if on then 1 else 0;
    }

    /** The part log_xml_request and log_xml_response share once the
        timestamp is known: the client directory, the two length checks
        and the write. */
    static method WriteLog(env: LogEnvironment, remote: Option<string>, timestamp: string, kind: string)
      returns (code: int, file: Option<string>)
      ensures (code, file) == WriteOutcome(env, remote, timestamp, kind)
    {
      var ipDir := IpDirectory(env, remote);
      if |ipDir| >= 1024 || !env.ipDirectoryReady {
        return -1, None;
      }
      var path := ipDir + "/" + timestamp + "_" + kind + ".xml";
      if |path| >= 1280 || !env.writeSucceeds {
        return -1, None;
      }
      return 0, Some(path);
    }

    /** log_xml_request: when logging is on and there is content, a fresh
        timestamp that the response will share. */
    method LogRequest(env: LogEnvironment, xml: Option<string>, remote: Option<string>, now: string)
      returns (code: int, file: Option<string>)
      requires Valid()
      modifies this
      ensures Valid() && enabled == Decided(old(enabled), env)
      ensures enabled == 1 && xml.Some? && xml.value != [] ==>
        currentTimestamp == now && (code, file) == WriteOutcome(env, remote, now, "request")
      ensures !(enabled == 1 && xml.Some? && xml.value != []) ==> currentTimestamp == old(currentTimestamp) && code == 0 && file.None?
    {
      var on := IsEnabled(env);
      if !on || xml.None? || xml.value == [] {
        return 0, None;
      }
      currentTimestamp := now;
      code, file := WriteLog(env, remote, now, "request");
    }

    /** log_xml_response: the request's timestamp when there is one. */
    method LogResponse(env: LogEnvironment, xml: Option<string>, remote: Option<string>, now: string)
      returns (code: int, file: Option<string>)
      requires Valid()
      modifies this
      ensures Valid() && enabled == Decided(old(enabled), env)
      ensures enabled == 1 && xml.Some? && xml.value != [] ==>
        currentTimestamp == (if old(currentTimestamp) != [] then old(currentTimestamp) else now)
        && (code, file) == WriteOutcome(env, remote, currentTimestamp, "response")
      ensures !(enabled == 1 && xml.Some? && xml.value != []) ==> currentTimestamp == old(currentTimestamp) && code == 0 && file.None?
    {
      var on := IsEnabled(env);
      if !on || xml.None? || xml.value == [] {
        return 0, None;
      }
      if currentTimestamp == [] {
        currentTimestamp := now;
      }
      code, file := WriteLog(env, remote, currentTimestamp, "response");
    }
  }

  /** A logged request and its response name their files with the same
      timestamp, whatever the clock says at the response. */
  method RequestAndResponse(state: XmlLogState, env: LogEnvironment, xml: string, answer: string,
                            remote: Option<string>, requestTime: string, responseTime: string)
    returns (request: Option<string>, response: Option<string>)
    requires state.Valid() && xml != [] && answer != [] && requestTime != []
    modifies state
    ensures request.Some? && response.Some? ==>
      request.value == LogFileName(BaseDirectory(env.directory), ClientDirectory(remote), requestTime, "request")
      && response.value == LogFileName(BaseDirectory(env.directory), ClientDirectory(remote), requestTime, "response")
  {
    var code;
    code, request := state.LogRequest(env, Some(xml), remote, requestTime);
    code, response := state.LogResponse(env, Some(answer), remote, responseTime);
  }

  // ---------------------------------------------------------------------
  // log_xml_error_request: the size of the capture

  const MaxErrorXmlSize := 2 * 1024 * 1024
  const TruncatedMarker := "\n[TRUNCATED]\n"

  /** The bytes an error capture writes: at most 2 MiB of the redacted XML,
      then the marker exactly when the XML is larger. */
  function ErrorCapture(redacted: string): (r: string)
    ensures |r| == Min(|redacted|, MaxErrorXmlSize) + (if |redacted| > MaxErrorXmlSize then |TruncatedMarker| else 0)
    ensures r[..Min(|redacted|, MaxErrorXmlSize)] == redacted[..Min(|redacted|, MaxErrorXmlSize)]
    ensures |redacted| > MaxErrorXmlSize ==> r[MaxErrorXmlSize..] == TruncatedMarker
  {
    if |redacted| > MaxErrorXmlSize then redacted[..MaxErrorXmlSize] + TruncatedMarker else redacted
  }

  /** The capture of an XML no larger than the limit is its redacted form
      in full: every password element text of the XML is made of mask
      characters in it, and every other character is kept or masked. */
  lemma SmallCaptureIsRedacted(xml: string)
    requires |xml| <= MaxErrorXmlSize
    ensures ErrorCapture(Redact(xml)) == Redact(xml)
    ensures forall i :: 0 <= i < |xml| && Covered(ElementRanges(xml, PasswordOpen, PasswordClose, 0), i) ==>
              MaskChar(ErrorCapture(Redact(xml))[i])
    ensures forall i :: 0 <= i < |xml| ==> ErrorCapture(Redact(xml))[i] == xml[i] || MaskChar(ErrorCapture(Redact(xml))[i])
  {
  }

  /** The debug preview as written: a NUL stored at index 120 of the
      redacted copy, whose buffer holds the text and its NUL. The store
      lies inside the buffer (Some) exactly when the XML has at least 120
      characters, and then the preview is the intended one; for a shorter
      malformed request it lands past the end (None). */
  function ErrorPreviewAsWritten(xml: string): (r: Option<string>)
    ensures r.None? <==> |xml| < 120
    ensures r.Some? ==> r.value == Preview(Redact(xml)) && |r.value| == 120
  {
    var redacted := Redact(xml);
    if 120 < |redacted| + 1 then Some(redacted[..120]) else None
  }

  /** The preview as intended: the first 120 characters, or all of a
      shorter text. */
  function Preview(redacted: string): (r: string)
    ensures |r| == Min(|redacted|, 120) && StartsWith(redacted, r)
  {
    Truncate(redacted, 120)
  }

  lemma PreviewOfShortCapture(xml: string)
    requires |xml| <= 120
    ensures Preview(Redact(xml)) == Redact(xml)
  {
  }
}
