/** Python's str.replace, and templates made of text without '_' around
    the placeholders DIGEST_PLACEHOLDER, NONCE_PLACEHOLDER and
    TIMESTAMP_PLACEHOLDER that tests/tests/generate_auth_soap.py fills in:
    replacing one kind of placeholder in such a template fills in exactly
    the placeholders of that kind. */
module Placeholders {
  import opened Wrappers
  import opened CString

  // ---------------------------------------------------------------------
  // str.replace

  /** s.replace(pat, rep) for a non-empty pat: scanning from the left, each
      occurrence that does not overlap an earlier replaced one is replaced. */
  function Replace(s: string, pat: string, rep: string): (r: string)
    requires |pat| > 0
    decreases |s|
  {
    if |s| < |pat| then s
    else if s[..|pat|] == pat then rep + Replace(s[|pat|..], pat, rep)
    else [s[0]] + Replace(s[1..], pat, rep)
  }

  /** The text with every replaced occurrence deleted: what Replace keeps
      of s. */
  function Strip(s: string, pat: string): string
    requires |pat| > 0
  {
    Replace(s, pat, "")
  }

  /** The first character of s is kept when no occurrence starts there. */
  lemma ReplaceSkip(s: string, pat: string, rep: string)
    requires |pat| > 0 && |s| >= |pat| && s[..|pat|] != pat
    ensures Replace(s, pat, rep) == [s[0]] + Replace(s[1..], pat, rep)
    ensures Find(s, pat) == (if Find(s[1..], pat).Some? then Some(Find(s[1..], pat).value + 1) else None)
  {
    FindSkip(s, pat);
  }

  lemma {:induction false} ReplaceNoMatch(s: string, pat: string, rep: string)
    requires |pat| > 0 && Find(s, pat).None?
    ensures Replace(s, pat, rep) == s
    decreases |s|
  {
    if |s| >= |pat| {
      ReplaceSkip(s, pat, rep);
      ReplaceNoMatch(s[1..], pat, rep);
      assert [s[0]] + s[1..] == s;
    }
  }

  lemma {:induction false} ReplaceFirstMatch(s: string, pat: string, rep: string, k: nat)
    requires |pat| > 0 && Find(s, pat) == Some(k)
    ensures k + |pat| <= |s|
    ensures Replace(s, pat, rep) == s[..k] + rep + Replace(s[k + |pat|..], pat, rep)
    decreases |s|
  {
    if s[..|pat|] == pat {
      assert k == 0;
      assert s[..0] + rep == rep;
    } else {
      ReplaceSkip(s, pat, rep);
      var t := s[1..];
      ReplaceFirstMatch(t, pat, rep, k - 1);
      var tail := Replace(t[k - 1 + |pat|..], pat, rep);
      assert Replace(t, pat, rep) == t[..k - 1] + rep + tail;
      SlideFirst(s, k - 1, |pat|, rep, tail);
      assert tail == Replace(s[k + |pat|..], pat, rep);
    }
  }

  lemma SlideFirst(s: string, j: nat, m: nat, rep: string, tail: string)
    requires j + m < |s|
    ensures [s[0]] + (s[1..][..j] + rep + tail) == s[..j + 1] + rep + tail
    ensures s[1..][j + m..] == s[j + 1 + m..]
  {
    assert [s[0]] + s[1..][..j] == s[..j + 1];
  }

  /** Replace read through strstr: the text up to the first occurrence is
      kept, the occurrence becomes rep, and the search resumes after it. */
  lemma ReplaceAtFirst(s: string, pat: string, rep: string)
    requires |pat| > 0
    ensures Find(s, pat).None? ==> Replace(s, pat, rep) == s
    ensures Find(s, pat).Some? ==>
      var k := Find(s, pat).value;
      Replace(s, pat, rep) == s[..k] + rep + Replace(s[k + |pat|..], pat, rep)
  {
    var f := Find(s, pat);
    if f.Some? {
      ReplaceFirstMatch(s, pat, rep, f.value);
    } else {
      ReplaceNoMatch(s, pat, rep);
    }
  }

  /** Without an occurrence, the text is unchanged. */
  lemma ReplaceAbsent(s: string, pat: string, rep: string)
    requires |pat| > 0 && !Contains(s, pat)
    ensures Replace(s, pat, rep) == s
  {
    FindSpec(s, pat);
    ReplaceAtFirst(s, pat, rep);
  }

  /** Every character of the result is kept from s or comes from rep. */
  lemma {:induction false} ReplaceChars(s: string, pat: string, rep: string, c: char)
    requires |pat| > 0
    requires c in Replace(s, pat, rep)
    ensures c in Strip(s, pat) || c in rep
    decreases |s|
  {
    if |s| >= |pat| {
      if s[..|pat|] == pat {
        assert Strip(s, pat) == Strip(s[|pat|..], pat);
        if c !in rep {
          ReplaceChars(s[|pat|..], pat, rep, c);
        }
      } else {
        assert Strip(s, pat) == [s[0]] + Strip(s[1..], pat);
        if c != s[0] {
          ReplaceChars(s[1..], pat, rep, c);
        }
      }
    }
  }

  /** A placeholder holding a character that neither the value nor the
      kept text holds cannot appear in the result. */
  lemma ReplaceRemovesAll(s: string, pat: string, rep: string, mark: char)
    requires |pat| > 0 && mark in pat
    requires mark !in rep && mark !in Strip(s, pat)
    ensures !Contains(Replace(s, pat, rep), pat)
  {
    var r := Replace(s, pat, rep);
    if Contains(r, pat) {
      var i: nat :| i <= |r| && OccursAt(r, pat, i);
      var j :| 0 <= j < |pat| && pat[j] == mark;
      assert r[i + j] == pat[j];
      ReplaceChars(s, pat, rep, mark);
    }
  }

  // ---------------------------------------------------------------------
  // The three placeholders

  const DigestPlaceholder: string := "DIGEST_PLACEHOLDER"
  const NoncePlaceholder: string := "NONCE_PLACEHOLDER"
  const TimestampPlaceholder: string := "TIMESTAMP_PLACEHOLDER"

  /** The three placeholders a template may hold. */
  datatype Slot = DigestSlot | NonceSlot | TimestampSlot

  function SlotText(k: Slot): (r: string)
    ensures |r| >= 2 && '_' in r
  {
    match k
    case DigestSlot => assert DigestPlaceholder[6] == '_'; DigestPlaceholder
    case NonceSlot => assert NoncePlaceholder[5] == '_'; NoncePlaceholder
    case TimestampSlot => assert TimestampPlaceholder[9] == '_'; TimestampPlaceholder
  }

  /** Where the '_' of a placeholder is. */
  function SlotUnderscore(k: Slot): (u: nat)
    ensures u + 1 < |SlotText(k)| && SlotText(k)[u] == '_'
  {
    match k
    case DigestSlot => 6
    case NonceSlot => 5
    case TimestampSlot => 9
  }

  /** A piece of a template: literal text, or a placeholder. */
  datatype Piece = Lit(text: string) | Hole(slot: Slot)

  function PieceText(p: Piece): string {
    match p
    case Lit(t) => t
    case Hole(k) => SlotText(k)
  }

  /** The template text the pieces make up. */
  function Render(ps: seq<Piece>): string
    decreases |ps|
  {
    if ps == [] then [] else PieceText(ps[0]) + Render(ps[1..])
  }

  /** No literal text of the template holds '_'. */
  predicate PlainText(ps: seq<Piece>) {
    forall i :: 0 <= i < |ps| && ps[i].Lit? ==> '_' !in ps[i].text
  }

  /** The template with every placeholder of kind k replaced by `value`. */
  function Fill(ps: seq<Piece>, k: Slot, value: string): (r: seq<Piece>)
    ensures |r| == |ps|
    ensures forall i :: 0 <= i < |ps| ==> r[i] == if ps[i] == Hole(k) then Lit(value) else ps[i]
  {
    seq(|ps|, i requires 0 <= i < |ps| => if ps[i] == Hole(k) then Lit(value) else ps[i])
  }

  /** No occurrence of a text beginning c0 c1 starts in q, judged by q's
      own characters. */
  predicate NoStartIn(q: string, c0: char, c1: char) {
    forall i {:trigger q[i]} :: 0 <= i < |q| ==> q[i] != c0 || (i + 1 < |q| && q[i + 1] != c1)
  }

  lemma NoStartAt(q: string, c0: char, c1: char, i: nat)
    requires NoStartIn(q, c0, c1) && i < |q|
    ensures q[i] != c0 || (i + 1 < |q| && q[i + 1] != c1)
  {
  }

  /** No position of pat from 1 up to u carries c0 followed by c1. */
  predicate NoStartBefore(pat: string, u: nat, c0: char, c1: char)
    requires u + 1 < |pat|
  {
    forall m :: 1 <= m <= u ==> !(pat[m] == c0 && pat[m + 1] == c1)
  }

  /** The first two characters of each placeholder. */
  function SlotLead(k: Slot): (r: (char, char))
    ensures r.0 == SlotText(k)[0] && r.1 == SlotText(k)[1]
  {
    match k
    case DigestSlot => ('D', 'I')
    case NonceSlot => ('N', 'O')
    case TimestampSlot => ('T', 'I')
  }

  lemma DigestAvoids()
    ensures NoStartIn(DigestPlaceholder, 'N', 'O') && NoStartIn(DigestPlaceholder, 'T', 'I')
    ensures NoStartBefore(DigestPlaceholder, 6, 'D', 'I')
    ensures NoStartBefore(DigestPlaceholder, 6, 'N', 'O')
    ensures NoStartBefore(DigestPlaceholder, 6, 'T', 'I')
  {
  }

  lemma NonceAvoids()
    ensures NoStartIn(NoncePlaceholder, 'D', 'I') && NoStartIn(NoncePlaceholder, 'T', 'I')
    ensures NoStartBefore(NoncePlaceholder, 5, 'D', 'I')
    ensures NoStartBefore(NoncePlaceholder, 5, 'N', 'O')
    ensures NoStartBefore(NoncePlaceholder, 5, 'T', 'I')
  {
  }

  lemma TimestampAvoids()
    ensures NoStartIn(TimestampPlaceholder, 'D', 'I') && NoStartIn(TimestampPlaceholder, 'N', 'O')
    ensures NoStartBefore(TimestampPlaceholder, 9, 'D', 'I')
    ensures NoStartBefore(TimestampPlaceholder, 9, 'N', 'O')
    ensures NoStartBefore(TimestampPlaceholder, 9, 'T', 'I')
  {
  }

  lemma NoStartBeforeAt(pat: string, u: nat, c0: char, c1: char, m: nat)
    requires u + 1 < |pat| && NoStartBefore(pat, u, c0, c1) && 1 <= m <= u
    ensures pat[m] != c0 || pat[m + 1] != c1
  {
  }

  /** A placeholder of one kind never starts inside the text of another. */
  lemma SlotsApart(j: Slot, k: Slot)
    requires j != k
    ensures NoStartIn(SlotText(j), SlotLead(k).0, SlotLead(k).1)
  {
    match j
    case DigestSlot => DigestAvoids();
    case NonceSlot => NonceAvoids();
    case TimestampSlot => TimestampAvoids();
  }

  /** No placeholder starts between the first character of a placeholder
      and its '_'. */
  lemma SlotsDoNotNest(j: Slot, k: Slot)
    ensures NoStartBefore(SlotText(k), SlotUnderscore(k), SlotLead(j).0, SlotLead(j).1)
  {
    match k
    case DigestSlot => DigestAvoids();
    case NonceSlot => NonceAvoids();
    case TimestampSlot => TimestampAvoids();
  }

  /** A text in which no occurrence of pat can start, judged by its first
      two characters, is kept whole, whatever follows it. */
  lemma {:induction false} ReplaceKeeps(q: string, x: string, pat: string, rep: string)
    requires |pat| >= 2 && NoStartIn(q, pat[0], pat[1])
    ensures Replace(q + x, pat, rep) == q + Replace(x, pat, rep)
    decreases |q|
  {
    if q != [] {
      var s := q + x;
      if |s| >= |pat| {
        NoStartAt(q, pat[0], pat[1], 0);
        assert s[..|pat|] != pat by {
          assert s[..|pat|][0] == q[0];
          if 1 < |q| {
            assert s[..|pat|][1] == q[1];
          }
        }
        assert s[1..] == q[1..] + x;
        assert NoStartIn(q[1..], pat[0], pat[1]) by {
          forall i | 0 <= i < |q[1..]| ensures q[1..][i] != pat[0] || (i + 1 < |q[1..]| && q[1..][i + 1] != pat[1]) {
            NoStartAt(q, pat[0], pat[1], i + 1);
          }
        }
        ReplaceSkip(s, pat, rep);
        ReplaceKeeps(q[1..], x, pat, rep);
        assert [q[0]] + q[1..] == q;
      } else {
        assert Replace(x, pat, rep) == x;
      }
    } else {
      assert q + x == x;
    }
  }

  /** Text without '_' is kept whole when what follows it is empty or
      starts with two characters that no position of pat from 1 up to its
      '_' carries. */
  lemma {:induction false} ReplaceAfterLit(a: string, y: string, pat: string, rep: string, u: nat)
    requires u + 1 < |pat| && pat[u] == '_' && '_' !in a
    requires y == [] || (|y| >= 2 && NoStartBefore(pat, u, y[0], y[1]))
    ensures Replace(a + y, pat, rep) == a + Replace(y, pat, rep)
    decreases |a|
  {
    if a == [] {
      assert a + y == y;
    } else {
      var s := a + y;
      if |s| >= |pat| {
        if u < |a| {
          assert s[u] == a[u];
          DiffersAt(s, pat, u);
        } else {
          var m := |a|;
          assert s[m] == y[0] && s[m + 1] == y[1];
          NoStartBeforeAt(pat, u, y[0], y[1], m);
          if s[m] != pat[m] {
            DiffersAt(s, pat, m);
          } else {
            DiffersAt(s, pat, m + 1);
          }
        }
        ReplaceSkip(s, pat, rep);
        assert s[1..] == a[1..] + y;
        ReplaceAfterLit(a[1..], y, pat, rep, u);
        assert [a[0]] + a[1..] == a;
      } else {
        assert Replace(y, pat, rep) == y;
      }
    }
  }

  lemma DiffersAt(s: string, pat: string, m: nat)
    requires m < |pat| <= |s| && s[m] != pat[m]
    ensures s[..|pat|] != pat
  {
    assert s[..|pat|][m] == s[m];
  }

  /** A placeholder of the kind being replaced becomes the value. */
  lemma ReplaceAtSlot(x: string, pat: string, rep: string)
    requires |pat| > 0
    ensures Replace(pat + x, pat, rep) == rep + Replace(x, pat, rep)
  {
    var s := pat + x;
    assert s[..|pat|] == pat;
    assert s[|pat|..] == x;
  }

  lemma RenderCons(p: Piece, ps: seq<Piece>)
    ensures Render([p] + ps) == PieceText(p) + Render(ps)
  {
    assert ([p] + ps)[1..] == ps;
  }

  lemma PlainRest(ps: seq<Piece>)
    requires PlainText(ps) && ps != []
    ensures PlainText(ps[1..])
  {
    forall i | 0 <= i < |ps[1..]| && ps[1..][i].Lit? ensures '_' !in ps[1..][i].text {
      assert ps[1..][i] == ps[i + 1];
    }
  }

  lemma FillCons(ps: seq<Piece>, k: Slot, rep: string)
    requires ps != []
    ensures Render(Fill(ps, k, rep)) == PieceText(Fill(ps, k, rep)[0]) + Render(Fill(ps[1..], k, rep))
  {
    assert Fill(ps, k, rep)[1..] == Fill(ps[1..], k, rep);
  }

  lemma FillAppend(xs: seq<Piece>, ys: seq<Piece>, k: Slot, rep: string)
    ensures Fill(xs + ys, k, rep) == Fill(xs, k, rep) + Fill(ys, k, rep)
  {
    var l, r := Fill(xs + ys, k, rep), Fill(xs, k, rep) + Fill(ys, k, rep);
    forall i | 0 <= i < |l| ensures l[i] == r[i] {
      if i >= |xs| {
        assert (xs + ys)[i] == ys[i - |xs|];
      }
    }
  }

  lemma RenderJoin(a: string, b: string, tail: seq<Piece>)
    ensures Render([Lit(a + b)] + tail) == Render([Lit(a), Lit(b)] + tail)
  {
    RenderCons(Lit(a + b), tail);
    RenderCons(Lit(b), tail);
    var t := [Lit(a), Lit(b)] + tail;
    assert t[1..] == [Lit(b)] + tail;
  }

  lemma MergePlain(a: string, b: string, tail: seq<Piece>)
    requires PlainText([Lit(a), Lit(b)] + tail)
    ensures PlainText([Lit(a + b)] + tail)
  {
    var ps, merged := [Lit(a), Lit(b)] + tail, [Lit(a + b)] + tail;
    assert ps[0] == Lit(a) && ps[1] == Lit(b);
    forall i | 0 <= i < |merged| && merged[i].Lit? ensures '_' !in merged[i].text {
      if i > 0 {
        assert merged[i] == ps[i + 1];
      }
    }
  }

  lemma MergeFill(a: string, b: string, tail: seq<Piece>, k: Slot, rep: string)
    ensures Render(Fill([Lit(a + b)] + tail, k, rep)) == Render(Fill([Lit(a), Lit(b)] + tail, k, rep))
  {
    FillAppend([Lit(a), Lit(b)], tail, k, rep);
    FillAppend([Lit(a + b)], tail, k, rep);
    assert Fill([Lit(a), Lit(b)], k, rep) == [Lit(a), Lit(b)];
    assert Fill([Lit(a + b)], k, rep) == [Lit(a + b)];
    RenderJoin(a, b, Fill(tail, k, rep));
  }

  /** Two adjacent literal pieces may be joined into one. */
  lemma MergeLits(ps: seq<Piece>, k: Slot, rep: string)
    requires |ps| >= 2 && ps[0].Lit? && ps[1].Lit? && PlainText(ps)
    ensures var merged := [Lit(ps[0].text + ps[1].text)] + ps[2..];
      PlainText(merged) && Render(merged) == Render(ps) &&
      Render(Fill(merged, k, rep)) == Render(Fill(ps, k, rep))
  {
    var a, b := ps[0].text, ps[1].text;
    assert ps == [Lit(a), Lit(b)] + ps[2..];
    MergePlain(a, b, ps[2..]);
    RenderJoin(a, b, ps[2..]);
    MergeFill(a, b, ps[2..], k, rep);
  }

  /** What follows a literal piece that is not another literal leaves no
      occurrence of a placeholder starting inside the literal. */
  lemma AfterLit(rest: seq<Piece>, k: Slot)
    requires rest == [] || rest[0].Hole?
    ensures var y := Render(rest);
      y == [] || (|y| >= 2 && NoStartBefore(SlotText(k), SlotUnderscore(k), y[0], y[1]))
  {
    if rest != [] {
      var j := rest[0].slot;
      SlotsDoNotNest(j, k);
      var y := Render(rest);
      assert y == SlotText(j) + Render(rest[1..]);
      assert y[0] == SlotLead(j).0 && y[1] == SlotLead(j).1;
    }
  }

  /** One substitution fills in exactly the placeholders of its kind. */
  lemma {:induction false} ReplaceRender(ps: seq<Piece>, k: Slot, rep: string)
    requires PlainText(ps) && '_' !in rep
    decreases |ps|
    ensures Replace(Render(ps), SlotText(k), rep) == Render(Fill(ps, k, rep))
  {
    var pat := SlotText(k);
    if ps != [] {
      var rest := ps[1..];
      PlainRest(ps);
      FillCons(ps, k, rep);
      match ps[0]
      case Lit(a) =>
        if |ps| >= 2 && ps[1].Lit? {
          MergeLits(ps, k, rep);
          ReplaceRender([Lit(a + ps[1].text)] + ps[2..], k, rep);
        } else {
          AfterLit(rest, k);
          ReplaceAfterLit(a, Render(rest), pat, rep, SlotUnderscore(k));
          ReplaceRender(rest, k, rep);
        }
      case Hole(j) =>
        ReplaceRender(rest, k, rep);
        if j == k {
          ReplaceAtSlot(Render(rest), pat, rep);
        } else {
          SlotsApart(j, k);
          ReplaceKeeps(SlotText(j), Render(rest), pat, rep);
        }
    }
  }

  /** Filling in a kind with a value without '_' keeps the literal text
      free of '_'. */
  lemma FillPlain(ps: seq<Piece>, k: Slot, rep: string)
    requires PlainText(ps) && '_' !in rep
    ensures PlainText(Fill(ps, k, rep))
  {
  }

  /** A template without placeholders whose text holds no '_' renders to a
      text without '_'. */
  lemma {:induction false} RenderPlain(ps: seq<Piece>)
    requires PlainText(ps) && forall i :: 0 <= i < |ps| ==> ps[i].Lit?
    ensures '_' !in Render(ps)
    decreases |ps|
  {
    if ps != [] {
      RenderPlain(ps[1..]);
    }
  }

  /** A text without '_' holds no placeholder. */
  lemma NoUnderscoreNoSlot(r: string, k: Slot)
    requires '_' !in r
    ensures !Contains(r, SlotText(k))
  {
  }

  /** One replacement of a placeholder kind by a value without '_'. */
  lemma FillStep(ps: seq<Piece>, k: Slot, v: string)
    requires PlainText(ps) && '_' !in v
    ensures Replace(Render(ps), SlotText(k), v) == Render(Fill(ps, k, v))
    ensures PlainText(Fill(ps, k, v))
  {
    ReplaceRender(ps, k, v);
    FillPlain(ps, k, v);
  }

  /** Once every kind is filled in, the text holds no '_'. */
  lemma FilledThree(ps: seq<Piece>, d: string, n: string, t: string)
    requires PlainText(ps) && '_' !in d && '_' !in n && '_' !in t
    ensures '_' !in Render(Fill(Fill(Fill(ps, DigestSlot, d), NonceSlot, n), TimestampSlot, t))
  {
    var p1 := Fill(ps, DigestSlot, d);
    var p2 := Fill(p1, NonceSlot, n);
    var p3 := Fill(p2, TimestampSlot, t);
    forall i | 0 <= i < |p3| ensures p3[i].Lit? {
      assert p1[i] == if ps[i] == Hole(DigestSlot) then Lit(d) else ps[i];
      assert p2[i] == if p1[i] == Hole(NonceSlot) then Lit(n) else p1[i];
      assert p3[i] == if p2[i] == Hole(TimestampSlot) then Lit(t) else p2[i];
      if ps[i].Hole? {
        match ps[i].slot
        case DigestSlot =>
        case NonceSlot =>
        case TimestampSlot =>
      }
    }
    FillPlain(ps, DigestSlot, d);
    FillPlain(Fill(ps, DigestSlot, d), NonceSlot, n);
    FillPlain(Fill(Fill(ps, DigestSlot, d), NonceSlot, n), TimestampSlot, t);
    RenderPlain(p3);
  }

  /** Replacing the three placeholders in turn by values without '_' fills
      in every placeholder of the template and leaves none. */
  lemma FillThree(ps: seq<Piece>, d: string, n: string, t: string)
    requires PlainText(ps) && '_' !in d && '_' !in n && '_' !in t
    ensures var filled := Fill(Fill(Fill(ps, DigestSlot, d), NonceSlot, n), TimestampSlot, t);
      Replace(Replace(Replace(Render(ps), DigestPlaceholder, d), NoncePlaceholder, n), TimestampPlaceholder, t)
        == Render(filled)
    ensures var r := Render(Fill(Fill(Fill(ps, DigestSlot, d), NonceSlot, n), TimestampSlot, t));
      !Contains(r, DigestPlaceholder) && !Contains(r, NoncePlaceholder) && !Contains(r, TimestampPlaceholder)
  {
    var p1 := Fill(ps, DigestSlot, d);
    var p2 := Fill(p1, NonceSlot, n);
    var p3 := Fill(p2, TimestampSlot, t);
    FillStep(ps, DigestSlot, d);
    FillStep(p1, NonceSlot, n);
    FillStep(p2, TimestampSlot, t);
    FilledThree(ps, d, n, t);
    NoUnderscoreNoSlot(Render(p3), DigestSlot);
    NoUnderscoreNoSlot(Render(p3), NonceSlot);
    NoUnderscoreNoSlot(Render(p3), TimestampSlot);
  }
}
