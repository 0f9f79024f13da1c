/** Text templates with holes, as Python's `str.format` fills them: literal
    pieces with one value between each two, inserted verbatim (no
    escaping). Reading a filled template back is possible when no value
    contains the character that starts the piece after it. */
module Template {
  import opened Wrappers
  import opened CString

  /** pieces[0] + values[0] + pieces[1] + ... + values[n-1] + pieces[n] */
  function Fill(pieces: seq<string>, values: seq<string>): (r: string)
    requires |pieces| == |values| + 1
    ensures StartsWith(r, pieces[0])
    decreases |values|
  {
    if |values| == 0 then pieces[0]
    else pieces[0] + values[0] + Fill(pieces[1..], values[1..])
  }

  /** The values a filled template holds: each value runs up to the first
      character of the piece after it. None when s does not have the
      template's shape. */
  function Read(pieces: seq<string>, s: string): (r: Option<seq<string>>)
    requires |pieces| >= 1
    ensures r.Some? ==> |r.value| == |pieces| - 1
    decreases |pieces|
  {
    if |pieces| == 1 then (if s == pieces[0] then Some([]) else None)
    else if !StartsWith(s, pieces[0]) || |pieces[1]| == 0 then None
    else
      var t := s[|pieces[0]|..];
      match IndexOf(t, pieces[1][0])
      case None => None
      case Some(k) =>
        match Read(pieces[1..], t[k..])
        case None => None
        case Some(vs) => Some([t[..k]] + vs)
  }

  /** The piece after v opens with a character v does not hold. */
  predicate Stops(next: string, v: string) {
    |next| > 0 && next[0] !in v
  }

  /** No value contains the character that opens the piece after it. */
  predicate Separable(pieces: seq<string>, values: seq<string>)
    requires |pieces| == |values| + 1
  {
    forall i :: 0 <= i < |values| ==> Stops(pieces[i + 1], values[i])
  }

  lemma ReadStep(p: string, v: string, t: string, c: char)
    requires c !in v && |t| > 0 && t[0] == c
    ensures IndexOf((p + v + t)[|p|..], c) == Some(|v|)
    ensures (p + v + t)[|p|..][..|v|] == v
    ensures (p + v + t)[|p|..][|v|..] == t
  {
    var u := (p + v + t)[|p|..];
    assert u == v + t;
    assert u[..|v|] == v;
  }

  lemma SeparableTail(pieces: seq<string>, values: seq<string>)
    requires |pieces| == |values| + 1 && |values| > 0
    requires Separable(pieces, values)
    ensures Separable(pieces[1..], values[1..])
  {
    var ps, vs := pieces[1..], values[1..];
    forall i | 0 <= i < |vs|
      ensures Stops(ps[i + 1], vs[i])
    {
      var j := i + 1;
      assert Stops(pieces[j + 1], values[j]);
      assert ps[i + 1] == pieces[j + 1] && vs[i] == values[j];
    }
  }

  /** Reading back a filled template gives the values, in order. */
  lemma {:induction false} ReadFill(pieces: seq<string>, values: seq<string>)
    requires |pieces| == |values| + 1
    requires Separable(pieces, values)
    ensures Read(pieces, Fill(pieces, values)) == Some(values)
    decreases |values|
  {
    if |values| > 0 {
      var p, v := pieces[0], values[0];
      var rest := Fill(pieces[1..], values[1..]);
      assert Fill(pieces, values) == p + v + rest;
      assert Stops(pieces[0 + 1], values[0]);
      assert rest[0] == pieces[1][0];
      ReadStep(p, v, rest, pieces[1][0]);
      SeparableTail(pieces, values);
      ReadFill(pieces[1..], values[1..]);
      assert [v] + values[1..] == values;
    }
  }

  /** The lengths of pieces[..i] and values[..i], end to end: where the
      i-th value starts in the filled text. */
  function Offset(pieces: seq<string>, values: seq<string>, i: nat): (n: nat)
    requires |pieces| == |values| + 1 && i < |values|
    decreases i
  {
    if i == 0 then |pieces[0]|
    else |pieces[0]| + |values[0]| + Offset(pieces[1..], values[1..], i - 1)
  }

  lemma OccursAfter(a: string, rest: string, t: string, o: nat)
    requires OccursAt(rest, t, o)
    ensures OccursAt(a + rest, t, |a| + o)
  {
    assert (a + rest)[|a| + o..|a| + o + |t|] == rest[o..o + |t|];
  }

  /** Every value appears, unchanged, at its offset: whatever characters a
      value holds, the filled text holds the same ones. */
  lemma {:induction false} FillVerbatim(pieces: seq<string>, values: seq<string>, i: nat)
    requires |pieces| == |values| + 1 && i < |values|
    ensures OccursAt(Fill(pieces, values), values[i], Offset(pieces, values, i))
    decreases i
  {
    var head := pieces[0] + values[0];
    var rest := Fill(pieces[1..], values[1..]);
    assert Fill(pieces, values) == pieces[0] + values[0] + rest;
    if i == 0 {
      assert (pieces[0] + values[0] + rest)[|pieces[0]|..|pieces[0]| + |values[0]|] == values[0];
    } else {
      FillVerbatim(pieces[1..], values[1..], i - 1);
      assert values[1..][i - 1] == values[i];
      OccursAfter(head, rest, values[i], Offset(pieces[1..], values[1..], i - 1));
    }
  }
}
