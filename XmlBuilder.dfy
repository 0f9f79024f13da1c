/** xml_builder_t of imaging_service.c: a cursor into a fixed character
    buffer with the room left behind it. Every append is a vsnprintf at
    the cursor; text that does not fit is cut, the cursor then rests on
    the last byte and every later append does nothing. The formatting
    itself is the caller's: an append receives the formatted text. */
module XmlBuilding {
  import opened CString

  class XmlBuilder {
    const buffer: array<char>
    var cursor: nat
    var remaining: nat
    /** Everything ever appended, whether it fitted or not. */
    ghost var appended: string

    /** The most characters the buffer holds before its NUL. */
    function Limit(): nat
    {
      if buffer.Length == 0 then 0 else buffer.Length - 1
    }

    ghost predicate Valid()
      reads this, buffer
    {
      cursor + remaining <= buffer.Length
      && (buffer.Length == 0 ==> cursor == 0 && remaining == 0)
      && (buffer.Length > 0 ==> cursor < buffer.Length && buffer[cursor] == '\0')
      && (remaining > 0 ==> cursor + remaining == buffer.Length && appended == buffer[..cursor])
      && (remaining == 0 && buffer.Length > 0 ==>
            cursor == buffer.Length - 1 && |appended| >= cursor && buffer[..cursor] == appended[..cursor])
    }

    /** The NUL-terminated text in the buffer: everything appended, cut to
        the buffer. */
    function Text(): (r: string)
      reads this, buffer
      requires Valid()
      ensures r == Truncate(appended, Limit())
      ensures remaining == 0 ==> |appended| >= Limit()
    {
      buffer[..cursor]
    }

    /** xml_builder_init */
    constructor (buffer: array<char>)
      modifies buffer
      ensures this.buffer == buffer && Valid() && appended == "" && Text() == ""
      ensures remaining == buffer.Length && cursor == 0
    {
      this.buffer := buffer;
      cursor := 0;
      remaining := buffer.Length;
      appended := "";
      new;
      if buffer.Length > 0 {
        buffer[0] := '\0';
      }
    }

    /** vsnprintf(cursor, remaining, ...) of text s that fits in n bytes
        with its NUL: s itself, then the NUL. */
    method Write(s: string)
      requires Valid() && remaining > 0 && |s| < remaining
      modifies buffer
      ensures buffer[..cursor] == old(buffer[..cursor])
      ensures buffer[cursor..cursor + |s|] == s && buffer[cursor + |s|] == '\0'
    {
      var j := 0;
      while j < |s|
        invariant 0 <= j <= |s|
        invariant buffer[..cursor] == old(buffer[..cursor])
        invariant forall i :: 0 <= i < j ==> buffer[cursor + i] == s[i]
      {
        buffer[cursor + j] := s[j];
        j := j + 1;
      }
      buffer[cursor + |s|] := '\0';
      assert forall i :: 0 <= i < |s| ==> buffer[cursor..cursor + |s|][i] == s[i];
    }

    /** xml_builder_append: the text moves the cursor on when it fits;
        otherwise the part that fits is kept and the builder is full. */
    method Append(s: string)
      requires Valid()
      modifies this, buffer
      ensures Valid() && appended == old(appended) + s
      ensures remaining == (if old(remaining) == 0 || |s| >= old(remaining) then 0 else old(remaining) - |s|)
      ensures old(remaining) > 0 && |s| < old(remaining) ==> Text() == old(Text()) + s
      ensures old(remaining) == 0 ==> Text() == old(Text()) && cursor == old(cursor)
    {
      if remaining == 0 {
        appended := appended + s;
        FullStaysFull(old(appended), s, Limit());
        return;
      }
      var k := if |s| < remaining then |s| else remaining - 1;
      Write(s[..k]);
      appended := appended + s;
      ghost var written := buffer[..cursor + k];
      assert written == old(buffer[..cursor]) + s[..k];
      if |s| >= remaining {
        cursor := cursor + remaining - 1;
        remaining := 0;
      } else {
        assert s[..k] == s;
        cursor := cursor + |s|;
        remaining := remaining - |s|;
      }
      assert buffer[..cursor] == written;
    }
  }

  /** A full builder never changes its text again: a later append of any
      text leaves the cut concatenation as it was. */
  lemma FullStaysFull(done: string, more: string, limit: nat)
    requires |done| >= limit
    ensures Truncate(done + more, limit) == Truncate(done, limit)
  {
    assert (done + more)[..limit] == done[..limit];
  }

  /** The pieces one after another. */
  function Concat(pieces: seq<string>): (r: string)
    ensures pieces != [] ==> r == Concat(pieces[..|pieces| - 1]) + pieces[|pieces| - 1]
  {
    if pieces == [] then "" else Concat(pieces[..|pieces| - 1]) + pieces[|pieces| - 1]
  }

  /** A fresh builder over a buffer of `size` bytes, the pieces appended in
      order: the text is their concatenation cut to size - 1 characters. */
  method Build(size: nat, pieces: seq<string>) returns (text: string)
    ensures text == Truncate(Concat(pieces), if size == 0 then 0 else size - 1)
  {
    var buffer := new char[size];
    var b := new XmlBuilder(buffer);
    var i := 0;
    while i < |pieces|
      invariant 0 <= i <= |pieces| && b.Valid() && b.buffer == buffer
      invariant b.appended == Concat(pieces[..i])
      invariant fresh(b)
    {
      b.Append(pieces[i]);
      assert pieces[..i + 1][..i] == pieces[..i];
      i := i + 1;
    }
    assert pieces[..i] == pieces;
    text := b.Text();
  }
}
