/** The UTC timestamps the Python test helpers print with strftime:
    `%Y-%m-%dT%H:%M:%SZ` (seconds) and `%Y-%m-%dT%H:%M:%S.%fZ`
    (microseconds). The clock itself is not modelled: the time is a
    parameter. */
module Timestamps {
  import opened CString

  datatype DateTime = DateTime(year: nat, month: nat, day: nat,
                               hour: nat, minute: nat, second: nat, microsecond: nat)

  /** A time Python's datetime can hold, with a four-digit year. */
  predicate Valid(t: DateTime) {
    1000 <= t.year <= 9999 && 1 <= t.month <= 12 && 1 <= t.day <= 31
    && t.hour < 24 && t.minute < 60 && t.second < 60 && t.microsecond < 1000000
  }

  /** n in exactly `width` decimal digits, with leading zeros. */
  function Pad(n: nat, width: nat): (r: string)
    ensures |r| == width
    ensures forall i :: 0 <= i < |r| ==> IsDigit(r[i])
  {
    if width == 0 then "" else Pad(n / 10, width - 1) + [DigitChar(n % 10)]
  }

  lemma {:induction false} PadValue(n: nat, width: nat)
    requires n < Pow10(width)
    ensures DigitsValue(Pad(n, width)) == n
  {
    if width > 0 {
      var r := Pad(n, width);
      assert r[..|r| - 1] == Pad(n / 10, width - 1);
      PadValue(n / 10, width - 1);
    }
  }

  /** strftime('%Y-%m-%dT%H:%M:%SZ') */
  function IsoSeconds(t: DateTime): string {
    Pad(t.year, 4) + "-" + Pad(t.month, 2) + "-" + Pad(t.day, 2) + "T"
    + Pad(t.hour, 2) + ":" + Pad(t.minute, 2) + ":" + Pad(t.second, 2) + "Z"
  }

  /** strftime('%Y-%m-%dT%H:%M:%S.%fZ') */
  function IsoMicros(t: DateTime): string {
    Pad(t.year, 4) + "-" + Pad(t.month, 2) + "-" + Pad(t.day, 2) + "T"
    + Pad(t.hour, 2) + ":" + Pad(t.minute, 2) + ":" + Pad(t.second, 2)
    + "." + Pad(t.microsecond, 6) + "Z"
  }

  /** The digits of s[from..from + width], read as a number. */
  function Field(s: string, from: nat, width: nat): nat
    requires from + width <= |s|
  {
    if forall i :: from <= i < from + width ==> IsDigit(s[i]) then DigitsValue(s[from..from + width]) else 0
  }

  /** The date and time written in an IsoSeconds text, with no microseconds. */
  function ReadIsoSeconds(s: string): DateTime
    requires |s| == 20
  {
    DateTime(Field(s, 0, 4), Field(s, 5, 2), Field(s, 8, 2), Field(s, 11, 2), Field(s, 14, 2), Field(s, 17, 2), 0)
  }

  /** The date and time written in an IsoMicros text. */
  function ReadIsoMicros(s: string): DateTime
    requires |s| == 27
  {
    DateTime(Field(s, 0, 4), Field(s, 5, 2), Field(s, 8, 2), Field(s, 11, 2), Field(s, 14, 2), Field(s, 17, 2),
             Field(s, 20, 6))
  }

  lemma FieldOfPad(s: string, from: nat, n: nat, width: nat)
    requires n < Pow10(width)
    requires from + width <= |s| && s[from..from + width] == Pad(n, width)
    ensures Field(s, from, width) == n
  {
    assert forall i :: from <= i < from + width ==> s[i] == Pad(n, width)[i - from];
    PadValue(n, width);
  }

  /** The seconds form has the fixed layout 'YYYY-MM-DDTHH:MM:SSZ' and
      gives back every field but the microseconds. */
  lemma IsoSecondsLayout(t: DateTime)
    requires Valid(t)
    ensures |IsoSeconds(t)| == 20
    ensures IsoSeconds(t)[4] == '-' && IsoSeconds(t)[7] == '-' && IsoSeconds(t)[10] == 'T'
    ensures IsoSeconds(t)[13] == ':' && IsoSeconds(t)[16] == ':' && IsoSeconds(t)[19] == 'Z'
    ensures ReadIsoSeconds(IsoSeconds(t)) == t.(microsecond := 0)
  {
    var s := IsoSeconds(t);
    assert s[0..4] == Pad(t.year, 4);
    assert s[5..7] == Pad(t.month, 2);
    assert s[8..10] == Pad(t.day, 2);
    assert s[11..13] == Pad(t.hour, 2);
    assert s[14..16] == Pad(t.minute, 2);
    assert s[17..19] == Pad(t.second, 2);
    FieldOfPad(s, 0, t.year, 4);
    FieldOfPad(s, 5, t.month, 2);
    FieldOfPad(s, 8, t.day, 2);
    FieldOfPad(s, 11, t.hour, 2);
    FieldOfPad(s, 14, t.minute, 2);
    FieldOfPad(s, 17, t.second, 2);
  }

  /** The microseconds form has the layout 'YYYY-MM-DDTHH:MM:SS.ffffffZ'
      and gives back every field. */
  lemma IsoMicrosLayout(t: DateTime)
    requires Valid(t)
    ensures |IsoMicros(t)| == 27
    ensures IsoMicros(t)[4] == '-' && IsoMicros(t)[7] == '-' && IsoMicros(t)[10] == 'T'
    ensures IsoMicros(t)[13] == ':' && IsoMicros(t)[16] == ':' && IsoMicros(t)[19] == '.'
    ensures IsoMicros(t)[26] == 'Z'
    ensures ReadIsoMicros(IsoMicros(t)) == t
  {
    var s := IsoMicros(t);
    assert s[0..4] == Pad(t.year, 4);
    assert s[5..7] == Pad(t.month, 2);
    assert s[8..10] == Pad(t.day, 2);
    assert s[11..13] == Pad(t.hour, 2);
    assert s[14..16] == Pad(t.minute, 2);
    assert s[17..19] == Pad(t.second, 2);
    assert s[20..26] == Pad(t.microsecond, 6);
    FieldOfPad(s, 0, t.year, 4);
    FieldOfPad(s, 5, t.month, 2);
    FieldOfPad(s, 8, t.day, 2);
    FieldOfPad(s, 11, t.hour, 2);
    FieldOfPad(s, 14, t.minute, 2);
    FieldOfPad(s, 17, t.second, 2);
    FieldOfPad(s, 20, t.microsecond, 6);
  }
}
