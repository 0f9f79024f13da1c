/** The preset-tour store of ptz_service.c: the process-wide array g_tours
    with its count, loaded at most once from preset_tours.json, appended to
    by CreatePresetTour, updated in place by ModifyPresetTour and
    OperatePresetTour, shifted down by RemovePresetTour, and written back
    after every change. The file is a field of the store; directory
    creation and open failures are not modelled. */
module PtzTours {
  import opened Wrappers
  import opened CString

  /** One preset_tour_t: token[64], name[64] and status[16], each holding
      at most one character less than its size. */
  datatype Tour = Tour(token: string, name: string, status: string)

  const TokenSize: nat := 63
  const NameSize: nat := 63
  const StatusSize: nat := 15

  /** A record as the store holds it: a non-empty token and status, every
      field within its array. */
  predicate Held(t: Tour) {
    t.token != "" && t.status != ""
    && |t.token| <= TokenSize && |t.name| <= NameSize && |t.status| <= StatusSize
  }

  // ---------------------------------------------------------------------
  // Loading: the two strstr/strchr passes of tours_ensure_loaded

  /** The keys one pass looks for. */
  datatype Keys = Keys(token: string, name: string, status: string)

  function TitleKeys(): Keys {
    Keys("\"Token\"", "\"Name\"", "\"Status\"")
  }

  function LowerKeys(): Keys {
    Keys("\"token\"", "\"name\"", "\"status\"")
  }

  /** The text between two quotes, by position: buf[start..end]. */
  datatype Span = Span(start: nat, end: nat)

  /** From `from`, the first ':' and then the first quoted text after it:
      the value of a key. None when a ':' or a quote is missing. */
  function ValueAfter(buf: string, from: nat): (r: Option<Span>)
    requires from <= |buf|
    ensures r.Some? ==> from < r.value.start <= r.value.end < |buf|
    ensures r.Some? ==> buf[r.value.start - 1] == '"' && buf[r.value.end] == '"'
    ensures r.Some? ==> '"' !in buf[r.value.start..r.value.end]
  {
    match IndexOf(buf[from..], ':')
    case None => None
    case Some(c) =>
      IndexOfFrom(buf, from, ':');
      var colon := from + c;
      match IndexOf(buf[colon..], '"')
      case None => None
      case Some(q) =>
        IndexOfFrom(buf, colon, '"');
        var open := colon + q;
        match IndexOf(buf[open + 1..], '"')
        case None => None
        case Some(q2) =>
          IndexOfFrom(buf, open + 1, '"');
          Some(Span(open + 1, open + 1 + q2))
  }

  /** An optional field: the value of the first `key` from `at` on,
      truncated to `size`; "" when the key or its value is missing. */
  function Field(buf: string, at: nat, key: string, size: nat): (r: string)
    requires at <= |buf|
    ensures |r| <= size
  {
    match Find(buf[at..], key)
    case None => ""
    case Some(k) =>
      match ValueAfter(buf, at + k)
      case None => ""
      case Some(v) => Truncate(buf[v.start..v.end], size)
  }

  /** The record one token key at `at` gives: its value truncated, the
      name and status keys after it, Idle for an empty status; None for an
      empty token. */
  function Record(buf: string, keys: Keys, at: nat, v: Span): (r: Option<Tour>)
    requires at <= |buf| && v.start <= v.end <= |buf|
    ensures r.Some? ==> Held(r.value)
  {
    var token := Truncate(buf[v.start..v.end], TokenSize);
    var name := Field(buf, at, keys.name, NameSize);
    var status := Field(buf, at, keys.status, StatusSize);
    if token == "" then None else Some(Tour(token, name, if status == "" then "Idle" else status))
  }

  /** One pass from position p: each token key gives a record unless its
      value is empty; the pass ends at the first token key without a
      value, and resumes after the closing quote of each token. */
  function ScanPass(buf: string, keys: Keys, p: nat): (r: seq<Tour>)
    requires p <= |buf|
    ensures forall i :: 0 <= i < |r| ==> Held(r[i])
    decreases |buf| - p
  {
    match Find(buf[p..], keys.token)
    case None => []
    case Some(k) =>
      match ValueAfter(buf, p + k)
      case None => []
      case Some(v) =>
        var rest := ScanPass(buf, keys, v.end + 1);
        match Record(buf, keys, p + k, v)
        case None => rest
        case Some(t) => HeldCons(t, rest); [t] + rest
  }

  lemma HeldCons(t: Tour, rest: seq<Tour>)
    requires Held(t) && forall i :: 0 <= i < |rest| ==> Held(rest[i])
    ensures forall i :: 0 <= i < |[t] + rest| ==> Held(([t] + rest)[i])
  {
  }

  /** The largest file tours_ensure_loaded reads: 1 << 20 bytes. */
  const MaxFileSize: nat := 1048576

  /** The records a load appends: none without a file or with an empty or
      oversized one; the TitleCase pass, or the lowercase pass when the
      first found nothing. */
  function LoadedTours(file: Option<string>): (r: seq<Tour>)
    ensures forall i :: 0 <= i < |r| ==> Held(r[i])
  {
    if file.None? || |file.value| == 0 || |file.value| > MaxFileSize then []
    else
      var first := ScanPass(file.value, TitleKeys(), 0);
      if first != [] then first else ScanPass(file.value, LowerKeys(), 0)
  }

  // ---------------------------------------------------------------------
  // Saving: the text tours_save writes

  function SavedStatus(t: Tour): string {
    if t.status == "" then "Idle" else t.status
  }

  function SaveEntry(t: Tour, last: bool): string {
    "    { \"token\": \"" + t.token + "\", \"name\": \"" + t.name + "\", \"status\": \"" + SavedStatus(t) + "\" }"
    + (if last then "" else ",") + "\n"
  }

  function SaveEntries(ts: seq<Tour>): string {
    if ts == [] then "" else SaveEntry(ts[0], |ts| == 1) + SaveEntries(ts[1..])
  }

  function SaveText(ts: seq<Tour>): string {
    "{\n  \"preset_tours\": [\n" + SaveEntries(ts) + "  ]\n}\n"
  }

  // ---------------------------------------------------------------------
  // Lookup and numbering

  /** tour_index_by_token: the first exact (strcmp) match, -1 for none. */
  function TokenIndex(ts: seq<Tour>, token: string): (r: int)
    ensures -1 <= r < |ts|
    ensures r >= 0 ==> ts[r].token == token && forall j :: 0 <= j < r ==> ts[j].token != token
    ensures r == -1 <==> forall j :: 0 <= j < |ts| ==> ts[j].token != token
  {
    if ts == [] then -1
    else if ts[0].token == token then 0
    else
      var k := TokenIndex(ts[1..], token);
      assert forall j :: 1 <= j < |ts| ==> ts[j] == ts[1..][j - 1];
      if k == -1 then -1 else k + 1
  }

  const TourTokenPrefix: string := "PresetTourToken_"

  /** sscanf(token, "PresetTourToken_%d", &n) == 1, with n. */
  function TourNumber(token: string): Option<int> {
    ScanPrefixedInt(TourTokenPrefix, token)
  }

  /** maxn after next_tour_number's loop over ts: the largest number read
      from a token, and 0 when none is larger. */
  function MaxTourNumber(ts: seq<Tour>): (r: int)
    ensures r >= 0
    ensures forall i :: 0 <= i < |ts| && TourNumber(ts[i].token).Some? ==> TourNumber(ts[i].token).value <= r
  {
    if ts == [] then 0
    else
      var m := MaxTourNumber(ts[..|ts| - 1]);
      assert forall i :: 0 <= i < |ts| - 1 ==> ts[i] == ts[..|ts| - 1][i];
      var n := TourNumber(ts[|ts| - 1].token);
      if n.Some? && n.value > m then n.value else m
  }

  /** The token snprintf writes into token[64] for number n. */
  function CreatedToken(n: int): string {
    Truncate(TourTokenPrefix + IntToDecimal(n), TokenSize)
  }

  /** next_tour_number exceeds every number a token carries, so the token
      CreatePresetTour makes is none of the existing ones (as long as it
      fits its array, which every C int does). */
  lemma CreatedTokenFresh(ts: seq<Tour>)
    requires |TourTokenPrefix + IntToDecimal(MaxTourNumber(ts) + 1)| <= TokenSize
    ensures forall i :: 0 <= i < |ts| ==> ts[i].token != CreatedToken(MaxTourNumber(ts) + 1)
  {
    var n := MaxTourNumber(ts) + 1;
    var t := TourTokenPrefix + IntToDecimal(n);
    assert t[|TourTokenPrefix|..] == IntToDecimal(n) + "";
    ScanIntOfDecimal(n, "");
    assert TourNumber(t) == Some(n);
  }

  /** The status OperatePresetTour writes for an operation (strcasecmp),
      or None for an operation it does not support. */
  function OperationStatus(operation: string): (r: Option<string>)
    ensures r == Some("Touring") <==> CaseEq(operation, "Start")
    ensures r == Some("Idle") <==> CaseEq(operation, "Stop")
    ensures r == Some("Paused") <==> CaseEq(operation, "Pause")
    ensures r.None? <==> !CaseEq(operation, "Start") && !CaseEq(operation, "Stop") && !CaseEq(operation, "Pause")
  {
    if CaseEq(operation, "Start") then
      assert !CaseEq(operation, "Pause") by {
        assert LowerChar(operation[0]) == LowerChar('S');
      }
      Some("Touring")
    else if CaseEq(operation, "Stop") then Some("Idle")
    else if CaseEq(operation, "Pause") then Some("Paused")
    else None
  }

  /** The backend command templates of the PTZ node, NULL as None. */
  datatype TourCommands = TourCommands(start: Option<string>, stop: Option<string>, pause: Option<string>)

  /** The records with the one at idx taken out. */
  function Without(ts: seq<Tour>, idx: nat): seq<Tour>
    requires idx < |ts|
  {
    ts[..idx] + ts[idx + 1..]
  }

  /** The command a template makes for a tour token (the snprintf). */
  datatype Command = Command(template: string, tourToken: string)

  /** The template an operation needs. */
  function OperationTemplate(cmds: TourCommands, operation: string): Option<string> {
    if CaseEq(operation, "Start") then cmds.start
    else if CaseEq(operation, "Stop") then cmds.stop
    else if CaseEq(operation, "Pause") then cmds.pause
    else None
  }

  /** The fault code for a missing template: -5 Start, -6 Stop, -7 Pause;
      -8 for an unsupported operation. */
  function OperationFault(operation: string): int {
    if CaseEq(operation, "Start") then -5
    else if CaseEq(operation, "Stop") then -6
    else if CaseEq(operation, "Pause") then -7
    else -8
  }

  /** The records after tours_ensure_loaded: unchanged once loaded. */
  function AfterLoad(loaded: bool, contents: seq<Tour>, file: Option<string>): seq<Tour> {
    if loaded then contents else contents + LoadedTours(file)
  }

  /** The common first checks of every tour request: -1 without a
      ProfileToken element, -2 with PTZ disabled, else 0. */
  function Precheck(profileNode: bool, ptzEnable: int): (code: int)
    ensures code in {0, -1, -2}
    ensures code == 0 <==> profileNode && ptzEnable != 0
  {
    if !profileNode then -1 else if ptzEnable == 0 then -2 else 0
  }

  function Renamed(t: Tour, name: string): Tour {
    t.(name := Truncate(name, NameSize))
  }

  class TourStore {
    var tours: array<Tour>
    var count: nat
    var loaded: bool
    /** The content of preset_tours.json, None when there is no file. */
    var file: Option<string>

    predicate Valid()
      reads this, tours
    {
      count <= tours.Length && forall i :: 0 <= i < count ==> Held(tours[i])
    }

    function Contents(): (r: seq<Tour>)
      reads this, tours
      requires Valid()
      ensures |r| == count && forall i :: 0 <= i < |r| ==> Held(r[i])
    {
      tours[..count]
    }

    /** A fresh process: nothing loaded yet. */
    constructor (file: Option<string>)
      ensures Valid() && Contents() == [] && !loaded && this.file == file
    {
      tours := new Tour[0];
      count := 0;
      loaded := false;
      this.file := file;
    }

    /** realloc to one more record, then the record copied in. */
    method Append(t: Tour)
      requires Valid() && Held(t)
      modifies this
      ensures Valid() && Contents() == old(Contents()) + [t]
      ensures loaded == old(loaded) && file == old(file) && fresh(tours)
    {
      var grown := new Tour[count + 1];
      var i := 0;
      while i < count
        modifies grown
        invariant 0 <= i <= count
        invariant forall j :: 0 <= j < i ==> grown[j] == tours[j]
      {
        grown[i] := tours[i];
        i := i + 1;
      }
      grown[count] := t;
      tours := grown;
      count := count + 1;
    }

    /** The records of a load, appended one by one. */
    method AppendAll(ts: seq<Tour>)
      requires Valid() && forall i :: 0 <= i < |ts| ==> Held(ts[i])
      modifies this
      ensures Valid() && Contents() == old(Contents()) + ts
      ensures loaded == old(loaded) && file == old(file) && (tours == old(tours) || fresh(tours))
    {
      var i := 0;
      while i < |ts|
        invariant 0 <= i <= |ts| && Valid() && loaded == old(loaded) && file == old(file)
        invariant tours == old(tours) || fresh(tours)
        invariant Contents() == old(Contents()) + ts[..i]
      {
        Append(ts[i]);
        assert ts[..i + 1] == ts[..i] + [ts[i]];
        i := i + 1;
      }
      assert ts[..i] == ts;
    }

    /** tours_ensure_loaded: the file is read on the first call only. */
    method EnsureLoaded()
      requires Valid()
      modifies this
      ensures Valid() && loaded && file == old(file)
      ensures Contents() == AfterLoad(old(loaded), old(Contents()), old(file))
      ensures old(loaded) ==> tours == old(tours) && count == old(count)
      ensures tours == old(tours) || fresh(tours)
    {
      if loaded {
        return;
      }
      loaded := true;
      AppendAll(LoadedTours(file));
    }

    /** tours_save */
    method Save()
      requires Valid()
      modifies this
      ensures Valid() && file == Some(SaveText(Contents()))
      ensures tours == old(tours) && count == old(count) && loaded == old(loaded)
    {
      file := Some(SaveText(tours[..count]));
    }

    /** tour_index_by_token */
    method IndexByToken(token: string) returns (idx: int)
      requires Valid()
      ensures idx == TokenIndex(Contents(), token)
    {
      var i := 0;
      while i < count
        invariant 0 <= i <= count
        invariant forall j :: 0 <= j < i ==> tours[j].token != token
      {
        if tours[i].token == token {
          assert forall j :: 0 <= j < i ==> Contents()[j].token != token;
          return i;
        }
        i := i + 1;
      }
      assert forall j :: 0 <= j < count ==> Contents()[j].token != token;
      return -1;
    }

    /** next_tour_number */
    method NextTourNumber() returns (num: int)
      requires Valid()
      ensures num == MaxTourNumber(Contents()) + 1
    {
      var maxn := 0;
      var i := 0;
      while i < count
        invariant 0 <= i <= count
        invariant maxn == MaxTourNumber(tours[..i])
      {
        var n := TourNumber(tours[i].token);
        assert tours[..i + 1][..i] == tours[..i];
        if n.Some? && n.value > maxn {
          maxn := n.value;
        }
        i := i + 1;
      }
      assert tours[..count] == Contents();
      return maxn + 1;
    }

    /** ptz_create_preset_tour: -3 when max_preset_tours is positive and
        reached; otherwise one Idle record with the next token and the
        request's name is appended and the store saved. */
    method Create(profileNode: bool, ptzEnable: int, maxTours: int, name: Option<string>)
      returns (code: int, token: string)
      requires Valid()
      modifies this
      ensures Valid()
      ensures Precheck(profileNode, ptzEnable) != 0 ==>
        code == Precheck(profileNode, ptzEnable) && Contents() == old(Contents()) && loaded == old(loaded)
      ensures Precheck(profileNode, ptzEnable) == 0 ==>
        var before := AfterLoad(old(loaded), old(Contents()), old(file));
        if maxTours > 0 && |before| >= maxTours then code == -3 && Contents() == before
        else
          code == 0 && token == CreatedToken(MaxTourNumber(before) + 1)
          && Contents() == before + [Tour(token, Truncate(name.GetOr(""), NameSize), "Idle")]
          && file == Some(SaveText(Contents()))
      ensures code != 0 ==> file == old(file)
    {
      token := "";
      code := Precheck(profileNode, ptzEnable);
      if code != 0 {
        return;
      }
      EnsureLoaded();
      if maxTours > 0 && count >= maxTours {
        code := -3;
        return;
      }
      var n := name.GetOr("");
      var num := NextTourNumber();
      token := CreatedToken(num);
      assert TourTokenPrefix <= token;
      Append(Tour(token, if n != "" then Truncate(n, NameSize) else "", "Idle"));
      Save();
    }

    /** ptz_modify_preset_tour: the name is replaced only by a non-empty
        one; the store is saved whenever the token is found. */
    method Modify(profileNode: bool, ptzEnable: int, tourToken: Option<string>, name: Option<string>)
      returns (code: int)
      requires Valid()
      modifies this, tours
      ensures Valid()
      ensures code == 0 <==> (Precheck(profileNode, ptzEnable) == 0 && tourToken.Some?
        && TokenIndex(AfterLoad(old(loaded), old(Contents()), old(file)), tourToken.value) >= 0)
      ensures code == 0 ==>
        var before := AfterLoad(old(loaded), old(Contents()), old(file));
        var idx := TokenIndex(before, tourToken.value);
        Contents() == (if name.Some? && name.value != "" then before[idx := Renamed(before[idx], name.value)] else before)
        && file == Some(SaveText(Contents()))
      ensures Precheck(profileNode, ptzEnable) != 0 ==>
        code == Precheck(profileNode, ptzEnable) && Contents() == old(Contents()) && loaded == old(loaded)
      ensures Precheck(profileNode, ptzEnable) == 0 && tourToken.None? ==>
        code == -3 && Contents() == old(Contents()) && loaded == old(loaded)
      ensures (Precheck(profileNode, ptzEnable) == 0 && tourToken.Some?
        && TokenIndex(AfterLoad(old(loaded), old(Contents()), old(file)), tourToken.value) < 0) ==>
        code == -4 && Contents() == AfterLoad(old(loaded), old(Contents()), old(file)) && loaded
      ensures code != 0 ==> file == old(file)
    {
      code := Precheck(profileNode, ptzEnable);
      if code != 0 {
        return;
      }
      if tourToken.None? {
        return -3;
      }
      EnsureLoaded();
      var idx := IndexByToken(tourToken.value);
      if idx < 0 {
        return -4;
      }
      if name.Some? && name.value != "" {
        tours[idx] := Renamed(tours[idx], name.value);
      }
      Save();
    }

    /** ptz_operate_preset_tour: Start, Stop and Pause (strcasecmp) set
        Touring, Idle and Paused and run their command; a missing command
        or an unsupported operation changes nothing. */
    method Operate(profileNode: bool, ptzEnable: int, tourToken: Option<string>, operation: Option<string>,
                   cmds: TourCommands)
      returns (code: int, command: Option<Command>)
      requires Valid()
      modifies this, tours
      ensures Valid()
      ensures command.Some? <==> code == 0
      ensures code == 0 <==> (Precheck(profileNode, ptzEnable) == 0 && tourToken.Some? && operation.Some?
        && TokenIndex(AfterLoad(old(loaded), old(Contents()), old(file)), tourToken.value) >= 0
        && OperationTemplate(cmds, operation.value).Some?)
      ensures code == 0 ==>
        var before := AfterLoad(old(loaded), old(Contents()), old(file));
        var idx := TokenIndex(before, tourToken.value);
        command == Some(Command(OperationTemplate(cmds, operation.value).value, tourToken.value))
        && Contents() == before[idx := before[idx].(status := OperationStatus(operation.value).value)]
        && file == Some(SaveText(Contents()))
      ensures Precheck(profileNode, ptzEnable) != 0 ==>
        code == Precheck(profileNode, ptzEnable) && Contents() == old(Contents()) && loaded == old(loaded)
      ensures Precheck(profileNode, ptzEnable) == 0 && (tourToken.None? || operation.None?) ==>
        code == -3 && Contents() == old(Contents()) && loaded == old(loaded)
      ensures (Precheck(profileNode, ptzEnable) == 0 && tourToken.Some? && operation.Some?
        && TokenIndex(AfterLoad(old(loaded), old(Contents()), old(file)), tourToken.value) < 0) ==>
        code == -4 && Contents() == AfterLoad(old(loaded), old(Contents()), old(file)) && loaded
      ensures (Precheck(profileNode, ptzEnable) == 0 && tourToken.Some? && operation.Some?
        && TokenIndex(AfterLoad(old(loaded), old(Contents()), old(file)), tourToken.value) >= 0
        && OperationTemplate(cmds, operation.value).None?) ==>
        code == OperationFault(operation.value) && Contents() == AfterLoad(old(loaded), old(Contents()), old(file)) && loaded
      ensures code != 0 ==> file == old(file)
    {
      command := None;
      code := Precheck(profileNode, ptzEnable);
      if code != 0 {
        return;
      }
      if tourToken.None? || operation.None? {
        code := -3;
        return;
      }
      EnsureLoaded();
      var idx := IndexByToken(tourToken.value);
      if idx < 0 {
        code := -4;
        return;
      }
      var op := operation.value;
      var template := OperationTemplate(cmds, op);
      if template.None? {
        code := OperationFault(op);
        return;
      }
      tours[idx] := tours[idx].(status := OperationStatus(op).value);
      command := Some(Command(template.value, tourToken.value));
      Save();
    }

    /** ptz_remove_preset_tour's record removal: the loop below, then the
        count drops. */
    method ShiftDown(idx: nat)
      requires Valid() && idx < count
      modifies this, tours
      ensures Valid() && Contents() == Without(old(Contents()), idx)
      ensures tours == old(tours) && loaded == old(loaded) && file == old(file)
    {
      ghost var before := Contents();
      var n := count;
      ShiftLeft(tours, idx, n);
      count := n - 1;
      assert tours[..count] == Without(before, idx);
      WithoutHeld(before, idx);
    }

    /** ptz_remove_preset_tour: the records after the removed one move
        down by one, in order. */
    method Remove(profileNode: bool, ptzEnable: int, tourToken: Option<string>) returns (code: int)
      requires Valid()
      modifies this, tours
      ensures Valid()
      ensures code == 0 <==> (Precheck(profileNode, ptzEnable) == 0 && tourToken.Some?
        && TokenIndex(AfterLoad(old(loaded), old(Contents()), old(file)), tourToken.value) >= 0)
      ensures code == 0 ==>
        var before := AfterLoad(old(loaded), old(Contents()), old(file));
        var idx := TokenIndex(before, tourToken.value);
        Contents() == Without(before, idx) && file == Some(SaveText(Contents()))
      ensures Precheck(profileNode, ptzEnable) != 0 ==>
        code == Precheck(profileNode, ptzEnable) && Contents() == old(Contents()) && loaded == old(loaded)
      ensures Precheck(profileNode, ptzEnable) == 0 && tourToken.None? ==>
        code == -3 && Contents() == old(Contents()) && loaded == old(loaded)
      ensures (Precheck(profileNode, ptzEnable) == 0 && tourToken.Some?
        && TokenIndex(AfterLoad(old(loaded), old(Contents()), old(file)), tourToken.value) < 0) ==>
        code == -4 && Contents() == AfterLoad(old(loaded), old(Contents()), old(file)) && loaded
      ensures code != 0 ==> file == old(file)
    {
      code := Precheck(profileNode, ptzEnable);
      if code != 0 {
        return;
      }
      if tourToken.None? {
        return -3;
      }
      EnsureLoaded();
      var idx := IndexByToken(tourToken.value);
      if idx < 0 {
        return -4;
      }
      ShiftDown(idx);
      Save();
    }

    /** ptz_get_preset_tour: the record for the token, its status shown as
        Idle when empty. */
    method Get(profileNode: bool, ptzEnable: int, tourToken: Option<string>) returns (code: int, shown: Option<Tour>)
      requires Valid()
      modifies this
      ensures Valid()
      ensures shown.Some? <==> code == 0
      ensures code == 0 <==> (Precheck(profileNode, ptzEnable) == 0 && tourToken.Some?
        && TokenIndex(Contents(), tourToken.value) >= 0)
      ensures code == 0 ==>
        var t := Contents()[TokenIndex(Contents(), tourToken.value)];
        shown == Some(t.(status := SavedStatus(t)))
        && Contents() == AfterLoad(old(loaded), old(Contents()), old(file))
      ensures Precheck(profileNode, ptzEnable) != 0 ==>
        code == Precheck(profileNode, ptzEnable) && Contents() == old(Contents()) && loaded == old(loaded)
      ensures Precheck(profileNode, ptzEnable) == 0 && tourToken.None? ==>
        code == -3 && Contents() == old(Contents()) && loaded == old(loaded)
      ensures (Precheck(profileNode, ptzEnable) == 0 && tourToken.Some?
        && TokenIndex(AfterLoad(old(loaded), old(Contents()), old(file)), tourToken.value) < 0) ==>
        code == -4 && Contents() == AfterLoad(old(loaded), old(Contents()), old(file)) && loaded
      ensures file == old(file)
    {
      shown := None;
      code := Precheck(profileNode, ptzEnable);
      if code != 0 {
        return;
      }
      if tourToken.None? {
        code := -3;
        return;
      }
      EnsureLoaded();
      var idx := IndexByToken(tourToken.value);
      if idx < 0 {
        code := -4;
        return;
      }
      var t := tours[idx];
      shown := Some(t.(status := SavedStatus(t)));
    }
  }

  /** The loop `for (i = idx; i < count - 1; i++) g_tours[i] = g_tours[i + 1];`:
      the first n - 1 elements become the first n without the one at idx. */
  method ShiftLeft(a: array<Tour>, idx: nat, n: nat)
    requires idx < n <= a.Length
    modifies a
    ensures a[..n - 1] == old(a[..n])[..idx] + old(a[..n])[idx + 1..]
    ensures a[n - 1..] == old(a[n - 1..])
  {
    ghost var before := a[..];
    var i := idx;
    while i < n - 1
      invariant idx <= i <= n - 1
      invariant forall j :: 0 <= j < idx ==> a[j] == before[j]
      invariant forall j :: idx <= j < i ==> a[j] == before[j + 1]
      invariant forall j :: i <= j < a.Length ==> a[j] == before[j]
    {
      a[i] := a[i + 1];
      i := i + 1;
    }
    assert forall j :: 0 <= j < n - 1 ==> a[j] == (before[..n][..idx] + before[..n][idx + 1..])[j];
  }

  // ---------------------------------------------------------------------
  // Properties of the rules the store follows

  /** Every loaded record has a non-empty token, a status (Idle when the
      file gives none) and fields cut to their arrays. */
  lemma LoadedRecordsHeld(file: Option<string>)
    ensures forall i :: 0 <= i < |LoadedTours(file)| ==>
      LoadedTours(file)[i].token != "" && LoadedTours(file)[i].status != ""
      && |LoadedTours(file)[i].token| <= 63 && |LoadedTours(file)[i].name| <= 63 && |LoadedTours(file)[i].status| <= 15
  {
  }

  /** The lowercase keys are tried only when the TitleCase pass found
      nothing. */
  lemma LowercaseOnlyAsFallback(buf: string)
    requires 0 < |buf| <= MaxFileSize
    ensures ScanPass(buf, TitleKeys(), 0) != [] ==> LoadedTours(Some(buf)) == ScanPass(buf, TitleKeys(), 0)
    ensures ScanPass(buf, TitleKeys(), 0) == [] ==> LoadedTours(Some(buf)) == ScanPass(buf, LowerKeys(), 0)
  {
  }

  /** Looking a record up by its own token finds it, or an earlier record
      with the same token. */
  lemma TokenIndexOfMember(ts: seq<Tour>, i: nat)
    requires i < |ts|
    ensures 0 <= TokenIndex(ts, ts[i].token) <= i
  {
  }

  lemma WithoutHeld(ts: seq<Tour>, idx: nat)
    requires idx < |ts| && forall i :: 0 <= i < |ts| ==> Held(ts[i])
    ensures forall i :: 0 <= i < |ts| - 1 ==> Held(Without(ts, idx)[i])
  {
    RemoveKeepsOrder(ts, idx);
  }

  /** After removing the record at idx, the others keep their order. */
  lemma RemoveKeepsOrder(ts: seq<Tour>, idx: nat)
    requires idx < |ts|
    ensures |Without(ts, idx)| == |ts| - 1
    ensures forall j :: 0 <= j < idx ==> Without(ts, idx)[j] == ts[j]
    ensures forall j :: idx <= j < |ts| - 1 ==> Without(ts, idx)[j] == ts[j + 1]
    ensures multiset(Without(ts, idx)) + multiset{ts[idx]} == multiset(ts)
  {
    assert ts == ts[..idx] + [ts[idx]] + ts[idx + 1..];
  }
}
