/** The decision logic of the PTZ requests that do not move the camera:
    the coordinate-space check, Stop's choice of axes, and the checks
    SetPreset makes before and after it runs the backend's set_preset
    command. The preset list is what the backend's get_presets command
    reported; running commands is left to the caller. */
module PtzPresets {
  import opened Wrappers
  import opened CString
  import opened PtzTours

  /** ptz_space_matches: a request without a space attribute matches any
      space; otherwise the URI must be the expected one exactly. */
  function SpaceMatches(space: Option<string>, expected: string): (r: bool)
    ensures r <==> space.None? || space.value == expected
  {
    space.None? || space.value == expected
  }

  const PanTiltVelocitySpace := "http://www.onvif.org/ver10/tptz/PanTiltSpaces/VelocityGenericSpace"
  const ZoomVelocitySpace := "http://www.onvif.org/ver10/tptz/ZoomSpaces/VelocityGenericSpace"

  /** The space checks of ptz_continuous_move. Each argument is None when
      the Velocity element has no such child, else the child's space
      attribute. PanTilt is checked first; a mismatch is fault -3
      (ter:SpaceNotSupported) with the axis's own reason. */
  function VelocitySpaceFault(panTilt: Option<Option<string>>, zoom: Option<Option<string>>): (r: Option<(int, string)>)
    ensures r.Some? ==> r.value.0 == -3
    ensures panTilt.Some? && !SpaceMatches(panTilt.value, PanTiltVelocitySpace) ==>
              r == Some((-3, "Pan/Tilt velocity space is not supported"))
    ensures !(panTilt.Some? && !SpaceMatches(panTilt.value, PanTiltVelocitySpace))
            && zoom.Some? && !SpaceMatches(zoom.value, ZoomVelocitySpace) ==>
              r == Some((-3, "Zoom velocity space is not supported"))
    ensures r.None? <==> (panTilt.Some? ==> SpaceMatches(panTilt.value, PanTiltVelocitySpace))
                         && (zoom.Some? ==> SpaceMatches(zoom.value, ZoomVelocitySpace))
  {
    if panTilt.Some? && !SpaceMatches(panTilt.value, PanTiltVelocitySpace) then
      Some((-3, "Pan/Tilt velocity space is not supported"))
    else if zoom.Some? && !SpaceMatches(zoom.value, ZoomVelocitySpace) then
      Some((-3, "Zoom velocity space is not supported"))
    else None
  }

  /** A velocity naming any other space on either axis is refused, however
      the other axis is given; one that names no space on its axes, or
      only the generic velocity spaces, passes. */
  lemma OtherSpaceRefused(space: string, other: Option<Option<string>>)
    requires space != PanTiltVelocitySpace && space != ZoomVelocitySpace
    ensures VelocitySpaceFault(Some(Some(space)), other).Some?
    ensures VelocitySpaceFault(other, Some(Some(space))).Some?
    ensures VelocitySpaceFault(Some(None), Some(None)).None?
    ensures VelocitySpaceFault(Some(Some(PanTiltVelocitySpace)), Some(Some(ZoomVelocitySpace))).None?
  {
  }

  /** The two generic spaces are not interchangeable: the zoom space given
      for Pan/Tilt is refused. */
  lemma ZoomSpaceNotPanTilt(zoom: Option<Option<string>>)
    ensures VelocitySpaceFault(Some(Some(ZoomVelocitySpace)), zoom) == Some((-3, "Pan/Tilt velocity space is not supported"))
  {
    assert ZoomVelocitySpace[32] != PanTiltVelocitySpace[32];
  }

  // ---------------------------------------------------------------------
  // Stop

  /** A PanTilt or Zoom element that says "false", in any case. */
  predicate Disabled(v: Option<string>) {
    v.Some? && CaseEq("false", v.value)
  }

  /** The argument ptz_stop gives the move_stop command: "all" unless
      PanTilt or Zoom is disabled, the other axis when one is, and no
      command when both are. */
  function StopAxes(panTilt: Option<string>, zoom: Option<string>): (r: Option<string>)
    ensures r == Some("all") <==> !Disabled(panTilt) && !Disabled(zoom)
    ensures r == Some("pantilt") <==> !Disabled(panTilt) && Disabled(zoom)
    ensures r == Some("zoom") <==> Disabled(panTilt) && !Disabled(zoom)
    ensures r.None? <==> Disabled(panTilt) && Disabled(zoom)
  {
    var pantilt := !Disabled(panTilt);
    var zoomOn := !Disabled(zoom);
    if pantilt && zoomOn then Some("all")
    else if pantilt then Some("pantilt")
    else if zoomOn then Some("zoom")
    else None
  }

  datatype StopResult = StopResult(code: int, command: Option<Command>)

  /** ptz_stop: -1 without a ProfileToken element, -2 with PTZ disabled,
      -3 without a move_stop command; otherwise success, with the command
      StopAxes selects. */
  function Stop(profileNode: bool, ptzEnable: int, moveStop: Option<string>,
                panTilt: Option<string>, zoom: Option<string>): (r: StopResult)
    ensures r.code in {0, -1, -2, -3}
    ensures r.code == 0 <==> Precheck(profileNode, ptzEnable) == 0 && moveStop.Some?
    ensures r.command.Some? ==> r.code == 0 && r.command.value.template == moveStop.value
    ensures r.code == 0 ==>
      (r.command.Some? <==> StopAxes(panTilt, zoom).Some?)
      && (r.command.Some? ==> r.command.value.tourToken == StopAxes(panTilt, zoom).value)
  {
    var pre := Precheck(profileNode, ptzEnable);
    if pre != 0 then StopResult(pre, None)
    else if moveStop.None? then StopResult(-3, None)
    else
      match StopAxes(panTilt, zoom)
      case None => StopResult(0, None)
      case Some(axes) => StopResult(0, Some(Command(moveStop.value, axes)))
  }

  // ---------------------------------------------------------------------
  // SetPreset

  /** One entry of the backend's preset list. */
  datatype Preset = Preset(number: int, name: string)

  /** The longest preset name SetPreset accepts. */
  const MaxPresetName: nat := 64

  /** A name SetPreset accepts: no space, not empty, at most 64 characters. */
  predicate ValidPresetName(n: string) {
    ' ' !in n && 0 < |n| <= MaxPresetName
  }

  /** p already uses the name, case aside, and is not the preset `self`
      being renamed. */
  predicate Clash(p: Preset, name: string, self: Option<int>) {
    (self.None? || p.number != self.value) && CaseEq(p.name, name)
  }

  predicate NameTaken(ps: seq<Preset>, name: string, self: Option<int>) {
    exists i :: 0 <= i < |ps| && Clash(ps[i], name, self)
  }

  /** The profile token names a profile, case aside. */
  predicate KnownProfile(profiles: seq<Option<string>>, token: string) {
    exists i :: 0 <= i < |profiles| && profiles[i].Some? && CaseEq(profiles[i].value, token)
  }

  /** The name of the first preset with the number. */
  function NumberedName(ps: seq<Preset>, number: int): (r: Option<string>)
    ensures r.Some? ==> exists i :: 0 <= i < |ps| && ps[i] == Preset(number, r.value)
    ensures r.None? <==> forall i :: 0 <= i < |ps| ==> ps[i].number != number
  {
    if ps == [] then None
    else if ps[0].number == number then Some(ps[0].name)
    else
      var r := NumberedName(ps[1..], number);
      assert forall i :: 1 <= i < |ps| ==> ps[i] == ps[1..][i - 1];
      r
  }

  const PresetTokenPrefix: string := "PresetToken_"

  /** What SetPreset's checks decide: a fault code, or the number and name
      the set_preset command receives (-1 for a new preset). */
  datatype Decision = Rejected(code: int) | Accepted(number: int, name: string)

  /** The request as ptz_set_preset reads it, with what the backend
      reported: `moving` is the is_moving command printing 1, `generated`
      the name made from a fresh UUID when a new preset has none. */
  datatype SetPresetRequest = SetPresetRequest(
    profileToken: Option<string>, profileNode: bool, presetToken: Option<string>,
    presetName: Option<string>, generated: string)

  datatype PtzNode = PtzNode(enable: int, moving: bool, setPreset: Option<string>)

  /** The checks of ptz_set_preset before its command runs. */
  function SetPresetDecision(profiles: seq<Option<string>>, node: PtzNode, ps: seq<Preset>,
                             req: SetPresetRequest): (d: Decision)
    ensures d.Rejected? ==> -9 <= d.code <= -1
    ensures d.Accepted? ==> ValidPresetName(d.name) && node.setPreset.Some?
    ensures d.Accepted? ==> req.profileToken.Some? && KnownProfile(profiles, req.profileToken.value)
    ensures d.Accepted? && req.presetToken.None? ==> d.number == -1 && !NameTaken(ps, d.name, None)
    ensures d.Accepted? && req.presetToken.Some? ==>
      ScanPrefixedInt(PresetTokenPrefix, req.presetToken.value) == Some(d.number)
      && NumberedName(ps, d.number).Some? && !NameTaken(ps, d.name, Some(d.number))
  {
    if req.profileToken.None? || !KnownProfile(profiles, req.profileToken.value) then Rejected(-2)
    else if node.moving then Rejected(-3)
    else if !req.profileNode then Rejected(-1)
    else if node.enable == 0 then Rejected(-2)
    else if req.presetToken.None? then
      var name := if req.presetName.None? then "Preset_" + req.generated else req.presetName.value;
      if !ValidPresetName(name) then Rejected(-3)
      else if NameTaken(ps, name, None) then Rejected(-4)
      else if node.setPreset.None? then Rejected(-9)
      else Accepted(-1, name)
    else
      match ScanPrefixedInt(PresetTokenPrefix, req.presetToken.value)
      case None => Rejected(-5)
      case Some(n) =>
        match NumberedName(ps, n)
        case None => Rejected(-6)
        case Some(current) =>
          var name := req.presetName.GetOr(current);
          if !ValidPresetName(name) then Rejected(-7)
          else if NameTaken(ps, name, Some(n)) then Rejected(-8)
          else if node.setPreset.None? then Rejected(-9)
          else Accepted(n, name)
  }

  /** One pass of a strcasecmp loop over the profile names. */
  method FindProfile(profiles: seq<Option<string>>, token: string) returns (found: bool)
    ensures found == KnownProfile(profiles, token)
  {
    var i := 0;
    while i < |profiles|
      invariant 0 <= i <= |profiles|
      invariant forall j :: 0 <= j < i ==> !(profiles[j].Some? && CaseEq(profiles[j].value, token))
    {
      if profiles[i].Some? && CaseEq(profiles[i].value, token) {
        return true;
      }
      i := i + 1;
    }
    return false;
  }

  /** The duplicate-name loops of ptz_set_preset. */
  method FindClash(ps: seq<Preset>, name: string, self: Option<int>) returns (taken: bool)
    ensures taken == NameTaken(ps, name, self)
  {
    var i := 0;
    while i < |ps|
      invariant 0 <= i <= |ps|
      invariant forall j :: 0 <= j < i ==> !Clash(ps[j], name, self)
    {
      if Clash(ps[i], name, self) {
        return true;
      }
      i := i + 1;
    }
    return false;
  }

  /** The loop looking up the preset a PresetToken names. */
  method FindNumber(ps: seq<Preset>, number: int) returns (name: Option<string>)
    ensures name == NumberedName(ps, number)
  {
    var i := 0;
    while i < |ps|
      invariant 0 <= i <= |ps|
      invariant NumberedName(ps, number) == NumberedName(ps[i..], number)
    {
      if ps[i].number == number {
        return Some(ps[i].name);
      }
      assert ps[i..][1..] == ps[i + 1..];
      i := i + 1;
    }
    return None;
  }

  /** ptz_set_preset up to its set_preset command. */
  method CheckSetPreset(profiles: seq<Option<string>>, node: PtzNode, ps: seq<Preset>, req: SetPresetRequest)
    returns (d: Decision)
    ensures d == SetPresetDecision(profiles, node, ps, req)
  {
    if req.profileToken.None? {
      return Rejected(-2);
    }
    var known := FindProfile(profiles, req.profileToken.value);
    if !known {
      return Rejected(-2);
    }
    if node.moving {
      return Rejected(-3);
    }
    if !req.profileNode {
      return Rejected(-1);
    }
    if node.enable == 0 {
      return Rejected(-2);
    }
    var name: string;
    var number := -1;
    if req.presetToken.None? {
      name := if req.presetName.None? then "Preset_" + req.generated else req.presetName.value;
      if !ValidPresetName(name) {
        return Rejected(-3);
      }
      var taken := FindClash(ps, name, None);
      if taken {
        return Rejected(-4);
      }
    } else {
      var scanned := ScanPrefixedInt(PresetTokenPrefix, req.presetToken.value);
      if scanned.None? {
        return Rejected(-5);
      }
      number := scanned.value;
      var current := FindNumber(ps, number);
      if current.None? {
        return Rejected(-6);
      }
      name := req.presetName.GetOr(current.value);
      if !ValidPresetName(name) {
        return Rejected(-7);
      }
      var taken := FindClash(ps, name, Some(number));
      if taken {
        return Rejected(-8);
      }
    }
    if node.setPreset.None? {
      return Rejected(-9);
    }
    return Accepted(number, name);
  }

  /** The token SetPreset reports for a preset number. */
  function PresetTokenText(n: int): (r: string)
    ensures StartsWith(r, PresetTokenPrefix)
    ensures ScanPrefixedInt(PresetTokenPrefix, r) == Some(n)
  {
    var r := PresetTokenPrefix + IntToDecimal(n);
    assert r[..|PresetTokenPrefix|] == PresetTokenPrefix;
    assert r[|PresetTokenPrefix|..] == IntToDecimal(n) + "";
    ScanIntOfDecimal(n, "");
    r
  }

  /** The reply after the command: -10 when a new preset did not make the
      list grow; otherwise the token of the first preset now carrying the
      name, case aside, or "" when none does. */
  function SetPresetReply(isNew: bool, countBefore: nat, after: seq<Preset>, name: string): (r: (int, string))
    ensures r.0 in {0, -10}
    ensures r.0 == -10 <==> isNew && |after| == countBefore
    ensures r.0 == 0 && r.1 != "" ==>
      exists i :: 0 <= i < |after| && CaseEq(after[i].name, name) && r.1 == PresetTokenText(after[i].number)
    ensures r.0 == 0 && r.1 == "" ==> forall i :: 0 <= i < |after| ==> !CaseEq(after[i].name, name)
  {
    if isNew && |after| == countBefore then (-10, "")
    else (0, ReportedToken(after, name))
  }

  function ReportedToken(after: seq<Preset>, name: string): (r: string)
    ensures r != "" ==> exists i :: 0 <= i < |after| && CaseEq(after[i].name, name) && r == PresetTokenText(after[i].number)
    ensures r == "" <==> forall i :: 0 <= i < |after| ==> !CaseEq(after[i].name, name)
  {
    if after == [] then ""
    else if CaseEq(after[0].name, name) then PresetTokenText(after[0].number)
    else
      assert forall i :: 1 <= i < |after| ==> after[i] == after[1..][i - 1];
      ReportedToken(after[1..], name)
  }

  /** The loop that builds preset_token_out. */
  method FindReportedToken(after: seq<Preset>, name: string) returns (token: string)
    ensures token == ReportedToken(after, name)
  {
    var i := 0;
    while i < |after|
      invariant 0 <= i <= |after|
      invariant ReportedToken(after, name) == ReportedToken(after[i..], name)
    {
      if CaseEq(after[i].name, name) {
        return PresetTokenText(after[i].number);
      }
      assert after[i..][1..] == after[i + 1..];
      i := i + 1;
    }
    return "";
  }

  /** A new preset's name differs, case aside, from every existing one, and
      a renamed preset's new name from every other preset's. */
  lemma AcceptedNameUnique(profiles: seq<Option<string>>, node: PtzNode, ps: seq<Preset>, req: SetPresetRequest, i: nat)
    requires SetPresetDecision(profiles, node, ps, req).Accepted? && i < |ps|
    ensures var d := SetPresetDecision(profiles, node, ps, req);
      req.presetToken.None? ==> !CaseEq(ps[i].name, d.name)
    ensures var d := SetPresetDecision(profiles, node, ps, req);
      req.presetToken.Some? && ps[i].number != d.number ==> !CaseEq(ps[i].name, d.name)
  {
    var d := SetPresetDecision(profiles, node, ps, req);
    assert !Clash(ps[i], d.name, if req.presetToken.None? then None else Some(d.number));
  }

  /** A new preset's name is rejected, with -3, exactly when it has a space,
      is empty or is longer than 64 characters. */
  lemma InvalidNameRejected(profiles: seq<Option<string>>, node: PtzNode, ps: seq<Preset>, req: SetPresetRequest)
    requires req.profileToken.Some? && KnownProfile(profiles, req.profileToken.value)
    requires !node.moving && req.profileNode && node.enable != 0
    requires req.presetToken.None? && req.presetName.Some?
    ensures SetPresetDecision(profiles, node, ps, req) == Rejected(-3) <==>
      ' ' in req.presetName.value || |req.presetName.value| == 0 || |req.presetName.value| > 64
  {
  }

  /** Renaming a preset to its own name, in another case, is allowed. */
  lemma RenameToSelfAllowed(ps: seq<Preset>, n: int, name: string)
    requires forall i :: 0 <= i < |ps| ==> ps[i].number == n
    ensures !NameTaken(ps, name, Some(n))
  {
  }

  // ---------------------------------------------------------------------
  // The size of preset_token_out

  /** preset_token_out is char[16]. */
  const PresetTokenBuffer: nat := 16

  /** sprintf(preset_token_out, "PresetToken_%d", n) stays inside a buffer
      of `size` bytes, its terminating NUL included. */
  predicate TokenFits(n: int, size: nat) {
    |PresetTokenText(n)| + 1 <= size
  }

  /** As written, a backend preset numbered 1000 already overflows the
      16-byte buffer (12 + 4 digits + NUL = 17 bytes). */
  lemma PresetTokenOverflows()
    ensures !TokenFits(1000, PresetTokenBuffer)
  {
    assert NatToDecimal(1000) == NatToDecimal(100) + [DigitChar(0)];
    assert NatToDecimal(100) == NatToDecimal(10) + [DigitChar(0)];
    assert NatToDecimal(10) == NatToDecimal(1) + [DigitChar(0)];
  }

  /** A buffer that holds "PresetToken_", any 32-bit int and the NUL. */
  const CorrectedPresetTokenBuffer: nat := 24

  /** With the corrected buffer every 32-bit preset number fits. */
  lemma PresetTokenFitsCorrected(n: int)
    requires -0x8000_0000 <= n < 0x8000_0000
    ensures TokenFits(n, CorrectedPresetTokenBuffer)
  {
    var m: nat := if n < 0 then -n else n;
    Pow10Values();
    DecimalLength(m, 10);
  }
}
