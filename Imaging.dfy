/** The imaging service's per-source state (imaging_entry_t of
    onvif_simple_server.h) and the requests that change it: lookup of the
    video source, the IR-cut filter mode, focus moves and the current
    imaging preset. Values arrive already parsed; `real` stands for C's
    float, without its rounding. Running a backend command is reported as
    the command text. */
module Imaging {
  import opened Wrappers
  import opened CString
  import opened XmlBuilding

  // ---------------------------------------------------------------------
  // Video source lookup

  /** find_imaging_entry over the sources' tokens: none without sources,
      the first source for a missing or empty token, else the first
      source whose token equals it, case aside. */
  function EntryIndex(tokens: seq<Option<string>>, token: Option<string>): (r: Option<nat>)
    ensures r.Some? ==> r.value < |tokens|
    ensures |tokens| == 0 ==> r.None?
    ensures |tokens| > 0 && (token.None? || token.value == "") ==> r == Some(0)
    ensures token.Some? && token.value != "" && r.Some? ==>
      tokens[r.value].Some? && CaseEq(token.value, tokens[r.value].value)
      && forall j :: 0 <= j < r.value ==> !(tokens[j].Some? && CaseEq(token.value, tokens[j].value))
    ensures token.Some? && token.value != "" && r.None? ==>
      forall j :: 0 <= j < |tokens| ==> !(tokens[j].Some? && CaseEq(token.value, tokens[j].value))
  {
    if |tokens| == 0 then None
    else if token.None? || token.value == "" then Some(0)
    else FirstSource(tokens, token.value, 0)
  }

  function FirstSource(tokens: seq<Option<string>>, token: string, from: nat): (r: Option<nat>)
    requires from <= |tokens|
    ensures r.Some? ==> from <= r.value < |tokens| && tokens[r.value].Some? && CaseEq(token, tokens[r.value].value)
    ensures r.Some? ==> forall j :: from <= j < r.value ==> !(tokens[j].Some? && CaseEq(token, tokens[j].value))
    ensures r.None? ==> forall j :: from <= j < |tokens| ==> !(tokens[j].Some? && CaseEq(token, tokens[j].value))
    decreases |tokens| - from
  {
    if from == |tokens| then None
    else if tokens[from].Some? && CaseEq(token, tokens[from].value) then Some(from)
    else FirstSource(tokens, token, from + 1)
  }

  /** The sources' tokens, in configuration order. */
  function SourceTokens(entries: seq<ImagingEntry>): (r: seq<Option<string>>)
    ensures |r| == |entries| && forall i :: 0 <= i < |r| ==> r[i] == entries[i].videoSourceToken
  {
    seq(|entries|, i requires 0 <= i < |entries| => entries[i].videoSourceToken)
  }

  /** find_imaging_entry */
  method FindImagingEntry(entries: seq<ImagingEntry>, token: Option<string>) returns (idx: Option<nat>)
    ensures idx == EntryIndex(SourceTokens(entries), token)
  {
    if |entries| == 0 {
      return None;
    }
    if token.None? || token.value == "" {
      return Some(0);
    }
    var tokens := SourceTokens(entries);
    var i := 0;
    while i < |entries|
      invariant 0 <= i <= |entries|
      invariant FirstSource(tokens, token.value, 0) == FirstSource(tokens, token.value, i)
    {
      if entries[i].videoSourceToken.Some? && CaseEq(token.value, entries[i].videoSourceToken.value) {
        return Some(i);
      }
      i := i + 1;
    }
    return None;
  }

  // ---------------------------------------------------------------------
  // IR-cut filter modes

  datatype IrCutMode = Unspecified | On | Off | Auto

  /** ircut_mode_to_string: an unspecified mode prints as "Auto". */
  function IrCutText(m: IrCutMode): (r: string)
    ensures r in {"On", "Off", "Auto"}
  {
    match m
    case On => "On"
    case Off => "Off"
    case Auto => "Auto"
    case Unspecified => "Auto"
  }

  /** ircut_mode_from_string: On, Off and Auto in any case; anything else,
      and no value, is unspecified. */
  function IrCutParse(v: Option<string>): (r: IrCutMode)
    ensures v.None? ==> r == Unspecified
    ensures r == On ==> v.Some? && CaseEq(v.value, "On")
    ensures r == Off ==> v.Some? && CaseEq(v.value, "Off")
    ensures r == Auto ==> v.Some? && CaseEq(v.value, "Auto")
  {
    if v.None? then Unspecified
    else if CaseEq(v.value, "ON") || CaseEq(v.value, "On") then On
    else if CaseEq(v.value, "OFF") || CaseEq(v.value, "Off") then Off
    else if CaseEq(v.value, "AUTO") || CaseEq(v.value, "Auto") then Auto
    else Unspecified
  }

  /** Printing a specified mode and parsing it back gives the mode. */
  lemma IrCutRoundTrip(m: IrCutMode)
    requires m != Unspecified
    ensures IrCutParse(Some(IrCutText(m))) == m
  {
    assert !CaseEq("Off", "ON");
    assert !CaseEq("Auto", "ON") && !CaseEq("Auto", "On");
  }

  /** Text that is none of the three names, case aside, is unspecified. */
  lemma IrCutUnknown(v: string)
    requires !CaseEq(v, "On") && !CaseEq(v, "Off") && !CaseEq(v, "Auto")
    ensures IrCutParse(Some(v)) == Unspecified
  {
    if CaseEq(v, "ON") { CaseEqTransitive(v, "ON", "On"); }
    if CaseEq(v, "OFF") { CaseEqTransitive(v, "OFF", "Off"); }
    if CaseEq(v, "AUTO") { CaseEqTransitive(v, "AUTO", "Auto"); }
  }

  // ---------------------------------------------------------------------
  // Focus configuration

  /** imaging_float_value_t, reduced to what the rules read. */
  datatype FloatValue = FloatValue(value: Option<real>, min: Option<real>, max: Option<real>)

  /** value_within_range: a bound that is not configured does not limit. */
  predicate InRange(range: FloatValue, v: real) {
    (range.min.None? || v >= range.min.value) && (range.max.None? || v <= range.max.value)
  }

  /** The absolute and relative focus moves: position (or distance) range,
      speed range, command template. */
  datatype StepMove = StepMove(supported: bool, command: Option<string>, extent: FloatValue, speed: FloatValue)

  datatype ContinuousMove = ContinuousMove(supported: bool, command: Option<string>, speed: FloatValue)

  datatype FocusMoveConfig = FocusMoveConfig(
    absolute: StepMove, relative: StepMove, continuous: ContinuousMove, stop: Option<string>)

  /** focus_move_capable */
  predicate FocusMoveCapable(c: FocusMoveConfig) {
    c.absolute.supported || c.relative.supported || c.continuous.supported
  }

  /** resolve_focus_speed: the requested speed, else the move's own
      configured speed, else the focus default speed, else 1.0. */
  function ResolveSpeed(requested: Option<real>, moveSpeed: FloatValue, defaultSpeed: FloatValue): (r: real)
    ensures requested.Some? ==> r == requested.value
    ensures requested.None? && moveSpeed.value.Some? ==> r == moveSpeed.value.value
    ensures requested.None? && moveSpeed.value.None? && defaultSpeed.value.Some? ==> r == defaultSpeed.value.value
    ensures requested.None? && moveSpeed.value.None? && defaultSpeed.value.None? ==> r == 1.0
  {
    if requested.Some? then requested.value
    else if moveSpeed.value.Some? then moveSpeed.value.value
    else if defaultSpeed.value.Some? then defaultSpeed.value.value
    else 1.0
  }

  // ---------------------------------------------------------------------
  // Backend commands

  /** A command to format: a focus template with two floats, or a preset
      template with token, name and type. */
  datatype Formatted =
    | FloatCommand(template: string, a: real, b: real)
    | PresetCommand(template: string, token: string, name: string, kind: string)

  /** snprintf's output before any cut: what the C library prints. */
  type Render = Formatted -> string

  const CommandBuffer: nat := 1024

  /** execute_formatted_command and execute_preset_command: no command for
      a missing or empty template, nor when the output would not fit
      command[1024]. */
  function Command(render: Render, f: Formatted): (r: Option<string>)
    ensures r.Some? ==> f.template != "" && r.value == render(f) && |r.value| < CommandBuffer
    ensures r.None? <==> f.template == "" || |render(f)| >= CommandBuffer
  {
    if f.template == "" then None
    else if |render(f)| >= CommandBuffer then None
    else Some(render(f))
  }

  // ---------------------------------------------------------------------
  // Presets

  datatype ImagingPreset = ImagingPreset(token: Option<string>, name: Option<string>, kind: Option<string>,
                                         command: Option<string>)

  predicate NonEmpty(s: Option<string>) {
    s.Some? && s.value != ""
  }

  /** The template execute_preset_command uses: the preset's own command
      before the source's cmd_apply_preset. */
  function PresetTemplate(p: ImagingPreset, applyPreset: Option<string>): (r: Option<string>)
    ensures NonEmpty(p.command) ==> r == p.command
    ensures !NonEmpty(p.command) && NonEmpty(applyPreset) ==> r == applyPreset
    ensures !NonEmpty(p.command) && !NonEmpty(applyPreset) ==> r.None?
  {
    if NonEmpty(p.command) then p.command
    else if NonEmpty(applyPreset) then applyPreset
    else None
  }

  /** The name shown and passed on: the preset's name, else its token. */
  function PresetName(p: ImagingPreset): string {
    if NonEmpty(p.name) then p.name.value else p.token.GetOr("")
  }

  /** The type shown and passed on: the preset's type, else "Custom". */
  function PresetKind(p: ImagingPreset): string {
    if NonEmpty(p.kind) then p.kind.value else "Custom"
  }

  /** find_preset: the first preset whose token equals the request's, case
      aside. */
  function PresetIndex(ps: seq<ImagingPreset>, token: string): (r: Option<nat>)
    ensures r.Some? ==> r.value < |ps| && ps[r.value].token.Some? && CaseEq(ps[r.value].token.value, token)
    ensures r.Some? ==> forall j :: 0 <= j < r.value ==> !(ps[j].token.Some? && CaseEq(ps[j].token.value, token))
    ensures r.None? ==> forall j :: 0 <= j < |ps| ==> !(ps[j].token.Some? && CaseEq(ps[j].token.value, token))
  {
    if ps == [] then None
    else if ps[0].token.Some? && CaseEq(ps[0].token.value, token) then Some(0)
    else
      var r := PresetIndex(ps[1..], token);
      assert forall j :: 1 <= j < |ps| ==> ps[j] == ps[1..][j - 1];
      if r.None? then None else Some(r.value + 1)
  }

  method FindPreset(ps: seq<ImagingPreset>, token: string) returns (idx: Option<nat>)
    ensures idx == PresetIndex(ps, token)
  {
    var i := 0;
    while i < |ps|
      invariant 0 <= i <= |ps|
      invariant PresetIndex(ps, token) == (var r := PresetIndex(ps[i..], token); if r.None? then None else Some(r.value + i))
    {
      if ps[i].token.Some? && CaseEq(ps[i].token.value, token) {
        return Some(i);
      }
      assert ps[i..][1..] == ps[i + 1..];
      i := i + 1;
    }
    return None;
  }

  /** The command a preset runs, with the template chosen by PresetTemplate. */
  function PresetCommandFor(render: Render, p: ImagingPreset, applyPreset: Option<string>): Option<string> {
    match PresetTemplate(p, applyPreset)
    case None => None
    case Some(t) => Command(render, PresetCommand(t, p.token.GetOr(""), PresetName(p), PresetKind(p)))
  }

  /** One preset in GetPresets and GetCurrentPreset replies. */
  function PresetElement(p: ImagingPreset): string
    requires p.token.Some?
  {
    "<timg:Preset token=\"" + p.token.value + "\" type=\"" + PresetKind(p) + "\">\n<tt:Name>"
    + PresetName(p) + "</tt:Name>\n</timg:Preset>\n"
  }

  // ---------------------------------------------------------------------
  // The per-source state

  datatype FocusState = FocusUnknown | FocusIdle | FocusMoving

  /** focus_move_status_to_string */
  function FocusStateText(s: FocusState): string {
    match s
    case FocusMoving => "MOVING"
    case FocusIdle => "IDLE"
    case FocusUnknown => "UNKNOWN"
  }

  datatype IrCutOutcome = IrCutAbsent | IrCutInvalid | IrCutUnsupported | IrCutApplied(command: Option<string>)

  datatype FocusOutcome = FocusNotSupported | FocusInvalid(reason: string) | FocusMoved(command: string)

  datatype PresetOutcome = PresetsUnsupported(detail: string) | PresetInvalid(detail: string) | PresetApplied(command: string)

  /** The checks of a focus move before the backend step: an outcome when
      one fails, else the two numbers the command gets. */
  datatype Checked = Refused(outcome: FocusOutcome) | Cleared(a: real, b: real)

  /** The checks of perform_absolute_focus_move and
      perform_relative_focus_move, with the reasons their faults give. */
  function StepChecks(m: StepMove, defaultSpeed: FloatValue, extent: Option<real>, speed: Option<real>,
                      missing: string, outside: string): (r: Checked)
    ensures r.Cleared? ==> m.supported && extent == Some(r.a) && InRange(m.extent, r.a) && InRange(m.speed, r.b)
    ensures r.Cleared? ==> r.b == ResolveSpeed(speed, m.speed, defaultSpeed)
    ensures !m.supported ==> r == Refused(FocusNotSupported)
  {
    if !m.supported then Refused(FocusNotSupported)
    else if extent.None? then Refused(FocusInvalid(missing))
    else if !InRange(m.extent, extent.value) then Refused(FocusInvalid(outside))
    else if speed.Some? && !InRange(m.speed, speed.value) then Refused(FocusInvalid("Speed out of range"))
    else
      var s := ResolveSpeed(speed, m.speed, defaultSpeed);
      if !InRange(m.speed, s) then Refused(FocusInvalid("Speed unavailable"))
      else Cleared(extent.value, s)
  }

  function ContinuousChecks(m: ContinuousMove, speed: Option<real>): (r: Checked)
    ensures r.Cleared? ==> m.supported && speed == Some(r.a) && InRange(m.speed, r.a) && r.b == 0.0
  {
    if !m.supported then Refused(FocusNotSupported)
    else if speed.None? then Refused(FocusInvalid("Missing focus speed"))
    else if !InRange(m.speed, speed.value) then Refused(FocusInvalid("Speed out of range"))
    else Cleared(speed.value, 0.0)
  }

  /** imaging_entry_t: configuration (const) and the state requests
      change (var). */
  class ImagingEntry {
    const videoSourceToken: Option<string>
    const supportsOn: bool
    const supportsOff: bool
    const supportsAuto: bool
    const cmdOn: Option<string>
    const cmdOff: Option<string>
    const cmdAuto: Option<string>
    const focusMove: FocusMoveConfig
    const defaultSpeed: FloatValue
    const presets: seq<ImagingPreset>
    const applyPreset: Option<string>
    var ircutMode: IrCutMode
    var focusState: FocusState
    /** focus_has_last_position with focus_last_position */
    var lastPosition: Option<real>
    var currentPreset: Option<string>

    constructor (videoSourceToken: Option<string>, supportsOn: bool, supportsOff: bool, supportsAuto: bool,
                 cmdOn: Option<string>, cmdOff: Option<string>, cmdAuto: Option<string>,
                 focusMove: FocusMoveConfig, defaultSpeed: FloatValue, presets: seq<ImagingPreset>,
                 applyPreset: Option<string>, ircutMode: IrCutMode, currentPreset: Option<string>)
      ensures this.videoSourceToken == videoSourceToken && this.presets == presets && this.focusMove == focusMove
      ensures this.supportsOn == supportsOn && this.supportsOff == supportsOff && this.supportsAuto == supportsAuto
      ensures this.cmdOn == cmdOn && this.cmdOff == cmdOff && this.cmdAuto == cmdAuto
      ensures this.defaultSpeed == defaultSpeed && this.applyPreset == applyPreset
      ensures this.ircutMode == ircutMode && this.currentPreset == currentPreset
      ensures focusState == FocusUnknown && lastPosition.None?
    {
      this.videoSourceToken := videoSourceToken;
      this.supportsOn := supportsOn;
      this.supportsOff := supportsOff;
      this.supportsAuto := supportsAuto;
      this.cmdOn := cmdOn;
      this.cmdOff := cmdOff;
      this.cmdAuto := cmdAuto;
      this.focusMove := focusMove;
      this.defaultSpeed := defaultSpeed;
      this.presets := presets;
      this.applyPreset := applyPreset;
      this.ircutMode := ircutMode;
      this.currentPreset := currentPreset;
      focusState := FocusUnknown;
      lastPosition := None;
    }

    predicate Supports(m: IrCutMode) {
      match m
      case On => supportsOn
      case Off => supportsOff
      case Auto => supportsAuto
      case Unspecified => false
    }

    function IrCutCommand(m: IrCutMode): Option<string> {
      match m
      case On => cmdOn
      case Off => cmdOff
      case Auto => cmdAuto
      case Unspecified => None
    }

    /** The IR-cut part of imaging_set_imaging_settings: an unknown or
        unsupported mode is refused with nothing changed; the command
        runs and the mode changes only for a mode other than the current. */
    method SetIrCut(ircut: Option<string>) returns (r: IrCutOutcome)
      modifies this
      ensures focusState == old(focusState) && lastPosition == old(lastPosition) && currentPreset == old(currentPreset)
      ensures ircut.None? ==> r == IrCutAbsent
      ensures ircut.Some? && IrCutParse(ircut) == Unspecified ==> r == IrCutInvalid
      ensures ircut.Some? && IrCutParse(ircut) != Unspecified && !Supports(IrCutParse(ircut)) ==> r == IrCutUnsupported
      ensures r.IrCutApplied? <==> ircut.Some? && Supports(IrCutParse(ircut))
      ensures r.IrCutApplied? ==> (ircutMode == IrCutParse(ircut)
        && r.command == (if IrCutParse(ircut) != old(ircutMode) then IrCutCommand(IrCutParse(ircut)) else None))
      ensures !r.IrCutApplied? ==> ircutMode == old(ircutMode)
    {
      if ircut.None? {
        return IrCutAbsent;
      }
      var requested := IrCutParse(ircut);
      if requested == Unspecified {
        return IrCutInvalid;
      }
      if !Supports(requested) {
        return IrCutUnsupported;
      }
      var command := None;
      if requested != ircutMode {
        command := IrCutCommand(requested);
        ircutMode := requested;
      }
      return IrCutApplied(command);
    }

    /** perform_absolute_focus_move: once the checks pass, the state is
        MOVING while the command is built and IDLE afterwards, whatever the
        outcome; a move that ran records the requested position. */
    method MoveAbsolute(position: Option<real>, speed: Option<real>, render: Render) returns (r: FocusOutcome)
      modifies this
      ensures ircutMode == old(ircutMode) && currentPreset == old(currentPreset)
      ensures var c := StepChecks(focusMove.absolute, defaultSpeed, position, speed,
                                  "Missing focus position", "Position out of range");
        if c.Refused? then r == c.outcome && focusState == old(focusState) && lastPosition == old(lastPosition)
        else
          var cmd := Command(render, FloatCommand(focusMove.absolute.command.GetOr(""), c.a, c.b));
          focusState == FocusIdle
          && (cmd.Some? ==> r == FocusMoved(cmd.value) && lastPosition == Some(c.a))
          && (cmd.None? ==> r == FocusInvalid("Focus command failed") && lastPosition == old(lastPosition))
    {
      var c := StepChecks(focusMove.absolute, defaultSpeed, position, speed,
                          "Missing focus position", "Position out of range");
      if c.Refused? {
        return c.outcome;
      }
      focusState := FocusMoving;
      var cmd := Command(render, FloatCommand(focusMove.absolute.command.GetOr(""), c.a, c.b));
      if cmd.None? {
        focusState := FocusIdle;
        return FocusInvalid("Focus command failed");
      }
      focusState := FocusIdle;
      lastPosition := Some(c.a);
      return FocusMoved(cmd.value);
    }

    /** perform_relative_focus_move: as the absolute move, but a move that
        ran adds the distance to the recorded position (or records the
        distance when there is none). */
    method MoveRelative(distance: Option<real>, speed: Option<real>, render: Render) returns (r: FocusOutcome)
      modifies this
      ensures ircutMode == old(ircutMode) && currentPreset == old(currentPreset)
      ensures var c := StepChecks(focusMove.relative, defaultSpeed, distance, speed,
                                  "Missing focus distance", "Distance out of range");
        if c.Refused? then r == c.outcome && focusState == old(focusState) && lastPosition == old(lastPosition)
        else
          var cmd := Command(render, FloatCommand(focusMove.relative.command.GetOr(""), c.a, c.b));
          focusState == FocusIdle
          && (cmd.Some? ==> (r == FocusMoved(cmd.value)
               && lastPosition == Some(if old(lastPosition).Some? then old(lastPosition).value + c.a else c.a)))
          && (cmd.None? ==> r == FocusInvalid("Focus command failed") && lastPosition == old(lastPosition))
    {
      var c := StepChecks(focusMove.relative, defaultSpeed, distance, speed,
                          "Missing focus distance", "Distance out of range");
      if c.Refused? {
        return c.outcome;
      }
      focusState := FocusMoving;
      var cmd := Command(render, FloatCommand(focusMove.relative.command.GetOr(""), c.a, c.b));
      if cmd.None? {
        focusState := FocusIdle;
        return FocusInvalid("Focus command failed");
      }
      focusState := FocusIdle;
      lastPosition := Some(if lastPosition.Some? then lastPosition.value + c.a else c.a);
      return FocusMoved(cmd.value);
    }

    /** perform_continuous_focus_move: the position is not touched. */
    method MoveContinuous(speed: Option<real>, render: Render) returns (r: FocusOutcome)
      modifies this
      ensures ircutMode == old(ircutMode) && currentPreset == old(currentPreset) && lastPosition == old(lastPosition)
      ensures var c := ContinuousChecks(focusMove.continuous, speed);
        if c.Refused? then r == c.outcome && focusState == old(focusState)
        else
          var cmd := Command(render, FloatCommand(focusMove.continuous.command.GetOr(""), c.a, 0.0));
          focusState == FocusIdle
          && (cmd.Some? ==> r == FocusMoved(cmd.value))
          && (cmd.None? ==> r == FocusInvalid("Focus command failed"))
    {
      var c := ContinuousChecks(focusMove.continuous, speed);
      if c.Refused? {
        return c.outcome;
      }
      focusState := FocusMoving;
      var cmd := Command(render, FloatCommand(focusMove.continuous.command.GetOr(""), c.a, 0.0));
      focusState := FocusIdle;
      if cmd.None? {
        return FocusInvalid("Focus command failed");
      }
      return FocusMoved(cmd.value);
    }

    /** imaging_stop after the source lookup: the stop command runs and the
        focus is IDLE; without a stop command nothing changes. */
    method StopFocus() returns (command: Option<string>)
      modifies this
      ensures ircutMode == old(ircutMode) && currentPreset == old(currentPreset) && lastPosition == old(lastPosition)
      ensures command.Some? <==> NonEmpty(focusMove.stop)
      ensures command.Some? ==> command == focusMove.stop && focusState == FocusIdle
      ensures command.None? ==> focusState == old(focusState)
    {
      if !NonEmpty(focusMove.stop) {
        return None;
      }
      focusState := FocusIdle;
      return focusMove.stop;
    }

    /** imaging_set_current_preset after the source lookup: the current
        preset changes only once its command has been built and run. */
    method SetCurrentPreset(token: Option<string>, render: Render) returns (r: PresetOutcome)
      modifies this
      ensures ircutMode == old(ircutMode) && focusState == old(focusState) && lastPosition == old(lastPosition)
      ensures presets == [] ==> r == PresetsUnsupported("This video source does not define imaging presets")
      ensures presets != [] && !NonEmpty(token) ==> r == PresetInvalid("PresetToken element is required")
      ensures presets != [] && NonEmpty(token) && PresetIndex(presets, token.value).None? ==>
        r == PresetInvalid("Requested Imaging Preset token is not available for this source")
      ensures (presets != [] && NonEmpty(token) && PresetIndex(presets, token.value).Some?
        && PresetCommandFor(render, presets[PresetIndex(presets, token.value).value], applyPreset).None?) ==>
        r == PresetsUnsupported("Failed to execute backend command for the requested preset")
      ensures r.PresetApplied? <==> (presets != [] && NonEmpty(token) && PresetIndex(presets, token.value).Some?
        && PresetCommandFor(render, presets[PresetIndex(presets, token.value).value], applyPreset).Some?)
      ensures r.PresetApplied? ==>
        var p := presets[PresetIndex(presets, token.value).value];
        Some(r.command) == PresetCommandFor(render, p, applyPreset) && currentPreset == p.token
      ensures !r.PresetApplied? ==> currentPreset == old(currentPreset)
    {
      if presets == [] {
        return PresetsUnsupported("This video source does not define imaging presets");
      }
      if !NonEmpty(token) {
        return PresetInvalid("PresetToken element is required");
      }
      var idx := FindPreset(presets, token.value);
      if idx.None? {
        return PresetInvalid("Requested Imaging Preset token is not available for this source");
      }
      var p := presets[idx.value];
      var cmd := PresetCommandFor(render, p, applyPreset);
      if cmd.None? {
        return PresetsUnsupported("Failed to execute backend command for the requested preset");
      }
      currentPreset := p.token;
      return PresetApplied(cmd.value);
    }

    /** The status build_focus_status_xml reports: an unknown state shows
        as IDLE. */
    function ShownState(): (r: FocusState)
      reads this
      ensures r != FocusUnknown
      ensures focusState != FocusUnknown ==> r == focusState
    {
      if focusState == FocusUnknown then FocusIdle else focusState
    }

    function FocusStatusPieces(floatText: real -> string): seq<string>
      reads this
    {
      ["<tt:FocusStatus20>\n",
       "<tt:Position>" + floatText(lastPosition.GetOr(0.0)) + "</tt:Position>\n",
       "<tt:MoveStatus>" + FocusStateText(ShownState()) + "</tt:MoveStatus>\n",
       "</tt:FocusStatus20>\n"]
    }
  }

  /** The reply buffer of the imaging getters. */
  const XmlBuffer: nat := 16384

  /** build_focus_status_xml into status_xml[16384]: the four lines, cut to
      the buffer; `floatText` is printf's "%.6f". */
  method FocusStatusXml(entry: ImagingEntry, floatText: real -> string) returns (xml: string)
    ensures xml == Truncate(Concat(entry.FocusStatusPieces(floatText)), XmlBuffer - 1)
  {
    xml := Build(XmlBuffer, entry.FocusStatusPieces(floatText));
  }

  /** The elements of the presets that have a token, in order. */
  function PresetPieces(ps: seq<ImagingPreset>): (r: seq<string>)
    ensures |r| <= |ps|
  {
    if ps == [] then []
    else
      var last := ps[|ps| - 1];
      PresetPieces(ps[..|ps| - 1]) + (if last.token.Some? then [PresetElement(last)] else [])
  }

  /** build_imaging_presets_xml: one element per preset with a token, in
      order, cut to the buffer. */
  method PresetsXml(ps: seq<ImagingPreset>) returns (xml: string)
    ensures xml == Truncate(Concat(PresetPieces(ps)), XmlBuffer - 1)
  {
    xml := Build(XmlBuffer, PresetPieces(ps));
  }

  // ---------------------------------------------------------------------
  // Move

  datatype StepRequest = StepRequest(extent: Option<real>, speed: Option<real>)

  /** The Focus element of a Move request and its three possible children. */
  datatype FocusRequest = FocusRequest(absolute: Option<StepRequest>, relative: Option<StepRequest>,
                                       continuous: Option<Option<real>>)

  function Present(f: FocusRequest): nat {
    (if f.absolute.Some? then 1 else 0) + (if f.relative.Some? then 1 else 0) + (if f.continuous.Some? then 1 else 0)
  }

  /** What a focus move reports once its checks are known: the refusal,
      or the command built from the template, or the failure to build it. */
  function StepOutcome(c: Checked, template: string, render: Render): (r: FocusOutcome)
    ensures c.Refused? ==> r == c.outcome
    ensures c.Cleared? ==> (r.FocusMoved? <==> Command(render, FloatCommand(template, c.a, c.b)).Some?)
  {
    if c.Refused? then c.outcome
    else match Command(render, FloatCommand(template, c.a, c.b))
      case None => FocusInvalid("Focus command failed")
      case Some(cmd) => FocusMoved(cmd)
  }

  /** The outcome of the one move a Focus element asks for: Absolute, else
      Relative, else Continuous. */
  function RequestedMove(m: FocusMoveConfig, defaultSpeed: FloatValue, f: FocusRequest, render: Render): FocusOutcome {
    if f.absolute.Some? then
      StepOutcome(StepChecks(m.absolute, defaultSpeed, f.absolute.value.extent, f.absolute.value.speed,
                             "Missing focus position", "Position out of range"),
                  m.absolute.command.GetOr(""), render)
    else if f.relative.Some? then
      StepOutcome(StepChecks(m.relative, defaultSpeed, f.relative.value.extent, f.relative.value.speed,
                             "Missing focus distance", "Distance out of range"),
                  m.relative.command.GetOr(""), render)
    else if f.continuous.Some? then
      StepOutcome(ContinuousChecks(m.continuous, f.continuous.value), m.continuous.command.GetOr(""), render)
    else FocusInvalid("Invalid focus move")
  }

  datatype MoveOutcome = NoImaging | NoSource | MoveNotCapable | MissingFocus | NotExactlyOne | Focus(outcome: FocusOutcome)

  /** imaging_move: the checks in order, then the one move requested. */
  method Move(entries: seq<ImagingEntry>, token: Option<string>, focus: Option<FocusRequest>, render: Render)
    returns (r: MoveOutcome)
    modifies set i | 0 <= i < |entries| :: entries[i]
    ensures |entries| == 0 ==> r == NoImaging
    ensures |entries| > 0 && EntryIndex(SourceTokens(entries), token).None? ==> r == NoSource
    ensures r.Focus? ==> (EntryIndex(SourceTokens(entries), token).Some? && focus.Some? && Present(focus.value) == 1
      && FocusMoveCapable(entries[EntryIndex(SourceTokens(entries), token).value].focusMove))
    ensures (EntryIndex(SourceTokens(entries), token).Some?
      && !FocusMoveCapable(entries[EntryIndex(SourceTokens(entries), token).value].focusMove)) ==> r == MoveNotCapable
    ensures (EntryIndex(SourceTokens(entries), token).Some?
      && FocusMoveCapable(entries[EntryIndex(SourceTokens(entries), token).value].focusMove)
      && focus.None?) ==> r == MissingFocus
    ensures (|entries| > 0 && EntryIndex(SourceTokens(entries), token).Some?
      && FocusMoveCapable(entries[EntryIndex(SourceTokens(entries), token).value].focusMove)
      && focus.Some? && Present(focus.value) != 1) ==> r == NotExactlyOne
    ensures (EntryIndex(SourceTokens(entries), token).Some?
      && FocusMoveCapable(entries[EntryIndex(SourceTokens(entries), token).value].focusMove)
      && focus.Some? && Present(focus.value) == 1) ==> r.Focus?
    ensures r.Focus? ==>
      var e, f := entries[EntryIndex(SourceTokens(entries), token).value], focus.value;
      r.outcome == RequestedMove(e.focusMove, e.defaultSpeed, f, render)
    ensures !r.Focus? ==> forall i :: 0 <= i < |entries| ==> unchanged(entries[i])
    ensures r.Focus? ==>
      var e := entries[EntryIndex(SourceTokens(entries), token).value];
      e.ircutMode == old(e.ircutMode) && e.currentPreset == old(e.currentPreset)
      && forall i :: 0 <= i < |entries| && entries[i] != e ==> unchanged(entries[i])
  {
    if |entries| == 0 {
      return NoImaging;
    }
    var idx := FindImagingEntry(entries, token);
    if idx.None? {
      return NoSource;
    }
    var entry := entries[idx.value];
    if !FocusMoveCapable(entry.focusMove) {
      return MoveNotCapable;
    }
    if focus.None? {
      return MissingFocus;
    }
    var f := focus.value;
    if Present(f) != 1 {
      return NotExactlyOne;
    }
    var outcome;
    if f.absolute.Some? {
      outcome := entry.MoveAbsolute(f.absolute.value.extent, f.absolute.value.speed, render);
    } else if f.relative.Some? {
      outcome := entry.MoveRelative(f.relative.value.extent, f.relative.value.speed, render);
    } else {
      outcome := entry.MoveContinuous(f.continuous.value, render);
    }
    return Focus(outcome);
  }
}
