/** The decision logic of deviceio_service.c: the service capability
    counts, the relay token a client sees and the one it must send back,
    and the command a SetRelayOutputState request runs. */
module DeviceIo {
  import opened Wrappers
  import opened CString
  import opened ServiceContext
  import Media2

  const RelayPrefix := "RelayOutputToken_"

  /** sprintf(token, "RelayOutputToken_%d", i) */
  function DefaultRelayToken(i: nat): (r: string)
    ensures |r| == 17 + |NatToDecimal(i)| && r[..17] == RelayPrefix && r[17..] == NatToDecimal(i)
  {
    RelayPrefix + NatToDecimal(i)
  }

  // ---------------------------------------------------------------------
  // GetServiceCapabilities

  /** The three numbers of the capabilities template, with the relay count
      as the text "%d" prints. */
  datatype Counts = Counts(relayOutputs: string, audioSources: nat, audioOutputs: nat)

  /** One audio source when profile 0, or profile 1 of exactly two, has an
      audio encoder; one audio output when output is enabled. The C reads
      profile 0 without looking at the count. */
  function ServiceCapabilities(relayCount: nat, ps: seq<Profile>, outputEnabled: bool): (r: Counts)
    requires |ps| >= 1
    ensures forall i :: 0 <= i < |r.relayOutputs| ==> IsDigit(r.relayOutputs[i])
    ensures DigitsValue(r.relayOutputs) == relayCount
    ensures r.audioSources <= 1 && (r.audioSources == 1 <==> Media2.AudioEncoderOffered(ps))
    ensures r.audioOutputs <= 1 && (r.audioOutputs == 1 <==> outputEnabled)
  {
    DigitsValueOfDecimal(relayCount);
    Counts(NatToDecimal(relayCount),
           if ps[0].encoder != AudioNone || (|ps| == 2 && ps[1].encoder != AudioNone) then 1 else 0,
           if outputEnabled then 1 else 0)
  }

  /** The relay count goes into a two-byte buffer: its text and the NUL fit
      exactly when there are fewer than ten relays. */
  lemma {:induction false} RelayCountFits(n: nat)
    ensures |NatToDecimal(n)| + 1 <= 2 <==> n < 10
  {
    if n >= 10 {
      assert |NatToDecimal(n)| == |NatToDecimal(n / 10)| + 1;
    }
  }

  // ---------------------------------------------------------------------
  // The fixed token form of GetRelayOutputOptions and SetRelayOutputSettings

  /** Eighteen characters, the first seventeen the prefix in any case. */
  predicate WellFormed(token: string) {
    |token| == 18 && CaseEq(token[..17], RelayPrefix)
  }

  /** itoken = token[17] - 48 */
  function TokenDigit(token: string): int
    requires WellFormed(token)
  {
    token[17] as int - '0' as int
  }

  /** The relay a well-formed token names, when its last character lands
      on a relay. */
  function FormIndex(token: string, count: int): (r: Option<nat>)
    ensures r.Some? <==> WellFormed(token) && 0 <= TokenDigit(token) < count
    ensures r.Some? ==> r.value as int == TokenDigit(token) && r.value < count
  {
    if WellFormed(token) && 0 <= TokenDigit(token) < count then Some(TokenDigit(token) as nat) else None
  }

  /** The listed token of each of the first ten relays is accepted and
      names that relay; so is every case variant of its prefix. */
  lemma DefaultTokenAccepted(i: nat, count: int, token: string)
    requires i < 10 && i < count
    requires |token| == 18 && CaseEq(token[..17], RelayPrefix) && token[17..] == NatToDecimal(i)
    ensures FormIndex(token, count) == Some(i)
    ensures FormIndex(DefaultRelayToken(i), count) == Some(i)
  {
    assert NatToDecimal(i) == [DigitChar(i)];
    assert token[17] == token[17..][0];
  }

  /** A token the form check accepts whose last character is a digit names
      a relay below ten, and is its listed token up to case. */
  lemma FormIndexIsDefault(token: string, count: int)
    requires FormIndex(token, count).Some? && IsDigit(token[17])
    ensures FormIndex(token, count).value < 10
    ensures CaseEq(token, DefaultRelayToken(FormIndex(token, count).value))
  {
    var k := FormIndex(token, count).value;
    var d := DefaultRelayToken(k);
    assert NatToDecimal(k) == [DigitChar(k)];
    assert d[17] == token[17];
    assert forall j :: 0 <= j < 17 ==> d[j] == RelayPrefix[j] && token[j] == token[..17][j];
  }

  /** The listed token of relay ten or later is never accepted: it is
      longer than eighteen characters. */
  lemma {:induction false} ListedTokenRejected(i: nat, count: int)
    requires i >= 10
    ensures FormIndex(DefaultRelayToken(i), count).None?
  {
    assert |NatToDecimal(i)| == |NatToDecimal(i / 10)| + 1;
  }

  /** With more than ten relays, relay ten is reached by the token ending
      in ':', the character after '9'. */
  lemma ColonNamesTen(count: int)
    requires count > 10
    ensures FormIndex("RelayOutputToken_:", count) == Some(10)
  {
    assert "RelayOutputToken_:"[..17] == RelayPrefix;
  }

  /** The token check as evidently intended: the prefix in any case, then
      the decimal text of a relay index. */
  function TokenIndex(token: string, count: int): (r: Option<nat>)
    ensures r.Some? ==> r.value < count && |token| > 17 && CaseEq(token[..17], RelayPrefix)
  {
    if |token| > 17 && CaseEq(token[..17], RelayPrefix) && token[17..] != []
       && (forall i :: 17 <= i < |token| ==> IsDigit(token[i]))
       && (token[17] != '0' || |token| == 18)
    then
      var rest := token[17..];
      assert forall i :: 0 <= i < |rest| ==> IsDigit(rest[i]) by {
        forall i | 0 <= i < |rest| ensures IsDigit(rest[i]) {
          assert rest[i] == token[17 + i];
        }
      }
      var k := DigitsValue(rest);
      if k < count then Some(k) else None
    else None
  }

  /** Every listed token names its own relay under the intended check. */
  lemma ListedTokenIndexed(i: nat, count: int)
    requires i < count
    ensures TokenIndex(DefaultRelayToken(i), count) == Some(i)
  {
    var t := DefaultRelayToken(i);
    DigitsValueOfDecimal(i);
    assert forall j :: 17 <= j < |t| ==> t[j] == NatToDecimal(i)[j - 17];
    if i == 0 {
      assert NatToDecimal(0) == "0";
    }
  }

  /** The intended check agrees with the written one on every listed token
      below ten. */
  lemma TokenIndexAgrees(i: nat, count: int)
    requires i < 10 && i < count
    ensures FormIndex(DefaultRelayToken(i), count) == TokenIndex(DefaultRelayToken(i), count) == Some(i)
  {
    DefaultTokenAccepted(i, count, DefaultRelayToken(i));
    ListedTokenIndexed(i, count);
  }

  // ---------------------------------------------------------------------
  // GetRelayOutputOptions and SetRelayOutputSettings

  /** The tokens GetRelayOutputOptions lists: every relay's when the
      request names none, otherwise the one a well-formed token names, or
      none. */
  function RelayOutputOptions(token: Option<string>, count: nat): (r: seq<string>)
    ensures token.None? ==> |r| == count && forall i :: 0 <= i < count ==> r[i] == DefaultRelayToken(i)
    ensures token.Some? ==> |r| <= 1
    ensures token.Some? && r != [] ==> FormIndex(token.value, count).Some? && r == [DefaultRelayToken(FormIndex(token.value, count).value)]
    ensures token.Some? && r == [] ==> FormIndex(token.value, count).None?
  {
    match token
    case None => seq(count, i requires 0 <= i => DefaultRelayToken(i))
    case Some(t) =>
      match FormIndex(t, count)
      case None => []
      case Some(k) => [DefaultRelayToken(k)]
  }

  /** The answer of SetRelayOutputSettings: the template, or the relay
      token fault with return code -1 (index out of range) or -2 (no token,
      or not in the fixed form). */
  datatype SettingsReply = SettingsAccepted | SettingsFault(code: int)

  function RelayOutputSettings(token: Option<string>, count: nat): (r: SettingsReply)
    ensures r.SettingsAccepted? <==> token.Some? && FormIndex(token.value, count).Some?
    ensures r == SettingsFault(-1) <==> token.Some? && WellFormed(token.value) && !(0 <= TokenDigit(token.value) < count)
    ensures r == SettingsFault(-2) <==> token.None? || !WellFormed(token.value)
  {
    if token.Some? && WellFormed(token.value) then
      if 0 <= TokenDigit(token.value) < count then SettingsAccepted else SettingsFault(-1)
    else SettingsFault(-2)
  }

  /** Options and Settings accept the same tokens. */
  lemma OptionsAndSettingsAgree(token: string, count: nat)
    ensures RelayOutputOptions(Some(token), count) != [] <==> RelayOutputSettings(Some(token), count).SettingsAccepted?
  {
  }

  // ---------------------------------------------------------------------
  // GetRelayOutputs

  /** The token relay i is known by: its own token when it has a non-empty
      one, otherwise the default. */
  function RelayToken(r: Relay, i: nat): (t: string)
    ensures r.token.Some? && r.token.value != [] ==> t == r.token.value
    ensures (r.token.None? || r.token.value == []) ==> t == DefaultRelayToken(i)
  {
    if r.token.Some? && r.token.value != [] then r.token.value else DefaultRelayToken(i)
  }

  function IdleText(s: IdleState): string {
    if s == IdleOpen then "open" else "close"
  }

  /** One GetRelayOutputs item: the token, cut to the 31 characters of its
      buffer, and the idle state. */
  datatype RelayItem = RelayItem(token: string, idleState: string)

  function RelayOutputs(relays: seq<Relay>): (r: seq<RelayItem>)
    ensures |r| == |relays|
    ensures forall i :: 0 <= i < |r| ==> r[i].token == Truncate(RelayToken(relays[i], i), 31)
    ensures forall i :: 0 <= i < |r| ==> (r[i].idleState == "open" <==> relays[i].idleState == IdleOpen)
    ensures forall i :: 0 <= i < |r| ==> (r[i].idleState == "close" <==> relays[i].idleState == IdleClose)
  {
    seq(|relays|, i requires 0 <= i < |relays| =>
      RelayItem(Truncate(RelayToken(relays[i], i), 31), IdleText(relays[i].idleState)))
  }

  // ---------------------------------------------------------------------
  // SetRelayOutputState

  /** The first relay, from `from` on, known by exactly this token. */
  function LookupFrom(relays: seq<Relay>, token: string, from: nat): (r: Option<nat>)
    requires from <= |relays|
    decreases |relays| - from
    ensures r.Some? ==> from <= r.value < |relays| && RelayToken(relays[r.value], r.value) == token
    ensures r.Some? ==> forall j :: from <= j < r.value ==> RelayToken(relays[j], j) != token
    ensures r.None? <==> forall j :: from <= j < |relays| ==> RelayToken(relays[j], j) != token
  {
    if from == |relays| then None
    else if RelayToken(relays[from], from) == token then Some(from)
    else LookupFrom(relays, token, from + 1)
  }

  function Lookup(relays: seq<Relay>, token: string): (r: Option<nat>)
    ensures r.Some? ==> r.value < |relays| && RelayToken(relays[r.value], r.value) == token
    ensures r.Some? ==> forall j :: 0 <= j < r.value ==> RelayToken(relays[j], j) != token
    ensures r.None? <==> forall j :: 0 <= j < |relays| ==> RelayToken(relays[j], j) != token
  {
    LookupFrom(relays, token, 0)
  }

  /** The loop that sets itoken: the first relay whose token is the
      requested one, or -1. */
  method FindRelay(relays: seq<Relay>, token: string) returns (itoken: int)
    ensures itoken == (if Lookup(relays, token).Some? then Lookup(relays, token).value as int else -1)
  {
    itoken := -1;
    var i := 0;
    while i < |relays|
      invariant 0 <= i <= |relays|
      invariant forall j :: 0 <= j < i ==> RelayToken(relays[j], j) != token
    {
      var matches: bool;
      if relays[i].token.Some? && relays[i].token.value != [] {
        matches := token == relays[i].token.value;
      } else {
        var defaultToken := DefaultRelayToken(i);
        matches := token == defaultToken;
      }
      if matches {
        itoken := i;
        break;
      }
      i := i + 1;
    }
  }

  /** A listed token switches the relay it was listed for, when no earlier
      relay is known by the same token and the token was not cut. */
  lemma ListedTokenSwitches(relays: seq<Relay>, i: nat)
    requires i < |relays| && |RelayToken(relays[i], i)| <= 31
    requires forall j :: 0 <= j < i ==> RelayToken(relays[j], j) != RelayToken(relays[i], i)
    ensures Lookup(relays, RelayOutputs(relays)[i].token) == Some(i)
  {
  }

  /** A custom token longer than the 31 characters GetRelayOutputs shows is
      listed in a form SetRelayOutputState does not know, unless another
      relay happens to be known by that form. */
  lemma LongTokenNotSwitchable(relays: seq<Relay>, i: nat)
    requires i < |relays| && |RelayToken(relays[i], i)| > 31
    ensures Lookup(relays, RelayOutputs(relays)[i].token) != Some(i)
  {
  }

  /** The command for a relay being driven into a state. */
  function StateCommand(r: Relay, s: IdleState): Option<string> {
    if s == IdleOpen then r.open else r.close
  }

  function Opposite(s: IdleState): IdleState {
    if s == IdleOpen then IdleClose else IdleOpen
  }

  /** "active" (in any case) drives the relay away from its idle state;
      any other logical state drives it into its idle state. */
  function ChosenCommand(r: Relay, state: string): (c: Option<string>)
    ensures CaseEq("active", state) ==> c == StateCommand(r, Opposite(r.idleState))
    ensures !CaseEq("active", state) ==> c == StateCommand(r, r.idleState)
  {
    if CaseEq("active", state) then
      (if r.idleState == IdleOpen then r.close else r.open)
    else
      (if r.idleState == IdleOpen then r.open else r.close)
  }

  /** The active and the inactive command are the relay's two distinct
      state commands. */
  lemma ActiveAndInactiveDiffer(r: Relay, active: string, other: string)
    requires CaseEq("active", active) && !CaseEq("active", other)
    ensures {StateCommand(r, IdleOpen), StateCommand(r, IdleClose)} == {ChosenCommand(r, active), ChosenCommand(r, other)}
  {
  }

  /** The outcome of SetRelayOutputState. Return code -1 is a missing token
      and -2 an unknown one. A missing LogicalState (strcasecmp of NULL) or
      a missing command (sprintf with a NULL format) is undefined in C. */
  datatype StateReply =
    | MissingToken
    | UnknownToken
    | StateUndefined
    | StateSet(index: nat, command: string)

  /** The reply to a request and the relays as configured. */
  function StateReplyOf(relays: seq<Relay>, token: Option<string>, state: Option<string>): (r: StateReply)
    ensures r == MissingToken <==> token.None?
    ensures r == UnknownToken <==> token.Some? && forall j :: 0 <= j < |relays| ==> RelayToken(relays[j], j) != token.value
    ensures r.StateSet? ==> r.index < |relays| && token.Some? && state.Some?
                            && r.index == Lookup(relays, token.value).value
                            && ChosenCommand(relays[r.index], state.value) == Some(r.command)
    ensures token.Some? && Lookup(relays, token.value).Some? && state.Some?
            && ChosenCommand(relays[Lookup(relays, token.value).value], state.value).Some? ==>
              r == StateSet(Lookup(relays, token.value).value,
                            ChosenCommand(relays[Lookup(relays, token.value).value], state.value).value)
    ensures r == StateUndefined <==>
              token.Some? && Lookup(relays, token.value).Some?
              && (state.None? || ChosenCommand(relays[Lookup(relays, token.value).value], state.value).None?)
  {
    if token.None? then MissingToken
    else match Lookup(relays, token.value)
      case None => UnknownToken
      case Some(i) =>
        if state.None? then StateUndefined
        else match ChosenCommand(relays[i], state.value)
          case None => StateUndefined
          case Some(c) => StateSet(i, c)
  }

  /** The shell command run: the chosen one, unless it is empty. */
  function Executed(r: StateReply): (c: Option<string>)
    ensures c.Some? <==> r.StateSet? && r.command != []
    ensures c.Some? ==> c.value == r.command
  {
    if r.StateSet? && r.command != [] then Some(r.command) else None
  }

  /** deviceio_set_relay_output_state: the lookup loop, then the choice of
      command; the reply is the one StateReplyOf describes. */
  method SetRelayOutputState(relays: seq<Relay>, token: Option<string>, state: Option<string>)
    returns (reply: StateReply, run: Option<string>)
    ensures reply == StateReplyOf(relays, token, state)
    ensures run == Executed(reply)
  {
    if token.None? {
      return MissingToken, None;
    }
    var itoken := FindRelay(relays, token.value);
    if itoken < 0 || itoken >= |relays| {
      return UnknownToken, None;
    }
    if state.None? {
      return StateUndefined, None;
    }
    var command := ChosenCommand(relays[itoken], state.value);
    if command.None? {
      return StateUndefined, None;
    }
    reply := StateSet(itoken, command.value);
    run := if command.value != [] then Some(command.value) else None;
  }
}
