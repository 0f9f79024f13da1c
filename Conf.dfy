/** The configuration loader of conf.c: the main JSON file, then the
    profiles, PTZ, relay and event files of the configuration directory,
    then one event per relay. cJSON values are a datatype; the files of
    the directory are a map from path to the JSON they parse to (a path
    that is absent could not be read or parsed). */
module Conf {
  import opened Wrappers
  import opened CString
  import opened ServiceContext
  import DeviceIo

  /** A cJSON value. A number carries both of cJSON's views of it,
      valueint and valuedouble. */
  datatype Json =
    | JNull
    | JFalse
    | JTrue
    | JNumber(valueint: int, valuedouble: real)
    | JString(text: string)
    | JArray(items: seq<Json>)
    | JObject(members: seq<Member>)

  datatype Member = Member(key: string, value: Json)

  // ---------------------------------------------------------------------
  // get_*_from_json

  /** The first member with exactly this name (cJSON_GetObjectItemCaseSensitive),
      when j is an object. */
  function Item(j: Json, name: string): (r: Option<Json>)
    ensures r.Some? ==> j.JObject? && exists i :: 0 <= i < |j.members| && j.members[i] == Member(name, r.value)
    ensures r.None? <==> !j.JObject? || forall i :: 0 <= i < |j.members| ==> j.members[i].key != name
  {
    if j.JObject? then MemberNamed(j.members, name) else None
  }

  function MemberNamed(ms: seq<Member>, name: string): (r: Option<Json>)
    ensures r.Some? ==> exists i :: 0 <= i < |ms| && ms[i] == Member(name, r.value)
    ensures r.None? <==> forall i :: 0 <= i < |ms| ==> ms[i].key != name
  {
    if ms == [] then None
    else if ms[0].key == name then Some(ms[0].value)
    else
      var r := MemberNamed(ms[1..], name);
      assert r.Some? ==> ms[1..][0] == ms[1];
      assert forall i :: 1 <= i < |ms| ==> ms[i] == ms[1..][i - 1];
      r
  }

  /** get_string_from_json: the string when the member is one, otherwise
      the variable as it was. */
  function GetString(j: Json, name: string, current: Option<string>): Option<string> {
    match Item(j, name)
    case Some(JString(s)) => Some(s)
    case _ => current
  }

  /** get_int_from_json: valueint when the member is a number, otherwise
      the variable as it was. */
  function GetInt(j: Json, name: string, current: int): int {
    match Item(j, name)
    case Some(JNumber(i, _)) => i
    case _ => current
  }

  /** get_double_from_json */
  function GetDouble(j: Json, name: string, current: real): real {
    match Item(j, name)
    case Some(JNumber(_, d)) => d
    case _ => current
  }

  /** get_bool_from_json: 1 when the member is true, 0 otherwise, whatever
      the variable held. */
  function GetBool(j: Json, name: string): (r: int)
    ensures r == 1 <==> Item(j, name) == Some(JTrue)
    ensures r == 0 <==> Item(j, name) != Some(JTrue)
  {
    if Item(j, name) == Some(JTrue) then 1 else 0
  }

  /** A member of the wrong kind, or none, leaves a string or number
      variable as it was, while a flag becomes 0; a member of the right
      kind replaces the value. */
  lemma Getters(j: Json, name: string, text: Option<string>, number: int, double: real)
    ensures Item(j, name).Some? && Item(j, name).value.JString? ==> GetString(j, name, text) == Some(Item(j, name).value.text)
    ensures !(Item(j, name).Some? && Item(j, name).value.JString?) ==> GetString(j, name, text) == text
    ensures Item(j, name).Some? && Item(j, name).value.JNumber? ==>
      GetInt(j, name, number) == Item(j, name).value.valueint && GetDouble(j, name, double) == Item(j, name).value.valuedouble
    ensures !(Item(j, name).Some? && Item(j, name).value.JNumber?) ==> GetInt(j, name, number) == number && GetDouble(j, name, double) == double
    ensures Item(j, name).None? ==> GetBool(j, name) == 0
  {
  }

  // ---------------------------------------------------------------------
  // Enumerations, matched with strcasecmp

  function VideoName(v: VideoCodec): string {
    match v
    case VideoNone => ""
    case Jpeg => "JPEG"
    case Mpeg4 => "MPEG4"
    case H264 => "H264"
    case H265 => "H265"
  }

  /** type: one of the four stream types in any case, otherwise the default. */
  function VideoFrom(text: Option<string>, default: VideoCodec): (r: VideoCodec)
    ensures text.Some? && r != default ==> r != VideoNone && CaseEq(text.value, VideoName(r))
    ensures text.None? ==> r == default
  {
    if text.None? then default
    else if CaseEq(text.value, "JPEG") then Jpeg
    else if CaseEq(text.value, "MPEG4") then Mpeg4
    else if CaseEq(text.value, "H264") then H264
    else if CaseEq(text.value, "H265") then H265
    else default
  }

  /** A recognised name selects its type whatever the default. */
  lemma VideoNamed(t: string, v: VideoCodec, default: VideoCodec)
    requires v != VideoNone && CaseEq(t, VideoName(v))
    ensures VideoFrom(Some(t), default) == v
  {
    if v != Jpeg {
      if v != Mpeg4 {
        CaseEqDiffer(VideoName(v), "JPEG", 0);
      }
      CaseEqTransitiveNot(t, VideoName(v), "JPEG");
    }
    if v == H264 || v == H265 {
      CaseEqTransitiveNot(t, VideoName(v), "MPEG4");
    }
    if v == H265 {
      CaseEqDiffer(VideoName(v), "H264", 3);
      CaseEqTransitiveNot(t, VideoName(v), "H264");
    }
  }

  /** Two names that differ under strcasecmp cannot both match a text. */
  lemma CaseEqDiffer(a: string, b: string, i: nat)
    requires i < |a| && i < |b| && LowerChar(a[i]) != LowerChar(b[i])
    ensures !CaseEq(a, b)
  {
  }

  lemma CaseEqTransitiveNot(t: string, a: string, b: string)
    requires CaseEq(t, a) && !CaseEq(a, b)
    ensures !CaseEq(t, b)
  {
    if CaseEq(t, b) {
      CaseEqSymmetric(t, a);
      CaseEqTransitive(a, t, b);
    }
  }

  function AudioName(a: AudioCodec): string {
    match a
    case AudioNone => "NONE"
    case G711 => "G711"
    case G726 => "G726"
    case Aac => "AAC"
  }

  /** audio_encoder and audio_decoder: NONE, G711, G726 or AAC in any case,
      otherwise the default. */
  function AudioFrom(text: Option<string>, default: AudioCodec): (r: AudioCodec)
    ensures text.Some? && r != default ==> CaseEq(text.value, AudioName(r))
    ensures text.None? ==> r == default
  {
    if text.None? then default
    else if CaseEq(text.value, "NONE") then AudioNone
    else if CaseEq(text.value, "G711") then G711
    else if CaseEq(text.value, "G726") then G726
    else if CaseEq(text.value, "AAC") then Aac
    else default
  }

  lemma AudioNamed(t: string, a: AudioCodec, default: AudioCodec)
    requires CaseEq(t, AudioName(a))
    ensures AudioFrom(Some(t), default) == a
  {
    if a != AudioNone {
      if a != Aac {
        CaseEqDiffer(AudioName(a), "NONE", 0);
      }
      CaseEqTransitiveNot(t, AudioName(a), "NONE");
    }
    if a == G726 || a == Aac {
      if a == G726 {
        CaseEqDiffer(AudioName(a), "G711", 2);
      }
      CaseEqTransitiveNot(t, AudioName(a), "G711");
    }
    if a == Aac {
      CaseEqTransitiveNot(t, AudioName(a), "G726");
    }
  }

  /** An unrecognised text keeps the default. */
  lemma UnknownNamesKeepDefault(t: string, v: VideoCodec, a: AudioCodec)
    requires forall w: VideoCodec :: w != VideoNone ==> !CaseEq(t, VideoName(w))
    requires forall b: AudioCodec :: !CaseEq(t, AudioName(b))
    ensures VideoFrom(Some(t), v) == v && AudioFrom(Some(t), a) == a
  {
  }

  // ---------------------------------------------------------------------
  // Entries of the directory files

  /** One profiles.json entry over its defaults: no name, 0x0, H264, AAC
      encoding and no decoding. */
  function ProfileFrom(item: Json): Profile {
    Profile(GetString(item, "name", None), GetInt(item, "width", 0), GetInt(item, "height", 0),
            GetString(item, "url", None), GetString(item, "snapurl", None),
            VideoFrom(GetString(item, "type", None), H264),
            AudioFrom(GetString(item, "audio_encoder", None), Aac),
            AudioFrom(GetString(item, "audio_decoder", None), AudioNone))
  }

  /** An entry with none of the keys is the default profile. */
  lemma DefaultProfile(item: Json)
    requires Item(item, "name").None? && Item(item, "width").None? && Item(item, "height").None?
    requires Item(item, "url").None? && Item(item, "snapurl").None? && Item(item, "type").None?
    requires Item(item, "audio_encoder").None? && Item(item, "audio_decoder").None?
    ensures ProfileFrom(item) == Profile(None, 0, 0, None, None, H264, Aac, AudioNone)
  {
  }

  /** One relays.json entry: idle state open only for "open" in any case;
      the token is never read. */
  function RelayFrom(item: Json): Relay {
    var idle := GetString(item, "idle_state", None);
    Relay(if idle.Some? && CaseEq(idle.value, "open") then IdleOpen else IdleClose,
          GetString(item, "close", None), GetString(item, "open", None), None)
  }

  /** Open in any case is the only open idle state, and the token is never read. */
  lemma RelayIdleState(item: Json, text: string)
    requires Item(item, "idle_state") == Some(JString(text))
    ensures RelayFrom(item).idleState == IdleOpen <==> CaseEq(text, "open")
    ensures RelayFrom(item).token.None?
  {
  }

  /** An entry without idle_state idles closed. */
  lemma RelayIdlesClosed(item: Json)
    requires Item(item, "idle_state").None?
    ensures RelayFrom(item).idleState == IdleClose
  {
  }

  /** One events.json entry. */
  function EventFrom(item: Json): Event {
    Event(GetString(item, "topic", None), GetString(item, "source_name", None),
          GetString(item, "source_type", None), GetString(item, "source_value", None),
          GetString(item, "input_file", None))
  }

  /** The event the loader adds for relay i. */
  function RelayEvent(i: nat): Event {
    Event(Some("tns1:Device/Trigger/Relay"), Some("RelayToken"), Some("tt:ReferenceToken"),
          Some("RelayOutputToken_" + NatToDecimal(i)),
          Some("/tmp/onvif_notify_server/relay_output_" + NatToDecimal(i)))
  }

  /** The event of relay i carries the token GetRelayOutputOptions lists
      for relay i, and the events of distinct relays differ. */
  lemma RelayEventNamesRelay(i: nat, j: nat, count: nat)
    requires i < count && j < count
    ensures RelayEvent(i).sourceValue == Some(DeviceIo.RelayOutputOptions(None, count)[i])
    ensures i != j ==> RelayEvent(i) != RelayEvent(j)
  {
    if RelayEvent(i).sourceValue == RelayEvent(j).sourceValue {
      var a := DeviceIo.DefaultRelayToken(i);
      var b := DeviceIo.DefaultRelayToken(j);
      assert a[17..] == NatToDecimal(i) && b[17..] == NatToDecimal(j);
      DecimalInjective(i, j);
    }
  }

  function Profiles(ms: seq<Member>): (r: seq<Profile>)
    ensures |r| == |ms|
  {
    if ms == [] then [] else Profiles(ms[..|ms| - 1]) + [ProfileFrom(ms[|ms| - 1].value)]
  }

  function Relays(items: seq<Json>): (r: seq<Relay>)
    ensures |r| == |items|
  {
    if items == [] then [] else Relays(items[..|items| - 1]) + [RelayFrom(items[|items| - 1])]
  }

  function Events(items: seq<Json>): (r: seq<Event>)
    ensures |r| == |items|
  {
    if items == [] then [] else Events(items[..|items| - 1]) + [EventFrom(items[|items| - 1])]
  }

  function RelayEvents(from: nat, n: nat): (r: seq<Event>)
    ensures |r| == n
  {
    if n == 0 then [] else RelayEvents(from, n - 1) + [RelayEvent(from + n - 1)]
  }

  lemma ProfilesSnoc(ms: seq<Member>, i: nat)
    requires i < |ms|
    ensures Profiles(ms[..i + 1]) == Profiles(ms[..i]) + [ProfileFrom(ms[i].value)]
  {
    assert ms[..i + 1][..i] == ms[..i];
  }

  lemma RelaysSnoc(items: seq<Json>, i: nat)
    requires i < |items|
    ensures Relays(items[..i + 1]) == Relays(items[..i]) + [RelayFrom(items[i])]
  {
    assert items[..i + 1][..i] == items[..i];
  }

  lemma EventsSnoc(items: seq<Json>, i: nat)
    requires i < |items|
    ensures Events(items[..i + 1]) == Events(items[..i]) + [EventFrom(items[i])]
  {
    assert items[..i + 1][..i] == items[..i];
  }

  /** The i-th profile loaded is the i-th entry's: pointwise. */
  lemma {:induction false} ProfilesAt(ms: seq<Member>, i: nat)
    requires i < |ms|
    ensures Profiles(ms)[i] == ProfileFrom(ms[i].value)
  {
    if i < |ms| - 1 {
      ProfilesAt(ms[..|ms| - 1], i);
    }
  }

  lemma {:induction false} RelaysAt(items: seq<Json>, i: nat)
    requires i < |items|
    ensures Relays(items)[i] == RelayFrom(items[i])
  {
    if i < |items| - 1 {
      RelaysAt(items[..|items| - 1], i);
    }
  }

  lemma {:induction false} RelayEventsAt(from: nat, n: nat, i: nat)
    requires i < n
    ensures RelayEvents(from, n)[i] == RelayEvent(from + i)
  {
    if i < n - 1 {
      RelayEventsAt(from, n - 1, i);
    }
  }

  lemma RelayEventsFromZero(n: nat, i: nat)
    requires i < n
    ensures RelayEvents(0, n)[i] == RelayEvent(i)
  {
    RelayEventsAt(0, n, i);
  }

  /** How many more entries fit under a cap when n are already loaded. */
  function Room(n: nat, cap: nat): nat {
    if n >= cap then 0 else cap - n
  }

  function Min(a: nat, b: nat): nat {
    if a <= b then a else b
  }

  /** The top-level settings of the main file, each member read over its
      reset value. */
  datatype Settings = Settings(
    port: int, username: Option<string>, password: Option<string>,
    manufacturer: Option<string>, model: Option<string>, firmwareVer: Option<string>,
    serialNum: Option<string>, hardwareId: Option<string>, ifs: Option<string>,
    advEnableMedia2: int, advFaultIfUnknown: int, advFaultIfSet: int, advSynologyNvr: int,
    scopes: seq<Option<string>>, loglevel: int, rawXmlLogFile: string,
    rawLogDirectory: Option<string>)

  const DefaultRawLog := "/tmp/onvif_raw.log"
  const DefaultConfDir := "/etc/onvif.d"

  /** A scope entry's text; a non-string entry has no valuestring. */
  function ScopeText(item: Json): Option<string> {
    if item.JString? then Some(item.text) else None
  }

  function Scopes(value: Option<Json>): (r: seq<Option<string>>)
    ensures value.Some? && value.value.JArray? ==> |r| == |value.value.items|
    ensures !(value.Some? && value.value.JArray?) ==> r == []
  {
    if value.Some? && value.value.JArray? then
      seq(|value.value.items|, i requires 0 <= i < |value.value.items| => ScopeText(value.value.items[i]))
    else []
  }

  /** Each setting read from its member of the main file over its reset
      value. The raw log directory has no member: the loader never sets it,
      so it keeps its zero value. */
  function SettingsFrom(j: Json): Settings {
    Settings(GetInt(j, "port", 80), GetString(j, "username", None), GetString(j, "password", None),
             GetString(j, "manufacturer", None), GetString(j, "model", None), GetString(j, "firmware_ver", None),
             GetString(j, "serial_num", None), GetString(j, "hardware_id", None), GetString(j, "ifs", None),
             GetBool(j, "adv_enable_media2"), GetBool(j, "adv_fault_if_unknown"),
             GetBool(j, "adv_fault_if_set"), GetBool(j, "adv_synology_nvr"),
             Scopes(Item(j, "scopes")), GetInt(j, "loglevel", 0),
             GetString(j, "raw_xml_log_file", None).GetOr(DefaultRawLog), None)
  }

  /** An empty main file gives port 80, no credentials, every flag off and
      the default raw log path. */
  lemma EmptySettings()
    ensures SettingsFrom(JObject([])) == Settings(80, None, None, None, None, None, None, None, None,
                                                 0, 0, 0, 0, [], 0, DefaultRawLog, None)
  {
  }

  // ---------------------------------------------------------------------
  // What the directory files give

  /** The profiles of profiles.json: one per member of its object. */
  function ProfilesLoaded(value: Option<Json>): (r: seq<Profile>)
    ensures value.Some? && value.value.JObject? ==> |r| == |value.value.members|
    ensures !(value.Some? && value.value.JObject?) ==> r == []
  {
    if value.Some? && value.value.JObject? then Profiles(value.value.members) else []
  }

  /** A number read from a file's "enable" member over its current value;
      no file leaves the value as it was. */
  function EnableLoaded(value: Option<Json>, current: int): int {
    if value.Some? then GetInt(value.value, "enable", current) else current
  }

  /** The entries of relays.json taken when n relays are loaded already:
      the first ones, while the count stays below cap. */
  function RelaysLoaded(value: Option<Json>, n: nat, cap: nat): (r: seq<Relay>)
    ensures n < cap ==> n + |r| < cap
    ensures !(value.Some? && value.value.JArray?) ==> r == []
  {
    if value.Some? && value.value.JArray? then
      Relays(value.value.items[..Min(|value.value.items|, Room(n + 1, cap))])
    else []
  }

  /** The entries of the "events" array of events.json taken when n events
      are loaded already: the first ones, up to cap events in all. */
  function EventsLoaded(root: Option<Json>, n: nat, cap: nat): (r: seq<Event>)
    ensures n <= cap ==> n + |r| <= cap
  {
    if root.Some? && Item(root.value, "events").Some? && Item(root.value, "events").value.JArray? then
      var items := Item(root.value, "events").value.items;
      Events(items[..Min(|items|, Room(n, cap))])
    else []
  }

  /** The part of service_ctx the loader fills after the main file, and
      the code it returns. */
  datatype Loaded = Loaded(profiles: seq<Profile>, ptzEnable: int, relays: seq<Relay>,
                           events: seq<Event>, eventsEnable: int, code: int)

  /** process_json_conf_file from the reset of the arrays on, over the
      four directory files (all None when there is no directory): the
      files in their order, then one event per relay, -2 when they exceed
      maxEvents. */
  function LoadedOf(profilesFile: Option<Json>, ptzFile: Option<Json>, relaysFile: Option<Json>,
                    eventsFile: Option<Json>, maxRelays: nat, maxEvents: nat,
                    eventsNone: int, eventsPullpoint: int): (r: Loaded)
    ensures r.code == 0 || r.code == -2
    ensures |r.relays| < maxRelays || maxRelays == 0
    ensures r.code == 0 ==> |r.events| <= maxEvents
  {
    var relays := RelaysLoaded(relaysFile, 0, maxRelays);
    var dirEvents := EventsLoaded(eventsFile, 0, maxEvents);
    var dirEnable := EnableLoaded(eventsFile, eventsNone);
    Loaded(ProfilesLoaded(profilesFile), EnableLoaded(ptzFile, 0), relays,
           dirEvents + RelayEvents(0, Min(|relays|, Room(|dirEvents|, maxEvents))),
           if |relays| > 0 && dirEnable == eventsNone then eventsPullpoint else dirEnable,
           if |relays| > 0 && |dirEvents| + |relays| > maxEvents then -2 else 0)
  }

  /** The loader over the configuration directory: no file is read when
      the directory name is empty. */
  function LoadedFrom(files: map<string, Json>, dir: string, maxRelays: nat, maxEvents: nat,
                      eventsNone: int, eventsPullpoint: int): (r: Loaded)
    ensures dir == "" ==> r == Loaded([], 0, [], [], eventsNone, 0)
  {
    if dir == "" then LoadedOf(None, None, None, None, maxRelays, maxEvents, eventsNone, eventsPullpoint)
    else LoadedOf(FileAt(files, dir, "profiles.json"), FileAt(files, dir, "ptz.json"),
                  FileAt(files, dir, "relays.json"), FileAt(files, dir, "events.json"),
                  maxRelays, maxEvents, eventsNone, eventsPullpoint)
  }

  /** The i-th profile is made from the i-th member of profiles.json and
      the i-th relay from the i-th entry of relays.json. */
  lemma LoadedEntries(profilesFile: Option<Json>, ptzFile: Option<Json>, relaysFile: Option<Json>,
                      eventsFile: Option<Json>, maxRelays: nat, maxEvents: nat,
                      eventsNone: int, eventsPullpoint: int, i: nat)
    ensures var l := LoadedOf(profilesFile, ptzFile, relaysFile, eventsFile, maxRelays, maxEvents, eventsNone, eventsPullpoint);
            (profilesFile.Some? && profilesFile.value.JObject? && i < |profilesFile.value.members| ==>
               l.profiles[i] == ProfileFrom(profilesFile.value.members[i].value))
            && (relaysFile.Some? && relaysFile.value.JArray? && i < |l.relays| ==>
               l.relays[i] == RelayFrom(relaysFile.value.items[i]))
  {
    if profilesFile.Some? && profilesFile.value.JObject? && i < |profilesFile.value.members| {
      ProfilesAt(profilesFile.value.members, i);
    }
    if relaysFile.Some? && relaysFile.value.JArray? {
      var taken := relaysFile.value.items[..Min(|relaysFile.value.items|, Room(1, maxRelays))];
      if i < |taken| {
        RelaysAt(taken, i);
      }
    }
  }

  /** The event of relay i sits i places after the events before them. */
  lemma AppendedRelayEvent(before: seq<Event>, k: nat, i: nat)
    requires i < k
    ensures (before + RelayEvents(0, k))[|before| + i] == RelayEvent(i)
  {
    RelayEventsFromZero(k, i);
  }

  /** When the load succeeds, every loaded relay i has its event, right
      after the events of events.json, naming the token the service lists
      for relay i. */
  lemma LoadedRelayEvents(profilesFile: Option<Json>, ptzFile: Option<Json>, relaysFile: Option<Json>,
                          eventsFile: Option<Json>, maxRelays: nat, maxEvents: nat,
                          eventsNone: int, eventsPullpoint: int, i: nat)
    requires LoadedOf(profilesFile, ptzFile, relaysFile, eventsFile, maxRelays, maxEvents, eventsNone, eventsPullpoint).code == 0
    requires i < |LoadedOf(profilesFile, ptzFile, relaysFile, eventsFile, maxRelays, maxEvents, eventsNone, eventsPullpoint).relays|
    ensures var l := LoadedOf(profilesFile, ptzFile, relaysFile, eventsFile, maxRelays, maxEvents, eventsNone, eventsPullpoint);
            var n := |EventsLoaded(eventsFile, 0, maxEvents)|;
            n + i < |l.events| && l.events[n + i] == RelayEvent(i)
            && l.events[n + i].sourceValue == Some(DeviceIo.RelayOutputOptions(None, |l.relays|)[i])
  {
    var l := LoadedOf(profilesFile, ptzFile, relaysFile, eventsFile, maxRelays, maxEvents, eventsNone, eventsPullpoint);
    LoadedEventsAll(profilesFile, ptzFile, relaysFile, eventsFile, maxRelays, maxEvents, eventsNone, eventsPullpoint);
    AppendedRelayEvent(EventsLoaded(eventsFile, 0, maxEvents), |l.relays|, i);
    RelayEventNamesRelay(i, i, |l.relays|);
  }

  /** A successful load keeps the event of every relay. */
  lemma LoadedEventsAll(profilesFile: Option<Json>, ptzFile: Option<Json>, relaysFile: Option<Json>,
                        eventsFile: Option<Json>, maxRelays: nat, maxEvents: nat,
                        eventsNone: int, eventsPullpoint: int)
    requires LoadedOf(profilesFile, ptzFile, relaysFile, eventsFile, maxRelays, maxEvents, eventsNone, eventsPullpoint).code == 0
    ensures var l := LoadedOf(profilesFile, ptzFile, relaysFile, eventsFile, maxRelays, maxEvents, eventsNone, eventsPullpoint);
            l.events == EventsLoaded(eventsFile, 0, maxEvents) + RelayEvents(0, |l.relays|)
  {
    var l := LoadedOf(profilesFile, ptzFile, relaysFile, eventsFile, maxRelays, maxEvents, eventsNone, eventsPullpoint);
    var dirEvents := EventsLoaded(eventsFile, 0, maxEvents);
    assert Min(|l.relays|, Room(|dirEvents|, maxEvents)) == |l.relays|;
  }

  /** The main file as the loader finds it. */
  datatype ConfInput = Missing | ShortRead | Unparseable | Parsed(json: Json)

  /** service_ctx as the loader fills it. The caps and the event-mode
      constants come from headers that are not part of this model. */
  class ServiceConfig {
    const maxRelays: nat
    const maxEvents: nat
    const eventsNone: int
    const eventsPullpoint: int
    var settings: Settings
    var profiles: seq<Profile>
    var ptzEnable: int
    var relays: seq<Relay>
    var events: seq<Event>
    var eventsEnable: int

    constructor (maxRelays: nat, maxEvents: nat, eventsNone: int, eventsPullpoint: int)
      ensures this.maxRelays == maxRelays && this.maxEvents == maxEvents
      ensures this.eventsNone == eventsNone && this.eventsPullpoint == eventsPullpoint
      ensures profiles == [] && relays == [] && events == [] && eventsEnable == eventsNone && ptzEnable == 0
    {
      this.maxRelays := maxRelays;
      this.maxEvents := maxEvents;
      this.eventsNone := eventsNone;
      this.eventsPullpoint := eventsPullpoint;
      settings := SettingsFrom(JObject([]));
      profiles := [];
      ptzEnable := 0;
      relays := [];
      events := [];
      eventsEnable := eventsNone;
    }

    /** load_profiles_from_dir: every member of the object, in order,
        becomes a profile over the defaults; anything but an object adds
        nothing. */
    method LoadProfiles(value: Option<Json>)
      modifies this`profiles
      ensures value.Some? && value.value.JObject? ==> profiles == old(profiles) + Profiles(value.value.members)
      ensures !(value.Some? && value.value.JObject?) ==> profiles == old(profiles)
    {
      if value.None? || !value.value.JObject? {
        return;
      }
      var members := value.value.members;
      var i := 0;
      while i < |members|
        invariant 0 <= i <= |members|
        invariant profiles == old(profiles) + Profiles(members[..i])
      {
        ProfilesSnoc(members, i);
        profiles := profiles + [ProfileFrom(members[i].value)];
        i := i + 1;
      }
      assert members[..i] == members;
    }

    /** load_ptz_from_dir, for the enable flag. */
    method LoadPtz(value: Option<Json>)
      modifies this`ptzEnable
      ensures value.Some? ==> ptzEnable == GetInt(value.value, "enable", old(ptzEnable))
      ensures value.None? ==> ptzEnable == old(ptzEnable)
    {
      if value.Some? {
        ptzEnable := GetInt(value.value, "enable", ptzEnable);
      }
    }

    /** load_relays_from_dir: array entries in order while the count stays
        below maxRelays; later entries are skipped. */
    method LoadRelays(value: Option<Json>)
      modifies this`relays
      ensures value.Some? && value.value.JArray? ==>
        relays == old(relays) + Relays(value.value.items[..Min(|value.value.items|, Room(|old(relays)| + 1, maxRelays))])
      ensures !(value.Some? && value.value.JArray?) ==> relays == old(relays)
      ensures |old(relays)| < maxRelays ==> |relays| < maxRelays
    {
      if value.Some? && value.value.JArray? {
        AppendRelays(value.value.items);
      }
    }

    /** The loop of load_relays_from_dir. */
    method AppendRelays(items: seq<Json>)
      modifies this`relays
      ensures relays == old(relays) + Relays(items[..Min(|items|, Room(|old(relays)| + 1, maxRelays))])
      ensures |old(relays)| < maxRelays ==> |relays| < maxRelays
    {
      ghost var room := Room(|old(relays)| + 1, maxRelays);
      ghost var taken := 0;
      var i := 0;
      while i < |items|
        invariant 0 <= i <= |items| && taken == Min(i, room)
        invariant relays == old(relays) + Relays(items[..taken])
      {
        if |relays| + 1 >= maxRelays {
          i := i + 1;
          continue;
        }
        RelaysSnoc(items, i);
        relays := relays + [RelayFrom(items[i])];
        taken := taken + 1;
        i := i + 1;
      }
    }

    /** load_events_from_dir: the mode from "enable", then the entries of
        the "events" array in order until maxEvents are loaded. */
    method LoadEvents(root: Option<Json>)
      modifies this`events, this`eventsEnable
      ensures root.Some? ==> eventsEnable == GetInt(root.value, "enable", old(eventsEnable))
      ensures root.None? ==> eventsEnable == old(eventsEnable)
      ensures root.Some? && Item(root.value, "events").Some? && Item(root.value, "events").value.JArray? ==>
        var items := Item(root.value, "events").value.items;
        events == old(events) + Events(items[..Min(|items|, Room(|old(events)|, maxEvents))])
      ensures !(root.Some? && Item(root.value, "events").Some? && Item(root.value, "events").value.JArray?) ==>
        events == old(events)
      ensures |old(events)| <= maxEvents ==> |events| <= maxEvents
    {
      if root.None? {
        return;
      }
      eventsEnable := GetInt(root.value, "enable", eventsEnable);
      var value := Item(root.value, "events");
      if value.Some? && value.value.JArray? {
        AppendEvents(value.value.items);
      }
    }

    /** The loop of load_events_from_dir: it stops at the first entry
        beyond maxEvents. */
    method AppendEvents(items: seq<Json>)
      modifies this`events
      ensures events == old(events) + Events(items[..Min(|items|, Room(|old(events)|, maxEvents))])
      ensures |old(events)| <= maxEvents ==> |events| <= maxEvents
    {
      ghost var room := Room(|old(events)|, maxEvents);
      var i := 0;
      while i < |items|
        invariant 0 <= i <= |items| && i <= room
        invariant events == old(events) + Events(items[..i])
      {
        if |events| + 1 > maxEvents {
          break;
        }
        EventsSnoc(items, i);
        events := events + [EventFrom(items[i])];
        i := i + 1;
      }
      assert i == Min(|items|, room);
    }

    /** The relay events at the end of process_json_conf_file: with at
        least one relay, an unset event mode becomes pull-point and relay
        i's event is appended in order; the first one beyond maxEvents
        gives -2. */
    method AddRelayEvents() returns (code: int)
      modifies this`events, this`eventsEnable
      ensures code == -2 <==> |relays| > 0 && |old(events)| + |relays| > maxEvents
      ensures code == 0 <==> !(|relays| > 0 && |old(events)| + |relays| > maxEvents)
      ensures events == old(events) + RelayEvents(0, Min(|relays|, Room(|old(events)|, maxEvents)))
      ensures eventsEnable == (if |relays| > 0 && old(eventsEnable) == eventsNone then eventsPullpoint else old(eventsEnable))
      ensures |old(events)| <= maxEvents ==> |events| <= maxEvents
    {
      if |relays| == 0 {
        return 0;
      }
      if eventsEnable == eventsNone {
        eventsEnable := eventsPullpoint;
      }
      code := AppendRelayEvents(|relays|);
    }

    /** The loop that appends the events of relays 0 .. n - 1. */
    method AppendRelayEvents(n: nat) returns (code: int)
      modifies this`events
      ensures code == -2 <==> n > 0 && |old(events)| + n > maxEvents
      ensures code == 0 <==> !(n > 0 && |old(events)| + n > maxEvents)
      ensures events == old(events) + RelayEvents(0, Min(n, Room(|old(events)|, maxEvents)))
      ensures |old(events)| <= maxEvents ==> |events| <= maxEvents
    {
      ghost var room := Room(|old(events)|, maxEvents);
      var i := 0;
      while i < n
        invariant 0 <= i <= n && i <= room
        invariant events == old(events) + RelayEvents(0, i)
      {
        if |events| + 1 > maxEvents {
          assert i == Min(n, room);
          return -2;
        }
        events := events + [RelayEvent(i)];
        i := i + 1;
      }
      return 0;
    }

    /** The four files of the configuration directory, in their order. */
    method LoadDirectory(files: map<string, Json>, dir: string)
      modifies this`profiles, this`ptzEnable, this`relays, this`events, this`eventsEnable
      ensures profiles == old(profiles) + ProfilesLoaded(FileAt(files, dir, "profiles.json"))
      ensures ptzEnable == EnableLoaded(FileAt(files, dir, "ptz.json"), old(ptzEnable))
      ensures relays == old(relays) + RelaysLoaded(FileAt(files, dir, "relays.json"), |old(relays)|, maxRelays)
      ensures events == old(events) + EventsLoaded(FileAt(files, dir, "events.json"), |old(events)|, maxEvents)
      ensures eventsEnable == EnableLoaded(FileAt(files, dir, "events.json"), old(eventsEnable))
    {
      LoadProfiles(FileAt(files, dir, "profiles.json"));
      LoadPtz(FileAt(files, dir, "ptz.json"));
      LoadRelays(FileAt(files, dir, "relays.json"));
      LoadEvents(FileAt(files, dir, "events.json"));
    }

    /** process_json_conf_file: -1 when the file cannot be read and -2 when
        it does not parse, with nothing changed; otherwise the settings,
        then the directory files from a fresh start, then the relay events. */
    method Process(input: ConfInput, files: map<string, Json>) returns (code: int)
      modifies this
      ensures !input.Parsed? ==> code == (if input.Unparseable? then -2 else -1)
      ensures !input.Parsed? ==> settings == old(settings) && profiles == old(profiles) && relays == old(relays)
                                 && events == old(events) && eventsEnable == old(eventsEnable) && ptzEnable == old(ptzEnable)
      ensures input.Parsed? ==> settings == SettingsFrom(input.json)
      ensures input.Parsed? ==>
        Loaded(profiles, ptzEnable, relays, events, eventsEnable, code)
        == LoadedFrom(files, ConfDir(input.json), maxRelays, maxEvents, eventsNone, eventsPullpoint)
    {
      if !input.Parsed? {
        return if input.Unparseable? then -2 else -1;
      }
      settings := SettingsFrom(input.json);
      code := LoadFromScratch(files, ConfDir(input.json));
    }

    /** What process_json_conf_file does after the main file: everything
        but the settings reset, the directory files loaded when there is a
        directory, then the relay events. */
    method LoadFromScratch(files: map<string, Json>, dir: string) returns (code: int)
      modifies this`profiles, this`ptzEnable, this`relays, this`events, this`eventsEnable
      ensures Loaded(profiles, ptzEnable, relays, events, eventsEnable, code)
              == LoadedFrom(files, dir, maxRelays, maxEvents, eventsNone, eventsPullpoint)
    {
      profiles := [];
      ptzEnable := 0;
      relays := [];
      events := [];
      eventsEnable := eventsNone;
      ghost var pf: Option<Json>, zf: Option<Json>, rf: Option<Json>, ef: Option<Json> := None, None, None, None;
      if dir != "" {
        pf, zf := FileAt(files, dir, "profiles.json"), FileAt(files, dir, "ptz.json");
        rf, ef := FileAt(files, dir, "relays.json"), FileAt(files, dir, "events.json");
        LoadDirectory(files, dir);
        assert profiles == ProfilesLoaded(pf) && relays == RelaysLoaded(rf, 0, maxRelays);
        assert events == EventsLoaded(ef, 0, maxEvents);
      }
      assert ptzEnable == EnableLoaded(zf, 0) && eventsEnable == EnableLoaded(ef, eventsNone);
      ghost var dirEvents := events;
      assert dirEvents == EventsLoaded(ef, 0, maxEvents);
      code := AddRelayEvents();
      assert LoadedFrom(files, dir, maxRelays, maxEvents, eventsNone, eventsPullpoint)
          == LoadedOf(pf, zf, rf, ef, maxRelays, maxEvents, eventsNone, eventsPullpoint);
    }
  }

  /** conf_dir, by default /etc/onvif.d; when empty no file is loaded. */
  function ConfDir(j: Json): (d: string)
    ensures GetString(j, "conf_dir", None).None? ==> d == DefaultConfDir
  {
    GetString(j, "conf_dir", None).GetOr(DefaultConfDir)
  }

  /** The JSON of "<dir>/<name>", if that file could be read and parsed. */
  function FileAt(files: map<string, Json>, dir: string, name: string): Option<Json> {
    var path := dir + "/" + name;
    if path in files then Some(files[path]) else None
  }
}
