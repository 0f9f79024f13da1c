/** The method router of the server: the dispatch table with its
    per-row enabling conditions, the first-match search of
    dispatch_onvif_method and the per-service fallbacks. A handler is
    named by the row that selects it (`media_get_profiles` is the row
    media_service / GetProfiles); what a handler does is not modelled. */
module Dispatch {
  import opened Wrappers
  import opened CString

  datatype Service =
    | DeviceService | DeviceIoService | MediaService | PtzService | EventsService | Media2Service

  function ServiceName(s: Service): (r: string)
    ensures |r| > 0
  {
    match s
    case DeviceService => "device_service"
    case DeviceIoService => "deviceio_service"
    case MediaService => "media_service"
    case PtzService => "ptz_service"
    case EventsService => "events_service"
    case Media2Service => "media2_service"
  }

  /** The three advanced switches of the configuration; a condition holds
      when its switch is exactly 1. */
  datatype Flags = Flags(advFaultIfSet: int, advEnableMedia2: int, advSynologyNvr: int)

  /** A row's condition: none (NULL), condition_adv_fault_if_set or
      condition_adv_enable_media2. condition_synology_nvr is defined but no
      row uses it. */
  datatype Condition = Always | FaultIfSet | EnableMedia2

  predicate Enabled(c: Condition, f: Flags) {
    match c
    case Always => true
    case FaultIfSet => f.advFaultIfSet == 1
    case EnableMedia2 => f.advEnableMedia2 == 1
  }

  datatype Entry = Entry(service: Service, methodName: string, condition: Condition)

  /** The service a name denotes under strcasecmp, tried in the order of
      the fallback chain of dispatch_onvif_method. */
  function ServiceOf(service: string): Option<Service> {
    if CaseEq("device_service", service) then Some(DeviceService)
    else if CaseEq("media_service", service) then Some(MediaService)
    else if CaseEq("media2_service", service) then Some(Media2Service)
    else if CaseEq("deviceio_service", service) then Some(DeviceIoService)
    else if CaseEq("ptz_service", service) then Some(PtzService)
    else if CaseEq("events_service", service) then Some(EventsService)
    else None
  }

  /** No two service names are equal under strcasecmp, so a name denotes
      exactly the service whose name it matches. */
  lemma ServiceOfSpec(service: string, sv: Service)
    ensures ServiceOf(service) == Some(sv) <==> CaseEq(ServiceName(sv), service)
  {
    if CaseEq(ServiceName(sv), service) {
      var n := ServiceName(sv);
      CaseEqHead(n, service);
      assert n[0] == 'd' || n[0] == 'm' || n[0] == 'p' || n[0] == 'e';
      match sv
      case DeviceService =>
      case DeviceIoService =>
      case MediaService =>
      case PtzService =>
      case EventsService =>
      case Media2Service =>
    }
  }

  /** strcasecmp on both the service and the method. */
  predicate Matches(e: Entry, service: string, methodName: string) {
    ServiceOf(service) == Some(e.service) && CaseEq(e.methodName, methodName)
  }

  /** Matches is the pair of strcasecmp tests of the loop. */
  lemma MatchesIsCaseEq(e: Entry, service: string, methodName: string)
    ensures Matches(e, service, methodName) <==> CaseEq(ServiceName(e.service), service) && CaseEq(e.methodName, methodName)
  {
    ServiceOfSpec(service, e.service);
  }

  /** The row matches and its condition holds. */
  predicate Selects(e: Entry, f: Flags, service: string, methodName: string) {
    Matches(e, service, methodName) && Enabled(e.condition, f)
  }

  /** The index of the first row that selects the call. */
  function FirstSelected(t: seq<Entry>, f: Flags, service: string, methodName: string): (r: Option<nat>)
    ensures r.Some? ==> r.value < |t| && Selects(t[r.value], f, service, methodName)
  {
    if t == [] then None
    else if Selects(t[0], f, service, methodName) then Some(0)
    else
      match FirstSelected(t[1..], f, service, methodName)
      case None => None
      case Some(k) => Some(k + 1)
  }

  /** The scan stops at the first selecting row and finds none only when
      no row selects the call. */
  lemma {:induction false} FirstSelectedSpec(t: seq<Entry>, f: Flags, service: string, methodName: string)
    ensures FirstSelected(t, f, service, methodName).None? <==>
      forall i :: 0 <= i < |t| ==> !Selects(t[i], f, service, methodName)
    ensures FirstSelected(t, f, service, methodName).Some? ==>
      forall j :: 0 <= j < FirstSelected(t, f, service, methodName).value ==> !Selects(t[j], f, service, methodName)
  {
    if t != [] && !Selects(t[0], f, service, methodName) {
      FirstSelectedSpec(t[1..], f, service, methodName);
      assert forall j :: 0 < j < |t| ==> t[j] == t[1..][j - 1];
    }
  }

  /** A row that selects the call, with none selecting before it, is the
      one the scan stops at. */
  lemma FirstSelectedAt(t: seq<Entry>, f: Flags, service: string, methodName: string, i: nat)
    requires i < |t| && Selects(t[i], f, service, methodName)
    requires forall j :: 0 <= j < i ==> !Selects(t[j], f, service, methodName)
    ensures FirstSelected(t, f, service, methodName) == Some(i)
  {
    FirstSelectedSpec(t, f, service, methodName);
  }

  /** The scan of two tables one after the other. */
  lemma {:induction false} FirstSelectedAppend(a: seq<Entry>, b: seq<Entry>, f: Flags, service: string, methodName: string)
    ensures FirstSelected(a + b, f, service, methodName) ==
      match FirstSelected(a, f, service, methodName)
      case Some(i) => Some(i)
      case None =>
        match FirstSelected(b, f, service, methodName)
        case None => None
        case Some(k) => Some(|a| + k)
  {
    if a == [] {
      assert a + b == b;
    } else {
      assert (a + b)[1..] == a[1..] + b;
      FirstSelectedAppend(a[1..], b, f, service, methodName);
    }
  }

  /** A row whose condition does not hold is passed over: the scan goes on
      with the next row. */
  lemma ConditionFalseSkipped(t: seq<Entry>, f: Flags, service: string, methodName: string)
    requires |t| > 0 && Matches(t[0], service, methodName) && !Enabled(t[0].condition, f)
    ensures FirstSelected(t, f, service, methodName) ==
      match FirstSelected(t[1..], f, service, methodName)
      case None => None
      case Some(k) => Some(k + 1)
  {
  }

  // ---------------------------------------------------------------------
  // Outcomes

  /** What dispatch_onvif_method does: -1 for a missing service or method;
      the handler of the selecting row; the Synology MaxNVTProfiles fault;
      or the unsupported handler of a service. */
  datatype Outcome =
    | BadArguments
    | Invoke(entry: Entry)
    | MaxProfilesFault
    | Unsupported(fallback: Service, methodName: string)

  /** The service whose unsupported handler answers an unmatched call:
      the named one, device_service for any other name. */
  function Fallback(service: string): Service {
    ServiceOf(service).GetOr(DeviceService)
  }

  /** dispatch_onvif_method over a table. */
  function DispatchOf(t: seq<Entry>, f: Flags, service: Option<string>, methodName: Option<string>): Outcome {
    if service.None? || methodName.None? then BadArguments
    else
      var s, m := service.value, methodName.value;
      match FirstSelected(t, f, s, m)
      case Some(i) => Invoke(t[i])
      case None =>
        if f.advSynologyNvr == 1 && CaseEq("media_service", s) && CaseEq("CreateProfile", m) then MaxProfilesFault
        else Unsupported(Fallback(s), m)
  }

  /** The for loop of dispatch_onvif_method over the sentinel-terminated
      table, here a sequence. */
  method Dispatch(t: seq<Entry>, f: Flags, service: Option<string>, methodName: Option<string>) returns (o: Outcome)
    ensures o == DispatchOf(t, f, service, methodName)
  {
    if service.None? || methodName.None? {
      return BadArguments;
    }
    var s, m := service.value, methodName.value;
    var i := 0;
    while i < |t|
      invariant 0 <= i <= |t|
      invariant forall j :: 0 <= j < i ==> !Selects(t[j], f, s, m)
    {
      var e := t[i];
      MatchesIsCaseEq(e, s, m);
      if CaseEq(ServiceName(e.service), s) && CaseEq(e.methodName, m) {
        if e.condition != Always && !Enabled(e.condition, f) {
          i := i + 1;
          continue;
        }
        FirstSelectedAt(t, f, s, m, i);
        return Invoke(e);
      }
      i := i + 1;
    }
    FirstSelectedSpec(t, f, s, m);
    if f.advSynologyNvr == 1 && CaseEq("media_service", s) && CaseEq("CreateProfile", m) {
      return MaxProfilesFault;
    }
    return Unsupported(Fallback(s), m);
  }

  /** A missing service or method invokes nothing. */
  lemma MissingArguments(t: seq<Entry>, f: Flags, service: Option<string>, methodName: Option<string>)
    requires service.None? || methodName.None?
    ensures DispatchOf(t, f, service, methodName) == BadArguments
  {
  }

  /** The handler invoked is that of the first row matching service and
      method, case-insensitively, whose condition holds. */
  lemma InvokesFirstSelecting(t: seq<Entry>, f: Flags, s: string, m: string)
    ensures DispatchOf(t, f, Some(s), Some(m)).Invoke? <==> exists i :: 0 <= i < |t| && Selects(t[i], f, s, m)
    ensures DispatchOf(t, f, Some(s), Some(m)).Invoke? ==>
      exists i :: 0 <= i < |t| && DispatchOf(t, f, Some(s), Some(m)).entry == t[i] && Selects(t[i], f, s, m)
                  && forall j :: 0 <= j < i ==> !Selects(t[j], f, s, m)
  {
    FirstSelectedSpec(t, f, s, m);
  }

  // ---------------------------------------------------------------------
  // The table

  /** The device_service rows of the table, in order. */
  function DeviceEntries(): (t: seq<Entry>)
    ensures |t| == 11
    ensures forall i :: 0 <= i < |t| ==> t[i].service == DeviceService
  {
    [
      Entry(DeviceService, "GetServices", Always),
      Entry(DeviceService, "GetServiceCapabilities", Always),
      Entry(DeviceService, "GetDeviceInformation", Always),
      Entry(DeviceService, "GetSystemDateAndTime", Always),
      Entry(DeviceService, "SystemReboot", Always),
      Entry(DeviceService, "GetScopes", Always),
      Entry(DeviceService, "GetUsers", Always),
      Entry(DeviceService, "GetWsdlUrl", Always),
      Entry(DeviceService, "GetCapabilities", Always),
      Entry(DeviceService, "GetNetworkInterfaces", Always),
      Entry(DeviceService, "GetDiscoveryMode", Always)
    ]
  }

  /** The deviceio_service rows of the table, in order. */
  function DeviceIoEntries(): (t: seq<Entry>)
    ensures |t| == 8
    ensures forall i :: 0 <= i < |t| ==> t[i].service == DeviceIoService
  {
    [
      Entry(DeviceIoService, "GetVideoSources", Always),
      Entry(DeviceIoService, "GetServiceCapabilities", Always),
      Entry(DeviceIoService, "GetAudioOutputs", Always),
      Entry(DeviceIoService, "GetAudioSources", Always),
      Entry(DeviceIoService, "GetRelayOutputs", Always),
      Entry(DeviceIoService, "GetRelayOutputOptions", Always),
      Entry(DeviceIoService, "SetRelayOutputSettings", Always),
      Entry(DeviceIoService, "SetRelayOutputState", Always)
    ]
  }

  /** The first media_service rows, up to CreateProfile. */
  function MediaEntriesA(): (t: seq<Entry>)
    ensures |t| == 9
    ensures forall i :: 0 <= i < |t| ==> t[i].service == MediaService
    ensures forall i :: 0 <= i < |t| ==> t[i].condition == Always
    ensures forall i :: 0 <= i < 8 ==> |t[i].methodName| > 0 && t[i].methodName[0] == 'G'
    ensures t[8].methodName == "CreateProfile"
  {
    [
      Entry(MediaService, "GetServiceCapabilities", Always),
      Entry(MediaService, "GetVideoSources", Always),
      Entry(MediaService, "GetVideoSourceConfigurations", Always),
      Entry(MediaService, "GetVideoSourceConfiguration", Always),
      Entry(MediaService, "GetCompatibleVideoSourceConfigurations", Always),
      Entry(MediaService, "GetVideoSourceConfigurationOptions", Always),
      Entry(MediaService, "GetProfiles", Always),
      Entry(MediaService, "GetProfile", Always),
      Entry(MediaService, "CreateProfile", Always)
    ]
  }

  /** The media_service Get rows after CreateProfile. */
  function MediaEntriesB(): (t: seq<Entry>)
    ensures |t| == 12
    ensures forall i :: 0 <= i < |t| ==> t[i].service == MediaService
    ensures forall i :: 0 <= i < |t| ==> t[i].condition == Always
    ensures forall i :: 0 <= i < |t| ==> |t[i].methodName| > 0 && t[i].methodName[0] == 'G'
  {
    [
      Entry(MediaService, "GetVideoEncoderConfigurations", Always),
      Entry(MediaService, "GetVideoEncoderConfiguration", Always),
      Entry(MediaService, "GetCompatibleVideoEncoderConfigurations", Always),
      Entry(MediaService, "GetGuaranteedNumberOfVideoEncoderInstances", Always),
      Entry(MediaService, "GetVideoEncoderConfigurationOptions", Always),
      Entry(MediaService, "GetSnapshotUri", Always),
      Entry(MediaService, "GetStreamUri", Always),
      Entry(MediaService, "GetAudioSources", Always),
      Entry(MediaService, "GetAudioSourceConfigurations", Always),
      Entry(MediaService, "GetAudioSourceConfiguration", Always),
      Entry(MediaService, "GetAudioSourceConfigurationOptions", Always),
      Entry(MediaService, "GetAudioEncoderConfiguration", Always)
    ]
  }

  /** The remaining media_service Get rows. */
  function MediaEntriesC(): (t: seq<Entry>)
    ensures |t| == 13
    ensures forall i :: 0 <= i < |t| ==> t[i].service == MediaService
    ensures forall i :: 0 <= i < |t| ==> t[i].condition == Always
    ensures forall i :: 0 <= i < |t| ==> |t[i].methodName| > 0 && t[i].methodName[0] == 'G'
  {
    [
      Entry(MediaService, "GetAudioEncoderConfigurations", Always),
      Entry(MediaService, "GetAudioEncoderConfigurationOptions", Always),
      Entry(MediaService, "GetAudioDecoderConfiguration", Always),
      Entry(MediaService, "GetAudioDecoderConfigurations", Always),
      Entry(MediaService, "GetAudioDecoderConfigurationOptions", Always),
      Entry(MediaService, "GetAudioOutputs", Always),
      Entry(MediaService, "GetAudioOutputConfiguration", Always),
      Entry(MediaService, "GetAudioOutputConfigurations", Always),
      Entry(MediaService, "GetAudioOutputConfigurationOptions", Always),
      Entry(MediaService, "GetCompatibleAudioSourceConfigurations", Always),
      Entry(MediaService, "GetCompatibleAudioEncoderConfigurations", Always),
      Entry(MediaService, "GetCompatibleAudioDecoderConfigurations", Always),
      Entry(MediaService, "GetCompatibleAudioOutputConfigurations", Always)
    ]
  }

  /** The media_service Set rows, each under condition_adv_fault_if_set. */
  function MediaSetEntries(): (t: seq<Entry>)
    ensures |t| == 5
    ensures forall i :: 0 <= i < |t| ==> t[i].service == MediaService
    ensures forall i :: 0 <= i < |t| ==> t[i].condition == FaultIfSet
    ensures forall i :: 0 <= i < |t| ==> |t[i].methodName| > 0 && t[i].methodName[0] == 'S'
  {
    [
      Entry(MediaService, "SetVideoSourceConfiguration", FaultIfSet),
      Entry(MediaService, "SetAudioSourceConfiguration", FaultIfSet),
      Entry(MediaService, "SetVideoEncoderConfiguration", FaultIfSet),
      Entry(MediaService, "SetAudioEncoderConfiguration", FaultIfSet),
      Entry(MediaService, "SetAudioOutputConfiguration", FaultIfSet)
    ]
  }

  /** The media_service rows, in order. */
  function MediaEntries(): (t: seq<Entry>)
    ensures forall i :: 0 <= i < |t| ==> t[i].service == MediaService
  {
    MediaEntriesA() + MediaEntriesB() + MediaEntriesC() + MediaSetEntries()
  }

  /** The ptz_service rows of the table, in order. */
  function PtzEntries(): (t: seq<Entry>)
    ensures |t| == 17
    ensures forall i :: 0 <= i < |t| ==> t[i].service == PtzService
  {
    [
      Entry(PtzService, "GetServiceCapabilities", Always),
      Entry(PtzService, "GetConfigurations", Always),
      Entry(PtzService, "GetConfiguration", Always),
      Entry(PtzService, "GetConfigurationOptions", Always),
      Entry(PtzService, "GetNodes", Always),
      Entry(PtzService, "GetNode", Always),
      Entry(PtzService, "GetPresets", Always),
      Entry(PtzService, "GotoPreset", Always),
      Entry(PtzService, "GotoHomePosition", Always),
      Entry(PtzService, "ContinuousMove", Always),
      Entry(PtzService, "RelativeMove", Always),
      Entry(PtzService, "AbsoluteMove", Always),
      Entry(PtzService, "Stop", Always),
      Entry(PtzService, "GetStatus", Always),
      Entry(PtzService, "SetPreset", Always),
      Entry(PtzService, "SetHomePosition", Always),
      Entry(PtzService, "RemovePreset", Always)
    ]
  }

  /** The events_service rows of the table, in order. */
  function EventsEntries(): (t: seq<Entry>)
    ensures |t| == 8
    ensures forall i :: 0 <= i < |t| ==> t[i].service == EventsService
  {
    [
      Entry(EventsService, "GetServiceCapabilities", Always),
      Entry(EventsService, "CreatePullPointSubscription", Always),
      Entry(EventsService, "PullMessages", Always),
      Entry(EventsService, "Subscribe", Always),
      Entry(EventsService, "Renew", Always),
      Entry(EventsService, "Unsubscribe", Always),
      Entry(EventsService, "GetEventProperties", Always),
      Entry(EventsService, "SetSynchronizationPoint", Always)
    ]
  }

  /** The media2_service rows of the table, in order. */
  function Media2Entries(): (t: seq<Entry>)
    ensures |t| == 17
    ensures forall i :: 0 <= i < |t| ==> t[i].service == Media2Service
    ensures forall i :: 0 <= i < |t| ==> t[i].condition == EnableMedia2
  {
    [
      Entry(Media2Service, "GetServiceCapabilities", EnableMedia2),
      Entry(Media2Service, "GetProfiles", EnableMedia2),
      Entry(Media2Service, "GetVideoSourceModes", EnableMedia2),
      Entry(Media2Service, "GetVideoSourceConfigurations", EnableMedia2),
      Entry(Media2Service, "GetVideoSourceConfigurationOptions", EnableMedia2),
      Entry(Media2Service, "GetVideoEncoderConfigurations", EnableMedia2),
      Entry(Media2Service, "GetVideoEncoderConfigurationOptions", EnableMedia2),
      Entry(Media2Service, "GetAudioSourceConfigurations", EnableMedia2),
      Entry(Media2Service, "GetAudioSourceConfigurationOptions", EnableMedia2),
      Entry(Media2Service, "GetAudioEncoderConfigurations", EnableMedia2),
      Entry(Media2Service, "GetAudioEncoderConfigurationOptions", EnableMedia2),
      Entry(Media2Service, "GetAudioOutputConfigurations", EnableMedia2),
      Entry(Media2Service, "GetAudioOutputConfigurationOptions", EnableMedia2),
      Entry(Media2Service, "GetAudioDecoderConfigurations", EnableMedia2),
      Entry(Media2Service, "GetAudioDecoderConfigurationOptions", EnableMedia2),
      Entry(Media2Service, "GetSnapshotUri", EnableMedia2),
      Entry(Media2Service, "GetStreamUri", EnableMedia2)
    ]
  }
  /** onvif_dispatch_table without its sentinel row. */
  function Table(): seq<Entry> {
    DeviceEntries() + DeviceIoEntries() + MediaEntries() + PtzEntries() + EventsEntries() + Media2Entries()
  }

  // ---------------------------------------------------------------------
  // Reachability over the table

  /** The row the scan stops at. */
  function SelectedEntry(t: seq<Entry>, f: Flags, s: string, m: string): (r: Option<Entry>)
    ensures r.Some? ==> Selects(r.value, f, s, m)
  {
    match FirstSelected(t, f, s, m)
    case Some(i) => Some(t[i])
    case None => None
  }

  /** The scan of two tables one after the other stops in the first when it
      can. */
  lemma SelectedEntryAppend(a: seq<Entry>, b: seq<Entry>, f: Flags, s: string, m: string)
    ensures SelectedEntry(a + b, f, s, m) == OrElse(SelectedEntry(a, f, s, m), SelectedEntry(b, f, s, m))
  {
    FirstSelectedAppend(a, b, f, s, m);
  }

  /** dispatch_onvif_method in terms of the row the scan stops at. */
  lemma DispatchOfSelected(t: seq<Entry>, f: Flags, s: string, m: string)
    ensures DispatchOf(t, f, Some(s), Some(m)) ==
      match SelectedEntry(t, f, s, m)
      case Some(e) => Invoke(e)
      case None =>
        if f.advSynologyNvr == 1 && CaseEq("media_service", s) && CaseEq("CreateProfile", m) then MaxProfilesFault
        else Unsupported(Fallback(s), m)
  {
  }

  /** A block of rows none of which selects the call stops nothing. */
  lemma NoneSelects(t: seq<Entry>, f: Flags, s: string, m: string)
    requires forall i :: 0 <= i < |t| ==> !Selects(t[i], f, s, m)
    ensures SelectedEntry(t, f, s, m).None?
  {
    FirstSelectedSpec(t, f, s, m);
  }

  /** A block of rows of one service selects nothing for a call to
      another service. */
  lemma OtherService(t: seq<Entry>, sv: Service, f: Flags, s: string, m: string)
    requires forall i :: 0 <= i < |t| ==> t[i].service == sv
    requires ServiceOf(s) != Some(sv)
    ensures SelectedEntry(t, f, s, m).None?
  {
    NoneSelects(t, f, s, m);
  }

  /** The scan of six blocks, one after the other. */
  lemma SixBlocks(d: seq<Entry>, io: seq<Entry>, md: seq<Entry>, p: seq<Entry>, ev: seq<Entry>, m2: seq<Entry>,
                  f: Flags, s: string, m: string)
    ensures SelectedEntry(d + io + md + p + ev + m2, f, s, m) ==
      OrElse(SelectedEntry(d, f, s, m), OrElse(SelectedEntry(io, f, s, m), OrElse(SelectedEntry(md, f, s, m),
      OrElse(SelectedEntry(p, f, s, m), OrElse(SelectedEntry(ev, f, s, m), SelectedEntry(m2, f, s, m))))))
  {
    SelectedEntryAppend(d + io + md + p + ev, m2, f, s, m);
    SelectedEntryAppend(d + io + md + p, ev, f, s, m);
    SelectedEntryAppend(d + io + md, p, f, s, m);
    SelectedEntryAppend(d + io, md, f, s, m);
    SelectedEntryAppend(d, io, f, s, m);
  }

  /** Every row of t belongs to service sv. */
  predicate AllOf(t: seq<Entry>, sv: Service) {
    forall i :: 0 <= i < |t| ==> t[i].service == sv
  }

  /** The table's six blocks, each of one service, in the table's order. */
  predicate Blocks(d: seq<Entry>, io: seq<Entry>, md: seq<Entry>, p: seq<Entry>, ev: seq<Entry>, m2: seq<Entry>) {
    AllOf(d, DeviceService) && AllOf(io, DeviceIoService) && AllOf(md, MediaService)
    && AllOf(p, PtzService) && AllOf(ev, EventsService) && AllOf(m2, Media2Service)
  }

  lemma TableBlocks()
    ensures Blocks(DeviceEntries(), DeviceIoEntries(), MediaEntries(), PtzEntries(), EventsEntries(), Media2Entries())
    ensures Table() == DeviceEntries() + DeviceIoEntries() + MediaEntries() + PtzEntries() + EventsEntries() + Media2Entries()
  {
  }

  lemma Media2DisabledIn(d: seq<Entry>, io: seq<Entry>, md: seq<Entry>, p: seq<Entry>, ev: seq<Entry>, m2: seq<Entry>,
                         f: Flags, s: string, m: string)
    requires Blocks(d, io, md, p, ev, m2)
    requires forall i :: 0 <= i < |m2| ==> m2[i].condition == EnableMedia2
    requires f.advEnableMedia2 != 1 && CaseEq("media2_service", s)
    ensures DispatchOf(d + io + md + p + ev + m2, f, Some(s), Some(m)) == Unsupported(Media2Service, m)
  {
    ServiceOfSpec(s, Media2Service);
    DispatchOfSelected(d + io + md + p + ev + m2, f, s, m);
    SixBlocks(d, io, md, p, ev, m2, f, s, m);
    OtherService(d, DeviceService, f, s, m);
    OtherService(io, DeviceIoService, f, s, m);
    OtherService(md, MediaService, f, s, m);
    OtherService(p, PtzService, f, s, m);
    OtherService(ev, EventsService, f, s, m);
    NoneSelects(m2, f, s, m);
  }

  /** With adv_enable_media2 off, every media2_service call reaches
      media2_unsupported. */
  lemma Media2Disabled(f: Flags, s: string, m: string)
    requires f.advEnableMedia2 != 1 && CaseEq("media2_service", s)
    ensures DispatchOf(Table(), f, Some(s), Some(m)) == Unsupported(Media2Service, m)
  {
    TableBlocks();
    Media2DisabledIn(DeviceEntries(), DeviceIoEntries(), MediaEntries(), PtzEntries(), EventsEntries(), Media2Entries(), f, s, m);
  }

  lemma UnknownServiceIn(d: seq<Entry>, io: seq<Entry>, md: seq<Entry>, p: seq<Entry>, ev: seq<Entry>, m2: seq<Entry>,
                         f: Flags, s: string, m: string)
    requires Blocks(d, io, md, p, ev, m2)
    requires ServiceOf(s).None?
    ensures DispatchOf(d + io + md + p + ev + m2, f, Some(s), Some(m)) == Unsupported(DeviceService, m)
  {
    DispatchOfSelected(d + io + md + p + ev + m2, f, s, m);
    SixBlocks(d, io, md, p, ev, m2, f, s, m);
    OtherService(d, DeviceService, f, s, m);
    OtherService(io, DeviceIoService, f, s, m);
    OtherService(md, MediaService, f, s, m);
    OtherService(p, PtzService, f, s, m);
    OtherService(ev, EventsService, f, s, m);
    OtherService(m2, Media2Service, f, s, m);
  }

  /** A service name the table does not know, such as imaging_service,
      reaches device_unsupported. */
  lemma UnknownService(f: Flags, s: string, m: string)
    requires ServiceOf(s).None?
    ensures DispatchOf(Table(), f, Some(s), Some(m)) == Unsupported(DeviceService, m)
  {
    TableBlocks();
    UnknownServiceIn(DeviceEntries(), DeviceIoEntries(), MediaEntries(), PtzEntries(), EventsEntries(), Media2Entries(), f, s, m);
  }

  lemma ImagingIsUnknown(s: string)
    requires CaseEq("imaging_service", s)
    ensures ServiceOf(s).None?
  {
  }

  /** An unmatched call to a known service goes to that service's
      unsupported handler (the Synology case aside). */
  lemma UnmatchedFallsBack(t: seq<Entry>, f: Flags, sv: Service, s: string, m: string)
    requires CaseEq(ServiceName(sv), s)
    requires forall i :: 0 <= i < |t| ==> !Selects(t[i], f, s, m)
    requires !(f.advSynologyNvr == 1 && sv == MediaService && CaseEq("CreateProfile", m))
    ensures DispatchOf(t, f, Some(s), Some(m)) == Unsupported(sv, m)
  {
    FirstSelectedSpec(t, f, s, m);
    ServiceOfSpec(s, sv);
    ServiceOfSpec(s, MediaService);
  }

  /** A row whose name differs from m's in the first letter does not
      match m. */
  lemma FirstLetterDiffers(a: string, b: string, m: string)
    requires |a| > 0 && |b| > 0 && LowerChar(a[0]) != LowerChar(b[0])
    requires CaseEq(b, m)
    ensures !CaseEq(a, m)
  {
    CaseEqHead(b, m);
  }

  /** In the media_service block, CreateProfile is answered by its
      unconditional row. */
  lemma MediaCreateProfile(f: Flags, s: string, m: string)
    requires ServiceOf(s) == Some(MediaService) && CaseEq("CreateProfile", m)
    ensures SelectedEntry(MediaEntries(), f, s, m) == Some(Entry(MediaService, "CreateProfile", Always))
  {
    var a := MediaEntriesA();
    forall j | 0 <= j < 8 ensures !Selects(a[j], f, s, m) {
      FirstLetterDiffers(a[j].methodName, "CreateProfile", m);
    }
    FirstSelectedAt(a, f, s, m, 8);
    SelectedEntryAppend(a + MediaEntriesB() + MediaEntriesC(), MediaSetEntries(), f, s, m);
    SelectedEntryAppend(a + MediaEntriesB(), MediaEntriesC(), f, s, m);
    SelectedEntryAppend(a, MediaEntriesB(), f, s, m);
  }

  /** A media_service call the media block answers is answered there. */
  lemma MediaAnswersIn(d: seq<Entry>, io: seq<Entry>, md: seq<Entry>, p: seq<Entry>, ev: seq<Entry>, m2: seq<Entry>,
                       f: Flags, s: string, m: string)
    requires Blocks(d, io, md, p, ev, m2)
    requires ServiceOf(s) == Some(MediaService) && SelectedEntry(md, f, s, m).Some?
    ensures DispatchOf(d + io + md + p + ev + m2, f, Some(s), Some(m)) == Invoke(SelectedEntry(md, f, s, m).value)
  {
    DispatchOfSelected(d + io + md + p + ev + m2, f, s, m);
    SixBlocks(d, io, md, p, ev, m2, f, s, m);
    OtherService(d, DeviceService, f, s, m);
    OtherService(io, DeviceIoService, f, s, m);
  }

  /** A media_service call the media block does not answer reaches
      media_unsupported, unless it is the Synology CreateProfile case. */
  lemma MediaUnansweredIn(d: seq<Entry>, io: seq<Entry>, md: seq<Entry>, p: seq<Entry>, ev: seq<Entry>, m2: seq<Entry>,
                          f: Flags, s: string, m: string)
    requires Blocks(d, io, md, p, ev, m2)
    requires ServiceOf(s) == Some(MediaService) && SelectedEntry(md, f, s, m).None?
    requires !CaseEq("CreateProfile", m)
    ensures DispatchOf(d + io + md + p + ev + m2, f, Some(s), Some(m)) == Unsupported(MediaService, m)
  {
    DispatchOfSelected(d + io + md + p + ev + m2, f, s, m);
    SixBlocks(d, io, md, p, ev, m2, f, s, m);
    OtherService(d, DeviceService, f, s, m);
    OtherService(io, DeviceIoService, f, s, m);
    OtherService(p, PtzService, f, s, m);
    OtherService(ev, EventsService, f, s, m);
    OtherService(m2, Media2Service, f, s, m);
  }

  /** The Synology MaxNVTProfiles branch is unreachable: the unconditional
      CreateProfile row always answers first. */
  lemma SynologyBranchUnreachable(f: Flags, s: string, m: string)
    requires CaseEq("media_service", s) && CaseEq("CreateProfile", m)
    ensures DispatchOf(Table(), f, Some(s), Some(m)) == Invoke(Entry(MediaService, "CreateProfile", Always))
  {
    ServiceOfSpec(s, MediaService);
    MediaCreateProfile(f, s, m);
    TableBlocks();
    MediaAnswersIn(DeviceEntries(), DeviceIoEntries(), MediaEntries(), PtzEntries(), EventsEntries(), Media2Entries(), f, s, m);
  }

  /** No media_service row but the Set rows can match a method that starts
      with 's' or 'S'. */
  lemma MediaGetRowsMissS(f: Flags, s: string, m: string)
    requires |m| > 0 && LowerChar(m[0]) == 's'
    ensures SelectedEntry(MediaEntriesA() + MediaEntriesB() + MediaEntriesC(), f, s, m).None?
  {
    var a, b, c := MediaEntriesA(), MediaEntriesB(), MediaEntriesC();
    assert a[8].methodName[0] == 'C';
    forall j | 0 <= j < |a| ensures !Selects(a[j], f, s, m) {
      if CaseEq(a[j].methodName, m) { CaseEqHead(a[j].methodName, m); }
    }
    forall j | 0 <= j < |b| ensures !Selects(b[j], f, s, m) {
      if CaseEq(b[j].methodName, m) { CaseEqHead(b[j].methodName, m); }
    }
    forall j | 0 <= j < |c| ensures !Selects(c[j], f, s, m) {
      if CaseEq(c[j].methodName, m) { CaseEqHead(c[j].methodName, m); }
    }
    NoneSelects(a, f, s, m);
    NoneSelects(b, f, s, m);
    NoneSelects(c, f, s, m);
    SelectedEntryAppend(a + b, c, f, s, m);
    SelectedEntryAppend(a, b, f, s, m);
  }

  /** In the media_service block, a Set method is answered by a Set row
      when adv_fault_if_set is 1, and by no row otherwise. */
  lemma MediaSetRows(f: Flags, s: string, m: string, k: nat)
    requires ServiceOf(s) == Some(MediaService)
    requires k < |MediaSetEntries()| && CaseEq(MediaSetEntries()[k].methodName, m)
    ensures f.advFaultIfSet != 1 ==> SelectedEntry(MediaEntries(), f, s, m).None?
    ensures f.advFaultIfSet == 1 ==>
      SelectedEntry(MediaEntries(), f, s, m).Some?
      && SelectedEntry(MediaEntries(), f, s, m).value.condition == FaultIfSet
  {
    var st := MediaSetEntries();
    CaseEqHead(st[k].methodName, m);
    MediaGetRowsMissS(f, s, m);
    SelectedEntryAppend(MediaEntriesA() + MediaEntriesB() + MediaEntriesC(), st, f, s, m);
    FirstSelectedSpec(st, f, s, m);
    if f.advFaultIfSet == 1 {
      assert Selects(st[k], f, s, m);
    }
  }

  /** The media_service Set rows answer only when adv_fault_if_set is 1:
      otherwise the call reaches media_unsupported; when it is 1, a Set
      method reaches a Set row's handler. */
  lemma MediaSetNeedsFaultIfSet(f: Flags, s: string, m: string, k: nat)
    requires CaseEq("media_service", s)
    requires k < |MediaSetEntries()| && CaseEq(MediaSetEntries()[k].methodName, m)
    ensures f.advFaultIfSet != 1 ==> DispatchOf(Table(), f, Some(s), Some(m)) == Unsupported(MediaService, m)
    ensures f.advFaultIfSet == 1 ==>
      DispatchOf(Table(), f, Some(s), Some(m)).Invoke?
      && DispatchOf(Table(), f, Some(s), Some(m)).entry.condition == FaultIfSet
      && CaseEq(DispatchOf(Table(), f, Some(s), Some(m)).entry.methodName, m)
  {
    ServiceOfSpec(s, MediaService);
    MediaSetRows(f, s, m, k);
    TableBlocks();
    var d, io, md, p, ev, m2 := DeviceEntries(), DeviceIoEntries(), MediaEntries(), PtzEntries(), EventsEntries(), Media2Entries();
    if f.advFaultIfSet != 1 {
      CaseEqHead(MediaSetEntries()[k].methodName, m);
      if CaseEq("CreateProfile", m) { CaseEqHead("CreateProfile", m); }
      MediaUnansweredIn(d, io, md, p, ev, m2, f, s, m);
    } else {
      MediaAnswersIn(d, io, md, p, ev, m2, f, s, m);
    }
  }

  /** Each service's own name leads back to it. */
  lemma FallbackOwnService(sv: Service)
    ensures Fallback(ServiceName(sv)) == sv
  {
    assert CaseEq(ServiceName(sv), ServiceName(sv));
    ServiceOfSpec(ServiceName(sv), sv);
  }
}
