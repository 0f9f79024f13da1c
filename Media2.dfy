/** The selection logic of media2_service.c: which audio capabilities the
    profiles offer, the capability string, the configurations a GetProfiles
    request asks for and the profiles it lists, how request tokens are cut
    and matched against profile names, the codec tables of the audio
    options and the faults of the Set* methods. The XML templates and the
    values substituted into them are left to the template engine. */
module Media2 {
  import opened Wrappers
  import opened CString
  import opened ServiceContext

  // ---------------------------------------------------------------------
  // Audio decoding profiles

  /** The number of profiles with an audio decoder. */
  function DecoderProfiles(ps: seq<Profile>): (r: nat)
    ensures r <= |ps|
  {
    if ps == [] then 0
    else DecoderProfiles(ps[..|ps| - 1]) + (if ps[|ps| - 1].decoder != AudioNone then 1 else 0)
  }

  /** No profile decodes audio exactly when the count is zero. */
  lemma {:induction false} NoDecoderProfiles(ps: seq<Profile>)
    ensures DecoderProfiles(ps) == 0 <==> forall i :: 0 <= i < |ps| ==> ps[i].decoder == AudioNone
  {
    if ps != [] {
      var init := ps[..|ps| - 1];
      NoDecoderProfiles(init);
      assert forall i :: 0 <= i < |init| ==> init[i] == ps[i];
    }
  }

  /** media2_audio_decoder_profile_count */
  method CountDecoderProfiles(ps: seq<Profile>) returns (count: nat)
    ensures count == DecoderProfiles(ps)
  {
    count := 0;
    var i := 0;
    while i < |ps|
      invariant 0 <= i <= |ps| && count == DecoderProfiles(ps[..i])
    {
      if ps[i].decoder != AudioNone {
        count := count + 1;
      }
      assert ps[..i + 1][..i] == ps[..i];
      i := i + 1;
    }
    assert ps[..i] == ps;
  }

  /** media2_audio_output_supported: audio output needs the output enabled
      and some profile that decodes audio; otherwise the method faults. */
  method AudioOutputSupported(outputEnabled: bool, ps: seq<Profile>) returns (supported: bool)
    ensures supported <==> outputEnabled && exists i :: 0 <= i < |ps| && ps[i].decoder != AudioNone
  {
    var count := CountDecoderProfiles(ps);
    NoDecoderProfiles(ps);
    supported := outputEnabled && count != 0;
  }

  // ---------------------------------------------------------------------
  // The capability string of GetServiceCapabilities

  datatype Capability =
    | CapVideoSource | CapVideoEncoder | CapAudioSource | CapAudioEncoder
    | CapAudioOutput | CapAudioDecoder | CapPtz

  function CapabilityName(c: Capability): (r: string)
    ensures 0 < |r| <= 12 && SpaceFree(r)
  {
    match c
    case CapVideoSource => "VideoSource"
    case CapVideoEncoder => "VideoEncoder"
    case CapAudioSource => "AudioSource"
    case CapAudioEncoder => "AudioEncoder"
    case CapAudioOutput => "AudioOutput"
    case CapAudioDecoder => "AudioDecoder"
    case CapPtz => "PTZ"
  }

  /** The place of each capability in the string. */
  function Rank(c: Capability): nat {
    match c
    case CapVideoSource => 0
    case CapVideoEncoder => 1
    case CapAudioSource => 2
    case CapAudioEncoder => 3
    case CapAudioOutput => 4
    case CapAudioDecoder => 5
    case CapPtz => 6
  }

  /** The first profile, or the second when there are exactly two, encodes
      audio. */
  predicate AudioEncoderOffered(ps: seq<Profile>) {
    (|ps| > 0 && ps[0].encoder != AudioNone) || (|ps| == 2 && ps[1].encoder != AudioNone)
  }

  /** The same for decoding. */
  predicate AudioDecoderOffered(ps: seq<Profile>) {
    (|ps| > 0 && ps[0].decoder != AudioNone) || (|ps| == 2 && ps[1].decoder != AudioNone)
  }

  /** Each capability comes after the one before it in the fixed order. */
  predicate Ascending(cs: seq<Capability>) {
    forall i :: 0 < i < |cs| ==> Rank(cs[i - 1]) < Rank(cs[i])
  }

  /** One strcat under its condition. */
  function Add<T>(cs: seq<T>, c: T, when: bool): (r: seq<T>)
    ensures |r| == if when then |cs| + 1 else |cs|
    ensures r[..|cs|] == cs && (when ==> r[|cs|] == c)
  {
    if when then cs + [c] else cs
  }

  lemma AddMember<T>(cs: seq<T>, c: T, when: bool, x: T)
    ensures x in Add(cs, c, when) <==> x in cs || (when && x == c)
  {
  }

  lemma AddAscending(cs: seq<Capability>, c: Capability, when: bool)
    requires Ascending(cs) && cs != [] && Rank(cs[|cs| - 1]) < Rank(c)
    ensures Ascending(Add(cs, c, when)) && Rank(Add(cs, c, when)[|Add(cs, c, when)| - 1]) <= Rank(c)
  {
  }

  /** The capabilities the device announces: one conditional strcat
      after another. */
  function Offered(ps: seq<Profile>, outputEnabled: bool, ptzEnable: int): (r: seq<Capability>)
    ensures |r| >= 2 && r[..2] == [CapVideoSource, CapVideoEncoder]
  {
    var audio := Add(Add([CapVideoSource, CapVideoEncoder], CapAudioSource, AudioEncoderOffered(ps)),
                     CapAudioEncoder, AudioEncoderOffered(ps));
    Add(Add(Add(audio, CapAudioOutput, outputEnabled), CapAudioDecoder, AudioDecoderOffered(ps)),
        CapPtz, ptzEnable == 1)
  }

  /** The condition under which each capability is announced. */
  predicate Wanted(c: Capability, ps: seq<Profile>, outputEnabled: bool, ptzEnable: int) {
    match c
    case CapVideoSource => true
    case CapVideoEncoder => true
    case CapAudioSource => AudioEncoderOffered(ps)
    case CapAudioEncoder => AudioEncoderOffered(ps)
    case CapAudioOutput => outputEnabled
    case CapAudioDecoder => AudioDecoderOffered(ps)
    case CapPtz => ptzEnable == 1
  }

  /** Each capability is announced exactly under its condition. */
  lemma OfferedMember(ps: seq<Profile>, outputEnabled: bool, ptzEnable: int, c: Capability)
    ensures c in Offered(ps, outputEnabled, ptzEnable) <==> Wanted(c, ps, outputEnabled, ptzEnable)
  {
    var base := [CapVideoSource, CapVideoEncoder];
    var a := Add(base, CapAudioSource, AudioEncoderOffered(ps));
    var b := Add(a, CapAudioEncoder, AudioEncoderOffered(ps));
    var e := Add(b, CapAudioOutput, outputEnabled);
    var d := Add(e, CapAudioDecoder, AudioDecoderOffered(ps));
    AddMember(base, CapAudioSource, AudioEncoderOffered(ps), c);
    AddMember(a, CapAudioEncoder, AudioEncoderOffered(ps), c);
    AddMember(b, CapAudioOutput, outputEnabled, c);
    AddMember(e, CapAudioDecoder, AudioDecoderOffered(ps), c);
    AddMember(d, CapPtz, ptzEnable == 1, c);
    assert c in base <==> c == CapVideoSource || c == CapVideoEncoder;
    assert Offered(ps, outputEnabled, ptzEnable) == Add(d, CapPtz, ptzEnable == 1);
  }

  /** The capabilities always come in the same order. */
  lemma OfferedAscending(ps: seq<Profile>, outputEnabled: bool, ptzEnable: int)
    ensures Ascending(Offered(ps, outputEnabled, ptzEnable))
  {
    var base := [CapVideoSource, CapVideoEncoder];
    var a := Add(base, CapAudioSource, AudioEncoderOffered(ps));
    var b := Add(a, CapAudioEncoder, AudioEncoderOffered(ps));
    var c := Add(b, CapAudioOutput, outputEnabled);
    var d := Add(c, CapAudioDecoder, AudioDecoderOffered(ps));
    assert Ascending(base) && Rank(base[|base| - 1]) == 1;
    AddAscending(base, CapAudioSource, AudioEncoderOffered(ps));
    AddAscending(a, CapAudioEncoder, AudioEncoderOffered(ps));
    AddAscending(b, CapAudioOutput, outputEnabled);
    AddAscending(c, CapAudioDecoder, AudioDecoderOffered(ps));
    AddAscending(d, CapPtz, ptzEnable == 1);
  }

  function Names(cs: seq<Capability>): (r: seq<string>)
    ensures |r| == |cs|
  {
    seq(|cs|, i requires 0 <= i < |cs| => CapabilityName(cs[i]))
  }

  /** Words separated by single spaces. */
  function Join(ws: seq<string>): string {
    if |ws| == 0 then ""
    else if |ws| == 1 then ws[0]
    else Join(ws[..|ws| - 1]) + (" " + ws[|ws| - 1])
  }

  /** s has no space in it. */
  predicate SpaceFree(s: string) {
    forall i :: 0 <= i < |s| ==> s[i] != ' '
  }

  /** The last space in s. */
  function LastSpace(s: string): (r: Option<nat>)
    ensures r.Some? ==> r.value < |s| && s[r.value] == ' ' && forall j :: r.value < j < |s| ==> s[j] != ' '
    ensures SpaceFree(s) ==> r.None?
  {
    if s == [] then None
    else if s[|s| - 1] == ' ' then Some(|s| - 1)
    else LastSpace(s[..|s| - 1])
  }

  /** The words of a space-separated text, as a reader of the capability
      attribute takes them apart. */
  function Split(s: string): (r: seq<string>)
    decreases |s|
  {
    match LastSpace(s)
    case None => [s]
    case Some(i) => Split(s[..i]) + [s[i + 1..]]
  }

  lemma {:induction false} LastSpaceAt(s: string, k: nat)
    requires k < |s| && s[k] == ' ' && forall j :: k < j < |s| ==> s[j] != ' '
    ensures LastSpace(s) == Some(k)
    decreases |s|
  {
    if k < |s| - 1 {
      LastSpaceAt(s[..|s| - 1], k);
    }
  }

  /** Joining words without spaces and splitting the text gives the words
      back. */
  lemma {:induction false} SplitJoin(ws: seq<string>)
    requires ws != [] && forall i :: 0 <= i < |ws| ==> SpaceFree(ws[i])
    ensures Split(Join(ws)) == ws
  {
    if |ws| > 1 {
      var init, last := ws[..|ws| - 1], ws[|ws| - 1];
      assert Join(ws) == Join(init) + (" " + last);
      SplitSnoc(Join(init), last);
      SplitJoin(init);
      assert init + [last] == ws;
    }
  }

  /** Splitting a text with one more word after a space. */
  lemma SplitSnoc(a: string, b: string)
    requires SpaceFree(b)
    ensures Split(a + (" " + b)) == Split(a) + [b]
  {
    var s := a + (" " + b);
    assert s[|a|] == ' ' && s[|a| + 1..] == b && s[..|a|] == a;
    LastSpaceAt(s, |a|);
  }

  /** One strcat of a name keeps the text the join of the capabilities so
      far. */
  lemma TextStep(cap: string, cs: seq<Capability>, c: Capability)
    requires cs != [] && cap == Join(Names(cs))
    ensures cap + (" " + CapabilityName(c)) == Join(Names(cs + [c]))
  {
    assert Names(cs + [c])[..|cs|] == Names(cs);
  }

  /** One conditional strcat of a name, with its space, keeps the text the
      join of the capabilities announced so far. */
  lemma Announce(cap: string, cs: seq<Capability>, c: Capability, when: bool)
    requires cs != [] && cap == Join(Names(cs))
    ensures (if when then cap + (" " + CapabilityName(c)) else cap) == Join(Names(Add(cs, c, when)))
  {
    if when {
      TextStep(cap, cs, c);
    }
  }

  /** The first strcat is the two video names with a space between. */
  lemma VideoText()
    ensures CapabilityName(CapVideoSource) + (" " + CapabilityName(CapVideoEncoder))
         == Join(Names([CapVideoSource, CapVideoEncoder]))
  {
    var ns := Names([CapVideoSource, CapVideoEncoder]);
    assert ns[..1] == [CapabilityName(CapVideoSource)];
  }

  /** `if (when) strcat(cap, " <name>")`, with the capabilities the text
      names before and after. */
  method AppendCapability(cap: string, ghost cs: seq<Capability>, c: Capability, when: bool)
    returns (r: string, ghost rs: seq<Capability>)
    requires cs != [] && cap == Join(Names(cs))
    ensures rs == Add(cs, c, when) && r == Join(Names(rs))
    ensures |r| <= |cap| + 13
  {
    Announce(cap, cs, c, when);
    r, rs := cap, Add(cs, c, when);
    if when {
      r := cap + (" " + CapabilityName(c));
    }
  }

  /** media2_get_service_capabilities: the names joined in their fixed
      order, never more than the 255 characters cap[256] holds. Each
      literal the source appends is written as the name it spells with its
      leading space; " AudioSource AudioEncoder" is two such names. */
  method ServiceCapabilities(ps: seq<Profile>, outputEnabled: bool, ptzEnable: int) returns (cap: string)
    requires |ps| >= 1
    ensures cap == Join(Names(Offered(ps, outputEnabled, ptzEnable)))
    ensures |cap| < 256
  {
    var audio, decoding := AudioEncoderOffered(ps), AudioDecoderOffered(ps);
    cap := CapabilityName(CapVideoSource) + (" " + CapabilityName(CapVideoEncoder));
    ghost var offered := [CapVideoSource, CapVideoEncoder];
    VideoText();
    cap, offered := AppendCapability(cap, offered, CapAudioSource, audio);
    cap, offered := AppendCapability(cap, offered, CapAudioEncoder, audio);
    cap, offered := AppendCapability(cap, offered, CapAudioOutput, outputEnabled);
    cap, offered := AppendCapability(cap, offered, CapAudioDecoder, decoding);
    cap, offered := AppendCapability(cap, offered, CapPtz, ptzEnable == 1);
    assert offered == Offered(ps, outputEnabled, ptzEnable);
  }

  /** A reader splitting the capability string finds exactly the offered
      capabilities, in order. */
  lemma CapabilityWords(ps: seq<Profile>, outputEnabled: bool, ptzEnable: int)
    requires |ps| >= 1
    ensures Split(Join(Names(Offered(ps, outputEnabled, ptzEnable)))) == Names(Offered(ps, outputEnabled, ptzEnable))
  {
    var ns := Names(Offered(ps, outputEnabled, ptzEnable));
    assert forall i :: 0 <= i < |ns| ==> SpaceFree(ns[i]) by {
      forall i | 0 <= i < |ns| ensures SpaceFree(ns[i]) {
        assert ns[i] == CapabilityName(Offered(ps, outputEnabled, ptzEnable)[i]);
      }
    }
    SplitJoin(ns);
  }

  // ---------------------------------------------------------------------
  // GetProfiles: the configuration types asked for

  datatype Requested = Requested(
    videoSource: bool, audioSource: bool, videoEncoder: bool, audioEncoder: bool,
    ptz: bool, audioOutput: bool, audioDecoder: bool)

  /** A Type text asks for the configuration `word` names. */
  predicate Mentions(text: string, word: string) {
    Contains(text, word) || Contains(text, "All")
  }

  /** Some Type text contains `word`, or "All". */
  predicate Asks(types: seq<Option<string>>, word: string) {
    exists i :: 0 <= i < |types| && types[i].Some? && Mentions(types[i].value, word)
  }

  /** The configurations the Type texts ask for, each by its name. */
  function RequestedBy(types: seq<Option<string>>): Requested {
    Requested(Asks(types, "VideoSource"), Asks(types, "AudioSource"), Asks(types, "VideoEncoder"),
              Asks(types, "AudioEncoder"), Asks(types, "PTZ"), Asks(types, "AudioOutput"),
              Asks(types, "AudioDecoder"))
  }

  lemma AsksStep(types: seq<Option<string>>, n: nat, word: string)
    requires n < |types|
    ensures Asks(types[..n + 1], word) <==> Asks(types[..n], word) || (types[n].Some? && Mentions(types[n].value, word))
  {
    var pre := types[..n + 1];
    if Asks(pre, word) {
      var i :| 0 <= i < |pre| && pre[i].Some? && Mentions(pre[i].value, word);
      if i < n {
        assert types[..n][i] == pre[i];
      }
    }
    if Asks(types[..n], word) {
      var i :| 0 <= i < n && types[..n][i].Some? && Mentions(types[..n][i].value, word);
      assert pre[i] == types[..n][i];
    }
    if types[n].Some? && Mentions(types[n].value, word) {
      assert pre[n] == types[n];
    }
  }

  /** The flags asked for so far, and one more Type. */
  lemma RequestedStep(types: seq<Option<string>>, n: nat)
    requires n < |types|
    ensures var req, t := RequestedBy(types[..n]), types[n];
      RequestedBy(types[..n + 1]) == if t.None? then req else
        Requested(req.videoSource || Mentions(t.value, "VideoSource"), req.audioSource || Mentions(t.value, "AudioSource"),
                  req.videoEncoder || Mentions(t.value, "VideoEncoder"), req.audioEncoder || Mentions(t.value, "AudioEncoder"),
                  req.ptz || Mentions(t.value, "PTZ"), req.audioOutput || Mentions(t.value, "AudioOutput"),
                  req.audioDecoder || Mentions(t.value, "AudioDecoder"))
  {
    AsksStep(types, n, "VideoSource");
    AsksStep(types, n, "AudioSource");
    AsksStep(types, n, "VideoEncoder");
    AsksStep(types, n, "AudioEncoder");
    AsksStep(types, n, "PTZ");
    AsksStep(types, n, "AudioOutput");
    AsksStep(types, n, "AudioDecoder");
  }

  /** The body of the Type loop for one text: each strstr sets its flag,
      "All" sets all seven. */
  method ReadType(text: string, req: Requested) returns (r: Requested)
    ensures r == Requested(req.videoSource || Mentions(text, "VideoSource"), req.audioSource || Mentions(text, "AudioSource"),
                           req.videoEncoder || Mentions(text, "VideoEncoder"), req.audioEncoder || Mentions(text, "AudioEncoder"),
                           req.ptz || Mentions(text, "PTZ"), req.audioOutput || Mentions(text, "AudioOutput"),
                           req.audioDecoder || Mentions(text, "AudioDecoder"))
  {
    var vsc, asc, vec, aec, ptz, aoc, adc := req.videoSource, req.audioSource, req.videoEncoder, req.audioEncoder,
                                             req.ptz, req.audioOutput, req.audioDecoder;
    if Contains(text, "VideoSource") { vsc := true; }
    if Contains(text, "AudioSource") { asc := true; }
    if Contains(text, "VideoEncoder") { vec := true; }
    if Contains(text, "AudioEncoder") { aec := true; }
    if Contains(text, "PTZ") { ptz := true; }
    if Contains(text, "AudioOutput") { aoc := true; }
    if Contains(text, "AudioDecoder") { adc := true; }
    if Contains(text, "All") {
      vsc, asc, vec, aec, ptz, aoc, adc := true, true, true, true, true, true, true;
    }
    r := Requested(vsc, asc, vec, aec, ptz, aoc, adc);
  }

  /** The Type loop of media2_get_profiles over the texts of the first Type
      element and each sibling after it (None for a node without text):
      every text sets the flags whose names it contains, "All" sets all
      seven; the count is the number of nodes visited. */
  method ReadTypes(types: seq<Option<string>>) returns (req: Requested, count: nat)
    ensures req == RequestedBy(types) && count == |types|
    ensures (exists i :: 0 <= i < |types| && types[i].Some? && Contains(types[i].value, "All"))
            ==> req == Requested(true, true, true, true, true, true, true)
  {
    req := Requested(false, false, false, false, false, false, false);
    count := 0;
    while count < |types|
      invariant count <= |types| && req == RequestedBy(types[..count])
    {
      RequestedStep(types, count);
      if types[count].Some? {
        req := ReadType(types[count].value, req);
      }
      count := count + 1;
    }
    assert types[..count] == types;
  }

  // ---------------------------------------------------------------------
  // GetProfiles: the profiles listed

  /** The profile a token names: the first profile, or the second when
      there are exactly two, by case-insensitive name. */
  function TokenProfile(ps: seq<Profile>, token: string): (r: Option<nat>)
    ensures r.Some? ==> r.value < |ps| && r.value < 2 && NameIs(ps[r.value], token)
    ensures r == Some(1) ==> !NameIs(ps[0], token)
    ensures r.None? <==> !(|ps| > 0 && NameIs(ps[0], token)) && !(|ps| == 2 && NameIs(ps[1], token))
  {
    if |ps| > 0 && NameIs(ps[0], token) then Some(0)
    else if |ps| == 2 && NameIs(ps[1], token) then Some(1)
    else None
  }

  datatype Selection =
    | NoProfiles       // the empty GetProfiles_none response
    | Single(index: nat)
    | FirstTwo
    | NoProfileFault
    | Unselected       // neither a response nor a fault

  /** The profiles listed by each selection. */
  function Listed(s: Selection): seq<nat> {
    match s
    case Single(i) => [i]
    case FirstTwo => [0, 1]
    case _ => []
  }

  /** The selection of media2_get_profiles as written: with no Token and
      more than two profiles, q is left unset and no branch answers. */
  function SelectProfiles(ps: seq<Profile>, token: Option<string>): (r: Selection)
    ensures r == NoProfiles <==> |ps| == 0
    ensures r.Single? ==> r.index < |ps| && (token.Some? ==> NameIs(ps[r.index], token.value))
    ensures r.Single? && token.None? ==> |ps| == 1
    ensures r == FirstTwo <==> token.None? && |ps| == 2
    ensures r == NoProfileFault <==> |ps| > 0 && token.Some? && TokenProfile(ps, token.value).None?
    ensures token.Some? && TokenProfile(ps, token.value).Some? ==> r == Single(TokenProfile(ps, token.value).value)
    ensures r == Unselected <==> token.None? && |ps| > 2
  {
    if |ps| == 0 then NoProfiles
    else if token.None? then
      if |ps| == 1 then Single(0)
      else if |ps| == 2 then FirstTwo
      else Unselected
    else match TokenProfile(ps, token.value)
      case Some(i) => Single(i)
      case None => NoProfileFault
  }

  /** Three profiles and no Token: GetProfiles gives no answer at all. */
  lemma ThreeProfilesUnanswered(p: Profile)
    ensures SelectProfiles([p, p, p], None) == Unselected
    ensures Listed(SelectProfiles([p, p, p], None)) == []
  {
  }

  /** The selection with every case answered: from two profiles on, the
      two the service describes are listed. */
  function SelectProfilesCorrected(ps: seq<Profile>, token: Option<string>): (r: Selection)
    ensures r != Unselected
    ensures forall k :: 0 <= k < |Listed(r)| ==> Listed(r)[k] < |ps|
  {
    if |ps| >= 2 && token.None? then FirstTwo else SelectProfiles(ps, token)
  }

  /** The corrected selection changes only the unanswered case. */
  lemma CorrectedSelectionAgrees(ps: seq<Profile>, token: Option<string>)
    ensures SelectProfiles(ps, token) != Unselected ==> SelectProfilesCorrected(ps, token) == SelectProfiles(ps, token)
    ensures |ps| > 2 && token.None? ==> Listed(SelectProfilesCorrected(ps, token)) == [0, 1]
  {
  }

  // ---------------------------------------------------------------------
  // GetProfiles: the configurations written for one profile

  /** One flag per configuration kind, now for the parts a profile's
      reply contains (written in the order of the fields). */
  const Nothing := Requested(false, false, false, false, false, false, false)
  const Everything := Requested(true, true, true, true, true, true, true)

  /** Every part `a` has, `b` has too. */
  predicate Within(a: Requested, b: Requested) {
    && (a.videoSource ==> b.videoSource) && (a.audioSource ==> b.audioSource)
    && (a.videoEncoder ==> b.videoEncoder) && (a.audioEncoder ==> b.audioEncoder)
    && (a.ptz ==> b.ptz) && (a.audioOutput ==> b.audioOutput) && (a.audioDecoder ==> b.audioDecoder)
  }

  /** The configuration parts written for profile h: none when no Type was
      given; otherwise each one asked for, audio source only when some
      profile encodes, audio encoder when profile h encodes, PTZ when the
      node is enabled, audio output and decoder only when profile h
      decodes, the output also only when it is enabled. */
  function ProfileSections(req: Requested, nType: nat, ps: seq<Profile>, h: nat, outputEnabled: bool, ptzEnable: int)
    : (r: Requested)
    requires h < |ps|
    ensures nType == 0 ==> r == Nothing
    ensures Within(r, req)
    ensures nType > 0 ==> r.videoSource == req.videoSource && r.videoEncoder == req.videoEncoder
    ensures nType > 0 ==> (r.audioSource <==> req.audioSource && AudioEncoderOffered(ps))
    ensures nType > 0 ==> (r.audioEncoder <==> req.audioEncoder && ps[h].encoder != AudioNone)
    ensures nType > 0 ==> (r.ptz <==> req.ptz && ptzEnable == 1)
    ensures nType > 0 ==> (r.audioOutput <==> ps[h].decoder != AudioNone && req.audioOutput && outputEnabled)
    ensures nType > 0 ==> (r.audioDecoder <==> ps[h].decoder != AudioNone && req.audioDecoder)
  {
    if nType == 0 then Nothing
    else
      var decodes := ps[h].decoder != AudioNone;
      Requested(req.videoSource, req.audioSource && AudioEncoderOffered(ps), req.videoEncoder,
                req.audioEncoder && ps[h].encoder != AudioNone, req.ptz && ptzEnable == 1,
                decodes && req.audioOutput && outputEnabled, decodes && req.audioDecoder)
  }

  /** Asking for "All" of a listed profile that encodes and decodes audio,
      with the output and the PTZ node enabled, writes every part. */
  lemma AllSectionsWritten(types: seq<Option<string>>, ps: seq<Profile>, h: nat)
    requires h < |ps| && ps[h].encoder != AudioNone && ps[h].decoder != AudioNone
    requires h == 0 || (h == 1 && |ps| == 2)
    requires exists i :: 0 <= i < |types| && types[i].Some? && Contains(types[i].value, "All")
    ensures ProfileSections(RequestedBy(types), |types|, ps, h, true, 1) == Everything
  {
  }

  /** A profile that decodes no audio never gets the audio output or
      decoder part, whatever was asked. */
  lemma NoDecoderNoOutput(req: Requested, nType: nat, ps: seq<Profile>, h: nat, outputEnabled: bool, ptzEnable: int)
    requires h < |ps| && ps[h].decoder == AudioNone
    ensures !ProfileSections(req, nType, ps, h, outputEnabled, ptzEnable).audioOutput
    ensures !ProfileSections(req, nType, ps, h, outputEnabled, ptzEnable).audioDecoder
  {
  }

  // ---------------------------------------------------------------------
  // Request tokens

  /** token[10] filled by strncpy(token, x, 9): a profile name such as
      "Profile_0" is kept, whatever follows it. */
  const ProfileTokenLength: nat := 9

  /** The token of GetVideoSourceConfigurations(Options): the profile token
      cut to 9 characters, else the configuration token cut to 22, else the
      first profile's name cut to 9, else empty. */
  function SourceToken(profileToken: Option<string>, configurationToken: Option<string>, ps: seq<Profile>): (r: string)
    ensures |r| <= 22
    ensures profileToken.Some? ==> |r| <= ProfileTokenLength && StartsWith(profileToken.value, r)
    ensures profileToken.None? && configurationToken.Some? ==> StartsWith(configurationToken.value, r)
  {
    if profileToken.Some? then Truncate(profileToken.value, ProfileTokenLength)
    else if configurationToken.Some? then Truncate(configurationToken.value, 22)
    else if |ps| > 0 && ps[0].name.Some? then Truncate(ps[0].name.value, ProfileTokenLength)
    else ""
  }

  /** The token of the encoder and decoder methods: the configuration token,
      else the profile token, cut to 9 characters; empty when neither is
      given. */
  function EncoderToken(configurationToken: Option<string>, profileToken: Option<string>): (r: string)
    ensures |r| <= ProfileTokenLength
    ensures configurationToken.Some? ==> StartsWith(configurationToken.value, r)
    ensures configurationToken.None? && profileToken.Some? ==> StartsWith(profileToken.value, r)
    ensures configurationToken.None? && profileToken.None? ==> r == ""
  {
    if configurationToken.Some? then Truncate(configurationToken.value, ProfileTokenLength)
    else if profileToken.Some? then Truncate(profileToken.value, ProfileTokenLength)
    else ""
  }

  /** A nine-character name followed by anything, such as
      "Profile_0_VideoEncoderConfig", is read as the name alone. */
  lemma TokenNamesProfile(name: string, suffix: string, other: Option<string>, ps: seq<Profile>)
    requires |name| == ProfileTokenLength
    ensures EncoderToken(Some(name + suffix), other) == name
    ensures SourceToken(Some(name + suffix), other, ps) == name
  {
    assert (name + suffix)[..ProfileTokenLength] == name;
  }

  /** The 22-character source configuration token survives its cut. */
  lemma SourceConfigurationTokenKept(suffix: string, ps: seq<Profile>)
    ensures SourceToken(None, Some("VideoSourceConfigToken" + suffix), ps) == "VideoSourceConfigToken"
  {
    assert ("VideoSourceConfigToken" + suffix)[..22] == "VideoSourceConfigToken";
  }

  /** The match of GetVideoSourceConfigurations(Options) as written: it
      compares the first name, then the second, whatever the number of
      profiles. None is a comparison with a profile that does not exist. */
  function SourceKnownAsWritten(ps: seq<Profile>, token: string): (r: Option<bool>)
    ensures r.None? <==> |ps| == 0 || (|ps| == 1 && !NameIs(ps[0], token))
  {
    if |ps| == 0 then None
    else if NameIs(ps[0], token) then Some(true)
    else if |ps| == 1 then None
    else Some(NameIs(ps[1], token) || CaseEq("VideoSourceConfigToken", token))
  }

  /** With one profile, asking for the source configuration by the token
      the service itself announces compares a second profile that is not
      there. */
  lemma SourceConfigurationReadsPastEnd(p: Profile)
    requires p.name == Some("Profile_0")
    ensures SourceKnownAsWritten([p], SourceToken(None, Some("VideoSourceConfigToken"), [p])) == None
  {
    SourceConfigurationTokenKept("", [p]);
    assert "VideoSourceConfigToken" + "" == "VideoSourceConfigToken";
    assert LowerChar("Profile_0"[0]) != LowerChar("VideoSourceConfigToken"[0]);
  }

  /** The match with the number of profiles checked, as the other media2
      methods do: a name of an existing profile among the first two, or the
      source configuration token. */
  function SourceKnown(ps: seq<Profile>, token: string): (r: bool)
    ensures r <==> (exists i :: 0 <= i < |ps| && i < 2 && NameIs(ps[i], token))
                   || CaseEq("VideoSourceConfigToken", token)
  {
    (|ps| > 0 && NameIs(ps[0], token)) || (|ps| > 1 && NameIs(ps[1], token))
    || CaseEq("VideoSourceConfigToken", token)
  }

  /** Wherever the written match is defined, the corrected one agrees. */
  lemma SourceKnownAgrees(ps: seq<Profile>, token: string)
    ensures SourceKnownAsWritten(ps, token).Some? ==> SourceKnownAsWritten(ps, token).value == SourceKnown(ps, token)
  {
  }

  // ---------------------------------------------------------------------
  // Audio encoder and decoder configuration options

  datatype CodecOptions =
    | CodecOptions(codec: AudioCodec, bitrate: nat, samplerate: nat)
    | OptionsFault(code: int)

  /** G726 and no codec have no options. */
  predicate HasOptions(c: AudioCodec) {
    c != AudioNone && c != G726
  }

  /** The bitrate (kbit/s) and sample rate (kHz) reported per codec. */
  function OptionsOf(c: AudioCodec): (r: CodecOptions)
    requires HasOptions(c)
    ensures r.CodecOptions? && r.codec == c
    ensures c == G711 ==> r.bitrate == 64 && r.samplerate == 8
    ensures c == Aac ==> r.bitrate == 50 && r.samplerate == 16
  {
    if c == G711 then CodecOptions(c, 64, 8) else CodecOptions(c, 50, 16)
  }

  function CodecOf(p: Profile, decoding: bool): AudioCodec {
    if decoding then p.decoder else p.encoder
  }

  /** The name used when the request names no token: the first profile
      with the codec, looking at the second only when there are exactly
      two. */
  function DefaultToken(ps: seq<Profile>, decoding: bool): (r: Option<string>)
    ensures r.Some? ==> exists i :: 0 <= i < |ps| && i < 2 && CodecOf(ps[i], decoding) != AudioNone
    ensures r.None? <==> !(|ps| > 0 && CodecOf(ps[0], decoding) != AudioNone)
                         && !(|ps| == 2 && CodecOf(ps[1], decoding) != AudioNone)
    ensures |ps| > 0 && CodecOf(ps[0], decoding) != AudioNone ==>
              r == Some(Truncate(ps[0].name.GetOr(""), ProfileTokenLength))
    ensures !(|ps| > 0 && CodecOf(ps[0], decoding) != AudioNone) && |ps| == 2 && CodecOf(ps[1], decoding) != AudioNone ==>
              r == Some(Truncate(ps[1].name.GetOr(""), ProfileTokenLength))
  {
    if |ps| > 0 && CodecOf(ps[0], decoding) != AudioNone then Some(Truncate(ps[0].name.GetOr(""), ProfileTokenLength))
    else if |ps| == 2 && CodecOf(ps[1], decoding) != AudioNone then Some(Truncate(ps[1].name.GetOr(""), ProfileTokenLength))
    else None
  }

  /** The token an options request resolves to. */
  function OptionsToken(configurationToken: Option<string>, profileToken: Option<string>, ps: seq<Profile>, decoding: bool)
    : Option<string>
  {
    if configurationToken.Some? || profileToken.Some? then Some(EncoderToken(configurationToken, profileToken))
    else DefaultToken(ps, decoding)
  }

  /** media2_get_audio_encoder_configuration_options: -1 when no token is
      given and no profile encodes, -2/-3 when the named first/second
      profile has no codec with options, -4 when the token names no
      profile; otherwise the named profile's codec and its rates. */
  function AudioEncoderOptions(ps: seq<Profile>, configurationToken: Option<string>, profileToken: Option<string>)
    : (r: CodecOptions)
    ensures r.CodecOptions? ==> (r.codec == G711 && r.bitrate == 64 && r.samplerate == 8)
                                || (r.codec == Aac && r.bitrate == 50 && r.samplerate == 16)
    ensures r.CodecOptions? ==> exists i :: 0 <= i < |ps| && i < 2 && ps[i].encoder == r.codec
    ensures r == OptionsFault(-1) <==> OptionsToken(configurationToken, profileToken, ps, false).None?
    ensures r == OptionsFault(-4) <==>
              (OptionsToken(configurationToken, profileToken, ps, false).Some?
               && TokenProfile(ps, OptionsToken(configurationToken, profileToken, ps, false).value).None?)
    ensures forall t, i :: OptionsToken(configurationToken, profileToken, ps, false) == Some(t) && TokenProfile(ps, t) == Some(i) ==>
              r == (if HasOptions(ps[i].encoder) then OptionsOf(ps[i].encoder) else OptionsFault(if i == 0 then -2 else -3))
    ensures r.OptionsFault? ==> r.code in {-1, -2, -3, -4}
  {
    match OptionsToken(configurationToken, profileToken, ps, false)
    case None => OptionsFault(-1)
    case Some(token) =>
      match TokenProfile(ps, token)
      case None => OptionsFault(-4)
      case Some(i) =>
        if HasOptions(ps[i].encoder) then OptionsOf(ps[i].encoder)
        else OptionsFault(if i == 0 then -2 else -3)
  }

  /** media2_get_audio_decoder_configuration_options: -1 when no token is
      given and no profile decodes; a token naming no profile counts as no
      decoder; -2 when there is no decoder with options. */
  function AudioDecoderOptions(ps: seq<Profile>, configurationToken: Option<string>, profileToken: Option<string>)
    : (r: CodecOptions)
    ensures r.CodecOptions? ==> (r.codec == G711 && r.bitrate == 64 && r.samplerate == 8)
                                || (r.codec == Aac && r.bitrate == 50 && r.samplerate == 16)
    ensures r.CodecOptions? ==> exists i :: 0 <= i < |ps| && i < 2 && ps[i].decoder == r.codec
    ensures r == OptionsFault(-1) <==> OptionsToken(configurationToken, profileToken, ps, true).None?
    ensures forall t, i :: OptionsToken(configurationToken, profileToken, ps, true) == Some(t) && TokenProfile(ps, t) == Some(i) ==>
              r == (if HasOptions(ps[i].decoder) then OptionsOf(ps[i].decoder) else OptionsFault(-2))
    ensures forall t :: OptionsToken(configurationToken, profileToken, ps, true) == Some(t) && TokenProfile(ps, t).None? ==>
              r == OptionsFault(-2)
    ensures r.OptionsFault? ==> r.code in {-1, -2}
  {
    match OptionsToken(configurationToken, profileToken, ps, true)
    case None => OptionsFault(-1)
    case Some(token) =>
      var decoder := match TokenProfile(ps, token) case Some(i) => ps[i].decoder case None => AudioNone;
      if HasOptions(decoder) then OptionsOf(decoder) else OptionsFault(-2)
  }

  /** Naming a profile whose codec is G726 or none never gives options. */
  lemma NoOptionsWithoutCodec(ps: seq<Profile>, configurationToken: Option<string>, profileToken: Option<string>)
    requires configurationToken.Some? || profileToken.Some?
    requires TokenProfile(ps, EncoderToken(configurationToken, profileToken)).Some?
    ensures !HasOptions(ps[TokenProfile(ps, EncoderToken(configurationToken, profileToken)).value].encoder)
            ==> AudioEncoderOptions(ps, configurationToken, profileToken).OptionsFault?
    ensures !HasOptions(ps[TokenProfile(ps, EncoderToken(configurationToken, profileToken)).value].decoder)
            ==> AudioDecoderOptions(ps, configurationToken, profileToken) == OptionsFault(-2)
  {
  }

  // ---------------------------------------------------------------------
  // Set* methods

  datatype SetMethod =
    | SetVideoSourceConfiguration | SetAudioSourceConfiguration
    | SetVideoEncoderConfiguration | SetAudioEncoderConfiguration
    | SetAudioOutputConfiguration

  datatype SetFault = SetFault(code: int, subcode: string)

  const ConfigModify: string := "ter:ConfigModify"
  const NoConfig: string := "ter:NoConfig"

  /** The one configuration token a Set* method recognises; the encoder
      methods look at no token. */
  function KnownConfiguration(m: SetMethod): Option<string> {
    match m
    case SetVideoSourceConfiguration => Some("VideoSourceConfigToken")
    case SetAudioSourceConfiguration => Some("AudioSourceConfigToken")
    case SetAudioOutputConfiguration => Some("AudioOutputConfigToken")
    case _ => None
  }

  /** The media2 Set* methods always fault. The encoder methods refuse with
      ConfigModify (-1); the others answer NoConfig (-1) without a
      Configuration token, ConfigModify (-2) for their own token in any
      case and NoConfig (-3) for any other. */
  function SetConfiguration(m: SetMethod, token: Option<string>): (r: SetFault)
    ensures r.code < 0
    ensures r.subcode == ConfigModify || r.subcode == NoConfig
    ensures r.subcode == ConfigModify <==>
              (KnownConfiguration(m).None? || (token.Some? && CaseEq(KnownConfiguration(m).value, token.value)))
  {
    assert ConfigModify[4] != NoConfig[4];
    match KnownConfiguration(m)
    case None => SetFault(-1, ConfigModify)
    case Some(known) =>
      if token.None? then SetFault(-1, NoConfig)
      else if CaseEq(known, token.value) then SetFault(-2, ConfigModify)
      else SetFault(-3, NoConfig)
  }
}
