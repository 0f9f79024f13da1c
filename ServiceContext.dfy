/** The parts of service_context_t (onvif_simple_server.h) that the media2,
    deviceio and configuration code read: stream profiles with their codecs,
    relay outputs and events. A C pointer that may be NULL is an Option. */
module ServiceContext {
  import opened Wrappers
  import opened CString

  /** stream_type */
  datatype VideoCodec = VideoNone | Jpeg | Mpeg4 | H264 | H265

  /** audio_type */
  datatype AudioCodec = AudioNone | G711 | G726 | Aac

  /** stream_profile_t */
  datatype Profile = Profile(
    name: Option<string>, width: int, height: int, url: Option<string>, snapurl: Option<string>,
    video: VideoCodec, encoder: AudioCodec, decoder: AudioCodec)

  /** strcasecmp(profile.name, token) == 0, for a profile that has a name. */
  predicate NameIs(p: Profile, token: string) {
    p.name.Some? && CaseEq(p.name.value, token)
  }

  /** idle_state */
  datatype IdleState = IdleClose | IdleOpen

  /** relay_output_t, with the `token` member the deviceio and configuration
      code use. */
  datatype Relay = Relay(idleState: IdleState, close: Option<string>, open: Option<string>, token: Option<string>)

  /** event_t */
  datatype Event = Event(topic: Option<string>, sourceName: Option<string>, sourceType: Option<string>,
                         sourceValue: Option<string>, inputFile: Option<string>)
}
