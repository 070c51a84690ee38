/**
 * The media the player works on, with the demuxer and the decoders abstracted
 * away. A container is its list of streams, its packets in demux order and its
 * duration. Decoding is folded into the packets: a packet carries the picture
 * timestamp the video decoder hands back once the packet has been sent to it,
 * and the audio frames the audio decoder yields for it.
 */
module Media {

  datatype Option<+T> = None | Some(value: T)

  /** Units per second of the container's duration (FFmpeg's AV_TIME_BASE). */
  const TimeBase: int := 1000000

  /** The codec type a stream reports in its codec parameters. */
  datatype MediaType = Video | Audio | OtherMedia

  /** A stream of the container; `layoutChannels` is what the audio codec's
      channel layout reports (it may be zero or negative when unknown). */
  datatype Stream = Stream(kind: MediaType, layoutChannels: int)

  /** A C++ `int16_t`. */
  type Int16 = x: int | IsInt16(x)

  /** A decoded audio frame: the interleaved samples of its first data plane, in
      the decoder's sample format. Float samples are kept as exact reals. */
  datatype Pcm =
    | FltPcm(values: seq<real>)
    | S16Pcm(samples: seq<Int16>)
    | OtherPcm(size: nat)

  /** One demuxed packet. `picture` is the presentation time, in seconds, of the
      picture the video decoder returns after receiving this packet (None when
      it returns none); `audioFrames` are the frames the audio decoder yields. */
  datatype Packet = Packet(streamIndex: nat, picture: Option<real>, audioFrames: seq<Pcm>)

  /** An opened container; `duration` is in TimeBase units, None when the
      container reports no duration. */
  datatype Container = Container(streams: seq<Stream>, packets: seq<Packet>, duration: Option<int>)

  /** What opening a file gives: the open fails, the open succeeds but stream
      probing fails (the container stays open), or both succeed. */
  datatype OpenOutcome = OpenFailed | ProbeFailed(unprobed: Container) | Opened(container: Container)

  predicate IsInt16(x: int) {
    -32768 <= x <= 32767
  }
}
