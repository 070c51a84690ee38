/**
 * The playback rules both builds of the player share, as functions of the
 * container and of the player's clock: stream selection, the seek clamp, the
 * admission of decoded pictures while a seek is pending, the audio each packet
 * sends to the sink, and one call of the decode loop as a whole.
 */
module Playback {
  import opened Media
  import opened Gain

  /** The "no pending seek" value of the seek target. */
  const NoSeek: real := -1.0

  /** How far before the end a seek past the end is placed, in seconds. */
  const SeekEpsilon: real := 0.01

  // ---------------------------------------------------------------- streams

  /** `index` is the first stream of the given kind, or -1 when there is none. */
  predicate IsFirstOfKind(streams: seq<Stream>, kind: MediaType, index: int) {
    && -1 <= index < |streams|
    && (index >= 0 ==> streams[index].kind == kind)
    && forall i :: 0 <= i < |streams| && (index < 0 || i < index) ==> streams[i].kind != kind
  }

  /** There is only one first stream of a kind. */
  lemma FirstOfKindIsUnique(streams: seq<Stream>, kind: MediaType, a: int, b: int)
    requires IsFirstOfKind(streams, kind, a) && IsFirstOfKind(streams, kind, b)
    ensures a == b
  {
  }

  /** The stream selection of the load: scan in order, the first match wins,
      with no preference among codecs. */
  method FindFirstStream(streams: seq<Stream>, kind: MediaType) returns (index: int)
    ensures IsFirstOfKind(streams, kind, index)
    ensures index == -1 <==> forall i :: 0 <= i < |streams| ==> streams[i].kind != kind
  {
    index := -1;
    var i := 0;
    while i < |streams|
      invariant 0 <= i <= |streams|
      invariant forall j :: 0 <= j < i ==> streams[j].kind != kind
    {
      if streams[i].kind == kind {
        index := i;
        return;
      }
      i := i + 1;
    }
  }

  // ---------------------------------------------------------------- seeking

  /** The duration of the open file in seconds: 0 when no file is open or the
      container reports no duration. */
  function DurationSeconds(file: Option<Container>): (d: real)
    ensures file.None? || file.value.duration.None? ==> d == 0.0
    ensures file.Some? && file.value.duration.Some? ==>
              d * TimeBase as real == file.value.duration.value as real
  {
    if file.None? || file.value.duration.None? then 0.0
    else file.value.duration.value as real / TimeBase as real
  }

  /** The seek clamp: a negative request becomes 0, and then a request past the
      end becomes SeekEpsilon before the end. */
  function SeekTarget(requested: real, duration: real): (t: real)
    ensures t <= duration
    ensures 0.0 <= requested <= duration ==> t == requested
    ensures requested < 0.0 && 0.0 <= duration ==> t == 0.0
    ensures requested > duration && requested >= 0.0 ==> t == duration - SeekEpsilon
    ensures duration >= SeekEpsilon ==> t >= 0.0
    ensures t < 0.0 ==> duration < SeekEpsilon
  {
    var nonNegative := if requested < 0.0 then 0.0 else requested;
    if nonNegative > duration then duration - SeekEpsilon else nonNegative
  }

  /** Clamping is idempotent: a clamped target inside the file stays put. */
  lemma SeekTargetIdempotent(requested: real, duration: real)
    requires duration >= SeekEpsilon
    ensures SeekTarget(SeekTarget(requested, duration), duration) == SeekTarget(requested, duration)
  {
  }

  /** With an unknown duration (reported as 0) every forward request yields a
      negative target, which the decode loop reads as "no pending seek". */
  lemma UnknownDurationDropsTarget(requested: real)
    requires requested > 0.0
    ensures SeekTarget(requested, DurationSeconds(None)) == -SeekEpsilon
    ensures SeekTarget(requested, DurationSeconds(None)) < 0.0
  {
  }

  // -------------------------------------------------------------- admission

  /** The packet yields a decoded picture of the video stream. */
  predicate DecodesPicture(p: Packet, videoIndex: int) {
    p.streamIndex == videoIndex && p.picture.Some?
  }

  /** A picture at `pts` is shown unless a seek is pending (target >= 0) and the
      picture is earlier than the target. */
  function Admits(target: real, pts: real): (shown: bool)
    ensures target < 0.0 ==> shown
    ensures target >= 0.0 ==> (shown <==> pts >= target)
  {
    !(target >= 0.0 && pts < target)
  }

  /** The j-th packet yields a picture that the admission rule lets through. */
  predicate AdmittedAt(ps: seq<Packet>, j: int, videoIndex: int, target: real)
    requires 0 <= j < |ps|
  {
    DecodesPicture(ps[j], videoIndex) && Admits(target, ps[j].picture.value)
  }

  /** Index of the first packet from `from` on whose picture is admitted, or -1
      when the rest of the container has none. */
  function NextAdmitted(ps: seq<Packet>, from: nat, videoIndex: int, target: real): (k: int)
    requires from <= |ps|
    ensures k == -1 || from <= k < |ps|
    ensures k >= 0 ==> AdmittedAt(ps, k, videoIndex, target)
    ensures forall j :: from <= j < |ps| && (k < 0 || j < k) ==> !AdmittedAt(ps, j, videoIndex, target)
    decreases |ps| - from
  {
    if from == |ps| then -1
    else if AdmittedAt(ps, from, videoIndex, target) then from
    else NextAdmitted(ps, from + 1, videoIndex, target)
  }

  /** The playback clock after decoding packets `from` up to `until` (exclusive) of
      `ps`: the time of the last picture decoded from them, dropped or shown, or
      `clock` when there was none. */
  function LastPicturePts(ps: seq<Packet>, from: nat, until: nat, videoIndex: int, clock: real): (pts: real)
    requires from <= until <= |ps|
    ensures pts == clock || exists j :: from <= j < until && DecodesPicture(ps[j], videoIndex) && pts == ps[j].picture.value
    decreases until
  {
    if until == from then clock
    else if DecodesPicture(ps[until - 1], videoIndex) then ps[until - 1].picture.value
    else LastPicturePts(ps, from, until - 1, videoIndex, clock)
  }

  /** The clock is driven by video alone: it is the time of the last decoded
      picture, and it stays put when no picture was decoded. */
  lemma {:induction false} ClockIsLastDecodedPicture(ps: seq<Packet>, from: nat, until: nat, videoIndex: int, clock: real)
    requires from <= until <= |ps|
    ensures (forall j :: from <= j < until ==> !DecodesPicture(ps[j], videoIndex)) ==>
              LastPicturePts(ps, from, until, videoIndex, clock) == clock
    ensures (exists j :: from <= j < until && DecodesPicture(ps[j], videoIndex)) ==>
              exists j :: && from <= j < until && DecodesPicture(ps[j], videoIndex)
                          && LastPicturePts(ps, from, until, videoIndex, clock) == ps[j].picture.value
                          && (forall i :: j < i < until ==> !DecodesPicture(ps[i], videoIndex))
    decreases until
  {
    if until > from {
      ClockIsLastDecodedPicture(ps, from, until - 1, videoIndex, clock);
      if DecodesPicture(ps[until - 1], videoIndex) {
        assert LastPicturePts(ps, from, until, videoIndex, clock) == ps[until - 1].picture.value;
      }
    }
  }

  // ------------------------------------------------------------------ audio

  /** How decoded audio reaches the sink: scaled by the volume (VideoPlayer.cpp)
      or queued as decoded (testVideoplayer.cpp). */
  datatype AudioPath = ScaleByVolume(volume: real) | PassThrough

  /** The same sample format and the same number of samples. */
  predicate SameShape(a: Pcm, b: Pcm) {
    match (a, b)
    case (FltPcm(x), FltPcm(y)) => |x| == |y|
    case (S16Pcm(x), S16Pcm(y)) => |x| == |y|
    case (OtherPcm(x), OtherPcm(y)) => x == y
    case _ => false
  }

  /** What one decoded audio frame puts on the sink's queue: nothing for an
      unsupported sample format, otherwise one buffer of the frame's shape. */
  function Converted(frame: Pcm, path: AudioPath): (out: seq<Pcm>)
    ensures |out| <= 1
    ensures out == [] <==> frame.OtherPcm?
    ensures out != [] ==> SameShape(out[0], frame)
    ensures path.PassThrough? ==> out == [] || out == [frame]
  {
    match frame
    case OtherPcm(_) => []
    case FltPcm(v) => if path.PassThrough? then [frame] else [FltPcm(ScaleFlt(v, path.volume))]
    case S16Pcm(s) => if path.PassThrough? then [frame] else [S16Pcm(ScaleS16(s, path.volume))]
  }

  /** At unity gain the scaled path queues 16-bit audio exactly as decoded. */
  lemma UnityGainIsPassThrough(frame: Pcm)
    requires frame.S16Pcm?
    ensures Converted(frame, ScaleByVolume(1.0)) == Converted(frame, PassThrough)
  {
    UnityGainKeepsBuffer(frame.samples);
  }

  /** What the audio decoder's frames for one packet put on the queue, in order;
      no buffer of an unsupported format reaches it. */
  function AudioFromFrames(frames: seq<Pcm>, path: AudioPath): (out: seq<Pcm>)
    ensures forall i :: 0 <= i < |out| ==> !out[i].OtherPcm?
    decreases |frames|
  {
    if frames == [] then []
    else AudioFromFrames(frames[..|frames| - 1], path) + Converted(frames[|frames| - 1], path)
  }

  /** The sink receives one buffer per supported frame and never more. */
  lemma {:induction false} AudioFromFramesLength(frames: seq<Pcm>, path: AudioPath)
    ensures |AudioFromFrames(frames, path)| <= |frames|
    ensures (forall i :: 0 <= i < |frames| ==> !frames[i].OtherPcm?) ==>
              |AudioFromFrames(frames, path)| == |frames|
    decreases |frames|
  {
    if frames != [] {
      AudioFromFramesLength(frames[..|frames| - 1], path);
    }
  }

  /** The conversion of one decoded frame before it is queued: on the scaled
      path the samples are rewritten in place, as the player does with the
      frame's own buffer. */
  method ConvertFrame(frame: Pcm, path: AudioPath) returns (out: seq<Pcm>)
    requires path.ScaleByVolume? ==> 0.0 <= path.volume <= MaxVolume
    ensures out == Converted(frame, path)
  {
    match frame {
      case OtherPcm(_) =>
        out := [];
      case FltPcm(v) =>
        if path.PassThrough? {
          return [frame];
        }
        var samples := new real[|v|](i requires 0 <= i < |v| => v[i]);
        assert samples[..] == v;
        ScaleFltInPlace(samples, path.volume);
        out := [FltPcm(samples[..])];
      case S16Pcm(s) =>
        if path.PassThrough? {
          return [frame];
        }
        var samples := new int[|s|](i requires 0 <= i < |s| => s[i] as int);
        assert samples[..] == s;
        ScaleS16InPlace(samples, path.volume);
        out := [S16Pcm(samples[..])];
    }
  }

  /** Drains the audio decoder after one packet: every frame it yields, in
      order, converted and appended to what goes to the sink. */
  method DrainAudio(frames: seq<Pcm>, path: AudioPath) returns (out: seq<Pcm>)
    requires path.ScaleByVolume? ==> 0.0 <= path.volume <= MaxVolume
    ensures out == AudioFromFrames(frames, path)
  {
    out := [];
    var i := 0;
    while i < |frames|
      invariant 0 <= i <= |frames|
      invariant out == AudioFromFrames(frames[..i], path)
    {
      var converted := ConvertFrame(frames[i], path);
      assert frames[..i + 1][..i] == frames[..i];
      out := out + converted;
      i := i + 1;
    }
    assert frames[..i] == frames;
  }

  /** What packets `from` up to `until` (exclusive) of `ps` put on the queue: the
      frames of each packet of the audio stream, when the audio decoder and
      device are open. Only FLT and S16 buffers reach it. */
  function AudioFromPackets(ps: seq<Packet>, from: nat, until: nat, audioIndex: int, audioActive: bool,
                            path: AudioPath): (out: seq<Pcm>)
    requires from <= until <= |ps|
    ensures forall i :: 0 <= i < |out| ==> !out[i].OtherPcm?
    decreases until
  {
    if until == from then []
    else
      AudioFromPackets(ps, from, until - 1, audioIndex, audioActive, path)
        + (if audioActive && ps[until - 1].streamIndex == audioIndex then AudioFromFrames(ps[until - 1].audioFrames, path)
           else [])
  }

  /** Without an open audio decoder and device nothing reaches the sink. */
  lemma {:induction false} NoAudioWhenInactive(ps: seq<Packet>, from: nat, until: nat, audioIndex: int, path: AudioPath)
    requires from <= until <= |ps|
    ensures AudioFromPackets(ps, from, until, audioIndex, false, path) == []
    decreases until
  {
    if until > from {
      NoAudioWhenInactive(ps, from, until - 1, audioIndex, path);
    }
  }

  // ------------------------------------------------------- the decode loop

  /** The part of the player's state one call of the decode loop reads and
      writes: the demuxer position, the clock, the pending seek target, the
      frame-ready flag, the picture in the texture and the sink's queue. */
  datatype DecodeState = DecodeState(
    readPos: nat,
    currentPts: real,
    seekTarget: real,
    frameReady: bool,
    picture: Option<real>,
    queued: seq<Pcm>)

  /** One call of the decode loop: read packets until one yields an admitted
      picture, which is then shown, or until the container is exhausted. */
  function DecodeNext(c: Container, videoIndex: int, audioIndex: int, audioActive: bool,
                      path: AudioPath, s: DecodeState): (r: DecodeState)
    requires s.readPos <= |c.packets|
    ensures s.readPos <= r.readPos <= |c.packets|
    // at most one picture is handed over, and it is the one that ends the call
    ensures r.frameReady ==> s.readPos < r.readPos && AdmittedAt(c.packets, r.readPos - 1, videoIndex, s.seekTarget)
    ensures r.frameReady ==> r.picture == c.packets[r.readPos - 1].picture && r.currentPts == r.picture.value
    // a pending seek lands at or after its target and is then cleared
    ensures r.frameReady && s.seekTarget >= 0.0 ==> r.picture.value >= s.seekTarget && r.seekTarget == NoSeek
    ensures r.frameReady && s.seekTarget < 0.0 ==> r.seekTarget == s.seekTarget
    // at end of input nothing is shown and the seek stays pending
    ensures !r.frameReady ==> r.readPos == |c.packets| && r.seekTarget == s.seekTarget && r.picture == s.picture
    // no packet read before the last one yields an admitted picture
    ensures forall j :: s.readPos <= j < r.readPos - 1 ==> !AdmittedAt(c.packets, j, videoIndex, s.seekTarget)
    ensures !r.frameReady && s.readPos < r.readPos ==> !AdmittedAt(c.packets, r.readPos - 1, videoIndex, s.seekTarget)
    // audio is only ever appended
    ensures |s.queued| <= |r.queued| && r.queued[..|s.queued|] == s.queued
  {
    var ps := c.packets;
    var k := NextAdmitted(ps, s.readPos, videoIndex, s.seekTarget);
    var stop := if k >= 0 then k + 1 else |ps|;
    DecodeState(
      stop,
      LastPicturePts(ps, s.readPos, stop, videoIndex, s.currentPts),
      if k >= 0 && s.seekTarget >= 0.0 then NoSeek else s.seekTarget,
      k >= 0,
      if k >= 0 then ps[k].picture else s.picture,
      s.queued + AudioFromPackets(ps, s.readPos, stop, audioIndex, audioActive, path))
  }

  /** The first admitted picture from `from` on is the one at `k` when every
      packet between them yields none. */
  lemma NextAdmittedIs(ps: seq<Packet>, from: nat, videoIndex: int, target: real, k: int)
    requires from <= |ps|
    requires k == -1 || (from <= k < |ps| && AdmittedAt(ps, k, videoIndex, target))
    requires forall j :: from <= j < |ps| && (k < 0 || j < k) ==> !AdmittedAt(ps, j, videoIndex, target)
    ensures NextAdmitted(ps, from, videoIndex, target) == k
  {
  }

  /** The decode loop's call ends at the first admitted picture, at `k`: it
      shows that picture, sets the clock to it and clears a pending seek. */
  lemma DecodeNextShows(c: Container, videoIndex: int, audioIndex: int, audioActive: bool,
                        path: AudioPath, s: DecodeState, k: nat)
    requires s.readPos <= k < |c.packets| && AdmittedAt(c.packets, k, videoIndex, s.seekTarget)
    requires forall j :: s.readPos <= j < k ==> !AdmittedAt(c.packets, j, videoIndex, s.seekTarget)
    ensures DecodeNext(c, videoIndex, audioIndex, audioActive, path, s)
            == DecodeState(k + 1, c.packets[k].picture.value, if s.seekTarget >= 0.0 then NoSeek else s.seekTarget,
                           true, c.packets[k].picture,
                           s.queued + AudioFromPackets(c.packets, s.readPos, k + 1, audioIndex, audioActive, path))
  {
    NextAdmittedIs(c.packets, s.readPos, videoIndex, s.seekTarget, k);
  }

  /** Without an admitted picture left, the call reads to the end of input and
      leaves the pending seek and the shown picture as they were. */
  lemma DecodeNextExhausts(c: Container, videoIndex: int, audioIndex: int, audioActive: bool,
                           path: AudioPath, s: DecodeState)
    requires s.readPos <= |c.packets|
    requires forall j :: s.readPos <= j < |c.packets| ==> !AdmittedAt(c.packets, j, videoIndex, s.seekTarget)
    ensures DecodeNext(c, videoIndex, audioIndex, audioActive, path, s)
            == DecodeState(|c.packets|, LastPicturePts(c.packets, s.readPos, |c.packets|, videoIndex, s.currentPts),
                           s.seekTarget, false, s.picture,
                           s.queued + AudioFromPackets(c.packets, s.readPos, |c.packets|, audioIndex, audioActive, path))
  {
    NextAdmittedIs(c.packets, s.readPos, videoIndex, s.seekTarget, -1);
  }

  /** The decode loop itself: read packets in order; a picture of the video
      stream moves the clock and is dropped while it is earlier than a pending
      seek target, otherwise it clears the target, goes to the texture and ends
      the call; the frames of an audio packet go to the sink when audio is
      active; the end of input ends the call with nothing new shown. */
  method DecodeLoop(c: Container, videoIndex: int, audioIndex: int, audioActive: bool,
                    path: AudioPath, s: DecodeState) returns (r: DecodeState)
    requires s.readPos <= |c.packets|
    requires audioActive ==> videoIndex != audioIndex
    requires path.ScaleByVolume? ==> 0.0 <= path.volume <= MaxVolume
    ensures r == DecodeNext(c, videoIndex, audioIndex, audioActive, path, s)
  {
    var packets := c.packets;
    var readPos, currentPts, seekTarget, picture, queued := s.readPos, s.currentPts, s.seekTarget, s.picture, s.queued;
    while true
      invariant s.readPos <= readPos <= |packets|
      invariant seekTarget == s.seekTarget && picture == s.picture
      invariant forall j :: s.readPos <= j < readPos ==> !AdmittedAt(packets, j, videoIndex, s.seekTarget)
      invariant currentPts == LastPicturePts(packets, s.readPos, readPos, videoIndex, s.currentPts)
      invariant queued == s.queued + AudioFromPackets(packets, s.readPos, readPos, audioIndex, audioActive, path)
      decreases |packets| - readPos
    {
      if readPos == |packets| {
        // the demuxer reports the end of input
        DecodeNextExhausts(c, videoIndex, audioIndex, audioActive, path, s);
        return DecodeState(readPos, currentPts, seekTarget, false, picture, queued);
      }
      var packet := packets[readPos];
      readPos := readPos + 1;
      if packet.streamIndex == videoIndex && packet.picture.Some? {
        var pts := packet.picture.value;
        currentPts := pts;
        if seekTarget >= 0.0 {
          if pts < seekTarget {
            continue;
          } else {
            seekTarget := NoSeek;
          }
        }
        picture := Some(pts);
        DecodeNextShows(c, videoIndex, audioIndex, audioActive, path, s, readPos - 1);
        return DecodeState(readPos, currentPts, seekTarget, true, picture, queued);
      }
      if audioActive && packet.streamIndex == audioIndex {
        var audio := DrainAudio(packet.audioFrames, path);
        queued := queued + audio;
      }
    }
  }

  /** Every picture the decode loop reads and drops is earlier than the pending
      seek target; without a pending target no picture is dropped. */
  lemma DroppedPicturesPrecedeTarget(c: Container, videoIndex: int, audioIndex: int, audioActive: bool,
                                     path: AudioPath, s: DecodeState, j: nat)
    requires s.readPos <= j < |c.packets|
    requires var r := DecodeNext(c, videoIndex, audioIndex, audioActive, path, s);
             j < r.readPos && !(r.frameReady && j == r.readPos - 1)
    requires DecodesPicture(c.packets[j], videoIndex)
    ensures s.seekTarget >= 0.0 && c.packets[j].picture.value < s.seekTarget
  {
    var r := DecodeNext(c, videoIndex, audioIndex, audioActive, path, s);
    assert !AdmittedAt(c.packets, j, videoIndex, s.seekTarget);
  }

  /** One render tick: paused, nothing changes; otherwise decode when no frame
      is ready, then mark the frame as consumed. */
  function RenderNext(c: Container, videoIndex: int, audioIndex: int, audioActive: bool,
                      path: AudioPath, paused: bool, s: DecodeState): (r: DecodeState)
    requires s.readPos <= |c.packets|
    ensures paused ==> r == s
    ensures !paused ==> !r.frameReady
    ensures !paused && s.frameReady ==> r == s.(frameReady := false)
    ensures r.readPos <= |c.packets|
  {
    if paused then s
    else if s.frameReady then s.(frameReady := false)
    else DecodeNext(c, videoIndex, audioIndex, audioActive, path, s).(frameReady := false)
  }

  /** After a seek, the first unpaused render tick that clears the pending
      target has put a picture at or after the target in the texture. */
  lemma RenderAfterSeekShowsNoEarlierPicture(c: Container, videoIndex: int, audioIndex: int,
                                             audioActive: bool, path: AudioPath, s: DecodeState)
    requires s.readPos <= |c.packets| && !s.frameReady && s.seekTarget >= 0.0
    ensures var r := RenderNext(c, videoIndex, audioIndex, audioActive, path, false, s);
            r.seekTarget < 0.0 ==> r.picture.Some? && r.picture.value >= s.seekTarget
  {
  }
}
