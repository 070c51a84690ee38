/**
 * The player as built from VideoPlayer.cpp: a class whose fields are the
 * player's state, with the FFmpeg and SDL handles reduced to whether they are
 * held, the demuxer to a read position in the container's packets, the
 * texture to the time of the picture it holds, the renderer to the list of
 * pictures copied to it, and the audio device to its queue and pause state.
 */
module VideoPlayerEngine {
  import opened Media
  import opened Gain
  import opened Playback

  /** Channel count given to the audio device: the layout's count, or 2 when
      the layout reports none. */
  function ChannelsFor(layoutChannels: int): (n: int)
    ensures n > 0
    ensures layoutChannels > 0 ==> n == layoutChannels
  {
    if layoutChannels > 0 then layoutChannels else 2
  }

  class VideoPlayer {
    var file: Option<Container>       // fmtCtx
    var videoOpen: bool               // CodecCtx, swsCtx, frame, rgbFrame, packet and texture held
    var audioDecoder: bool            // AudioCodecCtx held
    var audioDevice: bool             // an SDL audio device is open
    var videoStreamIndex: int
    var audioStreamIndex: int
    var channels2: int
    var frameReady: bool
    var isPaused: bool
    var currentPts: real
    var seekTargetTime: real
    var volume: real

    var readPos: nat                  // the demuxer's position in the file's packets
    var texture: Option<real>         // time of the picture in the texture, None before the first
    var presented: seq<Option<real>>  // what each copy to the renderer showed, oldest first
    var queued: seq<Pcm>              // the audio device's queue
    var sinkPaused: bool              // the audio device's pause state

    /** The invariant every public operation keeps. */
    ghost predicate Valid()
      reads this
    {
      && StreamsValid()
      && 0.0 <= volume <= MaxVolume
      && (file.Some? ==> readPos <= |file.value.packets|)
    }

    /** What a load establishes and only the next load or cleanup changes: the
        selected streams are of the right kind, and each decoder is held exactly
        when its stream is in use. */
    ghost predicate StreamsValid()
      reads this`file, this`audioDecoder, this`audioDevice, this`audioStreamIndex, this`videoOpen,
            this`videoStreamIndex, this`channels2
    {
      && channels2 > 0
      && (audioDecoder <==> audioDevice)
      && (audioDevice ==> file.Some? && 0 <= audioStreamIndex < |file.value.streams|
                          && file.value.streams[audioStreamIndex].kind == Audio)
      && (videoOpen <==> videoStreamIndex >= 0)
      && (videoOpen ==> file.Some? && videoStreamIndex < |file.value.streams|
                        && file.value.streams[videoStreamIndex].kind == Video)
    }

    /** The fields one decode call reads and writes. */
    function Decoding(): DecodeState
      reads this
    {
      DecodeState(readPos, currentPts, seekTargetTime, frameReady, texture, queued)
    }

    /** Decoded audio goes to the device: both the decoder and the device are open. */
    predicate AudioActive()
      reads this
    {
      audioDecoder && audioDevice
    }

    /** This build scales decoded audio by the current volume. */
    function Path(): (path: AudioPath)
      reads this
      ensures path.ScaleByVolume? && path.volume == volume
    {
      ScaleByVolume(volume)
    }

    /** The defaults of the header: nothing open, no streams, no pending seek,
        playing, at time 0, at volume 2. `frameReady` has no initialiser there
        and is left unspecified here. */
    constructor ()
      ensures Valid()
      ensures file.None? && !videoOpen && !audioDecoder && !audioDevice
      ensures videoStreamIndex == -1 && audioStreamIndex == -1 && channels2 == 1
      ensures !isPaused && currentPts == 0.0 && seekTargetTime == NoSeek && volume == MaxVolume
      ensures readPos == 0 && texture.None? && presented == [] && queued == [] && sinkPaused
    {
      file := None;
      videoOpen, audioDecoder, audioDevice := false, false, false;
      videoStreamIndex, audioStreamIndex := -1, -1;
      channels2 := 1;
      isPaused := false;
      currentPts := 0.0;
      seekTargetTime := NoSeek;
      volume := MaxVolume;
      readPos := 0;
      texture := None;
      presented := [];
      queued := [];
      sinkPaused := true;
    }

    /** Playback time in seconds: the time of the last decoded picture. */
    function GetCurrentTime(): (t: real)
      reads this
      ensures t == currentPts
    {
      currentPts
    }

    /** Duration of the open file in seconds, 0 when unknown or nothing is open. */
    function GetDuration(): (d: real)
      reads this
      ensures file.None? ==> d == 0.0
      ensures d == DurationSeconds(file)
    {
      DurationSeconds(file)
    }

    function GetPauseState(): (paused: bool)
      reads this
      ensures paused == isPaused
    {
      isPaused
    }

    /** Releases everything the last load acquired and forgets both streams and
        any pending seek. The volume, the pause flag and the clock survive. */
    method Cleanup()
      requires Valid()
      modifies this`file, this`videoOpen, this`audioDecoder, this`audioDevice, this`frameReady,
               this`seekTargetTime, this`audioStreamIndex, this`videoStreamIndex, this`readPos,
               this`texture, this`queued, this`sinkPaused
      ensures Valid()
      ensures file.None? && !videoOpen && !audioDecoder && !audioDevice
      ensures !frameReady && seekTargetTime == NoSeek
      ensures audioStreamIndex == -1 && videoStreamIndex == -1
      ensures readPos == 0 && texture.None? && queued == [] && sinkPaused
    {
      videoOpen := false;
      texture := None;
      file := None;
      readPos := 0;
      audioDevice := false;
      queued := [];
      sinkPaused := true;
      audioDecoder := false;
      frameReady := false;
      seekTargetTime := NoSeek;
      audioStreamIndex := -1;
      videoStreamIndex := -1;
    }

    /** Opens a file: cleans up first, then picks the first audio stream (its
        decoder kept only if the audio device opens) and the first video stream.
        `outcome` is what opening and probing the file gives; `deviceOpens` is
        whether SDL opens the audio device. */
    method Load(outcome: OpenOutcome, deviceOpens: bool) returns (ok: bool)
      requires Valid()
      modifies this`file, this`videoOpen, this`audioDecoder, this`audioDevice, this`frameReady,
               this`seekTargetTime, this`audioStreamIndex, this`videoStreamIndex, this`readPos,
               this`texture, this`queued, this`sinkPaused, this`channels2, this`isPaused, this`currentPts
      ensures Valid()
      ensures ok <==> outcome.Opened? && videoOpen
      // the open fails: nothing is held
      ensures outcome.OpenFailed? ==> file.None? && !audioDevice
      // probing fails: the container stays open, no stream is selected
      ensures outcome.ProbeFailed? ==> file == Some(outcome.unprobed) && !audioDevice
                                       && audioStreamIndex == -1
      // otherwise the container is open and the first audio stream is selected
      ensures outcome.Opened? ==> file == Some(outcome.container)
                                  && IsFirstOfKind(outcome.container.streams, Audio, audioStreamIndex)
                                  && audioDevice == (audioStreamIndex >= 0 && deviceOpens)
      ensures outcome.Opened? && audioStreamIndex >= 0 ==>
                channels2 == ChannelsFor(outcome.container.streams[audioStreamIndex].layoutChannels)
      ensures !(outcome.Opened? && audioStreamIndex >= 0) ==> channels2 == old(channels2)
      ensures !outcome.Opened? ==> audioStreamIndex == -1
      ensures audioDevice ==> !sinkPaused && queued == []
      ensures !audioDevice ==> sinkPaused && queued == []
      ensures !outcome.OpenFailed? ==> readPos == 0
      // the first video stream, or -1 when there is none and the load fails
      ensures outcome.Opened? ==> IsFirstOfKind(outcome.container.streams, Video, videoStreamIndex)
      ensures !ok ==> !videoOpen && videoStreamIndex == -1
      ensures !frameReady && seekTargetTime == NoSeek && texture.None?
      ensures ok ==> !isPaused && currentPts == 0.0
      ensures !ok ==> isPaused == old(isPaused) && currentPts == old(currentPts)
    {
      Cleanup();
      if outcome.OpenFailed? {
        return false;
      }
      var c := if outcome.ProbeFailed? then outcome.unprobed else outcome.container;
      file := Some(c);
      if outcome.ProbeFailed? {
        return false;
      }
      OpenAudio(c, deviceOpens);
      ok := OpenVideo(c);
    }

    /** The audio part of a load: the first audio stream, its decoder, the
        channel count and the audio device, which starts unpaused. */
    method OpenAudio(c: Container, deviceOpens: bool)
      requires Valid() && file == Some(c) && !audioDevice && !videoOpen
      modifies this`audioStreamIndex, this`audioDecoder, this`audioDevice, this`channels2, this`sinkPaused
      ensures Valid() && !videoOpen
      ensures IsFirstOfKind(c.streams, Audio, audioStreamIndex)
      ensures audioDevice == (audioStreamIndex >= 0 && deviceOpens)
      ensures audioStreamIndex >= 0 ==> channels2 == ChannelsFor(c.streams[audioStreamIndex].layoutChannels)
      ensures audioStreamIndex < 0 ==> channels2 == old(channels2)
      ensures audioDevice ==> !sinkPaused
      ensures !audioDevice ==> sinkPaused == old(sinkPaused)
    {
      audioStreamIndex := FindFirstStream(c.streams, Audio);
      audioDecoder, audioDevice := false, false;
      if audioStreamIndex != -1 {
        audioDecoder := true;
        channels2 := ChannelsFor(c.streams[audioStreamIndex].layoutChannels);
        if deviceOpens {
          audioDevice := true;
          sinkPaused := false;
        } else {
          audioDecoder := false;
        }
      }
    }

    /** The video part of a load: the first video stream and its decoder,
        converter and texture; playback restarts from time 0, unpaused. */
    method OpenVideo(c: Container) returns (ok: bool)
      requires Valid() && file == Some(c) && !videoOpen
      modifies this`videoStreamIndex, this`videoOpen, this`frameReady, this`isPaused, this`currentPts,
               this`seekTargetTime
      ensures Valid()
      ensures IsFirstOfKind(c.streams, Video, videoStreamIndex)
      ensures ok == videoOpen
      ensures ok ==> !frameReady && !isPaused && currentPts == 0.0 && seekTargetTime == NoSeek
      ensures !ok ==> frameReady == old(frameReady) && isPaused == old(isPaused)
                      && currentPts == old(currentPts) && seekTargetTime == old(seekTargetTime)
    {
      var videoIndex := FindFirstStream(c.streams, Video);
      videoStreamIndex := videoIndex;
      if videoIndex == -1 {
        return false;
      }
      videoOpen := true;
      frameReady := false;
      isPaused := false;
      currentPts := 0.0;
      seekTargetTime := NoSeek;
      return true;
    }

    /** Reads packets until one yields a picture the pending seek admits, which
        is then put in the texture, or until the input ends. Audio packets are
        decoded, scaled by the volume and queued on the way. */
    method DecodeNextFrame()
      requires Valid() && videoOpen
      modifies this`readPos, this`currentPts, this`seekTargetTime, this`frameReady, this`texture, this`queued
      ensures Valid()
      ensures Decoding() == DecodeNext(file.value, videoStreamIndex, audioStreamIndex, AudioActive(),
                                       Path(), old(Decoding()))
    {
      frameReady := false;
      var r := DecodeLoop(file.value, videoStreamIndex, audioStreamIndex, audioDecoder && audioDevice,
                          ScaleByVolume(volume), Decoding());
      readPos, currentPts, seekTargetTime, frameReady, texture, queued :=
        r.readPos, r.currentPts, r.seekTarget, r.frameReady, r.picture, r.queued;
    }

    /** One render tick: paused, the texture is shown again and nothing else
        happens; otherwise a frame is decoded when none is ready, the texture is
        shown and the frame is marked consumed. */
    method RenderFrame()
      requires Valid() && videoOpen
      modifies this`readPos, this`currentPts, this`seekTargetTime, this`frameReady,
               this`texture, this`queued, this`presented
      ensures Valid()
      ensures Decoding() == RenderNext(file.value, videoStreamIndex, audioStreamIndex, AudioActive(),
                                       Path(), isPaused, old(Decoding()))
      ensures presented == old(presented) + [texture]
    {
      if isPaused {
        presented := presented + [texture];
        return;
      }
      if !frameReady {
        DecodeNextFrame();
      }
      presented := presented + [texture];
      frameReady := false;
    }

    /** The render tick guarded by the video decoder: without one nothing is
        decoded or shown and no state changes; with one it is RenderFrame. */
    method GuardedRenderFrame()
      requires Valid()
      modifies this`readPos, this`currentPts, this`seekTargetTime, this`frameReady,
               this`texture, this`queued, this`presented
      ensures Valid()
      ensures !old(videoOpen) ==> Decoding() == old(Decoding()) && presented == old(presented)
      ensures old(videoOpen) ==> Decoding() == RenderNext(file.value, videoStreamIndex, audioStreamIndex,
                                                          AudioActive(), Path(), isPaused, old(Decoding()))
                                 && presented == old(presented) + [texture]
    {
      if !videoOpen {
        return;
      }
      RenderFrame();
    }

    /** Relative seek from the current time. Nothing happens without an open file
        and a video stream; otherwise the clamped target becomes the pending seek
        and the demuxer resumes at `keyframePos`, the packet it picks at or
        before the target. */
    method Seek(seconds: real, keyframePos: nat)
      requires Valid()
      requires file.Some? ==> keyframePos <= |file.value.packets|
      modifies this`seekTargetTime, this`frameReady, this`readPos
      ensures Valid()
      ensures old(file.None? || videoStreamIndex < 0) ==>
                seekTargetTime == old(seekTargetTime) && frameReady == old(frameReady) && readPos == old(readPos)
      ensures old(file.Some? && videoStreamIndex >= 0) ==>
                seekTargetTime == SeekTarget(GetCurrentTime() + seconds, GetDuration())
                && !frameReady && readPos == keyframePos
    {
      if file.None? || videoStreamIndex < 0 {
        return;
      }
      var newTime := GetCurrentTime() + seconds;
      if newTime < 0.0 {
        newTime := 0.0;
      }
      var duration := GetDuration();
      if newTime > duration {
        newTime := duration - SeekEpsilon;
      }
      readPos := keyframePos;
      seekTargetTime := newTime;
      frameReady := false;
    }

    /** Absolute seek, used by the timeline slider: the same guard, clamp and
        pending target as Seek, from the requested time. */
    method SeekTo(time: real, keyframePos: nat)
      requires Valid()
      requires file.Some? ==> keyframePos <= |file.value.packets|
      modifies this`seekTargetTime, this`frameReady, this`readPos
      ensures Valid()
      ensures old(file.None? || videoStreamIndex < 0) ==>
                seekTargetTime == old(seekTargetTime) && frameReady == old(frameReady) && readPos == old(readPos)
      ensures old(file.Some? && videoStreamIndex >= 0) ==>
                seekTargetTime == SeekTarget(time, GetDuration()) && !frameReady && readPos == keyframePos
    {
      if file.None? || videoStreamIndex < 0 {
        return;
      }
      var seekTime := time;
      if seekTime < 0.0 {
        seekTime := 0.0;
      }
      var duration := GetDuration();
      if seekTime > duration {
        seekTime := duration - SeekEpsilon;
      }
      readPos := keyframePos;
      seekTargetTime := seekTime;
      frameReady := false;
    }

    /** Flips the pause flag; the audio device follows it when audio is playing. */
    method TogglePause()
      requires Valid()
      modifies this`isPaused, this`sinkPaused
      ensures Valid()
      ensures isPaused == !old(isPaused)
      ensures AudioActive() ==> sinkPaused == isPaused
      ensures !AudioActive() ==> sinkPaused == old(sinkPaused)
    {
      isPaused := !isPaused;
      if audioDecoder && audioDevice {
        sinkPaused := isPaused;
      }
    }

    /** Relative mode adds the step and clamps to [0, 2]; toggle mode switches
        between silence and unity gain. Either way, queued audio is discarded. */
    method ChangeVolume(diffVolume: real, setDefault: bool := false)
      requires Valid()
      modifies this`volume, this`queued
      ensures Valid()
      ensures setDefault ==> volume == ToggleVolume(old(volume))
      ensures !setDefault ==> volume == ClampVolume(old(volume) + diffVolume)
      ensures queued == if audioDevice then [] else old(queued)
    {
      if setDefault {
        if volume == 1.0 {
          volume := 0.0;
        } else {
          volume := 1.0;
        }
      } else {
        volume := volume + diffVolume;
        if volume < 0.0 {
          volume := 0.0;
        } else if volume > MaxVolume {
          volume := MaxVolume;
        }
      }
      if audioDevice {
        queued := [];
      }
    }
  }

  // ------------------------------------------------------------ scenarios

  /** A fresh player opens a file, the timeline slider asks for `time`, and one
      render tick follows. The pending target is the clamped request; when the
      tick settles the seek, the picture it shows is not earlier than the
      target, and when it does not, the input ran out and nothing was shown. */
  method SeekToThenRender(c: Container, deviceOpens: bool, time: real, keyframePos: nat)
    returns (loaded: bool, target: real, shown: Option<real>, pending: bool)
    requires keyframePos <= |c.packets|
    ensures loaded <==> exists i :: 0 <= i < |c.streams| && c.streams[i].kind == Video
    ensures loaded ==> target == SeekTarget(time, DurationSeconds(Some(c)))
    ensures loaded && target >= 0.0 && !pending ==> shown.Some? && shown.value >= target
    ensures loaded && target >= 0.0 && pending ==> shown.None?
  {
    var p := new VideoPlayer();
    loaded := p.Load(Opened(c), deviceOpens);
    if !loaded {
      return false, 0.0, None, false;
    }
    assert 0 <= p.videoStreamIndex < |c.streams| && c.streams[p.videoStreamIndex].kind == Video;
    p.SeekTo(time, keyframePos);
    target := p.seekTargetTime;
    ghost var before := p.Decoding();
    p.RenderFrame();
    if target >= 0.0 {
      RenderAfterSeekShowsNoEarlierPicture(c, p.videoStreamIndex, p.audioStreamIndex, p.AudioActive(),
                                           p.Path(), before);
    }
    shown := p.texture;
    pending := p.seekTargetTime >= 0.0;
  }

  /** While paused, render ticks show the same picture again and neither the
      clock nor the demuxer moves; the audio device is paused with the video. */
  method PauseHoldsPicture(c: Container, deviceOpens: bool)
    returns (loaded: bool, before: DecodeState, after: DecodeState, shownWhilePaused: seq<Option<real>>,
             sinkPaused: bool)
    ensures loaded ==> after == before && shownWhilePaused == [before.picture, before.picture]
    ensures loaded && deviceOpens && (exists i :: 0 <= i < |c.streams| && c.streams[i].kind == Audio) ==> sinkPaused
  {
    var p := new VideoPlayer();
    loaded := p.Load(Opened(c), deviceOpens);
    if !loaded {
      return false, p.Decoding(), p.Decoding(), [], false;
    }
    p.TogglePause();
    assert p.isPaused;
    sinkPaused := p.sinkPaused;
    before := p.Decoding();
    var shownBefore := p.presented;
    p.RenderFrame();
    p.RenderFrame();
    after := p.Decoding();
    shownWhilePaused := p.presented[|shownBefore|..];
  }

  /** A file that opens but whose streams cannot be probed leaves no video
      stream selected, so a seek that follows does nothing. */
  method ProbeFailureDisablesSeek(first: Container, second: Container, deviceOpens: bool, seconds: real,
                                  keyframePos: nat)
    returns (reloaded: bool, seekGuardPasses: bool, decoderOpen: bool, seekTarget: real)
    requires keyframePos <= |second.packets|
    ensures !reloaded && !seekGuardPasses && !decoderOpen && seekTarget == NoSeek
  {
    var p := new VideoPlayer();
    var loaded := p.Load(Opened(first), deviceOpens);
    reloaded := p.Load(ProbeFailed(second), deviceOpens);
    seekGuardPasses := p.file.Some? && p.videoStreamIndex >= 0;
    decoderOpen := p.videoOpen;
    p.Seek(seconds, keyframePos);
    seekTarget := p.seekTargetTime;
  }

  /** Once a file has played, the app renders on every frame, also after a later
      load fails. Such a load leaves the player unpaused with no frame ready and
      no video decoder, so the next tick as written calls the decode loop, whose
      packet and container the load's cleanup released. */
  method FailedReloadLeavesRenderUnguarded(first: Container, second: OpenOutcome, deviceOpens: bool)
    returns (loaded: bool, reloaded: bool, decoderOpen: bool, frameReady: bool, paused: bool)
    requires exists i :: 0 <= i < |first.streams| && first.streams[i].kind == Video
    ensures loaded
    ensures reloaded <==> second.Opened?
                          && exists i :: 0 <= i < |second.container.streams| && second.container.streams[i].kind == Video
    ensures !reloaded ==> !decoderOpen && !frameReady && !paused
  {
    var p := new VideoPlayer();
    loaded := p.Load(Opened(first), deviceOpens);
    reloaded := p.Load(second, deviceOpens);
    if second.Opened? && !reloaded {
      assert p.videoStreamIndex == -1;
    }
    decoderOpen, frameReady, paused := p.videoOpen, p.frameReady, p.isPaused;
  }

  /** The same sequence with the guarded tick: after a failed reload the tick
      changes nothing and shows nothing; after a successful one it shows one
      picture. */
  method FailedReloadThenGuardedRender(first: Container, second: OpenOutcome, deviceOpens: bool)
    returns (reloaded: bool, before: DecodeState, after: DecodeState, shownBefore: nat, shownAfter: nat)
    requires exists i :: 0 <= i < |first.streams| && first.streams[i].kind == Video
    ensures !reloaded ==> after == before && shownAfter == shownBefore
    ensures reloaded ==> shownAfter == shownBefore + 1
  {
    var p := new VideoPlayer();
    var loaded := p.Load(Opened(first), deviceOpens);
    reloaded := p.Load(second, deviceOpens);
    before, shownBefore := p.Decoding(), |p.presented|;
    p.GuardedRenderFrame();
    after, shownAfter := p.Decoding(), |p.presented|;
  }
}
