/**
 * The player as built from testVideoplayer.cpp, the variant without volume
 * control: decoded FLT and S16 audio goes to the device as decoded, the
 * channel count is the layout's with no fallback, and cleanup does not forget
 * the video stream index.
 */
module TestVideoPlayerEngine {
  import opened Media
  import opened Gain
  import opened Playback

  class VideoPlayer {
    var file: Option<Container>       // fmtCtx
    var videoOpen: bool               // CodecCtx, swsCtx, frame, rgbFrame, packet and texture held
    var audioDecoder: bool            // AudioCodecCtx held
    var audioDevice: bool             // an SDL audio device is open
    var videoStreamIndex: int
    var audioStreamIndex: int
    var channels2: int
    var frameReady: bool
    var isPaused: bool
    var currentPts: real
    var seekTargetTime: real
    var volume: real                  // declared by the shared header; this build never reads it

    var readPos: nat                  // the demuxer's position in the file's packets
    var texture: Option<real>         // time of the picture in the texture, None before the first
    var presented: seq<Option<real>>  // what each copy to the renderer showed, oldest first
    var queued: seq<Pcm>              // the audio device's queue
    var sinkPaused: bool              // the audio device's pause state

    /** The invariant every public operation keeps. Unlike the main build, a
        video stream index may outlive its decoder. */
    ghost predicate Valid()
      reads this
    {
      && StreamsValid()
      && (file.Some? ==> readPos <= |file.value.packets|)
    }

    /** What a load establishes: the selected streams are of the right kind,
        and the audio decoder is held exactly when the device is open. */
    ghost predicate StreamsValid()
      reads this`file, this`audioDecoder, this`audioDevice, this`audioStreamIndex, this`videoOpen,
            this`videoStreamIndex
    {
      && (audioDecoder <==> audioDevice)
      && (audioDevice ==> file.Some? && 0 <= audioStreamIndex < |file.value.streams|
                          && file.value.streams[audioStreamIndex].kind == Audio)
      && (videoOpen ==> file.Some? && 0 <= videoStreamIndex < |file.value.streams|
                        && file.value.streams[videoStreamIndex].kind == Video)
    }

    /** The fields one decode call reads and writes. */
    function Decoding(): DecodeState
      reads this
    {
      DecodeState(readPos, currentPts, seekTargetTime, frameReady, texture, queued)
    }

    /** Decoded audio goes to the device: both the decoder and the device are open. */
    predicate AudioActive()
      reads this
    {
      audioDecoder && audioDevice
    }

    /** The seek guard lets a seek through: a container is open and a video
        stream index is set. */
    predicate SeekGuardPasses()
      reads this
    {
      file.Some? && videoStreamIndex >= 0
    }

    /** The defaults of the shared header. */
    constructor ()
      ensures Valid()
      ensures file.None? && !videoOpen && !audioDecoder && !audioDevice
      ensures videoStreamIndex == -1 && audioStreamIndex == -1 && channels2 == 1
      ensures !isPaused && currentPts == 0.0 && seekTargetTime == NoSeek && volume == MaxVolume
      ensures readPos == 0 && texture.None? && presented == [] && queued == [] && sinkPaused
    {
      file := None;
      videoOpen, audioDecoder, audioDevice := false, false, false;
      videoStreamIndex, audioStreamIndex := -1, -1;
      channels2 := 1;
      isPaused := false;
      currentPts := 0.0;
      seekTargetTime := NoSeek;
      volume := MaxVolume;
      readPos := 0;
      texture := None;
      presented := [];
      queued := [];
      sinkPaused := true;
    }

    function GetCurrentTime(): (t: real)
      reads this
      ensures t == currentPts
    {
      currentPts
    }

    function GetDuration(): (d: real)
      reads this
      ensures file.None? ==> d == 0.0
      ensures d == DurationSeconds(file)
    {
      DurationSeconds(file)
    }

    function GetPauseState(): (paused: bool)
      reads this
      ensures paused == isPaused
    {
      isPaused
    }

    /** Releases everything the last load acquired and forgets the audio stream
        and any pending seek, but keeps the video stream index. */
    method Cleanup()
      requires Valid()
      modifies this`file, this`videoOpen, this`audioDecoder, this`audioDevice, this`frameReady,
               this`seekTargetTime, this`audioStreamIndex, this`readPos, this`texture, this`queued,
               this`sinkPaused
      ensures Valid()
      ensures file.None? && !videoOpen && !audioDecoder && !audioDevice
      ensures !frameReady && seekTargetTime == NoSeek && audioStreamIndex == -1
      ensures videoStreamIndex == old(videoStreamIndex)
      ensures readPos == 0 && texture.None? && queued == [] && sinkPaused
    {
      videoOpen := false;
      texture := None;
      file := None;
      readPos := 0;
      audioDevice := false;
      queued := [];
      sinkPaused := true;
      audioDecoder := false;
      frameReady := false;
      seekTargetTime := NoSeek;
      audioStreamIndex := -1;
    }

    /** Opens a file as the main build does, except that the channel count is
        taken from the layout as it is. When probing fails, the video stream
        index of the previous file is still set. */
    method Load(outcome: OpenOutcome, deviceOpens: bool) returns (ok: bool)
      requires Valid()
      modifies this`file, this`videoOpen, this`audioDecoder, this`audioDevice, this`frameReady,
               this`seekTargetTime, this`audioStreamIndex, this`videoStreamIndex, this`readPos,
               this`texture, this`queued, this`sinkPaused, this`channels2, this`isPaused, this`currentPts
      ensures Valid()
      ensures ok <==> outcome.Opened? && videoOpen
      ensures outcome.OpenFailed? ==> file.None? && !audioDevice
      ensures outcome.ProbeFailed? ==> file == Some(outcome.unprobed) && !audioDevice && !videoOpen
                                       && audioStreamIndex == -1 && videoStreamIndex == old(videoStreamIndex)
      ensures outcome.Opened? ==> file == Some(outcome.container)
                                  && IsFirstOfKind(outcome.container.streams, Audio, audioStreamIndex)
                                  && audioDevice == (audioStreamIndex >= 0 && deviceOpens)
                                  && IsFirstOfKind(outcome.container.streams, Video, videoStreamIndex)
                                  && (videoOpen <==> videoStreamIndex >= 0)
      ensures outcome.Opened? && audioStreamIndex >= 0 ==>
                channels2 == outcome.container.streams[audioStreamIndex].layoutChannels
      ensures !(outcome.Opened? && audioStreamIndex >= 0) ==> channels2 == old(channels2)
      ensures !outcome.Opened? ==> audioStreamIndex == -1
      ensures outcome.OpenFailed? ==> !videoOpen && videoStreamIndex == old(videoStreamIndex)
      ensures audioDevice ==> !sinkPaused && queued == []
      ensures !audioDevice ==> sinkPaused && queued == []
      ensures !outcome.OpenFailed? ==> readPos == 0
      ensures !frameReady && seekTargetTime == NoSeek && texture.None?
      ensures ok ==> !isPaused && currentPts == 0.0
      ensures !ok ==> isPaused == old(isPaused) && currentPts == old(currentPts)
    {
      Cleanup();
      if outcome.OpenFailed? {
        return false;
      }
      var c := if outcome.ProbeFailed? then outcome.unprobed else outcome.container;
      file := Some(c);
      if outcome.ProbeFailed? {
        return false;
      }
      OpenAudio(c, deviceOpens);
      ok := OpenVideo(c);
    }

    /** The audio part of a load; the channel count has no fallback. */
    method OpenAudio(c: Container, deviceOpens: bool)
      requires Valid() && file == Some(c) && !audioDevice && !videoOpen
      modifies this`audioStreamIndex, this`audioDecoder, this`audioDevice, this`channels2, this`sinkPaused
      ensures Valid() && !videoOpen
      ensures IsFirstOfKind(c.streams, Audio, audioStreamIndex)
      ensures audioDevice == (audioStreamIndex >= 0 && deviceOpens)
      ensures audioStreamIndex >= 0 ==> channels2 == c.streams[audioStreamIndex].layoutChannels
      ensures audioStreamIndex < 0 ==> channels2 == old(channels2)
      ensures audioDevice ==> !sinkPaused
      ensures !audioDevice ==> sinkPaused == old(sinkPaused)
    {
      audioStreamIndex := FindFirstStream(c.streams, Audio);
      audioDecoder, audioDevice := false, false;
      if audioStreamIndex != -1 {
        audioDecoder := true;
        channels2 := c.streams[audioStreamIndex].layoutChannels;
        if deviceOpens {
          audioDevice := true;
          sinkPaused := false;
        } else {
          audioDecoder := false;
        }
      }
    }

    /** The video part of a load, as in the main build. */
    method OpenVideo(c: Container) returns (ok: bool)
      requires Valid() && file == Some(c) && !videoOpen
      modifies this`videoStreamIndex, this`videoOpen, this`frameReady, this`isPaused, this`currentPts,
               this`seekTargetTime
      ensures Valid()
      ensures IsFirstOfKind(c.streams, Video, videoStreamIndex)
      ensures ok == videoOpen && (videoOpen <==> videoStreamIndex >= 0)
      ensures ok ==> !frameReady && !isPaused && currentPts == 0.0 && seekTargetTime == NoSeek
      ensures !ok ==> frameReady == old(frameReady) && isPaused == old(isPaused)
                      && currentPts == old(currentPts) && seekTargetTime == old(seekTargetTime)
    {
      var videoIndex := FindFirstStream(c.streams, Video);
      videoStreamIndex := videoIndex;
      if videoIndex == -1 {
        return false;
      }
      videoOpen := true;
      frameReady := false;
      isPaused := false;
      currentPts := 0.0;
      seekTargetTime := NoSeek;
      return true;
    }

    /** The decode loop of the main build, with FLT and S16 audio queued as
        decoded. */
    method DecodeNextFrame()
      requires Valid() && videoOpen
      modifies this`readPos, this`currentPts, this`seekTargetTime, this`frameReady, this`texture, this`queued
      ensures Valid()
      ensures Decoding() == DecodeNext(file.value, videoStreamIndex, audioStreamIndex, AudioActive(),
                                       PassThrough, old(Decoding()))
    {
      frameReady := false;
      var r := DecodeLoop(file.value, videoStreamIndex, audioStreamIndex, audioDecoder && audioDevice,
                          PassThrough, Decoding());
      readPos, currentPts, seekTargetTime, frameReady, texture, queued :=
        r.readPos, r.currentPts, r.seekTarget, r.frameReady, r.picture, r.queued;
    }

    /** One render tick, as in the main build. */
    method RenderFrame()
      requires Valid() && videoOpen
      modifies this`readPos, this`currentPts, this`seekTargetTime, this`frameReady,
               this`texture, this`queued, this`presented
      ensures Valid()
      ensures Decoding() == RenderNext(file.value, videoStreamIndex, audioStreamIndex, AudioActive(),
                                       PassThrough, isPaused, old(Decoding()))
      ensures presented == old(presented) + [texture]
    {
      if isPaused {
        presented := presented + [texture];
        return;
      }
      if !frameReady {
        DecodeNextFrame();
      }
      presented := presented + [texture];
      frameReady := false;
    }

    /** Relative seek. Past the guard the code looks up the video stream and
        flushes the video decoder, which is only defined while that decoder
        is open; the guard alone does not ensure it here. */
    method Seek(seconds: real, keyframePos: nat)
      requires Valid()
      requires file.Some? ==> keyframePos <= |file.value.packets|
      requires SeekGuardPasses() ==> videoOpen
      modifies this`seekTargetTime, this`frameReady, this`readPos
      ensures Valid()
      ensures !old(SeekGuardPasses()) ==>
                seekTargetTime == old(seekTargetTime) && frameReady == old(frameReady) && readPos == old(readPos)
      ensures old(SeekGuardPasses()) ==>
                seekTargetTime == SeekTarget(GetCurrentTime() + seconds, GetDuration())
                && !frameReady && readPos == keyframePos
    {
      if file.None? || videoStreamIndex < 0 {
        return;
      }
      var newTime := GetCurrentTime() + seconds;
      if newTime < 0.0 {
        newTime := 0.0;
      }
      var duration := GetDuration();
      if newTime > duration {
        newTime := duration - SeekEpsilon;
      }
      readPos := keyframePos;
      seekTargetTime := newTime;
      frameReady := false;
    }

    /** Absolute seek, with the same guard and the same demand as Seek. */
    method SeekTo(time: real, keyframePos: nat)
      requires Valid()
      requires file.Some? ==> keyframePos <= |file.value.packets|
      requires SeekGuardPasses() ==> videoOpen
      modifies this`seekTargetTime, this`frameReady, this`readPos
      ensures Valid()
      ensures !old(SeekGuardPasses()) ==>
                seekTargetTime == old(seekTargetTime) && frameReady == old(frameReady) && readPos == old(readPos)
      ensures old(SeekGuardPasses()) ==>
                seekTargetTime == SeekTarget(time, GetDuration()) && !frameReady && readPos == keyframePos
    {
      if file.None? || videoStreamIndex < 0 {
        return;
      }
      var seekTime := time;
      if seekTime < 0.0 {
        seekTime := 0.0;
      }
      var duration := GetDuration();
      if seekTime > duration {
        seekTime := duration - SeekEpsilon;
      }
      readPos := keyframePos;
      seekTargetTime := seekTime;
      frameReady := false;
    }

    /** Flips the pause flag; the audio device follows it when audio is playing. */
    method TogglePause()
      requires Valid()
      modifies this`isPaused, this`sinkPaused
      ensures Valid()
      ensures isPaused == !old(isPaused)
      ensures AudioActive() ==> sinkPaused == isPaused
      ensures !AudioActive() ==> sinkPaused == old(sinkPaused)
    {
      isPaused := !isPaused;
      if audioDecoder && audioDevice {
        sinkPaused := isPaused;
      }
    }
  }

  // ------------------------------------------------------------ scenarios

  /** A file with a video stream plays, then a file that opens but cannot be
      probed is loaded: the video stream index of the first file survives the
      cleanup, so the seek guard lets a seek through while the video decoder
      is released, and the index may lie outside the second file's streams. */
  method ProbeFailureKeepsStaleVideoIndex(first: Container, second: Container, deviceOpens: bool)
    returns (reloaded: bool, seekGuardPasses: bool, decoderOpen: bool, staleIndex: int)
    requires exists i :: 0 <= i < |first.streams| && first.streams[i].kind == Video
    ensures !reloaded && seekGuardPasses && !decoderOpen
    ensures IsFirstOfKind(first.streams, Video, staleIndex) && staleIndex >= 0
  {
    var p := new VideoPlayer();
    var loaded := p.Load(Opened(first), deviceOpens);
    reloaded := p.Load(ProbeFailed(second), deviceOpens);
    seekGuardPasses := p.SeekGuardPasses();
    decoderOpen := p.videoOpen;
    staleIndex := p.videoStreamIndex;
  }
}
