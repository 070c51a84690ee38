# VCPlayer playback engine in Dafny

This project models the playback engine of VCPlayer, a desktop video player
built on FFmpeg and SDL. The engine is the `VideoPlayer` class:

- it opens a file and selects its first audio stream and first video stream;
- it runs a decode loop that reads packets until one yields a picture to show;
- on the way it queues the decoded audio on the SDL audio device, scaled by
  the volume;
- its render tick decodes a frame only when none is ready;
- it has a relative and an absolute seek, which clamp the target and make
  the decode loop drop pictures earlier than it;
- it has a pause toggle, a volume control (relative steps and a mute toggle),
  and a cleanup that releases everything.

Two builds of the class exist:

- `VideoPlayer.cpp`, with volume scaling;
- `testVideoplayer.cpp`, which queues audio unscaled, takes the channel
  count as the codec reports it, and whose cleanup keeps the video stream
  index.

Both share the fields and defaults of `VideoPlayer.h`.

The model has five modules:

- `Media` (media.dfy): the abstract container. A container is a list of
  streams and a list of packets. Each packet carries the picture time the
  video decoder returns for it and the audio frames the audio decoder yields
  for it. It also has the outcome of opening a file.
- `Gain` (gain.dfy): the volume rules and the sample scaling. This covers
  the clamp, the mute toggle, truncation and 16-bit saturation, the two
  in-place scaling loops over arrays, and the C++ `short` loop counter.
- `Playback` (playback.dfy): the rules both builds share, as functions.
  These are stream selection, the seek clamp, picture admission while a seek
  is pending, the audio a packet sends to the sink, and one call of the
  decode loop (`DecodeNext`). `DecodeLoop` is the decode loop written as the
  source's `while (true)` loop with its inner audio drain, and is proved
  equal to `DecodeNext`.
- `VideoPlayerEngine` (video_player.dfy): the class of `VideoPlayer.cpp`.
  Its fields are the header's fields. The FFmpeg and SDL handles become
  flags, the demuxer a read position, the texture the time of the picture
  it holds, the renderer the list of pictures copied to it, and the audio
  device a queue with a pause flag. It also holds scenario methods
  that drive a fresh player through a sequence of calls.
- `TestVideoPlayerEngine` (test_video_player.dfy): the class of
  `testVideoplayer.cpp`, modelled the same way, with its scenario.

Times and gains are exact reals. Sample values are integers, checked against
the `int16_t` range.

Three facts about the code are worth stating up front:

- The header's initial volume is 2.0 (VideoPlayer.h:72), but the mute toggle
  "resets to default volume" by setting 1.0 (VideoPlayer.cpp:280). So two
  toggles from the initial volume end at 0.0, and the toggle only restores
  the volumes 0 and 1 (`Gain.ToggleTwiceRestores`,
  `Gain.ToggleTwiceFromInitialVolume`).
- The audio device follows the pause flag only while both the audio decoder
  and the audio device are open. A paused render tick decodes nothing, so
  no audio is queued while paused (`VideoPlayerEngine.PauseHoldsPicture`).
- `decodeNextFrame` returns nothing. Its outcome is the `frameReady` flag,
  which is false at the end of input.

## Model

| member | source | states |
|---|---|---|
| Gain.ClampVolume | VideoPlayer.cpp:283-285 | the stepped volume lies in [0, 2]; it is the sum when that lies in range, 0 below and 2 above |
| Gain.ToggleVolume | VideoPlayer.cpp:275-281 | the toggled volume is 0 or 1, and it is 0 exactly when the volume was 1 |
| Gain.ToggleTwiceRestores | VideoPlayer.cpp:275-281 | two toggles give back the starting volume if and only if it was 0 or 1 |
| Gain.ToggleTwiceFromInitialVolume | VideoPlayer.h:72 | from the initial volume 2.0, two toggles end at 0.0, not at 2.0 |
| Gain.StepIsMonotone | VideoPlayer.cpp:283-285 | a non-negative step never lowers an in-range volume, and a non-positive step never raises it |
| Gain.StepsSaturate | VideoPlayer.cpp:283-285 | any series of upward steps from 2 stays at 2, and any series of downward steps from 0 stays at 0 |
| Gain.VolumeAfterSteps | VideoPlayer.cpp:283-285 | the volume after a series of relative changes, applied in order, lies in [0, 2] once a change was made, and stays in it when it started there |
| Gain.StepsAppend | VideoPlayer.cpp:283-285 | one more change after a series is one more clamped step from the series' result, so the series is the volume control called once per step |
| Gain.Trunc | VideoPlayer.cpp:179 | the float-to-int conversion truncates toward zero: the result is the integer part, on the side of zero |
| Gain.ScaleSample | VideoPlayer.cpp:179-182 | a scaled sample lies in the int16 range; it is the truncated product when that fits, and INT16_MAX or INT16_MIN when the product is above or below |
| Gain.Saturate16 | VideoPlayer.cpp:180-181 | the clamp's result lies in the int16 range and leaves values already in range unchanged |
| Gain.ProductFitsInt32 | VideoPlayer.cpp:179 | for an int16 sample and a gain in [0, 2], the truncated product lies within ±65536, so the `int32_t` intermediate cannot overflow |
| Gain.UnityGainKeepsSample | VideoPlayer.cpp:179-182 | at gain 1 a sample is unchanged |
| Gain.ScaleS16 | VideoPlayer.cpp:176-183 | the scaled buffer has the input's length and every sample in the int16 range |
| Gain.UnityGainKeepsBuffer | VideoPlayer.cpp:176-183 | at gain 1 an int16 buffer is unchanged |
| Gain.ScaleS16InPlace | VideoPlayer.cpp:172-183 | the in-place loop leaves the array equal to the sample-by-sample saturated scaling of its old contents |
| Gain.ScaleFlt | VideoPlayer.cpp:166-168 | the scaled float buffer has the input's length, and each sample is the input sample times the gain |
| Gain.UnityGainKeepsFltBuffer | VideoPlayer.cpp:166-168 | at gain 1 a float buffer is unchanged, and at gain 0 every sample is silent |
| Gain.ScaleFltInPlace | VideoPlayer.cpp:162-168 | the in-place loop leaves the array equal to its old contents scaled by the gain |
| Gain.ShortIncrement | VideoPlayer.cpp:176 | `i++` on a `short` adds one below 32767 and wraps 32767 to -32768 |
| Gain.ShortCounterAfter | VideoPlayer.cpp:176 | the `short` counter stays in the int16 range after any number of increments |
| Gain.ShortCounterAgreesBelowBound | VideoPlayer.cpp:176 | for up to 32767 increments the `short` counter equals the count, so buffers of at most 32767 samples are walked correctly |
| Gain.ShortCounterWrapsPastBound | VideoPlayer.cpp:176 | with more than 32767 samples the counter never reaches the sample count, and after 32768 increments it is -32768 |
| Playback.FindFirstStream | VideoPlayer.cpp:22-29 | the result is the index of the first stream of the kind, or -1 exactly when there is none |
| Playback.FirstOfKindIsUnique | VideoPlayer.cpp:66-72 | the first stream of a kind is unique, so audio and video selection are determined by the container |
| Playback.DurationSeconds | VideoPlayer.cpp:257-260 | the duration is 0 without a file or with no reported duration, and otherwise the container's duration divided by AV_TIME_BASE |
| Playback.SeekTarget | VideoPlayer.cpp:236-239 | the target never exceeds the duration; an in-range request is kept; a negative request becomes 0 when the duration is not negative (with a negative duration it becomes duration - 0.01); a request past the end becomes duration - 0.01; it is negative only when the duration is below 0.01 |
| Playback.SeekTargetIdempotent | VideoPlayer.cpp:236-239 | for a duration of at least 0.01, clamping a clamped target changes nothing |
| Playback.UnknownDurationDropsTarget | VideoPlayer.cpp:215-218 | with no reported duration, every forward seek gives the target -0.01, which the decode loop treats as no pending seek |
| Playback.Admits | VideoPlayer.cpp:134-135 | without a pending seek every picture is shown; with one, a picture is shown exactly when it is at or after the target |
| Playback.NextAdmitted | VideoPlayer.cpp:128-137 | the result is the first packet from the read position whose picture the pending seek admits, or -1 when none is left |
| Playback.LastPicturePts | VideoPlayer.cpp:130-132 | the clock after a run of packets is either unchanged or the time of a picture decoded from one of them |
| Playback.ClockIsLastDecodedPicture | VideoPlayer.cpp:130-132 | the clock after a run of packets is the time of the last picture decoded from them, admitted or dropped, and is unchanged when none was decoded |
| Playback.Converted | VideoPlayer.cpp:161-192 | a decoded audio frame yields one buffer of the same format and length, or nothing for a format other than FLT and S16; the unscaled path queues the frame as decoded |
| Playback.UnityGainIsPassThrough | testVideoplayer.cpp:128-131 | at gain 1 the scaled path queues S16 audio exactly as the unscaled build does |
| Playback.AudioFromFrames | VideoPlayer.cpp:152-193 | what draining one packet queues, in decoder order: no buffer of a format other than FLT or S16 reaches the sink |
| Playback.AudioFromFramesLength | VideoPlayer.cpp:152-193 | draining a packet queues at most one buffer per decoded frame, and exactly one per frame when every frame is FLT or S16 |
| Playback.ConvertFrame | VideoPlayer.cpp:161-192 | converting one frame through its sample buffer, in place, gives the frame's converted form |
| Playback.DrainAudio | VideoPlayer.cpp:150-194 | the drain loop queues the converted frames of the packet, in decoder order |
| Playback.AudioFromPackets | VideoPlayer.cpp:150-194 | what a run of packets queues through the audio guard: only FLT and S16 buffers reach the sink |
| Playback.NoAudioWhenInactive | VideoPlayer.cpp:150 | without an open audio decoder and device, no packet puts anything on the queue |
| Playback.DecodeNext | VideoPlayer.cpp:120-197 | one decode call reads forward and hands over at most one picture, the one at its last packet. An earlier packet never yields an admitted picture. A shown picture sets the clock and clears a pending seek, and is at or after its target. At end of input nothing is shown and the target stays pending. Audio is only appended. |
| Playback.NextAdmittedIs | VideoPlayer.cpp:128-137 | a packet with an admitted picture, with none before it, is the next admitted one |
| Playback.DecodeNextShows | VideoPlayer.cpp:128-146 | when the first admitted picture is at packet k, the call stops after k, shows that picture, sets the clock to it, clears a pending seek and queues the audio of the packets read |
| Playback.DecodeNextExhausts | VideoPlayer.cpp:122-126 | when no admitted picture is left, the call reads to the end of input, shows nothing new, keeps the seek pending and queues the audio of the packets read |
| Playback.DecodeLoop | VideoPlayer.cpp:120-197 | the `while (true)` loop, with its inner audio drain, computes exactly one decode call as defined by DecodeNext |
| Playback.DroppedPicturesPrecedeTarget | VideoPlayer.cpp:134-135 | every picture a call decodes and does not show was earlier than a pending seek target; without a pending target, no picture is dropped |
| Playback.RenderNext | VideoPlayer.cpp:200-209 | a paused tick changes no state; an unpaused tick with a ready frame only consumes it; every unpaused tick ends with no frame ready |
| Playback.RenderAfterSeekShowsNoEarlierPicture | VideoPlayer.cpp:134-137 | after a seek, a render tick that settles the seek has put a picture at or after the target in the texture |
| VideoPlayerEngine.ChannelsFor | VideoPlayer.cpp:42 | the channel count is positive: the layout's count when positive, otherwise 2 |
| VideoPlayerEngine.VideoPlayer.constructor | VideoPlayer.h:21-72 | a new player has nothing open, both stream indices -1, channels2 1, no pending seek, is unpaused at time 0 with volume 2.0, and has no specified `frameReady` |
| VideoPlayerEngine.VideoPlayer.GetCurrentTime | VideoPlayer.cpp:252-254 | the current time is the clock |
| VideoPlayerEngine.VideoPlayer.GetDuration | VideoPlayer.cpp:257-260 | the duration is 0 without a file, and otherwise the file's duration in seconds |
| VideoPlayerEngine.VideoPlayer.GetPauseState | VideoPlayer.cpp:270 | the pause state is the pause flag |
| VideoPlayerEngine.VideoPlayer.Cleanup | VideoPlayer.cpp:298-316 | everything is released, both stream indices are -1, there is no pending seek and no ready frame; volume, pause flag and clock are kept |
| VideoPlayerEngine.VideoPlayer.Load | VideoPlayer.cpp:6-117 | load cleans up first: after any load the audio queue is empty, the audio index is -1 unless the file was opened and probed, the video index is -1 unless the load succeeds, and nothing is pending or ready. It succeeds exactly when the file opens, is probed and has a video stream. It selects the first audio and first video stream. The audio device is open exactly when there is an audio stream and SDL opens it, and it then plays; without it the sink stays paused. channels2 falls back to 2. A success resets the ready flag, pause flag, clock and seek target. |
| VideoPlayerEngine.VideoPlayer.OpenAudio | VideoPlayer.cpp:20-62 | the first audio stream is selected, with its decoder kept only if the device opens; channels2 is set from its layout with the fallback; the device starts unpaused |
| VideoPlayerEngine.VideoPlayer.OpenVideo | VideoPlayer.cpp:64-116 | the first video stream is selected; without one the load fails and nothing else changes; with one the playback state is reset |
| VideoPlayerEngine.VideoPlayer.DecodeNextFrame | VideoPlayer.cpp:120-197 | the new position, clock, target, ready flag, texture and queue are one DecodeNext call, scaled by the current volume, from the old state with `frameReady` cleared |
| VideoPlayerEngine.VideoPlayer.RenderFrame | VideoPlayer.cpp:200-209 | the new state is one RenderNext tick of the old state, and the texture is copied to the renderer once |
| VideoPlayerEngine.VideoPlayer.GuardedRenderFrame | VideoPlayer.cpp:200-209 | the render tick with a video-decoder guard: without a decoder no state changes and nothing is shown; with one it is exactly RenderFrame |
| VideoPlayerEngine.VideoPlayer.Seek | VideoPlayer.cpp:212-230 | with no file or no video stream nothing changes; otherwise the pending target is the clamp of current time plus the offset, no frame is ready and the demuxer is at the chosen keyframe |
| VideoPlayerEngine.VideoPlayer.SeekTo | VideoPlayer.cpp:233-249 | the same guard as Seek; otherwise the pending target is the clamp of the requested time, no frame is ready and the demuxer is at the chosen keyframe |
| VideoPlayerEngine.VideoPlayer.TogglePause | VideoPlayer.cpp:263-267 | the pause flag is negated; the audio device's pause state follows it when audio is active and is untouched otherwise |
| VideoPlayerEngine.VideoPlayer.ChangeVolume | VideoPlayer.cpp:274-291 | toggle mode applies the mute toggle; relative mode (the default) adds and clamps to [0, 2]; the queue is emptied exactly when an audio device is open |
| VideoPlayerEngine.SeekToThenRender | VideoPlayer.cpp:233-249 | a fresh player loads exactly when the file has a video stream; an absolute seek sets the clamped target; the next render tick either settles it, showing a picture not earlier than the target, or runs out of input and shows nothing |
| VideoPlayerEngine.PauseHoldsPicture | VideoPlayer.cpp:200-205 | after load and pause, two render ticks show the same picture twice and change no clock, position, seek, texture or audio state; the audio device is paused when the file has audio and the device opened |
| VideoPlayerEngine.ProbeFailureDisablesSeek | VideoPlayer.cpp:313-315 | after a file plays and a file whose probing fails is loaded, the seek guard fails, no video decoder is open and a seek sets no target |
| VideoPlayerEngine.FailedReloadLeavesRenderUnguarded | VideoPlayer.cpp:6-117 | after a file with video plays, a reload fails exactly when the new file does not open, is not probed or has no video stream; a failed reload leaves the player unpaused, with no frame ready and no video decoder, so the next render tick as written enters the decode loop |
| VideoPlayerEngine.FailedReloadThenGuardedRender | VideoPlayer.cpp:200-209 | with the guarded tick, a render after a failed reload changes no decode state and shows nothing, and after a successful reload it shows one picture |
| TestVideoPlayerEngine.VideoPlayer.constructor | VideoPlayer.h:21-72 | the same header defaults as the main build |
| TestVideoPlayerEngine.VideoPlayer.GetCurrentTime | testVideoplayer.cpp:186-188 | the current time is the clock |
| TestVideoPlayerEngine.VideoPlayer.GetDuration | testVideoplayer.cpp:190-193 | the duration is 0 without a file, and otherwise the file's duration in seconds |
| TestVideoPlayerEngine.VideoPlayer.GetPauseState | testVideoplayer.cpp:200 | the pause state is the pause flag |
| TestVideoPlayerEngine.VideoPlayer.Cleanup | testVideoplayer.cpp:202-219 | everything is released and the audio index, seek target and ready flag are reset, but the video stream index keeps its old value |
| TestVideoPlayerEngine.VideoPlayer.Load | testVideoplayer.cpp:4-91 | as in the main build, except that channels2 is the layout's count with no fallback, and a failed open or a failed probe leaves the previous video stream index set |
| TestVideoPlayerEngine.VideoPlayer.OpenAudio | testVideoplayer.cpp:16-48 | the first audio stream is selected, channels2 is its layout's count as reported, and its decoder is kept only if the device opens |
| TestVideoPlayerEngine.VideoPlayer.OpenVideo | testVideoplayer.cpp:50-90 | the first video stream is selected; without one the load fails; with one the playback state is reset |
| TestVideoPlayerEngine.VideoPlayer.DecodeNextFrame | testVideoplayer.cpp:93-138 | the new state is one DecodeNext call from the old state, with FLT and S16 audio queued as decoded |
| TestVideoPlayerEngine.VideoPlayer.RenderFrame | testVideoplayer.cpp:140-148 | the new state is one RenderNext tick of the old state, with unscaled audio, and the texture is copied once |
| TestVideoPlayerEngine.VideoPlayer.Seek | testVideoplayer.cpp:150-166 | with no file or a negative video stream index nothing changes; otherwise the pending target is the clamp of current time plus the offset, and no frame is ready |
| TestVideoPlayerEngine.VideoPlayer.SeekTo | testVideoplayer.cpp:168-184 | the same guard; otherwise the pending target is the clamp of the requested time, and no frame is ready |
| TestVideoPlayerEngine.VideoPlayer.TogglePause | testVideoplayer.cpp:195-199 | the pause flag is negated, and the audio device follows it when audio is active |
| TestVideoPlayerEngine.ProbeFailureKeepsStaleVideoIndex | testVideoplayer.cpp:202-219 | after a file with video plays and a file whose probing fails is loaded, the seek guard still passes with the old file's video index while no video decoder is open |

## Left out

- FFmpeg and SDL are not modelled. This covers container probing, the send
  and receive of the codecs, `sws_scale`, texture upload, `SDL_QueueAudio`
  and `SDL_RenderCopy`. The container is a list of packets whose decoding
  is given in advance.
- The decoders are stateless: a packet's picture and audio frames do not
  depend on the packets before it. The decoder flushes in `seek` and
  `seekTo` therefore change nothing.
- The keyframe that `av_seek_frame` picks with `AVSEEK_FLAG_BACKWARD` is a
  parameter of Seek and SeekTo (`keyframePos`). The conversion of the target
  to the stream's time base is not modelled.
- Floating point is not modelled. Times, gains and float samples are exact
  reals, and `float`/`double` rounding is not modelled.
- No upper bound (such as one frame period) is stated on the first picture
  shown after a seek. The model has no frame rate, no order among the
  pictures' times, and `keyframePos` is unconstrained. What is proved is that
  the shown picture is the first one at or past the target:
  `Playback.DroppedPicturesPrecedeTarget` and
  `Playback.RenderAfterSeekShowsNoEarlierPicture`.
- Packet release (`av_packet_unref`) and reference counting are not
  modelled, because packets are values.
- A read error is the end of input, as the source treats it.
- Picture size, pixel format and the RGB buffer are not modelled.
- Handles are modelled only as held state: the container (`file`) and the
  audio decoder and device (`audioDecoder`, `audioDevice`) stay held after a
  failed probe or a load without a video stream, until the next cleanup.
  The teardown order is not modelled, and neither is the converter:
  `cleanup` frees `swsCtx` without clearing it
  (VideoPlayer.cpp:305, testVideoplayer.cpp:209). A cleanup that follows a
  load which failed before the video setup therefore frees it a second time.
- The renderer is the `presented` list of pictures copied to it.
- The audio byte count is not modelled. `data_size` is computed from
  `channels2` and the frame's sample count, while the scaling loop walks
  `nb_samples * channels2` samples. The model scales and queues the whole
  decoded sample buffer, and does not model a mismatch between the
  reported layout and the decoded buffer.
- `App.cpp`, `App.h` and `FileDialog.cpp` (event loop, menus, file dialog)
  are not part of this model.
- DecodeNextFrame and RenderFrame require an open video decoder. The app does
  reach a render without one: once a file has played it calls `renderFrame`
  on every frame (App.cpp:241-242, 255-256), also after a later load fails.
  The source then passes `av_read_frame` the packet that cleanup freed and
  set to null, and after a failed open a null container, in both builds. The model does not give that render a meaning.
  It exhibits the state and models the guarded tick instead; see the third
  finding.
- Seek and SeekTo of the test build require that the video decoder is open
  when the guard passes. The source flushes the null decoder context and
  indexes the streams of the wrong file otherwise; see the second finding.
- VideoPlayerEngine.VideoPlayer.DecodeNextFrame runs the loop on values
  (`Playback.DecodeLoop`) and writes its result back to the fields. It does
  not interleave heap updates with each packet the way the source does; the
  final state is the same.
- Gain.ScaleS16InPlace: uses an `int` counter. The `short` counter of the
  source is modelled on its own, in ShortCounterAfter, and reported below.
- TestVideoPlayerEngine.VideoPlayer: the `volume` field of the shared
  header is kept and set to 2.0, but that build never reads it and has no
  `changeVolume`.

## Findings

| source | as written | input that shows it | evidently intended | confidence | as-written member | corrected member |
|---|---|---|---|---|---|---|
| VideoPlayer.cpp:176 | the S16 scaling loop counts with a `short`, so for more than 32767 samples in a frame the counter wraps to -32768 before reaching `num_samples` | an S16 frame with 8192 samples on 6 channels (`num_samples` = 49152) | every sample of the frame is scaled once and the loop stops at `num_samples` | not executed | Gain.ShortCounterWrapsPastBound | Gain.ScaleS16InPlace |
| testVideoplayer.cpp:202-219 | cleanup does not reset `videoStreamIndex`, so after a load whose probing fails the guard of `seek`/`seekTo` (testVideoplayer.cpp:151, 169) still passes, and the code flushes the video decoder context that cleanup freed and set to null, and indexes the streams of the new file with the old index | load a file with a video stream, then load a file that opens but whose stream info cannot be found, then seek | cleanup forgets the video stream, so a seek with no video decoder does nothing | not executed | TestVideoPlayerEngine.ProbeFailureKeepsStaleVideoIndex | VideoPlayerEngine.ProbeFailureDisablesSeek |
| VideoPlayer.cpp:206 | a failed load keeps the pause flag and leaves no frame ready; once unpaused (as after a file played without a pause), `renderFrame`, which the app keeps calling (App.cpp:255-256), calls `decodeNextFrame`; its `av_read_frame` (VideoPlayer.cpp:123) gets the null packet that cleanup left at VideoPlayer.cpp:299, and after a failed open also a null container; the same holds at testVideoplayer.cpp:145 | play a file with a video stream, then choose a file that does not open, cannot be probed or has no video stream | a render tick without an open video decoder does nothing | not executed | VideoPlayerEngine.FailedReloadLeavesRenderUnguarded | VideoPlayerEngine.FailedReloadThenGuardedRender |
