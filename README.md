# VAD-TTS voice client, modelled in Dafny

This project models the client side of a spoken-interaction loop. The loop
listens to the microphone and decides when the user is speaking. When the user
speaks, it asks a synthesis server over a WebSocket for an utterance. When the
user stops, it plays the reply. If the user speaks again during playback
("barge-in"), it stops playback and asks for a new utterance at once.

There are two clients. `client.py` detects speech frame by frame with WebRTC
VAD and a debounce counter. `client_silero_hindi.py` classifies 0.3 s windows
with Silero VAD. Both share the same playback controller and the same request
loop. The model has one module per concern:

- `Common`: byte payloads, PCM samples, `Option`, and the shared
  `speech_started_event` (class `SpeechEvent`).
- `Debounce`: the WebRTC worker (`client.py` `vad_worker`). Its state is a
  speech-frame counter, the time of the last voiced frame, and the event.
- `WindowVad`: the Silero worker. Its state is a sample buffer that is
  classified once it holds a full window and then cut back to an 800-sample
  overlap. The classifier's threshold is chosen by the playback flag.
- `Playback`: `start_playback`, its `monitor` watcher, `stop_playback_safely`
  and `is_playback_active`, around the one-bit `playback_active` flag. The
  audio device is a log of `sd.play` / `sd.stop` calls.
- `Orchestrator`: `tts_client`. Each iteration of the inner loop is one atomic
  step over `tts_requested`, `tts_audio`, the event and the playback flag. The
  outer loop reconnects after any exception.

Every module has a pure step function (`Step`, `Tick`, `Started`, ...) that
says what one atomic step does, plus a `Run` over a sequence of steps. The
trace lemmas are proved about `Run`. Each module also has a class whose
fields are the source's mutable state. Its methods mirror the source
statements, and each method is proved to change the state exactly as the pure
step function says (`ensures State() == Step(old(State()), ...)`).

External capabilities are parameters. The capture call, the VAD classifiers,
the WAV decoder, `sd.play` and the send/receive exchange are passed in as
values or total functions. Time is given as whole milliseconds, with the same
clock reading for the whole frame. `random.choice` is the utterance passed to
each iteration.

Where the code departs from the source's own comments and docstrings, the
model follows the code:

- The comment on `min_speech_frames` (client.py:52) asks for "this many
  consecutive speech frames". But the debounce counter decays by one on each
  unvoiced frame; it does not reset. So the event can be set without three
  *consecutive* voiced frames (`Debounce.DecayLetsGapsThrough`). What the code does guarantee is at least
  three voiced frames since the last clear (`Debounce.RiseNeedsVoicedFrames`).
- The comment on `silence_duration_threshold` (client.py:53) speaks of one
  second of silence. The event is cleared only when the silence is *strictly
  longer* than 1000 ms (client.py:91).
- In the Silero worker, an exception from `get_speech_timestamps` is not
  caught. It ends the worker thread, and the event stays frozen from then on
  (`WindowVad.FinishedWorkerIsFrozen`). A failed capture is skipped.
- The Silero thresholds are 0.85 during playback and 0.5 otherwise
  (client_silero_hindi.py:95-97). The docstring of that worker says 0.5 and
  0.3 (client_silero_hindi.py:71-73).
- Playback sessions have no identity. The watcher's last write lowers the
  flag whichever session raised it. A watcher of a stopped session that never
  polled while the flag was down therefore ends the next session
  (`Playback.StaleWatcherEndsLaterSession`). The trace needs the old watcher
  to be starved for the whole gap between the stop and the next start. The
  watcher checks the flag every 0.1 s (client.py:119-123). With the request
  loop as the only caller, that gap lasts at least until the event clears:
  more than 1000 ms of silence in client.py, and at least one more 250 ms
  window (4000 new samples) in the Silero client.
- The comment on `tts_requested` (client.py:41) describes it as "waiting
  for audio". But the exchange is synchronous inside the iteration. So
  "awaiting synthesis" is not a state that another iteration can observe: `tts_requested` is true
  exactly when a reply is held (`Orchestrator.RunKeepsConsistent`). The empty
  failure reply `b""` is held like audio. It is then handed to playback, whose
  decoder rejects it (`Orchestrator.FailureSentinelIsHeldThenDropped`).

## Model

| member | source | states |
|---|---|---|
| `Common.SpeechEvent.constructor` | client.py:38 | The shared event starts cleared, as a fresh `threading.Event()` does. |
| `Debounce.Step` | client.py:71-96 | A failed capture changes nothing. A voiced frame adds exactly one to the counter and stamps the clock. A classifier failure counts as unvoiced. The event is set iff a voiced frame brings the counter to at least 3. It is cleared iff an unvoiced frame arrives more than 1000 ms after the last voice, and clearing resets the counter to 0 and keeps the stamp. Otherwise an unvoiced frame decays the counter by one, down to zero. |
| `Debounce.CounterBoundedByVoicedFrames` | client.py:83-96 | Over any sequence of frames, the counter grows by at most the number of voiced frames. |
| `Debounce.RiseNeedsVoicedFrames` | client.py:83-96 | Starting from a cleared event, a set event means the counter's start value plus the number of voiced frames reaches `MIN_SPEECH_FRAMES` (3). A clear leaves the counter at 0, so every rise needs three voiced frames since the last fall. |
| `Debounce.StampIsLastVoiced` | client.py:83-85 | After any sequence of frames, the kept timestamp equals the clock reading of the last voiced frame, or the start time if there was none. |
| `Debounce.FallNeedsSilence` | client.py:90-94 | With a monotone clock, when the event is cleared on a frame, that frame is unvoiced. Every earlier voiced frame, and the start time if there was none, lies strictly more than 1000 ms before it. |
| `Debounce.DecayLetsGapsThrough` | client.py:83-96 | Because the counter decays instead of resetting, the frames voiced, voiced, unvoiced, voiced, voiced set the event without three consecutive voiced frames. |
| `Debounce.SpeechMonitor.constructor` | client.py:65-66 | The worker starts with counter 0, the start time as its stamp, and the shared event as it is. |
| `Debounce.SpeechMonitor.OnFrame` | client.py:71-96 | One loop turn updates the counter, the stamp and the shared event exactly as `Step` does. |
| `Debounce.SpeechMonitor.Listen` | client.py:70-97 | The loop over all captured frames leaves the state `Run` gives for those frames, in order. |
| `WindowVad.EffectiveThreshold` | client_silero_hindi.py:93-97 | The guarded (0.85) threshold is chosen iff playback is active; otherwise the sensitive (0.5) one. |
| `WindowVad.PlaybackRaisesThreshold` | client_silero_hindi.py:93-97 | The threshold during playback is strictly higher: 85 against 50 hundredths. |
| `WindowVad.Step` | client_silero_hindi.py:80-117 | A failed capture, or a finished worker, changes nothing. A frame is appended at the end. Below 4800 samples nothing is classified. At 4800 or more the window is classified with the threshold the playback flag selects. The event then equals "some interval found", whatever it was before, and the buffer is exactly the window's last 800 samples. A classifier exception ends the worker with the event unchanged. |
| `WindowVad.BufferIsSuffixOfCapture` | client_silero_hindi.py:87-117 | While the worker runs, its buffer is a suffix of the initial buffer followed by every captured sample in arrival order. Frames are appended in order, and samples leave only from the front. |
| `WindowVad.BufferStaysBelowWindow` | client_silero_hindi.py:91-117 | Starting below 4800 samples, the buffer stays below 4800 between windows whatever the frame sizes. So with 480-sample frames, every classified window is shorter than 4800 + 480. |
| `WindowVad.FinishedWorkerIsFrozen` | client_silero_hindi.py:99-106 | After the classifier has raised, no later frame changes the buffer or the event. |
| `WindowVad.SingleWindowFlipsSignal` | client_silero_hindi.py:107-114 | There is no hysteresis: one window with an interval sets the event, and the next window with none clears it. The first window may be completed by one 480-sample frame; the second needs 4000 new samples on top of the 800-sample overlap. |
| `WindowVad.WindowMonitor.constructor` | client_silero_hindi.py:76 | The worker starts running with an empty buffer. |
| `WindowVad.WindowMonitor.OnFrame` | client_silero_hindi.py:81-117 | One loop turn, reading the playback flag under its lock, updates the buffer, the worker's liveness and the shared event exactly as `Step` does. |
| `Playback.Started` | client.py:106-132 | After a start the flag is up iff decoding succeeded, the sample rate is non-zero (the duration divides by it) and the device accepted the audio. Only then does the device receive exactly the decoded audio. In every error path the flag is down. |
| `Playback.Stopped` | client.py:134-145 | After a stop the flag is down. The device gets one stop call iff the flag was up; otherwise nothing changes. |
| `Playback.Expired` | client.py:116-125 | The watcher's final write lowers the flag and leaves the device alone. |
| `Playback.Apply` | client_silero_hindi.py:125-164 | The flag rises only in a start whose decoding succeeded and whose play call succeeded. It falls only in a stop, a watcher timeout or a start's error path. A watcher poll never writes. |
| `Playback.RunKeepsDeviceBalanced` | client_silero_hindi.py:125-164 | Over any interleaving of starts, stops, polls and timeouts, device stop calls plus one for a running session never outnumber play calls. The device is only stopped while something it was told to play is running. |
| `Playback.RepeatedStopsAreOneStop` | client.py:134-145 | Any number of stops in a row equals one stop. The flag ends down, and at most one device stop is issued, none if nothing was playing. |
| `Playback.StaleWatcherEndsLaterSession` | client.py:116-125 | Start A, stop, start B, then A's watcher times out: the flag is down while the device's last call is still the play of B. |
| `Playback.PlaybackController.constructor` | client.py:56-58 | The flag starts down and the device has had no calls. |
| `Playback.PlaybackController.Start` | client_silero_hindi.py:120-151 | `start_playback` changes the flag and the device exactly as `Started` does, on whatever the decoder makes of the bytes. |
| `Playback.PlaybackController.Stop` | client_silero_hindi.py:153-164 | `stop_playback_safely` changes the flag and the device exactly as `Stopped` does. |
| `Playback.PlaybackController.IsActive` | client.py:147-150 | Returns the flag and changes nothing. |
| `Playback.PlaybackController.Poll` | client.py:119-123 | A watcher poll reports "exit" iff the flag is already down, and writes nothing. |
| `Playback.PlaybackController.Timeout` | client.py:124-125 | The watcher's final write changes the state exactly as `Expired` does. |
| `Orchestrator.Tick` | client.py:167-203 | One iteration keeps "requested iff a reply is held". Playing with no speech: nothing changes. Barge-in (playing and speech): stop first, drop what is held, then send exactly one request and hold its reply; nothing starts that iteration. Otherwise a request goes out iff speech is set and nothing is held, and a delivered reply is then held with `tts_requested` set. Playback starts iff speech is clear and a reply is held; it gets exactly that reply, and both fields reset. In the model, at most one of the two happens per tick (see `Orchestrator.Tick` under "## Left out"). A failed exchange is reported as lost, with nothing held. |
| `Orchestrator.Step` | client_silero_hindi.py:184-228 | Connection attempts never touch the fields, the playback or the log. A refused attempt waits 5000 ms and stays disconnected. A cleared running flag ends both loops for good. A connection is lost only by an exchange that raised, after which the loop waits 5000 ms and holds nothing. Consistency of the fields is kept, and the log only grows. |
| `Orchestrator.RunKeepsConsistent` | client_silero_hindi.py:179-220 | Over any interleaving of iterations, reconnects and watcher timeouts, `tts_requested` is true iff `tts_audio` holds a reply. |
| `Orchestrator.RunPlaysOnlyHeld` | client.py:168-201 | Over any interleaving, `tts_audio` always equals the reply that the log alone says is held: the latest successful exchange, neither played nor discarded by barge-in. Every playback start in the log hands over exactly that reply. |
| `Orchestrator.ClientPlaysOnlyHeld` | client_silero_hindi.py:178-222 | From the state before the outer loop, both invariants hold after any sequence of events. |
| `Orchestrator.RefusedAttemptsOnlyWait` | client.py:163-209 | `n` refused connection attempts add exactly `n` × 5000 ms of waiting and change nothing else. |
| `Orchestrator.RequestThenPlay` | client.py:186-201 | Idle, silent playback, then speech: one request is sent and its reply is held. Once speech clears, playback of exactly that reply starts once, and the loop is idle again. |
| `Orchestrator.HeldWhileSpeaking` | client.py:195-198 | While speech continues, a held reply is not played and no new request goes out; the iteration only sleeps. |
| `Orchestrator.FailureSentinelIsHeldThenDropped` | client_silero_hindi.py:207-220 | Suppose the decoder cannot read an empty payload. Then an empty reply is held like audio, later handed to playback, leaves the flag down with no device call, and the loop is idle again. |
| `Orchestrator.TtsClient.constructor` | client_silero_hindi.py:178-182 | Both fields start as `False`/`None`, before the outer loop, disconnected. |
| `Orchestrator.TtsClient.Connect` | client.py:163-209 | The head of the outer loop changes the state exactly as `Step` does for a connection attempt. |
| `Orchestrator.TtsClient.Send` | client.py:187-193 | One exchange is logged. On success the reply is held and `tts_requested` is set. On failure the fields are untouched and the loop goes back to reconnecting after 5000 ms. |
| `Orchestrator.TtsClient.Iterate` | client_silero_hindi.py:188-222 | One iteration of the inner loop changes the client and the playback controller exactly as `Step` does for a poll. |
| `Orchestrator.TtsClient.Interrupt` | client.py:169-184 | The playing branch, with barge-in, is exactly `Step`'s poll. |
| `Orchestrator.TtsClient.RequestOrPlay` | client.py:186-203 | The non-playing branch, request then start-playback, is exactly `Step`'s poll. |

## Left out

- Audio capture and playback devices (`sounddevice`, `pyaudio`, `simpleaudio`) are left out. Captured frames are inputs, and the device is a log of play and stop calls. A failing `sd.stop` is swallowed by the source and has no effect, so it is not a parameter.
- WebRTC VAD, Silero VAD and `get_speech_timestamps` are left out: they are model inference. They are oracles: a verdict per frame, and a function from (window, threshold) to intervals or an exception.
- The WebSocket transport and `websockets.connect`/`send`/`recv` are left out. A connection attempt is a success flag. An exchange is a value: a binary reply or a transport failure. Send failures and receive failures are not told apart.
- Threads, locks, `threading.Event` and the `asyncio` scheduler are left out. Each locked section, each VAD loop turn and each request-loop iteration is one atomic step, and races inside a step are not modelled (see `Orchestrator.Tick` below for what this means for the request loop).
- Floating point and wall-clock time are left out. Durations and thresholds are whole milliseconds. The watcher's elapsed-time check and its 0.1 s polling are not modelled, and its timeout is a step that may happen at any point. The 0.01 s pacing of the VAD loops is left out.
- `Orchestrator.Tick`: the source reads the event again after `await websocket.recv()` returns (client.py:190-196, client_silero_hindi.py:210-216). Synthesis can take longer than the silence threshold, so the VAD thread may clear the event meanwhile, and the same iteration then starts playback of the reply it just received. The model takes one snapshot of the event per tick, so it splits such an iteration into two ticks: the request, then the start of playback one 50 ms sleep later. Likewise the re-read of the event after the barge-in stop (client.py:176) always agrees with the first read.
- `Orchestrator.TtsClient` has no method for the outer and inner `while running` loops, because the event and the playback flag are changed by other threads between iterations. The loop is `Orchestrator.Run` over per-iteration events.
- `WindowVad.WindowMonitor` has no loop method, because between its turns the playback flag is changed by other threads. The loop is `WindowVad.Run` over per-turn inputs.
- `random.choice` of the utterance is left out; the utterance is an input. The SIGINT handler, `sys.exit`, `print` logging and the `__main__` blocks are left out too. The global `running` flag is an input only to the request loop's steps (`Orchestrator.Attempt` and `Orchestrator.Poll`). In the two VAD workers the `while running` loops (client.py:70, client_silero_hindi.py:80) end with the sequence of frames given to `Run` or `Listen`. The watcher's `and running` exit (client.py:119) is folded into `Playback.PlaybackController.Timeout`, which may happen at any point.
- `server.py` is not part of this model. Its behaviour ("one reply per request, empty on failure") appears only as the replies a client may receive. `hindi_test.py` is not part of this model.
