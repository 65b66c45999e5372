/** The windowed speech detector of the Silero client (`vad_worker` in
    client_silero_hindi.py): captured frames accumulate in a sample buffer;
    once the buffer holds a full window it is classified with a threshold
    chosen by the playback flag, the speech event follows that one window,
    and the buffer is cut back to its overlap tail. */
module WindowVad {
  import opened Common
  import Playback

  const SAMPLE_RATE: nat := 16000
  /** 30 ms of samples at 16 kHz: what one capture call returns. */
  const FRAME_SIZE: nat := 480
  /** 0.3 s of samples: the window length that triggers a classification. */
  const REQUIRED_SAMPLES: nat := 4800
  /** 0.05 s of samples kept from one window to the next. */
  const OVERLAP_SAMPLES: nat := 800

  /** The classifier's probability threshold, in hundredths. */
  datatype Threshold = Sensitive | Guarded
  {
    function Hundredths(): nat
    {
      match this
      case Sensitive => 50
      case Guarded => 85
    }
  }

  /** Less sensitive while the client's own audio is playing. */
  function EffectiveThreshold(playbackActive: bool): (t: Threshold)
    ensures t.Guarded? <==> playbackActive
  {
    if playbackActive then Guarded else Sensitive
  }

  /** During playback the threshold is strictly higher. */
  lemma PlaybackRaisesThreshold()
    ensures EffectiveThreshold(true).Hundredths() > EffectiveThreshold(false).Hundredths()
    ensures EffectiveThreshold(true).Hundredths() == 85 && EffectiveThreshold(false).Hundredths() == 50
  {
  }

  /** One speech interval found in a window, in samples. */
  datatype SpeechInterval = SpeechInterval(start: nat, end: nat)

  /** The outcome of `get_speech_timestamps`: the intervals, or an exception. */
  datatype Classification = Timestamps(intervals: seq<SpeechInterval>) | Raised

  /** The Silero model with its timestamp extraction, an external capability. */
  type Classifier = (seq<int16>, Threshold) -> Classification

  /** What one capture call obtained. */
  datatype Capture = ReadFailed | Frame(samples: seq<int16>)

  /** One turn of the loop's input: the capture and the playback flag read under its lock. */
  datatype Input = Input(capture: Capture, playbackActive: bool)

  /** The buffer, the speech event, and whether the worker thread is still
      running: an exception from the classifier is not caught in the loop and
      ends the thread. */
  datatype WindowState = WindowState(buffer: seq<int16>, speech: bool, alive: bool)

  /** One turn of the loop. */
  function Step(s: WindowState, x: Input, classify: Classifier): (r: WindowState)
    // a finished worker, or a failed capture, changes nothing
    ensures !s.alive || x.capture.ReadFailed? ==> r == s
    // below a full window the frame is appended in order and nothing is classified
    ensures s.alive && x.capture.Frame? && |s.buffer + x.capture.samples| < REQUIRED_SAMPLES ==>
              r == s.(buffer := s.buffer + x.capture.samples)
    // a full window is classified with the threshold the playback flag selects;
    // the event then equals "some interval was found", whatever it was before,
    // and the buffer keeps exactly the last OVERLAP_SAMPLES samples of the window
    ensures s.alive && x.capture.Frame? && |s.buffer + x.capture.samples| >= REQUIRED_SAMPLES ==>
              var w := s.buffer + x.capture.samples;
              match classify(w, EffectiveThreshold(x.playbackActive))
              case Raised => !r.alive && r.speech == s.speech
              case Timestamps(ts) =>
                r.alive && (r.speech <==> |ts| > 0) &&
                |r.buffer| == OVERLAP_SAMPLES && w == w[..|w| - OVERLAP_SAMPLES] + r.buffer
  {
    if !s.alive then s
    else match x.capture
      case ReadFailed => s
      case Frame(f) =>
        var w := s.buffer + f;
        if |w| < REQUIRED_SAMPLES then s.(buffer := w)
        else match classify(w, EffectiveThreshold(x.playbackActive))
          case Raised => WindowState(w, s.speech, false)
          case Timestamps(ts) => WindowState(w[|w| - OVERLAP_SAMPLES..], |ts| > 0, true)
  }

  function Run(s: WindowState, xs: seq<Input>, classify: Classifier): WindowState
    decreases |xs|
  {
    if xs == [] then s else Step(Run(s, xs[..|xs| - 1], classify), xs[|xs| - 1], classify)
  }

  /** Every sample captured, in arrival order. */
  function Captured(xs: seq<Input>): seq<int16>
    decreases |xs|
  {
    if xs == [] then []
    else Captured(xs[..|xs| - 1]) + (match xs[|xs| - 1].capture case ReadFailed => [] case Frame(f) => f)
  }

  predicate IsSuffix(a: seq<int16>, b: seq<int16>)
  {
    |a| <= |b| && b[|b| - |a|..] == a
  }

  lemma SuffixAppend(a: seq<int16>, b: seq<int16>, f: seq<int16>)
    requires IsSuffix(a, b)
    ensures IsSuffix(a + f, b + f)
  {
    var k := |b| - |a|;
    assert (b + f)[k..] == b[k..] + f;
  }

  lemma SuffixTrans(a: seq<int16>, b: seq<int16>, c: seq<int16>)
    requires IsSuffix(a, b) && IsSuffix(b, c)
    ensures IsSuffix(a, c)
  {
    var k := |c| - |b|;
    assert c[|c| - |a|..] == c[k..][|b| - |a|..];
  }

  /** Frames are appended at the end in arrival order, and samples only
      ever leave from the front: while the worker runs, its buffer is a
      suffix of what it started with followed by everything captured. */
  lemma {:induction false} BufferIsSuffixOfCapture(s: WindowState, xs: seq<Input>, classify: Classifier)
    ensures Run(s, xs, classify).alive ==> IsSuffix(Run(s, xs, classify).buffer, s.buffer + Captured(xs))
    decreases |xs|
  {
    if xs != [] {
      var init := xs[..|xs| - 1];
      var q := Run(s, init, classify);
      var r := Run(s, xs, classify);
      if r.alive {
        BufferIsSuffixOfCapture(s, init, classify);
        assert q.alive;
        var stream := s.buffer + Captured(init);
        assert IsSuffix(q.buffer, stream);
        match xs[|xs| - 1].capture
        case ReadFailed =>
          assert Captured(xs) == Captured(init);
        case Frame(f) =>
          assert s.buffer + Captured(xs) == stream + f;
          SuffixAppend(q.buffer, stream, f);
          var w := q.buffer + f;
          if |w| >= REQUIRED_SAMPLES {
            assert r.buffer == w[|w| - OVERLAP_SAMPLES..];
            assert IsSuffix(r.buffer, w);
            SuffixTrans(r.buffer, w, stream + f);
          }
      }
    }
  }

  /** Between windows the buffer stays shorter than a window, whatever the
      frame sizes; so a classified window is shorter than a window plus one
      frame (4800 + 480 samples with the fixed 480-sample capture). */
  lemma {:induction false} BufferStaysBelowWindow(s: WindowState, xs: seq<Input>, classify: Classifier)
    requires |s.buffer| < REQUIRED_SAMPLES
    ensures Run(s, xs, classify).alive ==> |Run(s, xs, classify).buffer| < REQUIRED_SAMPLES
    decreases |xs|
  {
    if xs != [] {
      BufferStaysBelowWindow(s, xs[..|xs| - 1], classify);
    }
  }

  /** Once the classifier has raised, the worker is gone and the event stays
      as it was for every later frame. */
  lemma {:induction false} FinishedWorkerIsFrozen(s: WindowState, xs: seq<Input>, classify: Classifier)
    requires !s.alive
    ensures Run(s, xs, classify) == s
    decreases |xs|
  {
    if xs != [] {
      FinishedWorkerIsFrozen(s, xs[..|xs| - 1], classify);
    }
  }

  /** There is no debounce across windows: one window with an interval sets
      the event and the next window without one clears it again. `f` is the
      capture that completes the first window (a single 480-sample frame
      does when the buffer already holds 4320 samples); `g` stands for the
      4000 or more samples that complete the next window on top of the
      800-sample overlap. */
  lemma SingleWindowFlipsSignal(s: WindowState, f: seq<int16>, g: seq<int16>, classify: Classifier)
    requires s.alive && |s.buffer + f| >= REQUIRED_SAMPLES
    requires classify(s.buffer + f, Sensitive).Timestamps? && |classify(s.buffer + f, Sensitive).intervals| > 0
    requires OVERLAP_SAMPLES + |g| >= REQUIRED_SAMPLES
    requires var b := (s.buffer + f)[|s.buffer + f| - OVERLAP_SAMPLES..];
             classify(b + g, Sensitive) == Timestamps([])
    ensures var r1 := Step(s, Input(Frame(f), false), classify);
            r1.speech && !Step(r1, Input(Frame(g), false), classify).speech
  {
  }

  /** The Silero worker: its local buffer, whether it still runs, the shared
      event it writes and the playback controller whose flag it reads. */
  class WindowMonitor {
    var buffer: seq<int16>
    var alive: bool
    const event: SpeechEvent
    const playback: Playback.PlaybackController

    ghost function State(): WindowState
      reads this, event
    {
      WindowState(buffer, event.isSet, alive)
    }

    constructor (event: SpeechEvent, playback: Playback.PlaybackController)
      ensures this.event == event && this.playback == playback
      ensures State() == WindowState([], event.isSet, true)
    {
      this.event := event;
      this.playback := playback;
      buffer := [];
      alive := true;
    }

    /** One turn of the `while running` loop, reading the playback flag under its lock. */
    method OnFrame(capture: Capture, classify: Classifier)
      modifies this, event
      ensures State() == Step(old(State()), Input(capture, playback.active), classify)
    {
      if !alive {
        return;
      }
      if capture.ReadFailed? {
        return;
      }
      buffer := buffer + capture.samples;
      if |buffer| >= REQUIRED_SAMPLES {
        var active := playback.IsActive();
        var threshold := if active then Guarded else Sensitive;
        var outcome := classify(buffer, threshold);
        if outcome.Raised? {
          alive := false;
          return;
        }
        if |outcome.intervals| > 0 {
          if !event.isSet {
            event.isSet := true;
          }
        } else {
          if event.isSet {
            event.isSet := false;
          }
        }
        buffer := buffer[|buffer| - OVERLAP_SAMPLES..];
      }
    }
  }
}
