/** The frame-by-frame speech detector of the WebRTC client (`vad_worker`
    in client.py): each captured frame is classified, and a speech-frame
    counter and the time of the last voiced frame debounce the classification
    into the shared speech event. Wall-clock time is in whole milliseconds. */
module Debounce {
  import opened Common

  /** Speech frames the counter must reach before the event is set. */
  const MIN_SPEECH_FRAMES: nat := 3
  /** Silence, in ms, that must be strictly exceeded before the event is cleared. */
  const SILENCE_THRESHOLD_MS: nat := 1000

  /** What one turn of the loop obtained: the capture raised, the classifier
      raised, or the classifier's verdict. */
  datatype FrameResult = ReadFailed | VadFailed | Vad(isSpeech: bool)

  /** A frame result together with the clock reading of that turn. */
  datatype Reading = Reading(result: FrameResult, atMs: nat)

  datatype MonitorState = MonitorState(counter: nat, lastVoiceMs: nat, speech: bool)

  /** A classifier failure counts as a non-speech frame. */
  predicate IsVoiced(r: FrameResult)
  {
    r.Vad? && r.isSpeech
  }

  /** One turn of the loop. */
  function Step(s: MonitorState, x: Reading): (r: MonitorState)
    // a failed capture skips the frame entirely
    ensures x.result.ReadFailed? ==> r == s
    // a voiced frame adds exactly one to the counter and stamps the clock
    ensures IsVoiced(x.result) ==> r.counter == s.counter + 1 && r.lastVoiceMs == x.atMs
    // the event is set exactly when a voiced frame brings the counter to the minimum
    ensures !s.speech ==> (r.speech <==> IsVoiced(x.result) && s.counter + 1 >= MIN_SPEECH_FRAMES)
    // it is cleared exactly on an unvoiced frame more than the threshold after the last voice
    ensures s.speech ==> (!r.speech <==>
              (!x.result.ReadFailed? && !IsVoiced(x.result) && x.atMs - s.lastVoiceMs > SILENCE_THRESHOLD_MS))
    // clearing resets the counter
    ensures s.speech && !r.speech ==> r.counter == 0 && r.lastVoiceMs == s.lastVoiceMs
    // an unvoiced frame that does not clear decays the counter by one, down to zero
    ensures !x.result.ReadFailed? && !IsVoiced(x.result) && r.speech == s.speech ==>
              r.counter == (if s.counter > 0 then s.counter - 1 else 0) && r.lastVoiceMs == s.lastVoiceMs
  {
    if x.result.ReadFailed? then s
    else if IsVoiced(x.result) then
      var c := s.counter + 1;
      MonitorState(c, x.atMs, s.speech || c >= MIN_SPEECH_FRAMES)
    else
      var clear := s.speech && x.atMs - s.lastVoiceMs > SILENCE_THRESHOLD_MS;
      var c := if clear then 0 else s.counter;
      MonitorState(if c > 0 then c - 1 else c, s.lastVoiceMs, s.speech && !clear)
  }

  /** The state after the loop has handled the readings in order. */
  function Run(s: MonitorState, xs: seq<Reading>): MonitorState
    decreases |xs|
  {
    if xs == [] then s else Step(Run(s, xs[..|xs| - 1]), xs[|xs| - 1])
  }

  /** How many of the readings are voiced frames. */
  function VoicedFrames(xs: seq<Reading>): nat
    decreases |xs|
  {
    if xs == [] then 0 else VoicedFrames(xs[..|xs| - 1]) + (if IsVoiced(xs[|xs| - 1].result) then 1 else 0)
  }

  /** The clock reading of the last voiced frame, or `startMs` if there is none. */
  function LastVoiced(startMs: nat, xs: seq<Reading>): nat
    decreases |xs|
  {
    if xs == [] then startMs
    else if IsVoiced(xs[|xs| - 1].result) then xs[|xs| - 1].atMs
    else LastVoiced(startMs, xs[..|xs| - 1])
  }

  /** The clock never runs backwards over the readings. */
  ghost predicate Monotone(xs: seq<Reading>)
  {
    forall i, j :: 0 <= i < j < |xs| ==> xs[i].atMs <= xs[j].atMs
  }

  /** The counter only grows by voiced frames. */
  lemma {:induction false} CounterBoundedByVoicedFrames(s: MonitorState, xs: seq<Reading>)
    ensures Run(s, xs).counter <= s.counter + VoicedFrames(xs)
    decreases |xs|
  {
    if xs != [] {
      CounterBoundedByVoicedFrames(s, xs[..|xs| - 1]);
    }
  }

  /** The event rises only on evidence: starting from a cleared event, a set
      event means at least `MIN_SPEECH_FRAMES` voiced frames, counting what
      the counter already held. After a clear the counter is zero, so every
      rise needs that many voiced frames since the last fall. */
  lemma {:induction false} RiseNeedsVoicedFrames(s: MonitorState, xs: seq<Reading>)
    requires !s.speech
    ensures Run(s, xs).speech ==> s.counter + VoicedFrames(xs) >= MIN_SPEECH_FRAMES
    decreases |xs|
  {
    if xs != [] {
      var init := xs[..|xs| - 1];
      if Run(s, init).speech {
        RiseNeedsVoicedFrames(s, init);
      } else {
        CounterBoundedByVoicedFrames(s, init);
      }
    }
  }

  /** The stamp the loop keeps is the time of the last voiced frame. */
  lemma {:induction false} StampIsLastVoiced(s: MonitorState, xs: seq<Reading>)
    ensures Run(s, xs).lastVoiceMs == LastVoiced(s.lastVoiceMs, xs)
    decreases |xs|
  {
    if xs != [] {
      StampIsLastVoiced(s, xs[..|xs| - 1]);
    }
  }

  lemma {:induction false} VoicedNoLaterThanLast(startMs: nat, xs: seq<Reading>, i: nat)
    requires Monotone(xs)
    requires i < |xs| && IsVoiced(xs[i].result)
    ensures xs[i].atMs <= LastVoiced(startMs, xs)
    decreases |xs|
  {
    var n := |xs| - 1;
    if i < n && !IsVoiced(xs[n].result) {
      assert Monotone(xs[..n]);
      VoicedNoLaterThanLast(startMs, xs[..n], i);
    }
  }

  /** The event falls only after silence: when it is cleared on reading `x`,
      every voiced frame before it, and the start stamp if there was none,
      lies strictly more than the threshold in the past. */
  lemma FallNeedsSilence(s: MonitorState, xs: seq<Reading>, x: Reading)
    requires Monotone(xs + [x])
    requires Run(s, xs).speech && !Step(Run(s, xs), x).speech
    ensures !IsVoiced(x.result)
    ensures forall i :: 0 <= i < |xs| && IsVoiced(xs[i].result) ==> x.atMs - xs[i].atMs > SILENCE_THRESHOLD_MS
    ensures x.atMs - LastVoiced(s.lastVoiceMs, xs) > SILENCE_THRESHOLD_MS
  {
    StampIsLastVoiced(s, xs);
    assert Monotone(xs) by {
      forall i, j | 0 <= i < j < |xs| ensures xs[i].atMs <= xs[j].atMs {
        assert xs[i] == (xs + [x])[i] && xs[j] == (xs + [x])[j];
      }
    }
    forall i | 0 <= i < |xs| && IsVoiced(xs[i].result)
      ensures x.atMs - xs[i].atMs > SILENCE_THRESHOLD_MS
    {
      VoicedNoLaterThanLast(s.lastVoiceMs, xs, i);
    }
  }

  /** The counter decays instead of restarting: five frames voiced, voiced,
      unvoiced, voiced, voiced set the event although no three consecutive
      frames were voiced. */
  lemma DecayLetsGapsThrough(startMs: nat)
    ensures var yes := Vad(true);
            var no := Vad(false);
            Run(MonitorState(0, startMs, false),
                [Reading(yes, startMs), Reading(yes, startMs + 30), Reading(no, startMs + 60),
                 Reading(yes, startMs + 90), Reading(yes, startMs + 120)]).speech
  {
    var yes, no := Vad(true), Vad(false);
    var xs := [Reading(yes, startMs), Reading(yes, startMs + 30), Reading(no, startMs + 60),
               Reading(yes, startMs + 90), Reading(yes, startMs + 120)];
    var s0 := MonitorState(0, startMs, false);
    assert xs[..1] == [xs[0]];
    assert xs[..2] == xs[..1] + [xs[1]];
    assert xs[..3] == xs[..2] + [xs[2]];
    assert xs[..4] == xs[..3] + [xs[3]];
    assert Run(s0, xs[..1]).counter == 1;
    assert Run(s0, xs[..2]).counter == 2;
    assert Run(s0, xs[..3]) == MonitorState(1, startMs + 30, false);
    assert Run(s0, xs[..4]).counter == 2;
  }

  /** The VAD worker: its two locals and the shared event it writes. */
  class SpeechMonitor {
    var counter: nat
    var lastVoiceMs: nat
    const event: SpeechEvent

    ghost function State(): MonitorState
      reads this, event
    {
      MonitorState(counter, lastVoiceMs, event.isSet)
    }

    /** Entering `vad_worker`: the counter is zero and the stamp is the start time. */
    constructor (event: SpeechEvent, startMs: nat)
      ensures this.event == event
      ensures State() == MonitorState(0, startMs, event.isSet)
    {
      this.event := event;
      counter := 0;
      lastVoiceMs := startMs;
    }

    /** One turn of the `while running` loop. */
    method OnFrame(x: Reading)
      modifies this, event
      ensures State() == Step(old(State()), x)
    {
      if x.result.ReadFailed? {
        return;
      }
      var isSpeech := x.result.Vad? && x.result.isSpeech;
      if isSpeech {
        counter := counter + 1;
        lastVoiceMs := x.atMs;
        if counter >= MIN_SPEECH_FRAMES {
          if !event.isSet {
            event.isSet := true;
          }
        }
      } else {
        if event.isSet && x.atMs - lastVoiceMs > SILENCE_THRESHOLD_MS {
          event.isSet := false;
          counter := 0;
        }
        if counter > 0 {
          counter := counter - 1;
        }
      }
    }

    /** The loop over every frame captured until shutdown. */
    method Listen(xs: seq<Reading>)
      modifies this, event
      ensures State() == Run(old(State()), xs)
    {
      var i := 0;
      while i < |xs|
        invariant 0 <= i <= |xs|
        invariant State() == Run(old(State()), xs[..i])
      {
        OnFrame(xs[i]);
        assert xs[..i + 1][..i] == xs[..i];
        i := i + 1;
      }
      assert xs[..|xs|] == xs;
    }
  }
}
