/** The playback controller shared by both clients: `start_playback`,
    its `monitor` watcher, `stop_playback_safely` and `is_playback_active`.
    Its whole state is the one-bit `playback_active` flag; the audio device is
    represented by the log of `sd.play` / `sd.stop` calls it has received. */
module Playback {
  import opened Common

  /** What the WAV decoder yields: a frame count and a sample rate. */
  datatype Decoded = Decoded(frames: nat, rateHz: nat)

  /** The WAV decoder (`sf.read`), an external capability: `None` when it raises. */
  type Decoder = Bytes -> Option<Decoded>

  /** A call the controller makes on the audio device. */
  datatype DeviceCall = Play(audio: Decoded) | Halt

  datatype PlaybackState = PlaybackState(active: bool, device: seq<DeviceCall>)

  /** `start_playback`: decode, compute the duration (a division by the sample
      rate), raise the flag, hand the audio to the device. Any exception on the
      way lands in the error path, which writes `False` into the flag. */
  function Started(p: PlaybackState, decoded: Option<Decoded>, playOk: bool): (r: PlaybackState)
    ensures r.active <==> decoded.Some? && decoded.value.rateHz > 0 && playOk
    ensures r.active ==> r.device == p.device + [Play(decoded.value)]
    ensures !r.active ==> r.device == p.device
  {
    match decoded
    case None => PlaybackState(false, p.device)
    case Some(d) =>
      if d.rateHz == 0 || !playOk then PlaybackState(false, p.device)
      else PlaybackState(true, p.device + [Play(d)])
  }

  /** `stop_playback_safely`: only when the flag is up does it call the device
      and lower the flag; a failing `sd.stop` is swallowed. */
  function Stopped(p: PlaybackState): (r: PlaybackState)
    ensures !r.active
    ensures p.active ==> r.device == p.device + [Halt]
    ensures !p.active ==> r == p
  {
    if p.active then PlaybackState(false, p.device + [Halt]) else p
  }

  /** The watcher's final write, once the duration has elapsed or `running`
      was cleared: the flag goes down, whoever raised it. */
  function Expired(p: PlaybackState): (r: PlaybackState)
    ensures !r.active && r.device == p.device
  {
    PlaybackState(false, p.device)
  }

  /** Everything that touches the flag, one atomic locked section each. */
  datatype Action =
    | StartCall(decoded: Option<Decoded>, playOk: bool)
    | StopCall
    | WatcherPoll
    | WatcherTimeout

  function Apply(p: PlaybackState, a: Action): (r: PlaybackState)
    // the flag rises only in a start whose decoding succeeded
    ensures !p.active && r.active ==> a.StartCall? && a.decoded.Some? && a.playOk
    // it falls only in a stop, a watcher timeout, or a start's error path
    ensures p.active && !r.active ==> !a.WatcherPoll?
    // a poll that finds the flag cleared returns without writing
    ensures a.WatcherPoll? ==> r == p
  {
    match a
    case StartCall(decoded, playOk) => Started(p, decoded, playOk)
    case StopCall => Stopped(p)
    case WatcherPoll => p
    case WatcherTimeout => Expired(p)
  }

  function Run(p: PlaybackState, acts: seq<Action>): PlaybackState
    decreases |acts|
  {
    if acts == [] then p else Apply(Run(p, acts[..|acts| - 1]), acts[|acts| - 1])
  }

  function Plays(d: seq<DeviceCall>): nat
    decreases |d|
  {
    if d == [] then 0 else Plays(d[..|d| - 1]) + (if d[|d| - 1].Play? then 1 else 0)
  }

  function Halts(d: seq<DeviceCall>): nat
    decreases |d|
  {
    if d == [] then 0 else Halts(d[..|d| - 1]) + (if d[|d| - 1].Halt? then 1 else 0)
  }

  lemma CountAppend(d: seq<DeviceCall>, c: DeviceCall)
    ensures Plays(d + [c]) == Plays(d) + (if c.Play? then 1 else 0)
    ensures Halts(d + [c]) == Halts(d) + (if c.Halt? then 1 else 0)
  {
    assert (d + [c])[..|d|] == d;
  }

  /** The device is only ever told to stop a session it was told to play:
      halts, plus one for a session still running, never outnumber plays. */
  ghost predicate DeviceBalanced(p: PlaybackState)
  {
    Halts(p.device) + (if p.active then 1 else 0) <= Plays(p.device)
  }

  lemma {:induction false} RunKeepsDeviceBalanced(p: PlaybackState, acts: seq<Action>)
    requires DeviceBalanced(p)
    ensures DeviceBalanced(Run(p, acts))
    decreases |acts|
  {
    if acts != [] {
      var q := Run(p, acts[..|acts| - 1]);
      RunKeepsDeviceBalanced(p, acts[..|acts| - 1]);
      match acts[|acts| - 1]
      case StartCall(decoded, playOk) =>
        if Started(q, decoded, playOk).active {
          CountAppend(q.device, Play(decoded.value));
        }
      case StopCall =>
        if q.active {
          CountAppend(q.device, Halt);
        }
      case WatcherPoll =>
      case WatcherTimeout =>
    }
  }

  /** `n` calls of `stop_playback_safely` in a row. */
  function StopTimes(p: PlaybackState, n: nat): PlaybackState
  {
    if n == 0 then p else Stopped(StopTimes(p, n - 1))
  }

  /** Stopping any number of times is stopping once: the flag is down and the
      device received at most one stop, and none if nothing was playing. */
  lemma {:induction false} RepeatedStopsAreOneStop(p: PlaybackState, n: nat)
    requires n >= 1
    ensures StopTimes(p, n) == Stopped(p)
    ensures !StopTimes(p, n).active
    ensures StopTimes(p, n).device == if p.active then p.device + [Halt] else p.device
  {
    if n > 1 {
      RepeatedStopsAreOneStop(p, n - 1);
    }
  }

  /** Sessions have no identity: the watcher of a session that was stopped
      and replaced, if it never polled while the flag was down, lowers the
      flag of the next session while the device is still playing it. */
  lemma StaleWatcherEndsLaterSession(first: Decoded, second: Decoded)
    requires first.rateHz > 0 && second.rateHz > 0
    ensures var q := Run(PlaybackState(false, []),
                         [StartCall(Some(first), true), StopCall, StartCall(Some(second), true), WatcherTimeout]);
            !q.active && q.device == [Play(first), Halt, Play(second)]
  {
    var acts := [StartCall(Some(first), true), StopCall, StartCall(Some(second), true), WatcherTimeout];
    var p0 := PlaybackState(false, []);
    assert acts[..1] == [StartCall(Some(first), true)];
    assert acts[..2] == acts[..1] + [StopCall];
    assert acts[..3] == acts[..2] + [StartCall(Some(second), true)];
    assert Run(p0, acts[..1]) == PlaybackState(true, [Play(first)]);
    assert Run(p0, acts[..2]) == PlaybackState(false, [Play(first), Halt]);
    assert Run(p0, acts[..3]) == PlaybackState(true, [Play(first), Halt, Play(second)]);
  }

  /** The `playback_active` flag and its lock, with the device it drives. */
  class PlaybackController {
    var active: bool
    var device: seq<DeviceCall>

    ghost function State(): PlaybackState
      reads this
    {
      PlaybackState(active, device)
    }

    constructor ()
      ensures State() == PlaybackState(false, [])
    {
      active := false;
      device := [];
    }

    /** `start_playback(wav_bytes)`. */
    method Start(wav: Bytes, decode: Decoder, playOk: bool)
      modifies this
      ensures State() == Started(old(State()), decode(wav), playOk)
    {
      var decoded := decode(wav);
      if decoded.None? {
        active := false;
        return;
      }
      var audio := decoded.value;
      if audio.rateHz == 0 {
        // the duration `len(audio_data) / sample_rate_audio` divides by zero
        active := false;
        return;
      }
      active := true;
      if !playOk {
        active := false;
        return;
      }
      device := device + [Play(audio)];
    }

    /** `stop_playback_safely()`. */
    method Stop()
      modifies this
      ensures State() == Stopped(old(State()))
    {
      if active {
        device := device + [Halt];
        active := false;
      }
    }

    /** `is_playback_active()`. */
    method IsActive() returns (b: bool)
      ensures b == active
    {
      b := active;
    }

    /** One poll of the watcher after its sleep: it exits, without writing,
        when the flag has already been cleared. */
    method Poll() returns (exit: bool)
      ensures exit <==> !active
    {
      exit := !active;
    }

    /** The watcher's loop ended (duration elapsed or shutdown): it clears the flag. */
    method Timeout()
      modifies this
      ensures State() == Expired(old(State()))
    {
      active := false;
    }
  }
}
