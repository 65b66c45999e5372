/** The request loop of both clients (`tts_client`): an outer reconnect loop
    around an inner polling loop. Each inner iteration reads the speech event
    and the playback flag and decides between barge-in, issuing a synthesis
    request, and starting playback of the reply it holds. `tts_requested` and
    `tts_audio` are set up once, before the outer loop. */
module Orchestrator {
  import opened Common
  import opened Playback

  /** The pause of the inner loop between two iterations. */
  const POLL_INTERVAL_MS: nat := 50
  /** The pause before reconnecting after any exception. */
  const RECONNECT_DELAY_MS: nat := 5000

  /** One send/receive exchange on the connection, an external capability:
      the binary reply (empty when synthesis failed on the server), or an
      exception from the transport. */
  datatype Reply = Delivered(payload: Bytes) | TransportFailed

  /** `tts_requested` and `tts_audio`. */
  datatype Fields = Fields(requested: bool, audio: Option<Bytes>)

  const IDLE: Fields := Fields(false, None)

  /** The flag says a reply is held exactly when one is. */
  predicate Consistent(f: Fields)
  {
    f.requested <==> f.audio.Some?
  }

  /** What the loop asks of its collaborators, in order; an exchange is
      logged with what it yielded. */
  datatype Effect = HaltPlayback | Request(text: string, reply: Reply) | BeginPlayback(payload: Bytes)

  datatype TickResult = TickResult(fields: Fields, playback: PlaybackState, effects: seq<Effect>, lost: bool)

  /** The request path shared by barge-in and the ordinary case: one exchange. */
  function Exchange(f: Fields, p: PlaybackState, before: seq<Effect>, text: string, reply: Reply): TickResult
  {
    match reply
    case TransportFailed => TickResult(f, p, before + [Request(text, reply)], true)
    case Delivered(b) => TickResult(Fields(true, Some(b)), p, before + [Request(text, reply)], false)
  }

  /** One iteration of the inner loop, as one atomic step. `speech` is one
      snapshot of the event for the whole iteration, `text` the utterance
      `random.choice` picks, `reply` what the exchange yields if one happens,
      `decode` and `playOk` what playback start meets if it happens. `lost`
      means the exchange raised. */
  function Tick(f: Fields, p: PlaybackState, speech: bool, text: string, reply: Reply,
                decode: Decoder, playOk: bool): (r: TickResult)
    ensures Consistent(f) ==> Consistent(r.fields)
    // playing and nobody speaking: nothing changes
    ensures p.active && !speech ==> r == TickResult(f, p, [], false)
    // barge-in: stop first, drop what is held, then send exactly one request;
    // nothing starts playing in that iteration
    ensures p.active && speech ==>
              r.effects == [HaltPlayback, Request(text, reply)] && r.playback == Stopped(p) &&
              r.fields == (if reply.TransportFailed? then IDLE else Fields(true, Some(reply.payload)))
    // otherwise a request goes out only when none is held and the user speaks
    ensures !p.active ==> (Request(text, reply) in r.effects <==> speech && !f.requested)
    // a delivered reply is held, with `tts_requested` set
    ensures !p.active && speech && !f.requested && reply.Delivered? ==>
              r.fields == Fields(true, Some(reply.payload))
    // playback starts only when speech is clear, a reply is held and nothing
    // plays; it is handed exactly that reply and both fields are reset
    ensures !p.active && (speech || f.audio.None?) ==>
              r.playback == p && forall b :: BeginPlayback(b) !in r.effects
    ensures !p.active && !speech && f.audio.Some? ==>
              r.effects == [BeginPlayback(f.audio.value)] &&
              r.fields == IDLE && r.playback == Started(p, decode(f.audio.value), playOk)
    // when nothing plays, a tick does at most one thing; an iteration of the
    // source whose event clears during the exchange is two ticks here
    ensures !p.active ==> |r.effects| <= 1
    // a failed exchange loses the connection and nothing else is done
    ensures r.lost <==> Request(text, reply) in r.effects && reply.TransportFailed?
    ensures r.lost && Consistent(f) ==> r.fields == IDLE
  {
    if p.active then
      if speech then
        Exchange(IDLE, Stopped(p), [HaltPlayback], text, reply)
      else TickResult(f, p, [], false)
    else
      var issued := if speech && !f.requested then Exchange(f, p, [], text, reply)
                    else TickResult(f, p, [], false);
      if issued.lost then issued
      else if !speech && issued.fields.audio.Some? then
        var payload := issued.fields.audio.value;
        TickResult(IDLE, Started(p, decode(payload), playOk), issued.effects + [BeginPlayback(payload)], false)
      else issued
  }

  /** The state of the outer loop. */
  datatype Conn = Disconnected | Connected | Exited

  datatype ClientState = ClientState(
    fields: Fields,
    playback: PlaybackState,
    conn: Conn,
    sleptMs: nat,
    log: seq<Effect>)

  /** Everything that moves the client: a connection attempt at the head of
      the outer loop, an iteration of the inner loop, and, from the playback
      watcher's thread, the end of a session. */
  datatype Event =
    | Attempt(running: bool, ok: bool)
    | Poll(running: bool, speech: bool, text: string, reply: Reply, decode: Decoder, playOk: bool)
    | WatcherTimeout

  function Step(s: ClientState, e: Event): (r: ClientState)
    // the fields are created once, before the outer loop: reconnecting never touches them
    ensures e.Attempt? ==> r.fields == s.fields && r.playback == s.playback && r.log == s.log
    // a refused connection waits the reconnect delay and stays disconnected
    ensures e.Attempt? && s.conn == Disconnected && e.running && !e.ok ==>
              r.conn == Disconnected && r.sleptMs == s.sleptMs + RECONNECT_DELAY_MS
    // a cleared running flag ends both loops for good
    ensures s.conn == Exited ==> r.conn == Exited && r.fields == s.fields && r.log == s.log
    ensures e.Attempt? && !e.running && s.conn == Disconnected ==> r.conn == Exited
    ensures e.Poll? && !e.running && s.conn == Connected ==> r.conn == Exited
    // the connection is lost only by an exchange that raised; the loop then
    // waits the reconnect delay, and holds nothing
    ensures s.conn == Connected && r.conn == Disconnected ==>
              e.Poll? && e.reply.TransportFailed? && r.sleptMs == s.sleptMs + RECONNECT_DELAY_MS &&
              (Consistent(s.fields) ==> r.fields == IDLE)
    ensures Consistent(s.fields) ==> Consistent(r.fields)
    ensures |s.log| <= |r.log| && r.log[..|s.log|] == s.log
  {
    match e
    case Attempt(running, ok) =>
      if s.conn != Disconnected then s
      else if !running then s.(conn := Exited)
      else if ok then s.(conn := Connected)
      else s.(sleptMs := s.sleptMs + RECONNECT_DELAY_MS)
    case Poll(running, speech, text, reply, decode, playOk) =>
      if s.conn != Connected then s
      else if !running then s.(conn := Exited)
      else
        var t := Tick(s.fields, s.playback, speech, text, reply, decode, playOk);
        ClientState(t.fields, t.playback,
                    if t.lost then Disconnected else Connected,
                    s.sleptMs + if t.lost then RECONNECT_DELAY_MS else POLL_INTERVAL_MS,
                    s.log + t.effects)
    case WatcherTimeout =>
      s.(playback := Expired(s.playback))
  }

  function Run(s: ClientState, es: seq<Event>): ClientState
    decreases |es|
  {
    if es == [] then s else Step(Run(s, es[..|es| - 1]), es[|es| - 1])
  }

  /** The state right before the outer loop. */
  const INITIAL: ClientState := ClientState(IDLE, PlaybackState(false, []), Disconnected, 0, [])

  /** `tts_requested` is true exactly when `tts_audio` holds a reply, from
      initialisation through every interleaving of iterations, reconnects and
      watcher timeouts. */
  lemma {:induction false} RunKeepsConsistent(s: ClientState, es: seq<Event>)
    requires Consistent(s.fields)
    ensures Consistent(Run(s, es).fields)
    decreases |es|
  {
    if es != [] {
      RunKeepsConsistent(s, es[..|es| - 1]);
    }
  }

  /** An independent account of what the loop should hold, read off the
      log alone: the payload of the latest successful exchange, forgotten
      when playback of it begins or when a barge-in stops playback. */
  function Held(log: seq<Effect>): Option<Bytes>
    decreases |log|
  {
    if log == [] then None
    else match log[|log| - 1]
      case Request(_, TransportFailed) => Held(log[..|log| - 1])
      case Request(_, Delivered(b)) => Some(b)
      case HaltPlayback => None
      case BeginPlayback(_) => None
  }

  lemma HeldAppend(log: seq<Effect>, e: Effect)
    ensures Held(log + [e]) == match e
                               case Request(_, TransportFailed) => Held(log)
                               case Request(_, Delivered(b)) => Some(b)
                               case _ => None
  {
    assert (log + [e])[..|log|] == log;
  }

  /** Every playback start in the log hands over exactly what was held just
      before it: a reply that arrived and was neither played nor discarded. */
  ghost predicate PlaysOnlyHeld(log: seq<Effect>)
  {
    forall i :: 0 <= i < |log| && log[i].BeginPlayback? ==> Held(log[..i]) == Some(log[i].payload)
  }

  /** The loop's `tts_audio` is always the reply the log says it holds, and
      it only ever plays that: no stale, discarded or already played reply
      is handed to playback, across every interleaving of iterations,
      reconnects and watcher timeouts. */
  lemma {:induction false} RunPlaysOnlyHeld(s: ClientState, es: seq<Event>)
    requires s.fields.audio == Held(s.log) && PlaysOnlyHeld(s.log)
    ensures Run(s, es).fields.audio == Held(Run(s, es).log)
    ensures PlaysOnlyHeld(Run(s, es).log)
    decreases |es|
  {
    if es != [] {
      var q := Run(s, es[..|es| - 1]);
      RunPlaysOnlyHeld(s, es[..|es| - 1]);
      var r := Run(s, es);
      match es[|es| - 1]
      case Attempt(_, _) =>
      case WatcherTimeout =>
      case Poll(running, speech, text, reply, decode, playOk) =>
        if q.conn == Connected && running {
          var t := Tick(q.fields, q.playback, speech, text, reply, decode, playOk);
          assert r.log == q.log + t.effects && r.fields == t.fields;
          if q.playback.active && speech {
            HeldAppend(q.log, HaltPlayback);
            HeldAppend(q.log + [HaltPlayback], Request(text, reply));
            assert q.log + t.effects == q.log + [HaltPlayback] + [Request(text, reply)];
          } else if t.effects != [] {
            var e := t.effects[0];
            assert t.effects == [e];
            HeldAppend(q.log, e);
            assert Held(r.log) == t.fields.audio;
          } else {
            assert r.log == q.log && t.fields == q.fields;
          }
          forall i | 0 <= i < |r.log| && r.log[i].BeginPlayback?
            ensures Held(r.log[..i]) == Some(r.log[i].payload)
          {
            if i < |q.log| {
              assert r.log[..i] == q.log[..i];
            } else {
              assert r.log[..i] == q.log;
            }
          }
        }
    }
  }

  /** From the state before the outer loop, the two facts hold forever. */
  lemma ClientPlaysOnlyHeld(es: seq<Event>)
    ensures Consistent(Run(INITIAL, es).fields)
    ensures Run(INITIAL, es).fields.audio == Held(Run(INITIAL, es).log)
    ensures PlaysOnlyHeld(Run(INITIAL, es).log)
  {
    RunKeepsConsistent(INITIAL, es);
    RunPlaysOnlyHeld(INITIAL, es);
  }

  /** Refused connection attempts: each waits the reconnect delay, and the
      fields, the playback and the log are untouched however often it happens. */
  lemma {:induction false} RefusedAttemptsOnlyWait(s: ClientState, n: nat)
    requires s.conn == Disconnected
    ensures var r := Run(s, seq(n, _ => Attempt(true, false)));
            r == s.(sleptMs := s.sleptMs + n * RECONNECT_DELAY_MS)
  {
    if n > 0 {
      var es := seq(n, _ => Attempt(true, false));
      assert es[..n - 1] == seq(n - 1, _ => Attempt(true, false));
      RefusedAttemptsOnlyWait(s, n - 1);
    }
  }

  /** Scenario: a user speaks while nothing is held and nothing plays; the
      reply is held; once speech clears, playback of exactly that reply
      starts once and the loop is idle again. */
  lemma RequestThenPlay(s: ClientState, decode: Decoder, text: string, payload: Bytes, text2: string,
                        reply2: Reply, playOk: bool)
    requires s.conn == Connected && s.fields == IDLE && !s.playback.active
    ensures var r1 := Step(s, Poll(true, true, text, Delivered(payload), decode, playOk));
            r1.fields == Fields(true, Some(payload)) && r1.log == s.log + [Request(text, Delivered(payload))] &&
            r1.playback == s.playback && r1.conn == Connected
    ensures var r1 := Step(s, Poll(true, true, text, Delivered(payload), decode, playOk));
            var r2 := Step(r1, Poll(true, false, text2, reply2, decode, playOk));
            r2.fields == IDLE &&
            r2.log == s.log + [Request(text, Delivered(payload)), BeginPlayback(payload)] &&
            r2.playback == Started(s.playback, decode(payload), playOk)
  {
  }

  /** Scenario: while speech continues, a held reply is not played. */
  lemma HeldWhileSpeaking(s: ClientState, decode: Decoder, text: string, reply: Reply, playOk: bool)
    requires s.conn == Connected && s.fields.requested && Consistent(s.fields) && !s.playback.active
    ensures var r := Step(s, Poll(true, true, text, reply, decode, playOk));
            r == s.(sleptMs := s.sleptMs + POLL_INTERVAL_MS)
  {
  }

  /** Scenario: synthesis fails on the server, so the reply is the empty
      payload. It is not `None`, so it is held like audio and later handed to
      playback; the decoder cannot read it, playback stays inactive, and the
      loop is idle again, ready to send a fresh request on the next speech. */
  lemma FailureSentinelIsHeldThenDropped(s: ClientState, decode: Decoder, text: string, text2: string,
                                         reply2: Reply, playOk: bool)
    requires decode([]) == None
    requires s.conn == Connected && s.fields == IDLE && !s.playback.active
    ensures var r1 := Step(s, Poll(true, true, text, Delivered([]), decode, playOk));
            var r2 := Step(r1, Poll(true, false, text2, reply2, decode, playOk));
            r1.fields == Fields(true, Some([])) &&
            r2.fields == IDLE && !r2.playback.active && r2.playback.device == s.playback.device &&
            r2.log == s.log + [Request(text, Delivered([])), BeginPlayback([])]
  {
  }

  /** The request loop: its two fields, the outer loop's state, the time it
      has spent sleeping and what it asked of its collaborators; the speech
      event and the playback controller are shared with other threads. */
  class TtsClient {
    var requested: bool
    var audio: Option<Bytes>
    var conn: Conn
    var sleptMs: nat
    var log: seq<Effect>
    const speech: SpeechEvent
    const playback: PlaybackController

    ghost function State(): ClientState
      reads this, playback
    {
      ClientState(Fields(requested, audio), playback.State(), conn, sleptMs, log)
    }

    /** `tts_requested = False; tts_audio = None` before the outer loop. */
    constructor (speech: SpeechEvent, playback: PlaybackController)
      ensures this.speech == speech && this.playback == playback
      ensures State() == ClientState(IDLE, playback.State(), Disconnected, 0, [])
    {
      this.speech := speech;
      this.playback := playback;
      requested := false;
      audio := None;
      conn := Disconnected;
      sleptMs := 0;
      log := [];
    }

    /** The head of the outer loop: check `running`, then `websockets.connect`. */
    method Connect(running: bool, ok: bool)
      requires conn == Disconnected
      modifies this
      ensures State() == Step(old(State()), Attempt(running, ok))
    {
      if !running {
        conn := Exited;
      } else if ok {
        conn := Connected;
      } else {
        sleptMs := sleptMs + RECONNECT_DELAY_MS;
      }
    }

    /** One exchange on the connection; a failure ends the inner loop. */
    method Send(text: string, reply: Reply) returns (lost: bool)
      modifies this
      ensures log == old(log) + [Request(text, reply)]
      ensures lost <==> reply.TransportFailed?
      ensures lost ==> requested == old(requested) && audio == old(audio) &&
                       conn == Disconnected && sleptMs == old(sleptMs) + RECONNECT_DELAY_MS
      ensures !lost ==> requested && audio == Some(reply.payload) && conn == old(conn) && sleptMs == old(sleptMs)
    {
      log := log + [Request(text, reply)];
      match reply
      case TransportFailed =>
        conn := Disconnected;
        sleptMs := sleptMs + RECONNECT_DELAY_MS;
        lost := true;
      case Delivered(b) =>
        audio := Some(b);
        requested := true;
        lost := false;
    }

    /** One iteration of the inner `while running` loop. */
    method Iterate(running: bool, text: string, reply: Reply, decode: Decoder, playOk: bool)
      requires conn == Connected
      modifies this, playback
      ensures State() == Step(old(State()), Poll(running, old(speech.isSet), text, reply, decode, playOk))
    {
      if !running {
        conn := Exited;
        return;
      }
      var active := playback.IsActive();
      if active {
        Interrupt(text, reply, decode, playOk);
      } else {
        RequestOrPlay(text, reply, decode, playOk);
      }
    }

    /** The iteration while audio plays: barge-in if the user speaks, else nothing. */
    method Interrupt(text: string, reply: Reply, decode: Decoder, playOk: bool)
      requires conn == Connected && playback.active
      modifies this, playback
      ensures State() == Step(old(State()), Poll(true, old(speech.isSet), text, reply, decode, playOk))
    {
      ghost var s0 := State();
      ghost var t := Tick(s0.fields, s0.playback, speech.isSet, text, reply, decode, playOk);
      if speech.isSet {
        playback.Stop();
        log := log + [HaltPlayback];
        requested := false;
        audio := None;
        if speech.isSet && !requested {
          var lost := Send(text, reply);
          if lost {
            assert log == s0.log + t.effects;
            return;
          }
        }
      }
      sleptMs := sleptMs + POLL_INTERVAL_MS;
      assert log == s0.log + t.effects;
    }

    /** The iteration while nothing plays: request if the user speaks and
        nothing is held, then start playback of what is held once speech has
        ended. */
    method RequestOrPlay(text: string, reply: Reply, decode: Decoder, playOk: bool)
      requires conn == Connected && !playback.active
      modifies this, playback
      ensures State() == Step(old(State()), Poll(true, old(speech.isSet), text, reply, decode, playOk))
    {
      ghost var s0 := State();
      ghost var t := Tick(s0.fields, s0.playback, speech.isSet, text, reply, decode, playOk);
      if speech.isSet && !requested {
        var lost := Send(text, reply);
        if lost {
          assert log == s0.log + t.effects;
          return;
        }
      }
      var active := playback.IsActive();
      if !speech.isSet && audio.Some? && !active {
        var payload := audio.value;
        playback.Start(payload, decode, playOk);
        log := log + [BeginPlayback(payload)];
        requested := false;
        audio := None;
      }
      sleptMs := sleptMs + POLL_INTERVAL_MS;
      assert log == s0.log + t.effects;
    }
  }
}
