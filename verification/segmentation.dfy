/**
 * The stream handler: an energy-based voice-activity state machine that
 * buffers PCM chunks while someone speaks and, once the trailing silence has
 * lasted long enough, flushes them as one WAV segment; plus the guard that
 * keeps at most one reconnect timer pending.
 *
 * Audio is mono 16 kHz signed 16-bit PCM, so one second is 32000 bytes.
 * Time is the clock reading in milliseconds, passed in by the caller.
 */
module Segmentation {
  import opened Bytes
  import opened Wrappers
  import opened Wav
  import opened Rms

  type Chunk = seq<Byte>

  const SAMPLE_RATE: int := 16000
  const CHANNELS: int := 1
  const BYTES_PER_SECOND: int := 32000
  const RECONNECT_DELAY_MS: int := 5000

  /** `minDuration` in whole seconds; `silenceDuration` in milliseconds. */
  datatype Config = Config(minDuration: int, silenceDurationMs: int)

  /** A saved WAV file: its timestamp (which names the file) and its bytes. */
  datatype Segment = Segment(timestamp: int, wav: seq<Byte>)

  datatype FlushResult =
    | NothingBuffered
    | TooShort(totalLength: nat)
    | Saved(segment: Segment)
      /** A header write raised a RangeError after the buffer had been cleared. */
    | HeaderRangeError

  /** What one chunk does: RangeError is the exception an odd-length chunk raises. */
  datatype Reaction = RangeError | Ignored | Buffered | Flushed(result: FlushResult)

  datatype VoiceState = VoiceState(speaking: bool, silenceStart: Option<int>, buffer: seq<Chunk>)

  const Idle: VoiceState := VoiceState(false, None, [])

  /** Nothing is buffered unless speaking, and a silence timer runs only while speaking. */
  predicate Consistent(s: VoiceState)
  {
    (!s.speaking ==> s.buffer == []) && (s.silenceStart.Some? ==> s.speaking)
  }

  /** `!this.silenceStart`: null, and also the falsy timestamp 0. */
  predicate Unset(t: Option<int>)
  {
    t.None? || t.value == 0
  }

  /** `buffer.reduce((acc, b) => acc + b.length, 0)`, a fold from the left. */
  function TotalLength(chunks: seq<Chunk>): nat
  {
    if chunks == [] then 0 else TotalLength(chunks[..|chunks| - 1]) + |chunks[|chunks| - 1]|
  }

  /** `Buffer.concat(chunks)`. */
  function Concat(chunks: seq<Chunk>): seq<Byte>
  {
    if chunks == [] then [] else chunks[0] + Concat(chunks[1..])
  }

  lemma {:induction false} ConcatAppend(chunks: seq<Chunk>, c: Chunk)
    ensures Concat(chunks + [c]) == Concat(chunks) + c
  {
    if chunks != [] {
      assert (chunks + [c])[1..] == chunks[1..] + [c];
      ConcatAppend(chunks[1..], c);
    }
  }

  lemma {:induction false} ConcatSplit(a: seq<Chunk>, b: seq<Chunk>)
    ensures Concat(a + b) == Concat(a) + Concat(b)
  {
    if a == [] {
      assert a + b == b;
    } else {
      assert (a + b)[1..] == a[1..] + b;
      ConcatSplit(a[1..], b);
    }
  }

  /** The length the flush measures is the length of what it concatenates. */
  lemma {:induction false} ConcatLength(chunks: seq<Chunk>)
    ensures |Concat(chunks)| == TotalLength(chunks)
  {
    if chunks != [] {
      var init := chunks[..|chunks| - 1];
      assert chunks == init + [chunks[|chunks| - 1]];
      ConcatAppend(init, chunks[|chunks| - 1]);
      ConcatLength(init);
    }
  }

  /**
   * `flushBuffer` on the buffered chunks: nothing on an empty buffer; below
   * the minimum length the chunks are dropped; otherwise one segment whose
   * payload is the chunks in arrival order behind a 16 kHz mono header.
   */
  function Flush(buffer: seq<Chunk>, cfg: Config, now: int): (r: FlushResult)
    ensures r.NothingBuffered? <==> buffer == []
    ensures r.TooShort? ==> r.totalLength == |Concat(buffer)| < cfg.minDuration * BYTES_PER_SECOND
    ensures r.Saved? ==>
      && |Concat(buffer)| >= cfg.minDuration * BYTES_PER_SECOND
      && HeaderFits(|Concat(buffer)|, SAMPLE_RATE, CHANNELS)
      && r.segment.timestamp == now
      && r.segment.wav == WavHeader(|Concat(buffer)|, SAMPLE_RATE, CHANNELS) + Concat(buffer)
    ensures r.HeaderRangeError? ==> !HeaderFits(|Concat(buffer)|, SAMPLE_RATE, CHANNELS)
    ensures buffer != [] && |Concat(buffer)| < cfg.minDuration * BYTES_PER_SECOND ==> r.TooShort?
    ensures
      && buffer != []
      && |Concat(buffer)| >= cfg.minDuration * BYTES_PER_SECOND
      && HeaderFits(|Concat(buffer)|, SAMPLE_RATE, CHANNELS)
      ==> r.Saved?
  {
    if buffer == [] then NothingBuffered
    else
      var totalLength := TotalLength(buffer);
      ConcatLength(buffer);
      if totalLength < cfg.minDuration * BYTES_PER_SECOND then TooShort(totalLength)
      else
        match WavFile(Concat(buffer), SAMPLE_RATE, CHANNELS)
        case None => HeaderRangeError
        case Some(wav) => Saved(Segment(now, wav))
  }

  /**
   * `processAudioData` on one chunk arriving at time `now`: the new state and
   * what the chunk caused.
   */
  function Ingest(s: VoiceState, chunk: Chunk, now: int, cfg: Config): (r: (VoiceState, Reaction))
    ensures Consistent(s) ==> Consistent(r.0)
    ensures r.1 == RangeError <==> |chunk| % 2 == 1
    ensures r.1 == RangeError || r.1 == Ignored ==> r.0 == s
    ensures Loud(chunk) ==> r.0 == VoiceState(true, None, s.buffer + [chunk]) && r.1 == Buffered
    ensures Quiet(chunk) && !s.speaking ==> r.1 == Ignored
    ensures r.1 == Buffered ==> r.0.speaking && r.0.buffer == s.buffer + [chunk]
    ensures r.1.Flushed? ==>
      && s.speaking && Quiet(chunk)
      && r.1.result == Flush(s.buffer + [chunk], cfg, now)
      && r.0.buffer == []
      && (r.1.result.HeaderRangeError? || r.0 == Idle)
    ensures Quiet(chunk) && s.speaking ==>
      var start := if Unset(s.silenceStart) then now else s.silenceStart.value;
      (r.1.Flushed? <==> now - start > cfg.silenceDurationMs)
      && (r.1.Flushed? ==> r.1.result.HeaderRangeError? || r.0 == Idle)
      && (r.0.silenceStart.Some? ==> r.0.silenceStart == Some(start))
      && (r.0.speaking ==> r.0.silenceStart == Some(start))
      && (!r.1.Flushed? ==> r.1 == Buffered && r.0 == VoiceState(true, Some(start), s.buffer + [chunk]))
  {
    if |chunk| % 2 == 1 then (s, RangeError)
    else if AboveThreshold(RmsOf(chunk)) then (VoiceState(true, None, s.buffer + [chunk]), Buffered)
    else if !s.speaking then (s, Ignored)
    else
      var start := if Unset(s.silenceStart) then now else s.silenceStart.value;
      var buffered := s.buffer + [chunk];
      if now - start > cfg.silenceDurationMs then
        var f := Flush(buffered, cfg, now);
        if f.HeaderRangeError? then (VoiceState(true, Some(start), []), Flushed(f))
        else (Idle, Flushed(f))
      else
        (VoiceState(true, Some(start), buffered), Buffered)
  }

  /** A chunk together with the clock reading at its arrival. */
  datatype Arrival = Arrival(chunk: Chunk, now: int)

  function Chunks(arrivals: seq<Arrival>): (cs: seq<Chunk>)
    ensures |cs| == |arrivals|
    ensures forall i | 0 <= i < |arrivals| :: cs[i] == arrivals[i].chunk
  {
    seq(|arrivals|, i requires 0 <= i < |arrivals| => arrivals[i].chunk)
  }

  lemma ChunksAppend(a: seq<Arrival>, b: seq<Arrival>)
    ensures Chunks(a + b) == Chunks(a) + Chunks(b)
  {
    assert forall i | 0 <= i < |a + b| :: Chunks(a + b)[i] == (Chunks(a) + Chunks(b))[i];
  }

  /** Chunks fed one after the other, in arrival order. */
  function Run(s: VoiceState, arrivals: seq<Arrival>, cfg: Config): (r: (VoiceState, seq<Reaction>))
    ensures |r.1| == |arrivals|
    ensures Consistent(s) ==> Consistent(r.0)
    decreases |arrivals|
  {
    if arrivals == [] then (s, [])
    else
      var step := Ingest(s, arrivals[0].chunk, arrivals[0].now, cfg);
      var rest := Run(step.0, arrivals[1..], cfg);
      (rest.0, [step.1] + rest.1)
  }

  lemma {:induction false} RunAppend(s: VoiceState, a: seq<Arrival>, b: seq<Arrival>, cfg: Config)
    ensures var first := Run(s, a, cfg);
      var second := Run(first.0, b, cfg);
      Run(s, a + b, cfg) == (second.0, first.1 + second.1)
    decreases |a|
  {
    if a == [] {
      assert a + b == b;
      assert Run(s, a, cfg) == (s, []);
      assert [] + Run(s, b, cfg).1 == Run(s, b, cfg).1;
    } else {
      assert (a + b)[1..] == a[1..] + b;
      assert (a + b)[0] == a[0];
      var step := Ingest(s, a[0].chunk, a[0].now, cfg);
      RunAppend(step.0, a[1..], b, cfg);
      var tail := Run(step.0, a[1..], cfg);
      var second := Run(tail.0, b, cfg);
      assert Run(s, a, cfg) == (tail.0, [step.1] + tail.1);
      assert Run(s, a + b, cfg) == (second.0, [step.1] + (tail.1 + second.1));
      assert [step.1] + (tail.1 + second.1) == ([step.1] + tail.1) + second.1;
    }
  }

  function Repeat(r: Reaction, n: nat): (rs: seq<Reaction>)
    ensures |rs| == n && forall i | 0 <= i < n :: rs[i] == r
  {
    seq(n, _ => r)
  }

  /** While loud chunks arrive, every one is buffered behind what is already there. */
  lemma {:induction false} SpeechPhase(s: VoiceState, speech: seq<Arrival>, cfg: Config)
    requires speech != []
    requires forall i | 0 <= i < |speech| :: Loud(speech[i].chunk)
    ensures Run(s, speech, cfg) == (VoiceState(true, None, s.buffer + Chunks(speech)), Repeat(Buffered, |speech|))
    decreases |speech|
  {
    var next := VoiceState(true, None, s.buffer + [speech[0].chunk]);
    assert Ingest(s, speech[0].chunk, speech[0].now, cfg) == (next, Buffered);
    if |speech| > 1 {
      SpeechPhase(next, speech[1..], cfg);
      assert next.buffer + Chunks(speech[1..]) == s.buffer + Chunks(speech);
      assert [Buffered] + Repeat(Buffered, |speech| - 1) == Repeat(Buffered, |speech|);
    } else {
      assert Chunks(speech) == [speech[0].chunk];
      assert Repeat(Buffered, 1) == [Buffered];
      assert speech[1..] == [];
      assert Run(next, speech[1..], cfg) == (next, []);
      assert Run(s, speech, cfg) == (next, [Buffered] + []);
      assert s.buffer + Chunks(speech) == next.buffer;
      assert [Buffered] + [] == Repeat(Buffered, |speech|);
    }
  }

  /**
   * While quiet chunks arrive before the silence has lasted longer than
   * configured, every one is buffered and the silence timer keeps the time
   * of the first of them.
   */
  lemma {:induction false} PausePhase(buffer: seq<Chunk>, start: Option<int>, t0: int, pause: seq<Arrival>, cfg: Config)
    requires t0 != 0
    requires start == Some(t0) || (start == None && (pause != [] ==> pause[0].now == t0))
    requires forall i | 0 <= i < |pause| :: Quiet(pause[i].chunk) && pause[i].now - t0 <= cfg.silenceDurationMs
    ensures Run(VoiceState(true, start, buffer), pause, cfg)
         == (VoiceState(true, if pause == [] then start else Some(t0), buffer + Chunks(pause)), Repeat(Buffered, |pause|))
    decreases |pause|
  {
    if pause == [] {
      assert buffer + Chunks(pause) == buffer;
      assert Repeat(Buffered, 0) == [];
    } else {
      var next := VoiceState(true, Some(t0), buffer + [pause[0].chunk]);
      QuietBuffered(buffer, start, t0, pause[0], cfg);
      RunStep(VoiceState(true, start, buffer), pause, cfg);
      PausePhase(next.buffer, Some(t0), t0, pause[1..], cfg);
      assert next.buffer + Chunks(pause[1..]) == buffer + Chunks(pause);
      assert [Buffered] + Repeat(Buffered, |pause| - 1) == Repeat(Buffered, |pause|);
    }
  }

  /** A quiet chunk within the silence limit is buffered and the silence timer keeps its start. */
  lemma QuietBuffered(buffer: seq<Chunk>, start: Option<int>, t0: int, a: Arrival, cfg: Config)
    requires t0 != 0 && (start == Some(t0) || (start == None && a.now == t0))
    requires Quiet(a.chunk) && a.now - t0 <= cfg.silenceDurationMs
    ensures Ingest(VoiceState(true, start, buffer), a.chunk, a.now, cfg)
         == (VoiceState(true, Some(t0), buffer + [a.chunk]), Buffered)
  {
  }

  /** One step of `Run`: the first chunk is ingested, the rest follow from the state it leaves. */
  lemma RunStep(s: VoiceState, arrivals: seq<Arrival>, cfg: Config)
    requires arrivals != []
    ensures var step := Ingest(s, arrivals[0].chunk, arrivals[0].now, cfg);
      var rest := Run(step.0, arrivals[1..], cfg);
      Run(s, arrivals, cfg) == (rest.0, [step.1] + rest.1)
  {
  }

  /** The first quiet chunk past the silence limit flushes everything buffered, itself included. */
  lemma SilenceLimitReached(buffer: seq<Chunk>, start: Option<int>, t0: int, last: Arrival, cfg: Config)
    requires t0 != 0 && (start == Some(t0) || (start == None && last.now == t0))
    requires Quiet(last.chunk) && last.now - t0 > cfg.silenceDurationMs
    requires |Concat(buffer + [last.chunk])| >= cfg.minDuration * BYTES_PER_SECOND
    requires HeaderFits(|Concat(buffer + [last.chunk])|, SAMPLE_RATE, CHANNELS)
    ensures var payload := Concat(buffer + [last.chunk]);
      Run(VoiceState(true, start, buffer), [last], cfg)
      == (Idle, [Flushed(Saved(Segment(last.now, WavHeader(|payload|, SAMPLE_RATE, CHANNELS) + payload)))])
  {
    var payload := Concat(buffer + [last.chunk]);
    var f := Saved(Segment(last.now, WavHeader(|payload|, SAMPLE_RATE, CHANNELS) + payload));
    assert Flush(buffer + [last.chunk], cfg, last.now) == f;
    assert Ingest(VoiceState(true, start, buffer), last.chunk, last.now, cfg) == (Idle, Flushed(f));
    assert [last][1..] == [];
    assert Run(Idle, [], cfg) == (Idle, []);
    assert [Flushed(f)] + [] == [Flushed(f)];
  }

  /**
   * An utterance: loud chunks, then quiet chunks until the silence has lasted
   * longer than `silenceDurationMs`. From idle this yields exactly one saved
   * segment, at the first chunk past the silence limit, holding every chunk of
   * the utterance up to and including that one; the engine is idle again.
   */
  lemma UtteranceIsOneSegment(speech: seq<Arrival>, pause: seq<Arrival>, cfg: Config)
    requires speech != [] && pause != []
    requires forall i | 0 <= i < |speech| :: Loud(speech[i].chunk)
    requires forall i | 0 <= i < |pause| :: Quiet(pause[i].chunk)
    requires pause[0].now != 0
    requires forall i | 0 <= i < |pause| - 1 :: pause[i].now - pause[0].now <= cfg.silenceDurationMs
    requires pause[|pause| - 1].now - pause[0].now > cfg.silenceDurationMs
    requires |Concat(Chunks(speech + pause))| >= cfg.minDuration * BYTES_PER_SECOND
    requires HeaderFits(|Concat(Chunks(speech + pause))|, SAMPLE_RATE, CHANNELS)
    ensures var payload := Concat(Chunks(speech + pause));
      var last := pause[|pause| - 1];
      Run(Idle, speech + pause, cfg)
      == (Idle, Repeat(Buffered, |speech| + |pause| - 1)
                + [Flushed(Saved(Segment(last.now, WavHeader(|payload|, SAMPLE_RATE, CHANNELS) + payload)))])
  {
    var payload := Concat(Chunks(speech + pause));
    var last := pause[|pause| - 1];
    var f := Flushed(Saved(Segment(last.now, WavHeader(|payload|, SAMPLE_RATE, CHANNELS) + payload)));
    var buffered := Chunks(speech);
    SpeechPhase(Idle, speech, cfg);
    assert Idle.buffer + buffered == buffered;
    var first := Run(Idle, speech, cfg);
    assert first == (VoiceState(true, None, buffered), Repeat(Buffered, |speech|));
    ChunksAppend(speech, pause);
    assert buffered + Chunks(pause) == Chunks(speech + pause);
    PauseThenFlush(buffered, pause, cfg);
    var second := Run(first.0, pause, cfg);
    assert second == (Idle, Repeat(Buffered, |pause| - 1) + [f]);
    RunAppend(Idle, speech, pause, cfg);
    assert Run(Idle, speech + pause, cfg) == (Idle, first.1 + second.1);
    RepeatAppend(Buffered, |speech|, |pause| - 1);
    assert first.1 + second.1 == Repeat(Buffered, |speech|) + Repeat(Buffered, |pause| - 1) + [f];
  }

  lemma RepeatAppend(r: Reaction, m: nat, n: nat)
    ensures Repeat(r, m) + Repeat(r, n) == Repeat(r, m + n)
  {
  }

  /**
   * Once speech has been buffered, quiet chunks until the silence has lasted
   * longer than configured are buffered and the last of them flushes all.
   */
  lemma PauseThenFlush(buffer: seq<Chunk>, pause: seq<Arrival>, cfg: Config)
    requires pause != []
    requires forall i | 0 <= i < |pause| :: Quiet(pause[i].chunk)
    requires pause[0].now != 0
    requires forall i | 0 <= i < |pause| - 1 :: pause[i].now - pause[0].now <= cfg.silenceDurationMs
    requires pause[|pause| - 1].now - pause[0].now > cfg.silenceDurationMs
    requires |Concat(buffer + Chunks(pause))| >= cfg.minDuration * BYTES_PER_SECOND
    requires HeaderFits(|Concat(buffer + Chunks(pause))|, SAMPLE_RATE, CHANNELS)
    ensures var payload := Concat(buffer + Chunks(pause));
      var last := pause[|pause| - 1];
      Run(VoiceState(true, None, buffer), pause, cfg)
      == (Idle, Repeat(Buffered, |pause| - 1)
                + [Flushed(Saved(Segment(last.now, WavHeader(|payload|, SAMPLE_RATE, CHANNELS) + payload)))])
  {
    var t0 := pause[0].now;
    var k := |pause| - 1;
    var middle := pause[..k];
    assert pause == middle + [pause[k]];
    RunAppend(VoiceState(true, None, buffer), middle, [pause[k]], cfg);
    PausePhase(buffer, None, t0, middle, cfg);
    PauseEnd(buffer, pause, cfg);
  }

  /** The chunk past the silence limit, after the rest of the pause was buffered. */
  lemma PauseEnd(buffer: seq<Chunk>, pause: seq<Arrival>, cfg: Config)
    requires pause != []
    requires Quiet(pause[|pause| - 1].chunk)
    requires pause[0].now != 0
    requires pause[|pause| - 1].now - pause[0].now > cfg.silenceDurationMs
    requires |Concat(buffer + Chunks(pause))| >= cfg.minDuration * BYTES_PER_SECOND
    requires HeaderFits(|Concat(buffer + Chunks(pause))|, SAMPLE_RATE, CHANNELS)
    ensures var payload := Concat(buffer + Chunks(pause));
      var k := |pause| - 1;
      var start := if k == 0 then None else Some(pause[0].now);
      Run(VoiceState(true, start, buffer + Chunks(pause[..k])), [pause[k]], cfg)
      == (Idle, [Flushed(Saved(Segment(pause[k].now, WavHeader(|payload|, SAMPLE_RATE, CHANNELS) + payload)))])
  {
    var k := |pause| - 1;
    var last := pause[k];
    var middle := pause[..k];
    assert pause == middle + [last];
    var start := if k == 0 then None else Some(pause[0].now);
    assert buffer + Chunks(middle) + [last.chunk] == buffer + Chunks(pause) by {
      ChunksAppend(middle, [last]);
      assert Chunks([last]) == [last.chunk];
    }
    SilenceLimitReached(buffer + Chunks(middle), start, pause[0].now, last, cfg);
  }

  /** What the reconnect guard does besides changing its own state. */
  datatype Effect = EmitDisconnect | ScheduleReconnect(delayMs: int) | Restart

  class StreamHandler {
    const config: Config
    var speaking: bool
    var silenceStart: Option<int>
    var buffer: seq<Chunk>
    /** Whether a reconnect timer is pending. */
    var reconnectTimer: bool

    function State(): VoiceState
      reads this
    {
      VoiceState(speaking, silenceStart, buffer)
    }

    constructor (config: Config)
      ensures this.config == config
      ensures State() == Idle && !reconnectTimer
    {
      this.config := config;
      speaking := false;
      silenceStart := None;
      buffer := [];
      reconnectTimer := false;
    }

    /** `processAudioData`: one chunk of the decoded stream, arriving at `now`. */
    method ProcessAudioData(chunk: Chunk, now: int) returns (r: Reaction)
      modifies this
      ensures (State(), r) == Ingest(old(State()), chunk, now, config)
      ensures reconnectTimer == old(reconnectTimer)
    {
      var rms := CalculateRMS(chunk);
      if rms.None? {
        return RangeError;
      }
      assert rms.value == RmsOf(chunk);
      if AboveThreshold(rms.value) {
        speaking := true;
        silenceStart := None;
        buffer := buffer + [chunk];
        r := Buffered;
      } else if speaking {
        if Unset(silenceStart) {
          silenceStart := Some(now);
        }
        var elapsed := now - silenceStart.value;
        buffer := buffer + [chunk];
        if elapsed > config.silenceDurationMs {
          var f := FlushBuffer(now);
          r := Flushed(f);
          if f.HeaderRangeError? {
            // the exception skips the reset below
            return;
          }
          speaking := false;
          silenceStart := None;
        } else {
          r := Buffered;
        }
      } else {
        r := Ignored;
      }
    }

    /** `flushBuffer`: always leaves the buffer empty; writing the file is not modelled. */
    method FlushBuffer(now: int) returns (f: FlushResult)
      modifies this
      ensures f == Flush(old(buffer), config, now)
      ensures buffer == []
      ensures speaking == old(speaking) && silenceStart == old(silenceStart) && reconnectTimer == old(reconnectTimer)
    {
      if |buffer| == 0 {
        return NothingBuffered;
      }
      var totalLength := TotalLength(buffer);
      if totalLength < config.minDuration * BYTES_PER_SECOND {
        buffer := [];
        return TooShort(totalLength);
      }
      var fullBuffer := Concat(buffer);
      buffer := [];
      var wav := AddWavHeader(fullBuffer, SAMPLE_RATE, CHANNELS);
      if wav.None? {
        return HeaderRangeError;
      }
      f := Saved(Segment(now, wav.value[..]));
    }

    /** `handleDisconnect`: ignored while a timer is pending, otherwise announce and arm one. */
    method HandleDisconnect() returns (effects: seq<Effect>)
      modifies this
      ensures reconnectTimer
      ensures effects == if old(reconnectTimer) then [] else [EmitDisconnect, ScheduleReconnect(RECONNECT_DELAY_MS)]
      ensures State() == old(State())
    {
      if reconnectTimer {
        return [];
      }
      effects := [EmitDisconnect, ScheduleReconnect(RECONNECT_DELAY_MS)];
      reconnectTimer := true;
    }

    /** The reconnect timer's callback: clear the timer, then `start()` again. */
    method ReconnectTimerFired() returns (effects: seq<Effect>)
      requires reconnectTimer
      modifies this
      ensures !reconnectTimer && effects == [Restart]
      ensures State() == old(State())
    {
      reconnectTimer := false;
      effects := [Restart];
    }
  }

  /** Two disconnect notifications in a row schedule a single reconnect. */
  method DisconnectTwice(h: StreamHandler) returns (effects: seq<Effect>)
    modifies h
    ensures h.reconnectTimer
    ensures |effects| <= 2 && (forall i | 0 <= i < |effects| :: effects[i] != Restart)
    ensures ScheduleReconnect(RECONNECT_DELAY_MS) in effects <==> !old(h.reconnectTimer)
    ensures effects == [] || effects == [EmitDisconnect, ScheduleReconnect(RECONNECT_DELAY_MS)]
  {
    var first := h.HandleDisconnect();
    var second := h.HandleDisconnect();
    assert second == [];
    effects := first + second;
  }
}
