/**
 * The transcription queue that runs an external recognizer process: a FIFO
 * of segment file paths, at most one recognizer run at a time, results
 * cleaned of timestamp annotations, and the segment file always removed.
 *
 * The recognizer run is an outcome handed to `Complete`; the file system is
 * the set of paths that exist, passed in and returned.
 */
module Transcription {
  import opened Wrappers
  import opened JsText

  predicate IsDigit(c: char)
  {
    '0' <= c <= '9'
  }

  /** `\d{2}:\d{2}:\d{2}\.\d{3}` */
  predicate IsClock(s: string)
  {
    && |s| == 12
    && IsDigit(s[0]) && IsDigit(s[1]) && s[2] == ':'
    && IsDigit(s[3]) && IsDigit(s[4]) && s[5] == ':'
    && IsDigit(s[6]) && IsDigit(s[7]) && s[8] == '.'
    && IsDigit(s[9]) && IsDigit(s[10]) && IsDigit(s[11])
  }

  const RANGE_LENGTH: nat := 31

  /** `\[\d{2}:\d{2}:\d{2}\.\d{3} --> \d{2}:\d{2}:\d{2}\.\d{3}\]`, a fixed-length pattern. */
  predicate IsTimestampRange(s: string)
  {
    && |s| == RANGE_LENGTH
    && s[0] == '[' && IsClock(s[1..13]) && s[13..18] == " --> " && IsClock(s[18..30]) && s[30] == ']'
  }

  /**
   * The global replace of timestamp ranges by nothing: scanning from the left,
   * a range starting at the current position is skipped whole, otherwise the
   * character is kept and the scan moves on by one.
   */
  function StripTimestamps(s: string): (r: string)
    ensures |r| <= |s| && (|s| - |r|) % RANGE_LENGTH == 0
    decreases |s|
  {
    if |s| >= RANGE_LENGTH && IsTimestampRange(s[..RANGE_LENGTH]) then StripTimestamps(s[RANGE_LENGTH..])
    else if s == [] then []
    else [s[0]] + StripTimestamps(s[1..])
  }

  /** A character other than `[` is kept and the scan moves on by one. */
  lemma StripKeeps(s: string)
    requires s != [] && s[0] != '['
    ensures StripTimestamps(s) == [s[0]] + StripTimestamps(s[1..])
  {
    if |s| >= RANGE_LENGTH {
      assert s[..RANGE_LENGTH][0] == s[0];
    }
  }

  /** A range at the scan position is skipped whole. */
  lemma StripSkips(range: string, rest: string)
    requires IsTimestampRange(range)
    ensures StripTimestamps(range + rest) == StripTimestamps(rest)
  {
    var s := range + rest;
    assert s[..RANGE_LENGTH] == range;
    assert s[RANGE_LENGTH..] == rest;
  }

  /** Text with no `[` in it has no range to remove. */
  lemma {:induction false} StripWithoutBracket(s: string)
    requires forall i | 0 <= i < |s| :: s[i] != '['
    ensures StripTimestamps(s) == s
    decreases |s|
  {
    if s != [] {
      StripKeeps(s);
      StripWithoutBracket(s[1..]);
    }
  }

  /** A range behind bracket-free text is removed, and the text before it is kept. */
  lemma {:induction false} StripRemovesRange(prefix: string, range: string, rest: string)
    requires forall i | 0 <= i < |prefix| :: prefix[i] != '['
    requires IsTimestampRange(range)
    ensures StripTimestamps(prefix + range + rest) == prefix + StripTimestamps(rest)
    decreases |prefix|
  {
    if prefix == [] {
      assert prefix + range + rest == range + rest;
      StripSkips(range, rest);
    } else {
      var s := prefix + range + rest;
      assert s[0] == prefix[0];
      assert s[1..] == prefix[1..] + range + rest;
      StripKeeps(s);
      StripRemovesRange(prefix[1..], range, rest);
      assert [prefix[0]] + prefix[1..] == prefix;
    }
  }

  /** Only the first character of a range is a `[`. */
  lemma RangeTailHasNoBracket(range: string)
    requires IsTimestampRange(range)
    ensures forall i | 1 <= i < |range| :: range[i] != '['
  {
    forall i | 1 <= i < |range|
      ensures range[i] != '['
    {
      if i < 13 {
        assert range[i] == range[1..13][i - 1];
      } else if i < 18 {
        assert range[i] == range[13..18][i - 13];
      } else if i < 30 {
        assert range[i] == range[18..30][i - 18];
      }
    }
  }

  /**
   * One pass is all there is: a range can be assembled from what surrounds a
   * removed one, and it stays in the text.
   */
  lemma RemovalCanExposeRange(range: string)
    requires IsTimestampRange(range)
    ensures StripTimestamps("[" + range + range[1..]) == range
  {
    var s := "[" + range + range[1..];
    assert s[1] == range[0];
    StripKeepsBeforeBracket(s);
    assert s[1..] == range + range[1..];
    StripSkips(range, range[1..]);
    RangeTailHasNoBracket(range);
    StripWithoutBracket(range[1..]);
    assert [s[0]] + range[1..] == range;
  }

  /** No range starts right before a `[`: its first clock digit would be that `[`. */
  lemma StripKeepsBeforeBracket(s: string)
    requires |s| >= 2 && s[1] == '['
    ensures StripTimestamps(s) == [s[0]] + StripTimestamps(s[1..])
  {
    if |s| >= RANGE_LENGTH {
      assert s[..RANGE_LENGTH][1..13][0] == s[1];
    }
  }

  /** A range starts at `i`. */
  predicate RangeAt(s: string, i: nat)
  {
    i + RANGE_LENGTH <= |s| && IsTimestampRange(s[i..i + RANGE_LENGTH])
  }

  /** No range anywhere in `s`. */
  predicate NoRange(s: string)
  {
    forall i: nat | i < |s| :: !RangeAt(s, i)
  }

  /** A `[` anywhere but at the front rules a range out. */
  lemma BracketNotInRange(w: string, i: nat)
    requires 1 <= i < |w| && w[i] == '['
    ensures !IsTimestampRange(w)
  {
    if |w| == RANGE_LENGTH {
      if i < 13 {
        assert w[1..13][i - 1] == '[';
      } else if i < 18 {
        assert w[13..18][i - 13] == '[';
      } else if i < 30 {
        assert w[18..30][i - 18] == '[';
      }
    }
  }

  /** Text with no range in it is left as it is. */
  lemma {:induction false} StripWithoutRange(s: string)
    requires NoRange(s)
    ensures StripTimestamps(s) == s
    decreases |s|
  {
    if s != [] {
      assert !RangeAt(s, 0);
      assert |s| >= RANGE_LENGTH ==> s[..RANGE_LENGTH] == s[0..RANGE_LENGTH];
      var tail := s[1..];
      forall i: nat | i < |tail|
        ensures !RangeAt(tail, i)
      {
        assert !RangeAt(s, i + 1);
        if i + RANGE_LENGTH <= |tail| {
          assert tail[i..i + RANGE_LENGTH] == s[i + 1..i + 1 + RANGE_LENGTH];
        }
      }
      StripWithoutRange(tail);
      assert [s[0]] + tail == s;
    }
  }

  /**
   * Removing one range splits the text: what lies before it and what lies
   * after it are stripped on their own. No range can run into a removed one,
   * since a range holds a `[` only at its front.
   */
  lemma {:induction false} StripAroundRange(p: string, x: string, q: string)
    requires IsTimestampRange(x)
    ensures StripTimestamps(p + x + q) == StripTimestamps(p) + StripTimestamps(q)
    decreases |p|
  {
    if p == [] {
      assert p + x + q == x + q;
      StripSkips(x, q);
    } else if |p| >= RANGE_LENGTH && IsTimestampRange(p[..RANGE_LENGTH]) {
      StripAroundRange(p[RANGE_LENGTH..], x, q);
      AroundSkip(p, x, q);
    } else {
      StripAroundRange(p[1..], x, q);
      AroundKeep(p, x, q);
    }
  }

  /** The step of `StripAroundRange` past a range in front. */
  lemma AroundSkip(p: string, x: string, q: string)
    requires |p| >= RANGE_LENGTH && IsTimestampRange(p[..RANGE_LENGTH])
    requires StripTimestamps(p[RANGE_LENGTH..] + x + q) == StripTimestamps(p[RANGE_LENGTH..]) + StripTimestamps(q)
    ensures StripTimestamps(p + x + q) == StripTimestamps(p) + StripTimestamps(q)
  {
    Assoc(p, x, q);
    SliceAppend(p, x + q, RANGE_LENGTH);
    Assoc(p[RANGE_LENGTH..], x, q);
  }

  /** The step of `StripAroundRange` past a kept character. */
  lemma AroundKeep(p: string, x: string, q: string)
    requires p != [] && IsTimestampRange(x)
    requires !(|p| >= RANGE_LENGTH && IsTimestampRange(p[..RANGE_LENGTH]))
    requires StripTimestamps(p[1..] + x + q) == StripTimestamps(p[1..]) + StripTimestamps(q)
    ensures StripTimestamps(p + x + q) == StripTimestamps(p) + StripTimestamps(q)
  {
    var s := p + x + q;
    Assoc(p, x, q);
    if |p| >= RANGE_LENGTH {
      SliceAppend(p, x + q, RANGE_LENGTH);
    } else {
      assert s[..RANGE_LENGTH][|p|] == x[0];
      BracketNotInRange(s[..RANGE_LENGTH], |p|);
    }
    SliceAppend(p, x + q, 1);
    Assoc(p[1..], x, q);
    Assoc([p[0]], StripTimestamps(p[1..]), StripTimestamps(q));
  }

  lemma Assoc(a: string, b: string, c: string)
    ensures a + b + c == a + (b + c)
  {
  }

  /** Cutting a concatenation inside its first part. */
  lemma SliceAppend(a: string, b: string, n: nat)
    requires n <= |a|
    ensures (a + b)[..n] == a[..n] && (a + b)[n..] == a[n..] + b
  {
  }

  /**
   * `cleanOutput`: the timestamp ranges removed, white-space runs collapsed
   * to one space, both ends trimmed.
   */
  function CleanOutput(output: string): (r: string)
    ensures Normal(r)
    ensures NonSpace(r) == NonSpace(StripTimestamps(output))
  {
    Normalize(StripTimestamps(output))
  }

  /** Output without ranges is only normalized. */
  lemma CleanWithoutRange(output: string)
    requires NoRange(output)
    ensures CleanOutput(output) == Normalize(output)
  {
    StripWithoutRange(output);
  }

  /** A range in the output goes, and the text on either side is stripped on its own. */
  lemma CleanDropsRange(p: string, x: string, q: string)
    requires IsTimestampRange(x)
    ensures CleanOutput(p + x + q) == Normalize(StripTimestamps(p) + StripTimestamps(q))
  {
    StripAroundRange(p, x, q);
  }

  /** Whether the recognizer process could be launched, and if so what it wrote and how it exited. */
  datatype WhisperOutcome = Closed(exitCode: int, stdout: string) | LaunchError

  /** The `transcription` event. */
  datatype Transcription = Transcription(text: string, audioFile: string, timestamp: int)

  /**
   * `runWhisper`'s promise: resolved with the cleaned standard output on any
   * exit code, rejected (None) only when the process cannot be launched.
   */
  function RunWhisper(o: WhisperOutcome): (r: Option<string>)
    ensures r.Some? <==> o.Closed?
    ensures r.Some? ==> Normal(r.value) && r.value == CleanOutput(o.stdout)
  {
    match o
    case Closed(_, stdout) => Some(CleanOutput(stdout))
    case LaunchError => None
  }

  /** The exit code does not matter. */
  lemma ExitCodeIgnored(code1: int, code2: int, stdout: string)
    ensures RunWhisper(Closed(code1, stdout)) == RunWhisper(Closed(code2, stdout))
  {
  }

  /**
   * What a finished job emits: an event exactly when the cleaned output is
   * not empty, carrying that cleaned output.
   */
  function Emission(filePath: string, o: WhisperOutcome, now: int): (r: Option<Transcription>)
    ensures r.Some? <==> o.Closed? && CleanOutput(o.stdout) != []
    ensures r.Some? ==> r.value == Transcription(CleanOutput(o.stdout), filePath, now)
  {
    match RunWhisper(o)
    case None => None
    case Some(text) =>
      NormalTrimmed(text);
      if |text| > 0 && |Trim(text)| > 0 then Some(Transcription(Trim(text), filePath, now)) else None
  }

  /** `filePath && fs.existsSync(filePath)`. */
  predicate Usable(filePath: string, files: set<string>)
  {
    filePath != "" && filePath in files
  }

  /** The queue once `processQueue` has skipped the entries it cannot use. */
  function DropUnusable(queue: seq<string>, files: set<string>): (r: seq<string>)
    ensures |r| <= |queue| && r == queue[|queue| - |r|..]
    ensures forall i | 0 <= i < |queue| - |r| :: !Usable(queue[i], files)
    ensures r != [] ==> Usable(r[0], files)
  {
    if queue == [] || Usable(queue[0], files) then queue
    else
      var r := DropUnusable(queue[1..], files);
      assert r == queue[|queue| - |r|..];
      assert forall i | 1 <= i < |queue| - |r| :: queue[i] == queue[1..][i - 1];
      r
  }

  class Transcriber {
    var queue: seq<string>
    var isProcessing: bool
    /** The path whose recognizer run `processQueue` is awaiting. */
    var inFlight: Option<string>
    /** Every path ever added, in order. */
    ghost var enqueued: seq<string>
    /** Every path ever taken off the queue, in order. */
    ghost var dequeued: seq<string>

    /** Paths leave in the order they arrived; at most one run, the last path taken, is awaited. */
    ghost predicate Coherent()
      reads this
    {
      && (isProcessing <==> inFlight.Some?)
      && enqueued == dequeued + queue
      && (inFlight.Some? ==> dequeued != [] && inFlight.value == dequeued[|dequeued| - 1])
    }

    /** Between events, moreover, paths wait only while a run is awaited: the queue never stalls. */
    ghost predicate Valid()
      reads this
    {
      Coherent() && (!isProcessing ==> queue == [])
    }

    constructor ()
      ensures Valid() && queue == [] && !isProcessing && enqueued == []
    {
      queue := [];
      isProcessing := false;
      inFlight := None;
      enqueued := [];
      dequeued := [];
    }

    /** `addToQueue`: append at the tail, then try to start. */
    method AddToQueue(filePath: string, files: set<string>) returns (started: Option<string>)
      requires Valid()
      modifies this
      ensures Valid() && enqueued == old(enqueued) + [filePath]
      ensures old(isProcessing) ==> queue == old(queue) + [filePath] && inFlight == old(inFlight) && started == None
      ensures !old(isProcessing) ==>
        && queue == []
        && started == (if Usable(filePath, files) then Some(filePath) else None)
        && inFlight == started
    {
      queue := queue + [filePath];
      enqueued := enqueued + [filePath];
      started := ProcessQueue(files);
    }

    /**
     * The synchronous part of `processQueue`: unless a run is awaited, take
     * the head; a head that is empty or missing on disk is dropped and the
     * next one tried; the first usable one is started.
     */
    method ProcessQueue(files: set<string>) returns (started: Option<string>)
      requires Coherent()
      modifies this
      ensures Valid() && enqueued == old(enqueued)
      ensures old(isProcessing) ==> queue == old(queue) && inFlight == old(inFlight) && started == None
      ensures !old(isProcessing) ==>
        var rest := DropUnusable(old(queue), files);
        && started == (if rest == [] then None else Some(rest[0]))
        && inFlight == started
        && queue == (if rest == [] then [] else rest[1..])
      decreases |queue|
    {
      if isProcessing || |queue| == 0 {
        return None;
      }
      isProcessing := true;
      var filePath := queue[0];
      queue := queue[1..];
      dequeued := dequeued + [filePath];
      if Usable(filePath, files) {
        inFlight := Some(filePath);
        started := Some(filePath);
      } else {
        isProcessing := false;
        started := ProcessQueue(files);
      }
    }

    /**
     * The continuation after the awaited run: emit the result if there is
     * text, delete the segment file, clear the flag and start the next path,
     * whatever the outcome was.
     */
    method Complete(outcome: WhisperOutcome, files: set<string>, now: int)
      returns (event: Option<Transcription>, remaining: set<string>, started: Option<string>)
      requires Valid() && inFlight.Some?
      modifies this
      ensures Valid() && enqueued == old(enqueued)
      ensures event == Emission(old(inFlight).value, outcome, now)
      ensures remaining == files - {old(inFlight).value}
      ensures var rest := DropUnusable(old(queue), remaining);
        && started == (if rest == [] then None else Some(rest[0]))
        && inFlight == started
        && queue == (if rest == [] then [] else rest[1..])
    {
      var filePath := inFlight.value;
      event := Emission(filePath, outcome, now);
      remaining := files - {filePath};
      started := Resume(remaining);
    }

    /** The `finally` of the awaited run: clear the flag and start the next path. */
    method Resume(files: set<string>) returns (started: Option<string>)
      requires Valid() && inFlight.Some?
      modifies this
      ensures Valid() && enqueued == old(enqueued)
      ensures var rest := DropUnusable(old(queue), files);
        && started == (if rest == [] then None else Some(rest[0]))
        && inFlight == started
        && queue == (if rest == [] then [] else rest[1..])
    {
      isProcessing := false;
      inFlight := None;
      started := ProcessQueue(files);
    }
  }

  /** A range is any two clock readings in the fixed frame. */
  lemma RangeOfClocks(from: string, to: string)
    requires IsClock(from) && IsClock(to)
    ensures IsTimestampRange("[" + from + " --> " + to + "]")
  {
    var range := "[" + from + " --> " + to + "]";
    assert range[1..13] == from && range[13..18] == " --> " && range[18..30] == to;
  }

  /** The range of the first second, as the recognizer prints it. */
  lemma ExampleRange()
    ensures IsTimestampRange("[" + "00:00:00.000" + " --> " + "00:00:01.000" + "]")
  {
    assert IsClock("00:00:00.000") && IsClock("00:00:01.000");
    RangeOfClocks("00:00:00.000", "00:00:01.000");
  }

  /**
   * A run that exits with any code, printing a range and one word amid white
   * space, emits that bare word.
   */
  lemma NonZeroExitStillTranscribes(code: int, lead: string, range: string, gap: string, word: string, trail: string,
                                    filePath: string, now: int)
    requires AllSpace(lead) && AllSpace(gap) && AllSpace(trail)
    requires IsTimestampRange(range)
    requires NoSpace(word) && word != [] && forall i | 0 <= i < |word| :: word[i] != '['
    ensures Emission(filePath, Closed(code, lead + range + gap + word + trail), now)
         == Some(Transcription(word, filePath, now))
  {
    CleanPaddedOutput(lead, range, gap, word, trail);
  }

  /** The range goes, the white space around the word goes, the word stays. */
  lemma CleanPaddedOutput(lead: string, range: string, gap: string, word: string, trail: string)
    requires AllSpace(lead) && AllSpace(gap) && AllSpace(trail)
    requires IsTimestampRange(range)
    requires NoSpace(word) && word != [] && forall i | 0 <= i < |word| :: word[i] != '['
    ensures CleanOutput(lead + range + gap + word + trail) == word
  {
    var rest := gap + word + trail;
    assert lead + range + gap + word + trail == lead + range + rest;
    NoBracketInPadded(gap, word, trail);
    StripSpacedRange(lead, range, rest);
    assert lead + rest == (lead + gap) + word + trail;
    AllSpaceAppend(lead, gap);
    NormalizePaddedWord(lead + gap, word, trail);
  }

  /** A range behind white space, followed by bracket-free text, is all that goes. */
  lemma StripSpacedRange(lead: string, range: string, rest: string)
    requires AllSpace(lead) && IsTimestampRange(range)
    requires forall i | 0 <= i < |rest| :: rest[i] != '['
    ensures StripTimestamps(lead + range + rest) == lead + rest
  {
    SpaceHasNoBracket(lead);
    StripRemovesRange(lead, range, rest);
    StripWithoutBracket(rest);
  }

  lemma SpaceHasNoBracket(s: string)
    requires AllSpace(s)
    ensures forall i | 0 <= i < |s| :: s[i] != '['
  {
    forall i | 0 <= i < |s|
      ensures s[i] != '['
    {
      assert IsSpace(s[i]);
    }
  }

  lemma NoBracketInPadded(gap: string, word: string, trail: string)
    requires AllSpace(gap) && AllSpace(trail)
    requires forall i | 0 <= i < |word| :: word[i] != '['
    ensures forall i | 0 <= i < |gap + word + trail| :: (gap + word + trail)[i] != '['
  {
    var s := gap + word + trail;
    SpaceHasNoBracket(gap);
    SpaceHasNoBracket(trail);
    forall i | 0 <= i < |s|
      ensures s[i] != '['
    {
      if i < |gap| {
        assert s[i] == gap[i];
      } else if i < |gap| + |word| {
        assert s[i] == word[i - |gap|];
      } else {
        assert s[i] == trail[i - |gap| - |word|];
      }
    }
  }

  lemma AllSpaceAppend(a: string, b: string)
    requires AllSpace(a) && AllSpace(b)
    ensures AllSpace(a + b)
  {
    forall i | 0 <= i < |a + b|
      ensures IsSpace((a + b)[i])
    {
      if i >= |a| {
        assert (a + b)[i] == b[i - |a|];
      }
    }
  }
}
