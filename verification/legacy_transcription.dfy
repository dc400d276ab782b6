/**
 * The compiled transcription queue that calls the recognizer library: the
 * same one-at-a-time FIFO as the current queue, but an empty path marks the
 * queue busy and nothing ever clears it; bracketed annotations are removed
 * from each result, and segment files are left on disk.
 */
module LegacyTranscription {
  import opened Wrappers
  import opened JsText

  /**
   * Where the lazy `.*?` of `/\[.*?\]/` stops, reading from just after a
   * `[`: the first `]`, provided no line terminator comes before it.
   */
  function FindClose(s: string): (r: Option<nat>)
    ensures r.Some? ==> r.value < |s| && s[r.value] == ']'
    ensures r.Some? ==> forall k | 0 <= k < r.value :: s[k] != ']' && !IsLineTerminator(s[k])
    ensures r.None? ==> forall k | 0 <= k < |s| && s[k] == ']' :: exists m | 0 <= m < k :: IsLineTerminator(s[m])
  {
    if s == [] then None
    else if s[0] == ']' then Some(0)
    else if IsLineTerminator(s[0]) then None
    else match FindClose(s[1..])
      case Some(k) => Some(k + 1)
      case None =>
        assert forall k | 1 <= k < |s| :: s[k] == s[1..][k - 1];
        None
  }

  /**
   * `text.replace(/\[.*?\]/g, '')`: from the left, a `[` with a closing `]`
   * on the same line is removed together with everything up to that `]`;
   * any other character is kept.
   */
  function StripBrackets(s: string): (r: string)
    ensures |r| <= |s|
    decreases |s|
  {
    if s == [] then []
    else if s[0] == '[' && FindClose(s[1..]).Some? then StripBrackets(s[FindClose(s[1..]).value + 2..])
    else [s[0]] + StripBrackets(s[1..])
  }

  /** A text that ends in a line break. */
  predicate EndsLine(p: string)
  {
    p != [] && IsLineTerminator(p[|p| - 1])
  }

  /** The search for `]` never reads past a line break, so what follows one does not matter. */
  lemma {:induction false} FindCloseAppend(p: string, q: string)
    requires EndsLine(p)
    ensures FindClose(p + q) == FindClose(p)
    decreases |p|
  {
    assert (p + q)[0] == p[0];
    if p[0] != ']' && !IsLineTerminator(p[0]) {
      var rest := p[1..];
      assert rest[|rest| - 1] == p[|p| - 1];
      assert (p + q)[1..] == rest + q;
      FindCloseAppend(rest, q);
    }
  }

  lemma ConsAssoc(c: char, x: string, y: string)
    ensures [c] + (x + y) == [c] + x + y
  {
  }

  lemma DropAppend(a: string, b: string, n: nat)
    requires n <= |a|
    ensures (a + b)[n..] == a[n..] + b
  {
  }

  /** Annotations never span a line break, so lines are cleaned independently. */
  lemma {:induction false} StripBracketsLines(p: string, q: string)
    requires p == [] || EndsLine(p)
    ensures StripBrackets(p + q) == StripBrackets(p) + StripBrackets(q)
    decreases |p|
  {
    if p == [] {
      assert p + q == q;
    } else if p[0] == '[' && FindClose(p[1..]).Some? {
      var k := FindClose(p[1..]).value;
      AnnotationInLine(p, k);
      StripBracketsLines(p[k + 2..], q);
      LinesSkip(p, q, k);
    } else {
      var rest := p[1..];
      if rest != [] {
        assert rest[|rest| - 1] == p[|p| - 1];
      }
      StripBracketsLines(rest, q);
      LinesKeep(p, q);
    }
  }

  /** An annotation at the front of a text ending in a line break ends before that break. */
  lemma AnnotationInLine(p: string, k: nat)
    requires EndsLine(p) && p[0] == '[' && FindClose(p[1..]) == Some(k)
    ensures k + 2 < |p| && EndsLine(p[k + 2..])
  {
    var rest := p[1..];
    assert rest[|rest| - 1] == p[|p| - 1];
    var after := p[k + 2..];
    assert after[|after| - 1] == p[|p| - 1];
  }

  /** The step of `StripBracketsLines` past an annotation. */
  lemma LinesSkip(p: string, q: string, k: nat)
    requires EndsLine(p) && p[0] == '[' && FindClose(p[1..]) == Some(k) && k + 2 < |p|
    requires StripBrackets(p[k + 2..] + q) == StripBrackets(p[k + 2..]) + StripBrackets(q)
    ensures StripBrackets(p + q) == StripBrackets(p) + StripBrackets(q)
  {
    var rest := p[1..];
    assert rest[|rest| - 1] == p[|p| - 1];
    FindCloseAppend(rest, q);
    assert (p + q)[0] == p[0];
    DropAppend(p, q, 1);
    DropAppend(p, q, k + 2);
  }

  /** The step of `StripBracketsLines` past a kept character. */
  lemma LinesKeep(p: string, q: string)
    requires EndsLine(p) && !(p[0] == '[' && FindClose(p[1..]).Some?)
    requires StripBrackets(p[1..] + q) == StripBrackets(p[1..]) + StripBrackets(q)
    ensures StripBrackets(p + q) == StripBrackets(p) + StripBrackets(q)
  {
    var rest := p[1..];
    if rest != [] {
      assert rest[|rest| - 1] == p[|p| - 1];
      FindCloseAppend(rest, q);
    }
    assert (p + q)[0] == p[0];
    DropAppend(p, q, 1);
    ConsAssoc(p[0], StripBrackets(rest), StripBrackets(q));
  }

  /** The pattern matches at `i`: a `[` followed, on its own line, by a `]`. */
  predicate OpensAnnotation(t: string, i: int)
    requires 0 <= i < |t|
  {
    t[i] == '[' && FindClose(t[i + 1..]).Some?
  }

  /** Nothing left for the pattern to match. */
  predicate NoBracketPair(t: string)
  {
    forall i | 0 <= i < |t| :: !OpensAnnotation(t, i)
  }

  /** Removing annotations cannot bring a `]` forward before the first line break. */
  lemma {:induction false} StripKeepsNoClose(s: string)
    requires FindClose(s).None?
    ensures FindClose(StripBrackets(s)).None?
    decreases |s|
  {
    if s != [] && !IsLineTerminator(s[0]) {
      var t := StripBrackets(s[1..]);
      assert FindClose(s[1..]).None?;
      StripKeepsNoClose(s[1..]);
      assert StripBrackets(s) == [s[0]] + t;
      assert ([s[0]] + t)[1..] == t;
    }
  }

  /** After one pass nothing matching the pattern is left. */
  lemma {:induction false} StripLeavesNoPair(s: string)
    ensures NoBracketPair(StripBrackets(s))
    decreases |s|
  {
    if s == [] {
    } else if s[0] == '[' && FindClose(s[1..]).Some? {
      StripLeavesNoPair(s[FindClose(s[1..]).value + 2..]);
    } else {
      var t := StripBrackets(s[1..]);
      var r := [s[0]] + t;
      assert StripBrackets(s) == r;
      StripLeavesNoPair(s[1..]);
      forall i | 0 <= i < |r|
        ensures !OpensAnnotation(r, i)
      {
        if i == 0 {
          assert r[1..] == t;
          if r[0] == '[' {
            StripKeepsNoClose(s[1..]);
          }
        } else {
          assert r[i] == t[i - 1];
          assert r[i + 1..] == t[i..];
          assert !OpensAnnotation(t, i - 1);
        }
      }
    }
  }

  /** Cutting a text short cannot create a match. */
  lemma {:induction false} FindClosePrefix(s: string, n: nat)
    requires FindClose(s).None? && n <= |s|
    ensures FindClose(s[..n]).None?
    decreases n
  {
    if n > 0 && s[0] != ']' && !IsLineTerminator(s[0]) {
      assert s[..n][1..] == s[1..][..n - 1];
      FindClosePrefix(s[1..], n - 1);
    }
  }

  lemma NoBracketPairSlice(t: string, lo: nat, hi: nat)
    requires NoBracketPair(t) && lo <= hi <= |t|
    ensures NoBracketPair(t[lo..hi])
  {
    var u := t[lo..hi];
    forall i | 0 <= i < |u|
      ensures !OpensAnnotation(u, i)
    {
      assert u[i] == t[lo + i];
      if u[i] == '[' {
        assert !OpensAnnotation(t, lo + i);
        assert u[i + 1..] == t[lo + i + 1..][..hi - (lo + i + 1)];
        FindClosePrefix(t[lo + i + 1..], hi - (lo + i + 1));
      }
    }
  }

  /** Trimming cannot create a match. */
  lemma TrimKeepsNoPair(x: string)
    requires NoBracketPair(x)
    ensures NoBracketPair(Trim(x))
  {
    TrimStartKeepsNoPair(x);
    TrimEndKeepsNoPair(TrimStart(x));
  }

  lemma TrimStartKeepsNoPair(x: string)
    requires NoBracketPair(x)
    ensures NoBracketPair(TrimStart(x))
  {
    var t := TrimStart(x);
    TrimStartSuffix(x);
    NoBracketPairSlice(x, |x| - |t|, |x|);
    assert x[|x| - |t|..|x|] == t;
  }

  lemma TrimEndKeepsNoPair(t: string)
    requires NoBracketPair(t)
    ensures NoBracketPair(TrimEnd(t))
  {
    var r := TrimEnd(t);
    TrimEndPrefix(t);
    NoBracketPairSlice(t, 0, |r|);
    assert t[0..|r|] == r;
  }

  /** `cleanText`: annotations removed, then trimmed. */
  function CleanText(text: string): (r: string)
    ensures r == [] || (!IsSpace(r[0]) && !IsSpace(r[|r| - 1]))
    ensures NoBracketPair(r)
    ensures NonSpace(r) == NonSpace(StripBrackets(text))
    ensures var t := StripBrackets(text);
      exists lo, hi | 0 <= lo <= hi <= |t| :: r == t[lo..hi] && AllSpace(t[..lo]) && AllSpace(t[hi..])
  {
    var stripped := StripBrackets(text);
    StripLeavesNoPair(text);
    TrimKeepsNoPair(stripped);
    Trim(stripped)
  }

  /** A bracketed annotation behind bracket-free text goes, and the text before it stays. */
  lemma {:induction false} StripRemovesAnnotation(prefix: string, note: string, rest: string)
    requires forall i | 0 <= i < |prefix| :: prefix[i] != '['
    requires forall i | 0 <= i < |note| :: note[i] != ']' && !IsLineTerminator(note[i])
    ensures StripBrackets(prefix + "[" + note + "]" + rest) == prefix + StripBrackets(rest)
    decreases |prefix|
  {
    var s := prefix + "[" + note + "]" + rest;
    if prefix == [] {
      assert s == "[" + note + "]" + rest;
      StripAnnotationAhead(note, rest);
    } else {
      assert s[0] == prefix[0];
      assert s[1..] == prefix[1..] + "[" + note + "]" + rest;
      StripKeepsPlain(s);
      StripRemovesAnnotation(prefix[1..], note, rest);
      assert [prefix[0]] + prefix[1..] == prefix;
    }
  }

  /** An annotation at the scan position is removed whole. */
  lemma StripAnnotationAhead(note: string, rest: string)
    requires forall i | 0 <= i < |note| :: note[i] != ']' && !IsLineTerminator(note[i])
    ensures StripBrackets("[" + note + "]" + rest) == StripBrackets(rest)
  {
    var s := "[" + note + "]" + rest;
    assert s[1..] == note + "]" + rest;
    FindCloseAfter(note, rest);
    assert s[|note| + 2..] == rest;
  }

  /** A character other than `[` is kept and the scan moves on by one. */
  lemma StripKeepsPlain(s: string)
    requires s != [] && s[0] != '['
    ensures StripBrackets(s) == [s[0]] + StripBrackets(s[1..])
  {
  }

  lemma {:induction false} FindCloseAfter(note: string, rest: string)
    requires forall i | 0 <= i < |note| :: note[i] != ']' && !IsLineTerminator(note[i])
    ensures FindClose(note + "]" + rest) == Some(|note|)
    decreases |note|
  {
    if note == [] {
      assert (note + "]" + rest)[0] == ']';
    } else {
      assert (note + "]" + rest)[1..] == note[1..] + "]" + rest;
      FindCloseAfter(note[1..], rest);
    }
  }

  /** Text without a `[` is only trimmed. */
  lemma {:induction false} StripWithoutBracket(s: string)
    requires forall i | 0 <= i < |s| :: s[i] != '['
    ensures StripBrackets(s) == s
    decreases |s|
  {
    if s != [] {
      StripKeepsPlain(s);
      StripWithoutBracket(s[1..]);
    }
  }

  /** Text in which no `[` has a `]` after it on its line is left as it is. */
  lemma {:induction false} StripWithoutPair(s: string)
    requires NoBracketPair(s)
    ensures StripBrackets(s) == s
    decreases |s|
  {
    if s != [] {
      var tail := s[1..];
      assert !OpensAnnotation(s, 0);
      assert s[1..] == tail;
      forall i | 0 <= i < |tail|
        ensures !OpensAnnotation(tail, i)
      {
        assert !OpensAnnotation(s, i + 1);
        assert tail[i] == s[i + 1];
        assert tail[i + 1..] == s[i + 2..];
      }
      StripWithoutPair(tail);
      assert [s[0]] + tail == s;
    }
  }

  /** A `[` never closed on its line, such as a cut-off `[inaudible`, stays with what follows it. */
  lemma UnclosedBracketKept()
    ensures StripBrackets("a[b") == "a[b"
  {
    var s := "a[b";
    forall i | 0 <= i < |s|
      ensures !OpensAnnotation(s, i)
    {
      if i == 1 {
        assert s[2..] == "b";
        assert FindClose("b"[1..]) == None;
      }
    }
    StripWithoutPair(s);
  }

  /** What the recognizer library's promise settles with. */
  datatype NodeResult =
    | Empty                                /** `null` or `undefined` */
    | Text(s: string)                      /** a string */
    | Segments(count: nat, json: string)   /** an array, with its `JSON.stringify` text */

  datatype NodeOutcome = Resolved(result: NodeResult) | Rejected

  datatype Transcription = Transcription(text: string, audioFile: string, timestamp: int)

  /** The text handed to `cleanText`, if the result is non-empty. */
  function ResultText(result: NodeResult): (r: Option<string>)
    ensures r.Some? <==> (result.Text? && result.s != []) || (result.Segments? && result.count > 0)
    ensures r.Some? ==> r.value == (if result.Text? then result.s else result.json)
  {
    match result
    case Empty => None
    case Text(s) => if |s| > 0 then Some(s) else None
    case Segments(n, json) => if n > 0 then Some(json) else None
  }

  /** What a finished job emits: an event exactly when the cleaned text is not empty. */
  function Emission(filePath: string, o: NodeOutcome, now: int): (r: Option<Transcription>)
    ensures r.Some? <==> o.Resolved? && ResultText(o.result).Some? && CleanText(ResultText(o.result).value) != []
    ensures r.Some? ==> r.value == Transcription(CleanText(ResultText(o.result).value), filePath, now)
  {
    if o.Rejected? then None
    else match ResultText(o.result)
      case None => None
      case Some(text) =>
        var clean := CleanText(text);
        if clean != [] then Some(Transcription(clean, filePath, now)) else None
  }

  class Transcriber {
    var queue: seq<string>
    var isProcessing: bool
    /** The path whose recognizer call `processQueue` is awaiting. */
    var inFlight: Option<string>
    /** Every path ever added, in order. */
    ghost var enqueued: seq<string>
    /** Every path ever taken off the queue, in order. */
    ghost var dequeued: seq<string>

    /** Paths leave in the order they arrived; an awaited call is for the last path taken. */
    ghost predicate Coherent()
      reads this
    {
      && (inFlight.Some? ==> isProcessing)
      && enqueued == dequeued + queue
      && (inFlight.Some? ==> dequeued != [] && inFlight.value == dequeued[|dequeued| - 1])
    }

    /** Between events, paths wait only while the queue is busy. */
    ghost predicate Valid()
      reads this
    {
      Coherent() && (!isProcessing ==> queue == [])
    }

    /** Busy with nothing awaited: only an empty path leads here, and nothing leads out. */
    predicate Stalled()
      reads this
    {
      isProcessing && inFlight.None?
    }

    constructor ()
      ensures Valid() && queue == [] && !isProcessing && !Stalled() && enqueued == []
    {
      queue := [];
      isProcessing := false;
      inFlight := None;
      enqueued := [];
      dequeued := [];
    }

    /** `addToQueue`: append at the tail, then try to start. */
    method AddToQueue(filePath: string) returns (started: Option<string>)
      requires Valid()
      modifies this
      ensures Valid() && enqueued == old(enqueued) + [filePath]
      ensures old(isProcessing) ==> queue == old(queue) + [filePath] && inFlight == old(inFlight) && started == None
      ensures !old(isProcessing) ==>
        && queue == [] && isProcessing
        && started == (if filePath != "" then Some(filePath) else None)
        && inFlight == started
      ensures old(Stalled()) ==> Stalled()
      ensures Stalled() <==> old(Stalled()) || (!old(isProcessing) && filePath == "")
    {
      queue := queue + [filePath];
      enqueued := enqueued + [filePath];
      started := ProcessQueue();
    }

    /**
     * The synchronous part of `processQueue`: unless busy, take the head and
     * mark the queue busy; a non-empty path is started, an empty one is not,
     * and the busy mark stays.
     */
    method ProcessQueue() returns (started: Option<string>)
      requires Coherent()
      modifies this
      ensures Coherent() && enqueued == old(enqueued)
      ensures old(isProcessing) || old(queue) == [] ==>
        queue == old(queue) && isProcessing == old(isProcessing) && inFlight == old(inFlight) && started == None
      ensures !old(isProcessing) && old(queue) != [] ==>
        && queue == old(queue)[1..] && isProcessing
        && started == (if old(queue)[0] != "" then Some(old(queue)[0]) else None)
        && inFlight == started
    {
      if isProcessing || |queue| == 0 {
        return None;
      }
      isProcessing := true;
      var filePath := queue[0];
      queue := queue[1..];
      dequeued := dequeued + [filePath];
      if filePath != "" {
        inFlight := Some(filePath);
        started := Some(filePath);
      } else {
        started := None;
      }
    }

    /**
     * The continuation after the awaited call: emit the cleaned result if
     * there is one, clear the busy mark and start the next path.
     */
    method Complete(outcome: NodeOutcome, now: int) returns (event: Option<Transcription>, started: Option<string>)
      requires Valid() && inFlight.Some?
      modifies this
      ensures Valid() && enqueued == old(enqueued)
      ensures event == Emission(old(inFlight).value, outcome, now)
      ensures old(queue) == [] ==> queue == [] && !isProcessing && inFlight == None && started == None
      ensures old(queue) != [] ==>
        && queue == old(queue)[1..] && isProcessing
        && started == (if old(queue)[0] != "" then Some(old(queue)[0]) else None)
        && inFlight == started
    {
      var filePath := inFlight.value;
      event := None;
      if outcome.Resolved? {
        var text := ResultText(outcome.result);
        if text.Some? {
          var clean := CleanText(text.value);
          if clean != [] {
            event := Some(Transcription(clean, filePath, now));
          }
        }
      }
      isProcessing := false;
      inFlight := None;
      started := ProcessQueue();
    }
  }

  /** A result that is only an annotation, such as `[BLANK_AUDIO]`, emits nothing. */
  lemma AnnotationOnlyEmitsNothing(note: string, filePath: string, now: int)
    requires forall i | 0 <= i < |note| :: note[i] != ']' && !IsLineTerminator(note[i])
    ensures Emission(filePath, Resolved(Text("[" + note + "]")), now) == None
  {
    var text := "[" + note + "]";
    StripRemovesAnnotation("", note, "");
    assert "" + "[" + note + "]" + "" == text;
    assert StripBrackets(text) == [];
    assert CleanText(text) == [];
    assert ResultText(Text(text)) == Some(text);
  }

  /** An empty path stalls the queue: later paths are queued and never started. */
  method EmptyPathStallsQueue(t: Transcriber, later: string) returns (first: Option<string>, second: Option<string>)
    requires t.Valid() && !t.isProcessing
    modifies t
    ensures first == None && second == None
    ensures t.Stalled() && t.queue == [later]
  {
    first := t.AddToQueue("");
    second := t.AddToQueue(later);
  }
}
