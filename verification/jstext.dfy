/**
 * The JavaScript string operations the transcript cleaners use: the `\s`
 * character class, `String.prototype.trim`, and `replace(/\s+/g, ' ')`.
 */
module JsText {

  /** ECMAScript LineTerminator: the characters `.` in a regular expression does not match. */
  predicate IsLineTerminator(c: char)
  {
    c == '\n' || c == '\r' || c == '\U{2028}' || c == '\U{2029}'
  }

  /** ECMAScript WhiteSpace or LineTerminator: what `\s` matches and `trim()` removes. */
  predicate IsSpace(c: char)
  {
    || IsLineTerminator(c)
    || c == '\t' || c == '\U{000B}' || c == '\U{000C}' || c == ' ' || c == '\U{00A0}'
    || c == '\U{1680}' || ('\U{2000}' <= c <= '\U{200A}') || c == '\U{202F}' || c == '\U{205F}'
    || c == '\U{3000}' || c == '\U{FEFF}'
  }

  /** The characters of `s` that are not white space, in order. */
  function NonSpace(s: string): string
  {
    if s == [] then [] else (if IsSpace(s[0]) then [] else [s[0]]) + NonSpace(s[1..])
  }

  lemma {:induction false} NonSpaceAppend(a: string, b: string)
    ensures NonSpace(a + b) == NonSpace(a) + NonSpace(b)
  {
    if a == [] {
      assert a + b == b;
    } else {
      assert (a + b)[1..] == a[1..] + b;
      NonSpaceAppend(a[1..], b);
    }
  }

  /** Drops the leading white space. */
  function TrimStart(s: string): (r: string)
    ensures |r| <= |s|
    ensures r != [] ==> !IsSpace(r[0])
  {
    if s != [] && IsSpace(s[0]) then TrimStart(s[1..]) else s
  }

  /** Drops the trailing white space. */
  function TrimEnd(s: string): (r: string)
    ensures |r| <= |s|
    ensures r != [] ==> !IsSpace(r[|r| - 1])
  {
    if s != [] && IsSpace(s[|s| - 1]) then TrimEnd(s[..|s| - 1]) else s
  }

  /** What `TrimStart` keeps is a suffix, and everything in front of it is white space. */
  lemma {:induction false} TrimStartSuffix(s: string)
    ensures var r := TrimStart(s); r == s[|s| - |r|..] && forall i | 0 <= i < |s| - |r| :: IsSpace(s[i])
    decreases |s|
  {
    if s != [] && IsSpace(s[0]) {
      TrimStartSuffix(s[1..]);
      var r := TrimStart(s);
      forall i | 0 <= i < |s| - |r|
        ensures IsSpace(s[i])
      {
        if i > 0 {
          assert s[i] == s[1..][i - 1];
        }
      }
    }
  }

  /** What `TrimEnd` keeps is a prefix, and everything behind it is white space. */
  lemma {:induction false} TrimEndPrefix(s: string)
    ensures var r := TrimEnd(s); r == s[..|r|] && forall i | |r| <= i < |s| :: IsSpace(s[i])
    decreases |s|
  {
    if s != [] && IsSpace(s[|s| - 1]) {
      TrimEndPrefix(s[..|s| - 1]);
      var r := TrimEnd(s);
      forall i | |r| <= i < |s|
        ensures IsSpace(s[i])
      {
        if i < |s| - 1 {
          assert s[i] == s[..|s| - 1][i];
        }
      }
    }
  }

  /** Only white space is dropped at the front. */
  lemma {:induction false} TrimStartNonSpace(s: string)
    ensures NonSpace(TrimStart(s)) == NonSpace(s)
    decreases |s|
  {
    if s != [] && IsSpace(s[0]) {
      TrimStartNonSpace(s[1..]);
    }
  }

  /** Only white space is dropped at the back. */
  lemma {:induction false} TrimEndNonSpace(s: string)
    ensures NonSpace(TrimEnd(s)) == NonSpace(s)
    decreases |s|
  {
    if s != [] && IsSpace(s[|s| - 1]) {
      var init := s[..|s| - 1];
      assert s == init + [s[|s| - 1]];
      NonSpaceAppend(init, [s[|s| - 1]]);
      TrimEndNonSpace(init);
    }
  }

  /**
   * `String.prototype.trim`: no white space at either end, and what lies
   * between the first and the last non-space character kept as it is.
   */
  function Trim(s: string): (r: string)
    ensures r == [] || (!IsSpace(r[0]) && !IsSpace(r[|r| - 1]))
    ensures NonSpace(r) == NonSpace(s)
    ensures exists lo, hi | 0 <= lo <= hi <= |s| :: r == s[lo..hi] && AllSpace(s[..lo]) && AllSpace(s[hi..])
  {
    TrimStartSuffix(s);
    TrimEndPrefix(TrimStart(s));
    Interior(s, TrimStart(s), TrimEnd(TrimStart(s)));
    TrimStartNonSpace(s);
    TrimEndNonSpace(TrimStart(s));
    TrimEnd(TrimStart(s))
  }

  /**
   * A text that keeps a suffix of `s` past leading white space, and then a
   * prefix of that past trailing white space, is a slice of `s` with only
   * white space around it.
   */
  lemma {:induction false} Interior(s: string, t: string, r: string)
    requires |t| <= |s| && t == s[|s| - |t|..] && forall i | 0 <= i < |s| - |t| :: IsSpace(s[i])
    requires |r| <= |t| && r == t[..|r|] && forall i | |r| <= i < |t| :: IsSpace(t[i])
    ensures exists lo, hi | 0 <= lo <= hi <= |s| :: r == s[lo..hi] && AllSpace(s[..lo]) && AllSpace(s[hi..])
  {
    var lo := |s| - |t|;
    var hi := lo + |r|;
    assert r == s[lo..hi];
    forall i | 0 <= i < lo
      ensures IsSpace(s[..lo][i])
    {
      assert s[..lo][i] == s[i];
    }
    forall i | 0 <= i < |s| - hi
      ensures IsSpace(s[hi..][i])
    {
      assert s[hi..][i] == t[|r| + i];
    }
  }

  /** White space at `i` and again at `i + 1`. */
  predicate SpacePair(s: string, i: int)
    requires 0 <= i && i + 1 < |s|
  {
    IsSpace(s[i]) && IsSpace(s[i + 1])
  }

  /** White space at `i`, if any, is a plain space. */
  predicate PlainSpace(s: string, i: int)
    requires 0 <= i < |s|
  {
    IsSpace(s[i]) ==> s[i] == ' '
  }

  /** Every white-space character is a plain space and none is followed by another. */
  predicate Collapsed(s: string)
  {
    && (forall i | 0 <= i < |s| :: PlainSpace(s, i))
    && (forall i | 0 <= i < |s| - 1 :: !SpacePair(s, i))
  }

  lemma NonSpaceCons(c: char, rest: string)
    ensures NonSpace([c] + rest) == (if IsSpace(c) then [] else [c]) + NonSpace(rest)
  {
    assert ([c] + rest)[1..] == rest;
  }

  lemma CollapsedCons(c: char, rest: string)
    requires Collapsed(rest)
    requires IsSpace(c) ==> c == ' ' && (rest == [] || !IsSpace(rest[0]))
    ensures Collapsed([c] + rest)
  {
    var t := [c] + rest;
    forall i | 0 <= i < |t|
      ensures PlainSpace(t, i)
    {
      if i > 0 {
        assert t[i] == rest[i - 1];
        assert PlainSpace(rest, i - 1);
      }
    }
    forall i | 0 <= i < |t| - 1
      ensures !SpacePair(t, i)
    {
      assert t[i + 1] == rest[i];
      if i > 0 {
        assert t[i] == rest[i - 1];
        assert !SpacePair(rest, i - 1);
      }
    }
  }

  /** `s.replace(/\s+/g, ' ')`: each maximal run of white space becomes a single space. */
  function CollapseSpaces(s: string): (r: string)
    ensures s != [] ==> r != [] && (if IsSpace(s[0]) then r[0] == ' ' else r[0] == s[0])
    decreases |s|
  {
    if s == [] then []
    else if IsSpace(s[0]) then [' '] + CollapseSpaces(TrimStart(s[1..]))
    else [s[0]] + CollapseSpaces(s[1..])
  }

  /** The collapsed text has only single plain spaces, and the same non-space characters in order. */
  lemma {:induction false} CollapseSpacesShape(s: string)
    ensures Collapsed(CollapseSpaces(s))
    ensures NonSpace(CollapseSpaces(s)) == NonSpace(s)
    decreases |s|
  {
    if s != [] {
      NonSpaceCons(s[0], s[1..]);
      assert [s[0]] + s[1..] == s;
      if IsSpace(s[0]) {
        var t := TrimStart(s[1..]);
        var rest := CollapseSpaces(t);
        CollapseSpacesShape(t);
        TrimStartNonSpace(s[1..]);
        NonSpaceCons(' ', rest);
        CollapsedCons(' ', rest);
      } else {
        var rest := CollapseSpaces(s[1..]);
        CollapseSpacesShape(s[1..]);
        NonSpaceCons(s[0], rest);
        CollapsedCons(s[0], rest);
      }
    }
  }

  /** Trimmed, and collapsed: the shape of every cleaned transcript. */
  predicate Normal(s: string)
  {
    Collapsed(s) && (s == [] || (!IsSpace(s[0]) && !IsSpace(s[|s| - 1])))
  }

  lemma CollapsedSlice(s: string, lo: nat, hi: nat)
    requires Collapsed(s) && lo <= hi <= |s|
    ensures Collapsed(s[lo..hi])
  {
    var t := s[lo..hi];
    forall i | 0 <= i < |t|
      ensures PlainSpace(t, i)
    {
      assert t[i] == s[lo + i];
      assert PlainSpace(s, lo + i);
    }
    forall i | 0 <= i < |t| - 1
      ensures !SpacePair(t, i)
    {
      assert t[i] == s[lo + i] && t[i + 1] == s[lo + i + 1];
      assert !SpacePair(s, lo + i);
    }
  }

  /** Trimming a collapsed string leaves it collapsed. */
  lemma TrimCollapsed(c: string)
    requires Collapsed(c)
    ensures Normal(TrimEnd(TrimStart(c)))
  {
    var t := TrimStart(c);
    TrimStartCollapsed(c);
    var r := TrimEnd(t);
    TrimEndCollapsed(t);
    if r != [] {
      TrimEndPrefix(t);
      assert r[0] == t[0];
    }
  }

  lemma TrimStartCollapsed(c: string)
    requires Collapsed(c)
    ensures Collapsed(TrimStart(c))
  {
    var t := TrimStart(c);
    TrimStartSuffix(c);
    CollapsedSlice(c, |c| - |t|, |c|);
    assert c[|c| - |t|..|c|] == t;
  }

  lemma TrimEndCollapsed(t: string)
    requires Collapsed(t)
    ensures Collapsed(TrimEnd(t))
  {
    var r := TrimEnd(t);
    TrimEndPrefix(t);
    CollapsedSlice(t, 0, |r|);
    assert t[0..|r|] == r;
  }

  /** `replace(/\s+/g, ' ')` followed by `trim()`. */
  function Normalize(s: string): (r: string)
    ensures Normal(r)
    ensures NonSpace(r) == NonSpace(s)
  {
    var c := CollapseSpaces(s);
    CollapseSpacesShape(s);
    TrimCollapsed(c);
    TrimStartNonSpace(c);
    TrimEndNonSpace(TrimStart(c));
    TrimEnd(TrimStart(c))
  }

  lemma {:induction false} CollapsedIsFixed(s: string)
    requires Collapsed(s)
    ensures CollapseSpaces(s) == s
    decreases |s|
  {
    if s != [] {
      var tail := s[1..];
      CollapsedSlice(s, 1, |s|);
      assert s[1..|s|] == tail;
      CollapsedIsFixed(tail);
      if IsSpace(s[0]) {
        assert tail != [] ==> !IsSpace(tail[0]) by {
          if tail != [] {
            assert tail[0] == s[1];
            assert !SpacePair(s, 0);
          }
        }
        assert TrimStart(tail) == tail;
        assert PlainSpace(s, 0);
      }
      assert CollapseSpaces(s) == [s[0]] + tail;
      assert [s[0]] + tail == s;
    }
  }

  /** An already normal string is left as it is. */
  lemma NormalIsFixed(s: string)
    requires Normal(s)
    ensures Normalize(s) == s
  {
    CollapsedIsFixed(s);
    assert TrimStart(s) == s;
    assert TrimEnd(s) == s;
  }

  /** Cleaning twice is cleaning once. */
  lemma NormalizeIdempotent(s: string)
    ensures Normalize(Normalize(s)) == Normalize(s)
  {
    NormalIsFixed(Normalize(s));
  }

  /** A normal string has nothing for `trim()` to remove. */
  lemma NormalTrimmed(s: string)
    requires Normal(s)
    ensures Trim(s) == s
  {
    assert TrimStart(s) == s;
    assert TrimEnd(s) == s;
  }

  predicate AllSpace(s: string)
  {
    forall i | 0 <= i < |s| :: IsSpace(s[i])
  }

  predicate NoSpace(s: string)
  {
    forall i | 0 <= i < |s| :: !IsSpace(s[i])
  }

  lemma {:induction false} TrimStartSpaces(sp: string, x: string)
    requires AllSpace(sp) && (x == [] || !IsSpace(x[0]))
    ensures TrimStart(sp + x) == x
    decreases |sp|
  {
    if sp == [] {
      assert sp + x == x;
    } else {
      assert (sp + x)[1..] == sp[1..] + x;
      TrimStartSpaces(sp[1..], x);
    }
  }

  lemma {:induction false} TrimEndSpaces(x: string, sp: string)
    requires AllSpace(sp) && (x == [] || !IsSpace(x[|x| - 1]))
    ensures TrimEnd(x + sp) == x
    decreases |sp|
  {
    if sp == [] {
      assert x + sp == x;
    } else {
      var init := sp[..|sp| - 1];
      assert (x + sp)[..|x + sp| - 1] == x + init;
      TrimEndSpaces(x, init);
    }
  }

  /** What a white-space run becomes once collapsed: nothing if it is empty, else one space. */
  function Pad(sp: string): string
  {
    if sp == [] then [] else " "
  }

  lemma PadIsSpace(sp: string)
    ensures AllSpace(Pad(sp))
  {
    if sp != [] {
      assert IsSpace(" "[0]);
    }
  }

  lemma {:induction false} CollapseWordThenSpaces(w: string, sp: string)
    requires NoSpace(w) && AllSpace(sp)
    ensures CollapseSpaces(w + sp) == w + Pad(sp)
    decreases |w|
  {
    if w == [] {
      assert w + sp == sp;
      if sp != [] {
        assert sp[1..] + [] == sp[1..];
        TrimStartSpaces(sp[1..], []);
      }
    } else {
      assert (w + sp)[1..] == w[1..] + sp;
      CollapseWordThenSpaces(w[1..], sp);
    }
  }

  lemma CollapsePaddedWord(pre: string, w: string, post: string)
    requires AllSpace(pre) && AllSpace(post) && NoSpace(w) && w != []
    ensures CollapseSpaces(pre + w + post) == Pad(pre) + w + Pad(post)
  {
    CollapseWordThenSpaces(w, post);
    assert pre + w + post == pre + (w + post);
    if pre == [] {
      assert pre + (w + post) == w + post;
    } else {
      assert (w + post)[0] == w[0];
      CollapseLeadingSpaces(pre, w + post);
    }
  }

  /** A non-empty white-space run in front of a non-space collapses to one space. */
  lemma CollapseLeadingSpaces(sp: string, x: string)
    requires AllSpace(sp) && sp != [] && (x == [] || !IsSpace(x[0]))
    ensures CollapseSpaces(sp + x) == [' '] + CollapseSpaces(x)
  {
    var s := sp + x;
    assert s[0] == sp[0];
    assert s[1..] == sp[1..] + x;
    TrimStartSpaces(sp[1..], x);
  }

  lemma TrimPadded(pre: string, w: string, post: string)
    requires NoSpace(w) && w != []
    ensures TrimEnd(TrimStart(Pad(pre) + w + Pad(post))) == w
  {
    PadIsSpace(pre);
    PadIsSpace(post);
    assert !IsSpace(w[0]) && !IsSpace(w[|w| - 1]);
    assert Pad(pre) + w + Pad(post) == Pad(pre) + (w + Pad(post));
    assert (w + Pad(post))[0] == w[0];
    TrimStartSpaces(Pad(pre), w + Pad(post));
    TrimEndSpaces(w, Pad(post));
  }

  /** Once a non-space character has been reached, nothing further is removed. */
  lemma {:induction false} TrimStartAppend(x: string, y: string)
    requires TrimStart(x) != []
    ensures TrimStart(x + y) == TrimStart(x) + y
    decreases |x|
  {
    assert (x + y)[0] == x[0];
    if IsSpace(x[0]) {
      assert (x + y)[1..] == x[1..] + y;
      TrimStartAppend(x[1..], y);
    }
  }

  lemma {:induction false} TrimEndPrepend(x: string, y: string)
    requires TrimEnd(y) != []
    ensures TrimEnd(x + y) == x + TrimEnd(y)
    decreases |y|
  {
    var s := x + y;
    assert s[|s| - 1] == y[|y| - 1];
    if IsSpace(y[|y| - 1]) {
      assert s[..|s| - 1] == x + y[..|y| - 1];
      TrimEndPrepend(x, y[..|y| - 1]);
    }
  }

  /** A text ending in a non-space character, after its leading white space. */
  lemma {:induction false} TrimStartKeepsLast(x: string)
    requires x != [] && !IsSpace(x[|x| - 1])
    ensures var t := TrimStart(x); t != [] && t[|t| - 1] == x[|x| - 1]
  {
    var t := TrimStart(x);
    TrimStartSuffix(x);
    assert t != [];
    assert t[|t| - 1] == x[|x| - |t|..][|t| - 1];
  }

  /** A stretch without white space is left as it is. */
  lemma {:induction false} CollapseWordPrefix(w: string, x: string)
    requires NoSpace(w)
    ensures CollapseSpaces(w + x) == w + CollapseSpaces(x)
    decreases |w|
  {
    if w == [] {
      assert w + x == x;
    } else {
      assert (w + x)[0] == w[0];
      assert (w + x)[1..] == w[1..] + x;
      CollapseWordPrefix(w[1..], x);
      assert [w[0]] + w[1..] == w;
    }
  }

  /** A word is its own collapse. */
  lemma {:induction false} CollapseWord(w: string)
    requires NoSpace(w)
    ensures CollapseSpaces(w) == w
  {
    CollapseWordPrefix(w, []);
    assert w + [] == w;
  }

  /** A non-space character is kept, and the rest collapses on its own. */
  lemma CollapseCons(c: char, x: string)
    requires !IsSpace(c)
    ensures CollapseSpaces([c] + x) == [c] + CollapseSpaces(x)
  {
    assert ([c] + x)[1..] == x;
  }

  /** A text ending in a non-space character is its leading white space followed by the rest. */
  lemma LeadingRun(a: string)
    requires a != [] && !IsSpace(a[|a| - 1])
    ensures var t := TrimStart(a); var e := a[..|a| - |t|];
      a == e + t && AllSpace(e) && t != [] && !IsSpace(t[0])
  {
    var t := TrimStart(a);
    TrimStartSuffix(a);
    TrimStartKeepsLast(a);
    var e := a[..|a| - |t|];
    assert a == e + t;
    forall i | 0 <= i < |e|
      ensures IsSpace(e[i])
    {
      assert e[i] == a[i];
    }
  }

  /**
   * Each white-space run becomes one space in place: a run between two
   * stretches of text turns into a single space, and the text on either side
   * collapses on its own.
   */
  lemma {:induction false} CollapseSpacesSplit(a: string, sp: string, b: string)
    requires a == [] || !IsSpace(a[|a| - 1])
    requires AllSpace(sp) && sp != []
    requires b == [] || !IsSpace(b[0])
    ensures CollapseSpaces(a + sp + b) == CollapseSpaces(a) + " " + CollapseSpaces(b)
    decreases |a|
  {
    if a == [] {
      assert a + sp + b == sp + b;
      CollapseLeadingSpaces(sp, b);
    } else if !IsSpace(a[0]) {
      var rest := a[1..];
      if rest != [] {
        assert rest[|rest| - 1] == a[|a| - 1];
      }
      CollapseSpacesSplit(rest, sp, b);
      SplitAfterChar(a[0], rest, sp, b);
      assert [a[0]] + rest == a;
    } else {
      var t := TrimStart(a);
      var e := a[..|a| - |t|];
      LeadingRun(a);
      assert t[|t| - 1] == a[|a| - 1];
      CollapseSpacesSplit(t, sp, b);
      SplitAfterRun(e, t, sp, b);
    }
  }

  lemma Regroup4(p: string, q: string, r: string, t: string)
    ensures p + q + r + t == p + (q + r + t)
  {
  }

  /** The step of `CollapseSpacesSplit` past one non-space character. */
  lemma SplitAfterChar(c: char, rest: string, sp: string, b: string)
    requires !IsSpace(c)
    requires CollapseSpaces(rest + sp + b) == CollapseSpaces(rest) + " " + CollapseSpaces(b)
    ensures CollapseSpaces([c] + rest + sp + b) == CollapseSpaces([c] + rest) + " " + CollapseSpaces(b)
  {
    Regroup4([c], rest, sp, b);
    CollapseCons(c, rest + sp + b);
    CollapseCons(c, rest);
  }

  /** The step of `CollapseSpacesSplit` past a leading white-space run. */
  lemma SplitAfterRun(e: string, t: string, sp: string, b: string)
    requires AllSpace(e) && e != [] && t != [] && !IsSpace(t[0])
    requires CollapseSpaces(t + sp + b) == CollapseSpaces(t) + " " + CollapseSpaces(b)
    ensures CollapseSpaces(e + t + sp + b) == CollapseSpaces(e + t) + " " + CollapseSpaces(b)
  {
    Regroup4(e, t, sp, b);
    assert (t + sp + b)[0] == t[0];
    CollapseLeadingSpaces(e, t + sp + b);
    CollapseLeadingSpaces(e, t);
    Regroup4([' '], CollapseSpaces(t), " ", CollapseSpaces(b));
  }

  /** A collapsed text ends where the original does, when that is not white space. */
  lemma {:induction false} CollapseKeepsLast(s: string)
    requires s != [] && !IsSpace(s[|s| - 1])
    ensures var c := CollapseSpaces(s); c != [] && c[|c| - 1] == s[|s| - 1]
    decreases |s|
  {
    if |s| > 1 {
      assert s[1..][|s| - 2] == s[|s| - 1];
      if IsSpace(s[0]) {
        var t := TrimStart(s[1..]);
        TrimStartKeepsLast(s[1..]);
        CollapseKeepsLast(t);
      } else {
        CollapseKeepsLast(s[1..]);
      }
    }
  }

  /** Trailing white space behind the last word is cleaned away. */
  lemma {:induction false} NormalizeTrailing(a: string, e: string)
    requires a != [] && !IsSpace(a[|a| - 1]) && AllSpace(e)
    ensures Normalize(a + e) == TrimStart(CollapseSpaces(a))
  {
    var x := CollapseSpaces(a);
    CollapseKeepsLast(a);
    TrimStartKeepsLast(x);
    var u := TrimStart(x);
    assert Normalize(a + e) == TrimEnd(TrimStart(CollapseSpaces(a + e)));
    if e == [] {
      assert a + e == a;
      assert TrimEnd(u) == u;
    } else {
      CollapseSpacesSplit(a, e, []);
      assert a + e + [] == a + e;
      assert CollapseSpaces(a + e) == x + " ";
      TrimStartAppend(x, " ");
      assert TrimStart(x + " ") == u + " ";
      assert IsSpace(" "[0]);
      TrimEndSpaces(u, " ");
      assert TrimEnd(u + " ") == u;
    }
  }

  /** Leading white space in front of the first word is cleaned away. */
  lemma {:induction false} NormalizeLeading(e: string, b: string)
    requires AllSpace(e) && b != [] && !IsSpace(b[0])
    ensures Normalize(e + b) == TrimEnd(CollapseSpaces(b))
  {
    var y := CollapseSpaces(b);
    if e == [] {
      assert e + b == b;
    } else {
      CollapseLeadingSpaces(e, b);
      assert IsSpace(" "[0]);
      TrimStartSpaces(" ", y);
    }
  }

  /** A text with some non-space character is its trimmed front followed by white space. */
  lemma TrailingRun(a: string)
    requires NonSpace(a) != []
    ensures var a' := TrimEnd(a); a == a' + a[|a'|..] && AllSpace(a[|a'|..]) && a' != [] && !IsSpace(a'[|a'| - 1])
  {
    var a' := TrimEnd(a);
    TrimEndPrefix(a);
    TrimEndNonSpace(a);
    assert a == a' + a[|a'|..];
    forall i | 0 <= i < |a| - |a'|
      ensures IsSpace(a[|a'|..][i])
    {
      assert a[|a'|..][i] == a[|a'| + i];
    }
  }

  /** A text with some non-space character is white space followed by its trimmed back. */
  lemma LeadingSpaces(b: string)
    requires NonSpace(b) != []
    ensures var b' := TrimStart(b); b == b[..|b| - |b'|] + b' && AllSpace(b[..|b| - |b'|]) && b' != []
  {
    var b' := TrimStart(b);
    TrimStartSuffix(b);
    TrimStartNonSpace(b);
    var f := b[..|b| - |b'|];
    assert b == f + b';
    forall i | 0 <= i < |f|
      ensures IsSpace(f[i])
    {
      assert f[i] == b[i];
    }
  }

  /** A text starting with a non-space character, after its trailing white space. */
  lemma TrimEndKeepsFirst(y: string)
    requires y != [] && !IsSpace(y[0])
    ensures var v := TrimEnd(y); v != [] && v[0] == y[0]
  {
    TrimEndPrefix(y);
  }

  lemma TrimStartJoin(x: string, y: string)
    requires TrimStart(x) != []
    ensures TrimStart(x + " " + y) == TrimStart(x) + " " + y
  {
    assert x + " " + y == x + (" " + y);
    TrimStartAppend(x, " " + y);
    assert TrimStart(x) + (" " + y) == TrimStart(x) + " " + y;
  }

  /** Trimming two words joined by a space trims the outer ends only. */
  lemma TrimJoined(x: string, y: string)
    requires x != [] && !IsSpace(x[|x| - 1]) && y != [] && !IsSpace(y[0])
    ensures TrimEnd(TrimStart(x + " " + y)) == TrimStart(x) + " " + TrimEnd(y)
  {
    TrimStartKeepsLast(x);
    TrimStartJoin(x, y);
    TrimEndKeepsFirst(y);
    TrimEndPrepend(TrimStart(x) + " ", y);
  }

  lemma AllSpaceJoin(e: string, sp: string, f: string)
    requires AllSpace(e) && AllSpace(sp) && AllSpace(f)
    ensures AllSpace(e + sp + f)
  {
    var m := e + sp + f;
    forall i | 0 <= i < |m|
      ensures IsSpace(m[i])
    {
      if i < |e| {
        assert m[i] == e[i];
      } else if i < |e| + |sp| {
        assert m[i] == sp[i - |e|];
      } else {
        assert m[i] == f[i - |e| - |sp|];
      }
    }
  }

  lemma Regroup(p: string, e: string, sp: string, f: string, q: string)
    ensures (p + e) + sp + (f + q) == p + (e + sp + f) + q
  {
  }

  /**
   * Two stretches of text separated by white space clean to their own
   * cleaned forms joined by exactly one space.
   */
  lemma NormalizeSplit(a: string, sp: string, b: string)
    requires NonSpace(a) != [] && NonSpace(b) != []
    requires AllSpace(sp) && sp != []
    ensures Normalize(a + sp + b) == Normalize(a) + " " + Normalize(b)
  {
    var a' := TrimEnd(a);
    var e := a[|a'|..];
    var b' := TrimStart(b);
    var f := b[..|b| - |b'|];
    TrailingRun(a);
    LeadingSpaces(b);
    var mid := e + sp + f;
    AllSpaceJoin(e, sp, f);
    Regroup(a', e, sp, f, b');
    CollapseSpacesSplit(a', mid, b');
    var x := CollapseSpaces(a');
    var y := CollapseSpaces(b');
    CollapseKeepsLast(a');
    assert y[0] == b'[0];
    TrimJoined(x, y);
    NormalizeTrailing(a', e);
    NormalizeLeading(f, b');
  }

  /** A word with white space on either side is cleaned to the bare word. */
  lemma NormalizePaddedWord(pre: string, w: string, post: string)
    requires AllSpace(pre) && AllSpace(post) && NoSpace(w) && w != []
    ensures Normalize(pre + w + post) == w
  {
    CollapsePaddedWord(pre, w, post);
    TrimPadded(pre, w, post);
  }
}
