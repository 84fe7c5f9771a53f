/**
 * The regular-expression helpers of the application's text utilities:
 * removing the leading time tag of each LRC line, recognising the
 * instrumental marker, and the punctuation/quote scrubbing step of the
 * input preparation used for the lower-cased search columns.
 */
module Utils {
  import opened Text

  /** The marker written as the whole synced-lyrics text of an instrumental track. */
  const InstrumentalMarker: string := "[au: instrumental]"

  // ---------------------------------------------------------------------------
  // strip_timestamp: the multi-line pattern `^\[[^\]]*\] *` replaced by "".
  // ---------------------------------------------------------------------------

  /** The leading run of ' ' characters removed (the ` *` part of the pattern). */
  function DropSpaces(s: string): (r: string)
    ensures |r| <= |s|
    ensures r == [] || r[0] != ' '
  {
    if s != [] && s[0] == ' ' then DropSpaces(s[1..]) else s
  }

  /** Index of the first `c` in `s`. */
  function IndexOf(s: string, c: char): (k: nat)
    requires c in s
    ensures k < |s| && s[k] == c
    ensures forall i :: 0 <= i < k ==> s[i] != c
  {
    if s[0] == c then 0 else 1 + IndexOf(s[1..], c)
  }

  /**
   * The replacement scan: at a line start (the text start, or just after
   * '\n') a '[' followed later by a ']' opens a match that runs to the first
   * ']' (the body may contain newlines) and then over the spaces after it.
   * A match never ends right after '\n', so the scan resumes off a line start.
   */
  function StripFrom(s: string, lineStart: bool): (r: string)
    decreases |s|
  {
    if s == [] then []
    else if lineStart && s[0] == '[' && ']' in s then
      var close := IndexOf(s, ']');
      StripFrom(DropSpaces(s[close + 1..]), false)
    else [s[0]] + StripFrom(s[1..], s[0] == '\n')
  }

  function StripTimestamp(synced: string): string {
    StripFrom(synced, true)
  }

  /** The scan never lengthens the text. */
  lemma {:induction false} StripFromShrinks(s: string, lineStart: bool)
    ensures |StripFrom(s, lineStart)| <= |s|
    decreases |s|
  {
    if s == [] {
    } else if lineStart && s[0] == '[' && ']' in s {
      var close := IndexOf(s, ']');
      StripFromShrinks(DropSpaces(s[close + 1..]), false);
    } else {
      StripFromShrinks(s[1..], s[0] == '\n');
    }
  }

  /** Text without any '[' is returned unchanged. */
  lemma {:induction false} StripFromNoBracket(s: string, lineStart: bool)
    requires '[' !in s
    ensures StripFrom(s, lineStart) == s
    decreases |s|
  {
    if s != [] {
      assert '[' !in s[1..];
      StripFromNoBracket(s[1..], s[0] == '\n');
    }
  }

  lemma StripTimestampIdentity(s: string)
    requires '[' !in s
    ensures StripTimestamp(s) == s
  {
    StripFromNoBracket(s, true);
  }

  /** Off a line start, text without a newline is copied as it is. */
  lemma {:induction false} StripFromSingleLine(s: string)
    requires '\n' !in s
    ensures StripFrom(s, false) == s
    decreases |s|
  {
    if s != [] {
      assert '\n' !in s[1..];
      StripFromSingleLine(s[1..]);
    }
  }

  /** A line that does not start with '[' is copied up to and including its newline. */
  lemma {:induction false} StripKeepsPlainLine(line: string, rest: string)
    requires '\n' !in line
    requires line == [] || line[0] != '['
    ensures StripFrom(line + "\n" + rest, true) == line + "\n" + StripFrom(rest, true)
  {
    var s := line + "\n" + rest;
    if line == [] {
      assert s == ['\n'] + rest;
      assert s[1..] == rest;
      assert StripFrom(s, true) == ['\n'] + StripFrom(rest, true);
    } else {
      assert s[0] == line[0] && s[1..] == line[1..] + "\n" + rest;
      assert line[0] != '\n' by { assert line[0] in line; }
      assert '\n' !in line[1..];
      StripTailOfLine(line[1..], rest);
      assert StripFrom(s, true) == [line[0]] + StripFrom(s[1..], false);
      assert [line[0]] + (line[1..] + "\n" + StripFrom(rest, true)) == line + "\n" + StripFrom(rest, true);
    }
  }

  lemma {:induction false} StripTailOfLine(tail: string, rest: string)
    requires '\n' !in tail
    ensures StripFrom(tail + "\n" + rest, false) == tail + "\n" + StripFrom(rest, true)
    decreases |tail|
  {
    var s := tail + "\n" + rest;
    if tail == [] {
      assert s[0] == '\n' && s[1..] == rest;
    } else {
      assert s[0] == tail[0] && s[1..] == tail[1..] + "\n" + rest;
      assert '\n' !in tail[1..];
      StripTailOfLine(tail[1..], rest);
    }
  }

  /**
   * One leading group per line: a line "[body]   text" loses "[body]" and
   * the spaces after it, and a second group such as "[a][b] x" survives.
   */
  lemma StripOneGroup(body: string, spaces: nat, text: string)
    requires ']' !in body && '\n' !in text
    requires text == [] || text[0] != ' '
    ensures StripTimestamp(['['] + body + [']'] + Spaces(spaces) + text) == text
  {
    var group := ['['] + body + [']'];
    var tail := Spaces(spaces) + text;
    var s := group + tail;
    assert ['['] + body + [']'] + Spaces(spaces) + text == s;
    assert s[|group| - 1] == ']';
    var close := IndexOf(s, ']');
    assert s[close + 1..] == tail;
    DropSpacesOfSpaces(spaces, text);
    StripFromSingleLine(text);
    assert StripFrom(s, true) == StripFrom(DropSpaces(tail), false);
  }

  function Spaces(n: nat): (r: string)
    ensures |r| == n && forall i :: 0 <= i < n ==> r[i] == ' '
  {
    if n == 0 then [] else [' '] + Spaces(n - 1)
  }

  lemma {:induction false} DropSpacesOfSpaces(n: nat, text: string)
    requires text == [] || text[0] != ' '
    ensures DropSpaces(Spaces(n) + text) == text
  {
    if n > 0 {
      var s := Spaces(n) + text;
      assert s == [' '] + (Spaces(n - 1) + text);
      assert s[1..] == Spaces(n - 1) + text;
      DropSpacesOfSpaces(n - 1, text);
    }
  }

  lemma StripTwoGroupsExample()
    ensures StripTimestamp("[a][b] x") == "[b] x"
  {
    var text := "[b] x";
    assert "[a][b] x" == ['['] + "a" + [']'] + Spaces(0) + text;
    StripOneGroup("a", 0, text);
  }

  // ---------------------------------------------------------------------------
  // RE_INSTRUMENTAL: `\[au:\s*instrumental\]`, searched anywhere in the text.
  // ---------------------------------------------------------------------------

  /** Leading whitespace removed (the greedy `\s*`). */
  function DropWhitespace(s: string): (r: string)
    ensures |r| <= |s| && r == s[|s| - |r|..]
    ensures r == [] || !IsWhitespace(r[0])
    ensures forall i :: 0 <= i < |s| - |r| ==> IsWhitespace(s[i])
  {
    if s != [] && IsWhitespace(s[0]) then DropWhitespace(s[1..]) else s
  }

  /** The pattern matches at the start of `s`. */
  predicate MarkerAt(s: string) {
    StartsWith(s, "[au:") && StartsWith(DropWhitespace(s[4..]), "instrumental]")
  }

  /** The recogniser: `RE_INSTRUMENTAL.is_match(s)`. */
  function MatchesInstrumental(s: string): bool
    decreases |s|
  {
    if s == [] then false else MarkerAt(s) || MatchesInstrumental(s[1..])
  }

  /** Whitespace characters only. */
  predicate AllWhitespace(w: string) {
    forall i :: 0 <= i < |w| ==> IsWhitespace(w[i])
  }

  /** The declarative reading of the pattern: some substring is "[au:", whitespace, "instrumental]". */
  ghost predicate ContainsMarker(s: string) {
    exists i, w :: 0 <= i <= |s| && AllWhitespace(w) && StartsWith(s[i..], "[au:" + w + "instrumental]")
  }

  lemma MarkerAtIff(s: string)
    ensures MarkerAt(s) <==>
      exists w :: AllWhitespace(w) && StartsWith(s, "[au:" + w + "instrumental]")
  {
    if MarkerAt(s) {
      MarkerAtWitness(s);
    }
    if exists w :: AllWhitespace(w) && StartsWith(s, "[au:" + w + "instrumental]") {
      var w :| AllWhitespace(w) && StartsWith(s, "[au:" + w + "instrumental]");
      MarkerAtOf(s, w);
    }
  }

  /** A match at the start spells out "[au:", the skipped whitespace and "instrumental]". */
  lemma MarkerAtWitness(s: string)
    requires MarkerAt(s)
    ensures exists w :: AllWhitespace(w) && StartsWith(s, "[au:" + w + "instrumental]")
  {
    var t := s[4..];
    var d := DropWhitespace(t);
    var w := t[..|t| - |d|];
    assert AllWhitespace(w);
    assert t[|w|..] == d;
    JoinPrefix3(s, "[au:", w, "instrumental]");
  }

  /** "[au:", whitespace and "instrumental]" at the start is a match at the start. */
  lemma MarkerAtOf(s: string, w: string)
    requires AllWhitespace(w) && StartsWith(s, "[au:" + w + "instrumental]")
    ensures MarkerAt(s)
  {
    SplitPrefix3(s, "[au:", w, "instrumental]");
    var t := s[4..];
    assert t == w + t[|w|..];
    assert t[|w|..][0] == 'i';
    DropWhitespaceSkips(w, t[|w|..]);
  }

  lemma SplitPrefix3(s: string, a: string, b: string, c: string)
    requires StartsWith(s, a + b + c)
    ensures StartsWith(s, a) && StartsWith(s[|a|..], b) && StartsWith(s[|a| + |b|..], c)
  {
    var p := a + b + c;
    assert s[..|a|] == p[..|a|] == a;
    assert s[|a|..][..|b|] == p[|a|..|a| + |b|] == b;
    assert s[|a| + |b|..][..|c|] == p[|a| + |b|..] == c;
  }

  lemma JoinPrefix3(s: string, a: string, b: string, c: string)
    requires StartsWith(s, a) && StartsWith(s[|a|..], b) && StartsWith(s[|a| + |b|..], c)
    ensures StartsWith(s, a + b + c)
  {
    var n := |a| + |b| + |c|;
    assert s[..n] == s[..|a|] + s[|a|..][..|b|] + s[|a| + |b|..][..|c|];
  }

  lemma {:induction false} DropWhitespaceSkips(w: string, u: string)
    requires AllWhitespace(w)
    requires u != [] && !IsWhitespace(u[0])
    ensures DropWhitespace(w + u) == u
    decreases |w|
  {
    if w == [] {
      assert w + u == u;
    } else {
      var s := w + u;
      assert s[0] == w[0];
      assert s[1..] == w[1..] + u;
      assert AllWhitespace(w[1..]) by {
        forall i | 0 <= i < |w| - 1 ensures IsWhitespace(w[1..][i]) { assert w[1..][i] == w[i + 1]; }
      }
      DropWhitespaceSkips(w[1..], u);
    }
  }

  /** The recogniser accepts exactly the texts containing the marker pattern. */
  lemma {:induction false} MatchesInstrumentalIff(s: string)
    ensures MatchesInstrumental(s) <==> ContainsMarker(s)
    decreases |s|
  {
    if s == [] {
    } else {
      MatchesInstrumentalIff(s[1..]);
      MarkerAtIff(s);
      if ContainsMarker(s) && !MarkerAt(s) {
        var i, w :| 0 <= i <= |s| && AllWhitespace(w) && StartsWith(s[i..], "[au:" + w + "instrumental]");
        assert i != 0;
        assert s[1..][i - 1..] == s[i..];
        assert ContainsMarker(s[1..]);
      }
      if MatchesInstrumental(s[1..]) {
        var i, w :| 0 <= i <= |s[1..]| && AllWhitespace(w) && StartsWith(s[1..][i..], "[au:" + w + "instrumental]");
        assert s[1..][i..] == s[i + 1..];
      }
      if MarkerAt(s) {
        var w :| AllWhitespace(w) && StartsWith(s, "[au:" + w + "instrumental]");
        assert s[0..] == s;
      }
    }
  }

  lemma MarkerMatchesInstrumental()
    ensures MatchesInstrumental(InstrumentalMarker)
  {
    var w := " ";
    assert AllWhitespace(w);
    assert InstrumentalMarker == "[au:" + w + "instrumental]";
    assert StartsWith(InstrumentalMarker, "[au:" + w + "instrumental]");
    MarkerAtOf(InstrumentalMarker, w);
    assert InstrumentalMarker != [];
  }

  // ---------------------------------------------------------------------------
  // prepare_input: the RE_PUNCTUATION and RE_QUOTES replacements.
  // ---------------------------------------------------------------------------

  /** The class `[`~!@#$%^&*()_|+\-=?;:",.<>\{\}\[\]\\\/]`. */
  predicate IsPunctuation(c: char) {
    c in "`~!@#$%^&*()_|+-=?;:\",.<>{}[]\\/"
  }

  /** The class of RE_QUOTES (an apostrophe). */
  predicate IsQuote(c: char) {
    c == '\''
  }

  /** Every punctuation character replaced by a space. */
  function ReplacePunctuation(s: string): (r: string)
    ensures |r| == |s|
    ensures forall i :: 0 <= i < |s| ==> r[i] == if IsPunctuation(s[i]) then ' ' else s[i]
  {
    if s == [] then [] else [if IsPunctuation(s[0]) then ' ' else s[0]] + ReplacePunctuation(s[1..])
  }

  /** Every quote character deleted. */
  function RemoveQuotes(s: string): (r: string)
    ensures forall c :: c in r <==> c in s && !IsQuote(c)
    ensures |r| <= |s|
  {
    if s == [] then [] else (if IsQuote(s[0]) then [] else [s[0]]) + RemoveQuotes(s[1..])
  }

  /**
   * Deleting quotes from a concatenation deletes them from each part: with
   * RemoveQuotesUnit this pins RemoveQuotes down as the order-preserving
   * filter of non-quote characters.
   */
  lemma {:induction false} RemoveQuotesAppend(a: string, b: string)
    ensures RemoveQuotes(a + b) == RemoveQuotes(a) + RemoveQuotes(b)
    decreases |a|
  {
    if a == [] {
      assert a + b == b;
    } else {
      var head := if IsQuote(a[0]) then [] else [a[0]];
      assert (a + b)[0] == a[0] && (a + b)[1..] == a[1..] + b;
      calc {
        RemoveQuotes(a + b);
        head + RemoveQuotes(a[1..] + b);
        { RemoveQuotesAppend(a[1..], b); }
        head + (RemoveQuotes(a[1..]) + RemoveQuotes(b));
        (head + RemoveQuotes(a[1..])) + RemoveQuotes(b);
      }
    }
  }

  /** A single character is deleted exactly when it is a quote. */
  lemma RemoveQuotesUnit(c: char)
    ensures RemoveQuotes([c]) == if IsQuote(c) then [] else [c]
  {
  }

  /** The two replacements of prepare_input, in the source's order. */
  function Scrub(s: string): (r: string) {
    RemoveQuotes(ReplacePunctuation(s))
  }

  /**
   * After scrubbing no punctuation or quote remains, every other character of
   * the input survives, and scrubbing again changes nothing.
   */
  lemma ScrubClean(s: string)
    ensures forall c :: c in Scrub(s) ==> !IsPunctuation(c) && !IsQuote(c)
    ensures forall c :: c in s && !IsPunctuation(c) && !IsQuote(c) ==> c in Scrub(s)
    ensures Scrub(Scrub(s)) == Scrub(s)
  {
    var p := ReplacePunctuation(s);
    assert !IsPunctuation(' ') && !IsQuote(' ');
    forall c | c in p ensures !IsPunctuation(c) {
      var i :| 0 <= i < |p| && p[i] == c;
    }
    forall c | c in s && !IsPunctuation(c) && !IsQuote(c) ensures c in Scrub(s) {
      var i :| 0 <= i < |s| && s[i] == c;
      assert p[i] == c;
    }
    ScrubCleanFixed(Scrub(s));
  }

  lemma {:induction false} ScrubCleanFixed(s: string)
    requires forall c :: c in s ==> !IsPunctuation(c) && !IsQuote(c)
    ensures Scrub(s) == s
    decreases |s|
  {
    if s != [] {
      ScrubCleanFixed(s[1..]);
      assert ReplacePunctuation(s) == [s[0]] + ReplacePunctuation(s[1..]);
    }
  }
}
