/**
 * Character classes and whitespace splitting shared by the text utilities:
 * Rust's `char::is_whitespace` (also the `\s` class of the `regex` crate),
 * `str::split_whitespace` and `join(" ")`.
 */
module Text {

  /** The Unicode White_Space property, which is what `char::is_whitespace` and `\s` test. */
  predicate IsWhitespace(c: char) {
    ('\U{9}' <= c <= '\U{D}') || c == ' ' || c == '\U{85}' || c == '\U{A0}' || c == '\U{1680}'
    || ('\U{2000}' <= c <= '\U{200A}') || c == '\U{2028}' || c == '\U{2029}'
    || c == '\U{202F}' || c == '\U{205F}' || c == '\U{3000}'
  }

  /** ASCII-only lower-casing of one character (`char::to_ascii_lowercase`). */
  function AsciiLower(c: char): char {
    if 'A' <= c <= 'Z' then (c as int + 32) as char else c
  }

  function AsciiLowerString(s: string): (r: string)
    ensures |r| == |s|
    ensures forall i :: 0 <= i < |s| ==> r[i] == AsciiLower(s[i])
  {
    if s == [] then [] else [AsciiLower(s[0])] + AsciiLowerString(s[1..])
  }

  predicate StartsWith(s: string, prefix: string) {
    |prefix| <= |s| && s[..|prefix|] == prefix
  }

  predicate EndsWith(s: string, suffix: string) {
    |suffix| <= |s| && s[|s| - |suffix|..] == suffix
  }

  /** A word as `split_whitespace` yields it: non-empty, without whitespace. */
  predicate IsWord(w: string) {
    |w| > 0 && forall i :: 0 <= i < |w| ==> !IsWhitespace(w[i])
  }

  /** Length of the leading run of non-whitespace characters. */
  function TokenLen(s: string): (n: nat)
    ensures n <= |s|
    ensures forall i :: 0 <= i < n ==> !IsWhitespace(s[i])
    ensures n < |s| ==> IsWhitespace(s[n])
  {
    if s == [] || IsWhitespace(s[0]) then 0 else 1 + TokenLen(s[1..])
  }

  /** `str::split_whitespace`: the maximal runs of non-whitespace characters, in order. */
  function Words(s: string): (ws: seq<string>)
    decreases |s|
  {
    if s == [] then []
    else if IsWhitespace(s[0]) then Words(s[1..])
    else
      var n := TokenLen(s);
      [s[..n]] + Words(s[n..])
  }

  /** `join(" ")` over a sequence of strings. */
  function JoinSpaces(ws: seq<string>): string {
    if |ws| == 0 then ""
    else if |ws| == 1 then ws[0]
    else ws[0] + " " + JoinSpaces(ws[1..])
  }

  /** No leading, trailing or doubled space. */
  predicate SingleSpaced(s: string) {
    (s != [] ==> s[0] != ' ' && s[|s| - 1] != ' ')
    && forall i :: 0 <= i < |s| - 1 ==> !(s[i] == ' ' && s[i + 1] == ' ')
  }

  /** All the characters of a sequence of strings, in order. */
  function Flatten(ws: seq<string>): string {
    if ws == [] then "" else ws[0] + Flatten(ws[1..])
  }

  /** Every word `split_whitespace` yields is a word, and is made of characters of the input. */
  lemma {:induction false} WordsAreWords(s: string)
    ensures forall w :: w in Words(s) ==> IsWord(w)
    ensures forall c :: c in Flatten(Words(s)) ==> c in s
    decreases |s|
  {
    if s == [] {
    } else if IsWhitespace(s[0]) {
      WordsAreWords(s[1..]);
      assert forall c :: c in s[1..] ==> c in s;
    } else {
      var n := TokenLen(s);
      WordsAreWords(s[n..]);
      assert Words(s) == [s[..n]] + Words(s[n..]);
      assert Flatten(Words(s)) == s[..n] + Flatten(Words(s[n..]));
      assert forall c :: c in s[n..] ==> c in s;
      assert forall c :: c in s[..n] ==> c in s;
    }
  }

  lemma {:induction false} TokenLenOfWord(w: string, rest: string)
    requires IsWord(w)
    requires rest == [] || IsWhitespace(rest[0])
    ensures TokenLen(w + rest) == |w|
    decreases |w|
  {
    if |w| > 1 {
      assert (w + rest)[1..] == w[1..] + rest;
      TokenLenOfWord(w[1..], rest);
    }
  }

  /** Splitting a word followed by a whitespace-led suffix yields the word first. */
  lemma WordsOfWordThen(w: string, rest: string)
    requires IsWord(w)
    requires rest == [] || IsWhitespace(rest[0])
    ensures Words(w + rest) == [w] + Words(rest)
  {
    TokenLenOfWord(w, rest);
    var s := w + rest;
    assert s[..|w|] == w;
    assert s[|w|..] == rest;
  }

  /** Splitting a word, a space and a suffix yields the word, then the words of the suffix. */
  lemma WordsOfWordSpace(w: string, rest: string)
    requires IsWord(w)
    ensures Words(w + " " + rest) == [w] + Words(rest)
  {
    var s := w + " " + rest;
    var n := |w|;
    assert forall i :: 0 <= i < n ==> s[i] == w[i];
    assert s[n] == ' ' && IsWhitespace(' ');
    TokenLenOfWord(w, s[n..]);
    assert w + s[n..] == s;
    assert s[..n] == w;
    assert s[n..][1..] == rest;
    assert Words(s[n..]) == Words(rest);
  }

  /** Round trip: splitting the space-joined words gives the words back. */
  lemma {:induction false} WordsOfJoin(ws: seq<string>)
    requires forall w :: w in ws ==> IsWord(w)
    ensures Words(JoinSpaces(ws)) == ws
    decreases |ws|
  {
    if |ws| == 0 {
    } else if |ws| == 1 {
      assert ws[0] in ws;
      WordsOfWordThen(ws[0], []);
      assert ws[0] + [] == ws[0];
    } else {
      var w := ws[0];
      assert w in ws;
      var tail := ws[1..];
      assert forall v :: v in tail ==> v in ws;
      var rest := JoinSpaces(tail);
      WordsOfJoin(tail);
      assert JoinSpaces(ws) == w + " " + rest;
      WordsOfWordSpace(w, rest);
      assert ws == [w] + tail;
    }
  }

  /** Joined words are single-spaced, and each of their characters is a space or a word character. */
  lemma {:induction false} JoinSpacesShape(ws: seq<string>)
    requires forall w :: w in ws ==> IsWord(w)
    ensures SingleSpaced(JoinSpaces(ws))
    ensures JoinSpaces(ws) == [] <==> ws == []
    ensures forall i :: 0 <= i < |JoinSpaces(ws)| ==> JoinSpaces(ws)[i] == ' ' || JoinSpaces(ws)[i] in Flatten(ws)
    decreases |ws|
  {
    if |ws| == 0 {
    } else if |ws| == 1 {
      var w := ws[0];
      assert w in ws;
      assert IsWhitespace(' ');
      assert Flatten(ws) == w + Flatten([]);
    } else {
      var w := ws[0];
      var rest := JoinSpaces(ws[1..]);
      JoinSpacesShape(ws[1..]);
      assert w in ws;
      assert IsWhitespace(' ');
      var s := w + " " + rest;
      assert |rest| > 0;
      assert Flatten(ws) == w + Flatten(ws[1..]);
      forall i | 0 <= i < |s| - 1 ensures !(s[i] == ' ' && s[i + 1] == ' ') {
        if i < |w| - 1 {
        } else if i == |w| - 1 {
        } else if i == |w| {
          assert s[i + 1] == rest[0];
        } else {
          assert s[i] == rest[i - |w| - 1] && s[i + 1] == rest[i - |w|];
        }
      }
      forall i | 0 <= i < |s| ensures s[i] == ' ' || s[i] in Flatten(ws) {
        if i < |w| {
          assert s[i] == w[i];
        } else if i > |w| {
          assert s[i] == rest[i - |w| - 1];
        }
      }
    }
  }
}
