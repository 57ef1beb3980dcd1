/**
 * The string primitives the pipeline uses: lower-casing, whitespace
 * tokenisation (str.split() without arguments), strip(), the single-space
 * join and substring containment (the `in` operator on strings).
 */
module Text {

  /** The characters str.split() and str.strip() treat as whitespace. */
  predicate IsSpace(c: char) {
    || c == ' ' || c == '\t' || c == '\n' || c == '\r'
    || c == '\U{B}' || c == '\U{C}'
    || ('\U{1C}' <= c <= '\U{1F}')
    || c == '\U{85}' || c == '\U{A0}' || c == '\U{1680}'
    || ('\U{2000}' <= c <= '\U{200A}')
    || c == '\U{2028}' || c == '\U{2029}' || c == '\U{202F}' || c == '\U{205F}' || c == '\U{3000}'
  }

  /**
   * Lower-casing of one character, for the upper-case letters of ASCII,
   * Latin-1 and Latin Extended-A (the alphabets the catalog is written in);
   * every other character is its own lower case.
   */
  function LowerChar(c: char): (d: char)
    ensures IsSpace(d) <==> IsSpace(c)
    ensures 'a' <= c <= 'z' ==> d == c
  {
    var n := c as int;
    if c < 'A' || ('Z' < c < '\U{C0}') then c
    else if c <= 'Z' then (n + 32) as char
    else if c <= '\U{DE}' then (if c == '\U{D7}' then c else (n + 32) as char)
    else if c < '\U{100}' || '\U{17E}' < c then c
    else if c <= '\U{137}' then (if c != '\U{130}' && n % 2 == 0 then (n + 1) as char else c)
    else if c <= '\U{148}' then (if n % 2 == 1 then (n + 1) as char else c)
    else if c <= '\U{177}' then (if n % 2 == 0 then (n + 1) as char else c)
    else if c == '\U{178}' then '\U{FF}'
    else if n % 2 == 1 then (n + 1) as char
    else c
  }

  /** str.lower(): the string lower-cased character by character. */
  function Lower(s: string): (r: string)
    ensures |r| == |s|
    ensures forall i :: 0 <= i < |s| ==> r[i] == LowerChar(s[i])
  {
    seq(|s|, i requires 0 <= i < |s| => LowerChar(s[i]))
  }

  predicate AllSpace(s: string) {
    forall i :: 0 <= i < |s| ==> IsSpace(s[i])
  }

  /** A token produced by str.split(): non-empty, without whitespace. */
  predicate IsWord(w: string) {
    w != [] && forall i :: 0 <= i < |w| ==> !IsSpace(w[i])
  }

  /** Length of the run of non-whitespace characters that starts `s`. */
  function TokenLength(s: string): (n: nat)
    ensures n <= |s|
    ensures forall i :: 0 <= i < n ==> !IsSpace(s[i])
    ensures n < |s| ==> IsSpace(s[n])
  {
    if s == [] || IsSpace(s[0]) then 0 else 1 + TokenLength(s[1..])
  }

  /**
   * str.split() without arguments: the maximal runs of non-whitespace
   * characters, in order; leading, trailing and repeated whitespace
   * produce no empty tokens.
   */
  function Words(s: string): (ws: seq<string>)
    ensures forall k :: 0 <= k < |ws| ==> IsWord(ws[k])
    ensures ws == [] <==> AllSpace(s)
    decreases |s|
  {
    if s == [] then []
    else if IsSpace(s[0]) then
      var r := Words(s[1..]);
      assert AllSpace(s) <==> AllSpace(s[1..]) by {
        if AllSpace(s[1..]) {
          forall i | 0 <= i < |s| ensures IsSpace(s[i]) {
            if i > 0 { assert s[i] == s[1..][i - 1]; }
          }
        }
      }
      r
    else
      var n := TokenLength(s);
      [s[..n]] + Words(s[n..])
  }

  /** gaps[0] + ws[0] + gaps[1] + ... + ws[|ws| - 1] + gaps[|ws|]. */
  function Weave(gaps: seq<string>, ws: seq<string>): string
    requires |gaps| == |ws| + 1
  {
    if ws == [] then gaps[0] else gaps[0] + ws[0] + Weave(gaps[1..], ws[1..])
  }

  /**
   * `s` is the tokens `ws` interleaved with whitespace gaps, and every gap
   * between two tokens holds at least one character.
   */
  predicate Interleaves(s: string, gaps: seq<string>, ws: seq<string>) {
    && |gaps| == |ws| + 1
    && (forall k :: 0 <= k < |gaps| ==> AllSpace(gaps[k]))
    && (forall k :: 0 < k < |ws| ==> gaps[k] != [])
    && s == Weave(gaps, ws)
  }

  /**
   * The tokens of str.split() are the maximal non-whitespace runs of the
   * text, in order: the text is its tokens interleaved with whitespace.
   */
  lemma {:induction false} WordsAreRuns(s: string) returns (gaps: seq<string>)
    ensures Interleaves(s, gaps, Words(s))
    decreases |s|
  {
    if s == [] {
      gaps := [[]];
    } else if IsSpace(s[0]) {
      var rest := WordsAreRuns(s[1..]);
      gaps := RunsAfterSpace(s, rest);
    } else {
      var n := TokenLength(s);
      var rest := WordsAreRuns(s[n..]);
      gaps := RunsAfterToken(s, n, rest);
    }
  }

  /** Adding text in front of the first gap adds it in front of the weave. */
  lemma WeavePrefix(c: string, gaps: seq<string>, ws: seq<string>)
    requires |gaps| == |ws| + 1
    ensures Weave([c + gaps[0]] + gaps[1..], ws) == c + Weave(gaps, ws)
  {
    var g := [c + gaps[0]] + gaps[1..];
    assert g[1..] == gaps[1..];
  }

  lemma AllSpaceConcat(a: string, b: string)
    requires AllSpace(a) && AllSpace(b)
    ensures AllSpace(a + b)
  {
    forall i | 0 <= i < |a + b| ensures IsSpace((a + b)[i]) {
      if i >= |a| { assert (a + b)[i] == b[i - |a|]; }
    }
  }

  lemma RunsAfterSpace(s: string, rest: seq<string>) returns (gaps: seq<string>)
    requires s != [] && IsSpace(s[0])
    requires Interleaves(s[1..], rest, Words(s[1..]))
    ensures Interleaves(s, gaps, Words(s))
  {
    var ws := Words(s[1..]);
    assert Words(s) == ws;
    gaps := [[s[0]] + rest[0]] + rest[1..];
    assert forall k :: 0 < k < |gaps| ==> gaps[k] == rest[k];
    AllSpaceConcat([s[0]], rest[0]);
    WeavePrefix([s[0]], rest, ws);
    assert s == [s[0]] + s[1..];
  }

  lemma RunsAfterToken(s: string, n: nat, rest: seq<string>) returns (gaps: seq<string>)
    requires s != [] && !IsSpace(s[0]) && n == TokenLength(s)
    requires Interleaves(s[n..], rest, Words(s[n..]))
    ensures Interleaves(s, gaps, Words(s))
  {
    var ws := Words(s[n..]);
    assert Words(s) == [s[..n]] + ws;
    gaps := [[]] + rest;
    assert gaps[1..] == rest;
    assert s == s[..n] + s[n..];
    if ws != [] {
      assert rest[0] != [] by {
        assert n < |s| && IsSpace(s[n]);
        assert s[n..] == rest[0] + ws[0] + Weave(rest[1..], ws[1..]);
        assert IsWord(ws[0]) && !IsSpace(ws[0][0]);
      }
    }
  }

  /** " ".join(ws). */
  function JoinSpace(ws: seq<string>): string
  {
    if ws == [] then ""
    else if |ws| == 1 then ws[0]
    else ws[0] + " " + JoinSpace(ws[1..])
  }

  /** `s` without its leading whitespace. */
  function TrimStart(s: string): string
  {
    if s != [] && IsSpace(s[0]) then TrimStart(s[1..]) else s
  }

  /** `s` without its trailing whitespace. */
  function TrimEnd(s: string): string
  {
    if s != [] && IsSpace(s[|s| - 1]) then TrimEnd(s[..|s| - 1]) else s
  }

  /** str.strip() without arguments. */
  function Strip(s: string): string
  {
    TrimEnd(TrimStart(s))
  }

  lemma {:induction false} TrimStartRemovesSpace(s: string)
    ensures var r := TrimStart(s);
      |r| <= |s| && r == s[|s| - |r|..] && AllSpace(s[..|s| - |r|]) && (r == [] || !IsSpace(r[0]))
    decreases |s|
  {
    if s != [] && IsSpace(s[0]) {
      TrimStartRemovesSpace(s[1..]);
      var r := TrimStart(s[1..]);
      assert s[..|s| - |r|] == [s[0]] + s[1..][..|s| - 1 - |r|];
    }
  }

  lemma {:induction false} TrimEndRemovesSpace(s: string)
    ensures var r := TrimEnd(s);
      |r| <= |s| && r == s[..|r|] && AllSpace(s[|r|..]) && (r == [] || !IsSpace(r[|r| - 1]))
    decreases |s|
  {
    if s != [] && IsSpace(s[|s| - 1]) {
      TrimEndRemovesSpace(s[..|s| - 1]);
      var r := TrimEnd(s[..|s| - 1]);
      assert s[|r|..] == s[..|s| - 1][|r|..] + [s[|s| - 1]];
    }
  }

  /**
   * strip() removes whitespace from both ends and nothing else: `s` is the
   * result with whitespace before and after it, and the result neither
   * starts nor ends with whitespace.
   */
  lemma StripRemovesOuterSpace(s: string)
    ensures var r := Strip(s);
      && (exists i :: 0 <= i <= |s| - |r| && s[i..i + |r|] == r && AllSpace(s[..i]) && AllSpace(s[i + |r|..]))
      && (r == [] || (!IsSpace(r[0]) && !IsSpace(r[|r| - 1])))
  {
    TrimStartRemovesSpace(s);
    var t := TrimStart(s);
    TrimEndRemovesSpace(t);
    var r := TrimEnd(t);
    var i := |s| - |t|;
    assert s[i..i + |r|] == r;
    assert s[i + |r|..] == t[|r|..];
  }

  /** `needle` occurs in `hay` starting at index i. */
  predicate OccursAt(hay: string, needle: string, i: int) {
    0 <= i && i + |needle| <= |hay| && hay[i..i + |needle|] == needle
  }

  /** Python's `needle in hay` on strings. */
  predicate Contains(hay: string, needle: string) {
    exists i :: 0 <= i <= |hay| - |needle| && OccursAt(hay, needle, i)
  }

  /** Every string contains itself, so every name matches itself. */
  lemma ContainsSelf(s: string)
    ensures Contains(s, s)
  {
    assert OccursAt(s, s, 0);
  }

  lemma {:induction false} TokenLengthOfWord(w: string, rest: string)
    requires IsWord(w)
    ensures TokenLength(w + " " + rest) == |w|
    decreases |w|
  {
    var s := w + " " + rest;
    if |w| > 1 {
      assert s[1..] == w[1..] + " " + rest;
      TokenLengthOfWord(w[1..], rest);
    } else {
      assert s[1..] == " " + rest;
    }
  }

  lemma {:induction false} TokenLengthWhole(w: string)
    requires IsWord(w)
    ensures TokenLength(w) == |w|
    decreases |w|
  {
    if |w| > 1 {
      TokenLengthWhole(w[1..]);
    }
  }

  /**
   * Splitting a single-space join of tokens gives the tokens back: the
   * join is the inverse of str.split() on its own output.
   */
  lemma {:induction false} WordsOfJoin(ws: seq<string>)
    requires forall k :: 0 <= k < |ws| ==> IsWord(ws[k])
    ensures Words(JoinSpace(ws)) == ws
    decreases |ws|
  {
    if ws == [] {
    } else if |ws| == 1 {
      var w := ws[0];
      TokenLengthWhole(w);
      assert w[..|w|] == w;
      assert w[|w|..] == [];
    } else {
      var w, rest := ws[0], JoinSpace(ws[1..]);
      var s := w + " " + rest;
      TokenLengthOfWord(w, rest);
      assert s[..|w|] == w;
      assert s[|w|..] == " " + rest;
      assert (" " + rest)[1..] == rest;
      WordsOfJoin(ws[1..]);
    }
  }

  /** Splitting, re-joining and splitting again gives the same tokens. */
  lemma WordsNormalised(s: string)
    ensures Words(JoinSpace(Words(s))) == Words(s)
  {
    WordsOfJoin(Words(s));
  }

  lemma {:induction false} WordsTrimStart(s: string)
    ensures Words(TrimStart(s)) == Words(s)
    decreases |s|
  {
    if s != [] && IsSpace(s[0]) {
      WordsTrimStart(s[1..]);
    }
  }

  lemma {:induction false} TokenLengthAppend(s: string, c: char)
    requires IsSpace(c)
    ensures TokenLength(s + [c]) == TokenLength(s)
    decreases |s|
  {
    if s != [] {
      assert (s + [c])[1..] == s[1..] + [c];
      TokenLengthAppend(s[1..], c);
    }
  }

  /** A trailing whitespace character adds no token. */
  lemma {:induction false} WordsAppendSpace(s: string, c: char)
    requires IsSpace(c)
    ensures Words(s + [c]) == Words(s)
    decreases |s|
  {
    var t := s + [c];
    if s == [] {
      assert t[1..] == [];
    } else if IsSpace(s[0]) {
      assert t[1..] == s[1..] + [c];
      WordsAppendSpace(s[1..], c);
    } else {
      var n := TokenLength(s);
      TokenLengthAppend(s, c);
      assert t[..n] == s[..n];
      assert t[n..] == s[n..] + [c];
      WordsAppendSpace(s[n..], c);
    }
  }

  lemma {:induction false} WordsTrimEnd(s: string)
    ensures Words(TrimEnd(s)) == Words(s)
    decreases |s|
  {
    if s != [] && IsSpace(s[|s| - 1]) {
      var p := s[..|s| - 1];
      assert s == p + [s[|s| - 1]];
      WordsAppendSpace(p, s[|s| - 1]);
      WordsTrimEnd(p);
    }
  }

  /** text.strip().split() == text.split(). */
  lemma WordsStrip(s: string)
    ensures Words(Strip(s)) == Words(s)
  {
    WordsTrimStart(s);
    WordsTrimEnd(TrimStart(s));
  }
}
