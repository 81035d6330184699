/**
 Whitespace and Python's argument-less `str.split()`.

 `remove_units` keeps `value.split()[0]`, so the model needs the exact
 tokenising rule: runs of whitespace separate tokens, leading and trailing
 whitespace produce no empty tokens, and a blank string yields no token.
 */
module Text {

  /** Python's `str.isspace()` for one character, by code point: the ASCII
      controls TAB..CR, the separators FS..US, SPACE, NEL, NO-BREAK SPACE, the
      Unicode space separators, and LINE SEPARATOR and PARAGRAPH SEPARATOR
      (U+2028, U+2029). */
  predicate IsSpace(c: char) {
    var n := c as int;
    || 0x09 <= n <= 0x0D
    || 0x1C <= n <= 0x20
    || n == 0x85 || n == 0xA0 || n == 0x1680
    || 0x2000 <= n <= 0x200A
    || n == 0x2028 || n == 0x2029 || n == 0x202F || n == 0x205F || n == 0x3000
  }

  predicate NoSpace(s: string) {
    forall i :: 0 <= i < |s| ==> !IsSpace(s[i])
  }

  predicate AllSpace(s: string) {
    forall i :: 0 <= i < |s| ==> IsSpace(s[i])
  }

  /** A token of `split()`: a non-empty run of non-space characters. */
  predicate IsToken(w: string) {
    w != [] && NoSpace(w)
  }

  /** The length of the longest prefix of `s` that holds no whitespace. */
  function WordLength(s: string): (n: nat)
    ensures n <= |s| && NoSpace(s[..n])
    ensures n == |s| || IsSpace(s[n])
  {
    if |s| > 0 && !IsSpace(s[0]) then 1 + WordLength(s[1..]) else 0
  }

  /** Python's `s.split()`: the whitespace-separated tokens of `s`, in
      order. Leading whitespace is skipped one character at a time; otherwise
      the maximal non-space run in front is the next token. */
  function Split(s: string): (r: seq<string>)
    ensures |r| <= |s|
    decreases |s|
  {
    if s == [] then []
    else if IsSpace(s[0]) then Split(s[1..])
    else [s[..WordLength(s)]] + Split(s[WordLength(s)..])
  }

  /** Every element `split()` returns is a token. */
  lemma {:induction false} SplitYieldsTokens(s: string)
    ensures forall i :: 0 <= i < |Split(s)| ==> IsToken(Split(s)[i])
    decreases |s|
  {
    if s != [] {
      if IsSpace(s[0]) {
        SplitYieldsTokens(s[1..]);
      } else {
        SplitYieldsTokens(s[WordLength(s)..]);
      }
    }
  }

  /** `split()` finds no token exactly when the string is blank. */
  lemma {:induction false} SplitEmptyIffBlank(s: string)
    ensures Split(s) == [] <==> AllSpace(s)
    decreases |s|
  {
    if s != [] && IsSpace(s[0]) {
      SplitEmptyIffBlank(s[1..]);
      assert AllSpace(s) <==> AllSpace(s[1..]) by {
        assert forall i :: 0 < i < |s| ==> s[i] == s[1..][i - 1];
      }
    }
  }

  /** `w` sits at position `i` of `s` as its first token: a blank prefix of
      length `i`, then `w`, then the end of `s` or a whitespace character. */
  predicate FirstTokenAt(w: string, s: string, i: int) {
    && 0 <= i && i + |w| <= |s|
    && AllSpace(s[..i])
    && s[i..i + |w|] == w
    && (i + |w| == |s| || IsSpace(s[i + |w|]))
  }

  /** `w` is the first whitespace-delimited token of `s`. */
  predicate IsFirstToken(w: string, s: string) {
    IsToken(w) && exists i :: 0 <= i <= |s| && FirstTokenAt(w, s, i)
  }

  /** A space in front moves the first token one place right. */
  lemma FirstTokenAfterSpace(w: string, s: string, i: int)
    requires s != [] && IsSpace(s[0]) && FirstTokenAt(w, s[1..], i)
    ensures FirstTokenAt(w, s, i + 1)
  {
    var t := s[1..];
    var blank := s[..i + 1];
    forall j | 0 <= j < |blank|
      ensures IsSpace(blank[j])
    {
      if j > 0 {
        assert blank[j] == t[..i][j - 1];
      }
    }
    assert s[i + 1..i + 1 + |w|] == t[i..i + |w|];
    assert i + 1 + |w| == |s| || s[i + 1 + |w|] == t[i + |w|];
  }

  /** Behind a first token that does not start the string, the string
      starts with a space, and the rest has the same first token. */
  lemma FirstTokenBehindSpace(w: string, s: string, i: int)
    requires FirstTokenAt(w, s, i) && i > 0
    ensures IsSpace(s[0]) && FirstTokenAt(w, s[1..], i - 1)
  {
    var t := s[1..];
    assert s[..i][0] == s[0];
    var blank := t[..i - 1];
    forall j | 0 <= j < |blank|
      ensures IsSpace(blank[j])
    {
      assert blank[j] == s[..i][j + 1];
    }
    assert t[i - 1..i - 1 + |w|] == s[i..i + |w|];
    assert i - 1 + |w| == |t| || t[i - 1 + |w|] == s[i + |w|];
  }

  /** The head of `split()` is the first token. */
  lemma {:induction false} SplitHeadIsFirstToken(s: string)
    requires Split(s) != []
    ensures IsFirstToken(Split(s)[0], s)
    decreases |s|
  {
    SplitYieldsTokens(s);
    var w := Split(s)[0];
    if IsSpace(s[0]) {
      SplitHeadIsFirstToken(s[1..]);
      var i :| FirstTokenAt(w, s[1..], i);
      FirstTokenAfterSpace(w, s, i);
    } else {
      var n := WordLength(s);
      assert w == s[0..n];
      assert s[..0] == [];
      assert FirstTokenAt(w, s, 0);
    }
  }

  /** Conversely, the first token is what `split()` puts first. */
  lemma {:induction false} FirstTokenIsSplitHead(w: string, s: string)
    requires IsFirstToken(w, s)
    ensures Split(s) != [] && Split(s)[0] == w
    decreases |s|
  {
    var i :| FirstTokenAt(w, s, i);
    if i == 0 {
      var rest := s[|w|..];
      assert s == w + rest;
      assert rest == [] || rest[0] == s[|w|];
      WordLengthOfToken(w, rest);
    } else {
      FirstTokenBehindSpace(w, s, i);
      FirstTokenIsSplitHead(w, s[1..]);
    }
  }

  /** A string has at most one first token. */
  lemma FirstTokenUnique(w: string, v: string, s: string)
    requires IsFirstToken(w, s) && IsFirstToken(v, s)
    ensures w == v
  {
    FirstTokenIsSplitHead(w, s);
    FirstTokenIsSplitHead(v, s);
  }

  /** `s` with every whitespace character deleted. */
  function DeleteSpaces(s: string): string {
    if s == [] then []
    else if IsSpace(s[0]) then DeleteSpaces(s[1..])
    else [s[0]] + DeleteSpaces(s[1..])
  }

  /** The tokens written back to back, with no separator. */
  function Concat(ws: seq<string>): string {
    if ws == [] then [] else ws[0] + Concat(ws[1..])
  }

  /** The tokens written with one space between consecutive tokens. */
  function JoinWithSpace(ws: seq<string>): string {
    if ws == [] then []
    else if |ws| == 1 then ws[0]
    else ws[0] + " " + JoinWithSpace(ws[1..])
  }

  lemma {:induction false} DeleteSpacesAppend(a: string, b: string)
    ensures DeleteSpaces(a + b) == DeleteSpaces(a) + DeleteSpaces(b)
    decreases |a|
  {
    if a == [] {
      assert a + b == b;
    } else {
      assert (a + b)[1..] == a[1..] + b;
      DeleteSpacesAppend(a[1..], b);
    }
  }

  lemma {:induction false} DeleteSpacesOfToken(w: string)
    requires NoSpace(w)
    ensures DeleteSpaces(w) == w
    decreases |w|
  {
    if w != [] {
      DeleteSpacesOfToken(w[1..]);
    }
  }

  lemma ConcatCons(w: string, ws: seq<string>)
    ensures Concat([w] + ws) == w + Concat(ws)
  {
    assert ([w] + ws)[1..] == ws;
  }

  /** Splitting loses only whitespace: the tokens, written back to back,
      are the non-space characters of `s` in their original order. */
  lemma {:induction false} SplitKeepsEveryNonSpace(s: string)
    ensures Concat(Split(s)) == DeleteSpaces(s)
    decreases |s|
  {
    if s != [] {
      if IsSpace(s[0]) {
        SplitKeepsEveryNonSpace(s[1..]);
      } else {
        var n := WordLength(s);
        var w := s[..n];
        var rest := s[n..];
        assert s == w + rest;
        calc {
          Concat(Split(s));
          { ConcatCons(w, Split(rest)); }
          w + Concat(Split(rest));
          { SplitKeepsEveryNonSpace(rest); }
          w + DeleteSpaces(rest);
          { DeleteSpacesOfToken(w); }
          DeleteSpaces(w) + DeleteSpaces(rest);
          { DeleteSpacesAppend(w, rest); }
          DeleteSpaces(s);
        }
      }
    }
  }

  lemma {:induction false} WordLengthOfToken(w: string, rest: string)
    requires NoSpace(w)
    requires rest == [] || IsSpace(rest[0])
    ensures WordLength(w + rest) == |w|
    decreases |w|
  {
    if w == [] {
      assert w + rest == rest;
    } else {
      assert (w + rest)[1..] == w[1..] + rest;
      WordLengthOfToken(w[1..], rest);
    }
  }

  /** A whitespace character in front changes nothing `split()` returns.
      With `SplitAfterToken` and `Split([]) == []` this fixes every token:
      each string is empty, starts with whitespace, or starts with a token. */
  lemma SplitOfLeadingWhitespace(c: char, s: string)
    requires IsSpace(c)
    ensures Split([c] + s) == Split(s)
  {
    assert ([c] + s)[1..] == s;
  }

  /** A token followed by whitespace or nothing splits off as the first
      element. */
  lemma SplitAfterToken(w: string, rest: string)
    requires IsToken(w) && (rest == [] || IsSpace(rest[0]))
    ensures Split(w + rest) == [w] + Split(rest)
  {
    var s := w + rest;
    WordLengthOfToken(w, rest);
    assert s[0] == w[0];
    assert s[..|w|] == w;
    assert s[|w|..] == rest;
  }

  /** A single token splits into itself. */
  lemma SplitOfToken(w: string)
    requires IsToken(w)
    ensures Split(w) == [w]
  {
    SplitAfterToken(w, []);
    assert w + [] == w;
  }

  /** Round trip: tokens joined by single spaces split back into the same
      tokens. */
  lemma {:induction false} SplitJoinRoundTrip(ws: seq<string>)
    requires forall i :: 0 <= i < |ws| ==> IsToken(ws[i])
    ensures Split(JoinWithSpace(ws)) == ws
    decreases |ws|
  {
    if |ws| == 1 {
      SplitOfToken(ws[0]);
    } else if |ws| > 1 {
      var rest := JoinWithSpace(ws[1..]);
      assert JoinWithSpace(ws) == ws[0] + (" " + rest);
      SplitAfterToken(ws[0], " " + rest);
      assert " " + rest == [' '] + rest;
      SplitOfLeadingWhitespace(' ', rest);
      SplitJoinRoundTrip(ws[1..]);
      assert ws == [ws[0]] + ws[1..];
    }
  }
}
