/**
 The sample-date pattern `^Q[1-4] [0-9]{4}$` ("Q3 2021"), compiled once at
 app.py:22 and applied with Python's `re.match`.

 The pattern is a fixed run of single-character classes between the two
 anchors, so it is modelled as that run plus the anchoring rule. Under
 Python's `re`, `$` matches at the end of the text and also just before a
 newline that ends it.
 */
module DatePattern {

  /** One position of the pattern: a literal character or a range `[lo-hi]`. */
  datatype CharClass = Lit(c: char) | Span(lo: char, hi: char) {
    predicate Accepts(x: char) {
      match this
      case Lit(c) => x == c
      case Span(lo, hi) => lo <= x <= hi
    }
  }

  /** `Q[1-4] [0-9]{4}` as a run of classes. */
  const QuarterDate: seq<CharClass> :=
    [Lit('Q'), Span('1', '4'), Lit(' '), Span('0', '9'), Span('0', '9'), Span('0', '9'), Span('0', '9')]

  /** `re.match("^" + p + "$", s)` for a run of classes `p`: the text is the
      run, optionally followed by one final newline. */
  predicate MatchAnchored(p: seq<CharClass>, s: string) {
    var n := |p|;
    (|s| == n || (|s| == n + 1 && s[n] == '\n'))
    && forall i :: 0 <= i < n ==> p[i].Accepts(s[i])
  }

  /** `date_re.match(s)` is truthy. */
  predicate MatchesDateRe(s: string) {
    MatchAnchored(QuarterDate, s)
  }

  /** A quarter label spelled out: "Q", a quarter digit 1 to 4, one space,
      four decimal digits, and nothing after except one optional newline. */
  predicate IsQuarterLabel(s: string) {
    && (|s| == 7 || (|s| == 8 && s[7] == '\n'))
    && s[0] == 'Q'
    && '1' <= s[1] <= '4'
    && s[2] == ' '
    && '0' <= s[3] <= '9' && '0' <= s[4] <= '9' && '0' <= s[5] <= '9' && '0' <= s[6] <= '9'
  }

  /** The compiled pattern accepts exactly the quarter labels. */
  lemma DateReMatchesQuarterLabels(s: string)
    ensures MatchesDateRe(s) <==> IsQuarterLabel(s)
  {
    if IsQuarterLabel(s) {
      forall i | 0 <= i < 7
        ensures QuarterDate[i].Accepts(s[i])
      {
      }
    }
    if MatchesDateRe(s) {
      assert QuarterDate[0].Accepts(s[0]) && QuarterDate[1].Accepts(s[1]);
      assert QuarterDate[2].Accepts(s[2]) && QuarterDate[3].Accepts(s[3]);
      assert QuarterDate[4].Accepts(s[4]) && QuarterDate[5].Accepts(s[5]);
      assert QuarterDate[6].Accepts(s[6]);
    }
  }

  lemma DateReExamples()
    ensures MatchesDateRe("Q3 2021")
    ensures MatchesDateRe("Q3 2021\n")
    ensures !MatchesDateRe("Q5 2021")
    ensures !MatchesDateRe("Q3 21")
    ensures !MatchesDateRe("Q3 2021 ")
    ensures !MatchesDateRe("1/1/2020")
  {
    DateReMatchesQuarterLabels("Q3 2021");
    DateReMatchesQuarterLabels("Q3 2021\n");
    DateReMatchesQuarterLabels("Q5 2021");
    DateReMatchesQuarterLabels("Q3 2021 ");
  }
}
