/**
 * The record reader: the character loop that splits a context string into
 * whitespace-delimited document tokens, and the mapping of raw entries to
 * `Data` records.
 */
module Reader {
  import opened Types

  /** Space, tab, carriage return, line feed and the narrow no-break space. */
  predicate IsWhitespace(c: char) {
    c == ' ' || c == '\t' || c == '\r' || c == '\n' || c == '\U{202F}'
  }

  /** A token the reader may emit: non-empty and free of whitespace. */
  predicate IsWordToken(t: string) {
    |t| > 0 && forall i :: 0 <= i < |t| ==> !IsWhitespace(t[i])
  }

  predicate AllWhitespace(w: string) {
    forall i :: 0 <= i < |w| ==> IsWhitespace(w[i])
  }

  /** The loop's state: the tokens so far and whether the last character was whitespace. */
  datatype ScanState = ScanState(tokens: seq<string>, prevIsWhitespace: bool)

  /** One iteration of the reader's character loop. */
  function Step(st: ScanState, c: char): ScanState
    requires !st.prevIsWhitespace ==> |st.tokens| > 0
  {
    if IsWhitespace(c) then ScanState(st.tokens, true)
    else if st.prevIsWhitespace then ScanState(st.tokens + [[c]], false)
    else
      var n := |st.tokens|;
      ScanState(st.tokens[..n - 1] + [st.tokens[n - 1] + [c]], false)
  }

  /**
   * The state of the reader's character loop after consuming all of `s`,
   * one character at a time from the left.
   */
  function Scan(s: string): (st: ScanState)
    ensures st.prevIsWhitespace <==> (|s| == 0 || IsWhitespace(s[|s| - 1]))
    ensures !st.prevIsWhitespace ==> |st.tokens| > 0
    decreases |s|
  {
    if |s| == 0 then ScanState([], true)
    else Step(Scan(s[..|s| - 1]), s[|s| - 1])
  }

  /** Every token the loop emits is non-empty and free of whitespace. */
  lemma {:induction false} ScanTokensAreWords(s: string)
    ensures forall i :: 0 <= i < |Scan(s).tokens| ==> IsWordToken(Scan(s).tokens[i])
    decreases |s|
  {
    if |s| > 0 {
      var p := s[..|s| - 1];
      var c := s[|s| - 1];
      ScanTokensAreWords(p);
      var T := Scan(p).tokens;
      if !IsWhitespace(c) && !Scan(p).prevIsWhitespace {
        var n := |T|;
        var last := T[n - 1] + [c];
        assert IsWordToken(T[n - 1]);
        assert IsWordToken(last);
        assert Scan(s).tokens == T[..n - 1] + [last];
      } else if !IsWhitespace(c) {
        assert IsWordToken([c]);
      }
    }
  }

  lemma ScanSnoc(u: string, c: char)
    ensures Scan(u + [c]) == Step(Scan(u), c)
  {
    assert (u + [c])[..|u|] == u;
  }

  /** The document tokens of a context string. */
  function DocTokens(context: string): (tokens: seq<string>)
    ensures forall i :: 0 <= i < |tokens| ==> IsWordToken(tokens[i])
  {
    ScanTokensAreWords(context);
    Scan(context).tokens
  }

  /** Reference: the context with every whitespace character deleted. */
  function StripWhitespace(s: string): string
    decreases |s|
  {
    if |s| == 0 then []
    else
      var c := s[|s| - 1];
      StripWhitespace(s[..|s| - 1]) + (if IsWhitespace(c) then [] else [c])
  }

  /** Reference: the tokens glued together with nothing between them. */
  function Concat(tokens: seq<string>): string
    decreases |tokens|
  {
    if |tokens| == 0 then [] else Concat(tokens[..|tokens| - 1]) + tokens[|tokens| - 1]
  }

  /** Position `i` is the first character of a maximal run of non-whitespace. */
  predicate StartsRun(s: string, i: int)
    requires 0 <= i < |s|
  {
    !IsWhitespace(s[i]) && (i == 0 || IsWhitespace(s[i - 1]))
  }

  /** Reference: the set of positions where a maximal non-whitespace run begins. */
  function RunStarts(s: string): set<int> {
    set i | 0 <= i < |s| && StartsRun(s, i)
  }

  /** The tokens separated by `sep`. */
  function Join(tokens: seq<string>, sep: string): string
    decreases |tokens|
  {
    if |tokens| == 0 then []
    else if |tokens| == 1 then tokens[0]
    else Join(tokens[..|tokens| - 1], sep) + sep + tokens[|tokens| - 1]
  }

  /** Gluing the tokens back together gives the context minus its whitespace. */
  lemma {:induction false} ConcatIsStripped(s: string)
    ensures Concat(DocTokens(s)) == StripWhitespace(s)
    decreases |s|
  {
    if |s| > 0 {
      var p := s[..|s| - 1];
      var c := s[|s| - 1];
      ConcatIsStripped(p);
      var t := Scan(p).tokens;
      if !IsWhitespace(c) {
        if Scan(p).prevIsWhitespace {
          assert (t + [[c]])[..|t|] == t;
        } else {
          var n := |t|;
          var t' := t[..n - 1] + [t[n - 1] + [c]];
          assert t'[..n - 1] == t[..n - 1];
          assert Concat(t) == Concat(t[..n - 1]) + t[n - 1];
        }
      }
    }
  }

  /** The reader emits exactly one token per maximal non-whitespace run. */
  lemma {:induction false} TokenCountIsRunCount(s: string)
    ensures |DocTokens(s)| == |RunStarts(s)|
    decreases |s|
  {
    if |s| > 0 {
      var n := |s|;
      var p := s[..n - 1];
      TokenCountIsRunCount(p);
      assert forall i :: 0 <= i < n - 1 ==> (StartsRun(s, i) <==> StartsRun(p, i));
      if StartsRun(s, n - 1) {
        assert RunStarts(s) == RunStarts(p) + {n - 1};
        assert n - 1 !in RunStarts(p);
      } else {
        assert RunStarts(s) == RunStarts(p);
      }
    }
  }

  /** Trailing whitespace closes the current token and adds none. */
  lemma {:induction false} ScanAppendWhitespace(s: string, w: string)
    requires |w| > 0 && AllWhitespace(w)
    ensures Scan(s + w) == ScanState(Scan(s).tokens, true)
    decreases |w|
  {
    var sw := s + w;
    assert sw[..|sw| - 1] == s + w[..|w| - 1];
    if |w| > 1 {
      ScanAppendWhitespace(s, w[..|w| - 1]);
    } else {
      assert sw[..|sw| - 1] == s;
    }
  }

  /** A word appended after whitespace (or at the start) becomes one new token. */
  lemma {:induction false} ScanAppendWord(s: string, t: string)
    requires Scan(s).prevIsWhitespace
    requires IsWordToken(t)
    ensures Scan(s + t) == ScanState(Scan(s).tokens + [t], false)
    decreases |t|
  {
    var c := t[|t| - 1];
    var t0 := t[..|t| - 1];
    var T := Scan(s).tokens;
    if |t| == 1 {
      calc {
        Scan(s + t);
        { assert s + t == s + [c]; }
        Scan(s + [c]);
        { ScanSnoc(s, c); }
        Step(Scan(s), c);
        { assert [c] == t; }
        ScanState(T + [t], false);
      }
    } else {
      calc {
        Scan(s + t);
        { assert s + t == (s + t0) + [c]; }
        Scan((s + t0) + [c]);
        { ScanSnoc(s + t0, c); }
        Step(Scan(s + t0), c);
        { assert IsWordToken(t0); ScanAppendWord(s, t0); }
        Step(ScanState(T + [t0], false), c);
        { StepExtendsLast(T, t0, c); }
        ScanState(T + [t0 + [c]], false);
        { assert t0 + [c] == t; }
        ScanState(T + [t], false);
      }
    }
  }

  /** A non-whitespace character after a non-whitespace one extends the last token. */
  lemma StepExtendsLast(T: seq<string>, t0: string, c: char)
    requires !IsWhitespace(c)
    ensures Step(ScanState(T + [t0], false), c) == ScanState(T + [t0 + [c]], false)
  {
    assert (T + [t0])[..|T|] == T;
  }

  /**
   * Re-reading tokens joined by a whitespace separator gives the same tokens
   * back.
   */
  lemma {:induction false} JoinRoundTrip(tokens: seq<string>, sep: string)
    requires forall i :: 0 <= i < |tokens| ==> IsWordToken(tokens[i])
    requires |sep| > 0 && AllWhitespace(sep)
    ensures DocTokens(Join(tokens, sep)) == tokens
    ensures Scan(Join(tokens, sep)).prevIsWhitespace <==> |tokens| == 0
    decreases |tokens|
  {
    var n := |tokens|;
    if n == 1 {
      ScanAppendWord([], tokens[0]);
      assert [] + tokens[0] == tokens[0];
      assert [] + [tokens[0]] == tokens;
    } else if n > 1 {
      var init := tokens[..n - 1];
      var j := Join(init, sep);
      JoinRoundTrip(init, sep);
      ScanAppendWhitespace(j, sep);
      ScanAppendWord(j + sep, tokens[n - 1]);
      assert init + [tokens[n - 1]] == tokens;
    }
  }

  /** Reading is idempotent: re-reading the space-joined tokens changes nothing. */
  lemma ReadIsIdempotent(context: string)
    ensures DocTokens(Join(DocTokens(context), " ")) == DocTokens(context)
  {
    JoinRoundTrip(DocTokens(context), " ");
  }

  lemma AllConcatStripped(entries: seq<Entry>)
    ensures forall i :: 0 <= i < |entries| ==>
      Concat(DocTokens(entries[i].context)) == StripWhitespace(entries[i].context)
  {
    forall i | 0 <= i < |entries|
      ensures Concat(DocTokens(entries[i].context)) == StripWhitespace(entries[i].context)
    {
      ConcatIsStripped(entries[i].context);
    }
  }

  /** One `Data` record per entry, its context split into document tokens. */
  function ReadData(entries: seq<Entry>): (datas: seq<Data>)
    ensures |datas| == |entries|
    ensures forall i :: 0 <= i < |entries| ==>
      && datas[i].questionText == entries[i].question
      && datas[i].answersText == entries[i].answers
      && (forall k :: 0 <= k < |datas[i].docTokens| ==> IsWordToken(datas[i].docTokens[k]))
      && Concat(datas[i].docTokens) == StripWhitespace(entries[i].context)
  {
    AllConcatStripped(entries);
    seq(|entries|, i requires 0 <= i < |entries| =>
      Data(entries[i].question, DocTokens(entries[i].context), entries[i].answers))
  }
}
