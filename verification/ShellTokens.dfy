/** How the readings of pieces of shell text make the reading of their joining. */
module ShellTokens {
  import opened Wrappers
  import opened ShellText

  /** The tokens read so far, the pending word included. */
  function Flush(s: Reader): seq<Token> {
    if s.mode == Bare then s.out + [Word(s.word, s.plain)] else s.out
  }

  /** Wherever a token may start, `text` gives exactly `toks` and leaves no quotation open. */
  ghost predicate Reads(text: string, toks: seq<Token>) {
    forall out :: ReadsFrom(text, toks, out)
  }

  ghost predicate ReadsFrom(text: string, toks: seq<Token>, out: seq<Token>) {
    var t := Run(START.(out := out), text);
    Ready(t) && Flush(t) == out + toks
  }

  lemma {:induction false} SpaceAfter(t: Reader)
    requires Ready(t)
    ensures Run(t, " ") == START.(out := Flush(t))
  {
    RunOne(t, ' ');
  }

  lemma {:induction false} OpAfter(t: Reader, c: char)
    requires Ready(t) && Operator(c)
    ensures Run(t, [c]) == START.(out := Flush(t) + [Op(c)])
  {
    RunOne(t, c);
  }

  lemma Spaced(a: string, b: string, ta: seq<Token>, tb: seq<Token>)
    requires Reads(a, ta) && Reads(b, tb)
    ensures Reads(a + " " + b, ta + tb)
  {
    forall out ensures ReadsFrom(a + " " + b, ta + tb, out) {
      assert ReadsFrom(a, ta, out) && ReadsFrom(b, tb, out + ta);
      SpacedFrom(a, b, ta, tb, out);
    }
  }

  lemma SpacedFrom(a: string, b: string, ta: seq<Token>, tb: seq<Token>, out: seq<Token>)
    requires ReadsFrom(a, ta, out) && ReadsFrom(b, tb, out + ta)
    ensures ReadsFrom(a + " " + b, ta + tb, out)
  {
    var s := START.(out := out);
    RunConcat(s, a + " ", b);
    RunConcat(s, a, " ");
    SpaceAfter(Run(s, a));
    assert out + ta + tb == out + (ta + tb);
  }

  lemma Closed(a: string, ta: seq<Token>, c: char)
    requires Reads(a, ta) && Operator(c)
    ensures Reads(a + [c], ta + [Op(c)])
  {
    forall out ensures ReadsFrom(a + [c], ta + [Op(c)], out) {
      assert ReadsFrom(a, ta, out);
      RunConcat(START.(out := out), a, [c]);
      OpAfter(Run(START.(out := out), a), c);
      assert out + ta + [Op(c)] == out + (ta + [Op(c)]);
    }
  }

  lemma Opened(a: string, ta: seq<Token>, c: char)
    requires Reads(a, ta) && Operator(c)
    ensures Reads([c] + a, [Op(c)] + ta)
  {
    forall out ensures ReadsFrom([c] + a, [Op(c)] + ta, out) {
      var s := START.(out := out);
      RunConcat(s, [c], a);
      OpAfter(s, c);
      assert ReadsFrom(a, ta, out + [Op(c)]);
      assert out + [Op(c)] + ta == out + ([Op(c)] + ta);
    }
  }

  lemma Nothing()
    ensures Reads("", [])
  {
    forall out ensures ReadsFrom("", [], out) {
      assert out + [] == out;
    }
  }

  lemma AfterSemicolon(a: string, b: string, ta: seq<Token>, tb: seq<Token>)
    requires Reads(a, ta) && Reads(b, tb)
    ensures Reads(a + "; " + b, ta + [Op(';')] + tb)
  {
    Closed(a, ta, ';');
    Spaced(a + [';'], b, ta + [Op(';')], tb);
    assert a + [';'] + " " + b == a + "; " + b;
  }

  lemma OneWord(text: string, v: Text)
    requires ReadsAs(text, v)
    ensures Reads(text, [Word(v, true)])
  {
    forall out ensures ReadsFrom(text, [Word(v, true)], out) {
      assert WordReadsFrom(text, Word(v, true), out);
    }
  }

  lemma SafeWord(w: string)
    requires w != "" && AllSafe(w)
    ensures Reads(w, [W(w)])
  {
    QuoteReadsAs(w);
    OneWord(w, Chars(w));
  }

  lemma {:induction false} ManyWords(texts: seq<string>, values: seq<Text>)
    requires |texts| == |values| >= 1
    requires forall i :: 0 <= i < |texts| ==> ReadsAs(texts[i], values[i])
    ensures Reads(JoinWith(texts, " "), AsTokens(values))
  {
    var n := |values| - 1;
    forall out ensures ReadsFrom(JoinWith(texts, " "), AsTokens(values), out) {
      ListReads(texts, values, out);
      AsTokensLast(values);
      assert out + AsTokens(values[..n]) + [Word(values[n], true)]
          == out + ([] + AsTokens(values[..n]) + [Word(values[n], true)]);
    }
  }

  // ----- lines -----

  function JoinTokens(lines: seq<seq<Token>>): seq<Token> {
    if lines == [] then []
    else if |lines| == 1 then lines[0]
    else JoinTokens(lines[..|lines| - 1]) + [Op(';')] + lines[|lines| - 1]
  }

  ghost predicate AllRead(lines: seq<string>, toks: seq<seq<Token>>) {
    |lines| == |toks| && forall i :: 0 <= i < |lines| ==> Reads(lines[i], toks[i])
  }

  lemma {:induction false} LinesRead(lines: seq<string>, toks: seq<seq<Token>>)
    requires AllRead(lines, toks)
    ensures Reads(JoinWith(lines, "; "), JoinTokens(toks))
  {
    var n := |lines| - 1;
    if n < 0 {
      Nothing();
    } else if n > 0 {
      LinesRead(lines[..n], toks[..n]);
      AfterSemicolon(JoinWith(lines[..n], "; "), lines[n], JoinTokens(toks[..n]), toks[n]);
    }
  }

  lemma TokensOf(text: string, toks: seq<Token>)
    requires Reads(text, toks)
    ensures Tokens(text) == Some(toks)
  {
    assert START.(out := []) == START;
    assert ReadsFrom(text, toks, []);
    assert [] + toks == toks;
  }

  // ----- the pieces of the templates -----

  function W(w: string): Token {
    Word(Chars(w), true)
  }

  lemma TwoWords(a: string, b: string)
    requires a != "" && AllSafe(a) && b != "" && AllSafe(b)
    ensures Reads(a + " " + b, [W(a), W(b)])
  {
    SafeWord(a);
    SafeWord(b);
    Spaced(a, b, [W(a)], [W(b)]);
    assert [W(a)] + [W(b)] == [W(a), W(b)];
  }

  lemma AfterOp(a: string, b: string, ta: seq<Token>, tb: seq<Token>, c: char)
    requires Reads(a, ta) && Reads(b, tb) && Operator(c)
    ensures Reads(a + [c] + b, ta + [Op(c)] + tb)
  {
    forall out ensures ReadsFrom(a + [c] + b, ta + [Op(c)] + tb, out) {
      assert ReadsFrom(a, ta, out) && ReadsFrom(b, tb, out + ta + [Op(c)]);
      AfterOpFrom(a, b, ta, tb, c, out);
    }
  }

  lemma AfterOpFrom(a: string, b: string, ta: seq<Token>, tb: seq<Token>, c: char, out: seq<Token>)
    requires ReadsFrom(a, ta, out) && ReadsFrom(b, tb, out + ta + [Op(c)]) && Operator(c)
    ensures ReadsFrom(a + [c] + b, ta + [Op(c)] + tb, out)
  {
    var s, u := START.(out := out), START.(out := out + ta + [Op(c)]);
    RunConcat(s, a, [c]);
    OpAfter(Run(s, a), c);
    RunConcat(s, a + [c], b);
    assert Run(s, a + [c] + b) == Run(u, b);
    Regroup(out, ta, [Op(c)], tb);
  }

  lemma Regroup(out: seq<Token>, a: seq<Token>, c: seq<Token>, b: seq<Token>)
    ensures out + a + c + b == out + (a + c + b)
  {
  }

  lemma OpAlone(c: char)
    requires Operator(c)
    ensures Reads([c], [Op(c)])
  {
    Nothing();
    Opened("", [], c);
    assert [c] + "" == [c] && [Op(c)] + [] == [Op(c)];
  }

  /** A bracket alone is one word; the opening one is also a pattern character. */
  lemma BracketReads(c: char, toks: seq<Token>)
    requires (c == '[' || c == ']') && toks == [Word(Chars([c]), c == ']')]
    ensures Reads([c], toks)
  {
    forall out ensures ReadsFrom([c], toks, out) {
      RunOne(START.(out := out), c);
      var s := Reader(Bare, [], true, out);
      assert !Operator(c);
      assert BareStep(s, c) == Reader(Bare, s.word + [Char(c)], s.plain && c != '[', s.out);
      assert s.word + [Char(c)] == Chars([c]);
    }
  }

  lemma {:induction false} SafeInDouble(s: Reader, w: string)
    requires s.mode == Double && AllSafe(w)
    ensures Run(s, w) == s.(word := s.word + Chars(w))
  {
    if w == "" {
      assert s.word + Chars(w) == s.word;
    } else {
      var n := |w| - 1;
      SafeInDouble(s, w[..n]);
      assert Safe(w[n]);
      CharsNext(s.word, w);
    }
  }
}
