/** The characters of an inserted `reserved` statement, read as the lexer reads them. */
module InsertedText {
  import opened Symbols
  import opened Syntax
  import opened TextFormat
  import opened TextRoundTrip
  import opened Grammar
  import opened PrunedParse
  import P = Pruner

  // ---- cutting characters into tokens -----------------------------------------------------------

  predicate IsDigit(c: char) {
    '0' <= c <= '9'
  }

  /** Blanks are skipped; words, integers, commas, minus signs and semicolons are tokens; other text is not looked at. */
  function CutChars(text: string): (r: Option<seq<Token>>)
    decreases |text|
  {
    if text == [] then Some([])
    else if text[0] == ' ' || text[0] == '\n' then CutChars(text[1..])
    else if text[0] == ',' || text[0] == '-' || text[0] == ';' then Push(Punct(text[0]), CutChars(text[1..]))
    else
      var n := RunLength(text);
      if n == 0 then None
      else if !IsDigit(text[0]) then Push(Ident(text[..n]), CutChars(text[n..]))
      else if forall i :: 0 <= i < n ==> IsDigit(text[i]) then Push(Int(text[..n]), CutChars(text[n..]))
      else None
  }

  predicate StartsNewWord(text: string) {
    text == [] || !IsWordChar(text[0])
  }

  // ---- numbers ------------------------------------------------------------------------------------

  lemma {:induction false} DigitsAreDigits(n: nat)
    ensures P.Digits(n) != "" && forall i :: 0 <= i < |P.Digits(n)| ==> IsDigit(P.Digits(n)[i])
  {
    if n >= 10 {
      DigitsAreDigits(n / 10);
    }
  }

  lemma {:induction false} WholeRun(word: string, more: string)
    requires (forall i :: 0 <= i < |word| ==> IsWordChar(word[i])) && StartsNewWord(more)
    ensures RunLength(word + more) == |word|
  {
    if word == [] {
      assert word + more == more;
    } else {
      assert (word + more)[1..] == word[1..] + more;
      WholeRun(word[1..], more);
    }
  }

  lemma CutInteger(digits: string, more: string)
    requires digits != "" && (forall i :: 0 <= i < |digits| ==> IsDigit(digits[i])) && StartsNewWord(more)
    ensures CutChars(digits + more) == Push(Int(digits), CutChars(more))
  {
    var text := digits + more;
    WholeRun(digits, more);
    assert text[..|digits|] == digits && text[|digits|..] == more;
    assert text[0] == digits[0] && IsDigit(text[0]);
  }

  lemma CutSign(c: char, more: string)
    requires c == ',' || c == '-' || c == ';'
    ensures CutChars([c] + more) == Push(Punct(c), CutChars(more))
  {
    assert ([c] + more)[1..] == more;
  }

  lemma CutBlank(c: char, more: string)
    requires c == ' ' || c == '\n'
    ensures CutChars([c] + more) == CutChars(more)
  {
    assert ([c] + more)[1..] == more;
  }

  lemma CutNegative(digits: string, more: string, k: seq<Token>)
    requires CutChars(digits + more) == Some(k)
    ensures CutChars(['-'] + digits + more) == Some([Punct('-')] + k)
  {
    CutSign('-', digits + more);
    assert ['-'] + digits + more == ['-'] + (digits + more);
  }

  lemma RangeTokens(negative: bool, digits: string, k: seq<Token>)
    ensures PutRange(Range(negative, digits, Open), k) == (if negative then [Punct('-')] else []) + ([Int(digits)] + k)
  {
  }

  lemma CutNumber(n: int, more: string, k: seq<Token>)
    requires StartsNewWord(more) && CutChars(more) == Some(k)
    ensures CutChars(P.Decimal(n) + more) == Some(PutRange(RangeOf(n), k))
  {
    var m: nat := if n < 0 then -n else n;
    DigitsAreDigits(m);
    CutInteger(P.Digits(m), more);
    RangeTokens(n < 0, P.Digits(m), k);
    if n < 0 {
      CutNegative(P.Digits(m), more, [Int(P.Digits(m))] + k);
    } else {
      assert [] + ([Int(P.Digits(m))] + k) == [Int(P.Digits(m))] + k;
    }
  }

  // ---- the list -------------------------------------------------------------------------------------

  lemma {:induction false} PutOneMore(ranges: seq<Range>, last: Range, k: seq<Token>)
    requires ranges != []
    ensures PutRanges(ranges + [last], k) == PutRanges(ranges, [Punct(',')] + PutRange(last, k))
  {
    var all := ranges + [last];
    if |ranges| == 1 {
      assert all[1..] == [last];
    } else {
      assert all[1..] == ranges[1..] + [last];
      PutOneMore(ranges[1..], last, k);
    }
  }

  lemma CutAfterComma(text: string, number: string, ts: seq<Token>)
    requires text == ", " + number && CutChars(number) == Some(ts)
    ensures CutChars(text) == Some([Punct(',')] + ts)
  {
    CutBlank(' ', number);
    CutSign(',', [' '] + number);
    assert text == [','] + ([' '] + number);
  }

  lemma CutNext(n: int, more: string, k: seq<Token>)
    requires StartsNewWord(more) && CutChars(more) == Some(k)
    ensures CutChars(", " + P.Decimal(n) + more) == Some([Punct(',')] + PutRange(RangeOf(n), k))
  {
    var number := P.Decimal(n) + more;
    CutNumber(n, more, k);
    assert ", " + P.Decimal(n) + more == ", " + number;
    CutAfterComma(", " + number, number, PutRange(RangeOf(n), k));
  }

  lemma ListedMore(ns: seq<int>)
    requires |ns| > 1
    ensures P.Listed(ns) == P.Listed(ns[..|ns| - 1]) + ", " + P.Decimal(ns[|ns| - 1])
  {
  }

  lemma Joined(a: string, b: string, c: string, more: string)
    ensures a + b + c + more == a + (b + c + more)
  {
  }

  lemma RangesMore(ns: seq<int>)
    requires ns != []
    ensures RangesOf(ns) == RangesOf(ns[..|ns| - 1]) + [RangeOf(ns[|ns| - 1])]
  {
  }

  lemma CutOne(n: int, more: string, k: seq<Token>)
    requires StartsNewWord(more) && CutChars(more) == Some(k)
    ensures CutChars(P.Listed([n]) + more) == Some(PutRanges(RangesOf([n]), k))
  {
    CutNumber(n, more, k);
    assert RangesOf([n]) == [RangeOf(n)];
  }

  lemma {:induction false} CutList(ns: seq<int>, more: string, k: seq<Token>)
    requires ns != [] && StartsNewWord(more) && CutChars(more) == Some(k)
    ensures CutChars(P.Listed(ns) + more) == Some(PutRanges(RangesOf(ns), k))
  {
    var init, n := ns[..|ns| - 1], ns[|ns| - 1];
    if |ns| == 1 {
      assert ns == [n];
      CutOne(n, more, k);
    } else {
      CutNext(n, more, k);
      ListedMore(ns);
      RangesMore(ns);
      Joined(P.Listed(init), ", ", P.Decimal(n), more);
      CutList(init, ", " + P.Decimal(n) + more, [Punct(',')] + PutRange(RangeOf(n), k));
      PutOneMore(RangesOf(init), RangeOf(n), k);
    }
  }

  // ---- the statement ----------------------------------------------------------------------------------

  lemma CutKeyword(more: string)
    ensures CutChars("\nreserved " + more) == Push(Ident("reserved"), CutChars(more))
  {
    var word, behind := "reserved", " " + more;
    CutBlank(' ', more);
    WholeRun(word, behind);
    var text := word + behind;
    assert text[..8] == word && text[8..] == behind && text[0] == 'r';
    CutBlank('\n', text);
    assert "\nreserved " + more == ['\n'] + text;
  }

  lemma CutEnd(more: string)
    ensures CutChars(";\n" + more) == Push(Punct(';'), CutChars(more))
  {
    CutBlank('\n', more);
    CutSign(';', "\n" + more);
    assert ";\n" + more == [';'] + ("\n" + more);
  }

  lemma TextParts(ns: seq<int>, more: string)
    ensures P.ReservedText(ns) + more == "\nreserved " + (P.Listed(ns) + (";\n" + more))
  {
  }

  lemma StatementParts(rs: seq<Range>, k: seq<Token>)
    ensures PutStmt(RangesStmt(rs), k) == [Ident("reserved")] + PutRanges(rs, [Punct(';')] + k)
  {
  }

  lemma KeywordAndList(text: string, list: string, ts: seq<Token>)
    requires text == "\nreserved " + list && CutChars(list) == Some(ts)
    ensures CutChars(text) == Some([Ident("reserved")] + ts)
  {
    CutKeyword(list);
  }

  /** The text is the statement that reserves these numbers, whatever follows it. */
  lemma TextIsStatement(ns: seq<int>, more: string, k: seq<Token>)
    requires ns != [] && CutChars(more) == Some(k)
    ensures CutChars(P.ReservedText(ns) + more) == Some(PutStmt(RangesStmt(RangesOf(ns)), k))
  {
    var end := ";\n" + more;
    CutEnd(more);
    CutList(ns, end, [Punct(';')] + k);
    TextParts(ns, more);
    StatementParts(RangesOf(ns), k);
    KeywordAndList(P.ReservedText(ns) + more, P.Listed(ns) + end, PutRanges(RangesOf(ns), [Punct(';')] + k));
  }

  /** The numbers that 64 bits hold: those of all fields and enum values are among them. */
  predicate FitsInt64(n: int) {
    -MAX_I64 - 1 <= n <= MAX_I64
  }

  lemma RangeMeans(n: int)
    requires FitsInt64(n)
    ensures RangeOf(n).end.Open? && SignedValue(RangeOf(n).start, RangeOf(n).negative) == Some(n)
  {
    DecimalValue(if n < 0 then -n else n);
  }

  /** The inserted characters are read as a statement that reserves exactly the given numbers. */
  lemma ReservesTheNumbers(ns: seq<int>)
    requires ns != [] && forall n :: n in ns ==> FitsInt64(n)
    ensures exists rs: seq<Range> ::
      && CutChars(P.ReservedText(ns)) == Some(PutStmt(RangesStmt(rs), []))
      && |rs| == |ns|
      && forall i :: 0 <= i < |rs| ==> rs[i].end.Open? && SignedValue(rs[i].start, rs[i].negative) == Some(ns[i])
  {
    var rs := RangesOf(ns);
    TextIsStatement(ns, "", []);
    assert P.ReservedText(ns) + "" == P.ReservedText(ns);
    forall i | 0 <= i < |rs| ensures rs[i].end.Open? && SignedValue(rs[i].start, rs[i].negative) == Some(ns[i]) {
      assert ns[i] in ns;
      RangeMeans(ns[i]);
    }
  }
}
