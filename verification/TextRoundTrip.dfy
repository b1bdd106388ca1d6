/** Printed names, constants and aggregates read back as themselves. */
module TextRoundTrip {
  import opened Symbols
  import opened Syntax
  import opened TextFormat

  // ---- what parsing produces ------------------------------------------------------------------

  predicate LegalName(parts: seq<NamePart>) {
    parts != [] && forall i :: 0 <= i < |parts| ==> parts[i].Ext? ==> parts[i].path.segs != []
  }

  predicate LegalScalar(sign: Sign, tok: Token) {
    if sign.Unsigned? then IsNumber(tok) || tok.Ident? else MayBeSigned(tok)
  }

  predicate LegalVal(v: TextVal)
    decreases v
  {
    match v
    case Scalar(sign, tok) => LegalScalar(sign, tok)
    case Strings(parts) => parts != []
    case Nested(fields) => LegalFields(fields)
    case List(items) => LegalVals(items)
  }

  /** Lists do not nest. */
  predicate LegalVals(items: seq<TextVal>)
    decreases items
  {
    items == [] || (!items[0].List? && LegalVal(items[0]) && LegalVals(items[1..]))
  }

  predicate LegalFields(fields: seq<TextField>)
    decreases fields
  {
    fields == [] || (LegalField(fields[0]) && LegalFields(fields[1..]))
  }

  predicate LegalField(f: TextField)
    decreases f
  {
    LegalVal(f.value)
  }

  predicate LegalConst(c: Constant) {
    match c
    case ConstPath(p) => !p.dot && p.segs != []
    case ConstNum(sign, tok) => if sign.Unsigned? then IsNumber(tok) else MayBeSigned(tok)
    case ConstStr(parts) => parts != []
    case Aggregate(fields) => LegalFields(fields)
  }

  predicate StartsString(ts: seq<Token>) {
    ts != [] && ts[0].Str?
  }

  // ---- names and scalars ------------------------------------------------------------------------

  lemma {:induction false} SegsBack(segs: seq<string>, k: seq<Token>)
    requires segs != [] && !At(k, '.')
    ensures ParseSegs(PutSegs(segs, k)) == Ok(segs, k)
  {
    var ts := PutSegs(segs, k);
    if |segs| == 1 {
      assert ts[1..] == k;
      assert [segs[0]] == segs;
    } else {
      var rest := PutSegs(segs[1..], k);
      SegsBack(segs[1..], k);
      assert ts[1..] == [Punct('.')] + rest && ts[2..] == rest;
      assert [segs[0]] + segs[1..] == segs;
    }
  }

  lemma PathBack(p: Path, k: seq<Token>)
    requires p.segs != [] && !At(k, '.')
    ensures ParsePath(PutPath(p, k)) == Ok(p, k)
    ensures PutPath(p, k) != [] && (if p.dot then At(PutPath(p, k), '.') else PutPath(p, k)[0] == Ident(p.segs[0]))
  {
    SegsBack(p.segs, k);
    if p.dot {
      assert PutPath(p, k)[1..] == PutSegs(p.segs, k);
    }
  }

  lemma PartBack(part: NamePart, k: seq<Token>)
    requires part.Ext? ==> part.path.segs != []
    ensures ParsePart(PutPart(part, k)) == Ok(part, k)
    ensures PutPart(part, k) != []
  {
    match part
    case Bare(name) => assert PutPart(part, k)[1..] == k;
    case Ext(path) =>
      var inner := [Punct(')')] + k;
      PathBack(path, inner);
      assert PutPart(part, k)[1..] == PutPath(path, inner);
      assert inner[1..] == k;
  }

  lemma {:induction false} NameBack(parts: seq<NamePart>, k: seq<Token>)
    requires LegalName(parts) && !At(k, '.')
    ensures ParseName(PutName(parts, k)) == Ok(parts, k)
  {
    if |parts| == 1 {
      PartBack(parts[0], k);
      assert [parts[0]] == parts;
    } else {
      var rest := PutName(parts[1..], k);
      NameBack(parts[1..], k);
      PartBack(parts[0], [Punct('.')] + rest);
      assert ([Punct('.')] + rest)[1..] == rest;
      assert [parts[0]] + parts[1..] == parts;
    }
  }

  lemma {:induction false} StringsBack(parts: seq<string>, k: seq<Token>)
    requires parts != [] && !StartsString(k)
    ensures ParseStrings(PutStrings(parts, k)) == Ok(parts, k)
    ensures StartsString(PutStrings(parts, k))
  {
    var rest := PutStrings(parts[1..], k);
    assert PutStrings(parts, k)[1..] == rest;
    if |parts| == 1 {
      assert [parts[0]] == parts && rest == k;
    } else {
      StringsBack(parts[1..], k);
      assert [parts[0]] + parts[1..] == parts;
    }
  }

  lemma SignedBack(sign: Sign, tok: Token, k: seq<Token>)
    requires !sign.Unsigned? && MayBeSigned(tok)
    ensures
      var ts := PutSigned(sign, tok, k);
      (At(ts, '-') || At(ts, '+')) && ParseSigned(ts) == Ok((sign, tok), k)
  {
    assert PutSigned(sign, tok, k)[2..] == k;
    assert PutSigned(sign, tok, k)[1..] == [tok] + k;
  }

  // ---- bracket names ------------------------------------------------------------------------------

  lemma GlueStep(t: Token, text: string, rest: seq<Token>)
    requires t == Ident(text) || (t == Punct('.') && text == ".") || (t == Punct('/') && text == "/")
    ensures ParseBracket([t] + rest) == Glue(text, ParseBracket(rest))
  {
    assert ([t] + rest)[1..] == rest;
  }

  lemma GlueMore(t: Token, text: string, more: seq<Token>, rest: string, close: seq<Token>)
    requires t == Ident(text) || (t == Punct('.') && text == ".") || (t == Punct('/') && text == "/")
    requires ParseBracket(more + close) == Ok(rest, close)
    ensures ParseBracket(([t] + more) + close) == Ok(text + rest, close)
  {
    GlueStep(t, text, more + close);
    assert [t] + more + close == [t] + (more + close);
  }

  /** The first token of a name, and the text it stands for. */
  lemma CutFirst(text: string) returns (t: Token, n: nat)
    requires text != [] && CutName(text).Some?
    ensures 0 < n <= |text| && CutName(text[n..]).Some?
    ensures CutName(text).value == [t] + CutName(text[n..]).value
    ensures t == Ident(text[..n]) || (t == Punct('.') && text[..n] == ".") || (t == Punct('/') && text[..n] == "/")
  {
    if text[0] == '.' || text[0] == '/' {
      t, n := Punct(text[0]), 1;
      assert text[..1] == [text[0]];
    } else {
      n := WordLength(text);
      t := Ident(text[..n]);
    }
  }

  /** Cutting a name and gluing the pieces again gives the name. */
  lemma {:induction false} BracketBack(text: string, k: seq<Token>)
    requires CutName(text).Some?
    ensures ParseBracket(CutName(text).value + ([Punct(']')] + k)) == Ok(text, [Punct(']')] + k)
    decreases |text|
  {
    var close := [Punct(']')] + k;
    if text == [] {
      assert [] + close == close;
    } else {
      var t, n := CutFirst(text);
      BracketBack(text[n..], k);
      GlueMore(t, text[..n], CutName(text[n..]).value, text[n..], close);
      assert text[..n] + text[n..] == text;
    }
  }

  predicate SlashPair(text: string) {
    |text| >= 2 && ((text[0] == '/' && text[1] == '/') || SlashPair(text[1..]))
  }

  /** An identifier token holds an identifier. */
  predicate Lexed(ts: seq<Token>) {
    forall i :: 0 <= i < |ts| && ts[i].Ident? ==> ts[i].text != [] && WordLength(ts[i].text) == |ts[i].text|
  }

  lemma {:induction false} WordThen(word: string, more: string)
    requires RunLength(word) == |word|
    ensures RunLength(word + more) == |word| + RunLength(more)
    ensures SlashPair(word + more) <==> SlashPair(more)
  {
    if word == [] {
      assert word + more == more;
    } else {
      assert (word + more)[1..] == word[1..] + more;
      WordThen(word[1..], more);
    }
  }

  /** A leading identifier run does not matter for whether the rest can be cut. */
  lemma CutRun(text: string)
    requires text != [] && IsWordChar(text[0]) ==> IsWordStart(text[0])
    ensures CutName(text).Some? <==> CutName(text[RunLength(text)..]).Some?
  {
    if text != [] && IsWordStart(text[0]) {
      assert WordLength(text) == RunLength(text);
    } else {
      assert RunLength(text) == 0 && text[0..] == text;
    }
  }

  lemma WholeWord(word: string, more: string)
    requires word != [] && WordLength(word) == |word|
    ensures WordLength(word + more) == |word| + RunLength(more)
  {
    assert (word + more)[1..] == word[1..] + more;
    WordThen(word[1..], more);
  }

  lemma CutStart(text: string)
    requires text != [] && IsWordStart(text[0])
    ensures CutName(text).Some? <==> CutName(text[WordLength(text)..]).Some?
  {
  }

  lemma CutWord(word: string, more: string)
    requires word != [] && WordLength(word) == |word|
    requires more != [] && IsWordChar(more[0]) ==> IsWordStart(more[0])
    ensures CutName(word + more).Some? <==> CutName(more).Some?
  {
    WholeWord(word, more);
    CutStart(word + more);
    assert (word + more)[|word| + RunLength(more)..] == more[RunLength(more)..];
    CutRun(more);
  }

  /** A name that was read in brackets can be read again exactly if it has no two slashes in a row. */
  lemma {:induction false} NameReadable(ts: seq<Token>)
    requires Lexed(ts) && ParseBracket(ts).Ok?
    ensures CutName(ParseBracket(ts).value).Some? <==> !SlashPair(ParseBracket(ts).value)
    ensures var text := ParseBracket(ts).value; text != [] && IsWordChar(text[0]) ==> IsWordStart(text[0])
  {
    if ts[0] != Punct(']') {
      assert forall i :: 0 <= i < |ts[1..]| ==> ts[1..][i] == ts[i + 1];
      NameReadable(ts[1..]);
      var more := ParseBracket(ts[1..]).value;
      if ts[0].Ident? {
        var word := ts[0].text;
        CutWord(word, more);
        WordThen(word, more);
        assert IsWordStart(word[0]);
      } else {
        var c := if ts[0] == Punct('.') then "." else "/";
        assert (c + more)[1..] == more;
        assert c + more != [] && (c + more)[0] == c[0];
        if more != [] {
          assert (c + more)[1] == more[0];
        }
      }
    }
  }

  lemma TextNameBack(name: TextName, k: seq<Token>)
    requires name.Bracket? ==> ReadableName(name.text)
    ensures ParseTextName(PutTextName(name, k)) == Ok(name, k)
    ensures
      var ts := PutTextName(name, k);
      ts != [] && (ts[0].Ident? || ts[0] == Punct('['))
  {
    match name
    case Name(w) => assert PutTextName(name, k)[1..] == k;
    case Bracket(text) =>
      var close := [Punct(']')] + k;
      BracketBack(text, k);
      assert PutTextName(name, k) == [Punct('[')] + (CutName(text).value + close);
      assert PutTextName(name, k)[1..] == CutName(text).value + close;
      assert close[1..] == k;
  }

  // ---- aggregates ------------------------------------------------------------------------------------

  /** The token after a field, if it is a separator, goes with the field. */
  function AfterField(k: seq<Token>): (r: seq<Token>) {
    if At(k, ',') || At(k, ';') then k[1..] else k
  }

  lemma {:induction false} FieldsBack(fields: seq<TextField>, st: Style, k: seq<Token>)
    requires LegalFields(fields) && ReadableFields(fields)
    ensures ParseFields(PutFields(fields, st, k), '}') == Ok(fields, k)
    ensures
      var ts := PutFields(fields, st, k);
      ts != [] && (ts[0].Ident? || ts[0] == Punct('[') || ts[0] == Punct('}'))
    decreases fields
  {
    var ts := PutFields(fields, st, k);
    if fields == [] {
      assert ts[1..] == k;
    } else {
      var rest := PutFields(fields[1..], st, k);
      var after := if st.block || |fields| == 1 then rest else [Punct(',')] + rest;
      FieldsBack(fields[1..], st, k);
      FieldBack(fields[0], st, after);
      assert AfterField(after) == rest;
      FieldThen(ts, fields, rest, k);
    }
  }

  lemma FieldThen(ts: seq<Token>, fields: seq<TextField>, rest: seq<Token>, k: seq<Token>)
    requires fields != [] && ts != [] && (ts[0].Ident? || ts[0] == Punct('['))
    requires ParseField(ts) == Ok(fields[0], rest) && ParseFields(rest, '}') == Ok(fields[1..], k)
    ensures ParseFields(ts, '}') == Ok(fields, k)
  {
    assert [fields[0]] + fields[1..] == fields;
  }

  lemma {:induction false} FieldBack(f: TextField, st: Style, k: seq<Token>)
    requires LegalField(f) && ReadableField(f) && !StartsString(k)
    ensures ParseField(PutField(f, st, k)) == Ok(f, AfterField(k))
    ensures
      var ts := PutField(f, st, k);
      ts != [] && (ts[0].Ident? || ts[0] == Punct('['))
    decreases f
  {
    var value := PutVal(f.value, st, k);
    ValBack(f.value, st, k);
    if f.value.Nested? {
      TextNameBack(f.name, value);
    } else {
      TextNameBack(f.name, [Punct(':')] + value);
      assert ([Punct(':')] + value)[1..] == value;
    }
  }

  lemma {:induction false} ValBack(v: TextVal, st: Style, k: seq<Token>)
    requires LegalVal(v) && ReadableVal(v) && !StartsString(k)
    ensures ParseVal(PutVal(v, st, k)) == Ok(v, k)
    ensures v.Nested? ==> At(PutVal(v, st, k), '{')
    ensures !v.List? ==> !At(PutVal(v, st, k), '[') && !At(PutVal(v, st, k), ']')
    decreases v
  {
    var ts := PutVal(v, st, k);
    match v
    case Scalar(sign, tok) =>
      if sign.Unsigned? {
        assert ts[1..] == k;
      } else {
        SignedBack(sign, tok, k);
      }
    case Strings(parts) => StringsBack(parts, k);
    case Nested(fields) =>
      FieldsBack(fields, st, k);
      assert ts[1..] == PutFields(fields, st, k);
    case List(items) =>
      var inner := Style(st.lists, st.lists);
      assert ts[1..] == PutVals(items, inner, k);
      if items == [] {
        assert ts[2..] == k;
      } else {
        ValsBack(items, inner, k);
      }
  }

  lemma {:induction false} ValsBack(items: seq<TextVal>, st: Style, k: seq<Token>)
    requires LegalVals(items) && ReadableVals(items) && items != []
    ensures ParseVals(PutVals(items, st, k)) == Ok(items, k)
    ensures !At(PutVals(items, st, k), '[') && !At(PutVals(items, st, k), ']')
    decreases items
  {
    if |items| == 1 {
      ValBack(items[0], st, [Punct(']')] + k);
      assert ([Punct(']')] + k)[1..] == k;
      assert [items[0]] == items;
    } else {
      var rest := PutVals(items[1..], st, k);
      ValsBack(items[1..], st, k);
      ValBack(items[0], st, [Punct(',')] + rest);
      assert ([Punct(',')] + rest)[1..] == rest;
      assert [items[0]] + items[1..] == items;
    }
  }

  /** A constant reads back in either style. */
  lemma ConstBack(c: Constant, st: Style, k: seq<Token>)
    requires LegalConst(c) && ReadableConst(c) && !StartsString(k) && !At(k, '.')
    ensures ParseConst(PutConst(c, st, k)) == Ok(c, k)
  {
    match c
    case ConstPath(p) => PathBack(p, k);
    case ConstNum(sign, tok) =>
      if sign.Unsigned? {
        assert PutConst(c, st, k)[1..] == k;
      } else {
        SignedBack(sign, tok, k);
      }
    case ConstStr(parts) => StringsBack(parts, k);
    case Aggregate(fields) =>
      FieldsBack(fields, st, k);
      assert PutConst(c, st, k)[1..] == PutFields(fields, st, k);
  }

  // ---- everything that parses is legal -------------------------------------------------------------

  lemma {:induction false} SegsLegal(ts: seq<Token>)
    ensures ParseSegs(ts).Ok? ==> ParseSegs(ts).value != []
  {
  }

  lemma PathLegal(ts: seq<Token>)
    ensures ParsePath(ts).Ok? ==> ParsePath(ts).value.segs != []
    ensures ParsePath(ts).Ok? ==> (ParsePath(ts).value.dot <==> At(ts, '.'))
    ensures ParsePath(ts).Ok? && !At(ts, '.') ==> ts[0] == Ident(ParsePath(ts).value.segs[0])
  {
    SegsLegal(if At(ts, '.') then ts[1..] else ts);
  }

  lemma {:induction false} NameLegal(ts: seq<Token>)
    ensures ParseName(ts).Ok? ==> LegalName(ParseName(ts).value)
    decreases |ts|
  {
    var part := ParsePart(ts);
    if At(ts, '(') {
      PathLegal(ts[1..]);
    }
    if part.Ok? && At(part.rest, '.') {
      NameLegal(part.rest[1..]);
    }
  }

  lemma {:induction false} FieldsLegal(ts: seq<Token>, closer: char)
    ensures ParseFields(ts, closer).Ok? ==> LegalFields(ParseFields(ts, closer).value)
    decreases |ts|, 3
  {
    if At(ts, ';') {
      FieldsLegal(ts[1..], closer);
    } else if !At(ts, closer) && ParseField(ts).Ok? {
      ValLegal(ts, true);
      FieldsLegal(ParseField(ts).rest, closer);
      ConsLegal(ParseField(ts).value, ParseFields(ParseField(ts).rest, closer));
    }
  }

  lemma ConsLegal(f: TextField, more: Parsed<seq<TextField>>)
    requires more.Ok? ==> LegalFields(more.value)
    requires LegalField(f)
    ensures Cons(f, more).Ok? ==> LegalFields(Cons(f, more).value)
  {
    if more.Ok? {
      assert ([f] + more.value)[1..] == more.value;
    }
  }

  /** Of a value, or of the value of a field. */
  lemma {:induction false} ValLegal(ts: seq<Token>, field: bool)
    ensures !field && ParseVal(ts).Ok? ==> LegalVal(ParseVal(ts).value) && (ParseVal(ts).value.List? ==> At(ts, '['))
    ensures field && ParseField(ts).Ok? ==> LegalField(ParseField(ts).value)
    decreases |ts|, if field then 2 else 1
  {
    if field {
      var name := ParseTextName(ts);
      if name.Ok? {
        if At(name.rest, ':') {
          ValLegal(name.rest[1..], false);
        } else {
          ValLegal(name.rest, false);
        }
      }
    } else if At(ts, '{') || At(ts, '<') {
      FieldsLegal(ts[1..], if At(ts, '{') then '}' else '>');
    } else if At(ts, '[') && !At(ts[1..], ']') {
      ValsLegal(ts[1..]);
    }
  }

  lemma {:induction false} ValsLegal(ts: seq<Token>)
    ensures ParseVals(ts).Ok? ==> LegalVals(ParseVals(ts).value)
    decreases |ts|, 2
  {
    if !At(ts, '[') {
      ValLegal(ts, false);
      var v := ParseVal(ts);
      if v.Ok? && At(v.rest, ',') {
        ValsLegal(v.rest[1..]);
        var more := ParseVals(v.rest[1..]);
        if more.Ok? {
          assert ([v.value] + more.value)[1..] == more.value;
        }
      }
    }
  }

  lemma ConstLegal(ts: seq<Token>)
    ensures ParseConst(ts).Ok? ==> LegalConst(ParseConst(ts).value)
  {
    PathLegal(ts);
    if At(ts, '{') {
      FieldsLegal(ts[1..], '}');
    }
  }

  /** What an aggregate says is independent of how it is printed. */
  lemma StylesAgree(fields: seq<TextField>, x: Style, y: Style, k: seq<Token>)
    requires LegalFields(fields) && ReadableFields(fields)
    ensures ParseFields(PutFields(fields, x, k), '}') == ParseFields(PutFields(fields, y, k), '}') == Ok(fields, k)
  {
    FieldsBack(fields, x, k);
    FieldsBack(fields, y, k);
  }
}
