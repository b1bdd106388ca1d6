/** All spellings of a text-format aggregate, and that the parser reads exactly these.

  The grammar is written down as rules here: `FieldsAre(fields, closer, ts, k)`
  says that `ts` begins with a spelling of these fields, up to and with their
  closing brace, and goes on with `k`. A message stands in braces or in angle
  brackets, the colon before it may be missing, and a field may be followed by a
  comma or a semicolon.
 */
module Spelling {
  import opened Symbols
  import opened Syntax
  import opened TextFormat
  import opened TextRoundTrip

  // ---- the rules ---------------------------------------------------------------------------------

  /** The pieces of a bracket name, up to the bracket. */
  predicate PiecesAre(text: string, ts: seq<Token>, k: seq<Token>) {
    if ts == [] then false
    else
      match ts[0]
      case Ident(word) => word <= text && PiecesAre(text[|word|..], ts[1..], k)
      case Punct('.') => "." <= text && PiecesAre(text[1..], ts[1..], k)
      case Punct('/') => "/" <= text && PiecesAre(text[1..], ts[1..], k)
      case Punct(']') => text == "" && k == ts[1..]
      case _ => false
  }

  predicate NameIs(name: TextName, ts: seq<Token>, k: seq<Token>) {
    match name
    case Name(word) => ts == [Ident(word)] + k
    case Bracket(text) => text != "" && At(ts, '[') && PiecesAre(text, ts[1..], k)
  }

  /** A number, a word, or one of them with a sign. */
  predicate ScalarIs(sign: Sign, tok: Token, ts: seq<Token>, k: seq<Token>) {
    match sign
    case Unsigned => (tok.Int? || tok.Float? || tok.Ident?) && ts == [tok] + k
    case Plus => (tok.Int? || tok.Float? || tok == Ident("inf") || tok == Ident("nan")) && ts == [Punct('+'), tok] + k
    case Minus => (tok.Int? || tok.Float? || tok == Ident("inf") || tok == Ident("nan")) && ts == [Punct('-'), tok] + k
  }

  /** All string literals in a row. */
  predicate StringsAre(parts: seq<string>, ts: seq<Token>, k: seq<Token>) {
    && parts != [] && |ts| == |parts| + |k| && ts[|parts|..] == k
    && (forall i :: 0 <= i < |parts| ==> ts[i] == Str(parts[i]))
    && (k != [] ==> !k[0].Str?)
  }

  ghost predicate FieldsAre(fields: seq<TextField>, closer: char, ts: seq<Token>, k: seq<Token>)
    decreases |ts|, 3
  {
    || (At(ts, ';') && FieldsAre(fields, closer, ts[1..], k))
    || (fields == [] && At(ts, closer) && k == ts[1..])
    || (fields != [] && exists mid: seq<Token> ::
          |mid| < |ts| && FieldIs(fields[0], ts, mid) && FieldsAre(fields[1..], closer, mid, k))
  }

  ghost predicate FieldIs(f: TextField, ts: seq<Token>, k: seq<Token>)
    decreases |ts|, 2
  {
    exists value: seq<Token>, end: seq<Token> ::
      && |value| < |ts| && NameIs(f.name, ts, value) && ValueIs(f.value, value, end)
      && (end == k || ((At(end, ',') || At(end, ';')) && end[1..] == k))
  }

  /** The colon is needed unless a message follows. */
  ghost predicate ValueIs(v: TextVal, ts: seq<Token>, k: seq<Token>)
    decreases |ts|, 1
  {
    (At(ts, ':') && ValIs(v, ts[1..], k)) || (v.Nested? && ValIs(v, ts, k))
  }

  ghost predicate ValIs(v: TextVal, ts: seq<Token>, k: seq<Token>)
    decreases |ts|, 0
  {
    match v
    case Scalar(sign, tok) => ScalarIs(sign, tok, ts, k)
    case Strings(parts) => StringsAre(parts, ts, k)
    case Nested(fields) =>
      (At(ts, '{') && FieldsAre(fields, '}', ts[1..], k)) || (At(ts, '<') && FieldsAre(fields, '>', ts[1..], k))
    case List(items) =>
      if items == [] then ts == [Punct('['), Punct(']')] + k else At(ts, '[') && ItemsAre(items, ts[1..], k)
  }

  /** Values with commas between them; no value of a list is a list. */
  ghost predicate ItemsAre(items: seq<TextVal>, ts: seq<Token>, k: seq<Token>)
    decreases |ts|, 1
  {
    items != [] && !items[0].List? && exists end: seq<Token> ::
      && |end| < |ts| && ValIs(items[0], ts, end)
      && if |items| == 1 then end == [Punct(']')] + k else At(end, ',') && ItemsAre(items[1..], end[1..], k)
  }

  // ---- every spelling is read ---------------------------------------------------------------------

  lemma {:induction false} PiecesRead(text: string, ts: seq<Token>, k: seq<Token>)
    requires PiecesAre(text, ts, k)
    ensures ParseBracket(ts) == Ok(text, [Punct(']')] + k)
  {
    if ts[0] == Punct(']') {
      assert ts == [Punct(']')] + k;
    } else {
      var piece := if ts[0].Ident? then ts[0].text else if ts[0] == Punct('.') then "." else "/";
      PiecesRead(text[|piece|..], ts[1..], k);
      assert text == piece + text[|piece|..];
    }
  }

  lemma NameRead(name: TextName, ts: seq<Token>, k: seq<Token>)
    requires NameIs(name, ts, k)
    ensures ParseTextName(ts) == Ok(name, k)
    ensures ts != [] && (ts[0].Ident? || ts[0] == Punct('['))
  {
    if name.Bracket? {
      PiecesRead(name.text, ts[1..], k);
      assert ([Punct(']')] + k)[1..] == k;
    } else {
      assert ts[1..] == k;
    }
  }

  lemma {:induction false} StringsRead(parts: seq<string>, ts: seq<Token>, k: seq<Token>)
    requires StringsAre(parts, ts, k)
    ensures ParseStrings(ts) == Ok(parts, k)
  {
    if |parts| == 1 {
      assert ts[1..] == k && [parts[0]] == parts;
    } else {
      assert ts[1..][|parts| - 1..] == k;
      StringsRead(parts[1..], ts[1..], k);
      assert [parts[0]] + parts[1..] == parts;
    }
  }

  /** A field does not start with a separator, a closing brace or a string. */
  lemma FieldStarts(f: TextField, ts: seq<Token>, k: seq<Token>)
    requires FieldIs(f, ts, k)
    ensures ts != [] && (ts[0].Ident? || ts[0] == Punct('['))
  {
    var value: seq<Token>, end: seq<Token> :| NameIs(f.name, ts, value) && ValueIs(f.value, value, end);
    NameRead(f.name, ts, value);
  }

  /** Behind a field there is a stray semicolon, the closing brace or the next field. */
  lemma FieldsStart(fields: seq<TextField>, closer: char, ts: seq<Token>, k: seq<Token>)
    requires FieldsAre(fields, closer, ts, k) && (closer == '}' || closer == '>')
    ensures !At(ts, ',')
    ensures At(ts, ';') ==> FieldsAre(fields, closer, ts[1..], k)
    ensures !At(ts, ';') ==> (At(ts, closer) <==> fields == [])
  {
    if fields != [] && (At(ts, ',') || At(ts, closer) || !FieldsAre(fields, closer, ts[1..], k)) && !(At(ts, ';')
       && FieldsAre(fields, closer, ts[1..], k)) {
      var mid: seq<Token> :| |mid| < |ts| && FieldIs(fields[0], ts, mid) && FieldsAre(fields[1..], closer, mid, k);
      FieldStarts(fields[0], ts, mid);
    }
  }

  lemma {:induction false} FieldsRead(fields: seq<TextField>, closer: char, ts: seq<Token>, k: seq<Token>)
    requires FieldsAre(fields, closer, ts, k) && (closer == '}' || closer == '>')
    ensures ParseFields(ts, closer) == Ok(fields, k)
    decreases |ts|, 3
  {
    FieldsStart(fields, closer, ts, k);
    if At(ts, ';') {
      FieldsRead(fields, closer, ts[1..], k);
    } else if fields != [] {
      var mid: seq<Token> :| |mid| < |ts| && FieldIs(fields[0], ts, mid) && FieldsAre(fields[1..], closer, mid, k);
      FieldStarts(fields[0], ts, mid);
      FieldRead(fields[0], ts, mid);
      FieldsRead(fields[1..], closer, mid, k);
      FieldsStart(fields[1..], closer, mid, k);
      FirstFieldRead(fields, closer, ts, mid, k);
    }
  }

  lemma FirstFieldRead(fields: seq<TextField>, closer: char, ts: seq<Token>, mid: seq<Token>, k: seq<Token>)
    requires fields != [] && !At(ts, ';') && !At(ts, closer) && !At(mid, ',')
    requires ParseField(ts) == Ok(fields[0], mid) || (At(mid, ';') && ParseField(ts) == Ok(fields[0], mid[1..]))
    requires ParseFields(mid, closer) == Ok(fields[1..], k)
    ensures ParseFields(ts, closer) == Ok(fields, k)
  {
    assert [fields[0]] + fields[1..] == fields;
    assert At(mid, ';') ==> ParseFields(mid, closer) == ParseFields(mid[1..], closer);
  }

  /** The parser takes a separator behind the field if there is one. */
  lemma {:induction false} FieldRead(f: TextField, ts: seq<Token>, k: seq<Token>)
    requires FieldIs(f, ts, k)
    ensures ParseField(ts) == Ok(f, k) || ((At(k, ',') || At(k, ';')) && ParseField(ts) == Ok(f, k[1..]))
    decreases |ts|, 2
  {
    var value: seq<Token>, end: seq<Token> :|
      && |value| < |ts| && NameIs(f.name, ts, value) && ValueIs(f.value, value, end)
      && (end == k || ((At(end, ',') || At(end, ';')) && end[1..] == k));
    NameRead(f.name, ts, value);
    if At(value, ':') && ValIs(f.value, value[1..], end) {
      ValRead(f.value, value[1..], end);
    } else {
      ValRead(f.value, value, end);
    }
  }

  lemma {:induction false} ValRead(v: TextVal, ts: seq<Token>, k: seq<Token>)
    requires ValIs(v, ts, k)
    ensures ParseVal(ts) == Ok(v, k)
    ensures v.Nested? ==> At(ts, '{') || At(ts, '<')
    ensures !v.List? ==> !At(ts, '[') && !At(ts, ']')
    decreases |ts|, 0
  {
    match v
    case Scalar(sign, tok) => ScalarRead(sign, tok, ts, k);
    case Strings(parts) => StringsRead(parts, ts, k);
    case Nested(fields) =>
      if At(ts, '{') {
        FieldsRead(fields, '}', ts[1..], k);
      } else {
        FieldsRead(fields, '>', ts[1..], k);
      }
    case List(items) =>
      if items == [] {
        NoItemsRead(ts, k);
      } else {
        ItemsRead(items, ts[1..], k);
      }
  }

  lemma NoItemsRead(ts: seq<Token>, k: seq<Token>)
    requires ts == [Punct('['), Punct(']')] + k
    ensures ParseVal(ts) == Ok(List([]), k)
  {
    assert ts[1..] == [Punct(']')] + k && ts[2..] == k;
  }

  lemma ScalarRead(sign: Sign, tok: Token, ts: seq<Token>, k: seq<Token>)
    requires ScalarIs(sign, tok, ts, k)
    ensures ParseVal(ts) == Ok(Scalar(sign, tok), k) && !At(ts, '[') && !At(ts, ']')
  {
    if sign.Unsigned? {
      assert ts[1..] == k;
    } else {
      assert ts[1..] == [tok] + k && ts[2..] == k;
    }
  }

  lemma {:induction false} ItemsRead(items: seq<TextVal>, ts: seq<Token>, k: seq<Token>)
    requires ItemsAre(items, ts, k)
    ensures ParseVals(ts) == Ok(items, k) && !At(ts, ']')
    decreases |ts|, 1
  {
    var end: seq<Token> :|
      && |end| < |ts| && ValIs(items[0], ts, end)
      && if |items| == 1 then end == [Punct(']')] + k else At(end, ',') && ItemsAre(items[1..], end[1..], k);
    ValRead(items[0], ts, end);
    if |items| > 1 {
      ItemsRead(items[1..], end[1..], k);
    }
    FirstItemRead(items, ts, end, k);
  }

  lemma FirstItemRead(items: seq<TextVal>, ts: seq<Token>, end: seq<Token>, k: seq<Token>)
    requires items != [] && !At(ts, '[') && ParseVal(ts) == Ok(items[0], end)
    requires
      if |items| == 1 then end == [Punct(']')] + k
      else At(end, ',') && ParseVals(end[1..]) == Ok(items[1..], k)
    ensures ParseVals(ts) == Ok(items, k)
  {
    if |items| == 1 {
      assert end[1..] == k && [items[0]] == items;
    } else {
      assert [items[0]] + items[1..] == items;
    }
  }

  // ---- nothing else is read -------------------------------------------------------------------------

  lemma {:induction false} PiecesOnly(ts: seq<Token>)
    requires ParseBracket(ts).Ok?
    ensures At(ParseBracket(ts).rest, ']') && PiecesAre(ParseBracket(ts).value, ts, ParseBracket(ts).rest[1..])
  {
    if ts[0] != Punct(']') {
      var more := ParseBracket(ts[1..]);
      PiecesOnly(ts[1..]);
      var piece := if ts[0].Ident? then ts[0].text else if ts[0] == Punct('.') then "." else "/";
      assert (piece + more.value)[|piece|..] == more.value;
    }
  }

  lemma NameOnly(ts: seq<Token>)
    requires ParseTextName(ts).Ok?
    ensures NameIs(ParseTextName(ts).value, ts, ParseTextName(ts).rest)
  {
    if At(ts, '[') {
      PiecesOnly(ts[1..]);
    } else {
      assert ts == [ts[0]] + ts[1..];
    }
  }

  lemma {:induction false} StringsOnly(ts: seq<Token>)
    requires ParseStrings(ts).Ok?
    ensures StringsAre(ParseStrings(ts).value, ts, ParseStrings(ts).rest)
  {
    if ts[1..] != [] && ts[1].Str? {
      StringsOnly(ts[1..]);
      var more := ParseStrings(ts[1..]);
      assert ts[1..][|more.value|..] == ts[|more.value| + 1..];
      forall i | 0 <= i < |more.value| + 1 ensures ts[i] == Str(ParseStrings(ts).value[i]) {
        assert i > 0 ==> ts[i] == ts[1..][i - 1];
      }
    }
  }

  lemma {:induction false} FieldsOnly(ts: seq<Token>, closer: char)
    requires ParseFields(ts, closer).Ok?
    ensures FieldsAre(ParseFields(ts, closer).value, closer, ts, ParseFields(ts, closer).rest)
    decreases |ts|, 3
  {
    if At(ts, ';') {
      FieldsOnly(ts[1..], closer);
    } else if !At(ts, closer) {
      var f := ParseField(ts);
      FieldOnly(ts);
      FieldsOnly(f.rest, closer);
      var more := ParseFields(f.rest, closer).value;
      assert ([f.value] + more)[1..] == more;
    }
  }

  lemma {:induction false} FieldOnly(ts: seq<Token>)
    requires ParseField(ts).Ok?
    ensures FieldIs(ParseField(ts).value, ts, ParseField(ts).rest)
    decreases |ts|, 2
  {
    var name := ParseTextName(ts);
    NameOnly(ts);
    var from := if At(name.rest, ':') then name.rest[1..] else name.rest;
    var value := ParseVal(from);
    ValOnly(from);
    assert ValueIs(value.value, name.rest, value.rest);
  }

  lemma {:induction false} ValOnly(ts: seq<Token>)
    requires ParseVal(ts).Ok?
    ensures ValIs(ParseVal(ts).value, ts, ParseVal(ts).rest)
    ensures At(ts, '{') || At(ts, '<') ==> ParseVal(ts).value.Nested?
    ensures !At(ts, '[') ==> !ParseVal(ts).value.List?
    decreases |ts|, 0
  {
    if ts[0].Str? {
      StringsOnly(ts);
    } else if At(ts, '{') || At(ts, '<') {
      FieldsOnly(ts[1..], if At(ts, '{') then '}' else '>');
    } else if At(ts, '[') {
      if At(ts[1..], ']') {
        assert ts == [Punct('['), Punct(']')] + ts[2..];
      } else {
        ItemsOnly(ts[1..]);
      }
    } else {
      ScalarOnly(ts);
    }
  }

  lemma ScalarOnly(ts: seq<Token>)
    requires ParseVal(ts).Ok? && !ts[0].Str? && !At(ts, '{') && !At(ts, '<') && !At(ts, '[')
    ensures ValIs(ParseVal(ts).value, ts, ParseVal(ts).rest) && ParseVal(ts).value.Scalar?
  {
    if ts[0].Punct? {
      assert ts == [ts[0], ts[1]] + ts[2..];
    } else {
      assert ts == [ts[0]] + ts[1..];
    }
  }

  lemma {:induction false} ItemsOnly(ts: seq<Token>)
    requires ParseVals(ts).Ok?
    ensures ItemsAre(ParseVals(ts).value, ts, ParseVals(ts).rest)
    decreases |ts|, 1
  {
    var v := ParseVal(ts);
    ValOnly(ts);
    if At(v.rest, ',') {
      ItemsOnly(v.rest[1..]);
      var more := ParseVals(v.rest[1..]).value;
      assert ([v.value] + more)[1..] == more;
    } else {
      assert v.rest == [Punct(']')] + v.rest[1..];
    }
  }

  // ---- exactly the spellings are read -----------------------------------------------------------------

  /** The fields of an aggregate are read from `ts` exactly if it begins with a spelling of them. */
  lemma FieldsExactly(fields: seq<TextField>, closer: char, ts: seq<Token>, k: seq<Token>)
    requires closer == '}' || closer == '>'
    ensures ParseFields(ts, closer) == Ok(fields, k) <==> FieldsAre(fields, closer, ts, k)
  {
    if FieldsAre(fields, closer, ts, k) {
      FieldsRead(fields, closer, ts, k);
    }
    if ParseFields(ts, closer) == Ok(fields, k) {
      FieldsOnly(ts, closer);
    }
  }

  lemma ValExactly(v: TextVal, ts: seq<Token>, k: seq<Token>)
    ensures ParseVal(ts) == Ok(v, k) <==> ValIs(v, ts, k)
  {
    if ValIs(v, ts, k) {
      ValRead(v, ts, k);
    }
    if ParseVal(ts) == Ok(v, k) {
      ValOnly(ts);
    }
  }

  /** Braces and angle brackets mean the same, with or without a colon in front. */
  lemma BracketsAgree(name: TextName, fields: seq<TextField>, inside: seq<Token>, angled: seq<Token>, k: seq<Token>)
    requires FieldsAre(fields, '}', inside, k) && FieldsAre(fields, '>', angled, k)
    ensures
      var v := Nested(fields);
      && ParseVal([Punct('{')] + inside) == Ok(v, k) && ParseVal([Punct('<')] + angled) == Ok(v, k)
      && ValueIs(v, [Punct('<')] + angled, k) && ValueIs(v, [Punct(':'), Punct('<')] + angled, k)
      && ValueIs(v, [Punct('{')] + inside, k) && ValueIs(v, [Punct(':'), Punct('{')] + inside, k)
  {
    var v := Nested(fields);
    assert ([Punct('{')] + inside)[1..] == inside && ([Punct('<')] + angled)[1..] == angled;
    assert ([Punct(':'), Punct('{')] + inside)[1..] == [Punct('{')] + inside;
    assert ([Punct(':'), Punct('<')] + angled)[1..] == [Punct('<')] + angled;
    ValRead(v, [Punct('{')] + inside, k);
    ValRead(v, [Punct('<')] + angled, k);
  }

  // ---- every aggregate has these spellings -------------------------------------------------------------

  /** Which brackets stand around messages, whether a colon stands before them, and what stands behind a field. */
  datatype Manner = Manner(angle: bool, colon: bool, behind: seq<Token>)

  predicate Proper(m: Manner) {
    m.behind == [] || ((m.behind[0] == Punct(',') || m.behind[0] == Punct(';'))
                       && forall i :: 0 < i < |m.behind| ==> m.behind[i] == Punct(';'))
  }

  function Write(fields: seq<TextField>, m: Manner, closer: char, k: seq<Token>): (r: seq<Token>)
    decreases fields
  {
    if fields == [] then [Punct(closer)] + k
    else WriteField(fields[0], m, m.behind + Write(fields[1..], m, closer, k))
  }

  function WriteField(f: TextField, m: Manner, k: seq<Token>): (r: seq<Token>)
    decreases f
  {
    var value := WriteVal(f.value, m, k);
    PutTextName(f.name, if f.value.Nested? && !m.colon then value else [Punct(':')] + value)
  }

  function WriteVal(v: TextVal, m: Manner, k: seq<Token>): (r: seq<Token>)
    decreases v
  {
    match v
    case Scalar(sign, tok) => PutSigned(sign, tok, k)
    case Strings(parts) => PutStrings(parts, k)
    case Nested(fields) => if m.angle then [Punct('<')] + Write(fields, m, '>', k) else [Punct('{')] + Write(fields, m, '}', k)
    case List(items) => [Punct('[')] + WriteItems(items, m, k)
  }

  function WriteItems(items: seq<TextVal>, m: Manner, k: seq<Token>): (r: seq<Token>)
    decreases items
  {
    if items == [] then [Punct(']')] + k
    else WriteVal(items[0], m, if |items| == 1 then [Punct(']')] + k else [Punct(',')] + WriteItems(items[1..], m, k))
  }

  lemma NameWritten(name: TextName, k: seq<Token>)
    requires name.Bracket? ==> ReadableName(name.text)
    ensures NameIs(name, PutTextName(name, k), k) && |k| < |PutTextName(name, k)|
  {
    TextNameBack(name, k);
    NameOnly(PutTextName(name, k));
  }

  lemma {:induction false} SeparatorsSkipped(fields: seq<TextField>, closer: char, marks: seq<Token>, ts: seq<Token>,
      k: seq<Token>)
    requires FieldsAre(fields, closer, ts, k) && forall i :: 0 <= i < |marks| ==> marks[i] == Punct(';')
    ensures FieldsAre(fields, closer, marks + ts, k)
  {
    if marks == [] {
      assert marks + ts == ts;
    } else {
      SeparatorsSkipped(fields, closer, marks[1..], ts, k);
      assert (marks + ts)[1..] == marks[1..] + ts;
    }
  }

  lemma FieldsNoString(fields: seq<TextField>, closer: char, ts: seq<Token>, k: seq<Token>)
    requires FieldsAre(fields, closer, ts, k)
    ensures !StartsString(ts)
  {
    if StartsString(ts) {
      var mid: seq<Token> :| |mid| < |ts| && FieldIs(fields[0], ts, mid) && FieldsAre(fields[1..], closer, mid, k);
      FieldStarts(fields[0], ts, mid);
    }
  }

  /** Every legal aggregate can be written in every manner. */
  lemma {:induction false} FieldsWritten(fields: seq<TextField>, m: Manner, closer: char, k: seq<Token>)
    requires LegalFields(fields) && ReadableFields(fields) && Proper(m) && (closer == '}' || closer == '>')
    ensures FieldsAre(fields, closer, Write(fields, m, closer, k), k)
    decreases fields
  {
    var ts := Write(fields, m, closer, k);
    if fields == [] {
      assert ts[1..] == k;
    } else {
      var rest := Write(fields[1..], m, closer, k);
      var end := m.behind + rest;
      FieldsWritten(fields[1..], m, closer, k);
      FieldsNoString(fields[1..], closer, rest, k);
      var value := FieldWritten(fields[0], m, end);
      MarksBehind(fields, m, closer, ts, value, rest, k);
    }
  }

  lemma MarksBehind(fields: seq<TextField>, m: Manner, closer: char, ts: seq<Token>, value: seq<Token>,
      rest: seq<Token>, k: seq<Token>)
    requires fields != [] && Proper(m) && |m.behind + rest| < |ts| && |value| < |ts|
    requires NameIs(fields[0].name, ts, value) && ValueIs(fields[0].value, value, m.behind + rest)
    requires FieldsAre(fields[1..], closer, rest, k)
    ensures FieldsAre(fields, closer, ts, k)
  {
    var end := m.behind + rest;
    if m.behind == [] {
      assert end == rest;
      assert FieldIs(fields[0], ts, rest);
    } else {
      var after := m.behind[1..] + rest;
      SeparatorsSkipped(fields[1..], closer, m.behind[1..], rest, k);
      assert end[1..] == after && end[0] == m.behind[0];
      assert FieldIs(fields[0], ts, after);
    }
  }

  /** The name is written, and `value` is left. */
  lemma {:induction false} FieldWritten(f: TextField, m: Manner, end: seq<Token>) returns (value: seq<Token>)
    requires LegalField(f) && ReadableField(f) && Proper(m) && !StartsString(end)
    ensures NameIs(f.name, WriteField(f, m, end), value) && ValueIs(f.value, value, end)
    ensures |end| < |value| < |WriteField(f, m, end)|
    decreases f
  {
    var val := WriteVal(f.value, m, end);
    ValWritten(f.value, m, end);
    value := if f.value.Nested? && !m.colon then val else [Punct(':')] + val;
    assert ([Punct(':')] + val)[1..] == val;
    NameWritten(f.name, value);
  }

  lemma {:induction false} ValWritten(v: TextVal, m: Manner, k: seq<Token>)
    requires LegalVal(v) && ReadableVal(v) && Proper(m) && !StartsString(k)
    ensures ValIs(v, WriteVal(v, m, k), k) && |k| < |WriteVal(v, m, k)|
    decreases v
  {
    var ts := WriteVal(v, m, k);
    match v
    case Scalar(sign, tok) =>
    case Strings(parts) => StringsWritten(parts, k);
    case Nested(fields) =>
      var closer := if m.angle then '>' else '}';
      FieldsWritten(fields, m, closer, k);
      FieldsShrink(fields, closer, Write(fields, m, closer, k), k);
      assert ts[1..] == Write(fields, m, closer, k);
    case List(items) =>
      assert ts[1..] == WriteItems(items, m, k);
      if items == [] {
        assert ts == [Punct('['), Punct(']')] + k;
      } else {
        ItemsWritten(items, m, k);
      }
  }

  lemma {:induction false} StringsWritten(parts: seq<string>, k: seq<Token>)
    requires parts != [] && !StartsString(k)
    ensures StringsAre(parts, PutStrings(parts, k), k)
  {
    StringsBack(parts, k);
    StringsOnly(PutStrings(parts, k));
  }

  lemma FieldsShrink(fields: seq<TextField>, closer: char, ts: seq<Token>, k: seq<Token>)
    requires FieldsAre(fields, closer, ts, k) && (closer == '}' || closer == '>')
    ensures |k| < |ts|
  {
    FieldsRead(fields, closer, ts, k);
  }

  lemma {:induction false} ItemsWritten(items: seq<TextVal>, m: Manner, k: seq<Token>)
    requires LegalVals(items) && ReadableVals(items) && items != [] && Proper(m)
    ensures ItemsAre(items, WriteItems(items, m, k), k) && |k| < |WriteItems(items, m, k)|
    decreases items
  {
    if |items| == 1 {
      ValWritten(items[0], m, [Punct(']')] + k);
    } else {
      var rest := WriteItems(items[1..], m, k);
      ItemsWritten(items[1..], m, k);
      ValWritten(items[0], m, [Punct(',')] + rest);
      assert ([Punct(',')] + rest)[1..] == rest;
    }
  }

  /** In whatever manner its messages and fields are written, at any nesting, an aggregate is read as the same value. */
  lemma {:induction false} MannersAgree(fields: seq<TextField>, m: Manner, angle: bool, k: seq<Token>)
    requires LegalFields(fields) && ReadableFields(fields) && Proper(m)
    ensures
      var inside := if angle then [Punct('<')] + Write(fields, m, '>', k) else [Punct('{')] + Write(fields, m, '}', k);
      ParseVal(inside) == Ok(Nested(fields), k)
  {
    if angle {
      FieldsWritten(fields, m, '>', k);
      FieldsRead(fields, '>', Write(fields, m, '>', k), k);
      BracketsRead(Write(fields, m, '>', k), angle, k);
    } else {
      FieldsWritten(fields, m, '}', k);
      FieldsRead(fields, '}', Write(fields, m, '}', k), k);
      BracketsRead(Write(fields, m, '}', k), angle, k);
    }
  }

  lemma BracketsRead(inside: seq<Token>, angle: bool, k: seq<Token>)
    requires ParseFields(inside, if angle then '>' else '}').Ok?
    requires ParseFields(inside, if angle then '>' else '}').rest == k
    ensures ParseVal([Punct(if angle then '<' else '{')] + inside)
      == Ok(Nested(ParseFields(inside, if angle then '>' else '}').value), k)
  {
    assert ([Punct(if angle then '<' else '{')] + inside)[1..] == inside;
  }

  /** The same for a field, with whatever may stand behind it. */
  lemma {:induction false} FieldMannersAgree(f: TextField, m: Manner, k: seq<Token>)
    requires LegalField(f) && ReadableField(f) && Proper(m) && !StartsString(k) && !At(k, ',') && !At(k, ';')
    ensures
      var mark := if m.behind == [] then [] else [m.behind[0]];
      ParseField(WriteField(f, m, mark + k)) == Ok(f, k)
  {
    var mark := if m.behind == [] then [] else [m.behind[0]];
    var end := mark + k;
    var ts := WriteField(f, m, end);
    assert m.behind == [] ==> end == k;
    assert m.behind != [] ==> end[1..] == k;
    var value := FieldWritten(f, m, end);
    assert FieldIs(f, ts, k);
    FieldRead(f, ts, k);
  }
}
