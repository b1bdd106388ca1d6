/** Names, constants and text-format aggregates: printing and parsing on tokens.

  Printing takes what follows as `k`. Parsing returns the value and the tokens
  left. Aggregates can be printed on one line, with separators between fields,
  or as a block, without; both read back as the same value.
 */
module TextFormat {
  import opened Symbols
  import opened Syntax

  datatype Parsed<T> = Ok(value: T, rest: seq<Token>) | Fail

  predicate At(ts: seq<Token>, c: char) {
    ts != [] && ts[0] == Punct(c)
  }

  // ---- printing ------------------------------------------------------------------------------

  function PutSegs(segs: seq<string>, k: seq<Token>): (r: seq<Token>) {
    if segs == [] then k
    else [Ident(segs[0])] + if |segs| == 1 then k else [Punct('.')] + PutSegs(segs[1..], k)
  }

  function PutPath(p: Path, k: seq<Token>): (r: seq<Token>) {
    if p.dot then [Punct('.')] + PutSegs(p.segs, k) else PutSegs(p.segs, k)
  }

  function PutPart(part: NamePart, k: seq<Token>): (r: seq<Token>) {
    match part
    case Bare(name) => [Ident(name)] + k
    case Ext(path) => [Punct('(')] + PutPath(path, [Punct(')')] + k)
  }

  function PutName(parts: seq<NamePart>, k: seq<Token>): (r: seq<Token>) {
    if parts == [] then k
    else PutPart(parts[0], if |parts| == 1 then k else [Punct('.')] + PutName(parts[1..], k))
  }

  function PutStrings(parts: seq<string>, k: seq<Token>): (r: seq<Token>) {
    if parts == [] then k else [Str(parts[0])] + PutStrings(parts[1..], k)
  }

  function PutSigned(sign: Sign, tok: Token, k: seq<Token>): (r: seq<Token>) {
    match sign
    case Unsigned => [tok] + k
    case Plus => [Punct('+'), tok] + k
    case Minus => [Punct('-'), tok] + k
  }

  /** How the lexer cuts the characters between the brackets; two slashes start a comment. */
  function CutName(text: string): (r: Option<seq<Token>>) {
    if text == [] then Some([])
    else if text[0] == '.' then Push(Punct('.'), CutName(text[1..]))
    else if text[0] == '/' then if |text| > 1 && text[1] == '/' then None else Push(Punct('/'), CutName(text[1..]))
    else
      var n := WordLength(text);
      if n == 0 then None else Push(Ident(text[..n]), CutName(text[n..]))
  }

  function Push(t: Token, more: Option<seq<Token>>): (r: Option<seq<Token>>) {
    if more.None? then None else Some([t] + more.value)
  }

  predicate IsWordStart(c: char) {
    'a' <= c <= 'z' || 'A' <= c <= 'Z' || c == '_'
  }

  predicate IsWordChar(c: char) {
    IsWordStart(c) || '0' <= c <= '9'
  }

  /** The identifier at the start of the text. */
  function WordLength(text: string): (n: nat)
    ensures n <= |text|
  {
    if text == [] || !IsWordStart(text[0]) then 0 else 1 + RunLength(text[1..])
  }

  function RunLength(text: string): (n: nat)
    ensures n <= |text|
    ensures forall i :: 0 <= i < n ==> IsWordChar(text[i])
    ensures n < |text| ==> !IsWordChar(text[n])
  {
    if text == [] || !IsWordChar(text[0]) then 0 else 1 + RunLength(text[1..])
  }

  predicate ReadableName(text: string) {
    text != [] && CutName(text).Some?
  }

  function PutTextName(name: TextName, k: seq<Token>): (r: seq<Token>) {
    match name
    case Name(w) => [Ident(w)] + k
    case Bracket(text) => [Punct('[')] + Spelled(text) + [Punct(']')] + k
  }

  /** The characters of a bracket name, cut into tokens if that can be done. */
  function Spelled(text: string): (r: seq<Token>) {
    if CutName(text).Some? then CutName(text).value else [Uncut(text)]
  }

  /** Every bracket name in the value can be cut into tokens again. */
  predicate ReadableVal(v: TextVal)
    decreases v
  {
    match v
    case Scalar(_, _) => true
    case Strings(_) => true
    case Nested(fields) => ReadableFields(fields)
    case List(items) => ReadableVals(items)
  }

  predicate ReadableVals(items: seq<TextVal>)
    decreases items
  {
    items == [] || (ReadableVal(items[0]) && ReadableVals(items[1..]))
  }

  predicate ReadableFields(fields: seq<TextField>)
    decreases fields
  {
    fields == [] || (ReadableField(fields[0]) && ReadableFields(fields[1..]))
  }

  predicate ReadableField(f: TextField)
    decreases f
  {
    (f.name.Bracket? ==> ReadableName(f.name.text)) && ReadableVal(f.value)
  }

  /** How aggregates are printed: `block` without separators, and `lists` for the messages inside lists. */
  datatype Style = Style(block: bool, lists: bool)

  /** Fields up to the closing brace, with separators between them unless they stand on lines of their own. */
  function PutFields(fields: seq<TextField>, st: Style, k: seq<Token>): (r: seq<Token>)
    decreases fields
  {
    if fields == [] then [Punct('}')] + k
    else
      var rest := PutFields(fields[1..], st, k);
      PutField(fields[0], st, if st.block || |fields| == 1 then rest else [Punct(',')] + rest)
  }

  function PutField(f: TextField, st: Style, k: seq<Token>): (r: seq<Token>)
    decreases f
  {
    PutTextName(f.name, if f.value.Nested? then PutVal(f.value, st, k) else [Punct(':')] + PutVal(f.value, st, k))
  }

  function PutVal(v: TextVal, st: Style, k: seq<Token>): (r: seq<Token>)
    decreases v
  {
    match v
    case Scalar(sign, tok) => PutSigned(sign, tok, k)
    case Strings(parts) => PutStrings(parts, k)
    case Nested(fields) => [Punct('{')] + PutFields(fields, st, k)
    case List(items) => [Punct('[')] + PutVals(items, Style(st.lists, st.lists), k)
  }

  function PutVals(items: seq<TextVal>, st: Style, k: seq<Token>): (r: seq<Token>)
    decreases items
  {
    if items == [] then [Punct(']')] + k
    else PutVal(items[0], st, if |items| == 1 then [Punct(']')] + k else [Punct(',')] + PutVals(items[1..], st, k))
  }

  predicate ReadableConst(c: Constant) {
    c.Aggregate? ==> ReadableFields(c.fields)
  }

  function PutConst(c: Constant, st: Style, k: seq<Token>): (r: seq<Token>) {
    match c
    case ConstPath(p) => PutPath(p, k)
    case ConstNum(sign, tok) => PutSigned(sign, tok, k)
    case ConstStr(parts) => PutStrings(parts, k)
    case Aggregate(fields) => [Punct('{')] + PutFields(fields, st, k)
  }

  // ---- parsing --------------------------------------------------------------------------------

  function Cons<T>(x: T, more: Parsed<seq<T>>): (r: Parsed<seq<T>>) {
    if more.Fail? then Fail else Ok([x] + more.value, more.rest)
  }

  function ParseSegs(ts: seq<Token>): (r: Parsed<seq<string>>)
    ensures r.Ok? ==> |r.rest| < |ts|
  {
    if ts == [] || !ts[0].Ident? then Fail
    else if At(ts[1..], '.') then Cons(ts[0].text, ParseSegs(ts[2..]))
    else Ok([ts[0].text], ts[1..])
  }

  function ParsePath(ts: seq<Token>): (r: Parsed<Path>)
    ensures r.Ok? ==> |r.rest| < |ts|
  {
    var dot := At(ts, '.');
    var segs := ParseSegs(if dot then ts[1..] else ts);
    if segs.Fail? then Fail else Ok(Path(dot, segs.value), segs.rest)
  }

  function ParsePart(ts: seq<Token>): (r: Parsed<NamePart>)
    ensures r.Ok? ==> |r.rest| < |ts|
  {
    if At(ts, '(') then
      var p := ParsePath(ts[1..]);
      if p.Fail? || !At(p.rest, ')') then Fail else Ok(Ext(p.value), p.rest[1..])
    else if ts != [] && ts[0].Ident? then Ok(Bare(ts[0].text), ts[1..])
    else Fail
  }

  function ParseName(ts: seq<Token>): (r: Parsed<seq<NamePart>>)
    ensures r.Ok? ==> |r.rest| < |ts|
    decreases |ts|
  {
    var part := ParsePart(ts);
    if part.Fail? then Fail
    else if At(part.rest, '.') then Cons(part.value, ParseName(part.rest[1..]))
    else Ok([part.value], part.rest)
  }

  function ParseStrings(ts: seq<Token>): (r: Parsed<seq<string>>)
    ensures r.Ok? ==> |r.rest| < |ts|
  {
    if ts == [] || !ts[0].Str? then Fail
    else if ts[1..] != [] && ts[1].Str? then Cons(ts[0].text, ParseStrings(ts[1..]))
    else Ok([ts[0].text], ts[1..])
  }

  predicate IsNumber(t: Token) {
    t.Int? || t.Float?
  }

  /** After a sign only a number, `inf` or `nan` may follow. */
  predicate MayBeSigned(t: Token) {
    IsNumber(t) || t == Ident("inf") || t == Ident("nan")
  }

  /** The sign itself is the current token. */
  function ParseSigned(ts: seq<Token>): (r: Parsed<(Sign, Token)>)
    requires At(ts, '-') || At(ts, '+')
    ensures r.Ok? ==> |r.rest| < |ts|
  {
    if ts[1..] == [] || !MayBeSigned(ts[1]) then Fail
    else Ok((if At(ts, '-') then Minus else Plus, ts[1]), ts[2..])
  }

  /** The pieces of a bracket name are glued together, whatever stands between them. */
  function ParseBracket(ts: seq<Token>): (r: Parsed<string>)
    ensures r.Ok? ==> |r.rest| <= |ts|
  {
    if ts == [] then Fail
    else if ts[0].Ident? then Glue(ts[0].text, ParseBracket(ts[1..]))
    else if ts[0] == Punct('.') then Glue(".", ParseBracket(ts[1..]))
    else if ts[0] == Punct('/') then Glue("/", ParseBracket(ts[1..]))
    else if ts[0] == Punct(']') then Ok("", ts)
    else Fail
  }

  function Glue(text: string, more: Parsed<string>): (r: Parsed<string>) {
    if more.Fail? then Fail else Ok(text + more.value, more.rest)
  }

  function ParseTextName(ts: seq<Token>): (r: Parsed<TextName>)
    ensures r.Ok? ==> |r.rest| < |ts|
  {
    if At(ts, '[') then
      var text := ParseBracket(ts[1..]);
      if text.Fail? || text.value == "" || text.rest == [] then Fail else Ok(Bracket(text.value), text.rest[1..])
    else if ts != [] && ts[0].Ident? then Ok(Name(ts[0].text), ts[1..])
    else Fail
  }

  /** Fields up to `closer`; the opening brace is already read. */
  function ParseFields(ts: seq<Token>, closer: char): (r: Parsed<seq<TextField>>)
    ensures r.Ok? ==> |r.rest| < |ts|
    decreases |ts|, 3
  {
    if At(ts, ';') then ParseFields(ts[1..], closer)
    else if At(ts, closer) then Ok([], ts[1..])
    else
      var f := ParseField(ts);
      if f.Fail? then Fail else Cons(f.value, ParseFields(f.rest, closer))
  }

  function ParseField(ts: seq<Token>): (r: Parsed<TextField>)
    ensures r.Ok? ==> |r.rest| < |ts|
    decreases |ts|, 2
  {
    var name := ParseTextName(ts);
    if name.Fail? then Fail
    else
      var value :=
        if At(name.rest, ':') then ParseVal(name.rest[1..])
        else if At(name.rest, '{') || At(name.rest, '<') then ParseVal(name.rest)
        else Fail;
      if value.Fail? then Fail
      else if At(value.rest, ',') || At(value.rest, ';') then Ok(TextField(name.value, value.value), value.rest[1..])
      else Ok(TextField(name.value, value.value), value.rest)
  }

  function ParseVal(ts: seq<Token>): (r: Parsed<TextVal>)
    ensures r.Ok? ==> |r.rest| < |ts|
    decreases |ts|, 1
  {
    if ts == [] then Fail
    else if ts[0].Str? then
      var parts := ParseStrings(ts);
      if parts.Fail? then Fail else Ok(Strings(parts.value), parts.rest)
    else if IsNumber(ts[0]) || ts[0].Ident? then Ok(Scalar(Unsigned, ts[0]), ts[1..])
    else if At(ts, '-') || At(ts, '+') then
      var v := ParseSigned(ts);
      if v.Fail? then Fail else Ok(Scalar(v.value.0, v.value.1), v.rest)
    else if At(ts, '{') || At(ts, '<') then
      var fields := ParseFields(ts[1..], if At(ts, '{') then '}' else '>');
      if fields.Fail? then Fail else Ok(Nested(fields.value), fields.rest)
    else if At(ts, '[') then
      if At(ts[1..], ']') then Ok(List([]), ts[2..])
      else
        var items := ParseVals(ts[1..]);
        if items.Fail? then Fail else Ok(List(items.value), items.rest)
    else Fail
  }

  /** The values of a list after its bracket; lists do not nest. */
  function ParseVals(ts: seq<Token>): (r: Parsed<seq<TextVal>>)
    ensures r.Ok? ==> |r.rest| < |ts|
    decreases |ts|, 2
  {
    if At(ts, '[') then Fail
    else
      var v := ParseVal(ts);
      if v.Fail? then Fail
      else if At(v.rest, ',') then Cons(v.value, ParseVals(v.rest[1..]))
      else if At(v.rest, ']') then Ok([v.value], v.rest[1..])
      else Fail
  }

  function ParseConst(ts: seq<Token>): (r: Parsed<Constant>)
    ensures r.Ok? ==> |r.rest| < |ts|
  {
    if ts == [] then Fail
    else if ts[0].Str? then
      var parts := ParseStrings(ts);
      if parts.Fail? then Fail else Ok(ConstStr(parts.value), parts.rest)
    else if IsNumber(ts[0]) then Ok(ConstNum(Unsigned, ts[0]), ts[1..])
    else if At(ts, '-') || At(ts, '+') then
      var v := ParseSigned(ts);
      if v.Fail? then Fail else Ok(ConstNum(v.value.0, v.value.1), v.rest)
    else if ts[0].Ident? then
      var p := ParsePath(ts);
      if p.Fail? then Fail else Ok(ConstPath(p.value), p.rest)
    else if At(ts, '{') then
      var fields := ParseFields(ts[1..], '}');
      if fields.Fail? then Fail else Ok(Aggregate(fields.value), fields.rest)
    else Fail
  }
}
