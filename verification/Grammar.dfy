/** Statements: the printer and the recursive-descent parser on tokens. */
module Grammar {
  import opened Symbols
  import opened Syntax
  import opened TextFormat

  // ---- printing ------------------------------------------------------------------------------

  /** `option` statements print aggregates as blocks, field options on one line. */
  function PutSetting(s: Setting, st: Style, k: seq<Token>): (r: seq<Token>) {
    PutName(s.name, [Punct('=')] + PutConst(s.value, st, k))
  }

  predicate ReadableSettings(settings: seq<Setting>) {
    forall i :: 0 <= i < |settings| ==> ReadableConst(settings[i].value)
  }

  function PutSettings(settings: seq<Setting>, k: seq<Token>): (r: seq<Token>) {
    if settings == [] then k else [Punct('[')] + PutListed(settings, [Punct(']')] + k)
  }

  function PutListed(settings: seq<Setting>, k: seq<Token>): (r: seq<Token>) {
    if settings == [] then k
    else PutSetting(settings[0], Style(false, false), if |settings| == 1 then k else [Punct(',')] + PutListed(settings[1..], k))
  }

  function PutType(ty: Type, k: seq<Token>): (r: seq<Token>) {
    match ty
    case ScalarType(name) => [Ident(name)] + k
    case Named(path) => PutPath(path, k)
    case MapType(key, value) => [Ident("map"), Punct('<'), Ident(key), Punct(',')] + PutType(value, [Punct('>')] + k)
  }

  function PutMinus(negative: bool): (r: seq<Token>) {
    if negative then [Punct('-')] else []
  }

  function PutEnd(end: End, k: seq<Token>): (r: seq<Token>) {
    match end
    case Open => k
    case Max => [Ident("to"), Ident("max")] + k
    case UpTo(negative, number) => [Ident("to")] + (PutMinus(negative) + ([Int(number)] + k))
  }

  function PutRange(range: Range, k: seq<Token>): (r: seq<Token>) {
    PutMinus(range.negative) + ([Int(range.start)] + PutEnd(range.end, k))
  }

  function PutRanges(ranges: seq<Range>, k: seq<Token>): (r: seq<Token>) {
    if ranges == [] then k
    else PutRange(ranges[0], if |ranges| == 1 then k else [Punct(',')] + PutRanges(ranges[1..], k))
  }

  function PutQuoted(names: seq<string>, k: seq<Token>): (r: seq<Token>) {
    if names == [] then k else [Str(names[0])] + if |names| == 1 then k else [Punct(',')] + PutQuoted(names[1..], k)
  }

  function PutStream(stream: bool, k: seq<Token>): (r: seq<Token>) {
    if stream then [Ident("stream")] + k else k
  }

  function PutKind(kind: ImportKind, k: seq<Token>): (r: seq<Token>) {
    match kind
    case PlainImport => k
    case PublicImport => [Ident("public")] + k
    case WeakImport => [Ident("weak")] + k
  }

  function LabelWord(l: Label): (w: string) {
    match l case Repeated => "repeated" case Optional => "optional"
  }

  predicate ReadableStmt(s: Stmt)
    decreases s
  {
    match s
    case OptionStmt(setting) => ReadableConst(setting.value)
    case MessageStmt(_, items) => ReadableStmts(items)
    case EnumStmt(_, items) => ReadableStmts(items)
    case OneofStmt(_, items) => ReadableStmts(items)
    case ServiceStmt(_, items) => ReadableStmts(items)
    case RpcStmt(_, _, _, _, _, _, items) => ReadableStmts(items)
    case FieldStmt(_, _, _, _, settings) => ReadableSettings(settings)
    case ValueStmt(_, _, _, settings) => ReadableSettings(settings)
    case _ => true
  }

  predicate ReadableStmts(items: seq<Stmt>)
    decreases items
  {
    items == [] || (ReadableStmt(items[0]) && ReadableStmts(items[1..]))
  }

  function PutBlock(keyword: string, name: string, items: seq<Stmt>, k: seq<Token>): (r: seq<Token>)
    decreases items, 1
  {
    [Ident(keyword), Ident(name), Punct('{')] + PutStmts(items, [Punct('}')] + k)
  }

  function PutStmts(items: seq<Stmt>, k: seq<Token>): (r: seq<Token>)
    decreases items, 0
  {
    if items == [] then k else PutStmt(items[0], PutStmts(items[1..], k))
  }

  function PutStmt(s: Stmt, k: seq<Token>): (r: seq<Token>)
    decreases s
  {
    var end := [Punct(';')] + k;
    match s
    case SyntaxStmt(value) => [Ident("syntax"), Punct('='), Str(value)] + end
    case PackageStmt(path) => [Ident("package")] + PutPath(path, end)
    case ImportStmt(kind, file) =>
      [Ident("import")] + PutKind(kind, [Str(file)] + end)
    case OptionStmt(setting) => [Ident("option")] + PutSetting(setting, Style(true, false), end)
    case MessageStmt(name, items) => PutBlock("message", name, items, k)
    case EnumStmt(name, items) => PutBlock("enum", name, items, k)
    case OneofStmt(name, items) => PutBlock("oneof", name, items, k)
    case ServiceStmt(name, items) => PutBlock("service", name, items, k)
    case RpcStmt(name, fromStream, input, toStream, output, braced, items) =>
      var tail := if braced then [Punct('{')] + PutStmts(items, [Punct('}')] + k) else end;
      [Ident("rpc"), Ident(name), Punct('(')] + PutStream(fromStream, PutPath(input,
        [Punct(')'), Ident("returns"), Punct('(')] + PutStream(toStream, PutPath(output, [Punct(')')] + tail))))
    case FieldStmt(modifier, ty, name, number, settings) =>
      var field := PutType(ty, [Ident(name), Punct('='), Int(number)] + PutSettings(settings, end));
      if modifier.Some? then [Ident(LabelWord(modifier.value))] + field else field
    case ValueStmt(name, negative, number, settings) =>
      [Ident(name), Punct('=')] + (PutMinus(negative) + ([Int(number)] + PutSettings(settings, end)))
    case RangesStmt(ranges) => [Ident("reserved")] + PutRanges(ranges, end)
    case NamesStmt(names) => [Ident("reserved")] + PutQuoted(names, end)
  }

  // ---- parsing ---------------------------------------------------------------------------------

  predicate AtIdent(ts: seq<Token>) {
    ts != [] && ts[0].Ident?
  }

  predicate AtWord(ts: seq<Token>, w: string) {
    ts != [] && ts[0].Ident? && ts[0].text == w
  }

  predicate AtInt(ts: seq<Token>) {
    ts != [] && ts[0].Int?
  }

  /** The tokens behind an expected semicolon. */
  function Ended<T>(value: T, rest: seq<Token>): (r: Parsed<T>) {
    if At(rest, ';') then Ok(value, rest[1..]) else Fail
  }

  function ParseSetting(ts: seq<Token>): (r: Parsed<Setting>)
    ensures r.Ok? ==> |r.rest| < |ts|
  {
    var name := ParseName(ts);
    if name.Fail? || !At(name.rest, '=') then Fail
    else
      var value := ParseConst(name.rest[1..]);
      if value.Fail? then Fail else Ok(Setting(name.value, value.value), value.rest)
  }

  function ParseSettings(ts: seq<Token>): (r: Parsed<seq<Setting>>)
    ensures r.Ok? ==> |r.rest| <= |ts|
  {
    if At(ts, '[') then ParseListed(ts[1..]) else Ok([], ts)
  }

  function ParseListed(ts: seq<Token>): (r: Parsed<seq<Setting>>)
    ensures r.Ok? ==> |r.rest| < |ts|
    decreases |ts|
  {
    var s := ParseSetting(ts);
    if s.Fail? then Fail
    else if At(s.rest, ',') then Cons(s.value, ParseListed(s.rest[1..]))
    else if At(s.rest, ']') then Ok([s.value], s.rest[1..])
    else Fail
  }

  function ParseType(ts: seq<Token>): (r: Parsed<Type>)
    ensures r.Ok? ==> |r.rest| < |ts|
    decreases |ts|
  {
    if AtIdent(ts) && IsScalarName(ts[0].text) then Ok(ScalarType(ts[0].text), ts[1..])
    else if AtWord(ts, "map") && At(ts[1..], '<') then
      if !AtIdent(ts[2..]) || !IsMapKey(ts[2].text) || !At(ts[3..], ',') then Fail
      else
        var value := ParseType(ts[4..]);
        if value.Fail? || value.value.MapType? || !At(value.rest, '>') then Fail
        else Ok(MapType(ts[2].text, value.value), value.rest[1..])
    else if AtIdent(ts) || At(ts, '.') then
      var p := ParsePath(ts);
      if p.Fail? then Fail else Ok(Named(p.value), p.rest)
    else Fail
  }

  function LabelAt(ts: seq<Token>): (l: Option<Label>) {
    if AtWord(ts, "repeated") then Some(Repeated) else if AtWord(ts, "optional") then Some(Optional) else None
  }

  function ParseFieldStmt(ts: seq<Token>, inOneof: bool): (r: Parsed<Stmt>)
    ensures r.Ok? ==> |r.rest| < |ts|
  {
    var modifier := LabelAt(ts);
    if AtWord(ts, "required") || (modifier.Some? && inOneof) then Fail
    else
      var ty := ParseType(if modifier.Some? then ts[1..] else ts);
      if ty.Fail? || (ty.value.MapType? && (modifier.Some? || inOneof)) then Fail
      else
        ParseFieldRest(modifier, ty.value, ty.rest)
  }

  /** The name, number and options of a field, after its type. */
  function ParseFieldRest(modifier: Option<Label>, ty: Type, ts: seq<Token>): (r: Parsed<Stmt>)
    ensures r.Ok? ==> |r.rest| < |ts|
  {
    if !AtIdent(ts) || !At(ts[1..], '=') || !AtInt(ts[2..]) || !FieldNumber(ts[2].text) then Fail
    else
      var settings := ParseSettings(ts[3..]);
      if settings.Fail? then Fail
      else Ended(FieldStmt(modifier, ty, ts[0].text, ts[2].text, settings.value), settings.rest)
  }

  function ParseValueStmt(ts: seq<Token>): (r: Parsed<Stmt>)
    ensures r.Ok? ==> |r.rest| < |ts|
  {
    if !AtIdent(ts) || !At(ts[1..], '=') then Fail
    else
      var number := ParseEnumNumber(ts[2..]);
      if number.Fail? then Fail
      else
        var settings := ParseSettings(number.rest);
        if settings.Fail? then Fail
        else Ended(ValueStmt(ts[0].text, number.value.0, number.value.1, settings.value), settings.rest)
  }

  function ParseEnumNumber(ts: seq<Token>): (r: Parsed<(bool, string)>)
    ensures r.Ok? ==> |r.rest| < |ts|
  {
    var negative := At(ts, '-');
    var rest := if negative then ts[1..] else ts;
    if !AtInt(rest) || !EnumNumber(rest[0].text, negative) then Fail else Ok((negative, rest[0].text), rest[1..])
  }

  /** A number with an optional minus, checked for its kind of scope. */
  function ParseBound(ts: seq<Token>, inEnum: bool): (r: Parsed<(bool, string)>)
    ensures r.Ok? ==> |r.rest| < |ts|
  {
    var negative := At(ts, '-');
    var rest := if negative then ts[1..] else ts;
    if !AtInt(rest) || !ReservedNumber(inEnum, rest[0].text, negative) then Fail
    else Ok((negative, rest[0].text), rest[1..])
  }

  function ParseRange(ts: seq<Token>, inEnum: bool): (r: Parsed<Range>)
    ensures r.Ok? ==> |r.rest| < |ts|
  {
    var start := ParseBound(ts, inEnum);
    if start.Fail? then Fail
    else
      var end := ParseEnd(start.rest, inEnum);
      if end.Fail? then Fail else Ok(Range(start.value.0, start.value.1, end.value), end.rest)
  }

  function ParseEnd(ts: seq<Token>, inEnum: bool): (r: Parsed<End>)
    ensures r.Ok? ==> |r.rest| <= |ts|
  {
    if !AtWord(ts, "to") then Ok(Open, ts)
    else if AtWord(ts[1..], "max") then Ok(Max, ts[2..])
    else
      var end := ParseBound(ts[1..], inEnum);
      if end.Fail? then Fail else Ok(UpTo(end.value.0, end.value.1), end.rest)
  }

  function ParseRanges(ts: seq<Token>, inEnum: bool): (r: Parsed<seq<Range>>)
    ensures r.Ok? ==> |r.rest| < |ts|
    decreases |ts|
  {
    var range := ParseRange(ts, inEnum);
    if range.Fail? then Fail
    else if At(range.rest, ',') then Cons(range.value, ParseRanges(range.rest[1..], inEnum))
    else Ok([range.value], range.rest)
  }

  function ParseQuoted(ts: seq<Token>): (r: Parsed<seq<string>>)
    ensures r.Ok? ==> |r.rest| < |ts|
  {
    if ts == [] || !ts[0].Str? then Fail
    else if At(ts[1..], ',') then Cons(ts[0].text, ParseQuoted(ts[2..]))
    else Ok([ts[0].text], ts[1..])
  }

  /** After the word `reserved`. */
  function ParseReserved(ts: seq<Token>, inEnum: bool): (r: Parsed<Stmt>)
    ensures r.Ok? ==> |r.rest| < |ts|
  {
    if ts != [] && ts[0].Str? then
      var names := ParseQuoted(ts);
      if names.Fail? then Fail else Ended(NamesStmt(names.value), names.rest)
    else
      var ranges := ParseRanges(ts, inEnum);
      if ranges.Fail? then Fail else Ended(RangesStmt(ranges.value), ranges.rest)
  }

  /** `stream` is a modifier only when a type follows it. */
  predicate AtStream(ts: seq<Token>) {
    AtWord(ts, "stream") && (AtIdent(ts[1..]) || At(ts[1..], '.'))
  }

  /** One parenthesised request or response type. */
  function ParseParty(ts: seq<Token>): (r: Parsed<(bool, Path)>)
    ensures r.Ok? ==> |r.rest| < |ts|
  {
    if !At(ts, '(') then Fail
    else
      var stream := AtStream(ts[1..]);
      var p := ParsePath(if stream then ts[2..] else ts[1..]);
      if p.Fail? || !At(p.rest, ')') then Fail else Ok((stream, p.value), p.rest[1..])
  }

  function ParseHead(ts: seq<Token>): (r: Parsed<Stmt>)
    ensures r.Ok? ==> |r.rest| < |ts| && r.value.RpcStmt? && !r.value.braced
  {
    if !AtIdent(ts) then Fail
    else
      var input := ParseParty(ts[1..]);
      if input.Fail? || !AtWord(input.rest, "returns") then Fail
      else
        var output := ParseParty(input.rest[1..]);
        if output.Fail? then Fail
        else
          var head := RpcStmt(ts[0].text, input.value.0, input.value.1, output.value.0, output.value.1, false, []);
          Ok(head, output.rest)
  }

  function ParseSimple(ts: seq<Token>): (r: Parsed<Stmt>)
    ensures r.Ok? ==> |r.rest| < |ts|
  {
    if AtWord(ts, "syntax") then ParseSyntax(ts[1..])
    else if AtWord(ts, "package") then ParsePackage(ts[1..])
    else if AtWord(ts, "import") then ParseImport(ts[1..])
    else Fail
  }

  function ParseSyntax(ts: seq<Token>): (r: Parsed<Stmt>)
    ensures r.Ok? ==> |r.rest| < |ts|
  {
    if !At(ts, '=') || ts[1..] == [] || !ts[1].Str? || !IsProto3(ts[1].text) then Fail
    else Ended(SyntaxStmt(ts[1].text), ts[2..])
  }

  function ParsePackage(ts: seq<Token>): (r: Parsed<Stmt>)
    ensures r.Ok? ==> |r.rest| < |ts|
  {
    var p := ParsePath(ts);
    if p.Fail? || p.value.dot then Fail else Ended(PackageStmt(p.value), p.rest)
  }

  function ParseImport(ts: seq<Token>): (r: Parsed<Stmt>)
    ensures r.Ok? ==> |r.rest| < |ts|
  {
    if AtWord(ts, "public") then ParseImported(PublicImport, ts[1..])
    else if AtWord(ts, "weak") then ParseImported(WeakImport, ts[1..])
    else ParseImported(PlainImport, ts)
  }

  function ParseImported(kind: ImportKind, ts: seq<Token>): (r: Parsed<Stmt>)
    ensures r.Ok? ==> |r.rest| < |ts|
  {
    if ts == [] || !ts[0].Str? then Fail else Ended(ImportStmt(kind, ts[0].text), ts[1..])
  }

  predicate IsProto3(text: string) {
    |text| >= 2 && text[1..|text| - 1] == "proto3"
  }

  function ParseOption(ts: seq<Token>): (r: Parsed<Stmt>)
    ensures r.Ok? ==> |r.rest| < |ts|
  {
    var s := ParseSetting(ts);
    if s.Fail? then Fail else Ended(OptionStmt(s.value), s.rest)
  }

  /** The statements of a scope up to its brace, or to the end of the file; empty statements are skipped. */
  function ParseStmts(scope: Scope, ts: seq<Token>): (r: Parsed<seq<Stmt>>)
    ensures r.Ok? ==> |r.rest| <= |ts|
    decreases |ts|, 2
  {
    if At(ts, ';') then ParseStmts(scope, ts[1..])
    else if scope.Top? && ts == [] then Ok([], [])
    else if !scope.Top? && At(ts, '}') then Ok([], ts[1..])
    else
      var s := ParseStmt(scope, ts);
      if s.Fail? then Fail else Cons(s.value, ParseStmts(scope, s.rest))
  }

  /** `keyword name {` … `}`, with the keyword as current token. */
  function ParseBlock(inner: Scope, ts: seq<Token>): (r: Parsed<(string, seq<Stmt>)>)
    requires ts != []
    ensures r.Ok? ==> |r.rest| < |ts|
    decreases |ts|, 0
  {
    if !AtIdent(ts[1..]) || !At(ts[2..], '{') then Fail
    else
      var items := ParseStmts(inner, ts[3..]);
      if items.Fail? then Fail else Ok((ts[1].text, items.value), items.rest)
  }

  function ParseRpc(ts: seq<Token>): (r: Parsed<Stmt>)
    requires ts != []
    ensures r.Ok? ==> |r.rest| < |ts|
    decreases |ts|, 0
  {
    var head := ParseHead(ts[1..]);
    if head.Fail? then Fail
    else if At(head.rest, ';') then Ok(head.value, head.rest[1..])
    else if At(head.rest, '{') then
      var body := ParseStmts(InRpc, head.rest[1..]);
      if body.Fail? then Fail else Ok(head.value.(braced := true, items := body.value), body.rest)
    else Fail
  }

  /** The statement at the current token, by the rules of its scope. */
  function ParseStmt(scope: Scope, ts: seq<Token>): (r: Parsed<Stmt>)
    ensures r.Ok? ==> |r.rest| < |ts|
    decreases |ts|, 1
  {
    if ts == [] then Fail
    else if AtWord(ts, "option") then ParseOption(ts[1..])
    else
      match scope
      case Top =>
        if AtWord(ts, "message") then AsMessage(ParseBlock(InMessage, ts))
        else if AtWord(ts, "enum") then AsEnum(ParseBlock(InEnum, ts))
        else if AtWord(ts, "service") then AsService(ParseBlock(InService, ts))
        else ParseSimple(ts)
      case InMessage =>
        if AtWord(ts, "message") then AsMessage(ParseBlock(InMessage, ts))
        else if AtWord(ts, "enum") then AsEnum(ParseBlock(InEnum, ts))
        else if AtWord(ts, "oneof") then AsOneof(ParseBlock(InOneof, ts))
        else if AtWord(ts, "reserved") then ParseReserved(ts[1..], false)
        else if AtIdent(ts) && StartsOther(ts[0].text) then Fail
        else ParseFieldStmt(ts, false)
      case InOneof => ParseFieldStmt(ts, true)
      case InEnum => if AtWord(ts, "reserved") then ParseReserved(ts[1..], true) else ParseValueStmt(ts)
      case InService => if AtWord(ts, "rpc") then ParseRpc(ts) else Fail
      case InRpc => Fail
  }

  function AsMessage(b: Parsed<(string, seq<Stmt>)>): (r: Parsed<Stmt>) {
    if b.Fail? then Fail else Ok(MessageStmt(b.value.0, b.value.1), b.rest)
  }

  function AsEnum(b: Parsed<(string, seq<Stmt>)>): (r: Parsed<Stmt>) {
    if b.Fail? then Fail else Ok(EnumStmt(b.value.0, b.value.1), b.rest)
  }

  function AsOneof(b: Parsed<(string, seq<Stmt>)>): (r: Parsed<Stmt>) {
    if b.Fail? then Fail else Ok(OneofStmt(b.value.0, b.value.1), b.rest)
  }

  function AsService(b: Parsed<(string, seq<Stmt>)>): (r: Parsed<Stmt>) {
    if b.Fail? then Fail else Ok(ServiceStmt(b.value.0, b.value.1), b.rest)
  }

  /** The file rules: `syntax` first and nowhere else, at most one `package`. */
  predicate FileRules(items: seq<Stmt>) {
    && items != [] && items[0].SyntaxStmt?
    && (forall i :: 0 < i < |items| ==> !items[i].SyntaxStmt?)
    && (forall i, j :: 0 <= i < j < |items| ==> !(items[i].PackageStmt? && items[j].PackageStmt?))
  }

  function ParseFile(ts: seq<Token>): (r: Option<seq<Stmt>>) {
    var items := ParseStmts(Top, ts);
    if items.Fail? || !FileRules(items.value) then None else Some(items.value)
  }

  function PutFile(items: seq<Stmt>): (r: seq<Token>) {
    PutStmts(items, [])
  }
}
