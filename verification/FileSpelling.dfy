/** All spellings of a file, and that the parser accepts exactly these.

  Where the grammar leaves no choice, the tokens are those that the printer
  writes. Free are the spellings of aggregates (module Spelling) and the empty
  statements between the statements of every scope.
 */
module FileSpelling {
  import opened Symbols
  import opened Syntax
  import opened TextFormat
  import opened TextRoundTrip
  import opened Grammar
  import opened GrammarRoundTrip
  import Spelling

  // ---- the rules ---------------------------------------------------------------------------------

  ghost predicate ConstIs(c: Constant, ts: seq<Token>, k: seq<Token>) {
    match c
    case ConstPath(p) => !p.dot && p.segs != [] && ts == PutPath(p, k) && !At(k, '.')
    case ConstNum(sign, tok) => !(sign.Unsigned? && tok.Ident?) && Spelling.ScalarIs(sign, tok, ts, k)
    case ConstStr(parts) => Spelling.StringsAre(parts, ts, k)
    case Aggregate(fields) => At(ts, '{') && Spelling.FieldsAre(fields, '}', ts[1..], k)
  }

  ghost predicate SettingIs(s: Setting, ts: seq<Token>, k: seq<Token>) {
    LegalName(s.name) && exists value: seq<Token> ::
      |value| < |ts| && ts == PutName(s.name, [Punct('=')] + value) && ConstIs(s.value, value, k)
  }

  ghost predicate SettingsAre(settings: seq<Setting>, ts: seq<Token>, k: seq<Token>) {
    if settings == [] then ts == k && !At(k, '[') else At(ts, '[') && ListedAre(settings, ts[1..], k)
  }

  ghost predicate ListedAre(settings: seq<Setting>, ts: seq<Token>, k: seq<Token>)
    decreases |ts|
  {
    settings != [] && exists end: seq<Token> ::
      |end| < |ts| && SettingIs(settings[0], ts, end) && MoreListed(settings[1..], end, k)
  }

  ghost predicate MoreListed(more: seq<Setting>, ts: seq<Token>, k: seq<Token>)
    decreases |ts|
  {
    if more == [] then ts == [Punct(']')] + k else At(ts, ',') && ListedAre(more, ts[1..], k)
  }

  /** The statements of a scope and its end, with empty statements anywhere. */
  ghost predicate StmtsAre(scope: Scope, items: seq<Stmt>, ts: seq<Token>, k: seq<Token>)
    decreases |ts|, 2
  {
    || (At(ts, ';') && StmtsAre(scope, items, ts[1..], k))
    || (items == [] && if scope.Top? then ts == [] && k == [] else At(ts, '}') && k == ts[1..])
    || (items != [] && exists mid: seq<Token> ::
          |mid| < |ts| && StmtIs(scope, items[0], ts, mid) && StmtsAre(scope, items[1..], mid, k))
  }

  ghost predicate StmtIs(scope: Scope, s: Stmt, ts: seq<Token>, k: seq<Token>)
    decreases |ts|, 1
  {
    Legal(scope, s) &&
    match s
    case OptionStmt(setting) => AtWord(ts, "option") && SettingIs(setting, ts[1..], [Punct(';')] + k)
    case MessageStmt(name, items) => BlockIs(InMessage, "message", name, items, ts, k)
    case EnumStmt(name, items) => BlockIs(InEnum, "enum", name, items, ts, k)
    case OneofStmt(name, items) => BlockIs(InOneof, "oneof", name, items, ts, k)
    case ServiceStmt(name, items) => BlockIs(InService, "service", name, items, ts, k)
    case RpcStmt(_, _, _, _, _, _, _) => RpcIs(s, ts, k)
    case FieldStmt(_, _, _, _, settings) =>
      exists rest: seq<Token> :: ts == FieldTokens(s, rest) && SettingsAre(settings, rest, [Punct(';')] + k)
    case ValueStmt(_, _, _, settings) =>
      exists rest: seq<Token> :: ts == ValueTokens(s, rest) && SettingsAre(settings, rest, [Punct(';')] + k)
    case _ => ts == PutStmt(s, k)
  }

  ghost predicate BlockIs(inner: Scope, keyword: string, name: string, items: seq<Stmt>, ts: seq<Token>, k: seq<Token>)
    decreases |ts|, 0
  {
    exists body: seq<Token> ::
      |body| < |ts| && ts == [Ident(keyword), Ident(name), Punct('{')] + body && StmtsAre(inner, items, body, k)
  }

  ghost predicate RpcIs(s: Stmt, ts: seq<Token>, k: seq<Token>)
    requires s.RpcStmt?
    decreases |ts|, 0
  {
    exists tail: seq<Token> ::
      && |tail| < |ts| && ts == HeadTokens(s, tail)
      && if s.braced then At(tail, '{') && StmtsAre(InRpc, s.items, tail[1..], k) else tail == [Punct(';')] + k
  }

  function PartyTokens(stream: bool, p: Path, k: seq<Token>): (r: seq<Token>) {
    [Punct('(')] + PutStream(stream, PutPath(p, [Punct(')')] + k))
  }

  function HeadTokens(s: Stmt, tail: seq<Token>): (r: seq<Token>)
    requires s.RpcStmt?
  {
    [Ident("rpc")] + ([Ident(s.name)] + PartyTokens(s.fromStream, s.input, ReturnTokens(s, tail)))
  }

  function ReturnTokens(s: Stmt, tail: seq<Token>): (r: seq<Token>)
    requires s.RpcStmt?
  {
    [Ident("returns")] + PartyTokens(s.toStream, s.output, tail)
  }

  function FieldTokens(s: Stmt, rest: seq<Token>): (r: seq<Token>)
    requires s.FieldStmt?
  {
    var field := PutType(s.ty, [Ident(s.name), Punct('='), Int(s.number)] + rest);
    if s.modifier.Some? then [Ident(LabelWord(s.modifier.value))] + field else field
  }

  function ValueTokens(s: Stmt, rest: seq<Token>): (r: seq<Token>)
    requires s.ValueStmt?
  {
    [Ident(s.name), Punct('=')] + (PutMinus(s.negative) + ([Int(s.number)] + rest))
  }

  // ---- every spelling is read -----------------------------------------------------------------------

  lemma FirstToken(t: Token, ts: seq<Token>)
    requires ts != [] && ts[0] == t
    ensures ts == [t] + ts[1..]
  {
  }

  lemma FirstThree(a: Token, b: Token, c: Token, ts: seq<Token>)
    requires |ts| >= 3 && ts[0] == a && ts[1] == b && ts[2] == c
    ensures ts == [a, b, c] + ts[3..]
  {
  }

  lemma ConstRead(c: Constant, ts: seq<Token>, k: seq<Token>)
    requires ConstIs(c, ts, k)
    ensures ParseConst(ts) == Ok(c, k)
  {
    match c
    case ConstPath(p) => PathBack(p, k);
    case ConstNum(sign, tok) => NumberRead(sign, tok, ts, k);
    case ConstStr(parts) => Spelling.StringsRead(parts, ts, k);
    case Aggregate(fields) => Spelling.FieldsRead(fields, '}', ts[1..], k);
  }

  lemma NumberRead(sign: Sign, tok: Token, ts: seq<Token>, k: seq<Token>)
    requires Spelling.ScalarIs(sign, tok, ts, k) && !(sign.Unsigned? && tok.Ident?)
    ensures ParseConst(ts) == Ok(ConstNum(sign, tok), k)
  {
    if sign.Unsigned? {
      assert ts[1..] == k;
    } else {
      assert ts[1..] == [tok] + k && ts[2..] == k;
    }
  }

  lemma SettingRead(s: Setting, ts: seq<Token>, k: seq<Token>)
    requires SettingIs(s, ts, k)
    ensures ParseSetting(ts) == Ok(s, k)
  {
    var value: seq<Token> :| |value| < |ts| && ts == PutName(s.name, [Punct('=')] + value) && ConstIs(s.value, value, k);
    NameBack(s.name, [Punct('=')] + value);
    Tail(Punct('='), value);
    ConstRead(s.value, value, k);
  }

  lemma {:induction false} ListedRead(settings: seq<Setting>, ts: seq<Token>, k: seq<Token>)
    requires ListedAre(settings, ts, k)
    ensures ParseListed(ts) == Ok(settings, k)
    decreases |ts|
  {
    var end: seq<Token> :| |end| < |ts| && SettingIs(settings[0], ts, end) && MoreListed(settings[1..], end, k);
    SettingRead(settings[0], ts, end);
    MoreRead(settings[1..], end, k);
    if settings[1..] == [] {
      LastListed(settings, ts, k);
    } else {
      ReadListed(ts, settings, end[1..], k);
    }
  }

  lemma {:induction false} MoreRead(more: seq<Setting>, ts: seq<Token>, k: seq<Token>)
    requires MoreListed(more, ts, k)
    ensures if more == [] then ts == [Punct(']')] + k else ts == [Punct(',')] + ts[1..] && ParseListed(ts[1..]) == Ok(more, k)
    decreases |ts|
  {
    if more != [] {
      FirstToken(Punct(','), ts);
      ListedRead(more, ts[1..], k);
    }
  }

  lemma LastListed(settings: seq<Setting>, ts: seq<Token>, k: seq<Token>)
    requires |settings| == 1 && ParseSetting(ts) == Ok(settings[0], [Punct(']')] + k)
    ensures ParseListed(ts) == Ok(settings, k)
  {
    Tail(Punct(']'), k);
    assert [settings[0]] == settings;
  }

  lemma SettingsRead(settings: seq<Setting>, ts: seq<Token>, k: seq<Token>)
    requires SettingsAre(settings, ts, k)
    ensures ParseSettings(ts) == Ok(settings, k)
  {
    if settings != [] {
      ListedRead(settings, ts[1..], k);
    }
  }

  lemma FieldRestRead(s: Stmt, rest: seq<Token>, k: seq<Token>)
    requires s.FieldStmt? && FieldNumber(s.number) && SettingsAre(s.settings, rest, [Punct(';')] + k)
    ensures ParseFieldRest(s.modifier, s.ty, [Ident(s.name), Punct('='), Int(s.number)] + rest) == Ok(s, k)
  {
    ThreeTokens(Ident(s.name), Punct('='), Int(s.number), rest);
    SettingsRead(s.settings, rest, [Punct(';')] + k);
    EndedBack(s, k);
  }

  lemma FieldRead(scope: Scope, s: Stmt, rest: seq<Token>, k: seq<Token>)
    requires s.FieldStmt? && Legal(scope, s) && SettingsAre(s.settings, rest, [Punct(';')] + k)
    ensures ParseStmt(scope, FieldTokens(s, rest)) == Ok(s, k)
    ensures AtIdent(FieldTokens(s, rest)) || At(FieldTokens(s, rest), '.')
  {
    var named := [Ident(s.name), Punct('='), Int(s.number)] + rest;
    FieldTypeBack(s, named);
    FieldRestRead(s, rest, k);
    LabelBack(s.modifier, PutType(s.ty, named));
    FieldDispatch(scope, s, FieldTokens(s, rest));
  }

  lemma ValueRead(s: Stmt, rest: seq<Token>, k: seq<Token>)
    requires s.ValueStmt? && Legal(InEnum, s) && SettingsAre(s.settings, rest, [Punct(';')] + k)
    ensures ParseStmt(InEnum, ValueTokens(s, rest)) == Ok(s, k) && AtIdent(ValueTokens(s, rest))
  {
    var number := PutMinus(s.negative) + ([Int(s.number)] + rest);
    EnumNumberBack(s.negative, s.number, rest);
    SettingsRead(s.settings, rest, [Punct(';')] + k);
    EndedBack(s, k);
    ReadValue(ValueTokens(s, rest), s, number, rest, [Punct(';')] + k, k);
  }

  lemma HeadRead(s: Stmt, tail: seq<Token>)
    requires s.RpcStmt? && Legal(InService, s)
    ensures AtWord(HeadTokens(s, tail), "rpc")
    ensures ParseHead(HeadTokens(s, tail)[1..]) == Ok(s.(braced := false, items := []), tail)
  {
    HeadBack(s.name, s.fromStream, s.input, s.toStream, s.output, tail);
    Tail(Ident("rpc"), HeadTokens(s, tail)[1..]);
  }

  lemma RpcRead(ts: seq<Token>, s: Stmt, tail: seq<Token>, k: seq<Token>)
    requires s.RpcStmt? && Legal(InService, s) && ts == HeadTokens(s, tail)
    requires
      if s.braced then At(tail, '{') && ParseStmts(InRpc, tail[1..]) == Ok(s.items, k) else tail == [Punct(';')] + k
    ensures ParseStmt(InService, ts) == Ok(s, k) && AtIdent(ts)
  {
    HeadRead(s, tail);
    DefinitionWords();
    Tail(Punct(';'), k);
  }

  lemma BlockRead(inner: Scope, keyword: string, name: string, items: seq<Stmt>, body: seq<Token>, k: seq<Token>)
    requires ParseStmts(inner, body) == Ok(items, k)
    ensures
      var ts := [Ident(keyword), Ident(name), Punct('{')] + body;
      AtWord(ts, keyword) && ParseBlock(inner, ts) == Ok((name, items), k)
  {
    ThreeTokens(Ident(keyword), Ident(name), Punct('{'), body);
  }

  lemma OptionRead(scope: Scope, setting: Setting, ts: seq<Token>, k: seq<Token>)
    requires AtWord(ts, "option") && SettingIs(setting, ts[1..], [Punct(';')] + k)
    ensures ParseStmt(scope, ts) == Ok(OptionStmt(setting), k)
  {
    SettingRead(setting, ts[1..], [Punct(';')] + k);
    EndedBack(OptionStmt(setting), k);
  }

  lemma {:induction false} StmtRead(scope: Scope, s: Stmt, ts: seq<Token>, k: seq<Token>)
    requires StmtIs(scope, s, ts, k)
    ensures ParseStmt(scope, ts) == Ok(s, k)
    ensures AtIdent(ts) || At(ts, '.')
    decreases |ts|, 1
  {
    match s
    case OptionStmt(setting) => OptionRead(scope, setting, ts, k);
    case RpcStmt(_, _, _, _, _, _, _) => RpcOf(s, ts, k);
    case FieldStmt(_, _, _, _, settings) =>
      var rest: seq<Token> :| ts == FieldTokens(s, rest) && SettingsAre(settings, rest, [Punct(';')] + k);
      FieldRead(scope, s, rest, k);
    case ValueStmt(_, _, _, settings) =>
      var rest: seq<Token> :| ts == ValueTokens(s, rest) && SettingsAre(settings, rest, [Punct(';')] + k);
      ValueRead(s, rest, k);
    case RangesStmt(_) => ReservedStmtBack(scope, s, k);
    case NamesStmt(_) => ReservedStmtBack(scope, s, k);
    case SyntaxStmt(_) => SimpleBack(s, k);
    case PackageStmt(_) => SimpleBack(s, k);
    case ImportStmt(_, _) => SimpleBack(s, k);
    case _ => DefinitionRead(scope, s, ts, k);
  }

  lemma {:induction false} RpcOf(s: Stmt, ts: seq<Token>, k: seq<Token>)
    requires s.RpcStmt? && Legal(InService, s) && RpcIs(s, ts, k)
    ensures ParseStmt(InService, ts) == Ok(s, k) && AtIdent(ts)
    decreases |ts|, 0
  {
    var tail: seq<Token> :|
      && |tail| < |ts| && ts == HeadTokens(s, tail)
      && if s.braced then At(tail, '{') && StmtsAre(InRpc, s.items, tail[1..], k) else tail == [Punct(';')] + k;
    if s.braced {
      StmtsRead(InRpc, s.items, tail[1..], k);
    }
    RpcRead(ts, s, tail, k);
  }

  lemma {:induction false} DefinitionRead(scope: Scope, s: Stmt, ts: seq<Token>, k: seq<Token>)
    requires s.MessageStmt? || s.EnumStmt? || s.OneofStmt? || s.ServiceStmt?
    requires StmtIs(scope, s, ts, k)
    ensures ParseStmt(scope, ts) == Ok(s, k) && AtIdent(ts)
    decreases |ts|, 0
  {
    DefinitionWords();
    match s
    case MessageStmt(name, items) => BlockOf(InMessage, "message", name, items, ts, k);
    case EnumStmt(name, items) => BlockOf(InEnum, "enum", name, items, ts, k);
    case OneofStmt(name, items) => BlockOf(InOneof, "oneof", name, items, ts, k);
    case ServiceStmt(name, items) => BlockOf(InService, "service", name, items, ts, k);
  }

  lemma {:induction false} BlockOf(inner: Scope, keyword: string, name: string, items: seq<Stmt>, ts: seq<Token>,
      k: seq<Token>)
    requires BlockIs(inner, keyword, name, items, ts, k)
    ensures AtWord(ts, keyword) && ParseBlock(inner, ts) == Ok((name, items), k)
    decreases |ts|, -1
  {
    var body: seq<Token> :|
      |body| < |ts| && ts == [Ident(keyword), Ident(name), Punct('{')] + body && StmtsAre(inner, items, body, k);
    StmtsRead(inner, items, body, k);
    BlockRead(inner, keyword, name, items, body, k);
  }

  lemma {:induction false} StmtsRead(scope: Scope, items: seq<Stmt>, ts: seq<Token>, k: seq<Token>)
    requires StmtsAre(scope, items, ts, k)
    ensures ParseStmts(scope, ts) == Ok(items, k)
    decreases |ts|, 2
  {
    if At(ts, ';') && StmtsAre(scope, items, ts[1..], k) {
      StmtsRead(scope, items, ts[1..], k);
    } else if items != [] {
      var mid: seq<Token> :| |mid| < |ts| && StmtIs(scope, items[0], ts, mid) && StmtsAre(scope, items[1..], mid, k);
      StmtRead(scope, items[0], ts, mid);
      StmtsRead(scope, items[1..], mid, k);
      FirstStmtRead(scope, items, ts, mid, k);
    }
  }

  lemma FirstStmtRead(scope: Scope, items: seq<Stmt>, ts: seq<Token>, mid: seq<Token>, k: seq<Token>)
    requires items != [] && (AtIdent(ts) || At(ts, '.'))
    requires ParseStmt(scope, ts) == Ok(items[0], mid) && ParseStmts(scope, mid) == Ok(items[1..], k)
    ensures ParseStmts(scope, ts) == Ok(items, k)
  {
    assert [items[0]] + items[1..] == items;
  }

  // ---- nothing else is read ---------------------------------------------------------------------------

  lemma {:induction false} SegsOnly(ts: seq<Token>)
    requires ParseSegs(ts).Ok?
    ensures ts == PutSegs(ParseSegs(ts).value, ParseSegs(ts).rest) && !At(ParseSegs(ts).rest, '.')
    ensures ParseSegs(ts).value != []
  {
    if At(ts[1..], '.') {
      SegsOnly(ts[2..]);
      var more := ParseSegs(ts[2..]);
      assert ([ts[0].text] + more.value)[1..] == more.value;
      assert ts == [ts[0]] + ([ts[1]] + ts[2..]);
    } else {
      assert ts == [ts[0]] + ts[1..];
    }
  }

  lemma PathOnly(ts: seq<Token>)
    requires ParsePath(ts).Ok?
    ensures ts == PutPath(ParsePath(ts).value, ParsePath(ts).rest) && !At(ParsePath(ts).rest, '.')
    ensures ParsePath(ts).value.segs != [] && (ParsePath(ts).value.dot <==> At(ts, '.'))
  {
    if At(ts, '.') {
      SegsOnly(ts[1..]);
      assert ts == [ts[0]] + ts[1..];
    } else {
      SegsOnly(ts);
    }
  }

  lemma PartOnly(ts: seq<Token>)
    requires ParsePart(ts).Ok?
    ensures ts == PutPart(ParsePart(ts).value, ParsePart(ts).rest)
  {
    if At(ts, '(') {
      PathOnly(ts[1..]);
      var rest := ParsePath(ts[1..]).rest;
      assert rest == [Punct(')')] + rest[1..];
      assert ts == [Punct('(')] + ts[1..];
    } else {
      assert ts == [ts[0]] + ts[1..];
    }
  }

  lemma {:induction false} NameOnly(ts: seq<Token>)
    requires ParseName(ts).Ok?
    ensures ts == PutName(ParseName(ts).value, ParseName(ts).rest) && ParseName(ts).value != []
    decreases |ts|
  {
    var part := ParsePart(ts);
    PartOnly(ts);
    if At(part.rest, '.') {
      NameOnly(part.rest[1..]);
      var more := ParseName(part.rest[1..]);
      assert ([part.value] + more.value)[1..] == more.value;
      assert part.rest == [Punct('.')] + part.rest[1..];
    }
  }

  lemma ConstOnly(ts: seq<Token>)
    requires ParseConst(ts).Ok?
    ensures ConstIs(ParseConst(ts).value, ts, ParseConst(ts).rest)
  {
    if ts[0].Str? {
      Spelling.StringsOnly(ts);
    } else if ts[0].Ident? {
      PathOnly(ts);
    } else if At(ts, '{') {
      Spelling.FieldsOnly(ts[1..], '}');
    } else if ts[0].Punct? {
      assert ts == [ts[0], ts[1]] + ts[2..];
    } else {
      assert ts == [ts[0]] + ts[1..];
    }
  }

  lemma SettingOnly(ts: seq<Token>)
    requires ParseSetting(ts).Ok?
    ensures SettingIs(ParseSetting(ts).value, ts, ParseSetting(ts).rest)
  {
    var name := ParseName(ts);
    NameOnly(ts);
    NameLegal(ts);
    ConstOnly(name.rest[1..]);
    assert name.rest == [Punct('=')] + name.rest[1..];
  }

  lemma ListedUnfold(ts: seq<Token>)
    requires ParseListed(ts).Ok?
    ensures
      var s, list := ParseSetting(ts), ParseListed(ts);
      && s.Ok?
      && (if At(s.rest, ',') then
            var more := ParseListed(s.rest[1..]);
            more.Ok? && list == Ok([s.value] + more.value, more.rest)
          else At(s.rest, ']') && list == Ok([s.value], s.rest[1..]))
  {
  }

  lemma {:induction false} ListedOnly(ts: seq<Token>)
    requires ParseListed(ts).Ok?
    ensures ListedAre(ParseListed(ts).value, ts, ParseListed(ts).rest)
    decreases |ts|
  {
    var s := ParseSetting(ts);
    ListedUnfold(ts);
    SettingOnly(ts);
    if At(s.rest, ',') {
      var more := ParseListed(s.rest[1..]);
      ListedOnly(s.rest[1..]);
      ListedWith(s.value, more.value, ts, s.rest, more.rest);
    } else {
      LastOnly(s.rest);
      ListedWith(s.value, [], ts, s.rest, s.rest[1..]);
      assert [s.value] + [] == [s.value];
    }
  }

  lemma LastOnly(ts: seq<Token>)
    requires At(ts, ']')
    ensures MoreListed([], ts, ts[1..])
  {
    assert ts == [Punct(']')] + ts[1..];
  }

  lemma ListedWith(s: Setting, more: seq<Setting>, ts: seq<Token>, end: seq<Token>, k: seq<Token>)
    requires |end| < |ts| && SettingIs(s, ts, end) && MoreListed(more, end, k)
    ensures ListedAre([s] + more, ts, k)
  {
    assert ([s] + more)[1..] == more && ([s] + more)[0] == s;
  }

  lemma SettingsOnly(ts: seq<Token>)
    requires ParseSettings(ts).Ok?
    ensures SettingsAre(ParseSettings(ts).value, ts, ParseSettings(ts).rest)
  {
    if At(ts, '[') {
      ListedOnly(ts[1..]);
    }
  }

  lemma {:induction false} TypeOnly(ts: seq<Token>)
    requires ParseType(ts).Ok?
    ensures ts == PutType(ParseType(ts).value, ParseType(ts).rest)
    decreases |ts|
  {
    if AtIdent(ts) && IsScalarName(ts[0].text) {
      assert ts == [ts[0]] + ts[1..];
    } else if AtWord(ts, "map") && At(ts[1..], '<') {
      TypeOnly(ts[4..]);
      MapOnly(ts);
    } else {
      PathOnly(ts);
    }
  }

  lemma MapOnly(ts: seq<Token>)
    requires |ts| > 4 && ts[0] == Ident("map") && ts[1] == Punct('<') && ts[2].Ident? && ts[3] == Punct(',')
    requires ParseType(ts[4..]).Ok? && ts[4..] == PutType(ParseType(ts[4..]).value, ParseType(ts[4..]).rest)
    requires At(ParseType(ts[4..]).rest, '>')
    ensures ts == PutType(MapType(ts[2].text, ParseType(ts[4..]).value), ParseType(ts[4..]).rest[1..])
  {
    var rest := ParseType(ts[4..]).rest;
    assert rest == [Punct('>')] + rest[1..];
    assert ts == [Ident("map"), Punct('<'), ts[2], Punct(',')] + ts[4..];
  }

  lemma EndedOnly<T>(value: T, rest: seq<Token>)
    requires Ended(value, rest).Ok?
    ensures rest == [Punct(';')] + Ended(value, rest).rest && Ended(value, rest).value == value
  {
  }

  lemma FieldRestOnly(modifier: Option<Label>, ty: Type, ts: seq<Token>)
    requires ParseFieldRest(modifier, ty, ts).Ok?
    ensures
      var s := ParseFieldRest(modifier, ty, ts);
      && s.value.FieldStmt? && s.value.modifier == modifier && s.value.ty == ty && |ts| >= 3
      && ts == [Ident(s.value.name), Punct('='), Int(s.value.number)] + ts[3..]
      && SettingsAre(s.value.settings, ts[3..], [Punct(';')] + s.rest)
  {
    var settings := ParseSettings(ts[3..]);
    SettingsOnly(ts[3..]);
    EndedOnly(FieldStmt(modifier, ty, ts[0].text, ts[2].text, settings.value), settings.rest);
  }

  lemma FieldOnly(ts: seq<Token>, inOneof: bool)
    requires ParseFieldStmt(ts, inOneof).Ok?
    ensures
      var s := ParseFieldStmt(ts, inOneof);
      s.value.FieldStmt? && exists rest: seq<Token> ::
        ts == FieldTokens(s.value, rest) && SettingsAre(s.value.settings, rest, [Punct(';')] + s.rest)
  {
    var s := ParseFieldStmt(ts, inOneof);
    var modifier := LabelAt(ts);
    var from := if modifier.Some? then ts[1..] else ts;
    var ty := ParseType(from);
    TypeOnly(from);
    FieldRestOnly(modifier, ty.value, ty.rest);
    LabelOnly(ts);
    FieldTokensAre(s.value, ts, from, ty.rest, ty.rest[3..]);
  }

  lemma LabelOnly(ts: seq<Token>)
    ensures LabelAt(ts).Some? ==> ts != [] && ts == [Ident(LabelWord(LabelAt(ts).value))] + ts[1..]
  {
  }

  lemma FieldTokensAre(s: Stmt, ts: seq<Token>, from: seq<Token>, named: seq<Token>, rest: seq<Token>)
    requires s.FieldStmt? && from == PutType(s.ty, named)
    requires named == [Ident(s.name), Punct('='), Int(s.number)] + rest
    requires ts == if s.modifier.Some? then [Ident(LabelWord(s.modifier.value))] + from else from
    ensures ts == FieldTokens(s, rest)
  {
  }

  lemma NumberOnly(ts: seq<Token>)
    requires ParseEnumNumber(ts).Ok?
    ensures
      var n := ParseEnumNumber(ts);
      ts == PutMinus(n.value.0) + ([Int(n.value.1)] + n.rest)
  {
    if At(ts, '-') {
      assert ts == [ts[0]] + ([ts[1]] + ts[2..]);
    } else {
      assert ts == [] + ([ts[0]] + ts[1..]);
    }
  }

  lemma ValueOnly(ts: seq<Token>)
    requires ParseValueStmt(ts).Ok?
    ensures
      var s := ParseValueStmt(ts);
      s.value.ValueStmt? && exists rest: seq<Token> ::
        ts == ValueTokens(s.value, rest) && SettingsAre(s.value.settings, rest, [Punct(';')] + s.rest)
  {
    var s := ParseValueStmt(ts);
    var number := ParseEnumNumber(ts[2..]);
    var settings := ParseSettings(number.rest);
    NumberOnly(ts[2..]);
    SettingsOnly(number.rest);
    EndedOnly(ValueStmt(ts[0].text, number.value.0, number.value.1, settings.value), settings.rest);
    assert ts == [ts[0], ts[1]] + ts[2..];
    assert ts == ValueTokens(s.value, number.rest);
  }

  lemma BoundOnly(ts: seq<Token>, inEnum: bool)
    requires ParseBound(ts, inEnum).Ok?
    ensures
      var n := ParseBound(ts, inEnum);
      ts == PutMinus(n.value.0) + ([Int(n.value.1)] + n.rest)
  {
    if At(ts, '-') {
      assert ts == [ts[0]] + ([ts[1]] + ts[2..]);
    } else {
      assert ts == [] + ([ts[0]] + ts[1..]);
    }
  }

  lemma EndOnly(ts: seq<Token>, inEnum: bool)
    requires ParseEnd(ts, inEnum).Ok?
    ensures ts == PutEnd(ParseEnd(ts, inEnum).value, ParseEnd(ts, inEnum).rest)
  {
    if AtWord(ts, "to") {
      if AtWord(ts[1..], "max") {
        assert ts == [ts[0], ts[1]] + ts[2..];
      } else {
        BoundOnly(ts[1..], inEnum);
        assert ts == [ts[0]] + ts[1..];
      }
    }
  }

  lemma {:induction false} RangesOnly(ts: seq<Token>, inEnum: bool)
    requires ParseRanges(ts, inEnum).Ok?
    ensures ts == PutRanges(ParseRanges(ts, inEnum).value, ParseRanges(ts, inEnum).rest)
    ensures ParseRanges(ts, inEnum).value != []
    decreases |ts|
  {
    var range := ParseRange(ts, inEnum);
    BoundOnly(ts, inEnum);
    EndOnly(ParseBound(ts, inEnum).rest, inEnum);
    assert ts == PutRange(range.value, range.rest);
    if At(range.rest, ',') {
      RangesOnly(range.rest[1..], inEnum);
      var more := ParseRanges(range.rest[1..], inEnum);
      assert ([range.value] + more.value)[1..] == more.value;
      assert range.rest == [Punct(',')] + range.rest[1..];
    }
  }

  lemma {:induction false} QuotedOnly(ts: seq<Token>)
    requires ParseQuoted(ts).Ok?
    ensures ts == PutQuoted(ParseQuoted(ts).value, ParseQuoted(ts).rest) && ParseQuoted(ts).value != []
  {
    if At(ts[1..], ',') {
      QuotedOnly(ts[2..]);
      var more := ParseQuoted(ts[2..]);
      assert ([ts[0].text] + more.value)[1..] == more.value;
      assert ts == [ts[0]] + ([ts[1]] + ts[2..]);
    } else {
      assert ts == [ts[0]] + ts[1..];
    }
  }

  lemma ReservedOnly(ts: seq<Token>, inEnum: bool)
    requires AtWord(ts, "reserved") && ParseReserved(ts[1..], inEnum).Ok?
    ensures
      var s := ParseReserved(ts[1..], inEnum);
      (s.value.NamesStmt? || s.value.RangesStmt?) && ts == PutStmt(s.value, s.rest)
  {
    FirstToken(Ident("reserved"), ts);
    if ts[1].Str? {
      NamesOnly(ts[1..]);
    } else {
      NumbersOnly(ts[1..], inEnum);
    }
  }

  lemma NumbersOnly(ts: seq<Token>, inEnum: bool)
    requires ParseRanges(ts, inEnum).Ok?
    requires Ended(RangesStmt(ParseRanges(ts, inEnum).value), ParseRanges(ts, inEnum).rest).Ok?
    ensures
      var ranges := ParseRanges(ts, inEnum);
      [Ident("reserved")] + ts == PutStmt(RangesStmt(ranges.value), ranges.rest[1..])
  {
    RangesOnly(ts, inEnum);
    EndedOnly(RangesStmt(ParseRanges(ts, inEnum).value), ParseRanges(ts, inEnum).rest);
  }

  lemma NamesOnly(ts: seq<Token>)
    requires ParseQuoted(ts).Ok? && Ended(NamesStmt(ParseQuoted(ts).value), ParseQuoted(ts).rest).Ok?
    ensures
      var names := ParseQuoted(ts);
      [Ident("reserved")] + ts == PutStmt(NamesStmt(names.value), names.rest[1..])
  {
    QuotedOnly(ts);
    EndedOnly(NamesStmt(ParseQuoted(ts).value), ParseQuoted(ts).rest);
  }

  lemma PartyOnly(ts: seq<Token>)
    requires ParseParty(ts).Ok?
    ensures ts == PartyTokens(ParseParty(ts).value.0, ParseParty(ts).value.1, ParseParty(ts).rest)
  {
    var stream := AtStream(ts[1..]);
    var from := if stream then ts[2..] else ts[1..];
    PathOnly(from);
    FirstToken(Punct(')'), ParsePath(from).rest);
    FirstToken(Punct('('), ts);
    if stream {
      FirstToken(Ident("stream"), ts[1..]);
    }
  }

  lemma HeadUnfold(ts: seq<Token>)
    requires ParseHead(ts).Ok?
    ensures
      var input, head := ParseParty(ts[1..]), ParseHead(ts);
      && AtIdent(ts) && input.Ok? && AtWord(input.rest, "returns") && ParseParty(input.rest[1..]).Ok?
      && var output := ParseParty(input.rest[1..]);
         head == Ok(RpcStmt(ts[0].text, input.value.0, input.value.1, output.value.0, output.value.1, false, []), output.rest)
  {
  }

  lemma HeadOnly(ts: seq<Token>)
    requires AtWord(ts, "rpc") && ParseHead(ts[1..]).Ok?
    ensures ts == HeadTokens(ParseHead(ts[1..]).value, ParseHead(ts[1..]).rest)
  {
    var from := ts[1..];
    HeadUnfold(from);
    var input := ParseParty(from[1..]);
    PartyOnly(from[1..]);
    PartyOnly(input.rest[1..]);
    FirstToken(Ident("returns"), input.rest);
    FirstToken(from[0], from);
    FirstToken(Ident("rpc"), ts);
  }

  lemma SimpleOnly(ts: seq<Token>)
    requires ParseSimple(ts).Ok?
    ensures
      var s := ParseSimple(ts);
      (s.value.SyntaxStmt? || s.value.PackageStmt? || s.value.ImportStmt?) && ts == PutStmt(s.value, s.rest)
  {
    var from := ts[1..];
    assert ts == [ts[0]] + from;
    if AtWord(ts, "syntax") {
      EndedOnly(SyntaxStmt(from[1].text), from[2..]);
      assert from == [from[0], from[1]] + from[2..];
      assert ts == [ts[0], from[0], from[1]] + from[2..];
    } else if AtWord(ts, "package") {
      PathOnly(from);
      EndedOnly(PackageStmt(ParsePath(from).value), ParsePath(from).rest);
    } else {
      ImportOnly(ts);
    }
  }

  lemma ImportOnly(ts: seq<Token>)
    requires AtWord(ts, "import") && ParseImport(ts[1..]).Ok?
    ensures
      var s := ParseImport(ts[1..]);
      s.value.ImportStmt? && ts == PutStmt(s.value, s.rest)
  {
    var from := ts[1..];
    var file := if AtWord(from, "public") || AtWord(from, "weak") then from[1..] else from;
    assert file != from ==> from == [from[0]] + file;
    assert file == [file[0]] + file[1..];
    assert ts == [ts[0]] + from;
    EndedOnly(ImportStmt(ParseImport(from).value.kind, file[0].text), file[1..]);
  }

  lemma BlockUnfold(inner: Scope, ts: seq<Token>)
    requires ts != [] && ParseBlock(inner, ts).Ok?
    ensures
      var items := ParseStmts(inner, ts[3..]);
      && |ts| >= 3 && ts[1].Ident? && ts[2] == Punct('{') && items.Ok?
      && ParseBlock(inner, ts) == Ok((ts[1].text, items.value), items.rest)
  {
  }

  lemma BlockWith(inner: Scope, keyword: string, items: seq<Stmt>, ts: seq<Token>, k: seq<Token>)
    requires AtWord(ts, keyword) && |ts| >= 3 && ts[1].Ident? && ts[2] == Punct('{')
    requires StmtsAre(inner, items, ts[3..], k)
    ensures BlockIs(inner, keyword, ts[1].text, items, ts, k)
  {
    FirstThree(Ident(keyword), Ident(ts[1].text), Punct('{'), ts);
  }

  lemma {:induction false} BlockOnly(inner: Scope, keyword: string, ts: seq<Token>)
    requires AtWord(ts, keyword) && ParseBlock(inner, ts).Ok?
    ensures
      var b := ParseBlock(inner, ts);
      BlockIs(inner, keyword, b.value.0, b.value.1, ts, b.rest)
    decreases |ts|, 0
  {
    BlockUnfold(inner, ts);
    var items := ParseStmts(inner, ts[3..]);
    StmtsOnly(inner, ts[3..]);
    BlockWith(inner, keyword, items.value, ts, items.rest);
  }

  lemma RpcUnfold(ts: seq<Token>)
    requires ts != [] && ParseRpc(ts).Ok?
    ensures
      var head := ParseHead(ts[1..]);
      && head.Ok? && head.value.RpcStmt? && head.rest != []
      && (if At(head.rest, ';') then ParseRpc(ts) == Ok(head.value, head.rest[1..])
          else
            var body := ParseStmts(InRpc, head.rest[1..]);
            && At(head.rest, '{') && body.Ok?
            && ParseRpc(ts) == Ok(head.value.(braced := true, items := body.value), body.rest))
  {
  }

  lemma {:induction false} RpcOnly(ts: seq<Token>)
    requires AtWord(ts, "rpc") && ParseRpc(ts).Ok?
    ensures ParseRpc(ts).value.RpcStmt? && RpcIs(ParseRpc(ts).value, ts, ParseRpc(ts).rest)
    decreases |ts|, 0
  {
    var head := ParseHead(ts[1..]);
    RpcUnfold(ts);
    HeadOnly(ts);
    if At(head.rest, ';') {
      assert head.rest == [Punct(';')] + head.rest[1..];
      RpcWith(head.value, ts, head.rest, head.rest[1..]);
    } else {
      var body := ParseStmts(InRpc, head.rest[1..]);
      StmtsOnly(InRpc, head.rest[1..]);
      SameHead(head.value, body.value, head.rest);
      RpcWith(head.value.(braced := true, items := body.value), ts, head.rest, body.rest);
    }
  }

  lemma SameHead(s: Stmt, items: seq<Stmt>, tail: seq<Token>)
    requires s.RpcStmt?
    ensures HeadTokens(s.(braced := true, items := items), tail) == HeadTokens(s, tail)
  {
  }

  lemma RpcWith(s: Stmt, ts: seq<Token>, tail: seq<Token>, k: seq<Token>)
    requires s.RpcStmt? && |tail| < |ts| && ts == HeadTokens(s, tail)
    requires if s.braced then At(tail, '{') && StmtsAre(InRpc, s.items, tail[1..], k) else tail == [Punct(';')] + k
    ensures RpcIs(s, ts, k)
  {
  }

  lemma {:induction false} StmtOnly(scope: Scope, ts: seq<Token>)
    requires ParseStmt(scope, ts).Ok?
    ensures StmtIs(scope, ParseStmt(scope, ts).value, ts, ParseStmt(scope, ts).rest)
    decreases |ts|, 2
  {
    StmtLegal(scope, ts);
    if AtWord(ts, "option") {
      SettingOnly(ts[1..]);
      EndedOnly(OptionStmt(ParseSetting(ts[1..]).value), ParseSetting(ts[1..]).rest);
    } else if AtWord(ts, "message") && (scope.Top? || scope.InMessage?) {
      BlockOnly(InMessage, "message", ts);
    } else if AtWord(ts, "enum") && (scope.Top? || scope.InMessage?) {
      BlockOnly(InEnum, "enum", ts);
    } else {
      OtherOnly(scope, ts);
    }
  }

  lemma {:induction false} OtherOnly(scope: Scope, ts: seq<Token>)
    requires ParseStmt(scope, ts).Ok? && Legal(scope, ParseStmt(scope, ts).value) && !AtWord(ts, "option")
    requires scope.Top? || scope.InMessage? ==> !AtWord(ts, "message") && !AtWord(ts, "enum")
    ensures StmtIs(scope, ParseStmt(scope, ts).value, ts, ParseStmt(scope, ts).rest)
    decreases |ts|, 1
  {
    match scope
    case Top =>
      if AtWord(ts, "service") {
        BlockOnly(InService, "service", ts);
      } else {
        SimpleOnly(ts);
      }
    case InMessage =>
      if AtWord(ts, "oneof") {
        BlockOnly(InOneof, "oneof", ts);
      } else if AtWord(ts, "reserved") {
        ReservedOnly(ts, false);
      } else {
        FieldOnly(ts, false);
      }
    case InOneof => FieldOnly(ts, true);
    case InEnum =>
      if AtWord(ts, "reserved") {
        ReservedOnly(ts, true);
      } else {
        ValueOnly(ts);
      }
    case InService => RpcOnly(ts);
  }

  lemma {:induction false} StmtsOnly(scope: Scope, ts: seq<Token>)
    requires ParseStmts(scope, ts).Ok?
    ensures StmtsAre(scope, ParseStmts(scope, ts).value, ts, ParseStmts(scope, ts).rest)
    decreases |ts|, 3
  {
    if At(ts, ';') {
      StmtsOnly(scope, ts[1..]);
    } else if !(scope.Top? && ts == []) && !(!scope.Top? && At(ts, '}')) {
      var s := ParseStmt(scope, ts);
      StmtOnly(scope, ts);
      StmtsOnly(scope, s.rest);
      var more := ParseStmts(scope, s.rest).value;
      assert ([s.value] + more)[1..] == more;
    }
  }

  // ---- exactly the spellings are read --------------------------------------------------------------------

  lemma StmtsExactly(scope: Scope, items: seq<Stmt>, ts: seq<Token>, k: seq<Token>)
    ensures ParseStmts(scope, ts) == Ok(items, k) <==> StmtsAre(scope, items, ts, k)
  {
    if StmtsAre(scope, items, ts, k) {
      StmtsRead(scope, items, ts, k);
    }
    if ParseStmts(scope, ts) == Ok(items, k) {
      StmtsOnly(scope, ts);
    }
  }

  /** A file is parsed to a tree exactly if it is a spelling of that tree, and the tree keeps the file rules. */
  lemma FileExactly(items: seq<Stmt>, ts: seq<Token>)
    ensures ParseFile(ts) == Some(items) <==> FileRules(items) && StmtsAre(Top, items, ts, [])
  {
    StmtsExactly(Top, items, ts, []);
    if ParseFile(ts) == Some(items) {
      AllRead(ts);
    }
  }

  lemma {:induction false} AllRead(ts: seq<Token>)
    requires ParseStmts(Top, ts).Ok?
    ensures ParseStmts(Top, ts).rest == []
    decreases |ts|
  {
    if At(ts, ';') {
      AllRead(ts[1..]);
    } else if ts != [] {
      AllRead(ParseStmt(Top, ts).rest);
    }
  }
}
