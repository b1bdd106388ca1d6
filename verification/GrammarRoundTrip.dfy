/** Every file that parses is legal, and every legal file reads back as itself. */
module GrammarRoundTrip {
  import opened Symbols
  import opened Syntax
  import opened TextFormat
  import opened TextRoundTrip
  import opened Grammar

  // ---- what parsing produces ------------------------------------------------------------------

  predicate LegalSetting(s: Setting) {
    LegalName(s.name) && LegalConst(s.value)
  }

  predicate LegalSettings(settings: seq<Setting>) {
    forall i :: 0 <= i < |settings| ==> LegalSetting(settings[i])
  }

  predicate LegalType(ty: Type) {
    match ty
    case ScalarType(name) => IsScalarName(name)
    case Named(path) => path.segs != [] && (!path.dot ==> !IsScalarName(path.segs[0]))
    case MapType(key, value) => IsMapKey(key) && !value.MapType? && LegalType(value)
  }

  /** The word a type starts with; none if it starts with a dot. */
  function FirstWord(ty: Type): (w: Option<string>)
    requires LegalType(ty)
  {
    match ty
    case ScalarType(name) => Some(name)
    case Named(path) => if path.dot then None else Some(path.segs[0])
    case MapType(_, _) => Some("map")
  }

  /** A field without a label must not look like something else. */
  predicate LegalField(s: Stmt, scope: Scope)
    requires s.FieldStmt?
  {
    && LegalType(s.ty) && FieldNumber(s.number) && LegalSettings(s.settings)
    && (s.modifier.Some? || scope.InOneof? ==> !(s.ty.MapType? && s.modifier.Some?))
    && (scope.InOneof? ==> s.modifier.None? && !s.ty.MapType?)
    && (s.modifier.None? && FirstWord(s.ty).Some? ==>
          var w := FirstWord(s.ty).value;
          !IsLabelWord(w) && w != "option" && (scope.InMessage? ==> !StartsOther(w)))
  }

  predicate LegalBound(inEnum: bool, negative: bool, number: string) {
    ReservedNumber(inEnum, number, negative)
  }

  predicate LegalRange(r: Range, inEnum: bool) {
    LegalBound(inEnum, r.negative, r.start) && (r.end.UpTo? ==> LegalBound(inEnum, r.end.negative, r.end.number))
  }

  /** Without the modifier the type must not start with `stream` and a dot. */
  predicate LegalParty(stream: bool, p: Path) {
    p.segs != [] && !(!stream && !p.dot && p.segs[0] == "stream" && |p.segs| > 1)
  }

  /** Which statements belong to a scope, and what holds inside them. */
  predicate Legal(scope: Scope, s: Stmt)
    decreases s
  {
    match s
    case SyntaxStmt(value) => scope.Top? && IsProto3(value)
    case PackageStmt(path) => scope.Top? && !path.dot && path.segs != []
    case ImportStmt(_, _) => scope.Top?
    case OptionStmt(setting) => LegalSetting(setting)
    case MessageStmt(_, items) => (scope.Top? || scope.InMessage?) && LegalAll(InMessage, items)
    case EnumStmt(_, items) => (scope.Top? || scope.InMessage?) && LegalAll(InEnum, items)
    case OneofStmt(_, items) => scope.InMessage? && LegalAll(InOneof, items)
    case ServiceStmt(_, items) => scope.Top? && LegalAll(InService, items)
    case RpcStmt(_, fromStream, input, toStream, output, braced, items) =>
      && scope.InService? && LegalParty(fromStream, input) && LegalParty(toStream, output)
      && LegalAll(InRpc, items) && (!braced ==> items == [])
    case FieldStmt(_, _, _, _, _) => (scope.InMessage? || scope.InOneof?) && LegalField(s, scope)
    case ValueStmt(name, negative, number, settings) =>
      && scope.InEnum? && name != "option" && name != "reserved"
      && EnumNumber(number, negative) && LegalSettings(settings)
    case RangesStmt(ranges) =>
      && (scope.InMessage? || scope.InEnum?) && ranges != []
      && forall i :: 0 <= i < |ranges| ==> LegalRange(ranges[i], scope.InEnum?)
    case NamesStmt(names) => (scope.InMessage? || scope.InEnum?) && names != []
  }

  predicate LegalAll(scope: Scope, items: seq<Stmt>)
    decreases items
  {
    items == [] || (Legal(scope, items[0]) && LegalAll(scope, items[1..]))
  }

  // ---- reading back ---------------------------------------------------------------------------

  lemma Tail(t: Token, k: seq<Token>)
    ensures ([t] + k)[1..] == k && ([t] + k)[0] == t
  {
  }

  lemma EndedBack<T>(value: T, k: seq<Token>)
    ensures Ended(value, [Punct(';')] + k) == Ok(value, k)
  {
    Tail(Punct(';'), k);
  }

  lemma SettingBack(s: Setting, st: Style, k: seq<Token>)
    requires LegalSetting(s) && ReadableConst(s.value) && !StartsString(k) && !At(k, '.')
    ensures ParseSetting(PutSetting(s, st, k)) == Ok(s, k)
  {
    var rest := PutConst(s.value, st, k);
    NameBack(s.name, [Punct('=')] + rest);
    Tail(Punct('='), rest);
    ConstBack(s.value, st, k);
  }

  lemma {:induction false} ListedBack(settings: seq<Setting>, k: seq<Token>)
    requires settings != [] && LegalSettings(settings) && ReadableSettings(settings)
    ensures ParseListed(PutListed(settings, [Punct(']')] + k)) == Ok(settings, k)
  {
    var close := [Punct(']')] + k;
    Tail(Punct(']'), k);
    if |settings| == 1 {
      SettingBack(settings[0], Style(false, false), close);
      assert [settings[0]] == settings;
    } else {
      var rest := PutListed(settings[1..], close);
      ListedBack(settings[1..], k);
      SettingBack(settings[0], Style(false, false), [Punct(',')] + rest);
      ReadListed(PutSetting(settings[0], Style(false, false), [Punct(',')] + rest), settings, rest, k);
    }
  }

  lemma ReadListed(ts: seq<Token>, settings: seq<Setting>, rest: seq<Token>, k: seq<Token>)
    requires settings != []
    requires ParseSetting(ts) == Ok(settings[0], [Punct(',')] + rest) && ParseListed(rest) == Ok(settings[1..], k)
    ensures ParseListed(ts) == Ok(settings, k)
  {
    Tail(Punct(','), rest);
    assert [settings[0]] + settings[1..] == settings;
  }

  lemma SettingsBack(settings: seq<Setting>, k: seq<Token>)
    requires LegalSettings(settings) && ReadableSettings(settings) && !At(k, '[')
    ensures ParseSettings(PutSettings(settings, k)) == Ok(settings, k)
  {
    if settings != [] {
      Tail(Punct('['), PutListed(settings, [Punct(']')] + k));
      ListedBack(settings, k);
    }
  }

  lemma {:induction false} TypeBack(ty: Type, k: seq<Token>)
    requires LegalType(ty) && !At(k, '.') && !At(k, '<')
    ensures ParseType(PutType(ty, k)) == Ok(ty, k)
    ensures PutType(ty, k) != []
    ensures if FirstWord(ty).Some? then PutType(ty, k)[0] == Ident(FirstWord(ty).value) else PutType(ty, k)[0] == Punct('.')
  {
    match ty
    case ScalarType(name) => Tail(Ident(name), k);
    case Named(path) =>
      PathBack(path, k);
      if !path.dot {
        NotMap(path.segs, k);
      }
    case MapType(key, value) =>
      TypeBack(value, [Punct('>')] + k);
      MapBack(key, value, k);
  }

  lemma MapBack(key: string, value: Type, k: seq<Token>)
    requires IsMapKey(key) && !value.MapType?
    requires ParseType(PutType(value, [Punct('>')] + k)) == Ok(value, [Punct('>')] + k)
    ensures ParseType(PutType(MapType(key, value), k)) == Ok(MapType(key, value), k)
  {
    var inner, ts := PutType(value, [Punct('>')] + k), PutType(MapType(key, value), k);
    Tail(Punct('>'), k);
    Tail(Ident("map"), [Punct('<'), Ident(key), Punct(',')] + inner);
    assert ts == [Ident("map")] + ([Punct('<'), Ident(key), Punct(',')] + inner);
    ThreeTokens(Punct('<'), Ident(key), Punct(','), inner);
    assert ts[2..] == ts[1..][1..] && ts[3..] == ts[1..][2..] && ts[4..] == ts[1..][3..];
    assert !IsScalarName("map") by {
      assert |"map"| == 3;
    }
  }

  /** A type named `map` is not a map type, because no angle bracket follows. */
  lemma NotMap(segs: seq<string>, k: seq<Token>)
    requires segs != [] && !At(k, '<')
    ensures !At(PutSegs(segs, k)[1..], '<')
  {
    if |segs| == 1 {
      Tail(Ident(segs[0]), k);
    } else {
      Tail(Ident(segs[0]), [Punct('.')] + PutSegs(segs[1..], k));
    }
  }

  lemma MinusBack(negative: bool, number: string, k: seq<Token>)
    ensures
      var ts := PutMinus(negative) + ([Int(number)] + k);
      && (At(ts, '-') <==> negative)
      && (if negative then ts[1..] else ts) == [Int(number)] + k
      && ([Int(number)] + k)[1..] == k
      && !StartsString(ts)
  {
    if !negative {
      assert [] + ([Int(number)] + k) == [Int(number)] + k;
    }
  }

  lemma BoundBack(inEnum: bool, negative: bool, number: string, k: seq<Token>)
    requires LegalBound(inEnum, negative, number)
    ensures ParseBound(PutMinus(negative) + ([Int(number)] + k), inEnum) == Ok((negative, number), k)
  {
    MinusBack(negative, number, k);
  }

  lemma EndBack(end: End, inEnum: bool, k: seq<Token>)
    requires (end.UpTo? ==> LegalBound(inEnum, end.negative, end.number)) && !AtIdent(k)
    ensures ParseEnd(PutEnd(end, k), inEnum) == Ok(end, k)
  {
    match end
    case Open =>
    case Max =>
      assert PutEnd(end, k)[1..] == [Ident("max")] + k && PutEnd(end, k)[2..] == k;
    case UpTo(negative, number) =>
      Tail(Ident("to"), PutMinus(negative) + ([Int(number)] + k));
      MinusBack(negative, number, k);
      BoundBack(inEnum, negative, number, k);
  }

  lemma RangeBack(r: Range, inEnum: bool, k: seq<Token>)
    requires LegalRange(r, inEnum) && !AtIdent(k)
    ensures ParseRange(PutRange(r, k), inEnum) == Ok(r, k)
    ensures !StartsString(PutRange(r, k))
  {
    BoundBack(inEnum, r.negative, r.start, PutEnd(r.end, k));
    MinusBack(r.negative, r.start, PutEnd(r.end, k));
    EndBack(r.end, inEnum, k);
  }

  lemma {:induction false} RangesBack(ranges: seq<Range>, inEnum: bool, k: seq<Token>)
    requires ranges != [] && (forall i :: 0 <= i < |ranges| ==> LegalRange(ranges[i], inEnum))
    requires !AtIdent(k) && !At(k, ',')
    ensures ParseRanges(PutRanges(ranges, k), inEnum) == Ok(ranges, k)
    ensures !StartsString(PutRanges(ranges, k))
  {
    if |ranges| == 1 {
      RangeBack(ranges[0], inEnum, k);
      assert [ranges[0]] == ranges;
    } else {
      var rest := PutRanges(ranges[1..], k);
      RangesBack(ranges[1..], inEnum, k);
      RangeBack(ranges[0], inEnum, [Punct(',')] + rest);
      Tail(Punct(','), rest);
      assert [ranges[0]] + ranges[1..] == ranges;
    }
  }

  lemma {:induction false} QuotedBack(names: seq<string>, k: seq<Token>)
    requires names != [] && !At(k, ',')
    ensures ParseQuoted(PutQuoted(names, k)) == Ok(names, k)
    ensures StartsString(PutQuoted(names, k))
  {
    if |names| == 1 {
      Tail(Str(names[0]), k);
      assert [names[0]] == names;
    } else {
      var rest := PutQuoted(names[1..], k);
      QuotedBack(names[1..], k);
      Tail(Str(names[0]), [Punct(',')] + rest);
      Tail(Punct(','), rest);
      assert PutQuoted(names, k)[2..] == PutQuoted(names, k)[1..][1..];
      assert [names[0]] + names[1..] == names;
    }
  }

  lemma ReservedBack(s: Stmt, inEnum: bool, k: seq<Token>)
    requires s.NamesStmt? || s.RangesStmt?
    requires s.NamesStmt? ==> s.names != []
    requires s.RangesStmt? ==> s.ranges != [] && forall i :: 0 <= i < |s.ranges| ==> LegalRange(s.ranges[i], inEnum)
    ensures
      var ts := PutStmt(s, k);
      ts[0] == Ident("reserved") && ParseReserved(ts[1..], inEnum) == Ok(s, k)
  {
    var end := [Punct(';')] + k;
    if s.NamesStmt? {
      Tail(Ident("reserved"), PutQuoted(s.names, end));
      QuotedBack(s.names, end);
    } else {
      Tail(Ident("reserved"), PutRanges(s.ranges, end));
      RangesBack(s.ranges, inEnum, end);
    }
    EndedBack(s, k);
  }

  lemma PartyBack(stream: bool, p: Path, k: seq<Token>)
    requires LegalParty(stream, p)
    ensures ParseParty([Punct('(')] + PutStream(stream, PutPath(p, [Punct(')')] + k))) == Ok((stream, p), k)
  {
    var close := [Punct(')')] + k;
    var path := PutPath(p, close);
    Tail(Punct('('), PutStream(stream, path));
    PathBack(p, close);
    Tail(Punct(')'), k);
    if stream {
      Tail(Ident("stream"), path);
      assert ([Punct('(')] + PutStream(stream, path))[2..] == path;
    } else if !p.dot {
      if |p.segs| == 1 {
        Tail(Ident(p.segs[0]), close);
      } else {
        Tail(Ident(p.segs[0]), [Punct('.')] + PutSegs(p.segs[1..], close));
      }
    }
  }

  lemma HeadBack(name: string, fromStream: bool, input: Path, toStream: bool, output: Path, k: seq<Token>)
    requires LegalParty(fromStream, input) && LegalParty(toStream, output)
    ensures
      var second := [Punct('(')] + PutStream(toStream, PutPath(output, [Punct(')')] + k));
      var first := [Punct('(')] + PutStream(fromStream, PutPath(input, [Punct(')')] + ([Ident("returns")] + second)));
      ParseHead([Ident(name)] + first) == Ok(RpcStmt(name, fromStream, input, toStream, output, false, []), k)
  {
    var second := [Punct('(')] + PutStream(toStream, PutPath(output, [Punct(')')] + k));
    var first := [Punct('(')] + PutStream(fromStream, PutPath(input, [Punct(')')] + ([Ident("returns")] + second)));
    Tail(Ident(name), first);
    PartyBack(fromStream, input, [Ident("returns")] + second);
    Tail(Ident("returns"), second);
    PartyBack(toStream, output, k);
  }

  lemma FieldRestBack(s: Stmt, k: seq<Token>)
    requires s.FieldStmt? && FieldNumber(s.number) && LegalSettings(s.settings) && ReadableSettings(s.settings)
    ensures
      var rest := [Ident(s.name), Punct('='), Int(s.number)] + PutSettings(s.settings, [Punct(';')] + k);
      ParseFieldRest(s.modifier, s.ty, rest) == Ok(s, k)
  {
    var settings := PutSettings(s.settings, [Punct(';')] + k);
    ThreeTokens(Ident(s.name), Punct('='), Int(s.number), settings);
    SettingsBack(s.settings, [Punct(';')] + k);
    EndedBack(s, k);
  }

  /** The label, or its absence, is seen at the first token. */
  lemma LabelBack(modifier: Option<Label>, type': seq<Token>)
    requires type' != [] && (modifier.None? && type'[0].Ident? ==> !IsLabelWord(type'[0].text))
    ensures
      var ts := if modifier.Some? then [Ident(LabelWord(modifier.value))] + type' else type';
      && LabelAt(ts) == modifier && !AtWord(ts, "required")
      && (if modifier.Some? then ts[1..] else ts) == type'
  {
    if modifier.Some? {
      Tail(Ident(LabelWord(modifier.value)), type');
      LabelWords(modifier.value);
    }
  }

  /** The first token of a field. */
  predicate StartsField(s: Stmt, ts: seq<Token>)
    requires s.FieldStmt? && LegalType(s.ty)
  {
    && ts != []
    && (if s.modifier.Some? then ts[0] == Ident(LabelWord(s.modifier.value))
        else if FirstWord(s.ty).Some? then ts[0] == Ident(FirstWord(s.ty).value) else ts[0] == Punct('.'))
  }

  lemma FieldBack(s: Stmt, inOneof: bool, k: seq<Token>)
    requires s.FieldStmt? && LegalField(s, if inOneof then InOneof else InMessage) && ReadableStmt(s)
    ensures ParseFieldStmt(PutStmt(s, k), inOneof) == Ok(s, k)
    ensures StartsField(s, PutStmt(s, k))
  {
    var rest := [Ident(s.name), Punct('='), Int(s.number)] + PutSettings(s.settings, [Punct(';')] + k);
    FieldTypeBack(s, rest);
    FieldRestBack(s, k);
    LabelBack(s.modifier, PutType(s.ty, rest));
  }

  lemma FieldTypeBack(s: Stmt, rest: seq<Token>)
    requires s.FieldStmt? && LegalType(s.ty) && AtIdent(rest)
    ensures ParseType(PutType(s.ty, rest)) == Ok(s.ty, rest)
    ensures PutType(s.ty, rest) != []
    ensures PutType(s.ty, rest)[0].Ident? ==> FirstWord(s.ty) == Some(PutType(s.ty, rest)[0].text)
    ensures !PutType(s.ty, rest)[0].Ident? ==> FirstWord(s.ty) == None && PutType(s.ty, rest)[0] == Punct('.')
  {
    TypeBack(s.ty, rest);
  }

  lemma LabelWords(l: Label)
    ensures LabelWord(l) != "required" && LabelWord(l) != "option" && !StartsOther(LabelWord(l))
    ensures LabelWord(Repeated) != LabelWord(Optional)
  {
    var w := LabelWord(l);
    assert |w| == 8;
    assert "reserved"[2] == 's' && "required"[2] == 'q' && "repeated"[2] == 'p' && "optional"[2] == 't';
  }

  lemma ValueBack(s: Stmt, k: seq<Token>)
    requires s.ValueStmt? && EnumNumber(s.number, s.negative) && LegalSettings(s.settings) && ReadableStmt(s)
    ensures ParseValueStmt(PutStmt(s, k)) == Ok(s, k) && AtWord(PutStmt(s, k), s.name)
  {
    var settings := PutSettings(s.settings, [Punct(';')] + k);
    var number := PutMinus(s.negative) + ([Int(s.number)] + settings);
    EnumNumberBack(s.negative, s.number, settings);
    SettingsBack(s.settings, [Punct(';')] + k);
    EndedBack(s, k);
    ReadValue([Ident(s.name), Punct('=')] + number, s, number, settings, [Punct(';')] + k, k);
  }

  lemma ReadValue(ts: seq<Token>, s: Stmt, number: seq<Token>, settings: seq<Token>, end: seq<Token>, k: seq<Token>)
    requires s.ValueStmt? && ts == [Ident(s.name), Punct('=')] + number
    requires ParseEnumNumber(number) == Ok((s.negative, s.number), settings)
    requires ParseSettings(settings) == Ok(s.settings, end) && Ended(s, end) == Ok(s, k)
    ensures ParseValueStmt(ts) == Ok(s, k)
  {
    TwoTokens(Ident(s.name), Punct('='), number);
  }

  lemma TwoTokens(a: Token, b: Token, k: seq<Token>)
    ensures ([a, b] + k)[0] == a && ([a, b] + k)[1..] == [b] + k && ([a, b] + k)[2..] == k
  {
  }

  lemma EnumNumberBack(negative: bool, number: string, k: seq<Token>)
    requires EnumNumber(number, negative)
    ensures ParseEnumNumber(PutMinus(negative) + ([Int(number)] + k)) == Ok((negative, number), k)
  {
    MinusBack(negative, number, k);
  }

  lemma SimpleBack(s: Stmt, k: seq<Token>)
    requires Legal(Top, s) && (s.SyntaxStmt? || s.PackageStmt? || s.ImportStmt?)
    ensures ParseStmt(Top, PutStmt(s, k)) == Ok(s, k) && AtIdent(PutStmt(s, k))
  {
    TopWords();
    match s
    case SyntaxStmt(value) => SyntaxBack(value, k);
    case PackageStmt(path) => PackageBack(path, k);
    case ImportStmt(kind, file) => ImportBack(kind, file, k);
  }

  lemma SyntaxBack(value: string, k: seq<Token>)
    requires IsProto3(value)
    ensures ParseSimple(PutStmt(SyntaxStmt(value), k)) == Ok(SyntaxStmt(value), k)
    ensures AtWord(PutStmt(SyntaxStmt(value), k), "syntax")
  {
    var end := [Punct(';')] + k;
    EndedBack(SyntaxStmt(value), k);
    ThreeTokens(Ident("syntax"), Punct('='), Str(value), end);
    TwoTokens(Punct('='), Str(value), end);
  }

  lemma PackageBack(path: Path, k: seq<Token>)
    requires !path.dot && path.segs != []
    ensures ParseSimple(PutStmt(PackageStmt(path), k)) == Ok(PackageStmt(path), k)
    ensures AtWord(PutStmt(PackageStmt(path), k), "package")
  {
    var end := [Punct(';')] + k;
    TopWords();
    EndedBack(PackageStmt(path), k);
    Tail(Ident("package"), PutPath(path, end));
    PathBack(path, end);
  }

  lemma TopWords()
    ensures "syntax" != "option" && "syntax" != "message" && "syntax" != "enum" && "syntax" != "service"
    ensures "package" != "option" && "package" != "message" && "package" != "enum" && "package" != "service" && "package" != "syntax"
    ensures "import" != "option" && "import" != "message" && "import" != "enum" && "import" != "service"
      && "import" != "syntax" && "import" != "package"
    ensures "public" != "weak"
  {
    assert "syntax"[0] == 's' && "option"[0] == 'o' && "import"[0] == 'i' && "package"[0] == 'p' && "message"[0] == 'm';
    assert "service"[0] == 's';
  }

  lemma ImportBack(kind: ImportKind, file: string, k: seq<Token>)
    ensures ParseSimple(PutStmt(ImportStmt(kind, file), k)) == Ok(ImportStmt(kind, file), k)
    ensures AtWord(PutStmt(ImportStmt(kind, file), k), "import")
  {
    var rest := [Str(file)] + ([Punct(';')] + k);
    TopWords();
    EndedBack(ImportStmt(kind, file), k);
    Tail(Str(file), [Punct(';')] + k);
    Tail(Ident("import"), PutKind(kind, rest));
    Tail(Ident("public"), rest);
    Tail(Ident("weak"), rest);
  }

  lemma OptionBack(scope: Scope, setting: Setting, k: seq<Token>)
    requires LegalSetting(setting) && ReadableConst(setting.value)
    ensures ParseStmt(scope, PutStmt(OptionStmt(setting), k)) == Ok(OptionStmt(setting), k)
    ensures AtWord(PutStmt(OptionStmt(setting), k), "option")
  {
    var end := [Punct(';')] + k;
    Tail(Ident("option"), PutSetting(setting, Style(true, false), end));
    SettingBack(setting, Style(true, false), end);
    EndedBack(OptionStmt(setting), k);
  }

  lemma DefinitionWords()
    ensures "message" != "option" && "enum" != "option" && "oneof" != "option" && "service" != "option" && "rpc" != "option"
    ensures "enum" != "message" && "oneof" != "message" && "oneof" != "enum" && "service" != "message" && "service" != "enum"
    ensures "reserved" != "option" && "reserved" != "message" && "reserved" != "enum" && "reserved" != "oneof"
  {
    assert "service"[0] == 's' && "message"[0] == 'm';
  }

  lemma BlockBack(inner: Scope, keyword: string, name: string, items: seq<Stmt>, k: seq<Token>)
    requires ParseStmts(inner, PutStmts(items, [Punct('}')] + k)) == Ok(items, k)
    ensures
      var ts := PutBlock(keyword, name, items, k);
      AtWord(ts, keyword) && ParseBlock(inner, ts) == Ok((name, items), k)
  {
    var body := PutStmts(items, [Punct('}')] + k);
    ThreeTokens(Ident(keyword), Ident(name), Punct('{'), body);
  }

  lemma ThreeTokens(a: Token, b: Token, c: Token, k: seq<Token>)
    ensures ([a, b, c] + k)[0] == a && ([a, b, c] + k)[1..] == [b, c] + k
    ensures ([a, b, c] + k)[2..] == [c] + k && ([a, b, c] + k)[3..] == k
  {
  }

  lemma {:induction false} RpcBack(s: Stmt, k: seq<Token>)
    requires s.RpcStmt? && Legal(InService, s)
    requires s.braced ==> ParseStmts(InRpc, PutStmts(s.items, [Punct('}')] + k)) == Ok(s.items, k)
    ensures AtWord(PutStmt(s, k), "rpc") && ParseRpc(PutStmt(s, k)) == Ok(s, k)
  {
    var tail := if s.braced then [Punct('{')] + PutStmts(s.items, [Punct('}')] + k) else [Punct(';')] + k;
    HeadBack(s.name, s.fromStream, s.input, s.toStream, s.output, tail);
    RpcTokens(s, k, tail);
    RpcTail(PutStmt(s, k), s, k);
  }

  lemma RpcTail(ts: seq<Token>, s: Stmt, k: seq<Token>)
    requires ts != [] && s.RpcStmt? && (!s.braced ==> s.items == [])
    requires
      var tail := if s.braced then [Punct('{')] + PutStmts(s.items, [Punct('}')] + k) else [Punct(';')] + k;
      ParseHead(ts[1..]) == Ok(s.(braced := false, items := []), tail)
    requires s.braced ==> ParseStmts(InRpc, PutStmts(s.items, [Punct('}')] + k)) == Ok(s.items, k)
    ensures ParseRpc(ts) == Ok(s, k)
  {
    Tail(Punct('{'), PutStmts(s.items, [Punct('}')] + k));
    Tail(Punct(';'), k);
  }

  lemma RpcTokens(s: Stmt, k: seq<Token>, tail: seq<Token>)
    requires s.RpcStmt?
    requires tail == if s.braced then [Punct('{')] + PutStmts(s.items, [Punct('}')] + k) else [Punct(';')] + k
    ensures
      var second := [Punct('(')] + PutStream(s.toStream, PutPath(s.output, [Punct(')')] + tail));
      var first := [Punct('(')] + PutStream(s.fromStream, PutPath(s.input, [Punct(')')] + ([Ident("returns")] + second)));
      PutStmt(s, k)[0] == Ident("rpc") && PutStmt(s, k)[1..] == [Ident(s.name)] + first
  {
    var output := PutStream(s.toStream, PutPath(s.output, [Punct(')')] + tail));
    var input := PutStream(s.fromStream, PutPath(s.input, [Punct(')'), Ident("returns"), Punct('(')] + output));
    ThreeInFront(Punct(')'), Ident("returns"), Punct('('), output);
    ThreeInFront(Ident("rpc"), Ident(s.name), Punct('('), input);
    Tail(Ident("rpc"), [Ident(s.name)] + ([Punct('(')] + input));
  }

  lemma ThreeInFront(a: Token, b: Token, c: Token, k: seq<Token>)
    ensures [a, b, c] + k == [a] + ([b] + ([c] + k))
  {
  }

  /** A legal statement reads back, whatever follows it. */
  lemma {:induction false} StmtBack(scope: Scope, s: Stmt, k: seq<Token>)
    requires Legal(scope, s) && ReadableStmt(s)
    ensures ParseStmt(scope, PutStmt(s, k)) == Ok(s, k)
    ensures AtIdent(PutStmt(s, k)) || At(PutStmt(s, k), '.')
    decreases s, 1
  {
    match s
    case OptionStmt(setting) => OptionBack(scope, setting, k);
    case RpcStmt(_, _, _, _, _, _, items) =>
      DefinitionWords();
      StmtsBack(InRpc, items, k);
      RpcBack(s, k);
    case FieldStmt(_, _, _, _, _) =>
      FieldBack(s, scope.InOneof?, k);
      FieldDispatch(scope, s, PutStmt(s, k));
    case ValueStmt(_, _, _, _) => ValueBack(s, k);
    case RangesStmt(_) => ReservedStmtBack(scope, s, k);
    case NamesStmt(_) => ReservedStmtBack(scope, s, k);
    case SyntaxStmt(_) => SimpleBack(s, k);
    case PackageStmt(_) => SimpleBack(s, k);
    case ImportStmt(_, _) => SimpleBack(s, k);
    case _ => DefinitionBack(scope, s, k);
  }

  lemma ReservedStmtBack(scope: Scope, s: Stmt, k: seq<Token>)
    requires (s.RangesStmt? || s.NamesStmt?) && Legal(scope, s)
    ensures ParseStmt(scope, PutStmt(s, k)) == Ok(s, k) && AtIdent(PutStmt(s, k))
  {
    ReservedBack(s, scope.InEnum?, k);
    ReservedDispatch(scope, PutStmt(s, k));
  }

  lemma ReservedDispatch(scope: Scope, ts: seq<Token>)
    requires (scope.InMessage? || scope.InEnum?) && AtWord(ts, "reserved")
    ensures ParseStmt(scope, ts) == ParseReserved(ts[1..], scope.InEnum?)
  {
    DefinitionWords();
  }

  lemma {:induction false} DefinitionBack(scope: Scope, s: Stmt, k: seq<Token>)
    requires s.MessageStmt? || s.EnumStmt? || s.OneofStmt? || s.ServiceStmt?
    requires Legal(scope, s) && ReadableStmt(s)
    ensures ParseStmt(scope, PutStmt(s, k)) == Ok(s, k) && AtIdent(PutStmt(s, k))
    decreases s, 0
  {
    DefinitionWords();
    match s
    case MessageStmt(name, items) =>
      StmtsBack(InMessage, items, k);
      BlockBack(InMessage, "message", name, items, k);
    case EnumStmt(name, items) =>
      StmtsBack(InEnum, items, k);
      BlockBack(InEnum, "enum", name, items, k);
    case OneofStmt(name, items) =>
      StmtsBack(InOneof, items, k);
      BlockBack(InOneof, "oneof", name, items, k);
    case ServiceStmt(name, items) =>
      StmtsBack(InService, items, k);
      BlockBack(InService, "service", name, items, k);
  }

  /** Nothing that starts a field starts anything else. */
  lemma FieldDispatch(scope: Scope, s: Stmt, ts: seq<Token>)
    requires s.FieldStmt? && (scope.InMessage? || scope.InOneof?) && LegalField(s, scope) && StartsField(s, ts)
    ensures ParseStmt(scope, ts) == ParseFieldStmt(ts, scope.InOneof?)
  {
    if s.modifier.Some? {
      LabelWords(s.modifier.value);
    }
    if scope.InMessage? {
      MessageDispatch(ts);
    }
  }

  lemma MessageDispatch(ts: seq<Token>)
    requires ts != [] && (ts[0].Ident? ==> !StartsOther(ts[0].text))
    ensures ParseStmt(InMessage, ts) == ParseFieldStmt(ts, false)
  {
  }

  lemma {:induction false} StmtsBack(scope: Scope, items: seq<Stmt>, k: seq<Token>)
    requires LegalAll(scope, items) && ReadableStmts(items) && !scope.Top?
    ensures ParseStmts(scope, PutStmts(items, [Punct('}')] + k)) == Ok(items, k)
    decreases items
  {
    var close := [Punct('}')] + k;
    if items == [] {
      Tail(Punct('}'), k);
    } else {
      assert items[0] in items;
      StmtsBack(scope, items[1..], k);
      StmtBack(scope, items[0], PutStmts(items[1..], close));
      assert [items[0]] + items[1..] == items;
    }
  }

  lemma {:induction false} TopBack(items: seq<Stmt>)
    requires LegalAll(Top, items) && ReadableStmts(items)
    ensures ParseStmts(Top, PutStmts(items, [])) == Ok(items, [])
  {
    if items != [] {
      TopBack(items[1..]);
      StmtBack(Top, items[0], PutStmts(items[1..], []));
      assert [items[0]] + items[1..] == items;
    }
  }

  // ---- everything that parses is legal -------------------------------------------------------------

  lemma SettingLegal(ts: seq<Token>)
    ensures ParseSetting(ts).Ok? ==> LegalSetting(ParseSetting(ts).value)
  {
    NameLegal(ts);
    var name := ParseName(ts);
    if name.Ok? && At(name.rest, '=') {
      ConstLegal(name.rest[1..]);
    }
  }

  lemma {:induction false} ListedLegal(ts: seq<Token>)
    ensures ParseListed(ts).Ok? ==> LegalSettings(ParseListed(ts).value)
    decreases |ts|
  {
    SettingLegal(ts);
    var s := ParseSetting(ts);
    if s.Ok? && At(s.rest, ',') {
      ListedLegal(s.rest[1..]);
    }
  }

  lemma SettingsLegal(ts: seq<Token>)
    ensures ParseSettings(ts).Ok? ==> LegalSettings(ParseSettings(ts).value)
  {
    if At(ts, '[') {
      ListedLegal(ts[1..]);
    }
  }

  lemma {:induction false} TypeLegal(ts: seq<Token>)
    ensures ParseType(ts).Ok? ==>
      && LegalType(ParseType(ts).value)
      && FirstWord(ParseType(ts).value) == if AtIdent(ts) then Some(ts[0].text) else None
    decreases |ts|
  {
    PathLegal(ts);
    if AtWord(ts, "map") && |ts| > 4 {
      TypeLegal(ts[4..]);
    }
  }

  lemma FieldLegal(ts: seq<Token>, scope: Scope)
    requires scope.InMessage? || scope.InOneof?
    requires AtIdent(ts) ==> ts[0].text != "option" && (scope.InMessage? ==> !StartsOther(ts[0].text))
    ensures ParseFieldStmt(ts, scope.InOneof?).Ok? ==> Legal(scope, ParseFieldStmt(ts, scope.InOneof?).value)
  {
    var modifier := LabelAt(ts);
    if !AtWord(ts, "required") && !(modifier.Some? && scope.InOneof?) {
      var from := if modifier.Some? then ts[1..] else ts;
      TypeLegal(from);
      var ty := ParseType(from);
      if ty.Ok? {
        FieldRestLegal(modifier, ty.value, ty.rest);
      }
    }
  }

  lemma FieldRestLegal(modifier: Option<Label>, ty: Type, ts: seq<Token>)
    ensures ParseFieldRest(modifier, ty, ts).Ok? ==>
      var s := ParseFieldRest(modifier, ty, ts).value;
      s.FieldStmt? && s.modifier == modifier && s.ty == ty && FieldNumber(s.number) && LegalSettings(s.settings)
  {
    if |ts| >= 3 {
      SettingsLegal(ts[3..]);
    }
  }

  lemma ValueLegal(ts: seq<Token>)
    requires AtIdent(ts) ==> ts[0].text != "option" && ts[0].text != "reserved"
    ensures ParseValueStmt(ts).Ok? ==> Legal(InEnum, ParseValueStmt(ts).value)
  {
    if AtIdent(ts) && At(ts[1..], '=') {
      var number := ParseEnumNumber(ts[2..]);
      if number.Ok? {
        SettingsLegal(number.rest);
      }
    }
  }

  lemma RangeLegal(ts: seq<Token>, inEnum: bool)
    ensures ParseRange(ts, inEnum).Ok? ==> LegalRange(ParseRange(ts, inEnum).value, inEnum)
  {
    var start := ParseBound(ts, inEnum);
    if start.Ok? && AtWord(start.rest, "to") && !AtWord(start.rest[1..], "max") {
      assert ParseBound(start.rest[1..], inEnum).Ok? ==>
        LegalBound(inEnum, ParseBound(start.rest[1..], inEnum).value.0, ParseBound(start.rest[1..], inEnum).value.1);
    }
  }

  lemma {:induction false} RangesLegal(ts: seq<Token>, inEnum: bool)
    ensures ParseRanges(ts, inEnum).Ok? ==>
      var ranges := ParseRanges(ts, inEnum).value;
      ranges != [] && forall i :: 0 <= i < |ranges| ==> LegalRange(ranges[i], inEnum)
    decreases |ts|
  {
    RangeLegal(ts, inEnum);
    var range := ParseRange(ts, inEnum);
    if range.Ok? && At(range.rest, ',') {
      RangesLegal(range.rest[1..], inEnum);
    }
  }

  lemma ReservedLegal(ts: seq<Token>, scope: Scope)
    requires scope.InMessage? || scope.InEnum?
    ensures ParseReserved(ts, scope.InEnum?).Ok? ==> Legal(scope, ParseReserved(ts, scope.InEnum?).value)
  {
    RangesLegal(ts, scope.InEnum?);
  }

  lemma PartyLegal(ts: seq<Token>)
    ensures ParseParty(ts).Ok? ==> LegalParty(ParseParty(ts).value.0, ParseParty(ts).value.1)
  {
    if At(ts, '(') {
      var from := if AtStream(ts[1..]) then ts[2..] else ts[1..];
      PathLegal(from);
      PathLonger(from);
    }
  }

  /** A path with more than one segment has a dot behind the first. */
  lemma PathLonger(ts: seq<Token>)
    ensures ParsePath(ts).Ok? && !ParsePath(ts).value.dot && |ParsePath(ts).value.segs| > 1 ==> At(ts[1..], '.')
  {
  }

  lemma HeadLegal(ts: seq<Token>)
    ensures ParseHead(ts).Ok? ==>
      var s := ParseHead(ts).value;
      LegalParty(s.fromStream, s.input) && LegalParty(s.toStream, s.output) && s.items == []
  {
    if AtIdent(ts) {
      PartyLegal(ts[1..]);
      var input := ParseParty(ts[1..]);
      if input.Ok? && AtWord(input.rest, "returns") {
        PartyLegal(input.rest[1..]);
      }
    }
  }

  lemma SimpleLegal(ts: seq<Token>)
    ensures ParseSimple(ts).Ok? ==> Legal(Top, ParseSimple(ts).value)
  {
    if AtWord(ts, "package") {
      PathLegal(ts[1..]);
    }
  }

  /** What a scope accepts is legal in it. */
  lemma {:induction false} StmtLegal(scope: Scope, ts: seq<Token>)
    ensures ParseStmt(scope, ts).Ok? ==> Legal(scope, ParseStmt(scope, ts).value)
    decreases |ts|, 1
  {
    if AtWord(ts, "option") {
      SettingLegal(ts[1..]);
    } else if ts != [] {
      match scope
      case Top =>
        SimpleLegal(ts);
        BlockLegal(InMessage, ts);
        BlockLegal(InEnum, ts);
        BlockLegal(InService, ts);
      case InMessage =>
        BlockLegal(InMessage, ts);
        BlockLegal(InEnum, ts);
        BlockLegal(InOneof, ts);
        MessageLegal(ts);
      case InOneof => FieldLegal(ts, scope);
      case InEnum =>
        ReservedLegal(ts[1..], scope);
        if !AtWord(ts, "reserved") {
          ValueLegal(ts);
        }
      case InService =>
        RpcLegal(ts);
      case InRpc =>
    }
  }

  lemma MessageLegal(ts: seq<Token>)
    requires ts != [] && !AtWord(ts, "option")
    ensures ParseReserved(ts[1..], false).Ok? ==> Legal(InMessage, ParseReserved(ts[1..], false).value)
    ensures !(AtIdent(ts) && StartsOther(ts[0].text)) ==>
      ParseFieldStmt(ts, false).Ok? ==> Legal(InMessage, ParseFieldStmt(ts, false).value)
  {
    ReservedLegal(ts[1..], InMessage);
    if !(AtIdent(ts) && StartsOther(ts[0].text)) {
      FieldLegal(ts, InMessage);
    }
  }

  lemma {:induction false} BlockLegal(inner: Scope, ts: seq<Token>)
    requires ts != []
    ensures ParseBlock(inner, ts).Ok? ==> LegalAll(inner, ParseBlock(inner, ts).value.1)
    decreases |ts|, 0
  {
    if |ts| >= 3 {
      StmtsLegal(inner, ts[3..]);
    }
  }

  lemma {:induction false} RpcLegal(ts: seq<Token>)
    requires ts != []
    ensures ParseRpc(ts).Ok? ==> Legal(InService, ParseRpc(ts).value)
    decreases |ts|, 0
  {
    HeadLegal(ts[1..]);
    var head := ParseHead(ts[1..]);
    if head.Ok? && At(head.rest, '{') {
      StmtsLegal(InRpc, head.rest[1..]);
    }
  }

  lemma {:induction false} StmtsLegal(scope: Scope, ts: seq<Token>)
    ensures ParseStmts(scope, ts).Ok? ==> LegalAll(scope, ParseStmts(scope, ts).value)
    decreases |ts|, 2
  {
    if At(ts, ';') {
      StmtsLegal(scope, ts[1..]);
    } else if !(scope.Top? && ts == []) && !(!scope.Top? && At(ts, '}')) {
      StmtLegal(scope, ts);
      var s := ParseStmt(scope, ts);
      if s.Ok? {
        StmtsLegal(scope, s.rest);
        ConsStmt(scope, s.value, ParseStmts(scope, s.rest));
      }
    }
  }

  lemma ConsStmt(scope: Scope, s: Stmt, more: Parsed<seq<Stmt>>)
    requires Legal(scope, s) && (more.Ok? ==> LegalAll(scope, more.value))
    ensures Cons(s, more).Ok? ==> LegalAll(scope, Cons(s, more).value)
  {
    if more.Ok? {
      assert ([s] + more.value)[1..] == more.value;
    }
  }

  /** Printing a parsed file and parsing it again gives the same tree, if its bracket names can be read. */
  lemma FileReadsBack(ts: seq<Token>)
    requires ParseFile(ts).Some? && ReadableStmts(ParseFile(ts).value)
    ensures ParseFile(PutFile(ParseFile(ts).value)) == ParseFile(ts)
  {
    StmtsLegal(Top, ts);
    TopBack(ParseFile(ts).value);
  }

  /** So two files with the same printed form are the same tree. */
  lemma PrintingIsInjective(x: seq<Stmt>, y: seq<Stmt>)
    requires LegalAll(Top, x) && ReadableStmts(x) && LegalAll(Top, y) && ReadableStmts(y)
    requires PutFile(x) == PutFile(y)
    ensures x == y
  {
    TopBack(x);
    TopBack(y);
  }

  /** The switch of an enum is recognised exactly if it is written `option allow_alias = true;`. */
  lemma SwitchSpelling(s: Setting)
    requires LegalSetting(s) && ReadableConst(s.value)
    ensures AllowsAlias(s) <==>
      PutStmt(OptionStmt(s), [])
      == [Ident("option"), Ident("allow_alias"), Punct('='), Ident("true"), Punct(';')]
  {
    var switch := Setting([Bare("allow_alias")], ConstPath(Path(false, ["true"])));
    var spelled := [Ident("option"), Ident("allow_alias"), Punct('='), Ident("true"), Punct(';')];
    assert PutStmt(OptionStmt(switch), []) == spelled;
    if AllowsAlias(s) {
      assert s.name == switch.name && s.value.path.segs == ["true"];
    }
    if PutStmt(OptionStmt(s), []) == spelled {
      OptionBack(InEnum, s, []);
      OptionBack(InEnum, switch, []);
      assert s == switch;
    }
  }
}
