/** Bracket names with two slashes in a row, the one thing that does not read back.

  The parser glues whatever pieces stand between the brackets, so `[a/ /b]` is
  stored as `a//b`. Printed as it is stored, the name starts a comment at its
  two slashes, and the lexer skips the rest of the line. Which tokens that
  takes along depends on the layout, so any later token may be the next one.
 */
module BracketNames {
  import opened Symbols
  import opened Syntax
  import opened TextFormat
  import opened TextRoundTrip
  import opened Grammar
  import opened GrammarRoundTrip
  import opened NameOrigins

  // ---- the input ------------------------------------------------------------------------------------

  /** `a / / b` between brackets is accepted, and its text cannot be cut into tokens again. */
  lemma TwoSlashesAreGlued()
    ensures
      var ts := [Ident("a"), Punct('/'), Punct('/'), Ident("b"), Punct(']')];
      Lexed(ts) && ParseBracket(ts) == Ok("a//b", [Punct(']')])
    ensures SlashPair("a//b") && CutName("a//b").None?
  {
    var close := [Punct(']')];
    var b, second, first := [Ident("b")] + close, [Punct('/')] + ([Ident("b")] + close), [Punct('/')] + ([Punct('/')]
        + ([Ident("b")] + close));
    GlueStep(Ident("b"), "b", close);
    GlueStep(Punct('/'), "/", b);
    GlueStep(Punct('/'), "/", second);
    GlueStep(Ident("a"), "a", first);
    assert [Ident("a")] + first == [Ident("a"), Punct('/'), Punct('/'), Ident("b"), Punct(']')];
    assert "b" + "" == "b" && "/" + "b" == "/b" && "/" + "/b" == "//b" && "a" + "//b" == "a//b";
    assert RunLength("") == 0 && RunLength("//b") == 0;
    assert "a//b"[1..] == "//b" && "a"[1..] == "" && "b"[1..] == "";
    assert WordLength("a//b") == 1;
  }

  // ---- the lexer on printed text ------------------------------------------------------------------------

  /** The tokens of a name before its first two slashes in a row. */
  function BeforeSlashes(text: string): (r: Option<seq<Token>>) {
    if text == [] then None
    else if text[0] == '.' then Push(Punct('.'), BeforeSlashes(text[1..]))
    else if text[0] == '/' then
      if |text| > 1 && text[1] == '/' then Some([]) else Push(Punct('/'), BeforeSlashes(text[1..]))
    else
      var n := WordLength(text);
      if n == 0 then None else Push(Ident(text[..n]), BeforeSlashes(text[n..]))
  }

  /** What the lexer may make of printed text: behind two slashes it goes on with some later token. */
  ghost predicate Lexes(raw: seq<Token>, ts: seq<Token>)
    decreases |raw|
  {
    if raw == [] then ts == []
    else if raw[0].Uncut? then
      var before := BeforeSlashes(raw[0].text);
      before.Some? && before.value <= ts
      && exists j: nat :: 1 <= j <= |raw| && Lexes(raw[j..], ts[|before.value|..])
    else ts != [] && ts[0] == raw[0] && Lexes(raw[1..], ts[1..])
  }

  /** No slash stands directly before another one or before a name that may begin with one. */
  predicate Calm(ts: seq<Token>) {
    forall i :: 0 <= i < |ts| - 1 && ts[i] == Punct('/') ==> ts[i + 1] != Punct('/') && !ts[i + 1].Uncut?
  }

  predicate Whole(ts: seq<Token>) {
    forall t :: t in ts ==> !t.Uncut?
  }

  lemma CalmFront(front: seq<Token>, k: seq<Token>)
    requires Calm(k) && forall t :: t in front ==> t != Punct('/')
    ensures Calm(front + k)
  {
    var ts := front + k;
    assert forall i :: 0 <= i < |front| ==> ts[i] in front;
    forall i | |front| <= i < |ts| - 1 && ts[i] == Punct('/') ensures ts[i + 1] != Punct('/') && !ts[i + 1].Uncut? {
      assert ts[i] == k[i - |front|] && ts[i + 1] == k[i - |front| + 1];
    }
  }

  lemma CalmTail(ts: seq<Token>, i: nat)
    requires Calm(ts) && i <= |ts|
    ensures Calm(ts[i..])
  {
    forall j | 0 <= j < |ts[i..]| - 1 && ts[i..][j] == Punct('/')
      ensures ts[i..][j + 1] != Punct('/') && !ts[i..][j + 1].Uncut?
    {
      assert ts[i..][j] == ts[i + j] && ts[i..][j + 1] == ts[i + j + 1];
    }
  }

  lemma CalmCons(t: Token, k: seq<Token>)
    requires Calm(k) && (t == Punct('/') && k != [] ==> k[0] != Punct('/') && !k[0].Uncut?)
    ensures Calm([t] + k)
  {
  }

  /** Tokens before two slashes never end in a slash. */
  lemma {:induction false} CalmBefore(text: string, k: seq<Token>)
    requires BeforeSlashes(text).Some? && Calm(k)
    ensures Calm(BeforeSlashes(text).value + k)
    ensures text[0] != '/' ==> BeforeSlashes(text).value != [] && BeforeSlashes(text).value[0] != Punct('/')
    ensures BeforeSlashes(text).value != [] ==> !BeforeSlashes(text).value[0].Uncut?
    decreases |text|
  {
    var before := BeforeSlashes(text).value;
    if text[0] == '/' && |text| > 1 && text[1] == '/' {
      assert before + k == k;
    } else {
      var n := if text[0] == '.' || text[0] == '/' then 1 else WordLength(text);
      var more := BeforeSlashes(text[n..]).value;
      CalmBefore(text[n..], k);
      CalmCons(before[0], more + k);
      assert before + k == [before[0]] + (more + k);
    }
  }

  lemma {:induction false} LexesCalm(raw: seq<Token>, ts: seq<Token>)
    requires Calm(raw) && Lexes(raw, ts)
    ensures Calm(ts)
    decreases |raw|
  {
    if raw != [] {
      if raw[0].Uncut? {
        var before := BeforeSlashes(raw[0].text).value;
        var j: nat :| 1 <= j <= |raw| && Lexes(raw[j..], ts[|before|..]);
        CalmTail(raw, j);
        LexesCalm(raw[j..], ts[|before|..]);
        CalmBefore(raw[0].text, ts[|before|..]);
        assert before + ts[|before|..] == ts;
      } else {
        CalmTail(raw, 1);
        LexesCalm(raw[1..], ts[1..]);
        CalmCons(ts[0], ts[1..]);
        assert [ts[0]] + ts[1..] == ts;
      }
    }
  }

  lemma {:induction false} LexesWhole(raw: seq<Token>, ts: seq<Token>)
    requires Whole(raw) && Lexes(raw, ts)
    ensures ts == raw
    decreases |raw|
  {
    if raw != [] {
      LexesWhole(raw[1..], ts[1..]);
      assert [ts[0]] + ts[1..] == ts && [raw[0]] + raw[1..] == raw;
    }
  }

  /** What is read in brackets from calm tokens has no two slashes in a row. */
  lemma {:induction false} CalmName(ts: seq<Token>)
    requires Lexed(ts) && Calm(ts) && ParseBracket(ts).Ok?
    ensures !SlashPair(ParseBracket(ts).value)
    ensures ParseBracket(ts).value != [] && ParseBracket(ts).value[0] == '/' ==> ts[0] == Punct('/')
  {
    if ts[0] != Punct(']') {
      CalmTail(ts, 1);
      assert forall i :: 0 <= i < |ts[1..]| ==> ts[1..][i] == ts[i + 1];
      CalmName(ts[1..]);
      var more := ParseBracket(ts[1..]).value;
      if ts[0].Ident? {
        WordThen(ts[0].text, more);
        assert IsWordStart((ts[0].text + more)[0]);
      } else {
        var c := if ts[0] == Punct('.') then "." else "/";
        assert (c + more)[1..] == more && (c + more)[0] == c[0];
      }
    }
  }

  // ---- what the printer writes is calm ------------------------------------------------------------------

  /** Calm, and made of tokens only if asked. */
  predicate Fine(whole: bool, ts: seq<Token>) {
    Calm(ts) && (whole ==> Whole(ts))
  }

  predicate Smooth(ts: seq<Token>) {
    forall t :: t in ts ==> t != Punct('/') && !t.Uncut?
  }

  lemma FineFront(w: bool, front: seq<Token>, k: seq<Token>)
    requires Fine(w, k) && Smooth(front)
    ensures Fine(w, front + k)
  {
    CalmFront(front, k);
  }

  lemma {:induction false} CutCalm(text: string, k: seq<Token>)
    requires CutName(text).Some? && Calm(k) && At(k, ']')
    ensures Calm(CutName(text).value + k) && Whole(CutName(text).value)
    ensures text != [] && text[0] != '/' ==> (CutName(text).value + k)[0] != Punct('/')
    decreases |text|
  {
    if text == [] {
      assert [] + k == k;
    } else {
      var t, n := CutFirst(text);
      var more := CutName(text[n..]).value;
      CutCalm(text[n..], k);
      assert t == Punct('/') ==> n == 1 && (|text| > 1 ==> text[1] != '/');
      CalmCons(t, more + k);
      assert CutName(text).value + k == [t] + (more + k);
    }
  }

  lemma SpelledFine(w: bool, text: string, k: seq<Token>)
    requires Fine(w, k) && At(k, ']') && (w ==> CutName(text).Some?)
    ensures Fine(w, [Punct('[')] + Spelled(text) + k)
  {
    assert [Punct('[')] + Spelled(text) + k == [Punct('[')] + (Spelled(text) + k);
    if CutName(text).Some? {
      CutCalm(text, k);
    } else {
      CalmCons(Uncut(text), k);
    }
    FineFront(w, [Punct('[')], Spelled(text) + k);
  }

  lemma {:induction false} SegsFine(w: bool, segs: seq<string>, k: seq<Token>)
    requires Fine(w, k)
    ensures Fine(w, PutSegs(segs, k))
  {
    if segs != [] {
      var rest := if |segs| == 1 then k else [Punct('.')] + PutSegs(segs[1..], k);
      SegsFine(w, segs[1..], k);
      FineFront(w, [Punct('.')], PutSegs(segs[1..], k));
      FineFront(w, [Ident(segs[0])], rest);
    }
  }

  lemma PathFine(w: bool, p: Path, k: seq<Token>)
    requires Fine(w, k)
    ensures Fine(w, PutPath(p, k))
  {
    SegsFine(w, p.segs, k);
    FineFront(w, [Punct('.')], PutSegs(p.segs, k));
  }

  lemma {:induction false} NameFine(w: bool, parts: seq<NamePart>, k: seq<Token>)
    requires Fine(w, k)
    ensures Fine(w, PutName(parts, k))
  {
    if parts != [] {
      var rest := if |parts| == 1 then k else [Punct('.')] + PutName(parts[1..], k);
      NameFine(w, parts[1..], k);
      FineFront(w, [Punct('.')], PutName(parts[1..], k));
      match parts[0]
      case Bare(name) => FineFront(w, [Ident(name)], rest);
      case Ext(path) =>
        FineFront(w, [Punct(')')], rest);
        PathFine(w, path, [Punct(')')] + rest);
        FineFront(w, [Punct('(')], PutPath(path, [Punct(')')] + rest));
    }
  }

  lemma {:induction false} StringsFine(w: bool, parts: seq<string>, k: seq<Token>)
    requires Fine(w, k)
    ensures Fine(w, PutStrings(parts, k))
  {
    if parts != [] {
      StringsFine(w, parts[1..], k);
      FineFront(w, [Str(parts[0])], PutStrings(parts[1..], k));
    }
  }

  lemma SignedFine(w: bool, sign: Sign, tok: Token, k: seq<Token>)
    requires Fine(w, k) && LegalScalar(sign, tok)
    ensures Fine(w, PutSigned(sign, tok, k))
  {
    match sign
    case Unsigned => FineFront(w, [tok], k);
    case Plus => FineFront(w, [Punct('+'), tok], k);
    case Minus => FineFront(w, [Punct('-'), tok], k);
  }

  lemma TextNameFine(w: bool, name: TextName, k: seq<Token>)
    requires Fine(w, k) && (w && name.Bracket? ==> ReadableName(name.text))
    ensures Fine(w, PutTextName(name, k))
  {
    match name
    case Name(word) => FineFront(w, [Ident(word)], k);
    case Bracket(text) =>
      FineFront(w, [Punct(']')], k);
      SpelledFine(w, text, [Punct(']')] + k);
      assert PutTextName(name, k) == [Punct('[')] + Spelled(text) + ([Punct(']')] + k);
  }

  lemma {:induction false} FieldsFine(w: bool, fields: seq<TextField>, st: Style, k: seq<Token>)
    requires Fine(w, k) && LegalFields(fields) && (w ==> ReadableFields(fields))
    ensures Fine(w, PutFields(fields, st, k))
    decreases fields
  {
    if fields == [] {
      FineFront(w, [Punct('}')], k);
    } else {
      var rest := PutFields(fields[1..], st, k);
      FieldsFine(w, fields[1..], st, k);
      FineFront(w, [Punct(',')], rest);
      FieldFine(w, fields[0], st, if st.block || |fields| == 1 then rest else [Punct(',')] + rest);
    }
  }

  lemma {:induction false} FieldFine(w: bool, f: TextField, st: Style, k: seq<Token>)
    requires Fine(w, k) && LegalVal(f.value) && (w ==> ReadableField(f))
    ensures Fine(w, PutField(f, st, k))
    decreases f
  {
    var value := PutVal(f.value, st, k);
    ValFine(w, f.value, st, k);
    FineFront(w, [Punct(':')], value);
    TextNameFine(w, f.name, if f.value.Nested? then value else [Punct(':')] + value);
  }

  lemma {:induction false} ValFine(w: bool, v: TextVal, st: Style, k: seq<Token>)
    requires Fine(w, k) && LegalVal(v) && (w ==> ReadableVal(v))
    ensures Fine(w, PutVal(v, st, k))
    decreases v
  {
    match v
    case Scalar(sign, tok) => SignedFine(w, sign, tok, k);
    case Strings(parts) => StringsFine(w, parts, k);
    case Nested(fields) =>
      FieldsFine(w, fields, st, k);
      FineFront(w, [Punct('{')], PutFields(fields, st, k));
    case List(items) =>
      ValsFine(w, items, Style(st.lists, st.lists), k);
      FineFront(w, [Punct('[')], PutVals(items, Style(st.lists, st.lists), k));
  }

  lemma {:induction false} ValsFine(w: bool, items: seq<TextVal>, st: Style, k: seq<Token>)
    requires Fine(w, k) && LegalVals(items) && (w ==> ReadableVals(items))
    ensures Fine(w, PutVals(items, st, k))
    decreases items
  {
    FineFront(w, [Punct(']')], k);
    if items != [] {
      ValsFine(w, items[1..], st, k);
      FineFront(w, [Punct(',')], PutVals(items[1..], st, k));
      ValFine(w, items[0], st, if |items| == 1 then [Punct(']')] + k else [Punct(',')] + PutVals(items[1..], st, k));
    }
  }

  lemma ConstFine(w: bool, c: Constant, st: Style, k: seq<Token>)
    requires Fine(w, k) && LegalConst(c) && (w ==> ReadableConst(c))
    ensures Fine(w, PutConst(c, st, k))
  {
    match c
    case ConstPath(p) => PathFine(w, p, k);
    case ConstNum(sign, tok) => SignedFine(w, sign, tok, k);
    case ConstStr(parts) => StringsFine(w, parts, k);
    case Aggregate(fields) =>
      FieldsFine(w, fields, st, k);
      FineFront(w, [Punct('{')], PutFields(fields, st, k));
  }

  lemma SettingFine(w: bool, s: Setting, st: Style, k: seq<Token>)
    requires Fine(w, k) && LegalSetting(s) && (w ==> ReadableConst(s.value))
    ensures Fine(w, PutSetting(s, st, k))
  {
    ConstFine(w, s.value, st, k);
    FineFront(w, [Punct('=')], PutConst(s.value, st, k));
    NameFine(w, s.name, [Punct('=')] + PutConst(s.value, st, k));
  }

  lemma {:induction false} ListedFine(w: bool, settings: seq<Setting>, k: seq<Token>)
    requires Fine(w, k) && LegalSettings(settings) && (w ==> ReadableSettings(settings))
    ensures Fine(w, PutListed(settings, k))
  {
    if settings != [] {
      ListedFine(w, settings[1..], k);
      FineFront(w, [Punct(',')], PutListed(settings[1..], k));
      SettingFine(w, settings[0], Style(false, false),
                  if |settings| == 1 then k else [Punct(',')] + PutListed(settings[1..], k));
    }
  }

  lemma SettingsFine(w: bool, settings: seq<Setting>, k: seq<Token>)
    requires Fine(w, k) && LegalSettings(settings) && (w ==> ReadableSettings(settings))
    ensures Fine(w, PutSettings(settings, k))
  {
    FineFront(w, [Punct(']')], k);
    ListedFine(w, settings, [Punct(']')] + k);
    FineFront(w, [Punct('[')], PutListed(settings, [Punct(']')] + k));
  }

  lemma {:induction false} TypeFine(w: bool, ty: Type, k: seq<Token>)
    requires Fine(w, k)
    ensures Fine(w, PutType(ty, k))
  {
    match ty
    case ScalarType(name) => FineFront(w, [Ident(name)], k);
    case Named(path) => PathFine(w, path, k);
    case MapType(key, value) =>
      FineFront(w, [Punct('>')], k);
      TypeFine(w, value, [Punct('>')] + k);
      FineFront(w, [Ident("map"), Punct('<'), Ident(key), Punct(',')], PutType(value, [Punct('>')] + k));
  }

  lemma RangeFine(w: bool, r: Range, k: seq<Token>)
    requires Fine(w, k)
    ensures Fine(w, PutRange(r, k))
  {
    match r.end {
      case Open =>
      case Max => FineFront(w, [Ident("to"), Ident("max")], k);
      case UpTo(negative, number) =>
        FineFront(w, [Int(number)], k);
        FineFront(w, PutMinus(negative), [Int(number)] + k);
        FineFront(w, [Ident("to")], PutMinus(negative) + ([Int(number)] + k));
    }
    FineFront(w, [Int(r.start)], PutEnd(r.end, k));
    FineFront(w, PutMinus(r.negative), [Int(r.start)] + PutEnd(r.end, k));
  }

  lemma {:induction false} RangesFine(w: bool, ranges: seq<Range>, k: seq<Token>)
    requires Fine(w, k)
    ensures Fine(w, PutRanges(ranges, k))
  {
    if ranges != [] {
      RangesFine(w, ranges[1..], k);
      FineFront(w, [Punct(',')], PutRanges(ranges[1..], k));
      RangeFine(w, ranges[0], if |ranges| == 1 then k else [Punct(',')] + PutRanges(ranges[1..], k));
    }
  }

  lemma {:induction false} QuotedFine(w: bool, names: seq<string>, k: seq<Token>)
    requires Fine(w, k)
    ensures Fine(w, PutQuoted(names, k))
  {
    if names != [] {
      QuotedFine(w, names[1..], k);
      FineFront(w, [Punct(',')], PutQuoted(names[1..], k));
      FineFront(w, [Str(names[0])], if |names| == 1 then k else [Punct(',')] + PutQuoted(names[1..], k));
    }
  }

  lemma PartyFine(w: bool, stream: bool, p: Path, k: seq<Token>)
    requires Fine(w, k)
    ensures Fine(w, PutStream(stream, PutPath(p, k)))
  {
    PathFine(w, p, k);
    FineFront(w, [Ident("stream")], PutPath(p, k));
  }

  lemma {:induction false} StmtsFine(w: bool, scope: Scope, items: seq<Stmt>, k: seq<Token>)
    requires Fine(w, k) && LegalAll(scope, items) && (w ==> ReadableStmts(items))
    ensures Fine(w, PutStmts(items, k))
    decreases items, 0
  {
    if items != [] {
      StmtsFine(w, scope, items[1..], k);
      StmtFine(w, scope, items[0], PutStmts(items[1..], k));
    }
  }

  lemma {:induction false} BlockFine(w: bool, scope: Scope, keyword: string, name: string, items: seq<Stmt>, k: seq<Token>)
    requires Fine(w, k) && LegalAll(scope, items) && (w ==> ReadableStmts(items))
    ensures Fine(w, PutBlock(keyword, name, items, k))
    decreases items, 1
  {
    FineFront(w, [Punct('}')], k);
    StmtsFine(w, scope, items, [Punct('}')] + k);
    FineFront(w, [Ident(keyword), Ident(name), Punct('{')], PutStmts(items, [Punct('}')] + k));
  }

  /** Printed statements never have two slashes in a row, and are all tokens if their bracket names can be cut. */
  lemma {:induction false} StmtFine(w: bool, scope: Scope, s: Stmt, k: seq<Token>)
    requires Fine(w, k) && Legal(scope, s) && (w ==> ReadableStmt(s))
    ensures Fine(w, PutStmt(s, k))
    decreases s, 1
  {
    var end := [Punct(';')] + k;
    FineFront(w, [Punct(';')], k);
    match s
    case SyntaxStmt(value) => FineFront(w, [Ident("syntax"), Punct('='), Str(value)], end);
    case PackageStmt(path) =>
      PathFine(w, path, end);
      FineFront(w, [Ident("package")], PutPath(path, end));
    case ImportStmt(kind, file) => ImportFine(w, kind, file, end);
    case OptionStmt(setting) =>
      SettingFine(w, setting, Style(true, false), end);
      FineFront(w, [Ident("option")], PutSetting(setting, Style(true, false), end));
    case MessageStmt(name, items) => BlockFine(w, InMessage, "message", name, items, k);
    case EnumStmt(name, items) => BlockFine(w, InEnum, "enum", name, items, k);
    case OneofStmt(name, items) => BlockFine(w, InOneof, "oneof", name, items, k);
    case ServiceStmt(name, items) => BlockFine(w, InService, "service", name, items, k);
    case RpcStmt(_, _, _, _, _, _, _) => RpcFine(w, s, k);
    case FieldStmt(_, _, _, _, _) => FieldStmtFine(w, s, scope, end);
    case ValueStmt(name, negative, number, settings) =>
      SettingsFine(w, settings, end);
      FineFront(w, [Int(number)], PutSettings(settings, end));
      FineFront(w, PutMinus(negative), [Int(number)] + PutSettings(settings, end));
      FineFront(w, [Ident(name), Punct('=')], PutMinus(negative) + ([Int(number)] + PutSettings(settings, end)));
    case RangesStmt(ranges) =>
      RangesFine(w, ranges, end);
      FineFront(w, [Ident("reserved")], PutRanges(ranges, end));
    case NamesStmt(names) =>
      QuotedFine(w, names, end);
      FineFront(w, [Ident("reserved")], PutQuoted(names, end));
  }

  lemma ImportFine(w: bool, kind: ImportKind, file: string, k: seq<Token>)
    requires Fine(w, k)
    ensures Fine(w, [Ident("import")] + PutKind(kind, [Str(file)] + k))
  {
    FineFront(w, [Str(file)], k);
    FineFront(w, [Ident("public")], [Str(file)] + k);
    FineFront(w, [Ident("weak")], [Str(file)] + k);
    FineFront(w, [Ident("import")], PutKind(kind, [Str(file)] + k));
  }

  lemma FieldStmtFine(w: bool, s: Stmt, scope: Scope, end: seq<Token>)
    requires Fine(w, end) && s.FieldStmt? && Legal(scope, s) && (w ==> ReadableStmt(s))
    ensures
      var field := PutType(s.ty, [Ident(s.name), Punct('='), Int(s.number)] + PutSettings(s.settings, end));
      Fine(w, field) && (s.modifier.Some? ==> Fine(w, [Ident(LabelWord(s.modifier.value))] + field))
  {
    var rest := [Ident(s.name), Punct('='), Int(s.number)] + PutSettings(s.settings, end);
    SettingsFine(w, s.settings, end);
    FineFront(w, [Ident(s.name), Punct('='), Int(s.number)], PutSettings(s.settings, end));
    TypeFine(w, s.ty, rest);
    if s.modifier.Some? {
      FineFront(w, [Ident(LabelWord(s.modifier.value))], PutType(s.ty, rest));
    }
  }

  lemma {:induction false} RpcFine(w: bool, s: Stmt, k: seq<Token>)
    requires Fine(w, k) && s.RpcStmt? && LegalAll(InRpc, s.items) && (w ==> ReadableStmt(s))
    ensures Fine(w, PutStmt(s, k))
    decreases s, 0
  {
    var tail := if s.braced then [Punct('{')] + PutStmts(s.items, [Punct('}')] + k) else [Punct(';')] + k;
    FineFront(w, [Punct(';')], k);
    FineFront(w, [Punct('}')], k);
    StmtsFine(w, InRpc, s.items, [Punct('}')] + k);
    FineFront(w, [Punct('{')], PutStmts(s.items, [Punct('}')] + k));
    FineFront(w, [Punct(')')], tail);
    var output := PutStream(s.toStream, PutPath(s.output, [Punct(')')] + tail));
    PartyFine(w, s.toStream, s.output, [Punct(')')] + tail);
    var returns' := [Punct(')'), Ident("returns"), Punct('(')] + output;
    FineFront(w, [Punct(')'), Ident("returns"), Punct('(')], output);
    PartyFine(w, s.fromStream, s.input, returns');
    FineFront(w, [Ident("rpc"), Ident(s.name), Punct('(')], PutStream(s.fromStream, PutPath(s.input, returns')));
  }

  // ---- which files read back ------------------------------------------------------------------------------

  /** No bracket name has two slashes in a row. */
  predicate SlashFree(items: seq<Stmt>) {
    forall n :: n in NamesOfStmts(items) ==> !SlashPair(n)
  }

  lemma LexedTail(ts: seq<Token>, i: nat)
    requires Lexed(ts) && i <= |ts|
    ensures Lexed(ts[i..])
  {
    assert forall j :: 0 <= j < |ts[i..]| ==> ts[i..][j] == ts[i + j];
  }

  /** In a parsed file, the names without two slashes are the ones that can be read again. */
  lemma ReadableIsSlashFree(ts: seq<Token>)
    requires Lexed(ts) && ParseFile(ts).Some?
    ensures ReadableStmts(ParseFile(ts).value) <==> SlashFree(ParseFile(ts).value)
  {
    var items := ParseFile(ts).value;
    StmtsMet(Top, ts);
    forall n | n in NamesOfStmts(items) ensures ReadableName(n) <==> !SlashPair(n) {
      var i: nat :| ReadAt(ts, i, n);
      LexedTail(ts, i);
      NameReadable(ts[i..]);
    }
    ReadableStmtsByNames(items);
  }

  /** Calm tokens give no name with two slashes in a row. */
  lemma CalmIsSlashFree(ts: seq<Token>)
    requires Lexed(ts) && Calm(ts) && ParseFile(ts).Some?
    ensures SlashFree(ParseFile(ts).value)
  {
    var items := ParseFile(ts).value;
    StmtsMet(Top, ts);
    forall n | n in NamesOfStmts(items) ensures !SlashPair(n) {
      var i: nat :| ReadAt(ts, i, n);
      LexedTail(ts, i);
      CalmTail(ts, i);
      CalmName(ts[i..]);
    }
  }

  /** A parsed file is printed so that it reads back if and only if no bracket name has two slashes in a row. */
  lemma FileReadsBackExactly(ts: seq<Token>, read: seq<Token>)
    requires Lexed(ts) && ParseFile(ts).Some?
    requires Lexed(read) && Lexes(PutFile(ParseFile(ts).value), read)
    ensures ParseFile(read) == ParseFile(ts) <==> SlashFree(ParseFile(ts).value)
  {
    var items := ParseFile(ts).value;
    StmtsLegal(Top, ts);
    ReadableIsSlashFree(ts);
    StmtsFine(false, Top, items, []);
    LexesCalm(PutFile(items), read);
    if ParseFile(read) == Some(items) {
      CalmIsSlashFree(read);
    }
    if SlashFree(items) {
      StmtsFine(true, Top, items, []);
      LexesWhole(PutFile(items), read);
      FileReadsBack(ts);
    }
  }
}
