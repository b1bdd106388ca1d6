/** The bracket names of a tree, and where in the tokens they were read.

  Every parse function leaves a tail of its tokens, and every bracket name in
  its result was read in brackets somewhere before that tail.
 */
module NameOrigins {
  import opened Symbols
  import opened Syntax
  import opened TextFormat
  import opened TextRoundTrip
  import opened Grammar
  import opened GrammarRoundTrip

  // ---- the names in a tree ------------------------------------------------------------------------------

  function NamesOfVal(v: TextVal): (r: seq<string>)
    decreases v
  {
    match v
    case Nested(fields) => NamesOfFields(fields)
    case List(items) => NamesOfVals(items)
    case _ => []
  }

  function NamesOfVals(items: seq<TextVal>): (r: seq<string>)
    decreases items
  {
    if items == [] then [] else NamesOfVal(items[0]) + NamesOfVals(items[1..])
  }

  function NamesOfFields(fields: seq<TextField>): (r: seq<string>)
    decreases fields
  {
    if fields == [] then [] else NamesOfField(fields[0]) + NamesOfFields(fields[1..])
  }

  function NamesOfField(f: TextField): (r: seq<string>)
    decreases f
  {
    NamesOfName(f.name) + NamesOfVal(f.value)
  }

  function NamesOfName(name: TextName): (r: seq<string>) {
    if name.Bracket? then [name.text] else []
  }

  function NamesOfConst(c: Constant): (r: seq<string>) {
    if c.Aggregate? then NamesOfFields(c.fields) else []
  }

  function NamesOfSettings(settings: seq<Setting>): (r: seq<string>) {
    if settings == [] then [] else NamesOfConst(settings[0].value) + NamesOfSettings(settings[1..])
  }

  /** The bracket names in a statement, in source order. */
  function NamesOfStmt(s: Stmt): (r: seq<string>)
    decreases s
  {
    match s
    case OptionStmt(setting) => NamesOfConst(setting.value)
    case MessageStmt(_, items) => NamesOfStmts(items)
    case EnumStmt(_, items) => NamesOfStmts(items)
    case OneofStmt(_, items) => NamesOfStmts(items)
    case ServiceStmt(_, items) => NamesOfStmts(items)
    case RpcStmt(_, _, _, _, _, _, items) => NamesOfStmts(items)
    case FieldStmt(_, _, _, _, settings) => NamesOfSettings(settings)
    case ValueStmt(_, _, _, settings) => NamesOfSettings(settings)
    case _ => []
  }

  function NamesOfStmts(items: seq<Stmt>): (r: seq<string>)
    decreases items
  {
    if items == [] then [] else NamesOfStmt(items[0]) + NamesOfStmts(items[1..])
  }

  predicate AllReadable(names: seq<string>) {
    forall n :: n in names ==> ReadableName(n)
  }

  lemma {:induction false} ReadableFieldsByNames(fields: seq<TextField>)
    ensures ReadableFields(fields) <==> AllReadable(NamesOfFields(fields))
    decreases fields
  {
    if fields != [] {
      ReadableFieldByNames(fields[0]);
      ReadableFieldsByNames(fields[1..]);
    }
  }

  lemma {:induction false} ReadableFieldByNames(f: TextField)
    ensures ReadableField(f) <==> AllReadable(NamesOfField(f))
    decreases f
  {
    ReadableValByNames(f.value);
    assert f.name.Bracket? ==> f.name.text in NamesOfField(f);
  }

  lemma {:induction false} ReadableValByNames(v: TextVal)
    ensures ReadableVal(v) <==> AllReadable(NamesOfVal(v))
    decreases v
  {
    match v
    case Nested(fields) => ReadableFieldsByNames(fields);
    case List(items) => ReadableValsByNames(items);
    case _ =>
  }

  lemma {:induction false} ReadableValsByNames(items: seq<TextVal>)
    ensures ReadableVals(items) <==> AllReadable(NamesOfVals(items))
    decreases items
  {
    if items != [] {
      ReadableValByNames(items[0]);
      ReadableValsByNames(items[1..]);
    }
  }

  lemma ReadableConstByNames(c: Constant)
    ensures ReadableConst(c) <==> AllReadable(NamesOfConst(c))
  {
    if c.Aggregate? {
      ReadableFieldsByNames(c.fields);
    }
  }

  lemma {:induction false} ReadableSettingsByNames(settings: seq<Setting>)
    ensures ReadableSettings(settings) <==> AllReadable(NamesOfSettings(settings))
  {
    if settings != [] {
      ReadableConstByNames(settings[0].value);
      ReadableSettingsByNames(settings[1..]);
      assert settings == [settings[0]] + settings[1..];
    }
  }

  /** A tree can be printed so that it can be read if and only if all its bracket names can. */
  lemma {:induction false} ReadableStmtByNames(s: Stmt)
    ensures ReadableStmt(s) <==> AllReadable(NamesOfStmt(s))
    decreases s
  {
    match s
    case OptionStmt(setting) => ReadableConstByNames(setting.value);
    case MessageStmt(_, items) => ReadableStmtsByNames(items);
    case EnumStmt(_, items) => ReadableStmtsByNames(items);
    case OneofStmt(_, items) => ReadableStmtsByNames(items);
    case ServiceStmt(_, items) => ReadableStmtsByNames(items);
    case RpcStmt(_, _, _, _, _, _, items) => ReadableStmtsByNames(items);
    case FieldStmt(_, _, _, _, settings) => ReadableSettingsByNames(settings);
    case ValueStmt(_, _, _, settings) => ReadableSettingsByNames(settings);
    case _ =>
  }

  lemma {:induction false} ReadableStmtsByNames(items: seq<Stmt>)
    ensures ReadableStmts(items) <==> AllReadable(NamesOfStmts(items))
    decreases items
  {
    if items != [] {
      ReadableStmtByNames(items[0]);
      ReadableStmtsByNames(items[1..]);
    }
  }

  // ---- where the names of a parsed tree come from ------------------------------------------------------------

  /** `rest` is what is left of `ts`. */
  predicate IsTail(ts: seq<Token>, rest: seq<Token>) {
    |rest| <= |ts| && rest == ts[|ts| - |rest|..]
  }

  /** The name is what is read in brackets from token `i` on. */
  predicate ReadAt(ts: seq<Token>, i: nat, name: string) {
    i <= |ts| && ParseBracket(ts[i..]).Ok? && ParseBracket(ts[i..]).value == name && name != ""
  }

  /** Reading went from `ts` on to `rest` and met the listed bracket names. */
  ghost predicate Met(ts: seq<Token>, rest: seq<Token>, names: seq<string>) {
    IsTail(ts, rest) && forall n :: n in names ==> exists i: nat :: ReadAt(ts, i, n)
  }

  lemma SkipSome(ts: seq<Token>, i: nat)
    requires i <= |ts|
    ensures Met(ts, ts[i..], [])
  {
  }

  lemma MetThen(ts: seq<Token>, mid: seq<Token>, rest: seq<Token>, a: seq<string>, b: seq<string>)
    requires Met(ts, mid, a) && Met(mid, rest, b)
    ensures Met(ts, rest, a + b)
  {
    var skipped: nat := |ts| - |mid|;
    forall n | n in b ensures exists i: nat :: ReadAt(ts, i, n) {
      var i: nat :| ReadAt(mid, i, n);
      assert mid[i..] == ts[skipped + i..];
      assert ReadAt(ts, skipped + i, n);
    }
    assert rest == ts[|ts| - |rest|..];
  }

  /** Names met behind tokens that have none. */
  lemma MetAfter(ts: seq<Token>, mid: seq<Token>, rest: seq<Token>, names: seq<string>)
    requires Met(ts, mid, []) && Met(mid, rest, names)
    ensures Met(ts, rest, names)
  {
    MetThen(ts, mid, rest, [], names);
    assert [] + names == names;
  }

  /** Tokens skipped in front. */
  lemma MetLater(ts: seq<Token>, i: nat, rest: seq<Token>, names: seq<string>)
    requires i <= |ts| && Met(ts[i..], rest, names)
    ensures Met(ts, rest, names)
  {
    SkipSome(ts, i);
    MetAfter(ts, ts[i..], rest, names);
  }

  /** Tokens skipped behind. */
  lemma MetOn(ts: seq<Token>, mid: seq<Token>, i: nat, names: seq<string>)
    requires Met(ts, mid, names) && i <= |mid|
    ensures Met(ts, mid[i..], names)
  {
    SkipSome(mid, i);
    MetThen(ts, mid, mid[i..], names, []);
    assert names + [] == names;
  }

  lemma {:induction false} SegsMet(ts: seq<Token>)
    ensures ParseSegs(ts).Ok? ==> Met(ts, ParseSegs(ts).rest, [])
  {
    if ts != [] && ts[0].Ident? {
      SkipSome(ts, 1);
      if At(ts[1..], '.') && ParseSegs(ts[2..]).Ok? {
        SegsMet(ts[2..]);
        MetLater(ts, 2, ParseSegs(ts[2..]).rest, []);
      }
    }
  }

  lemma PathMet(ts: seq<Token>)
    ensures ParsePath(ts).Ok? ==> Met(ts, ParsePath(ts).rest, [])
  {
    SegsMet(ts);
    if At(ts, '.') && ParseSegs(ts[1..]).Ok? {
      SegsMet(ts[1..]);
      MetLater(ts, 1, ParseSegs(ts[1..]).rest, []);
    }
  }

  lemma PartMet(ts: seq<Token>)
    ensures ParsePart(ts).Ok? ==> Met(ts, ParsePart(ts).rest, [])
  {
    if At(ts, '(') {
      PathMet(ts[1..]);
      var p := ParsePath(ts[1..]);
      if p.Ok? && At(p.rest, ')') {
        MetLater(ts, 1, p.rest, []);
        MetOn(ts, p.rest, 1, []);
      }
    } else if ts != [] {
      SkipSome(ts, 1);
    }
  }

  lemma {:induction false} NameMet(ts: seq<Token>)
    ensures ParseName(ts).Ok? ==> Met(ts, ParseName(ts).rest, [])
    decreases |ts|
  {
    PartMet(ts);
    var part := ParsePart(ts);
    if part.Ok? && At(part.rest, '.') && ParseName(part.rest[1..]).Ok? {
      NameMet(part.rest[1..]);
      MetOn(ts, part.rest, 1, []);
      MetAfter(ts, part.rest[1..], ParseName(part.rest[1..]).rest, []);
    }
  }

  lemma {:induction false} StringsMet(ts: seq<Token>)
    ensures ParseStrings(ts).Ok? ==> Met(ts, ParseStrings(ts).rest, [])
  {
    if ts != [] && ts[0].Str? {
      SkipSome(ts, 1);
      if ts[1..] != [] && ts[1].Str? && ParseStrings(ts[1..]).Ok? {
        StringsMet(ts[1..]);
        MetLater(ts, 1, ParseStrings(ts[1..]).rest, []);
      }
    }
  }

  lemma {:induction false} BracketMet(ts: seq<Token>)
    ensures ParseBracket(ts).Ok? ==> Met(ts, ParseBracket(ts).rest, [])
  {
    if ParseBracket(ts).Ok? {
      if ParseBracket(ts).rest == ts {
        SkipSome(ts, 0);
        assert ts[0..] == ts;
      } else {
        BracketMet(ts[1..]);
        MetLater(ts, 1, ParseBracket(ts[1..]).rest, []);
      }
    }
  }

  lemma TextNameMet(ts: seq<Token>)
    ensures ParseTextName(ts).Ok? ==> Met(ts, ParseTextName(ts).rest, NamesOfName(ParseTextName(ts).value))
  {
    var name := ParseTextName(ts);
    if name.Ok? {
      if At(ts, '[') {
        var text := ParseBracket(ts[1..]);
        BracketMet(ts[1..]);
        MetLater(ts, 1, text.rest, []);
        MetOn(ts, text.rest, 1, []);
        assert ReadAt(ts, 1, text.value);
      } else {
        SkipSome(ts, 1);
      }
    }
  }

  lemma {:induction false} FieldsMet(ts: seq<Token>, closer: char)
    ensures ParseFields(ts, closer).Ok? ==>
      Met(ts, ParseFields(ts, closer).rest, NamesOfFields(ParseFields(ts, closer).value))
    decreases |ts|, 3
  {
    if ParseFields(ts, closer).Ok? {
      if At(ts, ';') {
        FieldsMet(ts[1..], closer);
        MetLater(ts, 1, ParseFields(ts, closer).rest, NamesOfFields(ParseFields(ts, closer).value));
      } else if At(ts, closer) {
        SkipSome(ts, 1);
      } else {
        var f := ParseField(ts);
        FieldMet(ts);
        FieldsMet(f.rest, closer);
        var more := ParseFields(f.rest, closer);
        MetThen(ts, f.rest, more.rest, NamesOfField(f.value), NamesOfFields(more.value));
        assert ([f.value] + more.value)[1..] == more.value;
      }
    }
  }

  lemma {:induction false} FieldMet(ts: seq<Token>)
    ensures ParseField(ts).Ok? ==> Met(ts, ParseField(ts).rest, NamesOfField(ParseField(ts).value))
    decreases |ts|, 2
  {
    if ParseField(ts).Ok? {
      var name := ParseTextName(ts);
      var i := if At(name.rest, ':') then 1 else 0;
      assert name.rest[0..] == name.rest;
      var value := ParseVal(name.rest[i..]);
      TextNameMet(ts);
      ValMet(name.rest[i..]);
      MetOn(ts, name.rest, i, NamesOfName(name.value));
      MetThen(ts, name.rest[i..], value.rest, NamesOfName(name.value), NamesOfVal(value.value));
      if At(value.rest, ',') || At(value.rest, ';') {
        MetOn(ts, value.rest, 1, NamesOfField(ParseField(ts).value));
      }
    }
  }

  lemma SignedMet(ts: seq<Token>)
    requires At(ts, '-') || At(ts, '+')
    ensures ParseSigned(ts).Ok? ==> Met(ts, ParseSigned(ts).rest, [])
  {
    if |ts| >= 2 {
      SkipSome(ts, 2);
    }
  }

  lemma {:induction false} ValMet(ts: seq<Token>)
    ensures ParseVal(ts).Ok? ==> Met(ts, ParseVal(ts).rest, NamesOfVal(ParseVal(ts).value))
    decreases |ts|, 1
  {
    if ParseVal(ts).Ok? {
      StringsMet(ts);
      SkipSome(ts, 1);
      if At(ts, '-') || At(ts, '+') {
        SignedMet(ts);
      } else if At(ts, '{') || At(ts, '<') {
        var closer := if At(ts, '{') then '}' else '>';
        FieldsMet(ts[1..], closer);
        var fields := ParseFields(ts[1..], closer);
        MetLater(ts, 1, fields.rest, NamesOfFields(fields.value));
      } else if At(ts, '[') {
        ListMet(ts);
      }
    }
  }

  lemma {:induction false} ListMet(ts: seq<Token>)
    requires At(ts, '[') && ParseVal(ts).Ok?
    ensures Met(ts, ParseVal(ts).rest, NamesOfVal(ParseVal(ts).value))
    decreases |ts|, 0
  {
    if At(ts[1..], ']') {
      SkipSome(ts, 2);
    } else {
      ValsMet(ts[1..]);
      var items := ParseVals(ts[1..]);
      MetLater(ts, 1, items.rest, NamesOfVals(items.value));
    }
  }

  lemma {:induction false} ValsMet(ts: seq<Token>)
    ensures ParseVals(ts).Ok? ==> Met(ts, ParseVals(ts).rest, NamesOfVals(ParseVals(ts).value))
    decreases |ts|, 2
  {
    if ParseVals(ts).Ok? {
      ValMet(ts);
      var v := ParseVal(ts);
      MetOn(ts, v.rest, 1, NamesOfVal(v.value));
      if At(v.rest, ',') {
        ValsMet(v.rest[1..]);
        var more := ParseVals(v.rest[1..]);
        MetThen(ts, v.rest[1..], more.rest, NamesOfVal(v.value), NamesOfVals(more.value));
        assert ([v.value] + more.value)[1..] == more.value;
      } else {
        assert NamesOfVals([v.value]) == NamesOfVal(v.value) + [];
      }
    }
  }

  lemma ConstMet(ts: seq<Token>)
    ensures ParseConst(ts).Ok? ==> Met(ts, ParseConst(ts).rest, NamesOfConst(ParseConst(ts).value))
  {
    if ParseConst(ts).Ok? {
      StringsMet(ts);
      PathMet(ts);
      SkipSome(ts, 1);
      if At(ts, '-') || At(ts, '+') {
        SignedMet(ts);
      } else if At(ts, '{') {
        FieldsMet(ts[1..], '}');
        var fields := ParseFields(ts[1..], '}');
        MetLater(ts, 1, fields.rest, NamesOfFields(fields.value));
      }
    }
  }

  lemma SettingMet(ts: seq<Token>)
    ensures ParseSetting(ts).Ok? ==> Met(ts, ParseSetting(ts).rest, NamesOfConst(ParseSetting(ts).value.value))
  {
    if ParseSetting(ts).Ok? {
      var name := ParseName(ts);
      var value := ParseConst(name.rest[1..]);
      NameMet(ts);
      MetOn(ts, name.rest, 1, []);
      ConstMet(name.rest[1..]);
      MetAfter(ts, name.rest[1..], value.rest, NamesOfConst(value.value));
    }
  }

  lemma {:induction false} ListedMet(ts: seq<Token>)
    ensures ParseListed(ts).Ok? ==> Met(ts, ParseListed(ts).rest, NamesOfSettings(ParseListed(ts).value))
    decreases |ts|
  {
    if ParseListed(ts).Ok? {
      SettingMet(ts);
      var s := ParseSetting(ts);
      var names := NamesOfConst(s.value.value);
      MetOn(ts, s.rest, 1, names);
      if At(s.rest, ',') {
        ListedMet(s.rest[1..]);
        var more := ParseListed(s.rest[1..]);
        MetThen(ts, s.rest[1..], more.rest, names, NamesOfSettings(more.value));
        assert ([s.value] + more.value)[1..] == more.value;
      } else {
        assert NamesOfSettings([s.value]) == names + [];
      }
    }
  }

  lemma SettingsMet(ts: seq<Token>)
    ensures ParseSettings(ts).Ok? ==> Met(ts, ParseSettings(ts).rest, NamesOfSettings(ParseSettings(ts).value))
  {
    if At(ts, '[') && ParseListed(ts[1..]).Ok? {
      ListedMet(ts[1..]);
      MetLater(ts, 1, ParseListed(ts[1..]).rest, NamesOfSettings(ParseListed(ts[1..]).value));
    } else {
      SkipSome(ts, 0);
      assert ts[0..] == ts;
    }
  }

  lemma {:induction false} TypeMet(ts: seq<Token>)
    ensures ParseType(ts).Ok? ==> Met(ts, ParseType(ts).rest, [])
    decreases |ts|
  {
    if ParseType(ts).Ok? {
      PathMet(ts);
      SkipSome(ts, 1);
      if AtWord(ts, "map") && At(ts[1..], '<') && !IsScalarName(ts[0].text) {
        TypeMet(ts[4..]);
        var value := ParseType(ts[4..]);
        MetLater(ts, 4, value.rest, []);
        MetOn(ts, value.rest, 1, []);
      }
    }
  }

  lemma FieldStmtMet(ts: seq<Token>, inOneof: bool)
    ensures ParseFieldStmt(ts, inOneof).Ok? ==>
      Met(ts, ParseFieldStmt(ts, inOneof).rest, NamesOfStmt(ParseFieldStmt(ts, inOneof).value))
  {
    if ParseFieldStmt(ts, inOneof).Ok? {
      var modifier := LabelAt(ts);
      var i := if modifier.Some? then 1 else 0;
      assert ts[0..] == ts;
      var ty := ParseType(ts[i..]);
      TypeMet(ts[i..]);
      MetLater(ts, i, ty.rest, []);
      FieldRestMet(modifier, ty.value, ty.rest);
      var s := ParseFieldRest(modifier, ty.value, ty.rest);
      MetAfter(ts, ty.rest, s.rest, NamesOfStmt(s.value));
    }
  }

  lemma FieldRestMet(modifier: Option<Label>, ty: Type, ts: seq<Token>)
    ensures
      var s := ParseFieldRest(modifier, ty, ts);
      s.Ok? ==> Met(ts, s.rest, NamesOfStmt(s.value))
  {
    if ParseFieldRest(modifier, ty, ts).Ok? {
      var settings := ParseSettings(ts[3..]);
      SettingsMet(ts[3..]);
      MetLater(ts, 3, settings.rest, NamesOfSettings(settings.value));
      MetOn(ts, settings.rest, 1, NamesOfSettings(settings.value));
    }
  }

  /** An optional minus and a number. */
  lemma NumberMet(ts: seq<Token>)
    requires |ts| > if At(ts, '-') then 1 else 0
    ensures Met(ts, if At(ts, '-') then ts[2..] else ts[1..], [])
    ensures At(ts, '-') ==> ts[1..][1..] == ts[2..]
  {
    SkipSome(ts, if At(ts, '-') then 2 else 1);
  }

  lemma EnumNumberMet(ts: seq<Token>)
    ensures ParseEnumNumber(ts).Ok? ==> Met(ts, ParseEnumNumber(ts).rest, [])
  {
    if ParseEnumNumber(ts).Ok? {
      NumberMet(ts);
    }
  }

  lemma ValueStmtMet(ts: seq<Token>)
    ensures ParseValueStmt(ts).Ok? ==> Met(ts, ParseValueStmt(ts).rest, NamesOfStmt(ParseValueStmt(ts).value))
  {
    if ParseValueStmt(ts).Ok? {
      var number := ParseEnumNumber(ts[2..]);
      var settings := ParseSettings(number.rest);
      EnumNumberMet(ts[2..]);
      MetLater(ts, 2, number.rest, []);
      SettingsMet(number.rest);
      SettingsThen(ts, number.rest, settings.rest, NamesOfSettings(settings.value));
    }
  }

  lemma SettingsThen(ts: seq<Token>, mid: seq<Token>, rest: seq<Token>, names: seq<string>)
    requires Met(ts, mid, []) && Met(mid, rest, names) && rest != []
    ensures Met(ts, rest[1..], names)
  {
    MetAfter(ts, mid, rest, names);
    MetOn(ts, rest, 1, names);
  }

  lemma BoundMet(ts: seq<Token>, inEnum: bool)
    ensures ParseBound(ts, inEnum).Ok? ==> Met(ts, ParseBound(ts, inEnum).rest, [])
  {
    if ParseBound(ts, inEnum).Ok? {
      NumberMet(ts);
    }
  }

  lemma RangeMet(ts: seq<Token>, inEnum: bool)
    ensures ParseRange(ts, inEnum).Ok? ==> Met(ts, ParseRange(ts, inEnum).rest, [])
  {
    if ParseRange(ts, inEnum).Ok? {
      var start := ParseBound(ts, inEnum);
      BoundMet(ts, inEnum);
      EndMet(start.rest, inEnum);
      MetAfter(ts, start.rest, ParseEnd(start.rest, inEnum).rest, []);
    }
  }

  lemma EndMet(ts: seq<Token>, inEnum: bool)
    ensures ParseEnd(ts, inEnum).Ok? ==> Met(ts, ParseEnd(ts, inEnum).rest, [])
  {
    if ParseEnd(ts, inEnum).Ok? {
      SkipSome(ts, 0);
      assert ts[0..] == ts;
      if AtWord(ts, "to") {
        if AtWord(ts[1..], "max") {
          SkipSome(ts, 2);
        } else {
          BoundMet(ts[1..], inEnum);
          MetLater(ts, 1, ParseBound(ts[1..], inEnum).rest, []);
        }
      }
    }
  }

  lemma {:induction false} RangesMet(ts: seq<Token>, inEnum: bool)
    ensures ParseRanges(ts, inEnum).Ok? ==> Met(ts, ParseRanges(ts, inEnum).rest, [])
    decreases |ts|
  {
    RangeMet(ts, inEnum);
    var range := ParseRange(ts, inEnum);
    if range.Ok? && At(range.rest, ',') && ParseRanges(range.rest[1..], inEnum).Ok? {
      RangesMet(range.rest[1..], inEnum);
      MetOn(ts, range.rest, 1, []);
      MetAfter(ts, range.rest[1..], ParseRanges(range.rest[1..], inEnum).rest, []);
    }
  }

  lemma {:induction false} QuotedMet(ts: seq<Token>)
    ensures ParseQuoted(ts).Ok? ==> Met(ts, ParseQuoted(ts).rest, [])
  {
    if ParseQuoted(ts).Ok? {
      SkipSome(ts, 1);
      if At(ts[1..], ',') {
        QuotedMet(ts[2..]);
        MetLater(ts, 2, ParseQuoted(ts[2..]).rest, []);
      }
    }
  }

  lemma ReservedMet(ts: seq<Token>, inEnum: bool)
    ensures ParseReserved(ts, inEnum).Ok? ==>
      Met(ts, ParseReserved(ts, inEnum).rest, NamesOfStmt(ParseReserved(ts, inEnum).value))
  {
    if ParseReserved(ts, inEnum).Ok? {
      if ts != [] && ts[0].Str? {
        QuotedMet(ts);
        MetOn(ts, ParseQuoted(ts).rest, 1, []);
      } else {
        RangesMet(ts, inEnum);
        MetOn(ts, ParseRanges(ts, inEnum).rest, 1, []);
      }
    }
  }

  lemma PartyMet(ts: seq<Token>)
    ensures ParseParty(ts).Ok? ==> Met(ts, ParseParty(ts).rest, [])
  {
    if ParseParty(ts).Ok? {
      var i := if AtStream(ts[1..]) then 2 else 1;
      var p := ParsePath(ts[i..]);
      PathMet(ts[i..]);
      MetLater(ts, i, p.rest, []);
      MetOn(ts, p.rest, 1, []);
    }
  }

  lemma HeadMet(ts: seq<Token>)
    ensures ParseHead(ts).Ok? ==> Met(ts, ParseHead(ts).rest, [])
  {
    if ParseHead(ts).Ok? {
      var input := ParseParty(ts[1..]);
      PartyMet(ts[1..]);
      MetLater(ts, 1, input.rest, []);
      MetOn(ts, input.rest, 1, []);
      PartyMet(input.rest[1..]);
      MetAfter(ts, input.rest[1..], ParseParty(input.rest[1..]).rest, []);
    }
  }

  lemma ImportedMet(kind: ImportKind, ts: seq<Token>)
    ensures ParseImported(kind, ts).Ok? ==> Met(ts, ParseImported(kind, ts).rest, [])
  {
    if ParseImported(kind, ts).Ok? {
      SkipSome(ts, 2);
      assert ts[1..][1..] == ts[2..];
    }
  }

  lemma ImportMet(ts: seq<Token>)
    ensures ParseImport(ts).Ok? ==> Met(ts, ParseImport(ts).rest, [])
  {
    if ParseImport(ts).Ok? {
      ImportedMet(PlainImport, ts);
      if AtWord(ts, "public") || AtWord(ts, "weak") {
        ImportedMet(PublicImport, ts[1..]);
        ImportedMet(WeakImport, ts[1..]);
        MetLater(ts, 1, ParseImport(ts).rest, []);
      }
    }
  }

  lemma SimpleMet(ts: seq<Token>)
    ensures ParseSimple(ts).Ok? ==> Met(ts, ParseSimple(ts).rest, []) && NamesOfStmt(ParseSimple(ts).value) == []
  {
    if ParseSimple(ts).Ok? {
      if AtWord(ts, "syntax") {
        SkipSome(ts, 4);
        assert ts[1..][2..][1..] == ts[4..];
      } else if AtWord(ts, "package") {
        var p := ParsePath(ts[1..]);
        PathMet(ts[1..]);
        MetLater(ts, 1, p.rest, []);
        MetOn(ts, p.rest, 1, []);
      } else {
        ImportMet(ts[1..]);
        MetLater(ts, 1, ParseImport(ts[1..]).rest, []);
      }
    }
  }

  lemma OptionMet(ts: seq<Token>)
    ensures ParseOption(ts).Ok? ==> Met(ts, ParseOption(ts).rest, NamesOfStmt(ParseOption(ts).value))
  {
    if ParseOption(ts).Ok? {
      SettingMet(ts);
      var s := ParseSetting(ts);
      MetOn(ts, s.rest, 1, NamesOfConst(s.value.value));
    }
  }

  /** What reading the statements of a scope meets. */
  lemma {:induction false} StmtsMet(scope: Scope, ts: seq<Token>)
    ensures ParseStmts(scope, ts).Ok? ==> Met(ts, ParseStmts(scope, ts).rest, NamesOfStmts(ParseStmts(scope, ts).value))
    decreases |ts|, 4
  {
    if ParseStmts(scope, ts).Ok? {
      if At(ts, ';') {
        StmtsMet(scope, ts[1..]);
        MetLater(ts, 1, ParseStmts(scope, ts).rest, NamesOfStmts(ParseStmts(scope, ts).value));
      } else if scope.Top? && ts == [] {
        SkipSome(ts, 0);
      } else if !scope.Top? && At(ts, '}') {
        SkipSome(ts, 1);
      } else {
        var s := ParseStmt(scope, ts);
        var more := ParseStmts(scope, s.rest);
        StmtMet(scope, ts);
        StmtsMet(scope, s.rest);
        MetThen(ts, s.rest, more.rest, NamesOfStmt(s.value), NamesOfStmts(more.value));
        assert ([s.value] + more.value)[1..] == more.value;
      }
    }
  }

  lemma {:induction false} BlockMet(inner: Scope, ts: seq<Token>)
    requires ts != []
    ensures ParseBlock(inner, ts).Ok? ==>
      Met(ts, ParseBlock(inner, ts).rest, NamesOfStmts(ParseBlock(inner, ts).value.1))
    decreases |ts|, 0
  {
    if ParseBlock(inner, ts).Ok? {
      StmtsMet(inner, ts[3..]);
      var items := ParseStmts(inner, ts[3..]);
      MetLater(ts, 3, items.rest, NamesOfStmts(items.value));
    }
  }

  lemma RpcHeadMet(ts: seq<Token>)
    requires ts != [] && ParseHead(ts[1..]).Ok? && ParseHead(ts[1..]).rest != []
    ensures Met(ts, ParseHead(ts[1..]).rest[1..], [])
  {
    var head := ParseHead(ts[1..]);
    HeadMet(ts[1..]);
    MetLater(ts, 1, head.rest, []);
    MetOn(ts, head.rest, 1, []);
  }

  /** Only the braces of a method hold names. */
  lemma RpcNames(ts: seq<Token>)
    requires ts != [] && ParseRpc(ts).Ok?
    ensures
      var head := ParseHead(ts[1..]);
      && head.Ok? && head.rest != []
      && (if At(head.rest, ';') then ParseRpc(ts).rest == head.rest[1..] && NamesOfStmt(ParseRpc(ts).value) == []
          else
            var body := ParseStmts(InRpc, head.rest[1..]);
            body.Ok? && ParseRpc(ts).rest == body.rest && NamesOfStmt(ParseRpc(ts).value) == NamesOfStmts(body.value))
  {
    HeadLegal(ts[1..]);
  }

  lemma {:induction false} RpcMet(ts: seq<Token>)
    requires ts != []
    ensures ParseRpc(ts).Ok? ==> Met(ts, ParseRpc(ts).rest, NamesOfStmt(ParseRpc(ts).value))
    decreases |ts|, 0
  {
    if ParseRpc(ts).Ok? {
      var head := ParseHead(ts[1..]);
      RpcNames(ts);
      RpcHeadMet(ts);
      if !At(head.rest, ';') {
        StmtsMet(InRpc, head.rest[1..]);
        var body := ParseStmts(InRpc, head.rest[1..]);
        MetAfter(ts, head.rest[1..], body.rest, NamesOfStmts(body.value));
      }
    }
  }

  lemma {:induction false} StmtMet(scope: Scope, ts: seq<Token>)
    ensures ParseStmt(scope, ts).Ok? ==> Met(ts, ParseStmt(scope, ts).rest, NamesOfStmt(ParseStmt(scope, ts).value))
    decreases |ts|, 3
  {
    if ParseStmt(scope, ts).Ok? {
      if AtWord(ts, "option") {
        OptionMet(ts[1..]);
        var s := ParseOption(ts[1..]);
        MetLater(ts, 1, s.rest, NamesOfStmt(s.value));
      } else {
        ScopedMet(scope, ts);
      }
    }
  }

  lemma {:induction false} ScopedMet(scope: Scope, ts: seq<Token>)
    requires ts != [] && !AtWord(ts, "option") && ParseStmt(scope, ts).Ok?
    ensures Met(ts, ParseStmt(scope, ts).rest, NamesOfStmt(ParseStmt(scope, ts).value))
    decreases |ts|, 2
  {
    match scope
    case Top =>
      SimpleMet(ts);
      BlockMet(InMessage, ts);
      BlockMet(InEnum, ts);
      BlockMet(InService, ts);
    case InMessage => MemberMet(ts);
    case InOneof => FieldStmtMet(ts, true);
    case InEnum =>
      ValueStmtMet(ts);
      LaterReservedMet(ts, true);
    case InService => RpcMet(ts);
    case InRpc =>
  }

  lemma LaterReservedMet(ts: seq<Token>, inEnum: bool)
    requires ts != []
    ensures ParseReserved(ts[1..], inEnum).Ok? ==>
      Met(ts, ParseReserved(ts[1..], inEnum).rest, NamesOfStmt(ParseReserved(ts[1..], inEnum).value))
  {
    ReservedMet(ts[1..], inEnum);
    var s := ParseReserved(ts[1..], inEnum);
    if s.Ok? {
      MetLater(ts, 1, s.rest, NamesOfStmt(s.value));
    }
  }

  lemma {:induction false} MemberMet(ts: seq<Token>)
    requires ts != [] && !AtWord(ts, "option") && ParseStmt(InMessage, ts).Ok?
    ensures Met(ts, ParseStmt(InMessage, ts).rest, NamesOfStmt(ParseStmt(InMessage, ts).value))
    decreases |ts|, 1
  {
    if AtWord(ts, "message") {
      BlockMet(InMessage, ts);
    } else if AtWord(ts, "enum") {
      BlockMet(InEnum, ts);
    } else if AtWord(ts, "oneof") {
      BlockMet(InOneof, ts);
    } else if AtWord(ts, "reserved") {
      LaterReservedMet(ts, false);
    } else {
      FieldStmtMet(ts, false);
    }
  }
}
