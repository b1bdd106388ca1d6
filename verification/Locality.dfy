/** Parsing looks at most one token ahead, and statements not even that far.

  What a parse function makes of its tokens depends on them and on the first
  token behind them only. A statement ends with a semicolon or a brace of its
  own, so it is read the same whatever follows it. This is why statements can
  be cut out of a file and others put in.
 */
module Locality {
  import opened Symbols
  import opened Syntax
  import opened TextFormat
  import opened Grammar
  import opened NameOrigins

  /** The next token is the same, or there is none in both. */
  predicate SameHead(a: seq<Token>, b: seq<Token>) {
    (a == [] <==> b == []) && (a != [] && b != [] ==> a[0] == b[0])
  }

  /** The tokens with another continuation `k` in place of `rest`. */
  function Swap(ts: seq<Token>, rest: seq<Token>, k: seq<Token>): (r: seq<Token>)
    requires IsTail(ts, rest)
  {
    ts[..|ts| - |rest|] + k
  }

  lemma SwapHead(ts: seq<Token>, rest: seq<Token>, k: seq<Token>)
    requires IsTail(ts, rest) && (SameHead(rest, k) || |rest| < |ts|)
    ensures SameHead(ts, Swap(ts, rest, k))
  {
  }

  /** Behind the first `i` tokens, if these are none of the rest. */
  lemma SwapSkip(ts: seq<Token>, i: nat, rest: seq<Token>, k: seq<Token>)
    requires i <= |ts| && IsTail(ts[i..], rest) && (SameHead(rest, k) || |rest| < |ts| - i)
    ensures IsTail(ts, rest)
    ensures Swap(ts, rest, k)[..i] == ts[..i] && Swap(ts, rest, k)[i..] == Swap(ts[i..], rest, k)
    ensures SameHead(ts, Swap(ts, rest, k)) && SameHead(ts[i..], Swap(ts, rest, k)[i..])
    ensures forall j :: 0 <= j <= i ==> SameHead(ts[j..], Swap(ts, rest, k)[j..])
  {
    var x := Swap(ts, rest, k);
    assert x[i..] == Swap(ts[i..], rest, k);
    SwapHead(ts[i..], rest, k);
    forall j | 0 <= j <= i ensures SameHead(ts[j..], x[j..]) {
      if j < i {
        assert ts[j..][0] == ts[j] && x[j..][0] == x[j] && x[j] == ts[j];
      }
    }
    assert ts[0..] == ts && x[0..] == x;
  }

  /** Nothing is read. */
  lemma SwapNone(ts: seq<Token>, k: seq<Token>)
    ensures IsTail(ts, ts) && Swap(ts, ts, k) == k
  {
  }

  /** In two steps, over a point in the middle. */
  lemma SwapTwice(ts: seq<Token>, mid: seq<Token>, rest: seq<Token>, k: seq<Token>)
    requires IsTail(ts, mid) && IsTail(mid, rest) && (SameHead(rest, k) || |rest| < |mid|)
    ensures IsTail(ts, rest) && Swap(ts, rest, k) == Swap(ts, mid, Swap(mid, rest, k))
    ensures SameHead(mid, Swap(mid, rest, k))
  {
    SwapHead(mid, rest, k);
    assert rest == ts[|ts| - |rest|..];
    assert ts[..|ts| - |rest|] == ts[..|ts| - |mid|] + mid[..|mid| - |rest|];
  }

  lemma {:induction false} SegsLocal(ts: seq<Token>, k: seq<Token>)
    requires ParseSegs(ts).Ok? && SameHead(ParseSegs(ts).rest, k)
    ensures IsTail(ts, ParseSegs(ts).rest)
    ensures ParseSegs(Swap(ts, ParseSegs(ts).rest, k)) == Ok(ParseSegs(ts).value, k)
  {
    var rest := ParseSegs(ts).rest;
    if At(ts[1..], '.') {
      SegsLocal(ts[2..], k);
      SwapSkip(ts, 2, rest, k);
    } else {
      SwapSkip(ts, 1, rest, k);
      SwapNone(ts[1..], k);
    }
  }

  lemma PathLocal(ts: seq<Token>, k: seq<Token>)
    requires ParsePath(ts).Ok? && SameHead(ParsePath(ts).rest, k)
    ensures IsTail(ts, ParsePath(ts).rest)
    ensures ParsePath(Swap(ts, ParsePath(ts).rest, k)) == Ok(ParsePath(ts).value, k)
  {
    var rest := ParsePath(ts).rest;
    if At(ts, '.') {
      SegsLocal(ts[1..], k);
      SwapSkip(ts, 1, rest, k);
    } else {
      SegsLocal(ts, k);
      SwapHead(ts, rest, k);
    }
  }

  lemma PartLocal(ts: seq<Token>, k: seq<Token>)
    requires ParsePart(ts).Ok? && SameHead(ParsePart(ts).rest, k)
    ensures IsTail(ts, ParsePart(ts).rest)
    ensures ParsePart(Swap(ts, ParsePart(ts).rest, k)) == Ok(ParsePart(ts).value, k)
  {
    var rest := ParsePart(ts).rest;
    if At(ts, '(') {
      var p := ParsePath(ts[1..]);
      SwapNone(p.rest[1..], k);
      SwapSkip(p.rest, 1, rest, k);
      PathLocal(ts[1..], Swap(p.rest, rest, k));
      SwapTwice(ts[1..], p.rest, rest, k);
      SwapSkip(ts, 1, rest, k);
    } else {
      SwapNone(ts[1..], k);
      SwapSkip(ts, 1, rest, k);
    }
  }

  lemma {:induction false} NameLocal(ts: seq<Token>, k: seq<Token>)
    requires ParseName(ts).Ok? && SameHead(ParseName(ts).rest, k)
    ensures IsTail(ts, ParseName(ts).rest)
    ensures ParseName(Swap(ts, ParseName(ts).rest, k)) == Ok(ParseName(ts).value, k)
    decreases |ts|
  {
    var part, rest := ParsePart(ts), ParseName(ts).rest;
    if At(part.rest, '.') {
      NameLocal(part.rest[1..], k);
      SwapSkip(part.rest, 1, rest, k);
      PartLocal(ts, Swap(part.rest, rest, k));
      SwapTwice(ts, part.rest, rest, k);
    } else {
      PartLocal(ts, k);
    }
  }

  lemma {:induction false} StringsLocal(ts: seq<Token>, k: seq<Token>)
    requires ParseStrings(ts).Ok? && SameHead(ParseStrings(ts).rest, k)
    ensures IsTail(ts, ParseStrings(ts).rest)
    ensures ParseStrings(Swap(ts, ParseStrings(ts).rest, k)) == Ok(ParseStrings(ts).value, k)
  {
    var rest := ParseStrings(ts).rest;
    if ts[1..] != [] && ts[1].Str? {
      StringsLocal(ts[1..], k);
    } else {
      SwapNone(ts[1..], k);
    }
    SwapSkip(ts, 1, rest, k);
  }

  lemma SignedLocal(ts: seq<Token>, k: seq<Token>)
    requires (At(ts, '-') || At(ts, '+')) && ParseSigned(ts).Ok? && SameHead(ParseSigned(ts).rest, k)
    ensures IsTail(ts, ParseSigned(ts).rest) && SameHead(ts, Swap(ts, ParseSigned(ts).rest, k))
    ensures ParseSigned(Swap(ts, ParseSigned(ts).rest, k)) == Ok(ParseSigned(ts).value, k)
  {
    SwapNone(ts[2..], k);
    SwapSkip(ts, 2, ts[2..], k);
  }

  lemma {:induction false} BracketLocal(ts: seq<Token>, k: seq<Token>)
    requires ParseBracket(ts).Ok? && SameHead(ParseBracket(ts).rest, k)
    ensures IsTail(ts, ParseBracket(ts).rest)
    ensures ParseBracket(Swap(ts, ParseBracket(ts).rest, k)) == Ok(ParseBracket(ts).value, k)
  {
    var rest := ParseBracket(ts).rest;
    if ts[0] == Punct(']') {
      SwapNone(ts, k);
    } else {
      BracketLocal(ts[1..], k);
      SwapSkip(ts, 1, rest, k);
    }
  }

  lemma TextNameLocal(ts: seq<Token>, k: seq<Token>)
    requires ParseTextName(ts).Ok? && SameHead(ParseTextName(ts).rest, k)
    ensures IsTail(ts, ParseTextName(ts).rest)
    ensures ParseTextName(Swap(ts, ParseTextName(ts).rest, k)) == Ok(ParseTextName(ts).value, k)
  {
    var rest := ParseTextName(ts).rest;
    if At(ts, '[') {
      var text := ParseBracket(ts[1..]);
      SwapNone(text.rest[1..], k);
      SwapSkip(text.rest, 1, rest, k);
      BracketLocal(ts[1..], Swap(text.rest, rest, k));
      SwapTwice(ts[1..], text.rest, rest, k);
    } else {
      SwapNone(ts[1..], k);
    }
    SwapSkip(ts, 1, rest, k);
  }

  lemma {:induction false} FieldsLocal(ts: seq<Token>, closer: char, k: seq<Token>)
    requires ParseFields(ts, closer).Ok? && SameHead(ParseFields(ts, closer).rest, k)
    ensures IsTail(ts, ParseFields(ts, closer).rest)
    ensures ParseFields(Swap(ts, ParseFields(ts, closer).rest, k), closer) == Ok(ParseFields(ts, closer).value, k)
    decreases |ts|, 3
  {
    var rest := ParseFields(ts, closer).rest;
    if At(ts, ';') {
      FieldsLocal(ts[1..], closer, k);
      SwapSkip(ts, 1, rest, k);
    } else if At(ts, closer) {
      SwapNone(ts[1..], k);
      SwapSkip(ts, 1, rest, k);
    } else {
      var f := ParseField(ts);
      FieldsLocal(f.rest, closer, k);
      SwapHead(f.rest, rest, k);
      FieldLocal(ts, Swap(f.rest, rest, k));
      SwapTwice(ts, f.rest, rest, k);
      SwapHead(ts, rest, k);
    }
  }

  /** A value and the separator behind it. */
  function ValueSep(ts: seq<Token>): (r: Parsed<TextVal>) {
    var value := ParseVal(ts);
    if value.Ok? && (At(value.rest, ',') || At(value.rest, ';')) then Ok(value.value, value.rest[1..]) else value
  }

  /** What follows the name of a field. */
  function FieldRest(ts: seq<Token>): (r: Parsed<TextVal>) {
    if At(ts, ':') then ValueSep(ts[1..]) else if At(ts, '{') || At(ts, '<') then ValueSep(ts) else Fail
  }

  lemma FieldByRest(ts: seq<Token>)
    ensures
      var name := ParseTextName(ts);
      ParseField(ts)
      == if name.Fail? || FieldRest(name.rest).Fail? then Fail
         else Ok(TextField(name.value, FieldRest(name.rest).value), FieldRest(name.rest).rest)
  {
  }

  lemma {:induction false} ValueSepLocal(ts: seq<Token>, k: seq<Token>)
    requires ValueSep(ts).Ok? && SameHead(ValueSep(ts).rest, k)
    ensures IsTail(ts, ValueSep(ts).rest)
    ensures ValueSep(Swap(ts, ValueSep(ts).rest, k)) == Ok(ValueSep(ts).value, k)
    decreases |ts|, 2
  {
    var value, rest := ParseVal(ts), ValueSep(ts).rest;
    if At(value.rest, ',') || At(value.rest, ';') {
      SwapNone(value.rest[1..], k);
      SwapSkip(value.rest, 1, rest, k);
      ValLocal(ts, Swap(value.rest, rest, k));
      SwapTwice(ts, value.rest, rest, k);
    } else {
      ValLocal(ts, k);
    }
  }

  lemma {:induction false} FieldRestLocal(ts: seq<Token>, k: seq<Token>)
    requires FieldRest(ts).Ok? && SameHead(FieldRest(ts).rest, k)
    ensures IsTail(ts, FieldRest(ts).rest)
    ensures FieldRest(Swap(ts, FieldRest(ts).rest, k)) == Ok(FieldRest(ts).value, k)
    decreases |ts|, 3
  {
    var rest := FieldRest(ts).rest;
    if At(ts, ':') {
      ValueSepLocal(ts[1..], k);
      SwapSkip(ts, 1, rest, k);
    } else {
      ValueSepLocal(ts, k);
      SwapHead(ts, rest, k);
    }
  }

  lemma {:induction false} FieldLocal(ts: seq<Token>, k: seq<Token>)
    requires ParseField(ts).Ok? && SameHead(ParseField(ts).rest, k)
    ensures IsTail(ts, ParseField(ts).rest)
    ensures ParseField(Swap(ts, ParseField(ts).rest, k)) == Ok(ParseField(ts).value, k)
    decreases |ts|, 2
  {
    var name, rest := ParseTextName(ts), ParseField(ts).rest;
    FieldByRest(ts);
    FieldRestLocal(name.rest, k);
    SwapHead(name.rest, rest, k);
    TextNameLocal(ts, Swap(name.rest, rest, k));
    SwapTwice(ts, name.rest, rest, k);
    FieldByRest(Swap(ts, rest, k));
  }

  lemma {:induction false} ValLocal(ts: seq<Token>, k: seq<Token>)
    requires ParseVal(ts).Ok? && SameHead(ParseVal(ts).rest, k)
    ensures IsTail(ts, ParseVal(ts).rest)
    ensures ParseVal(Swap(ts, ParseVal(ts).rest, k)) == Ok(ParseVal(ts).value, k)
    decreases |ts|, 1
  {
    var rest := ParseVal(ts).rest;
    if ts[0].Str? {
      StringsLocal(ts, k);
      SwapHead(ts, rest, k);
    } else if IsNumber(ts[0]) || ts[0].Ident? {
      SwapNone(ts[1..], k);
      SwapSkip(ts, 1, rest, k);
    } else if At(ts, '-') || At(ts, '+') {
      SignedLocal(ts, k);
    } else if At(ts, '{') || At(ts, '<') {
      FieldsLocal(ts[1..], if At(ts, '{') then '}' else '>', k);
      SwapSkip(ts, 1, rest, k);
    } else {
      ListLocal(ts, k);
    }
  }

  lemma {:induction false} ListLocal(ts: seq<Token>, k: seq<Token>)
    requires At(ts, '[') && ParseVal(ts).Ok? && SameHead(ParseVal(ts).rest, k)
    ensures IsTail(ts, ParseVal(ts).rest)
    ensures ParseVal(Swap(ts, ParseVal(ts).rest, k)) == Ok(ParseVal(ts).value, k)
    decreases |ts|, 0
  {
    var rest := ParseVal(ts).rest;
    if At(ts[1..], ']') {
      EmptyListLocal(ts, k);
    } else {
      ValsLocal(ts[1..], k);
      SwapSkip(ts, 1, rest, k);
    }
  }

  lemma EmptyListLocal(ts: seq<Token>, k: seq<Token>)
    requires At(ts, '[') && At(ts[1..], ']')
    ensures IsTail(ts, ts[2..])
    ensures
      var x := Swap(ts, ts[2..], k);
      At(x, '[') && At(x[1..], ']') && x[2..] == k
  {
    var x := Swap(ts, ts[2..], k);
    assert x == [ts[0], ts[1]] + k;
  }

  lemma {:induction false} ValsLocal(ts: seq<Token>, k: seq<Token>)
    requires ParseVals(ts).Ok? && SameHead(ParseVals(ts).rest, k)
    ensures IsTail(ts, ParseVals(ts).rest)
    ensures ParseVals(Swap(ts, ParseVals(ts).rest, k)) == Ok(ParseVals(ts).value, k)
    decreases |ts|, 2
  {
    var v, rest := ParseVal(ts), ParseVals(ts).rest;
    if At(v.rest, ',') {
      ValsLocal(v.rest[1..], k);
    } else {
      SwapNone(v.rest[1..], k);
    }
    SwapSkip(v.rest, 1, rest, k);
    ValLocal(ts, Swap(v.rest, rest, k));
    SwapTwice(ts, v.rest, rest, k);
    SwapHead(ts, rest, k);
  }

  lemma ConstLocal(ts: seq<Token>, k: seq<Token>)
    requires ParseConst(ts).Ok? && SameHead(ParseConst(ts).rest, k)
    ensures IsTail(ts, ParseConst(ts).rest)
    ensures ParseConst(Swap(ts, ParseConst(ts).rest, k)) == Ok(ParseConst(ts).value, k)
  {
    var rest := ParseConst(ts).rest;
    if ts[0].Str? {
      StringsLocal(ts, k);
      SwapHead(ts, rest, k);
    } else if IsNumber(ts[0]) {
      SwapNone(ts[1..], k);
      SwapSkip(ts, 1, rest, k);
    } else if At(ts, '-') || At(ts, '+') {
      SignedLocal(ts, k);
    } else if ts[0].Ident? {
      PathLocal(ts, k);
      SwapHead(ts, rest, k);
    } else {
      FieldsLocal(ts[1..], '}', k);
      SwapSkip(ts, 1, rest, k);
    }
  }

  lemma SettingLocal(ts: seq<Token>, k: seq<Token>)
    requires ParseSetting(ts).Ok? && SameHead(ParseSetting(ts).rest, k)
    ensures IsTail(ts, ParseSetting(ts).rest)
    ensures ParseSetting(Swap(ts, ParseSetting(ts).rest, k)) == Ok(ParseSetting(ts).value, k)
  {
    var name, rest := ParseName(ts), ParseSetting(ts).rest;
    ConstLocal(name.rest[1..], k);
    SwapSkip(name.rest, 1, rest, k);
    NameLocal(ts, Swap(name.rest, rest, k));
    SwapTwice(ts, name.rest, rest, k);
  }

  lemma {:induction false} ListedLocal(ts: seq<Token>, k: seq<Token>)
    requires ParseListed(ts).Ok? && SameHead(ParseListed(ts).rest, k)
    ensures IsTail(ts, ParseListed(ts).rest)
    ensures ParseListed(Swap(ts, ParseListed(ts).rest, k)) == Ok(ParseListed(ts).value, k)
    decreases |ts|
  {
    var s, rest := ParseSetting(ts), ParseListed(ts).rest;
    if At(s.rest, ',') {
      ListedLocal(s.rest[1..], k);
    } else {
      SwapNone(s.rest[1..], k);
    }
    SwapSkip(s.rest, 1, rest, k);
    SettingLocal(ts, Swap(s.rest, rest, k));
    SwapTwice(ts, s.rest, rest, k);
  }

  lemma SettingsLocal(ts: seq<Token>, k: seq<Token>)
    requires ParseSettings(ts).Ok? && SameHead(ParseSettings(ts).rest, k)
    ensures IsTail(ts, ParseSettings(ts).rest)
    ensures ParseSettings(Swap(ts, ParseSettings(ts).rest, k)) == Ok(ParseSettings(ts).value, k)
  {
    if At(ts, '[') {
      ListedLocal(ts[1..], k);
      SwapSkip(ts, 1, ParseSettings(ts).rest, k);
    } else {
      SwapNone(ts, k);
    }
  }

  lemma {:induction false} TypeLocal(ts: seq<Token>, k: seq<Token>)
    requires ParseType(ts).Ok? && SameHead(ParseType(ts).rest, k)
    ensures IsTail(ts, ParseType(ts).rest)
    ensures ParseType(Swap(ts, ParseType(ts).rest, k)) == Ok(ParseType(ts).value, k)
    decreases |ts|, 1
  {
    var rest := ParseType(ts).rest;
    if AtIdent(ts) && IsScalarName(ts[0].text) {
      SwapNone(ts[1..], k);
      SwapSkip(ts, 1, rest, k);
    } else if AtWord(ts, "map") && At(ts[1..], '<') {
      MapLocal(ts, k);
    } else {
      PathLocal(ts, k);
      NamedLocal(ts, k);
    }
  }

  /** The value type of a map and the closing bracket. */
  function MapValue(ts: seq<Token>): (r: Parsed<Type>) {
    var value := ParseType(ts);
    if value.Fail? || value.value.MapType? || !At(value.rest, '>') then Fail else Ok(value.value, value.rest[1..])
  }

  lemma {:induction false} MapValueLocal(ts: seq<Token>, k: seq<Token>)
    requires MapValue(ts).Ok? && SameHead(MapValue(ts).rest, k)
    ensures IsTail(ts, MapValue(ts).rest)
    ensures MapValue(Swap(ts, MapValue(ts).rest, k)) == Ok(MapValue(ts).value, k)
    decreases |ts|, 2
  {
    var value, rest := ParseType(ts), MapValue(ts).rest;
    SwapNone(value.rest[1..], k);
    SwapSkip(value.rest, 1, rest, k);
    TypeLocal(ts, Swap(value.rest, rest, k));
    SwapTwice(ts, value.rest, rest, k);
  }

  lemma MapByValue(ts: seq<Token>)
    requires |ts| >= 4 && AtIdent(ts) && !IsScalarName(ts[0].text) && AtWord(ts, "map") && At(ts[1..], '<')
    requires AtIdent(ts[2..]) && IsMapKey(ts[2].text) && At(ts[3..], ',')
    ensures
      var value := MapValue(ts[4..]);
      ParseType(ts) == if value.Fail? then Fail else Ok(MapType(ts[2].text, value.value), value.rest)
  {
  }

  lemma {:induction false} MapLocal(ts: seq<Token>, k: seq<Token>)
    requires ParseType(ts).Ok? && SameHead(ParseType(ts).rest, k)
    requires AtIdent(ts) && !IsScalarName(ts[0].text) && AtWord(ts, "map") && At(ts[1..], '<')
    ensures IsTail(ts, ParseType(ts).rest)
    ensures ParseType(Swap(ts, ParseType(ts).rest, k)) == Ok(ParseType(ts).value, k)
    decreases |ts|, 0
  {
    MapByValue(ts);
    MapValueLocal(ts[4..], k);
    SwapSkip(ts, 4, ParseType(ts).rest, k);
    var x := Swap(ts, ParseType(ts).rest, k);
    FirstFour(ts, x);
    MapByValue(x);
  }

  lemma FirstFour(ts: seq<Token>, x: seq<Token>)
    requires |ts| >= 4 && |x| >= 4 && x[..4] == ts[..4]
    ensures forall j :: 0 <= j < 4 ==> x[j] == ts[j] && x[j..] != [] && x[j..][0] == ts[j] && ts[j..][0] == ts[j]
  {
    assert forall j :: 0 <= j < 4 ==> x[..4][j] == x[j] && ts[..4][j] == ts[j];
  }

  /** A type that is a path: if it is named `map`, no angle bracket follows here either. */
  lemma NamedLocal(ts: seq<Token>, k: seq<Token>)
    requires ParsePath(ts).Ok? && SameHead(ParsePath(ts).rest, k) && IsTail(ts, ParsePath(ts).rest)
    ensures SameHead(ts, Swap(ts, ParsePath(ts).rest, k))
    ensures ts[1..] == [] <==> Swap(ts, ParsePath(ts).rest, k)[1..] == []
    ensures ts[1..] != [] ==> ts[1] == Swap(ts, ParsePath(ts).rest, k)[1]
  {
    SwapHead(ts, ParsePath(ts).rest, k);
  }

  lemma EndedLocal<T>(ts: seq<Token>, value: T, k: seq<Token>)
    requires At(ts, ';')
    ensures IsTail(ts, ts[1..]) && SameHead(ts, Swap(ts, ts[1..], k))
    ensures Ended(value, Swap(ts, ts[1..], k)) == Ok(value, k)
  {
    SwapHead(ts, ts[1..], k);
    assert Swap(ts, ts[1..], k)[1..] == k;
  }

  /** Options and the semicolon behind them. */
  lemma SettingsEndLocal(ts: seq<Token>, k: seq<Token>)
    requires ParseSettings(ts).Ok? && At(ParseSettings(ts).rest, ';')
    ensures
      var rest := ParseSettings(ts).rest[1..];
      && IsTail(ts, rest) && SameHead(ts, Swap(ts, rest, k))
      && var again := ParseSettings(Swap(ts, rest, k));
         again.Ok? && again.value == ParseSettings(ts).value && At(again.rest, ';') && again.rest[1..] == k
  {
    var settings := ParseSettings(ts);
    EndedLocal(settings.rest, settings.value, k);
    SettingsLocal(ts, Swap(settings.rest, settings.rest[1..], k));
    SwapTwice(ts, settings.rest, settings.rest[1..], k);
    SwapHead(ts, settings.rest[1..], k);
  }

  lemma FieldStmtRestLocal(modifier: Option<Label>, ty: Type, ts: seq<Token>, k: seq<Token>)
    requires ParseFieldRest(modifier, ty, ts).Ok?
    ensures IsTail(ts, ParseFieldRest(modifier, ty, ts).rest)
    ensures SameHead(ts, Swap(ts, ParseFieldRest(modifier, ty, ts).rest, k))
    ensures
      var s := ParseFieldRest(modifier, ty, ts);
      ParseFieldRest(modifier, ty, Swap(ts, s.rest, k)) == Ok(s.value, k)
  {
    var rest := ParseFieldRest(modifier, ty, ts).rest;
    SettingsEndLocal(ts[3..], k);
    SwapSkip(ts, 3, rest, k);
    FirstThree(ts, Swap(ts, rest, k));
  }

  lemma FirstThree(ts: seq<Token>, x: seq<Token>)
    requires |ts| >= 3 && |x| >= 3 && x[..3] == ts[..3]
    ensures x[0] == ts[0] && x[1..][0] == ts[1..][0] && x[2..] != [] && ts[2..] != [] && x[2..][0] == ts[2..][0]
  {
    assert x[..3][0] == x[0] && x[..3][1] == x[1] && x[..3][2] == x[2];
    assert ts[..3][0] == ts[0] && ts[..3][1] == ts[1] && ts[..3][2] == ts[2];
  }

  lemma TypeThenLocal(ts: seq<Token>, rest: seq<Token>, k: seq<Token>)
    requires ParseType(ts).Ok? && IsTail(ParseType(ts).rest, rest)
    requires |rest| < |ParseType(ts).rest|
    ensures IsTail(ts, rest)
    ensures ParseType(Swap(ts, rest, k)) == Ok(ParseType(ts).value, Swap(ParseType(ts).rest, rest, k))
  {
    SwapHead(ParseType(ts).rest, rest, k);
    TypeLocal(ts, Swap(ParseType(ts).rest, rest, k));
    SwapTwice(ts, ParseType(ts).rest, rest, k);
  }

  lemma FieldStmtLocal(ts: seq<Token>, inOneof: bool, k: seq<Token>)
    requires ParseFieldStmt(ts, inOneof).Ok?
    ensures IsTail(ts, ParseFieldStmt(ts, inOneof).rest) && SameHead(ts, Swap(ts, ParseFieldStmt(ts, inOneof).rest, k))
    ensures
      var s := ParseFieldStmt(ts, inOneof);
      ParseFieldStmt(Swap(ts, s.rest, k), inOneof) == Ok(s.value, k)
  {
    var modifier, rest := LabelAt(ts), ParseFieldStmt(ts, inOneof).rest;
    if modifier.Some? {
      var ty := ParseType(ts[1..]);
      FieldStmtRestLocal(modifier, ty.value, ty.rest, k);
      TypeThenLocal(ts[1..], rest, k);
      SwapSkip(ts, 1, rest, k);
    } else {
      var ty := ParseType(ts);
      FieldStmtRestLocal(modifier, ty.value, ty.rest, k);
      TypeThenLocal(ts, rest, k);
      SwapHead(ts, rest, k);
    }
  }

  lemma EnumNumberLocal(ts: seq<Token>, k: seq<Token>)
    requires ParseEnumNumber(ts).Ok? && SameHead(ParseEnumNumber(ts).rest, k)
    ensures IsTail(ts, ParseEnumNumber(ts).rest)
    ensures ParseEnumNumber(Swap(ts, ParseEnumNumber(ts).rest, k)) == Ok(ParseEnumNumber(ts).value, k)
  {
    NumberLocal(ts, k);
  }

  /** An optional minus and one more token. */
  lemma NumberLocal(ts: seq<Token>, k: seq<Token>)
    requires |ts| > if At(ts, '-') then 1 else 0
    requires SameHead(if At(ts, '-') then ts[1..][1..] else ts[1..], k)
    ensures
      var rest := if At(ts, '-') then ts[1..][1..] else ts[1..];
      && IsTail(ts, rest)
      && var x := Swap(ts, rest, k);
         && |x| > (if At(ts, '-') then 1 else 0) && x[0] == ts[0] && SameHead(ts, x)
         && (At(ts, '-') ==> x[1] == ts[1] && x[1..][1..] == k) && (!At(ts, '-') ==> x[1..] == k)
  {
    var i := if At(ts, '-') then 2 else 1;
    assert At(ts, '-') ==> ts[1..][1..] == ts[2..];
    SwapNone(ts[i..], k);
    SwapSkip(ts, i, ts[i..], k);
    var x := Swap(ts, ts[i..], k);
    assert x[..i] == ts[..i];
    assert x[0] == ts[0] && (i == 2 ==> x[1] == ts[1] && x[1..][1..] == x[2..]);
  }

  lemma BoundLocal(ts: seq<Token>, inEnum: bool, k: seq<Token>)
    requires ParseBound(ts, inEnum).Ok? && SameHead(ParseBound(ts, inEnum).rest, k)
    ensures IsTail(ts, ParseBound(ts, inEnum).rest) && SameHead(ts, Swap(ts, ParseBound(ts, inEnum).rest, k))
    ensures ParseBound(Swap(ts, ParseBound(ts, inEnum).rest, k), inEnum) == Ok(ParseBound(ts, inEnum).value, k)
  {
    NumberLocal(ts, k);
  }

  lemma EndLocal(ts: seq<Token>, inEnum: bool, k: seq<Token>)
    requires ParseEnd(ts, inEnum).Ok? && SameHead(ParseEnd(ts, inEnum).rest, k)
    ensures IsTail(ts, ParseEnd(ts, inEnum).rest) && SameHead(ts, Swap(ts, ParseEnd(ts, inEnum).rest, k))
    ensures ParseEnd(Swap(ts, ParseEnd(ts, inEnum).rest, k), inEnum) == Ok(ParseEnd(ts, inEnum).value, k)
  {
    var rest := ParseEnd(ts, inEnum).rest;
    if !AtWord(ts, "to") {
      SwapNone(ts, k);
    } else if AtWord(ts[1..], "max") {
      SwapNone(ts[2..], k);
      SwapSkip(ts, 2, rest, k);
    } else {
      BoundLocal(ts[1..], inEnum, k);
      SwapSkip(ts, 1, rest, k);
    }
  }

  lemma RangeLocal(ts: seq<Token>, inEnum: bool, k: seq<Token>)
    requires ParseRange(ts, inEnum).Ok? && SameHead(ParseRange(ts, inEnum).rest, k)
    ensures IsTail(ts, ParseRange(ts, inEnum).rest) && SameHead(ts, Swap(ts, ParseRange(ts, inEnum).rest, k))
    ensures ParseRange(Swap(ts, ParseRange(ts, inEnum).rest, k), inEnum) == Ok(ParseRange(ts, inEnum).value, k)
  {
    var start, rest := ParseBound(ts, inEnum), ParseRange(ts, inEnum).rest;
    EndLocal(start.rest, inEnum, k);
    BoundLocal(ts, inEnum, Swap(start.rest, rest, k));
    SwapTwice(ts, start.rest, rest, k);
  }

  lemma {:induction false} RangesLocal(ts: seq<Token>, inEnum: bool, k: seq<Token>)
    requires ParseRanges(ts, inEnum).Ok? && SameHead(ParseRanges(ts, inEnum).rest, k)
    ensures IsTail(ts, ParseRanges(ts, inEnum).rest) && SameHead(ts, Swap(ts, ParseRanges(ts, inEnum).rest, k))
    ensures ParseRanges(Swap(ts, ParseRanges(ts, inEnum).rest, k), inEnum) == Ok(ParseRanges(ts, inEnum).value, k)
    decreases |ts|
  {
    var range, rest := ParseRange(ts, inEnum), ParseRanges(ts, inEnum).rest;
    if At(range.rest, ',') {
      RangesLocal(range.rest[1..], inEnum, k);
      SwapSkip(range.rest, 1, rest, k);
      RangeLocal(ts, inEnum, Swap(range.rest, rest, k));
      SwapTwice(ts, range.rest, rest, k);
    } else {
      RangeLocal(ts, inEnum, k);
    }
  }

  lemma {:induction false} QuotedLocal(ts: seq<Token>, k: seq<Token>)
    requires ParseQuoted(ts).Ok? && SameHead(ParseQuoted(ts).rest, k)
    ensures IsTail(ts, ParseQuoted(ts).rest) && SameHead(ts, Swap(ts, ParseQuoted(ts).rest, k))
    ensures ParseQuoted(Swap(ts, ParseQuoted(ts).rest, k)) == Ok(ParseQuoted(ts).value, k)
  {
    var rest := ParseQuoted(ts).rest;
    if At(ts[1..], ',') {
      QuotedLocal(ts[2..], k);
      SwapSkip(ts, 2, rest, k);
    } else {
      SwapNone(ts[1..], k);
      SwapSkip(ts, 1, rest, k);
    }
  }

  lemma ReservedLocal(ts: seq<Token>, inEnum: bool, k: seq<Token>)
    requires ParseReserved(ts, inEnum).Ok?
    ensures IsTail(ts, ParseReserved(ts, inEnum).rest)
    ensures ParseReserved(Swap(ts, ParseReserved(ts, inEnum).rest, k), inEnum) == Ok(ParseReserved(ts, inEnum).value, k)
  {
    var s := ParseReserved(ts, inEnum);
    if ts != [] && ts[0].Str? {
      var names := ParseQuoted(ts);
      EndedLocal(names.rest, s.value, k);
      QuotedLocal(ts, Swap(names.rest, s.rest, k));
      SwapTwice(ts, names.rest, s.rest, k);
    } else {
      var ranges := ParseRanges(ts, inEnum);
      EndedLocal(ranges.rest, s.value, k);
      RangesLocal(ts, inEnum, Swap(ranges.rest, s.rest, k));
      SwapTwice(ts, ranges.rest, s.rest, k);
    }
  }

  lemma NumberThenLocal(ts: seq<Token>, rest: seq<Token>, k: seq<Token>)
    requires ParseEnumNumber(ts).Ok? && IsTail(ParseEnumNumber(ts).rest, rest)
    requires |rest| < |ParseEnumNumber(ts).rest|
    ensures IsTail(ts, rest)
    ensures ParseEnumNumber(Swap(ts, rest, k))
      == Ok(ParseEnumNumber(ts).value, Swap(ParseEnumNumber(ts).rest, rest, k))
  {
    SwapHead(ParseEnumNumber(ts).rest, rest, k);
    EnumNumberLocal(ts, Swap(ParseEnumNumber(ts).rest, rest, k));
    SwapTwice(ts, ParseEnumNumber(ts).rest, rest, k);
  }

  lemma ValueStmtLocal(ts: seq<Token>, k: seq<Token>)
    requires ParseValueStmt(ts).Ok?
    ensures IsTail(ts, ParseValueStmt(ts).rest) && SameHead(ts, Swap(ts, ParseValueStmt(ts).rest, k))
    ensures ParseValueStmt(Swap(ts, ParseValueStmt(ts).rest, k)) == Ok(ParseValueStmt(ts).value, k)
  {
    var rest := ParseValueStmt(ts).rest;
    SettingsEndLocal(ParseEnumNumber(ts[2..]).rest, k);
    NumberThenLocal(ts[2..], rest, k);
    SwapSkip(ts, 2, rest, k);
    FirstTwo(ts, Swap(ts, rest, k));
  }

  lemma FirstTwo(ts: seq<Token>, x: seq<Token>)
    requires |ts| >= 2 && |x| >= 2 && x[..2] == ts[..2]
    ensures x[0] == ts[0] && x[1..][0] == ts[1..][0]
  {
    assert x[..2][0] == x[0] && x[..2][1] == x[1] && ts[..2][0] == ts[0] && ts[..2][1] == ts[1];
  }

  lemma PartyLocal(ts: seq<Token>, k: seq<Token>)
    requires ParseParty(ts).Ok? && SameHead(ParseParty(ts).rest, k)
    ensures IsTail(ts, ParseParty(ts).rest) && SameHead(ts, Swap(ts, ParseParty(ts).rest, k))
    ensures ParseParty(Swap(ts, ParseParty(ts).rest, k)) == Ok(ParseParty(ts).value, k)
  {
    var i, rest := if AtStream(ts[1..]) then 2 else 1, ParseParty(ts).rest;
    var p := ParsePath(ts[i..]);
    SwapNone(p.rest[1..], k);
    SwapSkip(p.rest, 1, rest, k);
    PathLocal(ts[i..], Swap(p.rest, rest, k));
    SwapTwice(ts[i..], p.rest, rest, k);
    SwapSkip(ts, i, rest, k);
    StreamLocal(ts, i, rest, k);
  }

  /** Whether `stream` is a modifier is decided by the token behind it. */
  lemma StreamLocal(ts: seq<Token>, i: nat, rest: seq<Token>, k: seq<Token>)
    requires 1 <= i <= 2 && i <= |ts| && IsTail(ts[i..], rest) && SameHead(rest, k)
    requires IsTail(ts, rest) && i == (if AtStream(ts[1..]) then 2 else 1)
    requires i == 1 ==> ParsePath(ts[1..]).Ok? && At(ParsePath(ts[1..]).rest, ')') && rest == ParsePath(ts[1..]).rest[1..]
    ensures AtStream(Swap(ts, rest, k)[1..]) <==> AtStream(ts[1..])
  {
    SwapSkip(ts, i, rest, k);
    var x := Swap(ts, rest, k);
    if i == 1 && AtWord(ts[1..], "stream") {
      assert ts[1..][1..] != [] && ts[1..][1..][0] == ts[2] && |ts[1..]| - |rest| >= 2;
      assert x[1..][1..][0] == x[2] && x[2] == ts[2];
    } else if i == 2 {
      assert ts[1..][1..] == ts[2..] && x[1..][1..] == x[2..];
    }
  }

  lemma HeadLocal(ts: seq<Token>, k: seq<Token>)
    requires ParseHead(ts).Ok? && SameHead(ParseHead(ts).rest, k)
    ensures IsTail(ts, ParseHead(ts).rest) && SameHead(ts, Swap(ts, ParseHead(ts).rest, k))
    ensures ParseHead(Swap(ts, ParseHead(ts).rest, k)) == Ok(ParseHead(ts).value, k)
  {
    var input, rest := ParseParty(ts[1..]), ParseHead(ts).rest;
    PartyLocal(input.rest[1..], k);
    SwapSkip(input.rest, 1, rest, k);
    PartyLocal(ts[1..], Swap(input.rest, rest, k));
    SwapTwice(ts[1..], input.rest, rest, k);
    SwapSkip(ts, 1, rest, k);
  }

  // ---- statements, whatever follows ----------------------------------------------------------------------

  lemma OptionLocal(ts: seq<Token>, k: seq<Token>)
    requires ParseOption(ts).Ok?
    ensures IsTail(ts, ParseOption(ts).rest)
    ensures ParseOption(Swap(ts, ParseOption(ts).rest, k)) == Ok(ParseOption(ts).value, k)
  {
    var s := ParseSetting(ts);
    EndedLocal(s.rest, s.value, k);
    SettingLocal(ts, Swap(s.rest, s.rest[1..], k));
    SwapTwice(ts, s.rest, s.rest[1..], k);
  }

  lemma PackageLocal(ts: seq<Token>, k: seq<Token>)
    requires ParsePackage(ts).Ok?
    ensures IsTail(ts, ParsePackage(ts).rest)
    ensures ParsePackage(Swap(ts, ParsePackage(ts).rest, k)) == Ok(ParsePackage(ts).value, k)
  {
    var p := ParsePath(ts);
    EndedLocal(p.rest, p.value, k);
    PathLocal(ts, Swap(p.rest, p.rest[1..], k));
    SwapTwice(ts, p.rest, p.rest[1..], k);
  }

  lemma SyntaxLocal(ts: seq<Token>, k: seq<Token>)
    requires ParseSyntax(ts).Ok?
    ensures IsTail(ts, ParseSyntax(ts).rest)
    ensures ParseSyntax(Swap(ts, ParseSyntax(ts).rest, k)) == Ok(ParseSyntax(ts).value, k)
  {
    EndedLocal(ts[2..], ts[1], k);
    SwapSkip(ts, 2, ts[2..][1..], k);
    FirstTwo(ts, Swap(ts, ts[2..][1..], k));
  }

  lemma ImportedLocal(kind: ImportKind, ts: seq<Token>, k: seq<Token>)
    requires ParseImported(kind, ts).Ok?
    ensures IsTail(ts, ParseImported(kind, ts).rest) && SameHead(ts, Swap(ts, ParseImported(kind, ts).rest, k))
    ensures ParseImported(kind, Swap(ts, ParseImported(kind, ts).rest, k)) == Ok(ParseImported(kind, ts).value, k)
  {
    EndedLocal(ts[1..], ts[0], k);
    SwapSkip(ts, 1, ts[1..][1..], k);
  }

  lemma ImportLocal(ts: seq<Token>, k: seq<Token>)
    requires ParseImport(ts).Ok?
    ensures IsTail(ts, ParseImport(ts).rest)
    ensures ParseImport(Swap(ts, ParseImport(ts).rest, k)) == Ok(ParseImport(ts).value, k)
  {
    if AtWord(ts, "public") || AtWord(ts, "weak") {
      ImportedLocal(if AtWord(ts, "public") then PublicImport else WeakImport, ts[1..], k);
      SwapSkip(ts, 1, ParseImport(ts).rest, k);
    } else {
      ImportedLocal(PlainImport, ts, k);
    }
  }

  lemma SimpleLocal(ts: seq<Token>, k: seq<Token>)
    requires ParseSimple(ts).Ok?
    ensures IsTail(ts, ParseSimple(ts).rest) && SameHead(ts, Swap(ts, ParseSimple(ts).rest, k))
    ensures ParseSimple(Swap(ts, ParseSimple(ts).rest, k)) == Ok(ParseSimple(ts).value, k)
  {
    if AtWord(ts, "syntax") {
      SyntaxLocal(ts[1..], k);
    } else if AtWord(ts, "package") {
      PackageLocal(ts[1..], k);
    } else {
      ImportLocal(ts[1..], k);
    }
    SwapSkip(ts, 1, ParseSimple(ts).rest, k);
  }

  /** The statements of a braced scope are read the same, whatever follows the brace. */
  lemma {:induction false} StmtsLocal(scope: Scope, ts: seq<Token>, k: seq<Token>)
    requires ParseStmts(scope, ts).Ok? && !scope.Top?
    ensures IsTail(ts, ParseStmts(scope, ts).rest) && |ParseStmts(scope, ts).rest| < |ts|
    ensures ParseStmts(scope, Swap(ts, ParseStmts(scope, ts).rest, k)) == Ok(ParseStmts(scope, ts).value, k)
    decreases |ts|, 3
  {
    var rest := ParseStmts(scope, ts).rest;
    if At(ts, ';') {
      StmtsLocal(scope, ts[1..], k);
      SwapSkip(ts, 1, rest, k);
    } else if At(ts, '}') {
      SwapHead(ts, rest, k);
      assert Swap(ts, rest, k)[1..] == k;
    } else {
      var s := ParseStmt(scope, ts);
      StmtsLocal(scope, s.rest, k);
      StmtLocal(scope, ts, Swap(s.rest, rest, k));
      MoreLocal(scope, ts, s.rest, rest, k);
    }
  }

  /** The same for the statement in front, once the ones behind it are read the same. */
  lemma MoreLocal(scope: Scope, ts: seq<Token>, mid: seq<Token>, rest: seq<Token>, k: seq<Token>)
    requires ts != [] && ts[0] != Punct(';') && ts[0] != Punct('}')
    requires ParseStmt(scope, ts).Ok? && mid == ParseStmt(scope, ts).rest && IsTail(ts, mid) && IsTail(mid, rest)
    requires ParseStmts(scope, mid).Ok? && rest == ParseStmts(scope, mid).rest && |rest| < |mid|
    requires ParseStmt(scope, Swap(ts, mid, Swap(mid, rest, k))) == Ok(ParseStmt(scope, ts).value, Swap(mid, rest, k))
    requires ParseStmts(scope, Swap(mid, rest, k)) == Ok(ParseStmts(scope, mid).value, k)
    ensures IsTail(ts, rest) && |rest| < |ts|
    ensures ParseStmts(scope, ts).Ok? && ParseStmts(scope, ts).rest == rest
    ensures ParseStmts(scope, Swap(ts, rest, k)) == Ok(ParseStmts(scope, ts).value, k)
  {
    SwapTwice(ts, mid, rest, k);
    SwapHead(ts, rest, k);
    StmtsUnfold(scope, ts);
    StmtsUnfold(scope, Swap(ts, rest, k));
  }

  lemma StmtsUnfold(scope: Scope, ts: seq<Token>)
    requires ts != [] && ts[0] != Punct(';') && (scope.Top? || ts[0] != Punct('}'))
    ensures ParseStmts(scope, ts)
      == if ParseStmt(scope, ts).Fail? then Fail
         else Cons(ParseStmt(scope, ts).value, ParseStmts(scope, ParseStmt(scope, ts).rest))
  {
  }

  lemma {:induction false} BlockLocal(inner: Scope, ts: seq<Token>, k: seq<Token>)
    requires ts != [] && ParseBlock(inner, ts).Ok? && !inner.Top?
    ensures IsTail(ts, ParseBlock(inner, ts).rest) && SameHead(ts, Swap(ts, ParseBlock(inner, ts).rest, k))
    ensures ParseBlock(inner, Swap(ts, ParseBlock(inner, ts).rest, k)) == Ok(ParseBlock(inner, ts).value, k)
    decreases |ts|, 0
  {
    StmtsLocal(inner, ts[3..], k);
    SwapSkip(ts, 3, ParseBlock(inner, ts).rest, k);
    FirstThree(ts, Swap(ts, ParseBlock(inner, ts).rest, k));
  }

  lemma {:induction false} RpcLocal(ts: seq<Token>, k: seq<Token>)
    requires ts != [] && ParseRpc(ts).Ok?
    ensures IsTail(ts, ParseRpc(ts).rest) && SameHead(ts, Swap(ts, ParseRpc(ts).rest, k))
    ensures ParseRpc(Swap(ts, ParseRpc(ts).rest, k)) == Ok(ParseRpc(ts).value, k)
    decreases |ts|, 0
  {
    var head, rest := ParseHead(ts[1..]), ParseRpc(ts).rest;
    if At(head.rest, ';') {
      EndedLocal(head.rest, head.value, k);
    } else {
      StmtsLocal(InRpc, head.rest[1..], k);
      SwapSkip(head.rest, 1, rest, k);
    }
    HeadLocal(ts[1..], Swap(head.rest, rest, k));
    SwapTwice(ts[1..], head.rest, rest, k);
    SwapSkip(ts, 1, rest, k);
  }

  /** A statement is read the same, whatever follows it. */
  lemma {:induction false} StmtLocal(scope: Scope, ts: seq<Token>, k: seq<Token>)
    requires ParseStmt(scope, ts).Ok?
    ensures IsTail(ts, ParseStmt(scope, ts).rest) && SameHead(ts, Swap(ts, ParseStmt(scope, ts).rest, k))
    ensures ParseStmt(scope, Swap(ts, ParseStmt(scope, ts).rest, k)) == Ok(ParseStmt(scope, ts).value, k)
    decreases |ts|, 2
  {
    if AtWord(ts, "option") {
      OptionLocal(ts[1..], k);
      SwapSkip(ts, 1, ParseStmt(scope, ts).rest, k);
    } else {
      match scope
      case Top => TopLocal(ts, k);
      case InMessage => MemberLocal(ts, k);
      case InOneof => FieldStmtLocal(ts, true, k);
      case InEnum =>
        if AtWord(ts, "reserved") {
          ReservedLocal(ts[1..], true, k);
          SwapSkip(ts, 1, ParseStmt(scope, ts).rest, k);
        } else {
          ValueStmtLocal(ts, k);
        }
      case InService => RpcLocal(ts, k);
    }
  }

  lemma {:induction false} TopLocal(ts: seq<Token>, k: seq<Token>)
    requires ParseStmt(Top, ts).Ok? && !AtWord(ts, "option")
    ensures IsTail(ts, ParseStmt(Top, ts).rest) && SameHead(ts, Swap(ts, ParseStmt(Top, ts).rest, k))
    ensures ParseStmt(Top, Swap(ts, ParseStmt(Top, ts).rest, k)) == Ok(ParseStmt(Top, ts).value, k)
    decreases |ts|, 1
  {
    if AtWord(ts, "message") {
      BlockLocal(InMessage, ts, k);
    } else if AtWord(ts, "enum") {
      BlockLocal(InEnum, ts, k);
    } else if AtWord(ts, "service") {
      BlockLocal(InService, ts, k);
    } else {
      SimpleLocal(ts, k);
    }
  }

  lemma {:induction false} MemberLocal(ts: seq<Token>, k: seq<Token>)
    requires ParseStmt(InMessage, ts).Ok? && !AtWord(ts, "option")
    ensures IsTail(ts, ParseStmt(InMessage, ts).rest) && SameHead(ts, Swap(ts, ParseStmt(InMessage, ts).rest, k))
    ensures ParseStmt(InMessage, Swap(ts, ParseStmt(InMessage, ts).rest, k)) == Ok(ParseStmt(InMessage, ts).value, k)
    decreases |ts|, 1
  {
    if AtWord(ts, "message") {
      BlockLocal(InMessage, ts, k);
    } else if AtWord(ts, "enum") {
      BlockLocal(InEnum, ts, k);
    } else if AtWord(ts, "oneof") {
      BlockLocal(InOneof, ts, k);
    } else if AtWord(ts, "reserved") {
      ReservedLocal(ts[1..], false, k);
      SwapSkip(ts, 1, ParseStmt(InMessage, ts).rest, k);
    } else {
      FieldStmtLocal(ts, false, k);
    }
  }
}
