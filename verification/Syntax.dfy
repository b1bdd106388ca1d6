/** Syntax trees and tokens of proto3 files, without comments and layout.

  A tree here is what the semantic digest sees: names, numbers as written,
  literals, options and nesting, but no spans, comments or blank lines.
 */
module Syntax {
  import opened Symbols

  /** Punctuation is one character. `Uncut` stands in printed text only: characters that the lexer will not cut into
    just the tokens they were made of (module BracketNames). */
  datatype Token =
    | Ident(text: string) | Int(text: string) | Float(text: string) | Str(text: string) | Punct(c: char)
    | Uncut(text: string)

  datatype Path = Path(dot: bool, segs: seq<string>)

  datatype NamePart = Bare(name: string) | Ext(path: Path)

  datatype Sign = Unsigned | Plus | Minus

  datatype Constant =
    | ConstPath(path: Path)
    | ConstNum(sign: Sign, tok: Token)
    | ConstStr(parts: seq<string>)
    | Aggregate(fields: seq<TextField>)

  datatype TextName = Name(name: string) | Bracket(text: string)

  datatype TextField = TextField(name: TextName, value: TextVal)

  datatype TextVal =
    | Scalar(sign: Sign, tok: Token)
    | Strings(parts: seq<string>)
    | Nested(fields: seq<TextField>)
    | List(items: seq<TextVal>)

  datatype Setting = Setting(name: seq<NamePart>, value: Constant)

  datatype Type = ScalarType(name: string) | Named(path: Path) | MapType(key: string, value: Type)

  datatype Label = Repeated | Optional

  datatype End = Open | Max | UpTo(negative: bool, number: string)

  datatype Range = Range(negative: bool, start: string, end: End)

  datatype ImportKind = PlainImport | PublicImport | WeakImport

  /** A statement of any scope; an rpc without braces has no items; `Legal` in module Grammar says which belong where. */
  datatype Stmt =
    | SyntaxStmt(value: string)
    | PackageStmt(path: Path)
    | ImportStmt(kind: ImportKind, file: string)
    | OptionStmt(setting: Setting)
    | MessageStmt(name: string, items: seq<Stmt>)
    | EnumStmt(name: string, items: seq<Stmt>)
    | OneofStmt(name: string, items: seq<Stmt>)
    | ServiceStmt(name: string, items: seq<Stmt>)
    | RpcStmt(name: string, fromStream: bool, input: Path, toStream: bool, output: Path, braced: bool, items: seq<Stmt>)
    | FieldStmt(modifier: Option<Label>, ty: Type, name: string, number: string, settings: seq<Setting>)
    | ValueStmt(name: string, negative: bool, number: string, settings: seq<Setting>)
    | RangesStmt(ranges: seq<Range>)
    | NamesStmt(names: seq<string>)

  datatype Scope = Top | InMessage | InOneof | InEnum | InService | InRpc

  // ---- words the grammar looks at --------------------------------------------------------

  predicate IsScalarName(w: string) {
    || w == "double" || w == "float" || w == "int32" || w == "int64" || w == "uint32" || w == "uint64"
    || w == "sint32" || w == "sint64" || w == "fixed32" || w == "fixed64" || w == "sfixed32" || w == "sfixed64"
    || w == "bool" || w == "string" || w == "bytes"
  }

  predicate IsMapKey(w: string) {
    IsScalarName(w) && w != "double" && w != "float" && w != "bytes"
  }

  /** Words that start something other than a field in a message. */
  predicate StartsOther(w: string) {
    || w == "message" || w == "enum" || w == "oneof" || w == "option" || w == "reserved"
    || w == "extend" || w == "extensions" || w == "group" || w == "required"
  }

  predicate IsLabelWord(w: string) {
    w == "repeated" || w == "optional" || w == "required"
  }

  /** The one spelling of `allow_alias = true` that counts: one bare name part and a bare word. */
  predicate AllowsAlias(s: Setting) {
    && |s.name| == 1 && s.name[0].Bare? && s.name[0].name == "allow_alias"
    && s.value.ConstPath? && !s.value.path.dot && |s.value.path.segs| == 1 && s.value.path.segs[0] == "true"
  }

  // ---- integer literals -------------------------------------------------------------------

  function DigitOf(c: char): (d: nat) {
    if '0' <= c <= '9' then c as nat - '0' as nat
    else if 'a' <= c <= 'f' then c as nat - 'a' as nat + 10
    else if 'A' <= c <= 'F' then c as nat - 'A' as nat + 10
    else 16
  }

  function Positional(text: string, base: nat): (v: Option<nat>) {
    if text == [] then Some(0)
    else
      var rest, d := Positional(text[..|text| - 1], base), DigitOf(text[|text| - 1]);
      if rest.None? || d >= base then None else Some(rest.value * base + d)
  }

  const MAX_U64 := 0xFFFF_FFFF_FFFF_FFFF
  const MAX_I64 := 0x7FFF_FFFF_FFFF_FFFF

  function Radix(text: string, base: nat): (v: Option<nat>) {
    var v := Positional(text, base);
    if text == [] || v.None? || v.value > MAX_U64 then None else v
  }

  /** Hexadecimal with 0x, octal with a leading zero, decimal otherwise; out of 64 bits is no value. */
  function IntValue(text: string): (v: Option<nat>) {
    if |text| >= 2 && text[0] == '0' && text[1] in ['x', 'X'] then Radix(text[2..], 16)
    else if |text| > 1 && text[0] == '0' then Radix(text[1..], 8)
    else Radix(text, 10)
  }

  function SignedValue(text: string, negative: bool): (v: Option<int>) {
    var m := IntValue(text);
    if m.None? || m.value > MAX_I64 + (if negative then 1 else 0) then None
    else
      var magnitude: int := m.value;
      Some(if negative then -magnitude else magnitude)
  }

  predicate FieldNumber(text: string) {
    IntValue(text).Some? && 1 <= IntValue(text).value <= 536870911
  }

  predicate EnumNumber(text: string, negative: bool) {
    SignedValue(text, negative).Some? && -0x8000_0000 <= SignedValue(text, negative).value <= 0x7FFF_FFFF
  }

  predicate ReservedNumber(inEnum: bool, text: string, negative: bool) {
    && SignedValue(text, negative).Some?
    && if inEnum then EnumNumber(text, negative)
       else !negative && 1 <= SignedValue(text, negative).value <= 536870911
  }
}
