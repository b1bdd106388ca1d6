/** The text-format parser and printer as they run: a token cursor and an output buffer. */
module Cursors {
  import opened Symbols
  import opened Syntax
  import opened TextFormat

  /** What a loop has read so far, in front of what the rest gives. */
  function Append<T>(done: seq<T>, more: Parsed<seq<T>>): (r: Parsed<seq<T>>) {
    if more.Fail? then Fail else Ok(done + more.value, more.rest)
  }

  lemma AppendNone<T>(more: Parsed<seq<T>>)
    ensures Append([], more) == more
  {
    if more.Ok? {
      assert [] + more.value == more.value;
    }
  }

  lemma AppendOne<T>(done: seq<T>, x: T, more: Parsed<seq<T>>)
    ensures Append(done, Cons(x, more)) == Append(done + [x], more)
  {
    if more.Ok? {
      assert done + ([x] + more.value) == (done + [x]) + more.value;
    }
  }

  /** The segments behind the first one. */
  function MoreSegs(ts: seq<Token>): (r: Parsed<seq<string>>) {
    if At(ts, '.') then ParseSegs(ts[1..]) else Ok([], ts)
  }

  lemma SegsStep(ts: seq<Token>)
    requires ts != [] && ts[0].Ident?
    ensures ParseSegs(ts) == Cons(ts[0].text, MoreSegs(ts[1..]))
  {
    if At(ts[1..], '.') {
      assert ts[1..][1..] == ts[2..];
    } else {
      assert [ts[0].text] + [] == [ts[0].text];
    }
  }

  /** The string literals behind the first one. */
  function MoreStrings(ts: seq<Token>): (r: Parsed<seq<string>>) {
    if ts != [] && ts[0].Str? then ParseStrings(ts) else Ok([], ts)
  }

  lemma StringsStep(ts: seq<Token>)
    requires ts != [] && ts[0].Str?
    ensures ParseStrings(ts) == Cons(ts[0].text, MoreStrings(ts[1..]))
  {
    if ts[1..] == [] || !ts[1].Str? {
      assert [ts[0].text] + [] == [ts[0].text];
    }
  }

  class Reader {
    const toks: seq<Token>
    var ti: nat

    constructor (toks: seq<Token>)
      ensures this.toks == toks && ti == 0
    {
      this.toks, ti := toks, 0;
    }

    ghost predicate Valid()
      reads this
    {
      ti <= |toks|
    }

    ghost function View(): seq<Token>
      requires Valid()
      reads this
    {
      toks[ti..]
    }

    /** The current token is this punctuation. */
    predicate Sees(c: char)
      requires Valid()
      reads this
      ensures Sees(c) <==> At(View(), c)
    {
      ti < |toks| && toks[ti] == Punct(c)
    }

    method Bump()
      requires Valid() && ti < |toks|
      modifies this
      ensures Valid() && ti == old(ti) + 1 && View() == old(View())[1..]
    {
      ti := ti + 1;
    }

    method Eat(c: char) returns (eaten: bool)
      requires Valid()
      modifies this
      ensures Valid() && ti >= old(ti)
      ensures eaten == At(old(View()), c) && View() == if eaten then old(View())[1..] else old(View())
    {
      eaten := Sees(c);
      if eaten {
        Bump();
      }
    }

    method ReadPath() returns (r: Option<Path>)
      requires Valid()
      modifies this
      ensures Valid()
      ensures r.None? <==> ParsePath(old(View())).Fail?
      ensures r.Some? ==> ParsePath(old(View())) == Ok(r.value, View())
    {
      var dot := Eat('.');
      if ti == |toks| || !toks[ti].Ident? {
        return None;
      }
      ghost var goal := ParseSegs(View());
      SegsStep(View());
      AppendOne([], toks[ti].text, MoreSegs(View()[1..]));
      AppendNone(goal);
      var segs := [toks[ti].text];
      Bump();
      while Sees('.')
        invariant Valid()
        invariant goal == Append(segs, MoreSegs(View()))
        decreases |toks| - ti
      {
        Bump();
        if ti == |toks| || !toks[ti].Ident? {
          return None;
        }
        SegsStep(View());
        AppendOne(segs, toks[ti].text, MoreSegs(View()[1..]));
        segs := segs + [toks[ti].text];
        Bump();
      }
      assert segs + [] == segs;
      r := Some(Path(dot, segs));
    }

    /** One or more adjacent string literals. */
    method ReadStrings() returns (r: seq<string>)
      requires Valid() && ti < |toks| && toks[ti].Str?
      modifies this
      ensures Valid() && ti > old(ti) && ParseStrings(old(View())) == Ok(r, View())
    {
      ghost var goal := ParseStrings(View());
      AppendNone(goal);
      r := [];
      while ti < |toks| && toks[ti].Str?
        invariant Valid() && ti >= old(ti) && (ti == old(ti) ==> r == [])
        invariant goal == Append(r, MoreStrings(View()))
        decreases |toks| - ti
      {
        StringsStep(View());
        AppendOne(r, toks[ti].text, MoreStrings(View()[1..]));
        r := r + [toks[ti].text];
        Bump();
      }
      assert r + [] == r;
    }

    /** The characters of a bracket name, up to its closing bracket. */
    method ReadBracket() returns (r: Option<string>)
      requires Valid()
      modifies this
      ensures Valid() && ti >= old(ti)
      ensures r.None? <==> ParseBracket(old(View())).Fail?
      ensures r.Some? ==> ParseBracket(old(View())) == Ok(r.value, View()) && Sees(']')
    {
      ghost var goal := ParseBracket(View());
      var text := "";
      assert Glue("", goal) == goal by {
        if goal.Ok? { assert "" + goal.value == goal.value; }
      }
      while ti < |toks| && toks[ti] != Punct(']')
        invariant Valid() && ti >= old(ti)
        invariant goal == Glue(text, ParseBracket(View()))
        decreases |toks| - ti
      {
        var t := toks[ti];
        if !t.Ident? && t != Punct('.') && t != Punct('/') {
          return None;
        }
        var piece := if t.Ident? then t.text else [t.c];
        assert [t] + View()[1..] == View();
        GlueTwice(text, piece, ParseBracket(View()[1..]));
        text := text + piece;
        Bump();
      }
      if ti == |toks| {
        return None;
      }
      assert text + "" == text;
      r := Some(text);
    }

    method ReadTextName() returns (r: Option<TextName>)
      requires Valid()
      modifies this
      ensures Valid()
      ensures r.None? <==> ParseTextName(old(View())).Fail?
      ensures r.Some? ==> ti > old(ti) && ParseTextName(old(View())) == Ok(r.value, View())
    {
      var bracket := Eat('[');
      if bracket {
        var text := ReadBracket();
        if text.None? || text.value == "" {
          return None;
        }
        Bump();
        return Some(Bracket(text.value));
      }
      if ti == |toks| || !toks[ti].Ident? {
        return None;
      }
      r := Some(Name(toks[ti].text));
      Bump();
    }

    /** The scope loop of an aggregate, after its opening token. */
    method ReadFields(closer: char) returns (r: Option<seq<TextField>>)
      requires Valid()
      modifies this
      ensures Valid()
      ensures r.None? <==> ParseFields(old(View()), closer).Fail?
      ensures r.Some? ==> ti > old(ti) && ParseFields(old(View()), closer) == Ok(r.value, View())
      decreases |toks| - ti, 3
    {
      ghost var goal := ParseFields(View(), closer);
      var fields: seq<TextField> := [];
      AppendNone(goal);
      while true
        invariant Valid() && ti >= old(ti)
        invariant goal == Append(fields, ParseFields(View(), closer))
        decreases |toks| - ti
      {
        if Sees(';') {
          Bump();
        } else if Sees(closer) {
          Bump();
          assert fields + [] == fields;
          return Some(fields);
        } else {
          var f := ReadField();
          if f.None? {
            return None;
          }
          AppendOne(fields, f.value, ParseFields(View(), closer));
          fields := fields + [f.value];
        }
      }
    }

    method ReadField() returns (r: Option<TextField>)
      requires Valid()
      modifies this
      ensures Valid()
      ensures r.None? <==> ParseField(old(View())).Fail?
      ensures r.Some? ==> ti > old(ti) && ParseField(old(View())) == Ok(r.value, View())
      decreases |toks| - ti, 2
    {
      var name := ReadTextName();
      if name.None? {
        return None;
      }
      var colon := Eat(':');
      if !colon && !Sees('{') && !Sees('<') {
        return None;
      }
      var value := ReadVal();
      if value.None? {
        return None;
      }
      if Sees(',') || Sees(';') {
        Bump();
      }
      r := Some(TextField(name.value, value.value));
    }

    method ReadVal() returns (r: Option<TextVal>)
      requires Valid()
      modifies this
      ensures Valid()
      ensures r.None? <==> ParseVal(old(View())).Fail?
      ensures r.Some? ==> ti > old(ti) && ParseVal(old(View())) == Ok(r.value, View())
      decreases |toks| - ti, 1
    {
      if ti == |toks| {
        return None;
      }
      var t := toks[ti];
      if t.Str? {
        var parts := ReadStrings();
        return Some(Strings(parts));
      } else if IsNumber(t) || t.Ident? {
        Bump();
        return Some(Scalar(Unsigned, t));
      } else if t == Punct('-') || t == Punct('+') {
        Bump();
        if ti == |toks| || !MayBeSigned(toks[ti]) {
          return None;
        }
        r := Some(Scalar(if t == Punct('-') then Minus else Plus, toks[ti]));
        Bump();
      } else if t == Punct('{') || t == Punct('<') {
        Bump();
        var fields := ReadFields(if t == Punct('{') then '}' else '>');
        return if fields.None? then None else Some(Nested(fields.value));
      } else if t == Punct('[') {
        Bump();
        var empty := Eat(']');
        if empty {
          return Some(List([]));
        }
        var items := ReadVals();
        return if items.None? then None else Some(List(items.value));
      } else {
        return None;
      }
    }

    /** The loop over a list; nested lists are refused. */
    method ReadVals() returns (r: Option<seq<TextVal>>)
      requires Valid()
      modifies this
      ensures Valid()
      ensures r.None? <==> ParseVals(old(View())).Fail?
      ensures r.Some? ==> ti > old(ti) && ParseVals(old(View())) == Ok(r.value, View())
      decreases |toks| - ti, 2
    {
      ghost var goal := ParseVals(View());
      var items: seq<TextVal> := [];
      AppendNone(goal);
      while true
        invariant Valid() && ti >= old(ti)
        invariant goal == Append(items, ParseVals(View()))
        decreases |toks| - ti
      {
        if Sees('[') {
          return None;
        }
        var v := ReadVal();
        if v.None? {
          return None;
        }
        var comma := Eat(',');
        if comma {
          AppendOne(items, v.value, ParseVals(View()));
          items := items + [v.value];
        } else {
          var closed := Eat(']');
          return if closed then Some(items + [v.value]) else None;
        }
      }
    }
  }

  lemma GlueTwice(text: string, piece: string, more: Parsed<string>)
    ensures Glue(text, Glue(piece, more)) == Glue(text + piece, more)
  {
    if more.Ok? {
      assert text + (piece + more.value) == (text + piece) + more.value;
    }
  }

  /** The renderers append to one buffer; each leaves `out` so that what follows can follow. */
  class Writer {
    var out: seq<Token>

    constructor ()
      ensures out == []
    {
      out := [];
    }

    method Push(t: Token)
      modifies this
      ensures out == old(out) + [t]
    {
      out := out + [t];
    }

    method PushAll(ts: seq<Token>)
      modifies this
      ensures out == old(out) + ts
    {
      out := out + ts;
    }

    method PushStrings(parts: seq<string>)
      modifies this
      ensures forall k {:trigger PutStrings(parts, k)} :: old(out) + PutStrings(parts, k) == out + k
    {
      var i := 0;
      while i < |parts|
        invariant 0 <= i <= |parts|
        invariant forall k {:trigger PutStrings(parts, k)} :: old(out) + PutStrings(parts, k) == out + PutStrings(parts[i..], k)
      {
        assert parts[i..][1..] == parts[i + 1..];
        ghost var before := out;
        Push(Str(parts[i]));
        forall k ensures before + PutStrings(parts[i..], k) == out + PutStrings(parts[i + 1..], k) {
          Regroup(before, Str(parts[i]), PutStrings(parts[i + 1..], k));
        }
        i := i + 1;
      }
    }

    method PushSigned(sign: Sign, tok: Token)
      modifies this
      ensures forall k {:trigger PutSigned(sign, tok, k)} :: old(out) + PutSigned(sign, tok, k) == out + k
    {
      match sign {
        case Unsigned =>
        case Plus => Push(Punct('+'));
        case Minus => Push(Punct('-'));
      }
      Push(tok);
      forall k ensures old(out) + PutSigned(sign, tok, k) == out + k {
        SignedText(old(out), sign, tok, k);
      }
    }

    method PushTextName(name: TextName)
      modifies this
      ensures forall k {:trigger PutTextName(name, k)} :: old(out) + PutTextName(name, k) == out + k
    {
      match name {
        case Name(w) =>
          Push(Ident(w));
        case Bracket(text) =>
          Push(Punct('['));
          PushAll(Spelled(text));
          Push(Punct(']'));
      }
      forall k ensures old(out) + PutTextName(name, k) == out + k {
        NameText(old(out), name, k);
      }
    }

    /** The fields of an aggregate and its closing brace. */
    method PushFields(fields: seq<TextField>, st: Style)
      modifies this
      ensures forall k {:trigger PutFields(fields, st, k)} :: old(out) + PutFields(fields, st, k) == out + k
      decreases fields
    {
      var i := 0;
      while i < |fields|
        invariant 0 <= i <= |fields|
        invariant forall k {:trigger PutFields(fields, st, k)} ::
          old(out) + PutFields(fields, st, k) == out + PutFields(fields[i..], st, k)
      {
        assert fields[i] in fields && fields[i..][1..] == fields[i + 1..];
        ghost var before := out;
        PushField(fields[i], st);
        ghost var field := out;
        if !st.block && i + 1 < |fields| {
          Push(Punct(','));
        }
        forall k ensures before + PutFields(fields[i..], st, k) == out + PutFields(fields[i + 1..], st, k) {
          var rest := PutFields(fields[i + 1..], st, k);
          var after := if st.block || i + 1 == |fields| then rest else [Punct(',')] + rest;
          assert before + PutField(fields[i], st, after) == field + after;
          Regroup(field, Punct(','), rest);
        }
        i := i + 1;
      }
      ghost var body := out;
      Push(Punct('}'));
      forall k ensures body + PutFields(fields[i..], st, k) == out + k {
        Regroup(body, Punct('}'), k);
      }
    }

    method PushField(f: TextField, st: Style)
      modifies this
      ensures forall k {:trigger PutField(f, st, k)} :: old(out) + PutField(f, st, k) == out + k
      decreases f
    {
      PushTextName(f.name);
      ghost var name := out;
      if !f.value.Nested? {
        Push(Punct(':'));
      }
      ghost var colon := out;
      PushVal(f.value, st);
      forall k ensures old(out) + PutField(f, st, k) == out + k {
        var value := PutVal(f.value, st, k);
        var after := if f.value.Nested? then value else [Punct(':')] + value;
        assert old(out) + PutTextName(f.name, after) == name + after;
        Regroup(name, Punct(':'), value);
      }
    }

    method PushVal(v: TextVal, st: Style)
      modifies this
      ensures forall k {:trigger PutVal(v, st, k)} :: old(out) + PutVal(v, st, k) == out + k
      decreases v
    {
      match v {
        case Scalar(sign, tok) => PushSigned(sign, tok);
        case Strings(parts) => PushStrings(parts);
        case Nested(fields) =>
          Push(Punct('{'));
          ghost var open := out;
          PushFields(fields, st);
          forall k ensures old(out) + PutVal(v, st, k) == out + k {
            Regroup(old(out), Punct('{'), PutFields(fields, st, k));
            assert open + PutFields(fields, st, k) == out + k;
          }
        case List(items) =>
          Push(Punct('['));
          ghost var open := out;
          PushVals(items, Style(st.lists, st.lists));
          forall k ensures old(out) + PutVal(v, st, k) == out + k {
            Regroup(old(out), Punct('['), PutVals(items, Style(st.lists, st.lists), k));
            assert open + PutVals(items, Style(st.lists, st.lists), k) == out + k;
          }
      }
    }

    /** The values of a list and its closing bracket. */
    method PushVals(items: seq<TextVal>, st: Style)
      modifies this
      ensures forall k {:trigger PutVals(items, st, k)} :: old(out) + PutVals(items, st, k) == out + k
      decreases items
    {
      if items == [] {
        Push(Punct(']'));
        forall k ensures old(out) + PutVals(items, st, k) == out + k {
          Regroup(old(out), Punct(']'), k);
        }
        return;
      }
      var i := 0;
      while i < |items|
        invariant 0 <= i <= |items|
        invariant i < |items| ==> forall k {:trigger PutVals(items, st, k)} ::
          old(out) + PutVals(items, st, k) == out + PutVals(items[i..], st, k)
        invariant i == |items| ==> forall k {:trigger PutVals(items, st, k)} :: old(out) + PutVals(items, st, k) == out + k
      {
        assert items[i] in items && items[i..][1..] == items[i + 1..];
        ghost var before := out;
        PushVal(items[i], st);
        ghost var value := out;
        Push(Punct(if i + 1 < |items| then ',' else ']'));
        forall k ensures before + PutVals(items[i..], st, k) == out + if i + 1 < |items| then PutVals(items[i + 1..], st, k) else k {
          var rest := if i + 1 < |items| then PutVals(items[i + 1..], st, k) else k;
          var after := [Punct(if i + 1 < |items| then ',' else ']')] + rest;
          assert before + PutVal(items[i], st, after) == value + after;
          Regroup(value, Punct(if i + 1 < |items| then ',' else ']'), rest);
        }
        i := i + 1;
      }
    }
  }

  lemma Regroup(a: seq<Token>, t: Token, k: seq<Token>)
    ensures a + ([t] + k) == (a + [t]) + k
  {
  }

  lemma SignedText(out: seq<Token>, sign: Sign, tok: Token, k: seq<Token>)
    ensures sign.Unsigned? ==> out + PutSigned(sign, tok, k) == (out + [tok]) + k
    ensures sign.Plus? ==> out + PutSigned(sign, tok, k) == ((out + [Punct('+')]) + [tok]) + k
    ensures sign.Minus? ==> out + PutSigned(sign, tok, k) == ((out + [Punct('-')]) + [tok]) + k
  {
  }

  lemma NameText(out: seq<Token>, name: TextName, k: seq<Token>)
    ensures name.Name? ==> out + PutTextName(name, k) == (out + [Ident(name.name)]) + k
    ensures name.Bracket? ==>
      out + PutTextName(name, k) == (((out + [Punct('[')]) + Spelled(name.text)) + [Punct(']')]) + k
  {
    if name.Bracket? {
      Bracketed(out, Spelled(name.text), k);
    }
  }

  lemma Bracketed(out: seq<Token>, inner: seq<Token>, k: seq<Token>)
    ensures out + ([Punct('[')] + inner + [Punct(']')] + k) == (((out + [Punct('[')]) + inner) + [Punct(']')]) + k
  {
  }
}
