/** The parser's two cursors: one over the tokens, one over the comment stream.

  The parser never copies a comment; every slot is a contiguous run of the
  stream, taken when the comment cursor moves. Each method is proved against the
  functions of module Layout, on the view that pairs the unattached comments
  with the tokens still to come.
 */
module Attachment {
  import opened Symbols
  import opened Layout

  /** Tokens and comments by position; `upTo[k]` counts the comments in front of token `k`. */
  datatype Source = Source(
    toks: seq<Token>, at: seq<nat>,
    comments: seq<Comment>, starts: seq<nat>,
    ghost upTo: seq<nat>)

  ghost predicate Ordered(s: Source) {
    && |s.at| == |s.toks| && |s.starts| == |s.comments| && |s.upTo| == |s.toks| + 1
    && s.upTo[|s.toks|] == |s.comments|
    && (forall k :: 0 <= k < |s.toks| ==> s.upTo[k] <= s.upTo[k + 1])
    && (forall k {:trigger s.at[k]} :: 0 <= k < |s.toks| ==> SplitsAt(s, k))
  }

  /** The comments in front of token `k` are the first `upTo[k]`. */
  ghost predicate SplitsAt(s: Source, k: nat)
    requires k < |s.at| && k < |s.upTo| && |s.starts| == |s.comments|
  {
    s.upTo[k] <= |s.comments| && forall j :: 0 <= j < |s.comments| ==> (j < s.upTo[k] <==> s.starts[j] < s.at[k])
  }

  ghost function GroupsFrom(s: Source, k: nat): (r: seq<Group>)
    requires Ordered(s) && k <= |s.toks|
    ensures |r| == |s.toks| - k
    decreases |s.toks| - k
  {
    if k == |s.toks| then []
    else
      UpToGrows(s, k + 1);
      [Group(s.toks[k], s.comments[s.upTo[k]..s.upTo[k + 1]])] + GroupsFrom(s, k + 1)
  }

  lemma {:induction false} UpToGrows(s: Source, k: nat)
    requires Ordered(s) && k <= |s.toks|
    ensures s.upTo[k] <= |s.comments|
    decreases |s.toks| - k
  {
    if k < |s.toks| {
      UpToGrows(s, k + 1);
    }
  }

  /** What is left to attach and to read when token `ti` is next and `ci` comments are attached. */
  ghost function ViewOf(s: Source, ti: nat, ci: nat): (r: Cursor)
    requires Ordered(s) && ti <= |s.toks| && ci <= s.upTo[ti]
  {
    UpToGrows(s, ti);
    Cursor(s.comments[ci..s.upTo[ti]], GroupsFrom(s, ti))
  }

  lemma BumpView(s: Source, ti: nat, ci: nat)
    requires Ordered(s) && ti < |s.toks| && ci <= s.upTo[ti]
    ensures ci <= s.upTo[ti + 1]
    ensures ViewOf(s, ti, ci).groups != [] && ViewOf(s, ti, ci).groups[0].tok == s.toks[ti]
    ensures ViewOf(s, ti + 1, ci) == Bump(ViewOf(s, ti, ci))
    ensures ViewOf(s, ti + 1, s.upTo[ti]) == Cursor(ViewOf(s, ti, ci).groups[0].after, ViewOf(s, ti, ci).groups[1..])
  {
    UpToGrows(s, ti + 1);
    var groups := GroupsFrom(s, ti);
    assert groups[1..] == GroupsFrom(s, ti + 1);
    assert s.comments[ci..s.upTo[ti + 1]] == s.comments[ci..s.upTo[ti]] + s.comments[s.upTo[ti]..s.upTo[ti + 1]];
  }

  lemma SkipView(s: Source, ti: nat, ci: nat, to': nat)
    requires Ordered(s) && ti <= |s.toks| && ci <= to' <= s.upTo[ti]
    ensures s.upTo[ti] <= |s.comments|
    ensures ViewOf(s, ti, to') == Cursor(ViewOf(s, ti, ci).pend[to' - ci..], ViewOf(s, ti, ci).groups)
    ensures s.comments[ci..to'] == ViewOf(s, ti, ci).pend[..to' - ci]
  {
    UpToGrows(s, ti);
    var all := s.comments[ci..s.upTo[ti]];
    assert all[to' - ci..] == s.comments[to'..s.upTo[ti]];
    assert all[..to' - ci] == s.comments[ci..to'];
  }

  // ---- joining what a loop has built with what is still to come -------------------------------------

  /** The items so far, the last of them still without its detached comments, and the rest of the scope. */
  function Joined(intro: seq<Note>, items: seq<Item>, run: Run): (r: Run) {
    if items == [] then run
    else Run(intro, items[..|items| - 1] + [items[|items| - 1].(detached := run.carry)] + run.items, run.dangling)
  }

  function JoinedScope(intro: seq<Note>, items: seq<Item>, scope: Option<Scope>): (r: Option<Scope>) {
    if scope.None? then None else Some(scope.value.(run := Joined(intro, items, scope.value.run)))
  }

  /** Patching the previous item and pushing the new one keeps the joined scope. */
  lemma JoinItem(intro: seq<Note>, items: seq<Item>, toPrev: seq<Note>, item: Item, scope: Option<Scope>)
    requires items == [] ==> intro == []
    ensures JoinedScope(intro, items, ItemThen(toPrev, item, scope))
      == JoinedScope(if items == [] then toPrev else intro, Patched(items, toPrev) + [item], scope)
  {
    var more := Patched(items, toPrev) + [item];
    assert more[..|items|] == Patched(items, toPrev);
    if scope.Some? {
      var run := scope.value.run;
      var last := item.(detached := run.carry);
      assert Patched(items, toPrev) + ([last] + run.items) == Patched(items, toPrev) + [last] + run.items;
      if items == [] {
        assert [] + [last] == [last];
      }
    }
  }

  function Patched(items: seq<Item>, toPrev: seq<Note>): (r: seq<Item>) {
    if items == [] then [] else items[..|items| - 1] + [items[|items| - 1].(detached := toPrev)]
  }

  lemma PatchedIs(items: seq<Item>, toPrev: seq<Note>)
    requires items != []
    ensures items[|items| - 1 := items[|items| - 1].(detached := toPrev)] == Patched(items, toPrev)
    ensures toPrev == items[|items| - 1].detached ==> Patched(items, toPrev) == items
  {
  }

  /** A scope that starts with this item. */
  function ItemThen(toPrev: seq<Note>, item: Item, scope: Option<Scope>): (r: Option<Scope>) {
    if scope.None? then None
    else
      var run := scope.value.run;
      Some(scope.value.(run := Run(toPrev, [item.(detached := run.carry)] + run.items, run.dangling)))
  }

  lemma JoinEnd(intro: seq<Note>, items: seq<Item>, dangling: seq<Note>)
    requires if items == [] then intro == [] else items[|items| - 1].detached == []
    ensures Joined(intro, items, Run([], [], dangling)) == Run(intro, items, dangling)
  {
    if items != [] {
      var last := items[|items| - 1];
      assert last.(detached := []) == last;
      assert items[..|items| - 1] + [last] + [] == items;
    }
  }

  function PrependAll(parts: seq<Part>, more: Option<Pieces>): (r: Option<Pieces>) {
    if more.None? then None else Some(more.value.(parts := parts + more.value.parts))
  }

  lemma PrependNone(more: Option<Pieces>)
    ensures PrependAll([], more) == more
  {
    if more.Some? {
      assert [] + more.value.parts == more.value.parts;
    }
  }

  lemma PrependOne(parts: seq<Part>, part: Part, more: Option<Pieces>)
    ensures PrependAll(parts, Prepend(part, more)) == PrependAll(parts + [part], more)
  {
    if more.Some? {
      assert parts + ([part] + more.value.parts) == (parts + [part]) + more.value.parts;
    }
  }

  class Parser {
    const src: Source
    var ti: nat
    var ci: nat
    var lastLine: nat

    ghost predicate Valid()
      reads this
    {
      Ordered(src) && ti <= |src.toks| && ci <= src.upTo[ti]
    }

    ghost function View(): Cursor
      requires Valid()
      reads this
    {
      ViewOf(src, ti, ci)
    }

    constructor (src: Source)
      requires Ordered(src)
      ensures this.src == src && Valid() && View() == ViewOf(src, 0, 0)
    {
      this.src := src;
      ti, ci, lastLine := 0, 0, 0;
    }

    method Advance() returns (tok: Token)
      requires Valid() && ti < |src.toks|
      modifies this`ti, this`lastLine
      ensures Valid() && ti == old(ti) + 1
      ensures tok == src.toks[old(ti)] && lastLine == tok.line
      ensures View() == Bump(old(View()))
    {
      BumpView(src, ti, ci);
      tok := src.toks[ti];
      lastLine := tok.line;
      ti := ti + 1;
    }

    /** All comments positioned before the current token. */
    method TakePending() returns (pending: seq<Comment>)
      requires Valid() && ti < |src.toks|
      modifies this`ci
      ensures Valid() && ci == src.upTo[ti]
      ensures pending == old(View()).pend && View() == Cursor([], old(View()).groups)
    {
      var start := ci;
      assert SplitsAt(src, ti);
      while ci < |src.comments| && src.starts[ci] < src.at[ti]
        invariant start <= ci <= src.upTo[ti]
      {
        ci := ci + 1;
      }
      assert ci == src.upTo[ti];
      SkipView(src, ti, start, ci);
      pending := src.comments[start..ci];
    }

    /** Splits the pending comments between the previous node and the coming item. */
    method Begin() returns (start: Start)
      requires Valid() && ti < |src.toks|
      modifies this`ci
      ensures Valid() && start == BeginItem(old(View()).pend, src.toks[ti])
      ensures View() == Cursor([], old(View()).groups)
    {
      var cs := TakePending();
      var cur := src.toks[ti];
      var j: nat := |cs|;
      if cs != [] && cur.line <= EndLine(cs[|cs| - 1]) + 1 {
        j := FindBoundary(cs);
      }
      var leading := Notes(cs)[j..];
      start := Start(Notes(cs)[..j], leading, if leading == [] then cur.blank else leading[0].blank);
    }

    static method FindBoundary(cs: seq<Comment>) returns (j: nat)
      requires cs != []
      ensures j == Boundary(Notes(cs))
    {
      j := |cs| - 1;
      while j > 0 && !cs[j].blank
        invariant 0 <= j < |cs|
        invariant forall i :: j < i < |cs| ==> !cs[i].blank
      {
        j := j - 1;
      }
      BoundaryIs(Notes(cs), j);
    }

    /** Comments that start on the line on which the item ended. */
    method FinishTrailing(endLine: nat) returns (trailing: seq<Note>)
      requires Valid() && ti < |src.toks|
      modifies this`ci
      ensures Valid()
      ensures
        var pend := old(View()).pend;
        var n := TrailingCount(pend, endLine);
        trailing == Notes(pend[..n]) && View() == Cursor(pend[n..], old(View()).groups)
    {
      var start := ci;
      ghost var pend := View().pend;
      assert SplitsAt(src, ti);
      while ci < |src.comments| && src.starts[ci] < src.at[ti] && src.comments[ci].line == endLine
        invariant start <= ci <= src.upTo[ti]
        invariant forall i :: 0 <= i < ci - start ==> pend[i].line == endLine
      {
        assert pend[ci - start] == src.comments[ci];
        ci := ci + 1;
      }
      SkipView(src, ti, start, ci);
      assert ci < src.upTo[ti] ==> pend[ci - start] == src.comments[ci];
      TrailingIs(pend, endLine, ci - start);
      trailing := Notes(src.comments[start..ci]);
    }

    /** The scope loop: items until the closing token. */
    method BlockItems() returns (r: Option<(Block, Token)>)
      requires Valid()
      modifies this
      ensures Valid() && ti >= old(ti)
      ensures r.None? <==> ParseRun(old(View())).None?
      ensures r.Some? ==>
        var scope := ParseRun(old(View())).value;
        ti > old(ti) && r.value == (BlockOf(scope.run), scope.close) && View() == scope.rest
            && lastLine == scope.close.line
      decreases |src.toks| - ti, 2
    {
      ghost var goal := ParseRun(View());
      var intro: seq<Note>, items: seq<Item> := [], [];
      while true
        invariant Valid() && ti >= old(ti)
        invariant items == [] ==> intro == []
        invariant items != [] ==> items[|items| - 1].detached == [] && ti > old(ti)
        invariant goal == JoinedScope(intro, items, ParseRun(View()))
        decreases |src.toks| - ti
      {
        ghost var before := View();
        if ti == |src.toks| {
          return None;
        }
        BumpView(src, ti, ci);
        if src.toks[ti].kind.Semi? {
          var _ := Advance();
          continue;
        }
        if src.toks[ti].kind.Close? {
          r := CloseBlock(intro, items, goal);
          return;
        }
        if !src.toks[ti].kind.Plain? {
          return None;
        }
        var read := OneItem();
        if read.None? {
          return None;
        }
        JoinItem(intro, items, read.value.0, read.value.1, ParseRun(View()));
        intro, items := PushItem(intro, items, read.value.0, read.value.1);
      }
    }

    /** Gives the comments before an item to the node before it, and adds the item. */
    static method PushItem(intro: seq<Note>, items: seq<Item>, toPrev: seq<Note>, item: Item)
      returns (intro': seq<Note>, items': seq<Item>)
      requires if items == [] then intro == [] else items[|items| - 1].detached == []
      ensures intro' == if items == [] then toPrev else intro
      ensures items' == Patched(items, toPrev) + [item]
    {
      intro', items' := intro, items;
      if items != [] {
        PatchedIs(items, toPrev);
      }
      if toPrev != [] {
        if items != [] {
          items' := items[|items| - 1 := items[|items| - 1].(detached := toPrev)];
        } else {
          intro' := toPrev;
        }
      }
      items' := items' + [item];
    }

    /** One item with its leading and trailing comments, and the comments that belong to the node before it. */
    method OneItem() returns (r: Option<(seq<Note>, Item)>)
      requires Valid() && ti < |src.toks| && src.toks[ti].kind.Plain?
      modifies this
      ensures Valid() && ti >= old(ti)
      ensures r.None? ==> ParseRun(old(View())).None?
      ensures r.Some? ==>
        && ti > old(ti) && r.value.1.detached == []
        && ParseRun(old(View())) == ItemThen(r.value.0, r.value.1, ParseRun(View()))
      decreases |src.toks| - ti, 1
    {
      BumpView(src, ti, ci);
      var start := Begin();
      var body := ItemParts();
      if body.None? || ti == |src.toks| {
        return None;
      }
      var trailing := FinishTrailing(lastLine);
      r := Some((start.toPrev, Item(body.value, start.blank, start.leading, trailing, [])));
    }

    /** Takes the dangling comments and leaves the scope. */
    method CloseBlock(intro: seq<Note>, items: seq<Item>, ghost goal: Option<Scope>) returns (r: Option<(Block, Token)>)
      requires Valid() && ti < |src.toks| && src.toks[ti].kind.Close?
      requires goal == JoinedScope(intro, items, ParseRun(View()))
      requires if items == [] then intro == [] else items[|items| - 1].detached == []
      modifies this
      ensures Valid() && ti == old(ti) + 1 && goal.Some?
      ensures r == Some((BlockOf(goal.value.run), goal.value.close)) && View() == goal.value.rest
      ensures lastLine == goal.value.close.line
    {
      BumpView(src, ti, ci);
      var cs := TakePending();
      BumpView(src, ti, ci);
      var close := Advance();
      r := Some((Block(intro, items, Notes(cs)), close));
      JoinEnd(intro, items, Notes(cs));
    }

    /** The tokens of one item, with the scopes nested in it. */
    method ItemParts() returns (r: Option<seq<Part>>)
      requires Valid()
      modifies this
      ensures Valid() && ti >= old(ti)
      ensures r.None? <==> ParseParts(old(View())).None?
      ensures r.Some? ==>
        var body := ParseParts(old(View())).value;
        ti > old(ti) && ti <= |src.toks| && r.value == body.parts && View() == body.rest && lastLine == body.line
      decreases |src.toks| - ti, 0
    {
      ghost var goal := ParseParts(View());
      var parts: seq<Part> := [];
      PrependNone(ParseParts(View()));
      while true
        invariant Valid() && ti >= old(ti)
        invariant goal == PrependAll(parts, ParseParts(View()))
        decreases |src.toks| - ti
      {
        if ti == |src.toks| {
          return None;
        }
        BumpView(src, ti, ci);
        if src.toks[ti].kind.Close? || src.toks[ti].kind.Semi? || (src.toks[ti].kind.Separator? && !src.toks[ti].last) {
          return None;
        }
        var tok := Advance();
        var last, more := tok.last, [];
        match tok.kind {
          case Plain(text, cut) => more := [Word(text, cut)];
          case Open(mode, cut) =>
            var nested := BlockItems();
            if nested.None? {
              return None;
            }
            more := [Nested(mode, nested.value.0, cut)];
            last := nested.value.1.last;
          case _ =>
        }
        if more != [] {
          PrependOne(parts, more[0], ParseParts(View()));
        }
        parts := parts + more;
        if last {
          return Some(parts);
        }
      }
    }
  }

  lemma {:induction false} BoundaryIs(notes: seq<Note>, j: nat)
    requires j < |notes| && (j > 0 ==> notes[j].blank)
    requires forall i :: j < i < |notes| ==> !notes[i].blank
    ensures Boundary(notes) == j
  {
    if |notes| > 1 && !notes[|notes| - 1].blank {
      BoundaryIs(notes[..|notes| - 1], j);
    }
  }

  lemma {:induction false} TrailingIs(pend: seq<Comment>, line: nat, n: nat)
    requires n <= |pend| && (n < |pend| ==> pend[n].line != line)
    requires forall i :: 0 <= i < n ==> pend[i].line == line
    ensures TrailingCount(pend, line) == n
  {
    if n > 0 {
      TrailingIs(pend[1..], line, n - 1);
    }
  }
}
