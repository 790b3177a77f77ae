/**
 The masking lexer of the sibling-guard mutator: an in-place pass over a character buffer that
 blanks string literals, character literals and comments, and the brace matcher that runs on its
 result.

 `MaskInPlace` and `ClosingBrace` have the lexer's loops.  `Mask` is the function they are
 proved against, and `Token` is an independent account of the same text: a source is a sequence of
 plain characters, comments and literals, and masking keeps exactly the plain characters.
 */
module JavaMask {
  import opened Wrappers

  datatype State = Code | Line | Block | Quoted(delimiter: char)

  predicate IsQuote(c: char) { c == '"' || c == '\'' }

  // What an overwritten character becomes: newlines survive so that line numbers do.
  function Blank(c: char): char { if c == '\n' then c else ' ' }

  function Blanked(s: string): (r: string)
    ensures |r| == |s|
    ensures forall i :: 0 <= i < |s| ==> r[i] == Blank(s[i])
  {
    seq(|s|, i requires 0 <= i < |s| => Blank(s[i]))
  }

  // The character after the first one, if there is one.
  function Peek(s: string): Option<char> { if |s| >= 2 then Some(s[1]) else None }

  function Ahead(s: string, i: nat): Option<char> { if i + 1 < |s| then Some(s[i + 1]) else None }

  predicate Opens(c: char, next: Option<char>) { c == '/' && (next == Some('/') || next == Some('*')) }

  predicate Opener(s: string) { s != [] && Opens(s[0], Peek(s)) }

  // How many characters one turn of the lexer consumes in a state.
  function Width(c: char, next: Option<char>, state: State): (n: nat)
    ensures 1 <= n <= if next.Some? then 2 else 1
  {
    match state
    case Code => if Opens(c, next) then 2 else 1
    case Line => 1
    case Block => if c == '*' && next == Some('/') then 2 else 1
    case Quoted(_) => if c == '\\' && next.Some? then 2 else 1
  }

  function After(c: char, next: Option<char>, state: State): State
  {
    match state
    case Code =>
      if Opens(c, next) then (if next == Some('/') then Line else Block)
      else if IsQuote(c) then Quoted(c)
      else Code
    case Line => if c == '\n' then Code else Line
    case Block => if c == '*' && next == Some('/') then Code else Block
    case Quoted(q) => if c == q && !(c == '\\' && next.Some?) then Code else state
  }

  predicate Kept(c: char, next: Option<char>, state: State)
  {
    state == Code && !Opens(c, next) && !IsQuote(c)
  }

  function Mask(s: string, state: State): (r: string)
    ensures |r| == |s|
  {
    if s == [] then []
    else
      var n := Width(s[0], Peek(s), state);
      (if Kept(s[0], Peek(s), state) then s[..n] else Blanked(s[..n])) + Mask(s[n..], After(s[0], Peek(s), state))
  }

  // --- the loops over the text ---------------------------------------------------------------

  // One turn of the lexer, seen from the finished text `result` of which `s[i..]` still has to be masked.
  lemma Turn(result: string, s: string, i: nat, state: State)
    requires i < |s| == |result| && result[i..] == Mask(s[i..], state)
    ensures var next := Ahead(s, i);
            var n := Width(s[i], next, state);
            && result[i + n..] == Mask(s[i + n..], After(s[i], next, state))
            && result[i] == (if Kept(s[i], next, state) then s[i] else Blank(s[i]))
            && (n == 2 ==> result[i + 1] == Blank(s[i + 1]))
  {
    var rest, next := s[i..], Ahead(s, i);
    var n := Width(s[i], next, state);
    assert rest[0] == s[i] && Peek(rest) == next;
    var piece := if Kept(rest[0], next, state) then rest[..n] else Blanked(rest[..n]);
    assert s[i + n..] == rest[n..];
    assert result[i..] == piece + Mask(rest[n..], After(rest[0], next, state));
    assert result[i + n..] == result[i..][n..];
    assert result[i] == result[i..][0] == piece[0];
    if n == 2 {
      assert result[i + 1] == result[i..][1] == piece[1];
    }
  }

  // The body of the loop below: look at one or two characters, overwrite them, move on.
  method LexOnce(chars: array<char>, index: nat, state: State) returns (index': nat, state': State)
    requires index < chars.Length
    modifies chars
    ensures var c, next := old(chars[index]), Ahead(old(chars[..]), index);
            && index' == index + Width(c, next, state) && state' == After(c, next, state)
            && chars[index] == (if Kept(c, next, state) then c else Blank(c))
            && (index' == index + 2 ==>
                  index + 1 < chars.Length && chars[index + 1] == Blank(old(chars[..])[index + 1]))
    ensures forall k :: 0 <= k < chars.Length && !(index <= k < index') ==> chars[k] == old(chars[k])
  {
    index', state' := index + 1, state;
    var ch := chars[index];
    var next := if index + 1 < chars.Length then Some(chars[index + 1]) else None;
    if state == Code {
      if ch == '/' && next == Some('/') {
        chars[index] := ' ';
        chars[index + 1] := ' ';
        index', state' := index + 2, Line;
      } else if ch == '/' && next == Some('*') {
        chars[index] := ' ';
        chars[index + 1] := ' ';
        index', state' := index + 2, Block;
      } else if ch == '"' || ch == '\'' {
        state' := Quoted(ch);
        chars[index] := ' ';
      }
    } else if state == Line {
      if ch == '\n' {
        state' := Code;
      } else {
        chars[index] := ' ';
      }
    } else if state == Block {
      if ch == '*' && next == Some('/') {
        chars[index] := ' ';
        chars[index + 1] := ' ';
        index', state' := index + 2, Code;
      } else if ch != '\n' {
        chars[index] := ' ';
      }
    } else if ch == '\\' && next.Some? {
      if ch != '\n' {
        chars[index] := ' ';
      }
      if next != Some('\n') {
        chars[index + 1] := ' ';
      }
      index' := index + 2;
    } else {
      if ch == state.delimiter {
        state' := Code;
      }
      if ch != '\n' {
        chars[index] := ' ';
      }
    }
  }

  // The text is finished up to `index`, and untouched from there.
  ghost predicate Finished(text: string, was: string, result: string, index: nat)
  {
    |text| == |was| == |result| && index <= |was| &&
    (forall k :: 0 <= k < index ==> text[k] == result[k]) && (forall k :: index <= k < |was| ==> text[k] == was[k])
  }

  lemma FinishedNext(text: string, next: string, was: string, result: string, index: nat, index': nat)
    requires Finished(text, was, result, index) && |next| == |text| && index < index' <= index + 2 && index' <= |was|
    requires forall k :: 0 <= k < |text| && !(index <= k < index') ==> next[k] == text[k]
    requires next[index] == result[index] && (index' == index + 2 ==> next[index + 1] == result[index + 1])
    ensures Finished(next, was, result, index')
  {
  }

  method MaskInPlace(chars: array<char>)
    modifies chars
    ensures chars[..] == Mask(old(chars[..]), Code)
  {
    var state := Code;
    var index := 0;
    ghost var was := chars[..];
    ghost var result := Mask(was, Code);
    assert was[0..] == was && result[0..] == result;
    while index < chars.Length
      invariant Finished(chars[..], was, result, index)
      invariant result[index..] == Mask(was[index..], state)
      decreases chars.Length - index
    {
      ghost var text, at := chars[..], index;
      Turn(result, was, index, state);
      assert Ahead(text, index) == Ahead(was, index);
      index, state := LexOnce(chars, index, state);
      FinishedNext(text, chars[..], was, result, at, index);
    }
    assert chars[..] == result;
  }

  // --- what masking keeps and what it leaves ---------------------------------------------------

  // No quote and no comment opener.
  ghost predicate Clean(s: string)
  {
    && (forall i :: 0 <= i < |s| ==> !IsQuote(s[i]))
    && (forall i :: 0 <= i < |s| - 1 ==> !(s[i] == '/' && (s[i + 1] == '/' || s[i + 1] == '*')))
  }

  lemma {:induction false} MaskOnlyBlanks(s: string, state: State)
    ensures forall i :: 0 <= i < |s| ==> Mask(s, state)[i] == s[i] || (Mask(s, state)[i] == ' ' && s[i] != '\n')
    ensures forall i :: 0 <= i < |s| ==> (Mask(s, state)[i] == '\n' <==> s[i] == '\n')
    decreases |s|
  {
    if s != [] {
      var n := Width(s[0], Peek(s), state);
      MaskOnlyBlanks(s[n..], After(s[0], Peek(s), state));
      forall i | 0 <= i < |s|
        ensures Mask(s, state)[i] == s[i] || (Mask(s, state)[i] == ' ' && s[i] != '\n')
      {
        if i >= n {
          assert Mask(s, state)[i] == Mask(s[n..], After(s[0], Peek(s), state))[i - n];
          assert s[n..][i - n] == s[i];
        }
      }
    }
  }

  lemma {:induction false} MaskLeavesNoOpener(s: string, state: State)
    requires state.Quoted? ==> IsQuote(state.delimiter)
    ensures Clean(Mask(s, state))
    decreases |s|
  {
    if s != [] {
      var n, next := Width(s[0], Peek(s), state), After(s[0], Peek(s), state);
      var tail := Mask(s[n..], next);
      MaskLeavesNoOpener(s[n..], next);
      MaskOnlyBlanks(s[n..], next);
      var r := Mask(s, state);
      assert forall i :: n <= i < |s| ==> r[i] == tail[i - n];
      assert tail != [] ==> tail[0] == s[n] || tail[0] == ' ';
      forall i | 0 <= i < |s| - 1
        ensures !(r[i] == '/' && (r[i + 1] == '/' || r[i + 1] == '*'))
      {
        if i >= n {
          assert r[i] == tail[i - n] && r[i + 1] == tail[i + 1 - n];
        }
      }
    }
  }

  lemma {:induction false} MaskFixesCleanText(s: string)
    requires Clean(s)
    ensures Mask(s, Code) == s
    decreases |s|
  {
    if s != [] {
      assert !Opener(s) by { if |s| >= 2 { assert !(s[0] == '/' && (s[0 + 1] == '/' || s[0 + 1] == '*')); } }
      assert Clean(s[1..]) by {
        forall i | 0 <= i < |s[1..]| - 1
          ensures !(s[1..][i] == '/' && (s[1..][i + 1] == '/' || s[1..][i + 1] == '*'))
        {
          assert s[1..][i] == s[i + 1] && s[1..][i + 1] == s[(i + 1) + 1];
        }
      }
      MaskFixesCleanText(s[1..]);
      assert s == s[..1] + s[1..];
    }
  }

  // Masking twice is masking once.
  lemma MaskIsIdempotent(s: string)
    ensures Mask(Mask(s, Code), Code) == Mask(s, Code)
  {
    MaskLeavesNoOpener(s, Code);
    MaskFixesCleanText(Mask(s, Code));
  }

  // --- an independent account of the text ------------------------------------------------------

  datatype Item = Raw(c: char) | Escaped(c: char)

  datatype Token =
    | Plain(c: char)
    | LineComment(body: string)
    | BlockComment(body: string)
    | Literal(delimiter: char, items: seq<Item>)

  // How a source may stop: after a whole token, or inside a comment or literal.
  datatype Tail =
    | Closed
    | OpenLine(body: string)
    | OpenBlock(body: string)
    | OpenLiteral(delimiter: char, items: seq<Item>, dangling: bool)

  function ItemText(item: Item): string { match item case Raw(c) => [c] case Escaped(c) => ['\\', c] }

  function ItemsText(items: seq<Item>): string
  {
    if items == [] then [] else ItemText(items[0]) + ItemsText(items[1..])
  }

  function Text(t: Token): (s: string)
    ensures s != []
  {
    match t
    case Plain(c) => [c]
    case LineComment(body) => "//" + body + "\n"
    case BlockComment(body) => "/*" + body + "*/"
    case Literal(q, items) => [q] + ItemsText(items) + [q]
  }

  function TailText(t: Tail): string
  {
    match t
    case Closed => []
    case OpenLine(body) => "//" + body
    case OpenBlock(body) => "/*" + body
    case OpenLiteral(q, items, dangling) => [q] + ItemsText(items) + if dangling then "\\" else ""
  }

  function Render(tokens: seq<Token>, tail: Tail): string
  {
    if tokens == [] then TailText(tail) else Text(tokens[0]) + Render(tokens[1..], tail)
  }

  ghost predicate ItemsFit(q: char, items: seq<Item>)
  {
    IsQuote(q) && forall i :: 0 <= i < |items| ==> (items[i].Raw? ==> items[i].c != q && items[i].c != '\\')
  }

  ghost predicate NoBlockEnd(body: string)
  {
    forall i :: 0 <= i < |body| - 1 ==> !(body[i] == '*' && body[i + 1] == '/')
  }

  ghost predicate Fits(t: Token)
  {
    match t
    case Plain(c) => !IsQuote(c)
    case LineComment(body) => '\n' !in body
    case BlockComment(body) => NoBlockEnd(body)
    case Literal(q, items) => ItemsFit(q, items)
  }

  ghost predicate TailFits(t: Tail)
  {
    match t
    case Closed => true
    case OpenLine(body) => '\n' !in body
    case OpenBlock(body) => NoBlockEnd(body)
    case OpenLiteral(q, items, _) => ItemsFit(q, items)
  }

  // The tokens read left to right, a plain slash never followed by text that would open a comment.
  ghost predicate WellFormed(tokens: seq<Token>, tail: Tail)
  {
    if tokens == [] then TailFits(tail)
    else
      && Fits(tokens[0])
      && (tokens[0].Plain? ==> !Opener(Render(tokens, tail)))
      && WellFormed(tokens[1..], tail)
  }

  // What the mask must be: plain characters where they stood, everything else blank.
  function KeepPlain(tokens: seq<Token>, tail: Tail): string
  {
    if tokens == [] then Blanked(TailText(tail))
    else (if tokens[0].Plain? then Text(tokens[0]) else Blanked(Text(tokens[0]))) + KeepPlain(tokens[1..], tail)
  }

  lemma BlankedConcat(a: string, b: string)
    ensures Blanked(a + b) == Blanked(a) + Blanked(b)
  {
  }

  // One unkept turn of the lexer over `head`, with `rest` after it.
  lemma MaskTurn(head: string, rest: string, state: State)
    requires head != [] && Width(head[0], Peek(head + rest), state) == |head| &&
      !Kept(head[0], Peek(head + rest), state)
    ensures Mask(head + rest, state) == Blanked(head) + Mask(rest, After(head[0], Peek(head + rest), state))
  {
    assert (head + rest)[..|head|] == head && (head + rest)[|head|..] == rest;
  }

  lemma {:induction false} MaskLineBody(body: string, rest: string)
    requires '\n' !in body
    ensures Mask(body + rest, Line) == Blanked(body) + Mask(rest, Line)
    decreases |body|
  {
    if body == [] {
      assert body + rest == rest;
    } else {
      var head, more := body[..1], body[1..];
      assert body == head + more && body + rest == head + (more + rest) && head[0] in body;
      MaskTurn(head, more + rest, Line);
      MaskLineBody(more, rest);
      BlankedConcat(head, more);
      AppendAssociates(Blanked(head), Blanked(more), Mask(rest, Line));
    }
  }

  lemma AppendAssociates(a: string, b: string, c: string)
    ensures a + (b + c) == (a + b) + c
  {
  }

  lemma {:induction false} MaskBlockBody(body: string, rest: string)
    requires NoBlockEnd(body) && !(body != [] && body[|body| - 1] == '*' && rest != [] && rest[0] == '/')
    ensures Mask(body + rest, Block) == Blanked(body) + Mask(rest, Block)
    decreases |body|
  {
    if body == [] {
      assert body + rest == rest;
    } else {
      var head, more := body[..1], body[1..];
      assert body == head + more && body + rest == head + (more + rest);
      NoBlockEndTail(body);
      assert !(body[0] == '*' && Peek(body + rest) == Some('/'));
      MaskTurn(head, more + rest, Block);
      MaskBlockBody(more, rest);
      BlankedConcat(head, more);
      AppendAssociates(Blanked(head), Blanked(more), Mask(rest, Block));
    }
  }

  lemma NoBlockEndTail(body: string)
    requires body != [] && NoBlockEnd(body)
    ensures NoBlockEnd(body[1..]) && (|body| >= 2 ==> !(body[0] == '*' && body[1] == '/'))
  {
    assert |body| >= 2 ==> !(body[0] == '*' && body[0 + 1] == '/');
    forall i | 0 <= i < |body[1..]| - 1
      ensures !(body[1..][i] == '*' && body[1..][i + 1] == '/')
    {
      assert body[1..][i] == body[i + 1] && body[1..][i + 1] == body[(i + 1) + 1];
    }
  }

  lemma {:induction false} MaskItems(q: char, items: seq<Item>, rest: string)
    requires ItemsFit(q, items)
    ensures Mask(ItemsText(items) + rest, Quoted(q)) == Blanked(ItemsText(items)) + Mask(rest, Quoted(q))
    decreases |items|
  {
    if items == [] {
      assert ItemsText(items) + rest == rest;
    } else {
      var head, more := ItemText(items[0]), ItemsText(items[1..]);
      AppendAssociates(head, more, rest);
      MaskItem(q, items[0], more + rest);
      MaskItems(q, items[1..], rest);
      BlankedConcat(head, more);
      AppendAssociates(Blanked(head), Blanked(more), Mask(rest, Quoted(q)));
    }
  }

  lemma MaskItem(q: char, item: Item, rest: string)
    requires ItemsFit(q, [item])
    ensures Mask(ItemText(item) + rest, Quoted(q)) == Blanked(ItemText(item)) + Mask(rest, Quoted(q))
  {
    assert [item][0] == item;
    MaskTurn(ItemText(item), rest, Quoted(q));
  }

  // A token with an opening, a body and a closing, each masked in turn.
  lemma MaskThree(open: string, body: string, close: string, whole: string, second: string, third: string, rest: string)
    requires whole == Blanked(open) + second && second == Blanked(body) + third && third == Blanked(close) + rest
    ensures whole == Blanked(open + body + close) + rest
  {
    BlankThree(open, body, close);
    Assemble(Blanked(open), Blanked(body), Blanked(close), rest);
  }

  lemma Assemble(a: string, b: string, c: string, rest: string)
    ensures a + (b + (c + rest)) == (a + (b + c)) + rest
    ensures a + (b + (c + rest)) == a + b + c + rest
  {
  }

  lemma BlankThree(open: string, body: string, close: string)
    ensures Blanked(open + body + close) == Blanked(open) + (Blanked(body) + Blanked(close))
  {
    BlankedConcat(open + body, close);
    BlankedConcat(open, body);
    AppendAssociates(Blanked(open), Blanked(body), Blanked(close));
  }

  lemma MaskOneToken(t: Token, rest: string)
    requires Fits(t) && (t.Plain? ==> !Opener(Text(t) + rest))
    ensures Mask(Text(t) + rest, Code) == (if t.Plain? then Text(t) else Blanked(Text(t))) + Mask(rest, Code)
  {
    match t
    case Plain(c) =>
      assert (Text(t) + rest)[..1] == Text(t) && (Text(t) + rest)[1..] == rest;
    case LineComment(body) =>
      MaskTurn("//", body + ("\n" + rest), Code);
      MaskLineBody(body, "\n" + rest);
      MaskTurn("\n", rest, Line);
      Assemble("//", body, "\n", rest);
      MaskThree("//", body, "\n", Mask(Text(t) + rest, Code), Mask(body + ("\n" + rest), Line),
        Mask("\n" + rest, Line), Mask(rest, Code));
    case BlockComment(body) =>
      MaskTurn("/*", body + ("*/" + rest), Code);
      MaskBlockBody(body, "*/" + rest);
      MaskTurn("*/", rest, Block);
      Assemble("/*", body, "*/", rest);
      MaskThree("/*", body, "*/", Mask(Text(t) + rest, Code), Mask(body + ("*/" + rest), Block),
        Mask("*/" + rest, Block), Mask(rest, Code));
    case Literal(q, items) =>
      MaskLiteral(q, items, rest);
  }

  lemma MaskLiteral(q: char, items: seq<Item>, rest: string)
    requires ItemsFit(q, items)
    ensures Mask([q] + ItemsText(items) + [q] + rest, Code) == Blanked([q] + ItemsText(items) + [q]) + Mask(rest, Code)
  {
    var inner := ItemsText(items);
    MaskTurn([q], inner + ([q] + rest), Code);
    MaskItems(q, items, [q] + rest);
    MaskTurn([q], rest, Quoted(q));
    Assemble([q], inner, [q], rest);
    MaskThree([q], inner, [q], Mask([q] + inner + [q] + rest, Code), Mask(inner + ([q] + rest), Quoted(q)),
      Mask([q] + rest, Quoted(q)), Mask(rest, Code));
  }

  lemma MaskTail(tail: Tail)
    requires TailFits(tail)
    ensures Mask(TailText(tail), Code) == Blanked(TailText(tail))
  {
    match tail
    case Closed =>
    case OpenLine(body) =>
      MaskTurn("//", body, Code);
      MaskLineBody(body, []);
      assert body + [] == body;
      BlankedConcat("//", body);
    case OpenBlock(body) =>
      MaskTurn("/*", body, Code);
      MaskBlockBody(body, []);
      assert body + [] == body;
      BlankedConcat("/*", body);
    case OpenLiteral(q, items, dangling) =>
      var last := if dangling then "\\" else "";
      assert TailText(tail) == [q] + (ItemsText(items) + last);
      MaskOpenLiteral(q, items, last);
  }

  lemma MaskOpenLiteral(q: char, items: seq<Item>, last: string)
    requires ItemsFit(q, items) && (last == "\\" || last == "")
    ensures Mask([q] + (ItemsText(items) + last), Code) == Blanked([q] + (ItemsText(items) + last))
  {
    var inner := ItemsText(items);
    MaskTurn([q], inner + last, Code);
    MaskItems(q, items, last);
    MaskEnd(q, last);
    BlankedConcat([q], inner + last);
    BlankedConcat(inner, last);
  }

  lemma MaskEnd(q: char, last: string)
    requires last == "\\" || last == ""
    ensures Mask(last, Quoted(q)) == Blanked(last)
  {
    if last != "" {
      assert last == "\\" + [];
      MaskTurn("\\", [], Quoted(q));
    }
  }

  // Masking a rendered token sequence keeps the plain characters and blanks the rest.
  lemma {:induction false} MaskKeepsPlainTokens(tokens: seq<Token>, tail: Tail)
    requires WellFormed(tokens, tail)
    ensures Mask(Render(tokens, tail), Code) == KeepPlain(tokens, tail)
    decreases |tokens|
  {
    if tokens == [] {
      MaskTail(tail);
    } else {
      MaskOneToken(tokens[0], Render(tokens[1..], tail));
      MaskKeepsPlainTokens(tokens[1..], tail);
    }
  }

  // Scanning to the end of a literal: the items up to the closing delimiter, or to the end.
  lemma {:induction false} SplitLiteral(q: char, s: string)
    returns (items: seq<Item>, closed: bool, dangling: bool, rest: string)
    requires IsQuote(q)
    ensures ItemsFit(q, items)
    ensures closed ==> s == ItemsText(items) + [q] + rest
    ensures !closed ==> rest == [] && s == ItemsText(items) + if dangling then "\\" else ""
    decreases |s|
  {
    if s == [] {
      items, closed, dangling, rest := [], false, false, [];
    } else if s == "\\" {
      items, closed, dangling, rest := [], false, true, [];
    } else if s[0] == q {
      items, closed, dangling, rest := [], true, false, s[1..];
      assert s == ItemsText([]) + [q] + rest;
    } else {
      var item := if s[0] == '\\' then Escaped(s[1]) else Raw(s[0]);
      var n := |ItemText(item)|;
      var more;
      more, closed, dangling, rest := SplitLiteral(q, s[n..]);
      items := [item] + more;
      assert items[1..] == more;
      assert s == ItemText(item) + s[n..];
      assert ItemsText(items) == ItemText(item) + ItemsText(more);
    }
  }

  lemma {:induction false} SplitLine(s: string) returns (body: string, closed: bool, rest: string)
    ensures '\n' !in body
    ensures closed ==> s == body + "\n" + rest
    ensures !closed ==> s == body
    decreases |s|
  {
    if s == [] || s[0] == '\n' {
      body, closed, rest := [], s != [], if s == [] then [] else s[1..];
    } else {
      body, closed, rest := SplitLine(s[1..]);
      body := [s[0]] + body;
    }
  }

  lemma {:induction false} SplitBlock(s: string) returns (body: string, closed: bool, rest: string)
    ensures NoBlockEnd(body)
    ensures closed ==> s == body + "*/" + rest
    ensures !closed ==> s == body
    decreases |s|
  {
    if |s| >= 2 && s[0] == '*' && s[1] == '/' {
      body, closed, rest := [], true, s[2..];
    } else if s == [] {
      body, closed, rest := [], false, [];
    } else {
      var inner;
      inner, closed, rest := SplitBlock(s[1..]);
      body := [s[0]] + inner;
      assert s[1..] == if closed then inner + "*/" + rest else inner;
      forall i | 0 <= i < |body| - 1
        ensures !(body[i] == '*' && body[i + 1] == '/')
      {
        if i == 0 {
          assert body[1] == inner[0] == s[1];
        } else {
          assert body[i] == inner[i - 1] && body[i + 1] == inner[(i - 1) + 1];
        }
      }
    }
  }

  // The first token of a source in which it is whole, or the tail that the source is.
  lemma FirstToken(s: string) returns (token: Token, open: Tail, rest: string)
    requires s != []
    ensures open == Closed ==> Fits(token) && (token.Plain? ==> !Opener(s)) && s == Text(token) + rest
    ensures open != Closed ==> TailFits(open) && s == TailText(open)
  {
    if Opener(s) && s[1] == '/' {
      var body, closed;
      body, closed, rest := SplitLine(s[2..]);
      token, open := LineComment(body), if closed then Closed else OpenLine(body);
      assert s == "//" + s[2..];
    } else if Opener(s) {
      var body, closed;
      body, closed, rest := SplitBlock(s[2..]);
      token, open := BlockComment(body), if closed then Closed else OpenBlock(body);
      assert s == "/*" + s[2..];
    } else if IsQuote(s[0]) {
      var items, closed, dangling;
      items, closed, dangling, rest := SplitLiteral(s[0], s[1..]);
      token, open := Literal(s[0], items), if closed then Closed else OpenLiteral(s[0], items, dangling);
      assert s == [s[0]] + s[1..];
    } else {
      token, open, rest := Plain(s[0]), Closed, s[1..];
    }
  }

  // Every source is a rendered token sequence, so the previous theorem says what `Mask` is on every input.
  lemma {:induction false} EverySourceHasTokens(s: string) returns (tokens: seq<Token>, tail: Tail)
    ensures WellFormed(tokens, tail) && Render(tokens, tail) == s
    decreases |s|
  {
    tokens, tail := [], Closed;
    if s != [] {
      var token, open, rest := FirstToken(s);
      if open != Closed {
        tail := open;
      } else {
        var more;
        more, tail := EverySourceHasTokens(rest);
        tokens := [token] + more;
        assert tokens[1..] == more;
      }
    }
  }

  // The characterisation of the in-place pass on every buffer.
  lemma MaskMeaning(s: string) returns (tokens: seq<Token>, tail: Tail)
    ensures WellFormed(tokens, tail) && Render(tokens, tail) == s
    ensures Mask(s, Code) == KeepPlain(tokens, tail)
  {
    tokens, tail := EverySourceHasTokens(s);
    MaskKeepsPlainTokens(tokens, tail);
  }

  // --- brace matching --------------------------------------------------------------------------

  function Weight(c: char): int { if c == '{' then 1 else if c == '}' then -1 else 0 }

  function Balance(s: string): int
  {
    if s == [] then 0 else Balance(s[..|s| - 1]) + Weight(s[|s| - 1])
  }

  // The braces opened from `open` on are all closed by the brace at `i`.
  ghost predicate ClosesAt(s: string, open: nat, i: nat)
  {
    open <= i < |s| && s[i] == '}' && Balance(s[open..i + 1]) == 0
  }

  ghost predicate FirstClose(s: string, open: nat, i: nat)
  {
    ClosesAt(s, open, i) && forall j :: open <= j < i ==> !ClosesAt(s, open, j)
  }

  lemma BalanceStep(s: string, open: nat, i: nat)
    requires open <= i < |s|
    ensures Balance(s[open..i + 1]) == Balance(s[open..i]) + Weight(s[i])
  {
    assert s[open..i + 1][..i - open] == s[open..i];
  }

  method ClosingBrace(masked: string, open: nat) returns (found: Option<nat>)
    requires open <= |masked|
    ensures found.Some? ==> FirstClose(masked, open, found.value)
    ensures found.None? ==> forall j :: open <= j < |masked| ==> !ClosesAt(masked, open, j)
  {
    var depth := 0;
    for index := open to |masked|
      invariant depth == Balance(masked[open..index])
      invariant forall j :: open <= j < index ==> !ClosesAt(masked, open, j)
    {
      BalanceStep(masked, open, index);
      var c := masked[index];
      if c == '{' {
        depth := depth + 1;
      } else if c == '}' {
        depth := depth - 1;
        if depth == 0 {
          return Some(index);
        }
      }
    }
    return None;
  }

  // The words in which every brace has its partner, as trees.
  datatype Nest = Empty | Other(c: char, rest: Nest) | Braces(inner: Nest, rest: Nest)

  function Word(n: Nest): string
  {
    match n
    case Empty => []
    case Other(c, rest) => [c] + Word(rest)
    case Braces(inner, rest) => "{" + Word(inner) + "}" + Word(rest)
  }

  ghost predicate Nested(n: Nest)
  {
    match n
    case Empty => true
    case Other(c, rest) => Weight(c) == 0 && Nested(rest)
    case Braces(inner, rest) => Nested(inner) && Nested(rest)
  }

  lemma {:induction false} BalanceConcat(a: string, b: string)
    ensures Balance(a + b) == Balance(a) + Balance(b)
    decreases |b|
  {
    if b == [] {
      assert a + b == a;
    } else {
      var n := |b| - 1;
      assert (a + b)[..|a + b| - 1] == a + b[..n];
      BalanceConcat(a, b[..n]);
    }
  }

  lemma BalanceOne(c: char)
    ensures Balance([c]) == Weight(c)
  {
    assert [c][..0] == [];
  }

  // No prefix closes more than it opens.
  ghost predicate NeverBelow(s: string)
  {
    forall k :: 0 <= k <= |s| ==> Balance(s[..k]) >= 0
  }

  lemma NeverBelowConcat(a: string, b: string)
    requires NeverBelow(a) && Balance(a) == 0 && NeverBelow(b)
    ensures NeverBelow(a + b)
  {
    forall k | 0 <= k <= |a + b|
      ensures Balance((a + b)[..k]) >= 0
    {
      if k <= |a| {
        assert (a + b)[..k] == a[..k];
      } else {
        assert (a + b)[..k] == a + b[..k - |a|];
        BalanceConcat(a, b[..k - |a|]);
      }
    }
  }

  lemma BracedBalance(w: string)
    requires Balance(w) == 0 && NeverBelow(w)
    ensures Balance("{" + w + "}") == 0 && NeverBelow("{" + w + "}")
    ensures forall k :: 0 < k < |w| + 2 ==> Balance(("{" + w + "}")[..k]) >= 1
  {
    var s := "{" + w + "}";
    BalanceOne('{');
    BalanceOne('}');
    BalanceConcat("{", w);
    BalanceConcat("{" + w, "}");
    forall k | 0 < k < |w| + 2
      ensures Balance(s[..k]) >= 1
    {
      assert s[..k] == "{" + w[..k - 1];
      BalanceConcat("{", w[..k - 1]);
    }
    assert s[..|w| + 2] == s;
    assert s[..0] == [];
  }

  lemma {:induction false} WordsBalance(n: Nest)
    requires Nested(n)
    ensures Balance(Word(n)) == 0 && NeverBelow(Word(n))
  {
    match n
    case Empty =>
    case Other(c, rest) =>
      WordsBalance(rest);
      BalanceOne(c);
      assert forall k :: 0 <= k <= 1 ==> [c][..k] == (if k == 0 then [] else [c]);
      NeverBelowConcat([c], Word(rest));
      BalanceConcat([c], Word(rest));
    case Braces(inner, rest) =>
      WordsBalance(inner);
      WordsBalance(rest);
      BracedBalance(Word(inner));
      NeverBelowConcat("{" + Word(inner) + "}", Word(rest));
      BalanceConcat("{" + Word(inner) + "}", Word(rest));
  }

  // A braced word is closed by its own last brace, whatever stands around it.
  lemma NestedWordCloses(before: string, inner: Nest, rest: string)
    requires Nested(inner)
    ensures FirstClose(before + ("{" + Word(inner) + "}") + rest, |before|, |before| + |Word(inner)| + 1)
  {
    WordsBalance(inner);
    BracedBalance(Word(inner));
    var w, open := "{" + Word(inner) + "}", |before|;
    var s := before + w + rest;
    assert s[open..open + |w| - 1 + 1] == w;
    assert s[open + |w| - 1] == w[|w| - 1] == '}';
    forall j | open <= j < open + |w| - 1
      ensures !ClosesAt(s, open, j)
    {
      assert s[open..j + 1] == w[..j + 1 - open];
    }
  }

  // Before the first close every prefix is still open.
  lemma {:induction false} OpenUntilClosed(s: string, open: nat, i: nat, j: nat)
    requires open < |s| && s[open] == '{' && FirstClose(s, open, i) && open <= j < i
    ensures Balance(s[open..j + 1]) >= 1
    decreases j
  {
    BalanceStep(s, open, j);
    if j == open {
      assert s[open..open] == [];
    } else {
      OpenUntilClosed(s, open, i, j - 1);
      assert s[open..j - 1 + 1] == s[open..j];
      assert !ClosesAt(s, open, j);
    }
  }

  // The first place where a word that starts with an open brace comes back to balance.
  lemma FirstReturn(w: string) returns (i: nat)
    requires w != [] && w[0] == '{' && NeverBelow(w) && Balance(w) == 0
    ensures FirstClose(w, 0, i)
  {
    i := 0;
    assert w[..1] == ['{'];
    BalanceOne('{');
    while Balance(w[..i + 1]) != 0
      invariant i < |w|
      invariant forall j :: 0 <= j < i ==> !ClosesAt(w, 0, j)
      invariant i > 0 ==> Balance(w[..i]) > 0
      decreases |w| - i
    {
      assert Balance(w[..i + 1]) >= 0;
      assert w[..|w|] == w;
      assert i + 1 < |w|;
      assert w[0..i + 1] == w[..i + 1];
      i := i + 1;
    }
    BalanceStep(w, 0, i);
    assert w[0..i] == w[..i] && w[0..i + 1] == w[..i + 1];
  }

  // Every word that comes back to balance without going below it is a nested word.
  lemma {:induction false} BalancedWordsNest(w: string) returns (n: Nest)
    requires Balance(w) == 0 && NeverBelow(w)
    ensures Nested(n) && Word(n) == w
    decreases |w|
  {
    if w == [] {
      n := Empty;
    } else if w[0] == '{' {
      var i := FirstReturn(w);
      var inner, rest := w[1..i], w[i + 1..];
      var braced := w[0..i + 1];
      assert w == braced + rest;
      FirstCloseInside(w, 0, i);
      BalanceConcat(braced, rest);
      NeverBelowSuffix(braced, rest);
      var a := BalancedWordsNest(inner);
      var b := BalancedWordsNest(rest);
      n := Braces(a, b);
    } else {
      var head, rest := w[..1], w[1..];
      assert w == head + rest && head == [w[0]];
      BalanceOne(w[0]);
      assert Balance(w[..1]) >= 0;
      BalanceConcat(head, rest);
      NeverBelowSuffix(head, rest);
      var b := BalancedWordsNest(rest);
      n := Other(w[0], b);
    }
  }

  // What stands between an open brace and its first close is balanced and never below zero.
  lemma FirstCloseInside(s: string, open: nat, i: nat)
    requires open < |s| && s[open] == '{' && FirstClose(s, open, i)
    ensures open < i && s[open..i + 1] == "{" + s[open + 1..i] + "}"
    ensures Balance(s[open + 1..i]) == 0 && NeverBelow(s[open + 1..i])
  {
    var body := s[open + 1..i];
    assert s[open..i + 1] == "{" + body + "}";
    BalanceConcat("{", body);
    BalanceConcat("{" + body, "}");
    BalanceOne('{');
    BalanceOne('}');
    forall k | 0 <= k <= |body|
      ensures Balance(body[..k]) >= 0
    {
      OpenUntilClosed(s, open, i, open + k);
      assert s[open..open + k + 1] == "{" + body[..k];
      BalanceConcat("{", body[..k]);
    }
  }

  lemma NeverBelowSuffix(a: string, b: string)
    requires NeverBelow(a + b) && Balance(a) == 0
    ensures NeverBelow(b)
  {
    forall k | 0 <= k <= |b|
      ensures Balance(b[..k]) >= 0
    {
      assert (a + b)[..|a| + k] == a + b[..k];
      BalanceConcat(a, b[..k]);
    }
  }

  // What the matcher returns on an open brace encloses a nested word: the converse of `NestedWordCloses`.
  lemma FirstCloseIsNested(s: string, open: nat, i: nat) returns (inner: Nest)
    requires open < |s| && s[open] == '{' && FirstClose(s, open, i)
    ensures Nested(inner) && s[open..i + 1] == "{" + Word(inner) + "}"
  {
    FirstCloseInside(s, open, i);
    inner := BalancedWordsNest(s[open + 1..i]);
  }
}
