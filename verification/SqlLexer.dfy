/**
 Splitting SQL text into statements: a lexer with line comments, nested block
 comments, quotes with doubled escapes, and dollar quotes. Comments become one
 space, and only a semicolon outside all of these ends a statement.
 */
module SqlLexer {
  import opened Results

  /** What `str.strip` removes. */
  predicate IsSpace(c: char) {
    || c == ' ' || '\t' <= c <= '\r' || '\U{1c}' <= c <= '\U{1f}'
    || c == '\U{85}' || c == '\U{a0}' || c == '\U{1680}' || '\U{2000}' <= c <= '\U{200a}'
    || c == '\U{2028}' || c == '\U{2029}' || c == '\U{202f}' || c == '\U{205f}' || c == '\U{3000}'
  }

  function StripLeft(s: string): string {
    if s != [] && IsSpace(s[0]) then StripLeft(s[1..]) else s
  }

  function StripRight(s: string): string {
    if s != [] && IsSpace(s[|s| - 1]) then StripRight(s[..|s| - 1]) else s
  }

  function Strip(s: string): string {
    StripRight(StripLeft(s))
  }

  predicate IdentStart(c: char) {
    'A' <= c <= 'Z' || 'a' <= c <= 'z' || c == '_'
  }

  predicate IdentChar(c: char) {
    IdentStart(c) || '0' <= c <= '9'
  }

  /** The length of the leading run of identifier characters. */
  function Run(s: string): (n: nat)
    ensures n <= |s|
  {
    if s == [] || !IdentChar(s[0]) then 0 else 1 + Run(s[1..])
  }

  lemma {:induction false} RunStops(s: string)
    ensures forall i :: 0 <= i < Run(s) ==> IdentChar(s[i])
    ensures Run(s) < |s| ==> !IdentChar(s[Run(s)])
  {
    if s != [] && IdentChar(s[0]) {
      RunStops(s[1..]);
      forall i | 0 <= i < Run(s) ensures IdentChar(s[i]) {
        assert i > 0 ==> s[i] == s[1..][i - 1];
      }
    }
  }

  /** The length of the dollar-quote tag at the start of the text, or zero. */
  function TagLength(s: string): (n: nat)
    ensures n == 0 || 2 <= n <= |s|
  {
    if s == [] || s[0] != '$' then 0
    else
      var n := Run(s[1..]);
      if 1 + n < |s| && s[1 + n] == '$' && (n == 0 || IdentStart(s[1])) then n + 2 else 0
  }

  datatype Mode = Plain | Line | Block(depth: nat) | Dollar(tag: string) | Quote(mark: char)

  predicate IsQuote(c: char) {
    c == '\'' || c == '"'
  }

  /** Modes the lexer can be in: tags are well-formed and marks are quote characters. */
  predicate GoodMode(mode: Mode) {
    match mode
    case Block(depth) => 1 <= depth
    case Dollar(tag) => 2 <= |tag| && TagLength(tag) == |tag|
    case Quote(mark) => IsQuote(mark)
    case _ => true
  }

  /** A mode in which the text may not end. */
  predicate Open(mode: Mode) {
    mode.Block? || mode.Dollar? || mode.Quote?
  }

  predicate StartsWith(s: string, prefix: string) {
    prefix <= s
  }

  datatype Move = Cut | Emit(text: string, used: nat, next: Mode)

  /** One step of the lexer on the remaining text. */
  function Step(s: string, mode: Mode): (m: Move)
    requires s != [] && GoodMode(mode)
    ensures m.Emit? ==> 1 <= m.used <= |s| && |m.text| <= m.used && GoodMode(m.next)
  {
    var c := s[0];
    match mode
    case Line => if c == '\r' || c == '\n' then Emit(" ", 1, Plain) else Emit("", 1, Line)
    case Block(depth) =>
      if StartsWith(s, "/*") then Emit("", 2, Block(depth + 1))
      else if StartsWith(s, "*/") then (if depth == 1 then Emit(" ", 2, Plain) else Emit("", 2, Block(depth - 1)))
      else Emit("", 1, mode)
    case Dollar(tag) => if StartsWith(s, tag) then Emit(tag, |tag|, Plain) else Emit([c], 1, mode)
    case Quote(mark) =>
      if c != mark then Emit([c], 1, mode)
      else if |s| > 1 && s[1] == mark then Emit([mark, mark], 2, mode)
      else Emit([mark], 1, Plain)
    case Plain =>
      if StartsWith(s, "--") then Emit("", 2, Line)
      else if StartsWith(s, "/*") then Emit("", 2, Block(1))
      else if IsQuote(c) then Emit([c], 1, Quote(c))
      else if TagLength(s) > 0 then
        TagIsItsOwn(s);
        Emit(s[..TagLength(s)], TagLength(s), Dollar(s[..TagLength(s)]))
      else if c == ';' then Cut
      else Emit([c], 1, Plain)
  }

  lemma {:induction false} RunOfPrefix(s: string, n: nat)
    requires n == Run(s)
    ensures forall k :: n <= k <= |s| ==> Run(s[..k]) == n
  {
    if s != [] && IdentChar(s[0]) {
      RunOfPrefix(s[1..], n - 1);
      forall k | n <= k <= |s| ensures Run(s[..k]) == n {
        assert s[..k][1..] == s[1..][..k - 1];
      }
    }
  }

  /** A tag cut out of the text is a tag by itself. */
  lemma TagIsItsOwn(s: string)
    requires TagLength(s) > 0
    ensures TagLength(s[..TagLength(s)]) == TagLength(s)
  {
    var n := Run(s[1..]);
    RunOfPrefix(s[1..], n);
    assert s[..n + 2][1..] == s[1..][..n + 1];
  }

  function Flush(current: string): seq<string> {
    if Strip(current) == [] then [] else [Strip(current)]
  }

  function Prepend(done: seq<string>, rest: Option<seq<string>>): Option<seq<string>> {
    if rest.None? then None else Some(done + rest.value)
  }

  lemma PrependTwice(a: seq<string>, b: seq<string>, rest: Option<seq<string>>)
    ensures Prepend(a, Prepend(b, rest)) == Prepend(a + b, rest)
    ensures Prepend([], rest) == rest
  {
    if rest.Some? {
      assert a + (b + rest.value) == a + b + rest.value;
      assert [] + rest.value == rest.value;
    }
  }

  /** The statements of the remaining text, given what the current one has collected; `None` if left open. */
  function Split(s: string, mode: Mode, current: string): Option<seq<string>>
    requires GoodMode(mode)
    decreases |s|
  {
    if s == [] then
      if Open(mode) then None else Some(Flush(current))
    else
      match Step(s, mode)
      case Cut => Prepend(Flush(current), Split(s[1..], Plain, ""))
      case Emit(text, used, next) => Split(s[used..], next, current + text)
  }

  function Statements(sql: string): Option<seq<string>> {
    Split(sql, Plain, "")
  }

  // ---- the loop ----

  /** The mode that the loop's four variables stand for. */
  function ModeOf(line: bool, depth: nat, tag: Option<string>, quote: Option<char>): Mode {
    if line then Line
    else if depth > 0 then Block(depth)
    else if tag.Some? then Dollar(tag.value)
    else if quote.Some? then Quote(quote.value)
    else Plain
  }

  /** What is done and what is left together make up the result. */
  ghost predicate Accounts(result: Option<seq<string>>, done: seq<string>, left: string, mode: Mode, current: string) {
    GoodMode(mode) && result == Prepend(done, Split(left, mode, current))
  }

  lemma AccountsAfterCut(result: Option<seq<string>>, done: seq<string>, left: string, mode: Mode, current: string)
    requires Accounts(result, done, left, mode, current) && left != "" && Step(left, mode).Cut?
    ensures Accounts(result, done + Flush(current), left[1..], Plain, "")
  {
    SplitCuts(left, mode, current, done);
  }

  lemma AccountsAfterMove(result: Option<seq<string>>, done: seq<string>, left: string, mode: Mode, current: string, m: Move)
    requires Accounts(result, done, left, mode, current) && left != "" && Step(left, mode) == m && m.Emit?
    ensures Accounts(result, done, left[m.used..], m.next, current + m.text)
  {
    SplitMoves(left, mode, current, m);
  }

  lemma AccountsAtEnd(result: Option<seq<string>>, done: seq<string>, mode: Mode, current: string)
    requires Accounts(result, done, "", mode, current)
    ensures result == if Open(mode) then None else Some(done + Flush(current))
  {
  }

  method SplitSqlStatements(sql: string) returns (result: Option<seq<string>>)
    ensures result == Statements(sql)
  {
    PrependTwice([], [], Statements(sql));
    result := SplitLoop(sql, Statements(sql));
  }

  method SplitLoop(sql: string, ghost whole: Option<seq<string>>) returns (result: Option<seq<string>>)
    requires Accounts(whole, [], sql, Plain, "")
    ensures result == whole
  {
    var statements: seq<string> := [];
    var current: string := "";
    var index := 0;
    var quote: Option<char> := None;
    var tag: Option<string> := None;
    var depth: nat := 0;
    var line := false;
    ghost var left, mode := sql, Plain;
    while index < |sql|
      invariant 0 <= index <= |sql| && left == sql[index..]
      invariant mode == ModeOf(line, depth, tag, quote)
      invariant line ==> depth == 0
      invariant line || depth > 0 ==> tag.None? && quote.None?
      invariant tag.Some? ==> quote.None?
      invariant Accounts(whole, statements, left, mode, current)
    {
      var cut, used, text;
      cut, used, text, line, depth, tag, quote := NextMove(sql[index..], line, depth, tag, quote);
      SliceOfRest(sql, index, used);
      index := index + used;
      if cut {
        AccountsAfterCut(whole, statements, left, mode, current);
        statements := Flushed(statements, current);
        current := "";
        left, mode := left[1..], Plain;
      } else {
        AccountsAfterMove(whole, statements, left, mode, current, Emit(text, used, ModeOf(line, depth, tag, quote)));
        current := current + text;
        left, mode := left[used..], ModeOf(line, depth, tag, quote);
      }
    }
    assert left == "";
    AccountsAtEnd(whole, statements, mode, current);
    if quote.Some? || tag.Some? || depth > 0 {
      return None;
    }
    statements := Flushed(statements, current);
    return Some(statements);
  }

  /** The loop body's case distinction: what one turn reads, emits and leaves the lexer in. */
  method NextMove(rest: string, line: bool, depth: nat, tag: Option<string>, quote: Option<char>)
    returns (cut: bool, used: nat, text: string, line': bool, depth': nat, tag': Option<string>, quote': Option<char>)
    requires rest != "" && GoodMode(ModeOf(line, depth, tag, quote))
    requires line ==> depth == 0
    requires line || depth > 0 ==> tag.None? && quote.None?
    requires tag.Some? ==> quote.None?
    ensures 1 <= used <= |rest|
    ensures line' ==> depth' == 0
    ensures line' || depth' > 0 ==> tag'.None? && quote'.None?
    ensures tag'.Some? ==> quote'.None?
    ensures cut ==> used == 1 && ModeOf(line', depth', tag', quote') == Plain
    ensures Step(rest, ModeOf(line, depth, tag, quote)) == if cut then Cut else Emit(text, used, ModeOf(line', depth', tag', quote'))
  {
    cut, line', depth', tag', quote' := false, line, depth, tag, quote;
    if line || depth > 0 {
      used, text, line', depth' := CommentMove(rest, line, depth);
    } else if tag.Some? {
      used, text, tag' := DollarMove(rest, tag.value);
    } else if quote.Some? {
      used, text, quote' := QuoteMove(rest, quote.value);
    } else {
      cut, used, text, line', depth', tag', quote' := PlainMove(rest);
    }
  }

  lemma SplitMoves(s: string, mode: Mode, current: string, m: Move)
    requires s != [] && GoodMode(mode) && Step(s, mode) == m && m.Emit?
    ensures Split(s, mode, current) == Split(s[m.used..], m.next, current + m.text)
  {
  }

  lemma SplitCuts(s: string, mode: Mode, current: string, statements: seq<string>)
    requires s != [] && GoodMode(mode) && Step(s, mode).Cut?
    ensures Prepend(statements, Split(s, mode, current)) == Prepend(statements + Flush(current), Split(s[1..], Plain, ""))
  {
    PrependTwice(statements, Flush(current), Split(s[1..], Plain, ""));
  }

  lemma SliceOfRest(sql: string, index: nat, k: nat)
    requires index + k <= |sql|
    ensures sql[index..][k..] == sql[index + k..]
  {
  }

  /** The part of the loop body inside a comment. */
  method CommentMove(rest: string, line: bool, depth: nat) returns (used: nat, text: string, line': bool, depth': nat)
    requires rest != "" && (line || depth > 0) && (line ==> depth == 0)
    ensures 1 <= used <= |rest|
    ensures line' ==> depth' == 0
    ensures Step(rest, ModeOf(line, depth, None, None)) == Emit(text, used, ModeOf(line', depth', None, None))
  {
    used, text, line', depth' := 1, "", line, depth;
    if line {
      if rest[0] == '\r' || rest[0] == '\n' {
        line' := false;
        text := " ";
      }
    } else if "/*" <= rest {
      depth' := depth + 1;
      used := 2;
    } else if "*/" <= rest {
      depth' := depth - 1;
      used := 2;
      if depth' == 0 {
        text := " ";
      }
    }
  }

  /** The part of the loop body inside a dollar quote. */
  method DollarMove(rest: string, tag: string) returns (used: nat, text: string, tag': Option<string>)
    requires rest != "" && GoodMode(Dollar(tag))
    ensures 1 <= used <= |rest|
    ensures tag'.Some? ==> tag'.value == tag
    ensures Step(rest, Dollar(tag)) == Emit(text, used, if tag'.Some? then Dollar(tag) else Plain)
  {
    if tag <= rest {
      return |tag|, tag, None;
    }
    return 1, [rest[0]], Some(tag);
  }

  /** The part of the loop body inside a quote. */
  method QuoteMove(rest: string, mark: char) returns (used: nat, text: string, mark': Option<char>)
    requires rest != "" && IsQuote(mark)
    ensures 1 <= used <= |rest|
    ensures mark'.Some? ==> mark'.value == mark
    ensures Step(rest, Quote(mark)) == Emit(text, used, if mark'.Some? then Quote(mark) else Plain)
  {
    used, text, mark' := 1, [rest[0]], Some(mark);
    if rest[0] == mark {
      if |rest| > 1 && rest[1] == mark {
        text := text + [rest[1]];
        used := 2;
      } else {
        mark' := None;
      }
    }
  }

  /** The part of the loop body that runs outside comments and quotes. */
  method PlainMove(rest: string)
    returns (cut: bool, used: nat, text: string, line: bool, depth: nat, tag: Option<string>, quote: Option<char>)
    requires rest != ""
    ensures 1 <= used <= |rest|
    ensures line ==> depth == 0
    ensures line || depth > 0 ==> tag.None? && quote.None?
    ensures tag.Some? ==> quote.None?
    ensures cut ==> used == 1 && ModeOf(line, depth, tag, quote) == Plain
    ensures GoodMode(ModeOf(line, depth, tag, quote))
    ensures Step(rest, Plain) == if cut then Cut else Emit(text, used, ModeOf(line, depth, tag, quote))
  {
    var c := rest[0];
    cut, used, text, line, depth, tag, quote := false, 1, "", false, 0, None, None;
    if "--" <= rest {
      line, used := true, 2;
    } else if "/*" <= rest {
      depth, used := 1, 2;
    } else if c == '\'' || c == '"' {
      quote, text := Some(c), [c];
    } else {
      var n := TagLength(rest);
      if n > 0 {
        TagIsItsOwn(rest);
        tag, text, used := Some(rest[..n]), rest[..n], n;
      } else if c == ';' {
        cut := true;
      } else {
        text := [c];
      }
    }
  }

  method Flushed(statements: seq<string>, current: string) returns (statements': seq<string>)
    ensures statements' == statements + Flush(current)
  {
    statements' := statements;
    var statement := Strip(current);
    if statement != "" {
      statements' := statements + [statement];
    }
  }

  // ---- tags and spaces in characters ----

  predicate NameChar(c: char) { 'a' <= c <= 'z' || 'A' <= c <= 'Z' || c == '_' || '0' <= c <= '9' }

  /** The text begins with a dollar quote of this length: two dollars, and between them a name that starts with no digit, or nothing. */
  predicate OpensWithTag(s: string, n: nat) {
    && 2 <= n <= |s| && s[0] == '$' && s[n - 1] == '$'
    && (forall i :: 0 < i < n - 1 ==> NameChar(s[i]))
    && (n > 2 ==> !('0' <= s[1] <= '9'))
  }

  lemma {:induction false} RunExactly(s: string, n: nat)
    requires n <= |s| && (forall i :: 0 <= i < n ==> IdentChar(s[i])) && (n < |s| ==> !IdentChar(s[n]))
    ensures Run(s) == n
  {
    if n > 0 {
      RunExactly(s[1..], n - 1);
    }
  }

  /** A dollar-quote tag is recognised exactly where there is one, with its own length. */
  lemma TagsExactly(s: string, n: nat)
    requires n > 0
    ensures TagLength(s) == n <==> OpensWithTag(s, n)
  {
    assert forall c: char :: IdentChar(c) <==> NameChar(c);
    if TagLength(s) == n {
      RunStops(s[1..]);
      forall i | 0 < i < n - 1 ensures NameChar(s[i]) {
        assert s[i] == s[1..][i - 1];
      }
    }
    if OpensWithTag(s, n) {
      assert forall i :: 0 <= i < n - 2 ==> s[1..][i] == s[i + 1];
      RunExactly(s[1..], n - 2);
    }
  }

  /** Blanks, tabs and line ends are space; what is printed in ASCII is not. */
  lemma SpacesInAscii(c: char)
    ensures c == ' ' || c == '\t' || c == '\n' || c == '\r' ==> IsSpace(c)
    ensures '!' <= c <= '~' ==> !IsSpace(c)
  {
  }

  /** The text with its outer space cut off: nothing but space is cut, and none is left at either end. */
  ghost predicate Trimmed(s: string, t: string, from: nat, to: nat) {
    && from <= to <= |s| && t == s[from..to]
    && (forall i :: 0 <= i < from || to <= i < |s| ==> IsSpace(s[i]))
    && (t != "" ==> !IsSpace(t[0]) && !IsSpace(t[|t| - 1]))
  }

  lemma {:induction false} StripLeftCuts(s: string) returns (from: nat)
    ensures from <= |s| && StripLeft(s) == s[from..]
    ensures forall i :: 0 <= i < from ==> IsSpace(s[i])
    ensures from < |s| ==> !IsSpace(s[from])
  {
    from := 0;
    if s != [] && IsSpace(s[0]) {
      var rest := StripLeftCuts(s[1..]);
      from := rest + 1;
      forall i | 0 <= i < from ensures IsSpace(s[i]) {
        assert i > 0 ==> s[i] == s[1..][i - 1];
      }
    }
  }

  lemma {:induction false} StripRightCuts(s: string) returns (to: nat)
    ensures to <= |s| && StripRight(s) == s[..to]
    ensures forall i :: to <= i < |s| ==> IsSpace(s[i])
    ensures to > 0 ==> !IsSpace(s[to - 1])
  {
    to := |s|;
    if s != [] && IsSpace(s[|s| - 1]) {
      to := StripRightCuts(s[..|s| - 1]);
    } else {
      assert s[..|s|] == s;
    }
  }

  lemma StripExactly(s: string) returns (from: nat, to: nat)
    ensures Trimmed(s, Strip(s), from, to)
  {
    from := StripLeftCuts(s);
    var length := StripRightCuts(s[from..]);
    to := from + length;
    assert s[from..to] == s[from..][..length];
    forall i | to <= i < |s| ensures IsSpace(s[i]) {
      assert s[i] == s[from..][i - from];
    }
  }
}
