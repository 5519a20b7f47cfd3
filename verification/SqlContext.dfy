/**
 Quotes, dollar quotes and comments in the middle of a text: wherever the lexer
 stands outside of them, a whole one is read in one piece, and no semicolon in it splits.
 */
module SqlContext {
  import opened Results
  import opened SqlLexer
  import opened SqlRoundTrip

  /** How far the lexer has come: the statements it finished, the text of the current one, and its mode. */
  datatype Progress = Progress(done: seq<string>, current: string, mode: Mode)

  /** The lexer's state at the end of a text. */
  function After(s: string, mode: Mode, current: string): (p: Progress)
    requires GoodMode(mode)
    ensures GoodMode(p.mode)
    decreases |s|
  {
    if s == [] then Progress([], current, mode)
    else
      var m := Step(s, mode);
      if m.Cut? then
        var later := After(s[1..], Plain, "");
        later.(done := Flush(current) + later.done)
      else After(s[m.used..], m.next, current + m.text)
  }

  /** The state at the end is what splitting reports. */
  lemma {:induction false} SplitReportsTheEnd(s: string, mode: Mode, current: string)
    requires GoodMode(mode)
    ensures var p := After(s, mode, current);
            Split(s, mode, current) == if Open(p.mode) then None else Some(p.done + Flush(p.current))
    decreases |s|
  {
    if s == [] {
      assert [] + Flush(current) == Flush(current);
    } else {
      var m := Step(s, mode);
      if m.Cut? {
        SplitReportsTheEnd(s[1..], Plain, "");
        var later := After(s[1..], Plain, "");
        assert Flush(current) + (later.done + Flush(later.current)) == Flush(current) + later.done + Flush(later.current);
      } else {
        SplitReportsTheEnd(s[m.used..], m.next, current + m.text);
      }
    }
  }

  // ---- where one text meets the next ----

  /** Outside quotes and comments stands a `$` and a tag's name that run to the end of the text, waiting for another `$`. */
  ghost predicate Dangling(s: string, mode: Mode)
    requires GoodMode(mode)
    decreases |s|
  {
    && s != []
    && (|| (mode.Plain? && TagLength(s) == 0 && TagLength(s + "$") > 0)
        || (var m := Step(s, mode); if m.Cut? then Dangling(s[1..], Plain) else Dangling(s[m.used..], m.next)))
  }

  /** The first character of what follows forms nothing together with the end of the text. */
  ghost predicate Meets(s: string, mode: Mode, c: char)
    requires GoodMode(mode)
  {
    || IsQuote(c) || c == '/'
    || (c == '-' && (s == [] || s[|s| - 1] != '-'))
    || (c == '$' && !Dangling(s, mode))
  }

  lemma {:induction false} RunMeets(s: string, tail: string)
    requires tail != "" && !IdentChar(tail[0])
    ensures Run(s + tail) == Run(s)
  {
    if s == [] {
      assert s + tail == tail;
    } else {
      assert (s + tail)[1..] == s[1..] + tail;
      RunMeets(s[1..], tail);
    }
  }

  lemma TagMeets(s: string, tail: string)
    requires s != [] && tail != "" && !IdentChar(tail[0])
    requires tail[0] == '$' ==> TagLength(s) > 0 || TagLength(s + "$") == 0
    ensures TagLength(s + tail) == TagLength(s)
    ensures TagLength(s) > 0 ==> (s + tail)[..TagLength(s)] == s[..TagLength(s)]
  {
    assert (s + tail)[1..] == s[1..] + tail;
    assert (s + "$")[1..] == s[1..] + "$";
    RunMeets(s[1..], tail);
    RunMeets(s[1..], "$");
  }

  lemma {:induction false} ShortStaysDollar(s: string, tag: string, current: string)
    requires GoodMode(Dollar(tag)) && |s| < |tag|
    ensures After(s, Dollar(tag), current).mode == Dollar(tag)
  {
    if s != [] {
      assert Step(s, Dollar(tag)) == Emit([s[0]], 1, Dollar(tag));
      ShortStaysDollar(s[1..], tag, current + [s[0]]);
    }
  }

  lemma PlainStepMeets(s: string, tail: string)
    requires s != [] && tail != "" && Meets(s, Plain, tail[0])
    ensures Step(s + tail, Plain) == Step(s, Plain)
  {
    var t := s + tail;
    assert |s| > 1 ==> t[1] == s[1];
    assert |s| == 1 ==> t[1] == tail[0];
    TagMeets(s, tail);
  }

  lemma DollarStepMeets(s: string, tag: string, tail: string)
    requires s != [] && GoodMode(Dollar(tag)) && |s| >= |tag|
    ensures Step(s + tail, Dollar(tag)) == Step(s, Dollar(tag))
  {
    assert (s + tail)[..|tag|] == s[..|tag|];
    assert tag <= s + tail <==> (s + tail)[..|tag|] == tag;
    assert tag <= s <==> s[..|tag|] == tag;
  }

  lemma OneLeftStaysOpen(s: string, depth: nat, current: string)
    requires |s| == 1 && depth >= 1
    ensures After(s, Block(depth), current).mode == Block(depth)
  {
    assert Step(s, Block(depth)) == Emit("", 1, Block(depth));
  }

  /** A step before the end is taken as if nothing followed, unless it closes a quote whose mark follows again. */
  lemma StepMeets(s: string, mode: Mode, current: string, tail: string)
    requires s != [] && tail != "" && GoodMode(mode) && Meets(s, mode, tail[0])
    requires After(s, mode, current).mode.Plain?
    ensures Step(s + tail, mode) == Step(s, mode) || (mode.Quote? && s == [mode.mark] && tail[0] == mode.mark)
  {
    var t := s + tail;
    match mode {
      case Line =>
      case Block(depth) =>
        if |s| == 1 {
          OneLeftStaysOpen(s, depth, current);
        } else {
          assert t[1] == s[1];
        }
      case Dollar(tag) =>
        if |s| < |tag| {
          ShortStaysDollar(s, tag, current);
        } else {
          DollarStepMeets(s, tag, tail);
        }
      case Quote(mark) =>
        assert |s| > 1 ==> t[1] == s[1];
        assert |s| == 1 ==> t[1] == tail[0] && s == [s[0]];
      case Plain => PlainStepMeets(s, tail);
    }
  }

  /** Whether a quote's mark closes it or stands for itself makes no difference to what is read. */
  lemma QuoteCloses(mark: char, more: string, current: string)
    requires IsQuote(mark)
    ensures Split([mark] + more, Quote(mark), current) == Split(more, Plain, current + [mark])
  {
    var t := [mark] + more;
    if more != "" && more[0] == mark {
      assert t[1] == mark && t[2..] == more[1..];
      assert Step(t, Quote(mark)) == Emit([mark, mark], 2, Quote(mark));
      SplitMoves(t, Quote(mark), current, Emit([mark, mark], 2, Quote(mark)));
      assert Step(more, Plain) == Emit([mark], 1, Quote(mark));
      SplitMoves(more, Plain, current + [mark], Emit([mark], 1, Quote(mark)));
      assert current + [mark, mark] == current + [mark] + [mark];
    } else {
      assert t[1..] == more;
      assert more != "" ==> t[1] == more[0];
      assert Step(t, Quote(mark)) == Emit([mark], 1, Plain);
      SplitMoves(t, Quote(mark), current, Emit([mark], 1, Plain));
    }
  }

  /** The text before is split as it is, and what follows is read from where it ends. */
  ghost predicate GoesOn(s: string, mode: Mode, current: string, tail: string)
    requires GoodMode(mode)
  {
    var p := After(s, mode, current);
    Split(s + tail, mode, current) == Prepend(p.done, Split(tail, Plain, p.current))
  }

  /** What is split off and collected before a text that meets the end stays so, and the rest is read from there. */
  lemma {:induction false} SplitGoesOn(s: string, mode: Mode, current: string, tail: string)
    requires GoodMode(mode) && tail != "" && Meets(s, mode, tail[0])
    requires After(s, mode, current).mode.Plain?
    ensures GoesOn(s, mode, current, tail)
    decreases |s|
  {
    if s == [] {
      assert s + tail == tail;
      PrependTwice([], [], Split(tail, Plain, current));
    } else if mode.Quote? && s == [mode.mark] && tail[0] == mode.mark {
      QuoteAtTheEnd(s, mode.mark, current, tail);
    } else {
      StepMeets(s, mode, current, tail);
      var m := Step(s, mode);
      if m.Cut? {
        SplitGoesOn(s[1..], Plain, "", tail);
        CutGoesOn(s, mode, current, tail);
      } else {
        SplitGoesOn(s[m.used..], m.next, current + m.text, tail);
        MoveGoesOn(s, mode, current, tail, m);
      }
    }
  }

  lemma QuoteAtTheEnd(s: string, mark: char, current: string, tail: string)
    requires IsQuote(mark) && s == [mark]
    ensures var p := After(s, Quote(mark), current);
            Split(s + tail, Quote(mark), current) == Prepend(p.done, Split(tail, Plain, p.current))
  {
    QuoteCloses(mark, tail, current);
    assert Step(s, Quote(mark)) == Emit([mark], 1, Plain);
    assert s[1..] == "";
    assert After(s, Quote(mark), current) == Progress([], current + [mark], Plain);
    PrependTwice([], [], Split(tail, Plain, current + [mark]));
  }

  lemma AfterMoves(s: string, mode: Mode, current: string, m: Move)
    requires s != [] && GoodMode(mode) && Step(s, mode) == m && m.Emit?
    ensures After(s, mode, current) == After(s[m.used..], m.next, current + m.text)
  {
  }

  lemma SliceOfSum(s: string, tail: string, k: nat)
    requires k <= |s|
    ensures (s + tail)[k..] == s[k..] + tail
  {
  }

  /** One step of the induction: the rest is already known to go on. */
  lemma MoveGoesOn(s: string, mode: Mode, current: string, tail: string, m: Move)
    requires s != [] && GoodMode(mode) && Step(s + tail, mode) == Step(s, mode) == m && m.Emit?
    requires GoesOn(s[m.used..], m.next, current + m.text, tail)
    ensures GoesOn(s, mode, current, tail)
  {
    SliceOfSum(s, tail, m.used);
    AfterMoves(s, mode, current, m);
    SplitMoves(s + tail, mode, current, m);
  }

  lemma SplitCutsOnce(s: string, mode: Mode, current: string)
    requires s != [] && GoodMode(mode) && Step(s, mode).Cut?
    ensures Split(s, mode, current) == Prepend(Flush(current), Split(s[1..], Plain, ""))
  {
  }

  lemma CutGoesOn(s: string, mode: Mode, current: string, tail: string)
    requires s != [] && GoodMode(mode) && Step(s + tail, mode) == Step(s, mode) == Cut
    requires GoesOn(s[1..], Plain, "", tail)
    ensures GoesOn(s, mode, current, tail)
  {
    SliceOfSum(s, tail, 1);
    SplitCutsOnce(s + tail, mode, current);
    var later := After(s[1..], Plain, "");
    PrependTwice(Flush(current), later.done, Split(tail, Plain, later.current));
  }

  // ---- nothing inside quotes or comments splits ----

  function Doubled(body: string, mark: char): string {
    if body == [] then ""
    else if body[0] == mark then [mark, mark] + Doubled(body[1..], mark)
    else [body[0]] + Doubled(body[1..], mark)
  }

  lemma {:induction false} QuotedBody(body: string, mark: char, more: string, current: string)
    requires IsQuote(mark)
    ensures Split(Doubled(body, mark) + [mark] + more, Quote(mark), current)
            == Split(more, Plain, current + Doubled(body, mark) + [mark])
    decreases |body|
  {
    var s := Doubled(body, mark) + [mark] + more;
    if body == [] {
      assert s == [mark] + more;
      assert current + "" == current;
      QuoteCloses(mark, more, current);
    } else {
      var first := if body[0] == mark then [mark, mark] else [body[0]];
      var inner := Doubled(body[1..], mark);
      FirstAside(first, inner, mark, more, current);
      QuotedCharIsRead(body[0], mark, inner + [mark] + more, current);
      QuotedBody(body[1..], mark, more, current + first);
    }
  }

  lemma FirstAside(first: string, inner: string, mark: char, more: string, current: string)
    ensures first + inner + [mark] + more == first + (inner + [mark] + more)
    ensures current + first + inner + [mark] == current + (first + inner) + [mark]
  {
  }

  lemma QuotedCharIsRead(c: char, mark: char, more: string, current: string)
    requires IsQuote(mark)
    ensures var first := if c == mark then [mark, mark] else [c];
            Split(first + more, Quote(mark), current) == Split(more, Quote(mark), current + first)
  {
    var first := if c == mark then [mark, mark] else [c];
    var s := first + more;
    assert s[|first|..] == more && s[0] == c;
    assert c == mark ==> s[1] == mark;
    assert Step(s, Quote(mark)) == Emit(first, |first|, Quote(mark));
    SplitMoves(s, Quote(mark), current, Emit(first, |first|, Quote(mark)));
  }

  function Quoted(body: string, mark: char): string { [mark] + (Doubled(body, mark) + [mark]) }

  lemma QuotedIsRead(body: string, mark: char, more: string, current: string)
    requires IsQuote(mark)
    ensures Split(Quoted(body, mark) + more, Plain, current) == Split(more, Plain, current + Quoted(body, mark))
  {
    var tail := Quoted(body, mark) + more;
    var inner := Doubled(body, mark) + [mark] + more;
    assert tail == [mark] + inner && tail[0] == mark && tail[1..] == inner;
    assert Step(tail, Plain) == Emit([mark], 1, Quote(mark));
    SplitMoves(tail, Plain, current, Emit([mark], 1, Quote(mark)));
    QuotedBody(body, mark, more, current + [mark]);
    assert current + [mark] + Doubled(body, mark) + [mark] == current + Quoted(body, mark);
  }

  lemma QuotedStarts(body: string, mark: char, more: string)
    ensures Quoted(body, mark) + more != "" && (Quoted(body, mark) + more)[0] == mark
  {
    assert Quoted(body, mark) == [mark] + (Doubled(body, mark) + [mark]);
  }

  /**
   Wherever the lexer is outside quotes and comments, a quoted literal or identifier joins the
   current statement as a whole, whatever semicolons, comments or quotes it holds.
   */
  lemma QuotedTextNeverSplits(before: string, body: string, mark: char, more: string)
    requires IsQuote(mark) && After(before, Plain, "").mode.Plain?
    ensures var p := After(before, Plain, "");
            Statements(before + (Quoted(body, mark) + more)) == Prepend(p.done, Split(more, Plain, p.current + Quoted(body, mark)))
  {
    var tail := Quoted(body, mark) + more;
    QuotedStarts(body, mark, more);
    SplitGoesOn(before, Plain, "", tail);
    QuotedIsRead(body, mark, more, After(before, Plain, "").current);
  }

  /** The tag that closes the body is the first one. */
  ghost predicate ClosesOnce(body: string, tag: string) {
    forall i :: 0 <= i < |body| ==> !(tag <= (body + tag)[i..])
  }

  lemma ClosesOnceLater(body: string, tag: string)
    requires body != "" && ClosesOnce(body, tag)
    ensures ClosesOnce(body[1..], tag)
  {
    forall i | 0 <= i < |body[1..]| ensures !(tag <= (body[1..] + tag)[i..]) {
      assert (body[1..] + tag)[i..] == (body + tag)[i + 1..];
    }
  }

  lemma NotYet(body: string, tag: string, more: string)
    requires body != "" && GoodMode(Dollar(tag)) && ClosesOnce(body, tag)
    ensures Step(body + tag + more, Dollar(tag)) == Emit([body[0]], 1, Dollar(tag))
  {
    assert (body + tag)[0..] == body + tag;
    assert (body + tag + more)[..|tag|] == (body + tag)[..|tag|];
    assert tag <= body + tag + more <==> (body + tag + more)[..|tag|] == tag;
    assert tag <= body + tag <==> (body + tag)[..|tag|] == tag;
  }

  lemma DollarCloses(tag: string, more: string, current: string)
    requires GoodMode(Dollar(tag))
    ensures Split(tag + more, Dollar(tag), current) == Split(more, Plain, current + tag)
  {
    var s := tag + more;
    assert s[|tag|..] == more;
    SplitMoves(s, Dollar(tag), current, Emit(tag, |tag|, Plain));
  }

  lemma {:induction false} DollarBody(body: string, tag: string, more: string, current: string)
    requires GoodMode(Dollar(tag)) && ClosesOnce(body, tag)
    ensures Split(body + tag + more, Dollar(tag), current) == Split(more, Plain, current + (body + tag))
    decreases |body|
  {
    if body == [] {
      assert body + tag + more == tag + more && body + tag == tag;
      DollarCloses(tag, more, current);
    } else {
      NotYet(body, tag, more);
      ClosesOnceLater(body, tag);
      DollarBody(body[1..], tag, more, current + [body[0]]);
      OneOff(body, tag, more, current);
    }
  }

  lemma OneOff(body: string, tag: string, more: string, current: string)
    requires body != "" && GoodMode(Dollar(tag)) && Step(body + tag + more, Dollar(tag)) == Emit([body[0]], 1, Dollar(tag))
    ensures Split(body + tag + more, Dollar(tag), current) == Split(body[1..] + tag + more, Dollar(tag), current + [body[0]])
    ensures current + [body[0]] + (body[1..] + tag) == current + (body + tag)
  {
    var s, later := body + tag + more, body[1..] + tag + more;
    assert s[1..] == later;
    SplitMoves(s, Dollar(tag), current, Emit([body[0]], 1, Dollar(tag)));
    Regroup(current, body, tag);
  }

  lemma Regroup(current: string, body: string, tag: string)
    requires body != ""
    ensures current + [body[0]] + (body[1..] + tag) == current + (body + tag)
  {
    assert [body[0]] + body[1..] == body;
  }

  function DollarQuoted(body: string, tag: string): string { tag + (body + tag) }

  lemma DollarIsRead(body: string, tag: string, more: string, current: string)
    requires GoodMode(Dollar(tag)) && ClosesOnce(body, tag)
    ensures Split(DollarQuoted(body, tag) + more, Plain, current) == Split(more, Plain, current + DollarQuoted(body, tag))
  {
    DollarOpens(body + tag + more, tag, current);
    DollarBody(body, tag, more, current + tag);
    assert DollarQuoted(body, tag) + more == tag + (body + tag + more);
    assert current + tag + (body + tag) == current + DollarQuoted(body, tag);
  }

  lemma DollarOpens(inner: string, tag: string, current: string)
    requires GoodMode(Dollar(tag))
    ensures Split(tag + inner, Plain, current) == Split(inner, Dollar(tag), current + tag)
  {
    OpensDollar(tag, inner);
    SplitMoves(tag + inner, Plain, current, Emit(tag, |tag|, Dollar(tag)));
    assert (tag + inner)[|tag|..] == inner;
  }

  /**
   The same for dollar-quoted text, as long as its tag does not come earlier in it and no open
   `$` before it takes its first `$` for a tag's end.
   */
  lemma DollarTextNeverSplits(before: string, body: string, tag: string, more: string)
    requires GoodMode(Dollar(tag)) && ClosesOnce(body, tag)
    requires After(before, Plain, "").mode.Plain? && !Dangling(before, Plain)
    ensures var p := After(before, Plain, "");
            Statements(before + (DollarQuoted(body, tag) + more)) == Prepend(p.done, Split(more, Plain, p.current + DollarQuoted(body, tag)))
  {
    var tail := DollarQuoted(body, tag) + more;
    assert tail[0] == '$';
    SplitGoesOn(before, Plain, "", tail);
    DollarIsRead(body, tag, more, After(before, Plain, "").current);
  }

  lemma Reassociate(a: string, b: string, c: string)
    ensures a + (b + c) == a + b + c
  {
  }

  /** An open `$` with a tag's name takes the `$` that follows, whatever it was meant for, and a dollar quote begins there. */
  lemma DanglingTagTakesOver(open: string, more: string, current: string)
    requires GoodMode(Dollar(open + "$"))
    ensures Split(open + ("$" + more), Plain, current) == Split(more, Dollar(open + "$"), current + (open + "$"))
  {
    Reassociate(open, "$", more);
    DollarOpens(more, open + "$", current);
  }

  lemma EndsTrimmed(s: string)
    requires s != "" && !IsSpace(s[0]) && !IsSpace(s[|s| - 1])
    ensures Flush(s) == [s]
  {
    assert Strip(s) == s;
  }

  lemma SemicolonFlushes(first: string, more: string)
    requires first != "" && !IsSpace(first[0]) && !IsSpace(first[|first| - 1])
    ensures Split(";" + more, Plain, first) == Prepend([first], Split(more, Plain, ""))
  {
    var s := ";" + more;
    assert s[0] == ';' && s[1..] == more;
    EndsTrimmed(first);
    SplitCutsOnce(s, Plain, first);
  }

  lemma AloneAtTheEnd(body: string, tag: string, s: string)
    requires GoodMode(Dollar(tag)) && ClosesOnce(body, tag) && s == DollarQuoted(body, tag)
    requires s != "" && !IsSpace(s[0]) && !IsSpace(s[|s| - 1])
    ensures Split(s, Plain, "") == Some([s])
  {
    DollarIsRead(body, tag, "", "");
    assert s + "" == s && "" + s == s;
    EndsTrimmed(s);
  }

  /** So a semicolon in dollar-quoted text does split behind an open `$`. */
  lemma DanglingTagsSplit()
    ensures Statements("$" + (DollarQuoted("$;", "$b$") + "$b$")) == Some(["$$b$$", "$b$$b$"])
  {
    SmallTags();
    SmallTexts();
    TakenApart("b", "$$", "$b$", "$$b$$", "$b$$b$");
  }

  lemma SmallTexts()
    ensures "$" + (DollarQuoted("$;", "$b$") + "$b$") == DollarQuoted("b", "$$") + (";" + DollarQuoted("", "$b$"))
    ensures DollarQuoted("b", "$$") == "$$b$$" && DollarQuoted("", "$b$") == "$b$$b$"
    ensures ClosesOnce("b", "$$") && ClosesOnce("", "$b$") && ClosesOnce("$;", "$b$")
  {
    assert ("b" + "$$")[0..][0] == 'b';
    assert ("$;" + "$b$")[0..][1] == ';' && ("$;" + "$b$")[1..][0] == ';';
  }

  lemma TakenApart(inner: string, a: string, b: string, first: string, second: string)
    requires first == DollarQuoted(inner, a) && second == DollarQuoted("", b)
    requires GoodMode(Dollar(a)) && GoodMode(Dollar(b)) && ClosesOnce(inner, a) && ClosesOnce("", b)
    requires first != "" && !IsSpace(first[0]) && !IsSpace(first[|first| - 1])
    requires second != "" && !IsSpace(second[0]) && !IsSpace(second[|second| - 1])
    ensures Split(first + (";" + second), Plain, "") == Some([first, second])
  {
    DollarIsRead(inner, a, ";" + second, "");
    assert "" + first == first;
    FirstThenSecond(b, first, second);
  }

  lemma FirstThenSecond(b: string, first: string, second: string)
    requires second == DollarQuoted("", b) && GoodMode(Dollar(b)) && ClosesOnce("", b)
    requires first != "" && !IsSpace(first[0]) && !IsSpace(first[|first| - 1])
    requires second != "" && !IsSpace(second[0]) && !IsSpace(second[|second| - 1])
    ensures Split(";" + second, Plain, first) == Some([first, second])
  {
    SemicolonFlushes(first, second);
    AloneAtTheEnd("", b, second);
    assert [first] + [second] == [first, second];
  }

  lemma SmallTags()
    ensures GoodMode(Dollar("$$")) && GoodMode(Dollar("$b$"))
  {
    RunIsExact("b$", 1);
    assert "$b$"[1..] == "b$" && "$$"[1..] == "$";
  }

  /** Text that, read inside a block comment of the given depth, closes it at its very end and not before. */
  ghost predicate ClosesAtEnd(s: string, depth: nat)
    decreases |s|
  {
    if s == [] || depth == 0 then false
    else if "/*" <= s then ClosesAtEnd(s[2..], depth + 1)
    else if "*/" <= s then (if depth == 1 then s == "*/" else ClosesAtEnd(s[2..], depth - 1))
    else ClosesAtEnd(s[1..], depth)
  }

  lemma ClosingTakesTwo(s: string, depth: nat)
    requires ClosesAtEnd(s, depth)
    ensures |s| >= 2
  {
    var rest := if s == "" then "" else s[1..];
    assert |s| <= 1 ==> rest == "";
  }

  lemma BlockStepIgnoresMore(s: string, depth: nat, more: string)
    requires |s| >= 2 && depth >= 1
    ensures var m := Step(s, Block(depth));
            Step(s + more, Block(depth)) == m && (s + more)[m.used..] == s[m.used..] + more
  {
    var t := s + more;
    assert t[0] == s[0] && t[1] == s[1];
  }

  lemma {:induction false} CommentBody(s: string, depth: nat, more: string, current: string)
    requires 1 <= depth && ClosesAtEnd(s, depth)
    ensures Split(s + more, Block(depth), current) == Split(more, Plain, current + " ")
    decreases |s|
  {
    ClosingTakesTwo(s, depth);
    BlockStepIgnoresMore(s, depth, more);
    var m := Step(s, Block(depth));
    SplitMoves(s + more, Block(depth), current, m);
    if "*/" <= s && depth == 1 {
      assert s[0] == '*';
      assert s == "*/" && s[2..] == "";
      assert s[2..] + more == more;
    } else {
      assert current + "" == current;
      CommentBody(s[m.used..], m.next.depth, more, current);
    }
  }

  /** Wherever the lexer is outside quotes and comments, a block comment, however nested and whatever it holds, is one space. */
  lemma CommentsActAsSpace(before: string, comment: string, more: string)
    requires After(before, Plain, "").mode.Plain?
    requires "/*" <= comment && ClosesAtEnd(comment[2..], 1)
    ensures var p := After(before, Plain, "");
            Statements(before + (comment + more)) == Prepend(p.done, Split(more, Plain, p.current + " "))
  {
    var p := After(before, Plain, "");
    var tail := comment + more;
    assert tail[0] == '/' && tail[1] == '*' && tail[2..] == comment[2..] + more;
    SplitGoesOn(before, Plain, "", tail);
    assert Step(tail, Plain) == Emit("", 2, Block(1));
    SplitMoves(tail, Plain, p.current, Emit("", 2, Block(1)));
    assert p.current + "" == p.current;
    CommentBody(comment[2..], 1, more, p.current);
  }

  predicate EndsLine(c: char) { c == '\r' || c == '\n' }

  lemma {:induction false} LineBody(body: string, end: char, more: string, current: string)
    requires EndsLine(end) && forall c <- body :: !EndsLine(c)
    ensures Split(body + [end] + more, Line, current) == Split(more, Plain, current + " ")
    decreases |body|
  {
    var s := body + [end] + more;
    if body == [] {
      assert s == [end] + more && s[1..] == more;
      SplitMoves(s, Line, current, Emit(" ", 1, Plain));
    } else {
      assert s[0] == body[0] && body[0] in body;
      assert s[1..] == body[1..] + [end] + more;
      SplitMoves(s, Line, current, Emit("", 1, Line));
      assert current + "" == current;
      LineBody(body[1..], end, more, current);
    }
  }

  /** A line comment is one space too, unless a `-` stands right before it. */
  lemma LineCommentsActAsSpace(before: string, body: string, end: char, more: string)
    requires After(before, Plain, "").mode.Plain? && (before == "" || before[|before| - 1] != '-')
    requires EndsLine(end) && forall c <- body :: !EndsLine(c)
    ensures var p := After(before, Plain, "");
            Statements(before + ("--" + (body + [end] + more))) == Prepend(p.done, Split(more, Plain, p.current + " "))
  {
    var p := After(before, Plain, "");
    var tail := "--" + (body + [end] + more);
    assert tail[0] == '-' && tail[1] == '-' && tail[2..] == body + [end] + more;
    SplitGoesOn(before, Plain, "", tail);
    assert Step(tail, Plain) == Emit("", 2, Line);
    SplitMoves(tail, Plain, p.current, Emit("", 2, Line));
    assert p.current + "" == p.current;
    LineBody(body, end, more, p.current);
  }
}
