/**
 What splitting preserves: each statement it yields splits to exactly itself, and the
 joined statements split back to the same list.
 */
module SqlRoundTrip {
  import opened Results
  import opened SqlLexer

  /** The text of the first statement before trimming, and what follows its semicolon if it had one. */
  datatype Scanned = Broken | Scanned(text: string, rest: Option<string>)

  function Scan(s: string, mode: Mode): Scanned
    requires GoodMode(mode)
    decreases |s|
  {
    if s == [] then
      if Open(mode) then Broken else Scanned("", None)
    else
      match Step(s, mode)
      case Cut => Scanned("", Some(s[1..]))
      case Emit(text, used, next) =>
        match Scan(s[used..], next)
        case Broken => Broken
        case Scanned(more, rest) => Scanned(text + more, rest)
  }

  /** Splitting is scanning the first statement, then splitting what follows it. */
  lemma {:induction false} SplitIsScans(s: string, mode: Mode, current: string)
    requires GoodMode(mode)
    ensures var scanned := Scan(s, mode);
            Split(s, mode, current) ==
              if scanned.Broken? then None
              else if scanned.rest.None? then Some(Flush(current + scanned.text))
              else Prepend(Flush(current + scanned.text), Split(scanned.rest.value, Plain, ""))
    decreases |s|
  {
    assert current + "" == current;
    if s != [] {
      match Step(s, mode) {
        case Cut =>
        case Emit(text, used, next) =>
          SplitIsScans(s[used..], next, current + text);
          match Scan(s[used..], next) {
            case Broken =>
            case Scanned(more, rest) => assert current + text + more == current + (text + more);
          }
      }
    }
  }

  lemma {:induction false} RestIsShorter(s: string, mode: Mode)
    requires GoodMode(mode)
    ensures var scanned := Scan(s, mode);
            scanned.Scanned? ==> |scanned.text| <= |s| && (scanned.rest.Some? ==> |scanned.rest.value| + |scanned.text| < |s|)
    ensures var scanned := Scan(s, mode);
            scanned.Scanned? && mode.Block? ==> |scanned.text| < |s|
    decreases |s|
  {
    if s != [] {
      match Step(s, mode) {
        case Cut =>
        case Emit(text, used, next) => RestIsShorter(s[used..], next);
      }
    }
  }

  // ---- what the emitted text starts with ----

  /** Inside a comment nothing is emitted before a space; outside, the next character is the text's own. */
  lemma {:induction false} FirstOfText(s: string, mode: Mode)
    requires GoodMode(mode) && (mode.Plain? || mode.Line? || mode.Block?)
    ensures var scanned := Scan(s, mode);
            scanned.Scanned? && scanned.text != "" ==>
              scanned.text[0] == ' ' || (mode.Plain? && s != "" && s[0] == scanned.text[0])
    decreases |s|
  {
    if s != [] {
      match Step(s, mode) {
        case Cut =>
        case Emit(text, used, next) =>
          if text == "" {
            FirstOfText(s[used..], next);
          }
      }
    }
  }

  lemma IdentStep(s: string)
    requires s != [] && IdentChar(s[0])
    ensures Step(s, Plain) == Emit([s[0]], 1, Plain)
  {
  }

  ghost predicate RunToDollar(text: string, n: nat) {
    n < |text| && text[n] == '$' && forall i :: 0 <= i < n ==> IdentChar(text[i])
  }

  /** A run of identifier characters up to a dollar sign in the text was already there in the source. */
  lemma {:induction false} RunWasThere(s: string, n: nat)
    requires Scan(s, Plain).Scanned? && RunToDollar(Scan(s, Plain).text, n)
    ensures RunToDollar(s, n) && s[0] == Scan(s, Plain).text[0]
    decreases n
  {
    var text := Scan(s, Plain).text;
    FirstOfText(s, Plain);
    if n > 0 {
      IdentStep(s);
      var more := Scan(s[1..], Plain).text;
      assert text == [s[0]] + more;
      assert more[n - 1] == text[n];
      forall i | 0 <= i < n - 1 ensures IdentChar(more[i]) {
        assert more[i] == text[i + 1];
      }
      RunWasThere(s[1..], n - 1);
      assert s[n] == s[1..][n - 1];
      forall i | 0 <= i < n ensures IdentChar(s[i]) {
        assert i > 0 ==> s[i] == s[1..][i - 1];
      }
    }
  }

  lemma {:induction false} RunIsExact(s: string, n: nat)
    requires n < |s| && !IdentChar(s[n]) && forall i :: 0 <= i < n ==> IdentChar(s[i])
    ensures Run(s) == n
  {
    if n > 0 {
      RunIsExact(s[1..], n - 1);
    }
  }

  /** Removing comments never makes a dollar-quote tag out of something that was none. */
  lemma NoNewTag(s: string)
    requires Scan(s, Plain).Scanned?
    ensures TagLength("$" + Scan(s, Plain).text) > 0 ==> TagLength("$" + s) > 0
  {
    var text := Scan(s, Plain).text;
    if TagLength("$" + text) > 0 {
      var n := TagHasRun(text);
      RunWasThere(s, n);
      RunMakesTag(s, n);
    }
  }

  lemma TagHasRun(text: string) returns (n: nat)
    requires TagLength("$" + text) > 0
    ensures RunToDollar(text, n) && (n == 0 || IdentStart(text[0]))
  {
    assert ("$" + text)[1..] == text;
    n := Run(text);
    RunStops(text);
  }

  lemma RunMakesTag(s: string, n: nat)
    requires RunToDollar(s, n) && (n == 0 || IdentStart(s[0]))
    ensures TagLength("$" + s) > 0
  {
    assert ("$" + s)[1..] == s;
    RunIsExact(s, n);
  }

  /** Up to its closing tag, dollar-quoted text is verbatim. */
  lemma {:induction false} DollarIsVerbatim(s: string, tag: string)
    requires GoodMode(Dollar(tag)) && Scan(s, Dollar(tag)).Scanned?
    ensures var text := Scan(s, Dollar(tag)).text;
            |tag| <= |text| && |tag| <= |s| && s[..|tag|] == text[..|tag|]
    decreases |s|
  {
    var text := Scan(s, Dollar(tag)).text;
    if !(tag <= s) {
      DollarIsVerbatim(s[1..], tag);
      var more := Scan(s[1..], Dollar(tag)).text;
      assert text == [s[0]] + more;
      assert s[..|tag|] == [s[0]] + s[1..][..|tag| - 1];
      assert s[1..][..|tag| - 1] == s[1..][..|tag|][..|tag| - 1];
      assert more[..|tag| - 1] == more[..|tag|][..|tag| - 1];
    }
  }

  // ---- scanning the text again ----

  function Resumed(mode: Mode): Mode {
    if mode.Line? || mode.Block? then Plain else mode
  }

  /** A step that emits its own characters is taken again on the emitted text. */
  lemma StepAgain(s: string, mode: Mode, more: string)
    requires s != [] && GoodMode(mode) && Step(s, mode).Emit? && Step(s, mode).text != ""
    requires Scan(s[Step(s, mode).used..], Step(s, mode).next).Scanned?
    requires more == Scan(s[Step(s, mode).used..], Step(s, mode).next).text
    ensures var m := Step(s, mode);
            Step(m.text + more, Resumed(mode)) == Emit(m.text, |m.text|, Resumed(m.next)) && !m.next.Line? && !m.next.Block?
  {
    var m := Step(s, mode);
    var t := m.text + more;
    match mode {
      case Line => assert t[0] == ' ';
      case Block(_) => assert t[0] == ' ';
      case Dollar(tag) => DollarAgain(s, tag, more);
      case Quote(mark) =>
        if m.next.Plain? {
          FirstOfText(s[1..], Plain);
        }
      case Plain => PlainAgain(s, more);
    }
  }

  lemma DollarAgain(s: string, tag: string, more: string)
    requires s != [] && GoodMode(Dollar(tag))
    requires Scan(s[Step(s, Dollar(tag)).used..], Step(s, Dollar(tag)).next).Scanned?
    requires more == Scan(s[Step(s, Dollar(tag)).used..], Step(s, Dollar(tag)).next).text
    ensures var m := Step(s, Dollar(tag));
            Step(m.text + more, Dollar(tag)) == Emit(m.text, |m.text|, m.next)
  {
    var m := Step(s, Dollar(tag));
    var t := m.text + more;
    assert Scan(s, Dollar(tag)).text == t;
    DollarIsVerbatim(s, tag);
    assert (tag <= t) == (tag <= s) by {
      assert tag <= t <==> t[..|tag|] == tag;
      assert tag <= s <==> s[..|tag|] == tag;
    }
  }

  lemma PlainAgain(s: string, more: string)
    requires s != [] && Step(s, Plain).Emit? && Step(s, Plain).text != ""
    requires Scan(s[Step(s, Plain).used..], Step(s, Plain).next).Scanned?
    requires more == Scan(s[Step(s, Plain).used..], Step(s, Plain).next).text
    ensures var m := Step(s, Plain);
            Step(m.text + more, Plain) == Emit(m.text, |m.text|, m.next)
  {
    var m := Step(s, Plain);
    if m.next.Dollar? {
      TagAgain(s, more);
    } else if m.next.Plain? {
      CharAgain(s, more);
    } else {
      assert IsQuote(s[0]) && (m.text + more)[0] == s[0];
    }
  }

  lemma TagAgain(s: string, more: string)
    requires s != [] && Step(s, Plain).Emit? && Step(s, Plain).next.Dollar?
    ensures var m := Step(s, Plain);
            Step(m.text + more, Plain) == Emit(m.text, |m.text|, m.next)
  {
    var n := TagLength(s);
    TagIsItsOwn(s);
    OpensDollar(s[..n], more);
  }

  lemma CharAgain(s: string, more: string)
    requires s != [] && Step(s, Plain).Emit? && Step(s, Plain).text != "" && Step(s, Plain).next.Plain?
    requires Scan(s[1..], Plain).Scanned? && more == Scan(s[1..], Plain).text
    ensures var m := Step(s, Plain);
            Step(m.text + more, Plain) == Emit(m.text, |m.text|, m.next)
  {
    var t := [s[0]] + more;
    FirstOfText(s[1..], Plain);
    assert s == [s[0]] + s[1..];
    if s[0] == '$' {
      assert "$" + s[1..] == s && "$" + more == t;
      NoNewTag(s[1..]);
    }
    assert TagLength(t) == 0;
  }

  /** Text after a complete tag does not change it. */
  lemma TagStays(tag: string, more: string)
    requires TagLength(tag) == |tag| && tag != ""
    ensures TagLength(tag + more) == |tag|
  {
    var n := |tag| - 2;
    assert Run(tag[1..]) == n;
    RunStops(tag[1..]);
    assert (tag + more)[1..] == tag[1..] + more;
    RunIsExact(tag[1..] + more, n);
  }

  lemma OneMoreStep(s: string, mode: Mode, more: string)
    requires s != [] && GoodMode(mode) && Step(s, mode).Emit? && Step(s, mode).text != ""
    requires Scan(s[Step(s, mode).used..], Step(s, mode).next).Scanned?
    requires more == Scan(s[Step(s, mode).used..], Step(s, mode).next).text
    requires Scan(more, Resumed(Step(s, mode).next)) == Scanned(more, None)
    ensures Scan(Step(s, mode).text + more, Resumed(mode)) == Scanned(Step(s, mode).text + more, None)
  {
    var m := Step(s, mode);
    StepAgain(s, mode, more);
    assert (m.text + more)[|m.text|..] == more;
  }

  lemma SilentStep(s: string, mode: Mode)
    requires s != [] && GoodMode(mode) && Step(s, mode).Emit? && Step(s, mode).text == ""
    ensures Resumed(Step(s, mode).next) == Resumed(mode)
    ensures Scan(s, mode) == Scan(s[Step(s, mode).used..], Step(s, mode).next)
  {
    var later := Scan(s[Step(s, mode).used..], Step(s, mode).next);
    if later.Scanned? {
      assert "" + later.text == later.text;
    }
  }

  /** The text of a statement is a closed, comment-free statement that scans to itself. */
  lemma {:induction false} TextScansToItself(s: string, mode: Mode)
    requires GoodMode(mode) && Scan(s, mode).Scanned?
    ensures Scan(Scan(s, mode).text, Resumed(mode)) == Scanned(Scan(s, mode).text, None)
    decreases |s|
  {
    if s != [] && Step(s, mode).Emit? {
      var m := Step(s, mode);
      TextScansToItself(s[m.used..], m.next);
      if m.text == "" {
        SilentStep(s, mode);
      } else {
        OneMoreStep(s, mode, Scan(s[m.used..], m.next).text);
      }
    }
  }

  // ---- trimming ----

  /** The text scans to itself: closed, free of comments, and never cut. */
  ghost predicate SelfScanning(s: string, mode: Mode)
    requires GoodMode(mode)
  {
    Scan(s, mode) == Scanned(s, None)
  }

  lemma {:induction false} LeftTrimKeeps(s: string)
    requires SelfScanning(s, Plain)
    ensures SelfScanning(StripLeft(s), Plain)
  {
    if s != [] && IsSpace(s[0]) {
      assert Step(s, Plain) == Emit([s[0]], 1, Plain);
      assert s == [s[0]] + s[1..];
      LeftTrimKeeps(s[1..]);
    }
  }

  /** A self-scanning text moves by its own first characters, never into a comment. */
  lemma OwnStep(s: string, mode: Mode)
    requires s != [] && GoodMode(mode) && !mode.Line? && !mode.Block? && SelfScanning(s, mode)
    ensures var m := Step(s, mode);
            && m.Emit? && m.text != "" && m.used == |m.text| && m.text == s[..m.used]
            && !m.next.Line? && !m.next.Block?
            && SelfScanning(s[m.used..], m.next)
  {
    var m := Step(s, mode);
    RestIsShorter(s[m.used..], m.next);
    var more := Scan(s[m.used..], m.next).text;
    assert s == m.text + more;
    assert |m.text| == m.used;
    assert s[m.used..] == more;
  }

  /** What a step decides does not depend on a semicolon or a space standing right behind the text. */
  lemma StepIgnoresTail(s: string, mode: Mode, tail: string)
    requires s != [] && GoodMode(mode) && !mode.Line? && !mode.Block?
    requires tail != "" && (tail[0] == ';' || IsSpace(tail[0]))
    requires Step(s, mode).Emit?
    requires Step(s, mode).used == |Step(s, mode).text|
    ensures Step(s + tail, mode) == Step(s, mode)
  {
    var t := s + tail;
    match mode {
      case Dollar(tag) => TagIgnoresTail(s, tag, tail);
      case Quote(mark) =>
      case Plain =>
        assert |s| > 1 ==> t[1] == s[1];
        TagLengthIgnoresTail(s, tail);
    }
  }

  lemma TagChars(tag: string, i: nat)
    requires TagLength(tag) == |tag| && i < |tag|
    ensures tag[i] != ';' && !IsSpace(tag[i])
  {
    if 0 < i < |tag| - 1 {
      assert tag[i] == tag[1..][i - 1];
      assert Run(tag[1..]) == |tag| - 2;
      RunStops(tag[1..]);
    }
  }

  lemma TagIgnoresTail(s: string, tag: string, tail: string)
    requires GoodMode(Dollar(tag)) && tail != "" && (tail[0] == ';' || IsSpace(tail[0]))
    ensures tag <= s + tail <==> tag <= s
  {
    if |s| < |tag| {
      TagChars(tag, |s|);
      assert (s + tail)[|s|] == tail[0] != tag[|s|];
    }
  }

  lemma {:induction false} RunIgnoresTail(s: string, tail: string)
    requires tail != "" && (tail[0] == ';' || IsSpace(tail[0]))
    ensures Run(s + tail) == Run(s)
  {
    assert !IdentChar(tail[0]);
    if s == [] {
      assert s + tail == tail;
      assert Run(tail) == 0;
    } else {
      assert (s + tail)[1..] == s[1..] + tail;
      RunIgnoresTail(s[1..], tail);
    }
  }

  lemma TagLengthIgnoresTail(s: string, tail: string)
    requires s != [] && tail != "" && (tail[0] == ';' || IsSpace(tail[0]))
    ensures TagLength(s + tail) == TagLength(s)
    ensures TagLength(s) > 0 ==> (s + tail)[..TagLength(s)] == s[..TagLength(s)]
  {
    assert (s + tail)[1..] == s[1..] + tail;
    RunIgnoresTail(s[1..], tail);
  }

  /** Scanning by a known step. */
  lemma ScanBy(s: string, mode: Mode, m: Move)
    requires s != [] && GoodMode(mode) && Step(s, mode) == m && m.Emit?
    ensures var later := Scan(s[m.used..], m.next);
            Scan(s, mode) == if later.Broken? then Broken else Scanned(m.text + later.text, later.rest)
  {
  }

  /** A semicolon behind a self-scanning text cuts exactly there. */
  lemma {:induction false} SemicolonCuts(s: string, mode: Mode, tail: string)
    requires GoodMode(mode) && !mode.Line? && !mode.Block? && SelfScanning(s, mode)
    requires tail != "" && tail[0] == ';'
    ensures Scan(s + tail, mode) == Scanned(s, Some(tail[1..]))
    decreases |s|
  {
    if s == [] {
      assert s + tail == tail;
    } else {
      OwnStep(s, mode);
      var m := Step(s, mode);
      StepIgnoresTail(s, mode, tail);
      SemicolonCuts(s[m.used..], m.next, tail);
      ScanPastOwnStep(s, mode, m, tail);
    }
  }

  lemma ScanPastOwnStep(s: string, mode: Mode, m: Move, tail: string)
    requires s != [] && GoodMode(mode) && m.Emit? && m.used <= |s| && s == m.text + s[m.used..]
    requires Step(s + tail, mode) == m
    ensures var later := Scan(s[m.used..] + tail, m.next);
            later.Scanned? && later.text == s[m.used..] ==> Scan(s + tail, mode) == Scanned(s, later.rest)
  {
    assert (s + tail)[m.used..] == s[m.used..] + tail;
    ScanBy(s + tail, mode, m);
  }

  /** A space at the end of a self-scanning text can go. */
  lemma {:induction false} LastSpaceGoes(s: string, space: char, mode: Mode)
    requires GoodMode(mode) && !mode.Line? && !mode.Block? && IsSpace(space) && SelfScanning(s + [space], mode)
    ensures SelfScanning(s, mode)
    decreases |s|
  {
    var t := s + [space];
    OwnStep(t, mode);
    var m := Step(t, mode);
    if s == [] {
      assert t[m.used..] == "";
    } else {
      SameStepWithoutSpace(s, space, mode);
      assert t[m.used..] == s[m.used..] + [space];
      LastSpaceGoes(s[m.used..], space, m.next);
      assert s == m.text + s[m.used..];
    }
  }

  lemma SameStepWithoutSpace(s: string, space: char, mode: Mode)
    requires s != [] && GoodMode(mode) && !mode.Line? && !mode.Block? && IsSpace(space)
    requires var m := Step(s + [space], mode);
             m.Emit? && m.text != "" && m.used == |m.text| && m.text == (s + [space])[..m.used]
             && !m.next.Line? && !m.next.Block?
    ensures Step(s + [space], mode) == Step(s, mode)
  {
    var t := s + [space];
    var m := Step(t, mode);
    match mode {
      case Dollar(tag) => TagIgnoresTail(s, tag, [space]);
      case Quote(mark) => assert |s| > 1 ==> t[1] == s[1];
      case Plain =>
        assert |s| > 1 ==> t[1] == s[1];
        TagLengthIgnoresTail(s, [space]);
    }
  }

  lemma {:induction false} RightTrimKeeps(s: string)
    requires SelfScanning(s, Plain)
    ensures SelfScanning(StripRight(s), Plain)
  {
    if s != [] && IsSpace(s[|s| - 1]) {
      var front, space := s[..|s| - 1], s[|s| - 1];
      assert s == front + [space];
      LastSpaceGoes(front, space, Plain);
      RightTrimKeeps(front);
    }
  }

  lemma {:induction false} StripLeftEnds(s: string)
    ensures StripLeft(s) != [] ==> !IsSpace(StripLeft(s)[0])
  {
    if s != [] && IsSpace(s[0]) {
      StripLeftEnds(s[1..]);
    }
  }

  lemma {:induction false} StripRightEnds(s: string)
    ensures StripRight(s) <= s && (StripRight(s) != [] ==> !IsSpace(StripRight(s)[|StripRight(s)| - 1]))
  {
    if s != [] && IsSpace(s[|s| - 1]) {
      StripRightEnds(s[..|s| - 1]);
    }
  }

  lemma StripIsStable(s: string)
    ensures Strip(Strip(s)) == Strip(s)
  {
    StripLeftEnds(s);
    StripRightEnds(StripLeft(s));
  }

  // ---- the main results ----

  /** A clean statement: non-empty, trimmed, closed and free of comments and separators. */
  ghost predicate Clean(s: string) {
    s != "" && Strip(s) == s && SelfScanning(s, Plain)
  }

  /** Being clean is being split to exactly oneself. */
  lemma CleanMeansFixed(s: string)
    ensures Clean(s) <==> Statements(s) == Some([s])
  {
    SplitIsScans(s, Plain, "");
    assert forall t: string :: "" + t == t;
    if Statements(s) == Some([s]) {
      StatementsAreClean(s, s);
    }
  }

  lemma {:induction false} SplitYieldsClean(sql: string)
    requires Statements(sql).Some?
    ensures forall s :: s in Statements(sql).value ==> Clean(s)
    decreases |sql|
  {
    SplitIsScans(sql, Plain, "");
    RestIsShorter(sql, Plain);
    var scanned := Scan(sql, Plain);
    assert "" + scanned.text == scanned.text;
    TextScansToItself(sql, Plain);
    LeftTrimKeeps(scanned.text);
    RightTrimKeeps(StripLeft(scanned.text));
    StripIsStable(scanned.text);
    assert forall s :: s in Flush(scanned.text) ==> Clean(s);
    if scanned.rest.Some? {
      SplitYieldsClean(scanned.rest.value);
    }
  }

  /** Every statement that splitting yields splits to exactly itself. */
  lemma StatementsAreClean(sql: string, s: string)
    requires Statements(sql).Some? && s in Statements(sql).value
    ensures Clean(s)
  {
    SplitYieldsClean(sql);
  }

  function Joined(statements: seq<string>): string {
    if statements == [] then "" else statements[0] + ";" + Joined(statements[1..])
  }

  /** Splitting undoes joining, for any list of clean statements. */
  lemma {:induction false} SplitUndoesJoin(statements: seq<string>)
    requires forall s :: s in statements ==> Clean(s)
    ensures Statements(Joined(statements)) == Some(statements)
  {
    if statements == [] {
      assert Strip("") == "";
    } else {
      var first, rest := statements[0], statements[1..];
      assert first in statements;
      var tail := ";" + Joined(rest);
      assert Joined(statements) == first + tail && tail[1..] == Joined(rest);
      SemicolonCuts(first, Plain, tail);
      SplitIsScans(Joined(statements), Plain, "");
      assert "" + first == first;
      SplitUndoesJoin(rest);
      assert statements == [first] + rest;
    }
  }

  /** Normalising a script by splitting and joining it loses no statement and is stable. */
  lemma SplitJoinSplit(sql: string)
    requires Statements(sql).Some?
    ensures Statements(Joined(Statements(sql).value)) == Statements(sql)
    ensures forall s :: s in Statements(sql).value ==> Statements(s) == Some([s])
  {
    SplitYieldsClean(sql);
    SplitUndoesJoin(Statements(sql).value);
    forall s | s in Statements(sql).value ensures Statements(s) == Some([s]) {
      CleanMeansFixed(s);
    }
  }

  lemma OpensDollar(tag: string, more: string)
    requires 2 <= |tag| && TagLength(tag) == |tag|
    ensures Step(tag + more, Plain) == Emit(tag, |tag|, Dollar(tag))
  {
    TagStays(tag, more);
    assert (tag + more)[..|tag|] == tag;
    assert (tag + more)[0] == tag[0] == '$';
  }
}
