/** The frame-table generator's text handling: conditional filtering and brace matching. */
module Frames {
  import opened Wrappers

  // ---- classifying lines ------------------------------------------------

  const PLANE_MARKER := "APM_BUILD_ArduPlane"

  /** What Python's `str.lstrip` takes for white space. */
  predicate IsBlank(c: char) {
    var n := c as int;
    || 9 <= n <= 13 || 28 <= n <= 32 || n == 0x85 || n == 0xa0 || n == 0x1680 || 0x2000 <= n <= 0x200a
    || n == 0x2028 || n == 0x2029 || n == 0x202f || n == 0x205f || n == 0x3000
  }

  function LStrip(s: string): string {
    if s != "" && IsBlank(s[0]) then LStrip(s[1..]) else s
  }

  predicate Occurs(pattern: string, text: string) {
    pattern <= text || (text != "" && Occurs(pattern, text[1..]))
  }

  /** The loop passes over `#elif` as over any other directive it does not know. */
  datatype Kind = IfLine(keep: bool) | ElseLine | EndifLine | ElifLine | OtherDirective | TextLine

  function Classify(line: string): Kind {
    var s := LStrip(line);
    if "#if" <= s then IfLine(!Occurs(PLANE_MARKER, s))
    else if "#else" <= s then ElseLine
    else if "#endif" <= s then EndifLine
    else if "#elif" <= s then ElifLine
    else if "#" <= s then OtherDirective
    else TextLine
  }

  predicate AllTrue(stack: seq<bool>) {
    forall i :: 0 <= i < |stack| ==> stack[i]
  }

  // ---- lines of a text --------------------------------------------------

  /** What Python's `str.splitlines` takes for the end of a line. */
  predicate IsBreak(c: char) {
    var n := c as int;
    10 <= n <= 13 || 28 <= n <= 30 || n == 0x85 || n == 0x2028 || n == 0x2029
  }

  predicate Unbroken(line: string) {
    forall i :: 0 <= i < |line| ==> !IsBreak(line[i])
  }

  /** The length of the first line. */
  function LineLength(text: string): (n: nat)
    ensures n <= |text| && Unbroken(text[..n])
    ensures n < |text| ==> IsBreak(text[n])
  {
    if text == "" || IsBreak(text[0]) then 0 else 1 + LineLength(text[1..])
  }

  /** A carriage return with its line feed is one break. */
  function BreakLength(text: string, n: nat): (b: nat)
    requires n < |text|
    ensures 1 <= b && n + b <= |text|
  {
    if text[n] == '\r' && n + 1 < |text| && text[n + 1] == '\n' then 2 else 1
  }

  /** Python's `str.splitlines`. */
  function SplitLines(text: string): (lines: seq<string>)
    ensures forall i :: 0 <= i < |lines| ==> Unbroken(lines[i])
    decreases |text|
  {
    if text == "" then []
    else
      var n := LineLength(text);
      [text[..n]] + if n == |text| then [] else SplitLines(text[n + BreakLength(text, n)..])
  }

  /** The lines with a line feed between each two. */
  function Join(lines: seq<string>): string {
    if lines == [] then ""
    else if |lines| == 1 then lines[0]
    else lines[0] + "\n" + Join(lines[1..])
  }

  function WithoutLastEmpty(lines: seq<string>): seq<string> {
    if lines != [] && lines[|lines| - 1] == "" then lines[..|lines| - 1] else lines
  }

  lemma {:induction false} LineLengthOf(line: string, rest: string)
    requires Unbroken(line) && (rest == "" || IsBreak(rest[0]))
    ensures LineLength(line + rest) == |line|
  {
    if line == "" {
      assert line + rest == rest;
    } else {
      assert (line + rest)[1..] == line[1..] + rest;
      LineLengthOf(line[1..], rest);
    }
  }

  lemma SplitFirst(first: string, rest: string)
    requires Unbroken(first)
    ensures SplitLines(first + "\n" + rest) == [first] + SplitLines(rest)
  {
    var text := first + ("\n" + rest);
    LineLengthOf(first, "\n" + rest);
    assert text[..|first|] == first && text[|first|] == '\n' && text[|first| + 1..] == rest;
    assert text == first + "\n" + rest;
  }

  lemma SplitOne(line: string)
    requires Unbroken(line)
    ensures SplitLines(line) == if line == "" then [] else [line]
  {
    LineLengthOf(line, "");
    assert line + "" == line && line[..|line|] == line;
  }

  /** Joined lines split into the same lines again, except that a last empty line is lost. */
  lemma {:induction false} SplitOfJoin(lines: seq<string>)
    requires forall i :: 0 <= i < |lines| ==> Unbroken(lines[i])
    ensures SplitLines(Join(lines)) == WithoutLastEmpty(lines)
    decreases |lines|
  {
    hide SplitLines, Unbroken;
    if lines == [] {
      SplitOne("");
    } else if |lines| == 1 {
      SplitOne(lines[0]);
    } else {
      SplitFirst(lines[0], Join(lines[1..]));
      SplitOfJoin(lines[1..]);
      assert [lines[0]] + WithoutLastEmpty(lines[1..]) == WithoutLastEmpty(lines);
    }
  }

  // ---- the stack scan ---------------------------------------------------

  /** The scan's variables: which enclosing conditionals are emitting, and the text lines it has
      kept and passed over so far. */
  datatype Scan = Scan(stack: seq<bool>, out: seq<string>, dropped: seq<string>)

  function ScanLine(s: Scan, line: string): Scan {
    match Classify(line)
    case IfLine(keep) => s.(stack := s.stack + [keep])
    case ElseLine => if s.stack == [] then s else s.(stack := s.stack[|s.stack| - 1 := !s.stack[|s.stack| - 1]])
    case EndifLine => if s.stack == [] then s else s.(stack := s.stack[..|s.stack| - 1])
    case ElifLine => s
    case OtherDirective => s
    case TextLine => if AllTrue(s.stack) then s.(out := s.out + [line]) else s.(dropped := s.dropped + [line])
  }

  function ScanLines(s: Scan, lines: seq<string>): Scan {
    if lines == [] then s else ScanLine(ScanLines(s, lines[..|lines| - 1]), lines[|lines| - 1])
  }

  /** The scan of a whole text. */
  function Scanned(text: string): Scan {
    ScanLines(Scan([], [], []), SplitLines(text))
  }

  /** The labels of the case lines among `lines`, each tagged with the function it came from. */
  function CaseLabels(fn: string, caseLabel: string -> Option<string>, lines: seq<string>): seq<string> {
    if lines == [] then []
    else
      var found := caseLabel(lines[|lines| - 1]);
      CaseLabels(fn, caseLabel, lines[..|lines| - 1]) + if found.Some? then [fn + "/" + found.value] else []
  }

  /** The filter: the kept lines of the text in order, and the case labels met in dropped lines
      appended to the list of plane-only frames. `caseLabel` stands for the regular-expression
      search. */
  method Preprocess(text: string, fn: string, caseLabel: string -> Option<string>, planeOnly: seq<string>)
    returns (filtered: string, planeOnly': seq<string>)
    ensures filtered == Join(Scanned(text).out)
    ensures planeOnly' == planeOnly + CaseLabels(fn, caseLabel, Scanned(text).dropped)
  {
    hide Classify, ScanLines, CaseLabels, AllTrue, Join;
    var body := SplitLines(text);
    var out: seq<string> := [];
    planeOnly' := planeOnly;
    var stack: seq<bool> := [];
    ghost var dropped: seq<string> := [];
    NothingScanned(fn, caseLabel, body);
    for i := 0 to |body|
      invariant Scan(stack, out, dropped) == ScanLines(Scan([], [], []), body[..i])
      invariant planeOnly' == planeOnly + CaseLabels(fn, caseLabel, dropped)
    {
      var line := body[i];
      ScanPrefix(Scan([], [], []), body, i);
      var kind := Classify(line);
      if kind.IfLine? {
        stack := stack + [kind.keep];
      } else if kind.ElseLine? {
        if stack != [] {
          stack := stack[|stack| - 1 := !stack[|stack| - 1]];
        }
      } else if kind.EndifLine? {
        if stack != [] {
          stack := stack[..|stack| - 1];
        }
      } else if kind.TextLine? {
        if AllTrue(stack) {
          out := out + [line];
        } else {
          LabelsOfNext(fn, caseLabel, dropped, line);
          dropped := dropped + [line];
          var found := caseLabel(line);
          if found.Some? {
            planeOnly' := planeOnly' + [fn + "/" + found.value];
          }
        }
      }
    }
    assert body[..|body|] == body;
    filtered := Join(out);
  }

  /** The labels recorded are those of the given lines, each with its function. */
  lemma {:induction false} RecordedIff(fn: string, caseLabel: string -> Option<string>, lines: seq<string>,
                                       name: string)
    ensures name in CaseLabels(fn, caseLabel, lines)
      <==> exists i :: 0 <= i < |lines| && caseLabel(lines[i]).Some? && name == fn + "/" + caseLabel(lines[i]).value
  {
    if lines == [] {
    } else {
      var n := |lines| - 1;
      RecordedIff(fn, caseLabel, lines[..n], name);
      assert forall i :: 0 <= i < n ==> lines[..n][i] == lines[i];
    }
  }

  lemma NothingScanned(fn: string, caseLabel: string -> Option<string>, body: seq<string>)
    ensures ScanLines(Scan([], [], []), body[..0]) == Scan([], [], []) && CaseLabels(fn, caseLabel, []) == []
  {
  }

  lemma ScanPrefix(s: Scan, body: seq<string>, i: nat)
    requires i < |body|
    ensures ScanLines(s, body[..i + 1]) == ScanLine(ScanLines(s, body[..i]), body[i])
  {
    hide ScanLine;
    assert body[..i + 1][..i] == body[..i];
  }

  lemma LabelsOfNext(fn: string, caseLabel: string -> Option<string>, lines: seq<string>, line: string)
    ensures CaseLabels(fn, caseLabel, lines + [line])
         == CaseLabels(fn, caseLabel, lines) + if caseLabel(line).Some? then [fn + "/" + caseLabel(line).value] else []
  {
    assert (lines + [line])[..|lines|] == lines;
  }

  // ---- the meaning of well-nested text ----------------------------------

  /** Well-nested text: plain lines, other directives, and conditionals with an optional #else. */
  datatype Block =
    | End
    | Line(line: string, rest: Block)
    | Conditional(ifLine: string, then_: Block, elseLine: Option<string>, else_: Block, endifLine: string, rest: Block)

  predicate WellFormed(b: Block) {
    match b
    case End => true
    case Line(line, rest) => (Classify(line).TextLine? || Classify(line).OtherDirective?) && WellFormed(rest)
    case Conditional(ifLine, then_, elseLine, else_, endifLine, rest) =>
      && Classify(ifLine).IfLine? && Classify(endifLine).EndifLine?
      && (if elseLine.Some? then Classify(elseLine.value).ElseLine? else else_ == End)
      && WellFormed(then_) && WellFormed(else_) && WellFormed(rest)
  }

  function Rendered(b: Block): seq<string> {
    match b
    case End => []
    case Line(line, rest) => [line] + Rendered(rest)
    case Conditional(ifLine, then_, elseLine, else_, endifLine, rest) =>
      [ifLine] + Rendered(then_) + (if elseLine.Some? then [elseLine.value] else []) + Rendered(else_)
      + [endifLine] + Rendered(rest)
  }

  /** Every text line of a block. */
  function TextLines(b: Block): seq<string> {
    match b
    case End => []
    case Line(line, rest) => (if Classify(line).TextLine? then [line] else []) + TextLines(rest)
    case Conditional(_, then_, _, else_, _, rest) => TextLines(then_) + TextLines(else_) + TextLines(rest)
  }

  /** A build that is not the plane's keeps the first branch of a conditional exactly when its line does
      not name the plane build. */
  predicate KeepsFirst(ifLine: string) {
    !Occurs(PLANE_MARKER, ifLine)
  }

  /** The loop looks for the marker in the stripped line; it is the same as looking in the whole one. */
  lemma ConditionMeans(line: string)
    requires Classify(line).IfLine?
    ensures Classify(line).keep == KeepsFirst(line)
  {
    hide LStrip, Occurs;
    OccursStripped(PLANE_MARKER, line);
  }

  lemma {:induction false} OccursStripped(pattern: string, line: string)
    requires pattern != "" && !IsBlank(pattern[0])
    ensures Occurs(pattern, LStrip(line)) == Occurs(pattern, line)
  {
    if line == "" || !IsBlank(line[0]) {
    } else {
      OccursStripped(pattern, line[1..]);
      assert !(pattern <= line) by {
        assert line[0] != pattern[0];
      }
    }
  }

  /** What occurring means. */
  lemma {:induction false} OccursIff(pattern: string, text: string)
    ensures Occurs(pattern, text) <==> exists i: nat :: i <= |text| && pattern <= text[i..]
  {
    if text == "" {
      assert text[0..] == text;
    } else {
      OccursIff(pattern, text[1..]);
      assert text[0..] == text;
      forall i: nat | i <= |text| && pattern <= text[i..]
        ensures Occurs(pattern, text)
      {
        if i > 0 {
          assert text[i..] == text[1..][i - 1..];
        }
      }
      if j: nat :| j <= |text[1..]| && pattern <= text[1..][j..] {
        assert text[j + 1..] == text[1..][j..];
      }
    }
  }

  /** Indentation does not change what a line is. */
  lemma IndentationIgnored(c: char, line: string)
    requires IsBlank(c)
    ensures Classify([c] + line) == Classify(line)
  {
    hide Occurs;
    assert ([c] + line)[1..] == line;
  }

  /** What the directives are, and that any other line beginning with neither blank nor `#` is text. */
  lemma KindsOfLines(c: char, rest: string)
    ensures Classify("#if" + rest).IfLine? && Classify("#else" + rest).ElseLine?
    ensures Classify("#endif" + rest).EndifLine? && Classify("#elif" + rest).ElifLine?
    ensures !IsBlank(c) && c != '#' ==> Classify([c] + rest).TextLine?
  {
    hide Occurs;
    assert ("#if" + rest)[0] == '#' && ("#else" + rest)[0] == '#' && ("#endif" + rest)[0] == '#';
    assert ("#elif" + rest)[0] == '#' && ([c] + rest)[0] == c;
    assert ("#else" + rest)[1] == 'e' && ("#endif" + rest)[1] == 'e' && ("#elif" + rest)[1] == 'e';
    assert ("#endif" + rest)[2] == 'n' && ("#elif" + rest)[3] == 'i';
  }

  /** Stripping takes blanks off the front, and all of them. */
  lemma {:induction false} LStripSpec(s: string) returns (k: nat)
    ensures k <= |s| && LStrip(s) == s[k..] && forall i :: 0 <= i < k ==> IsBlank(s[i])
    ensures LStrip(s) == "" || !IsBlank(LStrip(s)[0])
  {
    if s == "" || !IsBlank(s[0]) {
      k := 0;
    } else {
      k := LStripSpec(s[1..]);
      k := k + 1;
      assert s[1..][k - 1..] == s[k..];
      assert forall i :: 1 <= i < k ==> s[i] == s[1..][i - 1];
    }
  }

  /** The lines of a block a build keeps: of each conditional one branch, the first exactly when
      its condition does not name the plane build. */
  function Kept(b: Block): seq<string> {
    match b
    case End => []
    case Line(line, rest) => (if Classify(line).TextLine? then [line] else []) + Kept(rest)
    case Conditional(ifLine, then_, _, else_, _, rest) =>
      (if KeepsFirst(ifLine) then Kept(then_) else Kept(else_)) + Kept(rest)
  }

  /** The text lines of a block a build drops. */
  function Dropped(b: Block): seq<string> {
    match b
    case End => []
    case Line(line, rest) => Dropped(rest)
    case Conditional(ifLine, then_, _, else_, _, rest) =>
      (if KeepsFirst(ifLine) then Dropped(then_) + TextLines(else_)
       else TextLines(then_) + Dropped(else_)) + Dropped(rest)
  }

  lemma {:induction false} ScanConcat(s: Scan, a: seq<string>, b: seq<string>)
    ensures ScanLines(s, a + b) == ScanLines(ScanLines(s, a), b)
    decreases |b|
  {
    hide ScanLine;
    if b == [] {
      assert a + b == a;
    } else {
      var n := |b| - 1;
      assert (a + b)[..|a + b| - 1] == a + b[..n];
      ScanConcat(s, a, b[..n]);
    }
  }

  lemma ScanOne(s: Scan, line: string)
    ensures ScanLines(s, [line]) == ScanLine(s, line)
  {
    assert [line][..0] == [];
  }

  /** What scanning a whole block does from any state: the stack is back where it was, and the
      block's kept and dropped lines went to their lists; inside a conditional that is not
      emitting, all of its text was dropped. */
  function AfterBlock(s: Scan, b: Block): Scan {
    if AllTrue(s.stack) then s.(out := s.out + Kept(b), dropped := s.dropped + Dropped(b))
    else s.(dropped := s.dropped + TextLines(b))
  }

  lemma {:induction false} ScanBlock(s: Scan, b: Block)
    requires WellFormed(b)
    ensures ScanLines(s, Rendered(b)) == AfterBlock(s, b)
    decreases b
  {
    hide Classify, WellFormed, Rendered, ScanLine, ScanLines, AfterBlock, Opened, AfterConditional, Switched, Middle,
      Kept, Dropped, TextLines;
    match b
    case End =>
      EmptyBlock(s);
    case Line(line, rest) =>
      LineParts(s, b);
      ScanBlock(ScanLine(s, line), rest);
    case Conditional(ifLine, then_, elseLine, else_, endifLine, rest) =>
      ConditionalParts(b);
      ConditionalLines(s, b);
      ConditionalStates(s, b);
      ScanBlock(Opened(s, b), then_);
      ScanBlock(Switched(s, b), else_);
      ScanBlock(AfterConditional(s, b), rest);
      AfterRest(s, b);
  }

  lemma EmptyBlock(s: Scan)
    ensures ScanLines(s, Rendered(End)) == AfterBlock(s, End)
  {
  }

  lemma LineParts(s: Scan, b: Block)
    requires b.Line? && WellFormed(b)
    ensures WellFormed(b.rest)
    ensures ScanLines(s, Rendered(b)) == ScanLines(ScanLine(s, b.line), Rendered(b.rest))
    ensures AfterBlock(ScanLine(s, b.line), b.rest) == AfterBlock(s, b)
  {
    assert ScanLines(s, Rendered(b)) == ScanLines(ScanLine(s, b.line), Rendered(b.rest)) by {
      hide ScanLine, ScanLines;
      ScanConcat(s, [b.line], Rendered(b.rest));
      ScanOne(s, b.line);
    }
    LineStates(s, b);
  }

  lemma LineStates(s: Scan, b: Block)
    requires b.Line? && WellFormed(b)
    ensures AfterBlock(ScanLine(s, b.line), b.rest) == AfterBlock(s, b)
  {
    hide Classify, AllTrue;
    var text := if Classify(b.line).TextLine? then [b.line] else [];
    Associative(s.out, text, Kept(b.rest));
    Associative(s.dropped, text, TextLines(b.rest));
    assert s.out + [] == s.out && s.dropped + [] == s.dropped;
  }

  lemma Associative<T>(a: seq<T>, b: seq<T>, c: seq<T>)
    ensures a + (b + c) == a + b + c
  {
  }

  lemma ConditionalParts(b: Block)
    requires b.Conditional? && WellFormed(b)
    ensures WellFormed(b.then_) && WellFormed(b.else_) && WellFormed(b.rest)
  {
  }

  /** The scan state after each part of a conditional. */
  function Opened(s: Scan, b: Block): Scan
    requires b.Conditional?
  {
    s.(stack := s.stack + [KeepsFirst(b.ifLine)])
  }

  function AfterThen(s: Scan, b: Block): Scan
    requires b.Conditional?
  {
    AfterBlock(Opened(s, b), b.then_)
  }

  function Switched(s: Scan, b: Block): Scan
    requires b.Conditional?
  {
    if b.elseLine == None then AfterThen(s, b)
    else AfterThen(s, b).(stack := s.stack + [!KeepsFirst(b.ifLine)])
  }

  function AfterElse(s: Scan, b: Block): Scan
    requires b.Conditional?
  {
    AfterBlock(Switched(s, b), b.else_)
  }

  /** The scan state after a conditional alone, without what follows it. */
  function AfterConditional(s: Scan, b: Block): Scan
    requires b.Conditional?
  {
    if !AllTrue(s.stack) then s.(dropped := s.dropped + TextLines(b.then_) + TextLines(b.else_))
    else if KeepsFirst(b.ifLine)
    then s.(out := s.out + Kept(b.then_), dropped := s.dropped + Dropped(b.then_) + TextLines(b.else_))
    else s.(out := s.out + Kept(b.else_), dropped := s.dropped + TextLines(b.then_) + Dropped(b.else_))
  }

  function Middle(b: Block): seq<string>
    requires b.Conditional?
  {
    if b.elseLine.Some? then [b.elseLine.value] else []
  }

  /** Scanning a rendered conditional is scanning its parts in turn. */
  lemma ConditionalLines(s: Scan, b: Block)
    requires b.Conditional?
    ensures ScanLines(s, Rendered(b))
         == ScanLines(ScanLine(ScanLines(ScanLines(ScanLines(ScanLine(s, b.ifLine), Rendered(b.then_)), Middle(b)),
                                         Rendered(b.else_)), b.endifLine), Rendered(b.rest))
  {
    var t, e := Rendered(b.then_), Rendered(b.else_);
    assert Rendered(b) == [b.ifLine] + t + Middle(b) + e + [b.endifLine] + Rendered(b.rest);
    hide ScanLine, ScanLines, Rendered, Middle;
    var p2 := [b.ifLine] + t;
    var p3 := p2 + Middle(b);
    var p4 := p3 + e;
    ScanConcat(s, p4 + [b.endifLine], Rendered(b.rest));
    ScanConcat(s, p4, [b.endifLine]);
    ScanConcat(s, p3, e);
    ScanConcat(s, p2, Middle(b));
    ScanConcat(s, [b.ifLine], t);
    ScanOne(s, b.ifLine);
    ScanOne(ScanLines(s, p4), b.endifLine);
  }

  lemma ConditionalStates(s: Scan, b: Block)
    requires b.Conditional? && WellFormed(b)
    ensures ScanLine(s, b.ifLine) == Opened(s, b)
    ensures ScanLines(AfterThen(s, b), Middle(b)) == Switched(s, b)
    ensures ScanLine(AfterElse(s, b), b.endifLine) == AfterConditional(s, b)
  {
    hide Classify, KeepsFirst, Kept, Dropped, TextLines, WellFormed, AllTrue, ScanLines;
    ConditionalKinds(b);
    var keep := KeepsFirst(b.ifLine);
    StackTops(s.stack, keep);
    EmptyElse(b);
    if b.elseLine.Some? {
      ScanOne(AfterThen(s, b), b.elseLine.value);
    } else {
      ScanNone(AfterThen(s, b));
    }
  }

  lemma ScanNone(s: Scan)
    ensures ScanLines(s, []) == s
  {
  }

  lemma ConditionalKinds(b: Block)
    requires b.Conditional? && WellFormed(b)
    ensures Classify(b.ifLine).IfLine? && Classify(b.endifLine).EndifLine?
    ensures b.elseLine.Some? ==> Classify(b.elseLine.value).ElseLine?
    ensures Classify(b.ifLine).keep == KeepsFirst(b.ifLine)
  {
    hide Classify, KeepsFirst;
    ConditionMeans(b.ifLine);
  }

  lemma AfterRest(s: Scan, b: Block)
    requires b.Conditional?
    ensures AfterBlock(AfterConditional(s, b), b.rest) == AfterBlock(s, b)
  {
    hide Classify, KeepsFirst, AllTrue;
  }

  lemma StackTops(stack: seq<bool>, keep: bool)
    ensures AllTrue(stack + [keep]) <==> AllTrue(stack) && keep
    ensures AllTrue(stack + [!keep]) <==> AllTrue(stack) && !keep
    ensures (stack + [keep])[|stack| := !keep] == stack + [!keep]
    ensures (stack + [keep])[..|stack|] == stack && (stack + [!keep])[..|stack|] == stack
  {
    assert forall k: bool, i :: 0 <= i < |stack| ==> (stack + [k])[i] == stack[i];
    assert forall k: bool :: (stack + [k])[|stack|] == k;
  }

  lemma EmptyElse(b: Block)
    requires b.Conditional? && WellFormed(b)
    ensures b.elseLine == None ==> Kept(b.else_) == [] && Dropped(b.else_) == [] && TextLines(b.else_) == []
  {
  }

  /** Conditional filtering preserves meaning: on the text of any well-nested block the stack loop
      keeps exactly the lines the block's own evaluation keeps, and drops exactly the others. */
  lemma FilteringPreservesMeaning(b: Block)
    requires WellFormed(b)
    ensures ScanLines(Scan([], [], []), Rendered(b)) == Scan([], Kept(b), Dropped(b))
  {
    ScanBlock(Scan([], [], []), b);
  }

  // ---- which texts are well-nested --------------------------------------

  /** Well-nestedness read off the lines: `open` holds, for each conditional still open, whether its
      #else has been seen. No stray #else or #endif, one #else at most, no #elif, everything
      closed. */
  predicate WellNested(open: seq<bool>, lines: seq<string>)
    decreases |lines|
  {
    if lines == [] then open == []
    else
      var top := |open| - 1;
      match Classify(lines[0])
      case IfLine(_) => WellNested(open + [false], lines[1..])
      case ElseLine => open != [] && !open[top] && WellNested(open[..top] + [true], lines[1..])
      case EndifLine => open != [] && WellNested(open[..top], lines[1..])
      case ElifLine => false
      case _ => WellNested(open, lines[1..])
  }

  /** Read the longest block off the front of well-nested text. */
  lemma {:induction false} ReadBlock(open: seq<bool>, lines: seq<string>) returns (b: Block, rest: seq<string>)
    requires WellNested(open, lines)
    ensures WellFormed(b) && lines == Rendered(b) + rest
    ensures WellNested(open, rest)
    ensures if rest == [] then open == [] else Classify(rest[0]).ElseLine? || Classify(rest[0]).EndifLine?
    decreases |lines|
  {
    hide Classify;
    if lines == [] {
      return End, [];
    }
    match Classify(lines[0])
    case ElseLine => return End, lines;
    case EndifLine => return End, lines;
    case ElifLine => assert false;
    case IfLine(_) =>
      b, rest := ReadConditional(open, lines);
    case _ =>
      var following, r := ReadBlock(open, lines[1..]);
      assert lines == [lines[0]] + lines[1..];
      return Line(lines[0], following), r;
  }

  lemma {:induction false} ReadConditional(open: seq<bool>, lines: seq<string>) returns (b: Block, rest: seq<string>)
    requires WellNested(open, lines) && lines != [] && Classify(lines[0]).IfLine?
    ensures WellFormed(b) && lines == Rendered(b) + rest
    ensures WellNested(open, rest)
    ensures if rest == [] then open == [] else Classify(rest[0]).ElseLine? || Classify(rest[0]).EndifLine?
    decreases |lines|, 0
  {
    hide Classify;
    assert (open + [false])[..|open|] == open && (open + [true])[..|open|] == open;
    var then_, r1 := ReadBlock(open + [false], lines[1..]);
    var elseLine: Option<string>, else_, r2 := None, End, r1;
    if Classify(r1[0]).ElseLine? {
      elseLine := Some(r1[0]);
      else_, r2 := ReadBlock(open + [true], r1[1..]);
    }
    var following, r3 := ReadBlock(open, r2[1..]);
    b, rest := Conditional(lines[0], then_, elseLine, else_, r2[0], following), r3;
    Reassembled(b, lines, r1, r2, r3);
  }

  lemma Reassembled(b: Block, lines: seq<string>, r1: seq<string>, r2: seq<string>, r3: seq<string>)
    requires b.Conditional? && lines != [] && r2 != []
    requires lines[0] == b.ifLine && lines[1..] == Rendered(b.then_) + r1
    requires r1 == Middle(b) + Rendered(b.else_) + r2
    requires r2[0] == b.endifLine && r2[1..] == Rendered(b.rest) + r3
    ensures lines == Rendered(b) + r3
  {
    var t, e, tail := Rendered(b.then_), Rendered(b.else_), Rendered(b.rest);
    assert lines == [b.ifLine] + (t + (Middle(b) + e + ([b.endifLine] + (tail + r3)))) by {
      hide Rendered, Middle;
      assert lines == [lines[0]] + lines[1..] && r2 == [r2[0]] + r2[1..];
    }
    ConditionalRendered(b, r3);
  }

  /** A rendered conditional and what follows it, grouped from the left and from the right. */
  lemma ConditionalRendered(b: Block, after: seq<string>)
    requires b.Conditional?
    ensures Rendered(b) + after
         == [b.ifLine] + (Rendered(b.then_) + (Middle(b) + Rendered(b.else_)
                                               + ([b.endifLine] + (Rendered(b.rest) + after))))
  {
    var t, e, tail := Rendered(b.then_), Rendered(b.else_), Rendered(b.rest);
    assert Rendered(b) == [b.ifLine] + t + Middle(b) + e + [b.endifLine] + tail;
    hide Rendered, Middle;
    var m := Middle(b);
    Associative([b.endifLine], tail, after);
    Associative([b.ifLine] + t + m + e, [b.endifLine], tail);
    Associative([b.ifLine] + t + m + e, [b.endifLine] + tail, after);
    Associative([b.ifLine] + t, m, e);
    Associative([b.ifLine] + t, m + e, [b.endifLine] + (tail + after));
    Associative([b.ifLine], t, m + e + ([b.endifLine] + (tail + after)));
  }

  /** A block in the middle of a text does not affect what is open around it. */
  lemma {:induction false} BlockIsNeutral(open: seq<bool>, b: Block, rest: seq<string>)
    requires WellFormed(b)
    ensures WellNested(open, Rendered(b) + rest) == WellNested(open, rest)
    decreases b
  {
    hide Classify;
    match b
    case End =>
      assert [] + rest == rest;
    case Line(line, following) =>
      Uncons(line, Rendered(following), rest);
      BlockIsNeutral(open, following, rest);
    case Conditional(ifLine, then_, elseLine, else_, endifLine, following) =>
      var tail := Rendered(following) + rest;
      var closing := [endifLine] + tail;
      var branch := Rendered(else_) + closing;
      var switching := Middle(b) + branch;
      ConditionalRendered(b, rest);
      Associative(Middle(b), Rendered(else_), closing);
      assert (open + [false])[..|open|] == open && (open + [true])[..|open|] == open;
      Unconsed(ifLine, Rendered(then_) + switching);
      BlockIsNeutral(open + [false], then_, switching);
      if elseLine.Some? {
        Unconsed(elseLine.value, branch);
      } else {
        assert switching == branch;
      }
      BlockIsNeutral(open + [elseLine.Some?], else_, closing);
      Unconsed(endifLine, tail);
      BlockIsNeutral(open, following, rest);
  }

  lemma Unconsed(line: string, rest: seq<string>)
    ensures ([line] + rest)[0] == line && ([line] + rest)[1..] == rest
  {
  }

  lemma Uncons(line: string, middle: seq<string>, rest: seq<string>)
    ensures [line] + middle + rest == [line] + (middle + rest)
    ensures ([line] + (middle + rest))[1..] == middle + rest
  {
  }

  /** The blocks are exactly the well-nested texts, so `FilteringPreservesMeaning` speaks about
      every one of them. */
  lemma WellNestedIffBlock(lines: seq<string>)
    ensures WellNested([], lines) <==> exists b :: WellFormed(b) && Rendered(b) == lines
  {
    hide WellNested, WellFormed, Rendered, Classify;
    if WellNested([], lines) {
      var b, rest := ReadBlock([], lines);
      NothingOpen(rest);
      assert Rendered(b) + [] == Rendered(b);
    }
    if b :| WellFormed(b) && Rendered(b) == lines {
      BlockIsNeutral([], b, []);
      assert Rendered(b) + [] == lines;
      EmptyNested();
    }
  }

  lemma NothingOpen(rest: seq<string>)
    requires WellNested([], rest)
    ensures rest == [] || (!Classify(rest[0]).ElseLine? && !Classify(rest[0]).EndifLine?)
  {
    hide Classify;
  }

  lemma EmptyNested()
    ensures WellNested([], [])
  {
  }

  /** The filter on whole texts: a well-nested text is the text of a block, and the filtered text has
      exactly the lines that block keeps, except that a last empty one is lost. */
  lemma FilteredTextMeaning(text: string) returns (b: Block)
    requires WellNested([], SplitLines(text))
    ensures WellFormed(b) && Rendered(b) == SplitLines(text)
    ensures Scanned(text).dropped == Dropped(b)
    ensures SplitLines(Join(Scanned(text).out)) == WithoutLastEmpty(Kept(b))
  {
    hide WellNested, WellFormed, Rendered, Classify, SplitLines, Kept, Dropped, Join, WithoutLastEmpty;
    var lines := SplitLines(text);
    WellNestedIffBlock(lines);
    b :| WellFormed(b) && Rendered(b) == lines;
    FilteringPreservesMeaning(b);
    KeptAreLines(Scan([], [], []), lines);
    SplitOfJoin(Scanned(text).out);
  }

  lemma {:induction false} KeptAreLines(s: Scan, lines: seq<string>)
    requires forall i :: 0 <= i < |s.out| ==> Unbroken(s.out[i])
    requires forall i :: 0 <= i < |lines| ==> Unbroken(lines[i])
    ensures forall i :: 0 <= i < |ScanLines(s, lines).out| ==> Unbroken(ScanLines(s, lines).out[i])
  {
    hide Classify, Unbroken, AllTrue;
    if lines == [] {
    } else {
      KeptAreLines(s, lines[..|lines| - 1]);
    }
  }

  /** Text with #elif is outside that theorem, and has to be: the loop does as if such lines were not
      there, so it keeps both branches or none. */
  lemma {:induction false} ElifIgnored(s: Scan, lines: seq<string>)
    ensures ScanLines(s, lines) == ScanLines(s, WithoutElif(lines))
  {
    hide Classify;
    if lines == [] {
    } else {
      var n := |lines| - 1;
      ElifIgnored(s, lines[..n]);
      if Classify(lines[n]).ElifLine? {
        assert WithoutElif(lines) == WithoutElif(lines[..n]);
      } else {
        ScanConcat(s, WithoutElif(lines[..n]), [lines[n]]);
        ScanOne(ScanLines(s, WithoutElif(lines[..n])), lines[n]);
      }
    }
  }

  function WithoutElif(lines: seq<string>): seq<string> {
    if lines == [] then []
    else
      WithoutElif(lines[..|lines| - 1])
      + if Classify(lines[|lines| - 1]).ElifLine? then [] else [lines[|lines| - 1]]
  }

  /** Whatever the nesting, every text line is kept or dropped, none of them twice. */
  lemma {:induction false} NothingLost(lines: seq<string>)
    ensures var end := ScanLines(Scan([], [], []), lines);
      multiset(end.out) + multiset(end.dropped) == multiset(OnlyText(lines))
  {
    hide ScanLine;
    if lines == [] {
    } else {
      var n := |lines| - 1;
      NothingLost(lines[..n]);
      OneMore(ScanLines(Scan([], [], []), lines[..n]), OnlyText(lines[..n]), lines[n]);
    }
  }

  lemma OneMore(s: Scan, text: seq<string>, line: string)
    requires multiset(s.out) + multiset(s.dropped) == multiset(text)
    ensures var next := ScanLine(s, line);
      multiset(next.out) + multiset(next.dropped) == multiset(text + if Classify(line).TextLine? then [line] else [])
  {
    hide Classify, AllTrue;
    assert text + [] == text;
  }

  function OnlyText(lines: seq<string>): seq<string> {
    if lines == [] then []
    else OnlyText(lines[..|lines| - 1]) + if Classify(lines[|lines| - 1]).TextLine? then [lines[|lines| - 1]] else []
  }
}
