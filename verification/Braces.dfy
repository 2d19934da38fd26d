/** `body_of`: the text between a function's opening brace and the brace that matches it. */
module Braces {

  /** The value of `body_of`, with its two exceptions: no brace after the name, and no match. */
  datatype BodyResult = Missing | Body(text: string) | NoBrace | Unbalanced

  datatype Position = Nowhere | At(index: nat)

  predicate OccursAt(text: string, pattern: string, i: nat) {
    i + |pattern| <= |text| && text[i..i + |pattern|] == pattern
  }

  /** Python's `find` from a starting index: the first occurrence. */
  function Find(text: string, pattern: string, from: nat): (position: Position)
    ensures position.At? ==> from <= position.index && OccursAt(text, pattern, position.index)
    ensures forall i: nat :: from <= i && (position.At? ==> i < position.index) ==> !OccursAt(text, pattern, i)
    decreases |text| - from
  {
    if from + |pattern| > |text| then Nowhere
    else if OccursAt(text, pattern, from) then At(from)
    else Find(text, pattern, from + 1)
  }

  // ---- balance ----------------------------------------------------------

  function Weight(c: char): int {
    if c == '{' then 1 else if c == '}' then -1 else 0
  }

  /** Open minus closed braces. */
  function Depth(s: string): int {
    if s == "" then 0 else Depth(s[..|s| - 1]) + Weight(s[|s| - 1])
  }

  /** As many closed as opened, and never more closed than opened. */
  ghost predicate Balanced(s: string) {
    Depth(s) == 0 && forall i :: 0 <= i <= |s| ==> Depth(s[..i]) >= 0
  }

  /** The brace at `close` matches the one at `open`: the text between them is balanced. */
  ghost predicate Matches(text: string, open: nat, close: nat) {
    open < close < |text| && text[open] == '{' && text[close] == '}' && Balanced(text[open + 1..close])
  }

  /** The depth reached after the opening brace. */
  function InnerDepth(text: string, open: nat, i: nat): int
    requires open < i <= |text|
  {
    Depth(text[open + 1..i])
  }

  lemma DepthStep(text: string, from: nat, i: nat)
    requires from <= i < |text|
    ensures Depth(text[from..i + 1]) == Depth(text[from..i]) + Weight(text[i])
  {
    assert text[from..i + 1][..i - from] == text[from..i];
  }

  /** The counter of the scan is one more than the depth of the text after the opening brace. */
  lemma {:induction false} DepthAfterOpen(text: string, open: nat, i: nat)
    requires open < i <= |text| && text[open] == '{'
    ensures Depth(text[open..i]) == 1 + Depth(text[open + 1..i])
  {
    DepthStep(text, open, i - 1);
    if i == open + 1 {
      assert text[open..open] == "" && text[open + 1..open + 1] == "";
    } else {
      DepthStep(text, open + 1, i - 1);
      DepthAfterOpen(text, open, i - 1);
    }
  }

  /** A brace is matched by at most one other. */
  lemma MatchUnique(text: string, open: nat, i: nat, j: nat)
    requires Matches(text, open, i) && Matches(text, open, j)
    ensures i == j
  {
    if i < j {
      ClosedTooEarly(text, open, i, j);
    } else if j < i {
      ClosedTooEarly(text, open, j, i);
    }
  }

  lemma ClosedTooEarly(text: string, open: nat, i: nat, j: nat)
    requires Matches(text, open, i) && open < i < j < |text|
    ensures !Balanced(text[open + 1..j])
  {
    var inner := text[open + 1..j];
    assert inner[..i - open] == text[open + 1..i + 1];
    DepthStep(text, open + 1, i);
  }

  // ---- the scan ---------------------------------------------------------

  /** `body_of`: `Missing` when the function's name does not occur; otherwise the unique balanced
      text between the first brace after the name and the brace that matches it, or the exception
      that says which of the two does not exist. */
  method BodyOf(text: string, fn: string) returns (r: BodyResult)
    ensures var start := Find(text, "AP_MotorsMatrix::" + fn + "(", 0);
      if start == Nowhere then r == Missing
      else
        var brace := Find(text, "{", start.index);
        if brace == Nowhere then r == NoBrace
        else if r.Body? then
          exists close: nat :: Matches(text, brace.index, close) && r.text == text[brace.index + 1..close]
        else r == Unbalanced && forall close: nat :: !Matches(text, brace.index, close)
  {
    var start := Find(text, "AP_MotorsMatrix::" + fn + "(", 0);
    if start == Nowhere {
      return Missing;
    }
    var brace := Find(text, "{", start.index);
    if brace == Nowhere {
      return NoBrace;
    }
    assert text[brace.index..brace.index + 1][0] == text[brace.index];
    r := ScanBody(text, brace.index);
  }

  method ScanBody(text: string, open: nat) returns (r: BodyResult)
    requires open < |text| && text[open] == '{'
    ensures r.Body? || r == Unbalanced
    ensures r.Body? ==> exists close: nat :: Matches(text, open, close) && r.text == text[open + 1..close]
    ensures r == Unbalanced ==> forall close: nat :: !Matches(text, open, close)
  {
    var depth := 0;
    for i := open to |text|
      invariant depth == Depth(text[open..i])
      invariant forall j :: open < j <= i ==> InnerDepth(text, open, j) >= 0
      invariant forall j: nat :: j < i ==> !Matches(text, open, j)
    {
      DepthStep(text, open, i);
      if text[i] == '{' {
        depth := depth + 1;
      } else if text[i] == '}' {
        depth := depth - 1;
        if depth == 0 {
          FirstReturn(text, open, i);
          return Body(text[open + 1..i]);
        }
      }
      DepthAfterOpen(text, open, i + 1);
      StillOpen(text, open, i);
    }
    return Unbalanced;
  }

  /** When the counter first returns to zero, the text in between is balanced. */
  lemma FirstReturn(text: string, open: nat, i: nat)
    requires open <= i < |text| && text[open] == '{' && text[i] == '}'
    requires forall j :: open < j <= i ==> InnerDepth(text, open, j) >= 0
    requires Depth(text[open..i + 1]) == 0
    ensures Matches(text, open, i)
  {
    DepthStep(text, open, i);
    DepthAfterOpen(text, open, i);
    var inner := text[open + 1..i];
    forall k | 0 <= k <= |inner|
      ensures Depth(inner[..k]) >= 0
    {
      assert inner[..k] == text[open + 1..open + 1 + k];
      assert InnerDepth(text, open, open + 1 + k) >= 0;
    }
  }

  /** While the counter is not zero, no match has been passed. */
  lemma StillOpen(text: string, open: nat, i: nat)
    requires open <= i < |text| && text[open] == '{'
    requires i > open ==> InnerDepth(text, open, i) >= 0
    requires text[i] == '}' ==> Depth(text[open..i + 1]) != 0
    ensures !Matches(text, open, i)
    ensures InnerDepth(text, open, i + 1) >= 0
  {
    DepthAfterOpen(text, open, i + 1);
    if i > open {
      DepthStep(text, open + 1, i);
    }
  }

  // ---- the round trip ---------------------------------------------------

  /** Text in which every brace is matched. */
  datatype Braced = Nil | Plain(c: char, rest: Braced) | Group(inner: Braced, rest: Braced)

  function Text(b: Braced): string {
    match b
    case Nil => ""
    case Plain(c, rest) => [c] + Text(rest)
    case Group(inner, rest) => "{" + Text(inner) + "}" + Text(rest)
  }

  predicate NoStrayBrace(b: Braced) {
    match b
    case Nil => true
    case Plain(c, rest) => c != '{' && c != '}' && NoStrayBrace(rest)
    case Group(inner, rest) => NoStrayBrace(inner) && NoStrayBrace(rest)
  }

  lemma {:induction false} DepthConcat(s: string, t: string)
    ensures Depth(s + t) == Depth(s) + Depth(t)
    decreases |t|
  {
    if t == "" {
      assert s + t == s;
    } else {
      assert (s + t)[..|s + t| - 1] == s + t[..|t| - 1];
      DepthConcat(s, t[..|t| - 1]);
    }
  }

  lemma DepthOne(c: char)
    ensures Depth([c]) == Weight(c)
  {
    assert [c][..0] == "";
  }

  lemma BalancedConcat(s: string, t: string)
    requires Balanced(s) && Balanced(t)
    ensures Balanced(s + t)
  {
    DepthConcat(s, t);
    forall i | 0 <= i <= |s + t|
      ensures Depth((s + t)[..i]) >= 0
    {
      if i <= |s| {
        assert (s + t)[..i] == s[..i];
      } else {
        assert (s + t)[..i] == s + t[..i - |s|];
        DepthConcat(s, t[..i - |s|]);
      }
    }
  }

  lemma BalancedGroup(s: string)
    requires Balanced(s)
    ensures Balanced("{" + s + "}")
  {
    var whole := "{" + s + "}";
    DepthOne('{');
    DepthOne('}');
    DepthConcat("{", s);
    DepthConcat("{" + s, "}");
    forall i | 0 <= i <= |whole|
      ensures Depth(whole[..i]) >= 0
    {
      if 0 < i <= |s| + 1 {
        assert whole[..i] == "{" + s[..i - 1];
        DepthConcat("{", s[..i - 1]);
      } else if i == |whole| {
        assert whole[..i] == whole;
      }
    }
  }

  lemma BalancedChar(c: char)
    requires c != '{' && c != '}'
    ensures Balanced([c])
  {
    DepthOne(c);
    assert [c][..0] == "" && [c][..1] == [c];
  }

  /** Every grammatical text is balanced. */
  lemma {:induction false} TextBalanced(b: Braced)
    requires NoStrayBrace(b)
    ensures Balanced(Text(b))
  {
    match b
    case Nil =>
    case Plain(c, rest) =>
      BalancedChar(c);
      TextBalanced(rest);
      BalancedConcat([c], Text(rest));
    case Group(inner, rest) =>
      TextBalanced(inner);
      TextBalanced(rest);
      BalancedGroup(Text(inner));
      BalancedConcat("{" + Text(inner) + "}", Text(rest));
  }

  /** Every balanced text is grammatical: with `TextBalanced`, counting braces and nesting them
      are the same thing. */
  lemma {:induction false} BalancedIsText(s: string) returns (b: Braced)
    requires Balanced(s)
    ensures NoStrayBrace(b) && Text(b) == s
    decreases |s|
  {
    if s == "" {
      return Nil;
    }
    if s[0] != '{' {
      PlainFirst(s);
      var rest := BalancedIsText(s[1..]);
      b := Plain(s[0], rest);
    } else {
      var close := GroupFirst(s);
      var inner := BalancedIsText(s[1..close]);
      var rest := BalancedIsText(s[close + 1..]);
      b := Group(inner, rest);
    }
  }

  /** A balanced text starting with no opening brace starts with a plain character. */
  lemma PlainFirst(s: string)
    requires Balanced(s) && s != "" && s[0] != '{'
    ensures s[0] != '}' && Balanced(s[1..]) && s == [s[0]] + s[1..]
  {
    DepthOne(s[0]);
    assert s[..1] == [s[0]];
    assert Depth(s[..1]) >= 0;
    BalancedTail(s, 1);
  }

  /** A balanced text starting with an opening brace starts with a balanced group. */
  lemma GroupFirst(s: string) returns (close: nat)
    requires Balanced(s) && s != "" && s[0] == '{'
    ensures 0 < close < |s| && Balanced(s[1..close]) && Balanced(s[close + 1..])
    ensures s == "{" + s[1..close] + "}" + s[close + 1..]
  {
    close := MatchInside(s);
    DepthStep(s, 0, close);
    DepthAfterOpen(s, 0, close);
    assert s[0..close + 1] == s[..close + 1];
    BalancedTail(s, close + 1);
  }

  lemma BalancedTail(s: string, i: nat)
    requires Balanced(s) && i <= |s| && Depth(s[..i]) == 0
    ensures Balanced(s[i..])
  {
    assert s == s[..i] + s[i..];
    DepthConcat(s[..i], s[i..]);
    forall k | 0 <= k <= |s[i..]|
      ensures Depth(s[i..][..k]) >= 0
    {
      assert s[..i + k] == s[..i] + s[i..][..k];
      DepthConcat(s[..i], s[i..][..k]);
    }
  }

  /** A balanced text that opens with a brace contains the brace matching it. */
  lemma MatchInside(s: string) returns (close: nat)
    requires Balanced(s) && s != "" && s[0] == '{'
    ensures Matches(s, 0, close)
  {
    assert s[..|s|] == s;
    var i := 0;
    while i < |s|
      invariant 0 <= i <= |s|
      invariant i > 0 ==> Depth(s[..i]) >= 1
      invariant forall j :: 0 < j <= i ==> InnerDepth(s, 0, j) >= 0
    {
      DepthStep(s, 0, i);
      assert s[0..i + 1] == s[..i + 1] && s[0..i] == s[..i];
      if i > 0 && Depth(s[..i + 1]) == 0 {
        FirstReturn(s, 0, i);
        return i;
      }
      DepthAfterOpen(s, 0, i + 1);
      i := i + 1;
    }
    assert false;
  }

  /** Round trip: put any text with matched braces after a function's opening brace, and the
      matching brace found is the one that closes it. */
  lemma GroupMatches(before: string, b: Braced, after: string)
    requires NoStrayBrace(b)
    ensures var text := before + "{" + Text(b) + "}" + after;
      var close := |before| + 1 + |Text(b)|;
      Matches(text, |before|, close) && text[|before| + 1..close] == Text(b)
  {
    TextBalanced(b);
    var text := before + "{" + Text(b) + "}" + after;
    assert text[|before| + 1..|before| + 1 + |Text(b)|] == Text(b);
  }
}
