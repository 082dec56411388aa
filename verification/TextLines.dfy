/** Occurrences of a piece of text: how they are counted, found and spread over the lines of a document. */
module TextLines {
  import opened Text

  /** `text.count(pattern)`. */
  function Count(text: string, pattern: string): nat
    requires pattern != ""
    decreases |text|
  {
    if |text| < |pattern| then 0
    else if StartsWith(text, pattern) then 1 + Count(text[|pattern|..], pattern)
    else Count(text[1..], pattern)
  }

  /** `text.index(pattern)`, where it occurs. */
  function Index(text: string, pattern: string): (i: nat)
    requires pattern != "" && Count(text, pattern) > 0
    ensures i + |pattern| <= |text| && StartsWith(text[i..], pattern)
  {
    if StartsWith(text, pattern) then 0 else 1 + Index(text[1..], pattern)
  }

  // ---------------------------------------------------------------- counting across a separator

  /** A character that the pattern does not hold separates its occurrences. */
  lemma {:induction false} CountAcross(x: string, c: char, y: string, p: string)
    requires p != "" && c !in p
    ensures Count(x + [c] + y, p) == Count(x, p) + Count(y, p)
    decreases |x|
  {
    var t := x + [c] + y;
    assert t[|x|] == c;
    if |x| < |p| {
      if |t| >= |p| { assert t[..|p|][|x|] == c; }
      if x == "" {
        assert t[1..] == y;
      } else {
        assert t[1..] == x[1..] + [c] + y;
        CountAcross(x[1..], c, y, p);
      }
    } else {
      assert t[..|p|] == x[..|p|];
      if StartsWith(x, p) {
        assert t[|p|..] == x[|p|..] + [c] + y;
        CountAcross(x[|p|..], c, y, p);
      } else {
        assert t[1..] == x[1..] + [c] + y;
        CountAcross(x[1..], c, y, p);
      }
    }
  }

  lemma {:induction false} CountShort(x: string, p: string)
    requires p != "" && |x| < |p|
    ensures Count(x, p) == 0
  {}

  /** Without the pattern's first character there is no occurrence. */
  lemma {:induction false} CountNone(x: string, p: string)
    requires p != "" && p[0] !in x
    ensures Count(x, p) == 0
    decreases |x|
  {
    if |x| >= |p| {
      assert x[..|p|][0] == x[0];
      CountNone(x[1..], p);
    }
  }

  lemma {:induction false} CountLead(c: char, x: string, p: string)
    requires p != "" && c != p[0]
    ensures Count([c] + x, p) == Count(x, p)
  {
    assert ([c] + x)[1..] == x;
    if |x| + 1 >= |p| { assert ([c] + x)[..|p|][0] == c; }
  }

  lemma {:induction false} CountTail(x: string, c: char, p: string)
    requires p != "" && c != p[|p| - 1]
    ensures Count(x + [c], p) == Count(x, p)
    decreases |x|
  {
    var t := x + [c];
    if |x| + 1 == |p| {
      assert t[..|p|][|p| - 1] == c;
      if x != "" { CountShort(t[1..], p); }
    } else if |x| >= |p| {
      assert t[..|p|] == x[..|p|];
      if StartsWith(x, p) {
        assert t[|p|..] == x[|p|..] + [c];
        CountTail(x[|p|..], c, p);
      } else {
        assert t[1..] == x[1..] + [c];
        CountTail(x[1..], c, p);
      }
    }
  }

  lemma {:induction false} CountSelf(p: string)
    requires p != ""
    ensures Count(p, p) == 1
  {
    assert p[..|p|] == p && p[|p|..] == "";
  }

  /** Text that ends in a character foreign to the pattern, and does not hold it, comes before its first place. */
  lemma {:induction false} IndexAfter(x: string, y: string, p: string)
    requires p != "" && (x == "" || x[|x| - 1] !in p) && Count(x, p) == 0 && StartsWith(y, p)
    ensures Count(x + y, p) > 0 && Index(x + y, p) == |x|
    decreases |x|
  {
    var t := x + y;
    if x == "" {
      assert t == y;
    } else {
      assert !StartsWith(t, p) by {
        if |x| >= |p| { assert t[..|p|] == x[..|p|]; }
        else if |t| >= |p| { assert t[..|p|][|x| - 1] == x[|x| - 1]; }
      }
      assert t[1..] == x[1..] + y;
      if |x| < |p| { CountShort(x[1..], p); }
      IndexAfter(x[1..], y, p);
    }
  }

  // ---------------------------------------------------------------- lines

  /** Occurrences within the lines. */
  function Total(lines: seq<string>, p: string): nat
    requires p != ""
  {
    if lines == [] then 0 else Count(lines[0], p) + Total(lines[1..], p)
  }

  lemma {:induction false} TotalConcat(a: seq<string>, b: seq<string>, p: string)
    requires p != ""
    ensures Total(a + b, p) == Total(a, p) + Total(b, p)
    decreases |a|
  {
    if a == [] {
      assert a + b == b;
    } else {
      assert (a + b)[1..] == a[1..] + b;
      TotalConcat(a[1..], b, p);
    }
  }

  /** Every occurrence of a pattern without line breaks lies within one line. */
  lemma {:induction false} CountLines(text: string, p: string)
    requires p != "" && NoBreaks(p)
    ensures Count(text, p) == Total(SplitLines(text), p)
    decreases |text|
  {
    hide SplitLines, BreakAt, NextLine, Count, Total;
    NoLines();
    if text == "" {
      CountShort(text, p);
      TotalFirst([], p);
    } else {
      SplitStep(text);
      TotalFirst(SplitLines(text), p);
      var k := BreakAt(text);
      if k == |text| {
        TotalFirst([], p);
      } else {
        var n := NextLine(text);
        BreakOnly(text, p);
        assert text == text[..n] + text[n..];
        CountAfter(text[..n], text[n..], p);
        CountLines(text[n..], p);
        assert SplitLines(text)[1..] == SplitLines(text[n..]) && SplitLines(text)[0] == text[..k];
      }
    }
  }

  lemma {:induction false} TotalFirst(lines: seq<string>, p: string)
    requires p != ""
    ensures Total(lines, p) == if lines == [] then 0 else Count(lines[0], p) + Total(lines[1..], p)
    ensures |lines| == 1 ==> lines[1..] == []
  {
    hide Count;
  }

  /** The break that ends the first line holds no occurrence. */
  lemma {:induction false} BreakOnly(text: string, p: string)
    requires BreakAt(text) < |text| && p != "" && NoBreaks(p)
    ensures Count(text[..NextLine(text)], p) == Count(text[..BreakAt(text)], p)
  {
    hide Count;
    var k, n := BreakAt(text), NextLine(text);
    var ending := text[k..n];
    assert forall i :: 0 <= i < |ending| ==> IsBreak(ending[i]);
    assert text[..n] == text[..k] + ending;
    CountBefore(text[..k], ending, p);
    CountNone(ending, p);
  }

  predicate EndsLine(s: string) { s == "" || IsBreak(s[|s| - 1]) }

  predicate StartsLine(s: string) { s == "" || IsBreak(s[0]) }

  predicate Solid(x: string) { x != "" && !IsBreak(x[0]) && !IsBreak(x[|x| - 1]) }

  /** Where the line after the first line of a text starts: two characters further when a line feed follows a
      carriage return. */
  function NextLine(text: string): (i: nat)
    requires BreakAt(text) < |text|
    ensures BreakAt(text) < i <= |text| && IsBreak(text[i - 1])
  {
    var k := BreakAt(text);
    if text[k] == '\r' && k + 1 < |text| && text[k + 1] == '\n' then k + 2 else k + 1
  }

  lemma {:induction false} SplitStep(text: string)
    requires text != ""
    ensures SplitLines(text) ==
            if BreakAt(text) == |text| then [text] else [text[..BreakAt(text)]] + SplitLines(text[NextLine(text)..])
  {}

  lemma {:induction false} BreakSame(a: string, b: string)
    requires BreakAt(a) < |a|
    ensures BreakAt(a + b) == BreakAt(a)
    ensures NextLine(a) < |a| || b == "" || b[0] != '\n' ==> NextLine(a + b) == NextLine(a)
  {
    var k, t := BreakAt(a), a + b;
    assert forall i :: 0 <= i <= k ==> t[i] == a[i];
  }

  /** The lines of what ends a line, and then the lines of what follows. */
  lemma {:induction false} SplitAfter(pre: string, y: string)
    requires EndsLine(pre) && (y == "" || y[0] != '\n')
    ensures SplitLines(pre + y) == SplitLines(pre) + SplitLines(y)
    decreases |pre|
  {
    hide SplitLines, BreakAt, NextLine, IsBreak;
    if pre == "" {
      NoLines();
      assert pre + y == y && [] + SplitLines(y) == SplitLines(y);
    } else {
      SplitStep(pre);
      SplitStep(pre + y);
      BreakSame(pre, y);
      var n, k := NextLine(pre), BreakAt(pre);
      assert (pre + y)[n..] == pre[n..] + y && (pre + y)[..k] == pre[..k];
      SplitAfter(pre[n..], y);
      assert [pre[..k]] + (SplitLines(pre[n..]) + SplitLines(y)) == [pre[..k]] + SplitLines(pre[n..]) + SplitLines(y);
    }
  }

  /** What is left behind the line break that a text starts with. */
  function Behind(post: string): string
    requires StartsLine(post)
  {
    if post == "" then "" else post[NextLine(post)..]
  }

  lemma {:induction false} SplitBefore(y: string, post: string)
    requires y != "" && !IsBreak(y[|y| - 1]) && StartsLine(post)
    ensures SplitLines(y + post) == SplitLines(y) + SplitLines(Behind(post))
    decreases |y|
  {
    hide SplitLines, BreakAt, NextLine, IsBreak;
    var k, t := BreakAt(y), y + post;
    SplitStep(y);
    if k == |y| {
      SplitLast(y, post);
    } else {
      SplitStep(t);
      BreakSame(y, post);
      var n := NextLine(y);
      assert n < |y| by { assert y[n - 1] != y[|y| - 1]; }
      assert t[n..] == y[n..] + post && t[..k] == y[..k];
      SplitBefore(y[n..], post);
      assert [y[..k]] + (SplitLines(y[n..]) + SplitLines(Behind(post))) ==
        [y[..k]] + SplitLines(y[n..]) + SplitLines(Behind(post));
    }
  }

  lemma {:induction false} SplitLast(y: string, post: string)
    requires y != "" && NoBreaks(y) && StartsLine(post)
    ensures SplitLines(y + post) == [y] + SplitLines(Behind(post))
  {
    hide SplitLines;
    var t := y + post;
    SplitStep(t);
    if post == "" {
      NoLines();
      assert t == y;
    } else {
      assert t == y + [post[0]] + post[1..];
      BreakAfter(y, post[0], post[1..]);
      assert BreakAt(post) == 0 && t[|y| + NextLine(post)..] == post[NextLine(post)..];
      assert |post| > 1 ==> t[|y| + 1] == post[1];
      assert t[..|y|] == y;
    }
  }

  lemma {:induction false} NoLines()
    ensures SplitLines("") == []
  {}

  /** The text before line `i`, and the text from it on. */
  lemma {:induction false} CutHead(text: string, i: nat) returns (pre: string, rest: string)
    requires i < |SplitLines(text)|
    ensures text == pre + rest && EndsLine(pre)
    ensures SplitLines(pre) == SplitLines(text)[..i] && SplitLines(rest) == SplitLines(text)[i..]
    decreases i
  {
    hide SplitLines;
    NoLines();
    if i == 0 { return "", text; }
    SplitStep(text);
    var n := NextLine(text);
    pre, rest := CutHead(text[n..], i - 1);
    FirstLine(text, pre, rest);
    pre := text[..n] + pre;
    assert SplitLines(text)[1..] == SplitLines(text[n..]);
  }

  lemma {:induction false} FirstLine(text: string, x: string, y: string)
    requires text != "" && BreakAt(text) < |text| && text[NextLine(text)..] == x + y
    ensures text == text[..NextLine(text)] + x + y
    ensures SplitLines(text[..NextLine(text)] + x) == [text[..BreakAt(text)]] + SplitLines(x)
  {
    hide SplitLines;
    var n := NextLine(text);
    var whole := text[..n] + x;
    assert text == whole + y;
    assert whole[..n] == text[..n] && whole[n..] == x;
    FirstBreak(text, whole);
    SplitStep(whole);
  }

  lemma {:induction false} FirstBreak(text: string, whole: string)
    requires BreakAt(text) < |text| && NextLine(text) <= |whole| && whole <= text
    ensures BreakAt(whole) == BreakAt(text) && NextLine(whole) == NextLine(text)
    ensures whole[..BreakAt(whole)] == text[..BreakAt(text)]
  {
    var k := BreakAt(text);
    assert forall i :: 0 <= i <= k ==> whole[i] == text[i];
  }

  /** The text of the lines up to line `j`, which is not empty, and the text behind them. */
  lemma {:induction false} CutTail(text: string, j: nat) returns (x: string, post: string)
    requires j < |SplitLines(text)| && SplitLines(text)[j] != ""
    ensures text == x + post && StartsLine(post) && x != "" && !IsBreak(x[|x| - 1])
    ensures SplitLines(x) == SplitLines(text)[..j + 1] && SplitLines(Behind(post)) == SplitLines(text)[j + 1..]
    decreases j
  {
    hide SplitLines;
    NoLines();
    SplitStep(text);
    var k := BreakAt(text);
    if j == 0 {
      x, post := text[..k], text[k..];
      OneLine(x);
      if post == "" {
        assert x == text;
      } else {
        SameBreak(text, k);
        assert SplitLines(text)[0] == x && SplitLines(text)[1..] == SplitLines(text[NextLine(text)..]);
      }
    } else {
      var n := NextLine(text);
      x, post := CutTail(text[n..], j - 1);
      FirstLine(text, x, post);
      x := text[..n] + x;
      assert SplitLines(text)[1..] == SplitLines(text[n..]);
    }
  }

  lemma {:induction false} OneLine(x: string)
    requires x != "" && NoBreaks(x)
    ensures SplitLines(x) == [x]
  {}

  lemma {:induction false} SameBreak(text: string, k: nat)
    requires k == BreakAt(text) < |text|
    ensures IsBreak(text[k..][0]) && Behind(text[k..]) == text[NextLine(text)..]
  {
    var post := text[k..];
    assert BreakAt(post) == 0 && (|post| > 1 ==> post[1] == text[k + 1]);
    assert post[NextLine(post)..] == text[k + NextLine(post)..];
  }

  lemma {:induction false} CountAfter(pre: string, y: string, p: string)
    requires EndsLine(pre) && p != "" && NoBreaks(p)
    ensures Count(pre + y, p) == Count(pre, p) + Count(y, p)
  {
    CountShort("", p);
    if pre == "" {
      assert pre + y == y;
    } else {
      var x, c := pre[..|pre| - 1], pre[|pre| - 1];
      assert c !in p && pre == x + [c] + "" && pre + y == x + [c] + y;
      CountAcross(x, c, y, p);
      CountAcross(x, c, "", p);
    }
  }

  lemma {:induction false} CountBefore(y: string, post: string, p: string)
    requires StartsLine(post) && p != "" && NoBreaks(p)
    ensures Count(y + post, p) == Count(y, p) + Count(post, p)
  {
    CountShort("", p);
    if post == "" {
      assert y + post == y;
    } else {
      var c, rest := post[0], post[1..];
      assert c !in p && y + post == y + [c] + rest && post == "" + [c] + rest;
      CountAcross(y, c, rest, p);
      CountAcross("", c, rest, p);
    }
  }

  lemma {:induction false} CountStart(p: string, rest: string)
    requires p != ""
    ensures Count(p + rest, p) == 1 + Count(rest, p)
  {
    assert (p + rest)[..|p|] == p && (p + rest)[|p|..] == rest;
  }

  /** A line that is the pattern counts. */
  lemma {:induction false} TotalHolds(lines: seq<string>, p: string, k: nat)
    requires p != "" && k < |lines| && lines[k] == p
    ensures Total(lines, p) >= 1
    decreases k
  {
    if k == 0 { CountSelf(p); } else { TotalHolds(lines[1..], p, k - 1); }
  }

  /** A pattern that occurs once, at the start of a line, is found there. */
  lemma {:induction false} IndexOnce(pre: string, p: string, rest: string)
    requires EndsLine(pre) && p != "" && NoBreaks(p) && Count(pre + (p + rest), p) == 1
    ensures Index(pre + (p + rest), p) == |pre|
  {
    hide Count, Index;
    CountAfter(pre, p + rest, p);
    CountStart(p, rest);
    assert (p + rest)[..|p|] == p;
    IndexAfter(pre, p + rest, p);
  }

  /** Of a text that holds two patterns once, where the piece between them, both included, starts and ends. */
  lemma {:induction false} PiecePlace(pre: string, x: string, front: string, post: string, first: string, last: string)
    requires first != "" && NoBreaks(first) && last != "" && NoBreaks(last)
    requires EndsLine(pre) && EndsLine(front) && x == front + last && first <= x
    requires Count(pre + x + post, first) == 1 == Count(pre + x + post, last)
    ensures Index(pre + x + post, first) == |pre| && Index(pre + x + post, last) + |last| == |pre| + |x|
  {
    hide Count, Index;
    var rest := x[|first|..] + post;
    assert pre + x + post == pre + (first + rest);
    IndexOnce(pre, first, rest);
    assert pre + x + post == (pre + front) + (last + post);
    IndexOnce(pre + front, last, post);
  }

  // ---------------------------------------------------------------- occurrences within longer text

  /** Dropping characters in front never adds an occurrence, and dropping at most one pattern length loses at most
      one. */
  lemma {:induction false} CountSuffix(s: string, m: nat, p: string)
    requires p != "" && m <= |s|
    ensures Count(s[m..], p) <= Count(s, p)
    ensures m <= |p| ==> Count(s, p) <= Count(s[m..], p) + 1
    decreases |s|
  {
    if m == 0 {
      assert s[m..] == s;
    } else if |s| >= |p| {
      if !StartsWith(s, p) {
        assert s[1..][m - 1..] == s[m..];
        CountSuffix(s[1..], m - 1, p);
      } else if m >= |p| {
        assert s[|p|..][m - |p|..] == s[m..];
        CountSuffix(s[|p|..], m - |p|, p);
      } else {
        assert s[m..][|p| - m..] == s[|p|..];
        CountSuffix(s[m..], |p| - m, p);
      }
    }
  }

  lemma {:induction false} CountPrefix(x: string, y: string, p: string)
    requires p != ""
    ensures Count(x + y, p) >= Count(x, p)
    decreases |x|
  {
    var t := x + y;
    if |x| >= |p| {
      assert t[..|p|] == x[..|p|];
      if StartsWith(x, p) {
        assert t[|p|..] == x[|p|..] + y;
        CountPrefix(x[|p|..], y, p);
      } else {
        assert t[1..] == x[1..] + y;
        CountPrefix(x[1..], y, p);
      }
    }
  }

  /** Longer text holds a pattern at least as often. */
  lemma {:induction false} CountWithin(x: string, y: string, z: string, p: string)
    requires p != ""
    ensures Count(x + y + z, p) >= Count(y, p)
  {
    hide Count;
    CountSuffix(x + y, |x|, p);
    assert (x + y)[|x|..] == y;
    CountPrefix(x + y, z, p);
  }

  /** A pattern that occurs once, and there on a line of its own, occurs nowhere else. */
  lemma {:induction false} OccursOnce(x: string, y: string, i: nat, p: string)
    requires EndsLine(x) && StartsLine(y) && p != "" && NoBreaks(p) && Count(x + p + y, p) == 1
    requires i <= |x + p + y| && StartsWith((x + p + y)[i..], p)
    ensures i == |x|
  {
    hide Count;
    var t := x + p + y;
    CountSelf(p);
    CountAfter(x, p + y, p);
    CountBefore(p, y, p);
    assert t == x + (p + y);
    assert t[i..][..|p|] == p;
    forall k | i <= k < i + |p| ensures !IsBreak(t[k]) { assert t[k] == t[i..][k - i] == p[k - i]; }
    assert x != "" ==> t[|x| - 1] == x[|x| - 1];
    assert y != "" ==> t[|x| + |p|] == y[0];
    if i + |p| <= |x| {
      assert x == x[..i] + p + x[i + |p|..];
      CountWithin(x[..i], p, x[i + |p|..], p);
    } else if i >= |x| + |p| {
      var d := i - |x| - |p|;
      assert y == y[..d] + p + y[d + |p|..];
      CountWithin(y[..d], p, y[d + |p|..], p);
    }
  }

  /** A line that is the pattern: what stands before it ends a line, what follows starts with a break. */
  lemma {:induction false} LineAt(text: string, p: string, k: nat) returns (x: string, y: string)
    requires p != "" && k < |SplitLines(text)| && SplitLines(text)[k] == p
    ensures text == x + p + y && EndsLine(x) && StartsLine(y)
  {
    hide SplitLines;
    var rest, line;
    x, rest := CutHead(text, k);
    assert SplitLines(rest)[0] == p;
    NoLines();
    SplitStep(rest);
    line, y := rest[..BreakAt(rest)], rest[BreakAt(rest)..];
    assert line == p && rest == line + y;
    assert text == x + p + y;
  }
}
