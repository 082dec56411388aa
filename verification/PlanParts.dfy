/** Reading a plan in parts: what the Markdown reader and the section finder make of a document whose first parts
    end outside fences. */
module PlanParts {
  import opened Text
  import opened TextLines
  import opened PlanMarkdown
  import opened PlanSync

  function Moved(blocks: seq<FencedBlock>, n: nat): (r: seq<FencedBlock>)
    ensures |r| == |blocks|
  {
    seq(|blocks|, i requires 0 <= i < |blocks| => blocks[i].(line := blocks[i].line + n))
  }

  /** What is read of `n` lines that end outside fences, and then of more lines. */
  function Appended(r: Reading, n: nat, q: Reading): Reading {
    Reading(r.blocks + Moved(q.blocks, n), r.visible + q.visible, q.open, q.body,
      if q.open.Some? then q.start + n else 0)
  }

  lemma {:induction false} ReadIdle(lines: seq<string>)
    ensures ReadAll(lines).open.None? ==> ReadAll(lines).body == [] && ReadAll(lines).start == 0
    decreases |lines|
  {
    hide OpeningFence, Closes;
    if lines != [] { ReadIdle(lines[..|lines| - 1]); }
  }

  lemma {:induction false} ReadLast(lines: seq<string>, line: string)
    ensures ReadAll(lines + [line]) == ReadLine(ReadAll(lines), |lines| + 1, line)
  {
    hide ReadLine;
    assert (lines + [line])[..|lines|] == lines;
  }

  lemma {:induction false} ReadNone(a: seq<string>)
    requires ReadAll(a).open.None?
    ensures ReadAll([]) == START && Appended(ReadAll(a), |a|, START) == ReadAll(a)
  {
    ReadIdle(a);
    assert Moved([], |a|) == [];
  }

  lemma {:induction false} ReadAppend(a: seq<string>, b: seq<string>)
    requires ReadAll(a).open.None?
    ensures ReadAll(a + b) == Appended(ReadAll(a), |a|, ReadAll(b))
    decreases |b|
  {
    hide ReadAll, ReadLine, Appended;
    if b == [] {
      ReadNone(a);
      assert a + b == a;
    } else {
      var front, line := b[..|b| - 1], b[|b| - 1];
      ReadAppend(a, front);
      assert (a + front) + [line] == a + b && front + [line] == b;
      ReadLast(a + front, line);
      ReadLast(front, line);
      AppendStep(ReadAll(a), |a|, ReadAll(front), |front|, line);
    }
  }

  lemma {:induction false} AppendStep(r: Reading, n: nat, q: Reading, m: nat, line: string)
    ensures ReadLine(Appended(r, n, q), n + m + 1, line) == Appended(r, n, ReadLine(q, m + 1, line))
  {
    hide OpeningFence, Closes;
    var next := ReadLine(q, m + 1, line);
    if q.open.Some? && Closes(q.open.value, line) {
      var b := FencedBlock(q.open.value.info, q.body, q.start);
      assert Moved(q.blocks + [b], n) == Moved(q.blocks, n) + [b.(line := b.line + n)];
    }
    assert r.visible + next.visible == (r.visible + q.visible) + [next.visible[|q.visible|]];
  }

  lemma {:induction false} GraphsConcat(a: seq<FencedBlock>, b: seq<FencedBlock>)
    ensures PlanGraphs(a + b) == PlanGraphs(a) + PlanGraphs(b)
    decreases |a|
  {
    if a == [] {
      assert a + b == b;
    } else {
      assert (a + b)[1..] == a[1..] + b && (a + b)[0] == a[0];
      GraphsConcat(a[1..], b);
      var first := if a[0].info == "plan-graph" then [a[0]] else [];
      assert first + (PlanGraphs(a[1..]) + PlanGraphs(b)) == first + PlanGraphs(a[1..]) + PlanGraphs(b);
    }
  }

  lemma {:induction false} GraphsMoved(blocks: seq<FencedBlock>, n: nat)
    ensures PlanGraphs(Moved(blocks, n)) == Moved(PlanGraphs(blocks), n)
    decreases |blocks|
  {
    if blocks != [] {
      assert Moved(blocks, n)[1..] == Moved(blocks[1..], n);
      GraphsMoved(blocks[1..], n);
    }
  }

  /** Three parts of a document of which the first two end outside fences. */
  lemma {:induction false} ReadThree(a: seq<string>, b: seq<string>, c: seq<string>)
    requires ReadAll(a).open.None? && ReadAll(b).open.None?
    ensures var r, x, y, z := ReadAll(a + b + c), ReadAll(a), ReadAll(b), ReadAll(c);
      && r.open == z.open && r.visible == x.visible + y.visible + z.visible
      && PlanGraphs(r.blocks) ==
         PlanGraphs(x.blocks) + Moved(PlanGraphs(y.blocks), |a|) + Moved(PlanGraphs(z.blocks), |a| + |b|)
  {
    hide ReadAll, PlanGraphs;
    ReadAppend(a, b);
    ReadAppend(a + b, c);
    var x, y, z := ReadAll(a), ReadAll(b), ReadAll(c);
    GraphsConcat(x.blocks + Moved(y.blocks, |a|), Moved(z.blocks, |a + b|));
    GraphsConcat(x.blocks, Moved(y.blocks, |a|));
    GraphsMoved(y.blocks, |a|);
    GraphsMoved(z.blocks, |a + b|);
  }

  /** A visible line is the line itself; while a fence is open nothing is visible. */
  lemma {:induction false} SeenLine(a: seq<string>, line: string, b: seq<string>)
    requires line != ""
    ensures |ReadAll(a + [line] + b).visible| == |a| + 1 + |b|
    ensures ReadAll(a + [line] + b).visible[|a|] == line ==> ReadAll(a).open.None? && ReadAll(a + [line]).open.None?
    decreases |b|
  {
    hide OpeningFence, Closes, ReadAll;
    var lines := a + [line] + b;
    SameLength(lines);
    SameLength(a);
    if b == [] {
      assert lines == a + [line];
      ReadLast(a, line);
    } else {
      var front, last := a + [line] + b[..|b| - 1], b[|b| - 1];
      assert lines == front + [last];
      SameLength(front);
      ReadLast(front, last);
      SeenLine(a, line, b[..|b| - 1]);
    }
  }

  lemma {:induction false} SameLength(lines: seq<string>)
    ensures |ReadAll(lines).visible| == |lines|
  {
    hide ReadAll;
    ReadAllPartition(lines);
  }

  function Dropped(lines: seq<string>): seq<string> {
    if lines != [] && lines[|lines| - 1] == "" then lines[..|lines| - 1] else lines
  }

  /** Joined lines come back, except for an empty last one. */
  lemma {:induction false} VisibleLines(lines: seq<string>)
    requires forall i :: 0 <= i < |lines| ==> NoBreaks(lines[i])
    ensures SplitLines(Join("\n", lines)) == Dropped(lines)
    decreases |lines|
  {
    hide SplitLines, NoBreaks;
    NoLines();
    if |lines| == 1 {
      if lines[0] != "" { OneLine(lines[0]); }
    } else if |lines| > 1 {
      VisibleLines(lines[1..]);
      SplitFirst(lines[0], Join("\n", lines[1..]));
      assert lines == [lines[0]] + lines[1..];
      assert lines[|lines| - 1] == lines[1..][|lines| - 2];
    }
  }

  lemma {:induction false} LinesUnbroken(text: string)
    ensures forall i :: 0 <= i < |SplitLines(text)| ==> NoBreaks(SplitLines(text)[i])
    decreases |text|
  {
    if text != "" {
      SplitStep(text);
      if BreakAt(text) < |text| { LinesUnbroken(text[NextLine(text)..]); }
    }
  }

  lemma {:induction false} SeenUnbroken(lines: seq<string>)
    requires forall i :: 0 <= i < |lines| ==> NoBreaks(lines[i])
    ensures |ReadAll(lines).visible| == |lines|
    ensures forall i :: 0 <= i < |lines| ==> ReadAll(lines).visible[i] == lines[i] || ReadAll(lines).visible[i] == ""
    ensures forall i :: 0 <= i < |lines| ==> NoBreaks(ReadAll(lines).visible[i])
  {
    hide ReadAll;
    ReadAllPartition(lines);
  }

  // ---------------------------------------------------------------- the section

  predicate Increasing(s: seq<nat>) { forall j, k :: 0 <= j < k < |s| ==> s[j] < s[k] }

  lemma {:induction false} HeadingPlaces(lines: seq<string>, i: nat)
    ensures forall k: nat :: k in HeadingsFrom(lines, i) <==> i <= k < |lines| && lines[k] == PLAN_SECTION
    ensures Increasing(HeadingsFrom(lines, i))
    decreases |lines| - i
  {
    if i < |lines| {
      HeadingPlaces(lines, i + 1);
      var first, rest := if lines[i] == PLAN_SECTION then [i] else [], HeadingsFrom(lines, i + 1);
      var all := HeadingsFrom(lines, i);
      assert all == first + rest;
      forall k: nat ensures k in all <==> i <= k < |lines| && lines[k] == PLAN_SECTION {
        assert k in all <==> k in first || k in rest;
        assert k in first <==> k == i && lines[i] == PLAN_SECTION;
        assert k in rest <==> i + 1 <= k < |lines| && lines[k] == PLAN_SECTION;
      }
      forall j, k | 0 <= j < k < |all| ensures all[j] < all[k] {
        var x := all[k];
        assert x == rest[k - |first|] && x in rest;
        assert i + 1 <= x;
        if j >= |first| { assert all[j] == rest[j - |first|]; }
      }
    }
  }

  lemma {:induction false} OnlyOne(s: seq<nat>, h: nat)
    requires h in s && (forall k :: k in s ==> k == h) && Increasing(s)
    ensures s == [h]
  {
    assert |s| >= 2 ==> s[0] < s[1];
    forall k | 0 <= k < |s| ensures s[k] == h { assert s[k] in s; }
  }

  /** The heading stands at `h` and nowhere else. */
  predicate OneHeading(lines: seq<string>, h: nat) {
    h < |lines| && forall k :: 0 <= k < |lines| ==> (lines[k] == PLAN_SECTION <==> k == h)
  }

  lemma {:induction false} HeadingOnce(lines: seq<string>, h: nat)
    ensures HeadingsFrom(lines, 0) == [h] <==> OneHeading(lines, h)
  {
    HeadingPlaces(lines, 0);
    var found := HeadingsFrom(lines, 0);
    if OneHeading(lines, h) {
      forall k | k in found ensures k == h { assert lines[k] == PLAN_SECTION; }
      assert h in found;
      OnlyOne(found, h);
    } else {
      assert found == [h] ==> h in found && forall k :: k in found ==> k == h;
    }
  }

  lemma {:induction false} SectionBounds(lines: seq<string>, i: nat)
    requires i <= |lines|
    ensures forall k :: i <= k < SectionEnd(lines, i) ==> !EndsSection(lines[k])
    ensures SectionEnd(lines, i) < |lines| ==> EndsSection(lines[SectionEnd(lines, i)])
    decreases |lines| - i
  {
    if i < |lines| { SectionBounds(lines, i + 1); }
  }

  /** No line is the section heading or ends the section. */
  predicate Quiet(lines: seq<string>) {
    forall k :: 0 <= k < |lines| ==> lines[k] != PLAN_SECTION && !EndsSection(lines[k])
  }

  // ---------------------------------------------------------------- the one graph

  lemma {:induction false} GraphsIn(blocks: seq<FencedBlock>)
    ensures forall g :: g in PlanGraphs(blocks) ==> g in blocks
    decreases |blocks|
  {
    if blocks != [] { GraphsIn(blocks[1..]); }
  }

  lemma {:induction false} GraphLine(lines: seq<string>, g: FencedBlock)
    requires g in PlanGraphs(ReadAll(lines).blocks)
    ensures 1 <= g.line < |lines|
  {
    hide ReadAll, PlanGraphs, OpeningFence, Closes;
    GraphsIn(ReadAll(lines).blocks);
    ReadAllPartition(lines);
  }

  /** The one graph stays, or moves along when it stands behind. */
  lemma {:induction false} GraphMoves(a: seq<string>, m: seq<string>, w: seq<string>, z: seq<string>, g: FencedBlock)
    returns (next: FencedBlock)
    requires ReadAll(a).open.None? && ReadAll(m).open.None? && ReadAll(w).open.None?
    requires PlanGraphs(ReadAll(a + m + z).blocks) == [g]
    requires PlanGraphs(ReadAll(m).blocks) == [] == PlanGraphs(ReadAll(w).blocks)
    ensures PlanGraphs(ReadAll(a + w + z).blocks) == [next] && next.body == g.body
    ensures (next.line == g.line && g.line <= |a|) ||
            (|a| + |m| < g.line < |a| + |m| + |z| && next.line == g.line - |m| + |w|)
  {
    hide ReadAll, PlanGraphs;
    ReadThree(a, m, z);
    ReadThree(a, w, z);
    var x, y := PlanGraphs(ReadAll(a).blocks), PlanGraphs(ReadAll(z).blocks);
    var all := x + [] + Moved(y, |a| + |m|);
    assert all == [g] && all[0] == g && |all| == |x| + |y|;
    if x == [] {
      assert y[0] in y && g == y[0].(line := y[0].line + |a| + |m|);
      GraphLine(z, y[0]);
      next := y[0].(line := y[0].line + |a| + |w|);
    } else {
      assert x[0] == g && x[0] in x;
      GraphLine(a, g);
      next := g;
    }
  }
}
