/** The Markdown reader of a plan: fenced blocks and what is visible outside them. */
module PlanMarkdown {
  import opened Text

  /** A fenced block: its info string, its lines, and the number of its opening line, from 1. */
  datatype FencedBlock = FencedBlock(info: string, body: seq<string>, line: nat)

  datatype Fence = Fence(mark: char, length: nat, info: string)

  /** The opening fence a line holds: at most three blanks, then three or more marks of one kind. */
  function OpeningFence(line: string): Option<Fence> {
    var blanks := LeadingBlanks(line);
    var rest := line[blanks..];
    if blanks > 3 || rest == "" || (rest[0] != '`' && rest[0] != '~') then None
    else
      var n := RunLength(rest, rest[0]);
      if n < 3 then None else Some(Fence(rest[0], n, Strip(rest[n..])))
  }

  /** Whether a line closes the fence: as many marks or more, and nothing but space after them. */
  predicate Closes(fence: Fence, line: string) {
    var blanks := LeadingBlanks(line);
    var rest := line[blanks..];
    blanks <= 3 && RunLength(rest, fence.mark) >= fence.length && Strip(rest[RunLength(rest, fence.mark)..]) == ""
  }

  /** A document read up to some line: the blocks closed, the visible lines, and the open fence with its
      body and line number. */
  datatype Reading = Reading(blocks: seq<FencedBlock>, visible: seq<string>, open: Option<Fence>, body: seq<string>,
    start: nat)

  const START := Reading([], [], None, [], 0)

  function ReadLine(r: Reading, number: nat, line: string): Reading {
    if r.open.Some? then
      if Closes(r.open.value, line) then
        Reading(r.blocks + [FencedBlock(r.open.value.info, r.body, r.start)], r.visible + [""], None, [], 0)
      else r.(visible := r.visible + [""], body := r.body + [line])
    else
      match OpeningFence(line)
      case Some(fence) => r.(open := Some(fence), visible := r.visible + [""], start := number)
      case None => r.(visible := r.visible + [line])
  }

  function ReadAll(lines: seq<string>): Reading {
    if lines == [] then START else ReadLine(ReadAll(lines[..|lines| - 1]), |lines|, lines[|lines| - 1])
  }

  method MarkdownParts(lines: seq<string>) returns (r: Reading)
    ensures r == ReadAll(lines)
  {
    r := START;
    for number := 0 to |lines|
      invariant r == ReadAll(lines[..number])
    {
      assert lines[..number + 1][..number] == lines[..number];
      r := ReadLine(r, number + 1, lines[number]);
    }
    assert lines[..|lines|] == lines;
  }

  /** The block spans the lines from its opening fence, which it follows, to the line that closes it. */
  ghost predicate BlockAt(lines: seq<string>, b: FencedBlock) {
    && 1 <= b.line && b.line + |b.body| < |lines|
    && OpeningFence(lines[b.line - 1]).Some?
    && var fence := OpeningFence(lines[b.line - 1]).value;
    && b.info == fence.info && b.body == lines[b.line..b.line + |b.body|]
    && (forall i :: b.line <= i < b.line + |b.body| ==> !Closes(fence, lines[i]))
    && Closes(fence, lines[b.line + |b.body|])
  }

  predicate Inside(b: FencedBlock, i: int) { b.line - 1 <= i <= b.line + |b.body| }

  predicate Fenced(blocks: seq<FencedBlock>, i: int) { exists k :: 0 <= k < |blocks| && Inside(blocks[k], i) }

  ghost predicate Ordered(blocks: seq<FencedBlock>) {
    forall j, k :: 0 <= j < k < |blocks| ==> blocks[j].line + |blocks[j].body| < blocks[k].line - 1
  }

  /** Every line is either inside exactly one block, and then hidden, or visible as it is. */
  ghost predicate Partition(lines: seq<string>, blocks: seq<FencedBlock>, visible: seq<string>) {
    && (forall k :: 0 <= k < |blocks| ==> BlockAt(lines, blocks[k])) && Ordered(blocks)
    && |visible| == |lines|
    && forall i :: 0 <= i < |lines| ==>
         if Fenced(blocks, i) then visible[i] == "" else visible[i] == lines[i] && OpeningFence(lines[i]).None?
  }

  /** The same while a fence may be open: then everything from its line on is hidden and in its body. */
  ghost predicate PartitionSoFar(lines: seq<string>, r: Reading) {
    && (forall k :: 0 <= k < |r.blocks| ==> BlockAt(lines, r.blocks[k])) && Ordered(r.blocks)
    && |r.visible| == |lines|
    && (forall k :: 0 <= k < |r.blocks| && r.open.Some? ==> r.blocks[k].line + |r.blocks[k].body| < r.start - 1)
    && (r.open.Some? ==> 1 <= r.start <= |lines| && r.body == lines[r.start..] &&
                         OpeningFence(lines[r.start - 1]) == r.open &&
                         forall i :: r.start <= i < |lines| ==> !Closes(r.open.value, lines[i]))
    && (r.open.None? ==> r.body == [])
    && forall i :: 0 <= i < |lines| ==>
         if Fenced(r.blocks, i) || (r.open.Some? && i >= r.start - 1) then r.visible[i] == ""
         else r.visible[i] == lines[i] && OpeningFence(lines[i]).None?
  }

  lemma {:induction false} BlockGrows(lines: seq<string>, line: string, b: FencedBlock)
    requires BlockAt(lines, b)
    ensures BlockAt(lines + [line], b)
  {
    hide OpeningFence, Closes;
    assert (lines + [line])[b.line..b.line + |b.body|] == lines[b.line..b.line + |b.body|];
  }

  lemma {:induction false} BlocksGrow(lines: seq<string>, line: string, blocks: seq<FencedBlock>)
    requires forall k :: 0 <= k < |blocks| ==> BlockAt(lines, blocks[k])
    ensures forall k :: 0 <= k < |blocks| ==> BlockAt(lines + [line], blocks[k])
    ensures !Fenced(blocks, |lines|)
  {
    hide OpeningFence, Closes;
    forall k | 0 <= k < |blocks| ensures BlockAt(lines + [line], blocks[k]) { BlockGrows(lines, line, blocks[k]); }
  }

  lemma {:induction false} CloseStep(lines: seq<string>, line: string, r: Reading)
    requires PartitionSoFar(lines, r) && r.open.Some? && Closes(r.open.value, line)
    ensures PartitionSoFar(lines + [line], ReadLine(r, |lines| + 1, line))
  {
    hide OpeningFence, Closes;
    var all := lines + [line];
    var b := FencedBlock(r.open.value.info, r.body, r.start);
    BlocksGrow(lines, line, r.blocks);
    assert all[b.line..b.line + |b.body|] == lines[r.start..];
    assert BlockAt(all, b);
    hide BlockAt, Fenced;
    forall i ensures Fenced(r.blocks + [b], i) <==> Fenced(r.blocks, i) || Inside(b, i) { FencedSnoc(r.blocks, b, i); }
  }

  lemma {:induction false} FencedSnoc(blocks: seq<FencedBlock>, b: FencedBlock, i: int)
    ensures Fenced(blocks + [b], i) <==> Fenced(blocks, i) || Inside(b, i)
  {
    var all := blocks + [b];
    assert all[|blocks|] == b;
    if Fenced(blocks, i) {
      var k :| 0 <= k < |blocks| && Inside(blocks[k], i);
      assert all[k] == blocks[k];
    }
  }

  lemma {:induction false} BodyStep(lines: seq<string>, line: string, r: Reading)
    requires PartitionSoFar(lines, r) && r.open.Some? && !Closes(r.open.value, line)
    ensures PartitionSoFar(lines + [line], ReadLine(r, |lines| + 1, line))
  {
    hide OpeningFence, Closes, BlockAt;
    BlocksGrow(lines, line, r.blocks);
    assert (lines + [line])[r.start..] == lines[r.start..] + [line];
  }

  lemma {:induction false} OutsideStep(lines: seq<string>, line: string, r: Reading)
    requires PartitionSoFar(lines, r) && r.open.None?
    ensures PartitionSoFar(lines + [line], ReadLine(r, |lines| + 1, line))
  {
    hide OpeningFence, Closes;
    BlocksGrow(lines, line, r.blocks);
    assert (lines + [line])[|lines| + 1..] == [] && (lines + [line])[|lines|] == line;
  }

  lemma {:induction false} ReadAllPartition(lines: seq<string>)
    ensures PartitionSoFar(lines, ReadAll(lines))
    decreases |lines|
  {
    hide PartitionSoFar, ReadLine, Closes;
    if lines == [] {
      StartPartition();
    } else {
      var front, line := lines[..|lines| - 1], lines[|lines| - 1];
      ReadAllPartition(front);
      assert lines == front + [line];
      var r := ReadAll(front);
      if r.open.None? { OutsideStep(front, line, r); }
      else if Closes(r.open.value, line) { CloseStep(front, line, r); }
      else { BodyStep(front, line, r); }
    }
  }

  lemma {:induction false} StartPartition()
    ensures PartitionSoFar([], START)
  {}

  /** Without an open fence at the end, blocks and visible lines partition the document; with one, no
      later line closes it. */
  lemma {:induction false} MarkdownPartition(lines: seq<string>)
    ensures var r := ReadAll(lines);
      if r.open.None? then Partition(lines, r.blocks, r.visible)
      else 1 <= r.start <= |lines| && OpeningFence(lines[r.start - 1]) == r.open &&
           forall i :: r.start <= i < |lines| ==> !Closes(r.open.value, lines[i])
  {
    hide OpeningFence, Closes, ReadAll;
    ReadAllPartition(lines);
  }

  // ---------------------------------------------------------------- no other partition

  /** The reading of the first `n` lines, when the first `k` blocks of a partition are closed there. */
  function Upto(lines: seq<string>, blocks: seq<FencedBlock>, visible: seq<string>, n: nat, k: nat): Reading
    requires n <= |lines| == |visible| && k <= |blocks|
    requires k < |blocks| ==> 1 <= blocks[k].line <= |lines|
  {
    if k < |blocks| && blocks[k].line <= n then
      Reading(blocks[..k], visible[..n], OpeningFence(lines[blocks[k].line - 1]), lines[blocks[k].line..n],
              blocks[k].line)
    else Reading(blocks[..k], visible[..n], None, [], 0)
  }

  /** The first `k` blocks, and no others, end before line `n`. */
  ghost predicate Ended(blocks: seq<FencedBlock>, n: nat, k: nat) {
    && k <= |blocks| && (forall j :: 0 <= j < k ==> blocks[j].line + |blocks[j].body| < n)
    && (forall j :: k <= j < |blocks| ==> n <= blocks[j].line + |blocks[j].body|)
  }

  lemma {:induction false} ReadUpto(lines: seq<string>, blocks: seq<FencedBlock>, visible: seq<string>, n: nat)
    returns (k: nat)
    requires Partition(lines, blocks, visible) && n <= |lines|
    ensures Ended(blocks, n, k) && (k < |blocks| ==> BlockAt(lines, blocks[k]))
    ensures ReadAll(lines[..n]) == Upto(lines, blocks, visible, n, k)
    decreases n
  {
    hide OpeningFence, Closes, ReadLine, Fenced;
    if n == 0 {
      k := 0;
    } else {
      hide BlockAt, Ordered, Upto;
      var before := ReadUpto(lines, blocks, visible, n - 1);
      assert lines[..n][..n - 1] == lines[..n - 1] && visible[..n] == visible[..n - 1] + [visible[n - 1]];
      k := StepRead(lines, blocks, visible, n, before);
    }
  }

  lemma {:induction false} EndedNext(lines: seq<string>, blocks: seq<FencedBlock>, n: nat, k: nat)
    requires (forall j :: 0 <= j < |blocks| ==> BlockAt(lines, blocks[j])) && Ordered(blocks) && 0 < n
    requires Ended(blocks, n - 1, k)
    ensures k < |blocks| && blocks[k].line + |blocks[k].body| == n - 1 ==> Ended(blocks, n, k + 1)
    ensures k < |blocks| && blocks[k].line + |blocks[k].body| != n - 1 ==> Ended(blocks, n, k)
    ensures k == |blocks| ==> Ended(blocks, n, k)
  {
    hide BlockAt;
    if k < |blocks| {
      forall j | k < j < |blocks| ensures blocks[k].line + |blocks[k].body| < blocks[j].line + |blocks[j].body| {}
    }
  }

  predicate Unfenced(line: string) { OpeningFence(line).None? }

  /** A line of a block is hidden, any other is visible and opens no fence. */
  lemma {:induction false} Hidden(lines: seq<string>, blocks: seq<FencedBlock>, visible: seq<string>, i: nat)
    requires Partition(lines, blocks, visible) && i < |lines|
    ensures (exists k :: 0 <= k < |blocks| && Inside(blocks[k], i)) ==> visible[i] == ""
    ensures (forall k :: 0 <= k < |blocks| ==> !Inside(blocks[k], i)) ==>
              visible[i] == lines[i] && Unfenced(lines[i])
  {
    hide OpeningFence, BlockAt;
  }

  lemma {:induction false} StepEnds(lines: seq<string>, blocks: seq<FencedBlock>, visible: seq<string>, n: nat, k: nat)
    requires |visible| == |lines| && 0 < n <= |lines| && visible[n - 1] == ""
    requires k < |blocks| && BlockAt(lines, blocks[k]) && blocks[k].line + |blocks[k].body| == n - 1
    requires k + 1 < |blocks| ==> n < blocks[k + 1].line <= |lines|
    ensures ReadLine(Upto(lines, blocks, visible, n - 1, k), n, lines[n - 1]) ==
            Upto(lines, blocks, visible, n, k + 1)
  {
    hide OpeningFence, Closes;
    var b := blocks[k];
    assert visible[..n] == visible[..n - 1] + [""] && blocks[..k + 1] == blocks[..k] + [b];
    assert b == FencedBlock(OpeningFence(lines[b.line - 1]).value.info, lines[b.line..n - 1], b.line);
  }

  lemma {:induction false} StepWithin(lines: seq<string>, blocks: seq<FencedBlock>, visible: seq<string>, n: nat,
        k: nat)
    requires |visible| == |lines| && 0 < n <= |lines| && k < |blocks| && BlockAt(lines, blocks[k])
    requires blocks[k].line <= n <= blocks[k].line + |blocks[k].body| && visible[n - 1] == ""
    ensures ReadLine(Upto(lines, blocks, visible, n - 1, k), n, lines[n - 1]) == Upto(lines, blocks, visible, n, k)
  {
    hide OpeningFence, Closes;
    var b := blocks[k];
    assert visible[..n] == visible[..n - 1] + [""];
    if b.line < n {
      assert lines[b.line..n] == lines[b.line..n - 1] + [lines[n - 1]];
    } else {
      assert lines[b.line..n] == [];
    }
  }

  lemma {:induction false} StepOutside(lines: seq<string>, blocks: seq<FencedBlock>, visible: seq<string>, n: nat,
        k: nat)
    requires |visible| == |lines| && 0 < n <= |lines|
    requires k <= |blocks| && (k < |blocks| ==> n < blocks[k].line <= |lines|)
    requires visible[n - 1] == lines[n - 1] && Unfenced(lines[n - 1])
    ensures ReadLine(Upto(lines, blocks, visible, n - 1, k), n, lines[n - 1]) == Upto(lines, blocks, visible, n, k)
  {
    hide OpeningFence, Closes;
    assert visible[..n] == visible[..n - 1] + [lines[n - 1]];
  }

  /** One more line, whether it ends a block, stands within one or outside. */
  lemma {:induction false} StepRead(lines: seq<string>, blocks: seq<FencedBlock>, visible: seq<string>, n: nat, k: nat)
    returns (next: nat)
    requires Partition(lines, blocks, visible) && 0 < n <= |lines| && Ended(blocks, n - 1, k)
    requires k < |blocks| ==> BlockAt(lines, blocks[k])
    ensures Ended(blocks, n, next) && (next < |blocks| ==> BlockAt(lines, blocks[next]))
    ensures ReadLine(Upto(lines, blocks, visible, n - 1, k), n, lines[n - 1]) ==
            Upto(lines, blocks, visible, n, next)
  {
    hide OpeningFence, Unfenced, Closes, BlockAt, ReadLine, Upto, Fenced, Ended;
    EndedNext(lines, blocks, n, k);
    Hidden(lines, blocks, visible, n - 1);
    next := if k < |blocks| && blocks[k].line + |blocks[k].body| == n - 1 then k + 1 else k;
    Spans(lines, blocks, n, k);
    if next == k + 1 {
      assert Inside(blocks[k], n - 1);
      StepEnds(lines, blocks, visible, n, k);
    } else if k < |blocks| && blocks[k].line <= n {
      assert Inside(blocks[k], n - 1);
      StepWithin(lines, blocks, visible, n, k);
    } else {
      StepOutside(lines, blocks, visible, n, k);
    }
  }

  /** Where the line after the first `n - 1` stands, when the first `k` blocks end before it. */
  lemma {:induction false} Spans(lines: seq<string>, blocks: seq<FencedBlock>, n: nat, k: nat)
    requires (forall j :: 0 <= j < |blocks| ==> BlockAt(lines, blocks[j])) && Ordered(blocks) && 0 < n
    requires Ended(blocks, n - 1, k)
    ensures k <= |blocks|
    ensures k < |blocks| ==> n - 1 <= blocks[k].line + |blocks[k].body| < |lines| && 1 <= blocks[k].line
    ensures k + 1 < |blocks| ==> blocks[k].line + |blocks[k].body| + 1 < blocks[k + 1].line <= |lines|
    ensures (k < |blocks| ==> n < blocks[k].line) ==>
              forall j :: 0 <= j < |blocks| ==> !Inside(blocks[j], n - 1)
  {
    if k < |blocks| {
      assert BlockAt(lines, blocks[k]);
      if k + 1 < |blocks| { assert BlockAt(lines, blocks[k + 1]); }
      hide BlockAt;
      forall j | k < j < |blocks| ensures blocks[k].line < blocks[j].line {}
    }
  }

  /** What partitions a document into blocks and visible lines is what the reader finds. */
  lemma {:induction false} PartitionUnique(lines: seq<string>, blocks: seq<FencedBlock>, visible: seq<string>)
    requires Partition(lines, blocks, visible)
    ensures ReadAll(lines) == Reading(blocks, visible, None, [], 0)
  {
    hide ReadAll, OpeningFence, Closes, Fenced;
    var k := ReadUpto(lines, blocks, visible, |lines|);
    assert lines[..|lines|] == lines && visible[..|lines|] == visible;
    assert k == |blocks| && blocks[..k] == blocks;
  }
}
