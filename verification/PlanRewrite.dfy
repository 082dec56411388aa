/** When sync succeeds: replacing the text between the markers leaves a plan that loads to the same document
    exactly when the markers stand on lines of their own in the section and the new view stands on its own. */
module PlanRewrite {
  import opened Text
  import opened TextLines
  import opened PlanMarkdown
  import opened PlanSync
  import opened PlanParts

  // ---------------------------------------------------------------- the markers among the lines

  /** The markers are the first and the last line of the middle part, and stand nowhere else. */
  predicate Framed(a: seq<string>, m: seq<string>, z: seq<string>) {
    && |m| >= 2 && m[0] == PLAN_START && m[|m| - 1] == PLAN_END
    && (forall k :: 0 <= k < |a| ==> a[k] != PLAN_START && a[k] != PLAN_END)
    && (forall k :: 0 < k < |m| ==> m[k] != PLAN_START)
    && (forall k :: 0 <= k < |m| - 1 ==> m[k] != PLAN_END)
    && (forall k :: 0 <= k < |z| ==> z[k] != PLAN_START && z[k] != PLAN_END)
  }

  lemma {:induction false} FramedPlace(a: seq<string>, m: seq<string>, z: seq<string>, k: nat)
    requires Framed(a, m, z) && k < |a + m + z|
    ensures (a + m + z)[k] == PLAN_START ==> k == |a|
    ensures (a + m + z)[k] == PLAN_END ==> k == |a| + |m| - 1
  {
    var lines := a + m + z;
    assert |PLAN_START| != |PLAN_END|;
    if k < |a| {
      assert lines[k] == a[k];
    } else if k < |a| + |m| {
      assert lines[k] == m[k - |a|];
    } else {
      assert lines[k] == z[k - |a| - |m|];
    }
  }

  /** The visible lines of the three parts, as the loader splits them again. */
  function SeenLines(a: seq<string>, m: seq<string>, z: seq<string>): seq<string> {
    ReadAll(a).visible + ReadAll(m).visible + Dropped(ReadAll(z).visible)
  }

  /** Both markers are seen, so the parts end outside fences. */
  lemma {:induction false} PartsClosed(a: seq<string>, m: seq<string>, z: seq<string>)
    requires Framed(a, m, z) && |ReadAll(a + m + z).visible| == |a + m + z|
    requires ReadAll(a + m + z).visible[|a|] == PLAN_START
    requires ReadAll(a + m + z).visible[|a| + |m| - 1] == PLAN_END
    ensures ReadAll(a).open.None? && ReadAll(m).open.None?
  {
    hide ReadAll;
    var most := m[..|m| - 1];
    assert a + m + z == a + [PLAN_START] + (m[1..] + z);
    assert a + m + z == (a + most) + [PLAN_END] + z;
    SeenLine(a, PLAN_START, m[1..] + z);
    SeenLine(a + most, PLAN_END, z);
    assert (a + most) + [PLAN_END] == a + m;
    ReadAppend(a, m);
  }

  lemma {:induction false} SeenAgain(a: seq<string>, m: seq<string>, z: seq<string>)
    requires forall i :: 0 <= i < |a + m + z| ==> NoBreaks((a + m + z)[i])
    requires Framed(a, m, z) && ReadAll(a).open.None? && ReadAll(m).open.None?
    ensures SplitLines(Join("\n", ReadAll(a + m + z).visible)) == SeenLines(a, m, z)
    ensures |ReadAll(a).visible| == |a| && |ReadAll(m).visible| == |m|
  {
    hide ReadAll, SplitLines, NoBreaks, Dropped;
    ReadThree(a, m, z);
    SeenUnbroken(a + m + z);
    VisibleLines(ReadAll(a + m + z).visible);
    SameLength(a);
    EndSeen(m);
    DroppedLast(ReadAll(a).visible, ReadAll(m).visible, ReadAll(z).visible);
  }

  lemma {:induction false} DroppedLast(x: seq<string>, y: seq<string>, z: seq<string>)
    requires y != [] && y[|y| - 1] != ""
    ensures Dropped(x + y + z) == x + y + Dropped(z)
  {
    if z != [] { assert (x + y + z)[|x + y + z| - 1] == z[|z| - 1]; }
  }

  /** The last line of a part that ends outside fences, if it is the end marker, is seen. */
  lemma {:induction false} EndSeen(m: seq<string>)
    requires m != [] && m[|m| - 1] == PLAN_END && ReadAll(m).open.None?
    ensures |ReadAll(m).visible| == |m| && ReadAll(m).visible[|m| - 1] == PLAN_END
  {
    hide Closes, OpeningFence;
    var front := m[..|m| - 1];
    SameLength(m);
    SameLength(front);
    EndMarks();
    OpenMarks(front);
  }

  lemma {:induction false} OpenMarks(lines: seq<string>)
    ensures var open := ReadAll(lines).open;
      open.Some? ==> open.value.length >= 3 && (open.value.mark == '`' || open.value.mark == '~')
  {
    hide ReadAll, Closes;
    ReadAllPartition(lines);
  }

  lemma {:induction false} EndMarks()
    ensures OpeningFence(PLAN_END).None? && forall f: Fence :: f.length > 0 && f.mark != '<' ==> !Closes(f, PLAN_END)
  {
    assert LeadingBlanks(PLAN_END) == 0 && PLAN_END[0..] == PLAN_END;
    forall f: Fence | f.length > 0 && f.mark != '<' ensures !Closes(f, PLAN_END) {
      assert RunLength(PLAN_END, f.mark) == 0;
    }
  }

  lemma {:induction false} StartSeen(m: seq<string>)
    requires m != [] && m[0] == PLAN_START
    ensures |ReadAll(m).visible| == |m| && ReadAll(m).visible[0] == PLAN_START
  {
    assert LeadingBlanks(PLAN_START) == 0 && PLAN_START[0..] == PLAN_START;
    assert OpeningFence(PLAN_START).None?;
    hide OpeningFence;
    ReadLast([], PLAN_START);
    assert [] + [PLAN_START] == [PLAN_START] && m == [PLAN_START] + m[1..];
    ReadAppend([PLAN_START], m[1..]);
    SameLength(m);
  }

  // ---------------------------------------------------------------- what loading found

  function Seen(text: string): string { Join("\n", ReadAll(SplitLines(text)).visible) }

  /** The loader's answer `plan` with the place `h` of the heading and the block `g` of the graph. */
  ghost predicate Base(text: string, c: Checks, h: nat, g: FencedBlock, plan: Loaded) {
    var parts, lines := ReadAll(SplitLines(text)), SplitLines(Seen(text));
    && parts.open.None? && OneHeading(lines, h) && PlanGraphs(parts.blocks) == [g]
    && h + 1 < g.line < SectionEnd(lines, h + 1) + 1
    && c.decode(Join("\n", g.body)) == Some(plan.document)
    && Admitted(c, text, Seen(text), plan.document)
    && c.validate(plan.document) == Some(plan.waves)
    && plan.section == lines[h + 1..SectionEnd(lines, h + 1)]
  }

  lemma {:induction false} BaseFound(text: string, c: Checks) returns (h: nat, g: FencedBlock)
    requires LoadBase(text, c).Ok?
    ensures Base(text, c, h, g, LoadBase(text, c).value)
  {
    hide ReadAll, SplitLines, SectionEnd, PlanGraphs, HeadingsFrom, Admitted;
    h, g := HeadingsFrom(SplitLines(Seen(text)), 0)[0], PlanGraphs(ReadAll(SplitLines(text)).blocks)[0];
    HeadingOnce(SplitLines(Seen(text)), h);
  }

  lemma {:induction false} BaseOk(text: string, c: Checks, h: nat, g: FencedBlock, plan: Loaded)
    requires Base(text, c, h, g, plan)
    ensures LoadBase(text, c) == Ok(plan)
  {
    hide ReadAll, SplitLines, SectionEnd, PlanGraphs, HeadingsFrom, Admitted;
    HeadingOnce(SplitLines(Seen(text)), h);
  }

  predicate MarkersSeen(plan: Loaded) { PLAN_START in plan.section && PLAN_END in plan.section }

  /** Both markers in the section: all three parts end outside fences, and the section spans the middle one. */
  lemma {:induction false} Located(text: string, c: Checks, h: nat, g: FencedBlock, plan: Loaded, a: seq<string>,
        m: seq<string>, z: seq<string>)
    requires SplitLines(text) == a + m + z && Framed(a, m, z) && Base(text, c, h, g, plan) && MarkersSeen(plan)
    ensures ReadAll(a).open.None? && ReadAll(m).open.None? && ReadAll(z).open.None?
    ensures SplitLines(Seen(text)) == SeenLines(a, m, z)
    ensures h < |a| == |ReadAll(a).visible| && |m| == |ReadAll(m).visible|
    ensures SectionEnd(SeenLines(a, m, z), h + 1) >= |a| + |m|
  {
    hide ReadAll, SplitLines, SectionEnd, PlanGraphs, OneHeading, Framed, NoBreaks, Dropped, MarkersSeen, Join;
    hide SeenLines;
    LinesUnbroken(text);
    SeenUnbroken(a + m + z);
    VisibleLines(ReadAll(a + m + z).visible);
    MarkerPlaces(SplitLines(Seen(text)), plan, h + 1, a, m, z);
    PartsClosed(a, m, z);
    SeenAgain(a, m, z);
    ReadThree(a, m, z);
  }

  lemma {:induction false} MarkerPlaces(lines: seq<string>, plan: Loaded, i: nat, a: seq<string>, m: seq<string>,
        z: seq<string>)
    requires Framed(a, m, z) && |ReadAll(a + m + z).visible| == |a + m + z| && i <= |lines|
    requires lines == Dropped(ReadAll(a + m + z).visible)
    requires forall j :: 0 <= j < |a + m + z| ==>
      ReadAll(a + m + z).visible[j] == (a + m + z)[j] || ReadAll(a + m + z).visible[j] == ""
    requires plan.section == lines[i..SectionEnd(lines, i)] && MarkersSeen(plan)
    ensures i <= |a| && |a| + |m| <= SectionEnd(lines, i)
    ensures ReadAll(a + m + z).visible[|a|] == PLAN_START
    ensures |m| > 0 && ReadAll(a + m + z).visible[|a| + |m| - 1] == PLAN_END
  {
    hide ReadAll, SectionEnd, Dropped;
    var k :| 0 <= k < |plan.section| && plan.section[k] == PLAN_START;
    var l :| 0 <= l < |plan.section| && plan.section[l] == PLAN_END;
    SeenPlace(lines, a, m, z, i + k);
    SeenPlace(lines, a, m, z, i + l);
  }

  lemma {:induction false} SeenPlace(lines: seq<string>, a: seq<string>, m: seq<string>, z: seq<string>, k: nat)
    requires Framed(a, m, z) && |ReadAll(a + m + z).visible| == |a + m + z| && k < |lines|
    requires lines == Dropped(ReadAll(a + m + z).visible)
    requires forall i :: 0 <= i < |a + m + z| ==>
      ReadAll(a + m + z).visible[i] == (a + m + z)[i] || ReadAll(a + m + z).visible[i] == ""
    ensures lines[k] == PLAN_START ==> k == |a| && ReadAll(a + m + z).visible[|a|] == PLAN_START
    ensures lines[k] == PLAN_END ==> k == |a| + |m| - 1 && ReadAll(a + m + z).visible[|a| + |m| - 1] == PLAN_END
  {
    hide ReadAll, Framed;
    FramedPlace(a, m, z, k);
  }

  // ---------------------------------------------------------------- the text between the markers

  lemma {:induction false} JoinLast(lines: seq<string>, last: string)
    requires lines != []
    ensures Join("\n", lines + [last]) == Join("\n", lines) + "\n" + last
    decreases |lines|
  {
    var all := lines + [last];
    if |lines| == 1 {
      assert all[1..] == [last];
    } else {
      assert all[1..] == lines[1..] + [last];
      JoinLast(lines[1..], last);
    }
  }

  /** The text of a view: its first line is the start marker and its last the end marker. */
  lemma {:induction false} ViewText(d: Document, waves: map<string, nat>) returns (front: string)
    ensures var view := DerivedView(d, waves); var w := SplitLines(view);
      && view == front + PLAN_END && front != "" && EndsLine(front) && PLAN_START <= view
      && Solid(view) && |w| >= 2 && w[0] == PLAN_START && w[|w| - 1] == PLAN_END && SplitLines(front) == w[..|w| - 1]
  {
    var body := ViewBody(d, waves);
    assert body != [] && body[|body| - 1] == PLAN_END;
    hide ViewBody, SplitLines;
    var most := [PLAN_START] + body[..|body| - 1];
    assert [PLAN_START] + body == most + [PLAN_END];
    JoinLast(most, PLAN_END);
    front := Join("\n", most) + "\n";
    MarkerText();
    OneLine(PLAN_END);
    SplitAfter(front, PLAN_END);
    assert ([PLAN_START] + body)[1..] == body;
    SplitFirst(PLAN_START, Join("\n", body));
    JoinFirst("\n", PLAN_START, body[..|body| - 1]);
    assert |SplitLines(front)| > 0 by { SplitStep(front); }
  }

  lemma {:induction false} MarkerText()
    ensures Solid(PLAN_START) && NoBreaks(PLAN_START) && Solid(PLAN_END) && NoBreaks(PLAN_END)
  {
    StartText();
    EndText();
  }

  lemma {:induction false} StartText()
    ensures Solid(PLAN_START) && NoBreaks(PLAN_START)
  {}

  lemma {:induction false} EndText()
    ensures Solid(PLAN_END) && NoBreaks(PLAN_END)
  {}

  /** Where a text with both markers once holds its view. */
  lemma {:induction false} ViewPlace(pre: string, x: string, front: string, post: string)
    requires EndsLine(pre) && StartsLine(post) && x == front + PLAN_END && EndsLine(front) && PLAN_START <= x
    requires MarkersOnce(pre + x + post)
    ensures ViewStart(pre + x + post) == |pre| && ViewEnd(pre + x + post) == |pre| + |x|
  {
    hide Count, Index, NoBreaks, EndsLine;
    MarkerText();
    PiecePlace(pre, x, front, post, PLAN_START, PLAN_END);
  }

  /** Exchanging the view leaves as many markers as the new view holds. */
  lemma {:induction false} MarkersMove(pre: string, x: string, view: string, post: string)
    requires EndsLine(pre) && StartsLine(post) && MarkersOnce(pre + x + post)
    requires Count(x, PLAN_START) >= 1 && Count(x, PLAN_END) >= 1
    ensures MarkersOnce(pre + view + post) <==> MarkersOnce(view)
  {
    MarkersAdd(pre, x, post, PLAN_START);
    MarkersAdd(pre, x, post, PLAN_END);
    MarkersAdd(pre, view, post, PLAN_START);
    MarkersAdd(pre, view, post, PLAN_END);
  }

  lemma {:induction false} MarkersAdd(pre: string, x: string, post: string, marker: string)
    requires EndsLine(pre) && StartsLine(post) && (marker == PLAN_START || marker == PLAN_END)
    ensures Count(pre + x + post, marker) == Count(pre, marker) + Count(x, marker) + Count(post, marker)
  {
    hide Count;
    MarkerText();
    assert pre + x + post == pre + (x + post);
    CountAfter(pre, x + post, marker);
    CountBefore(x, post, marker);
  }

  /** With each marker once in the text, no other line is one. */
  lemma {:induction false} FramedOnce(text: string, a: seq<string>, m: seq<string>, z: seq<string>)
    requires SplitLines(text) == a + m + z && |m| >= 2 && m[0] == PLAN_START && m[|m| - 1] == PLAN_END
    requires MarkersOnce(text)
    ensures Framed(a, m, z)
  {
    hide Count, Index, SplitLines;
    MarkerText();
    CountLines(text, PLAN_START);
    CountLines(text, PLAN_END);
    var inner, most := m[1..], m[..|m| - 1];
    assert a + m + z == a + [PLAN_START] + (inner + z) && a + m + z == (a + most) + [PLAN_END] + z;
    AloneAt(a, PLAN_START, inner + z);
    AloneAt(a + most, PLAN_END, z);
    forall k | 0 < k < |m| ensures m[k] != PLAN_START { assert m[k] == (inner + z)[k - 1]; }
    forall k | 0 <= k < |z| ensures z[k] != PLAN_START && z[k] != PLAN_END { assert z[k] == (inner + z)[|inner| + k]; }
    forall k | 0 <= k < |m| - 1 ensures m[k] != PLAN_END { assert m[k] == (a + most)[|a| + k]; }
    forall k | 0 <= k < |a| ensures a[k] != PLAN_END { assert a[k] == (a + most)[k]; }
  }

  lemma {:induction false} AloneAt(a: seq<string>, marker: string, b: seq<string>)
    requires marker != "" && Total(a + [marker] + b, marker) == 1
    ensures (forall k :: 0 <= k < |a| ==> a[k] != marker) && forall k :: 0 <= k < |b| ==> b[k] != marker
  {
    hide Total;
    TotalConcat(a + [marker], b, marker);
    TotalConcat(a, [marker], marker);
    TotalHolds([marker], marker, 0);
    forall k | 0 <= k < |a| ensures a[k] != marker { if a[k] == marker { TotalHolds(a, marker, k); } }
    forall k | 0 <= k < |b| ensures b[k] != marker { if b[k] == marker { TotalHolds(b, marker, k); } }
  }

  lemma {:induction false} UpdatedLines(pre: string, view: string, post: string)
    requires EndsLine(pre) && StartsLine(post) && Solid(view)
    ensures SplitLines(pre + view + post) == SplitLines(pre) + SplitLines(view) + SplitLines(Behind(post))
  {
    hide SplitLines;
    SplitBefore(view, post);
    SplitAfter(pre, view + post);
    assert pre + view + post == pre + (view + post);
  }

  // ---------------------------------------------------------------- the parts of a plan

  predicate MarkersOrdered(text: string) { MarkersOnce(text) && ViewStart(text) < ViewEnd(text) }

  function Pre(text: string): string
    requires MarkersOrdered(text)
  {
    text[..ViewStart(text)]
  }

  /** From the start marker to the end of the end marker. */
  function Piece(text: string): string
    requires MarkersOrdered(text)
  {
    text[ViewStart(text)..ViewEnd(text)]
  }

  function Post(text: string): string
    requires MarkersOrdered(text)
  {
    text[ViewEnd(text)..]
  }

  /** The text with the view of `plan` between its markers. */
  function Rewritten(text: string, plan: Loaded): string
    requires MarkersOrdered(text)
  {
    Pre(text) + DerivedView(plan.document, plan.waves) + Post(text)
  }

  /** The lines of a view that disturb nothing around them: outside fences at the end, no graph, no heading that
      counts. */
  ghost predicate SelfContained(view: seq<string>) {
    ReadAll(view).open.None? && PlanGraphs(ReadAll(view).blocks) == [] && Quiet(ReadAll(view).visible)
  }

  /** The heading has been seen and the section has not ended. */
  ghost predicate SectionOpen(seen: seq<string>) {
    exists h :: 0 <= h < |seen| && seen[h] == PLAN_SECTION && forall k :: h < k < |seen| ==> !EndsSection(seen[k])
  }

  /** The view has its place on lines of their own, outside fences, in the section, and the graph stands elsewhere. */
  ghost predicate Placed(text: string)
    requires MarkersOrdered(text)
  {
    && EndsLine(Pre(text)) && StartsLine(Post(text))
    && ReadAll(SplitLines(Pre(text))).open.None? && SectionOpen(ReadAll(SplitLines(Pre(text))).visible)
    && PlanGraphs(ReadAll(SplitLines(Piece(text))).blocks) == []
  }

  /** Front matter and task table of the rewritten text fit the document. */
  predicate StillAdmitted(text: string, c: Checks, plan: Loaded)
    requires MarkersOrdered(text)
  {
    Admitted(c, Rewritten(text, plan), Seen(Rewritten(text, plan)), plan.document)
  }

  lemma {:induction false} MarkerHeads()
    ensures PLAN_START[0] == '<' == PLAN_END[0] && PLAN_START[24] != PLAN_END[24] && |PLAN_END| < |PLAN_START|
    ensures forall k :: 0 < k < |PLAN_START| ==> PLAN_START[k] != '<'
    ensures forall k :: 0 < k < |PLAN_END| ==> PLAN_END[k] != '<'
  {}

  /** The start marker begins the piece, the end marker ends it, and they do not overlap. */
  lemma {:induction false} PieceEnds(text: string)
    requires MarkersOrdered(text)
    ensures text == Pre(text) + Piece(text) + Post(text)
    ensures Solid(Piece(text)) && Count(Piece(text), PLAN_START) >= 1 && Count(Piece(text), PLAN_END) >= 1
  {
    hide Count, Index, IsBreak, Solid;
    var i, j, x := ViewStart(text), ViewEnd(text), Piece(text);
    var e := j - |PLAN_END|;
    MarkersDisjoint(text, i, e);
    assert text == Pre(text) + x + Post(text);
    assert x[..|PLAN_START|] == text[i..][..|PLAN_START|] == PLAN_START;
    assert x[e - i..] == text[e..][..|PLAN_END|] == PLAN_END;
    MarkerText();
    SolidPiece(x, PLAN_START, PLAN_END);
  }

  lemma {:induction false} SolidPiece(x: string, first: string, last: string)
    requires Solid(first) && Solid(last) && |first| <= |x| && |last| <= |x|
    requires x[..|first|] == first && x[|x| - |last|..] == last
    ensures Solid(x) && Count(x, first) >= 1 && Count(x, last) >= 1
  {
    hide Count, IsBreak;
    CountSelf(first);
    CountSelf(last);
    assert x == first + x[|first|..];
    CountPrefix(first, x[|first|..], first);
    CountSuffix(x, |x| - |last|, last);
    assert x[0] == first[0];
    assert x[|x| - 1] == x[|x| - |last|..][|last| - 1];
  }

  lemma {:induction false} MarkersDisjoint(text: string, i: nat, e: nat)
    requires i < e + |PLAN_END| <= |text| && i <= |text|
    requires StartsWith(text[i..], PLAN_START) && StartsWith(text[e..], PLAN_END)
    ensures i + |PLAN_START| <= e
  {
    MarkerHeads();
    var s, t := PLAN_START, PLAN_END;
    assert forall k :: 0 <= k < |s| ==> text[i + k] == text[i..][..|s|][k] == s[k];
    assert forall k :: 0 <= k < |t| ==> text[e + k] == text[e..][..|t|][k] == t[k];
    assert text[i + 24] == s[24] && text[e + 24] == t[24];
    assert text[i] == s[0] && text[e] == t[0];
    assert forall k :: i < k < i + |s| ==> text[k] == text[i..][..|s|][k - i] != '<';
    assert forall k :: e < k < e + |t| ==> text[k] == text[e..][..|t|][k - e] != '<';
  }

  // ---------------------------------------------------------------- when the rewritten plan loads

  lemma {:induction false} SyncStep(text: string, c: Checks, plan: Loaded, updated: string)
    requires LoadBase(text, c) == Ok(plan) && MarkersOrdered(text) && updated == Rewritten(text, plan)
    ensures SyncPlan(text, c).Ok? <==> LoadPlan(updated, c, true).Ok?
    ensures SyncPlan(text, c).Ok? ==> SyncPlan(text, c).value == updated
    ensures LoadPlan(updated, c, true).Ok? <==>
      LoadBase(updated, c).Ok? && MarkersOnce(updated) && MarkersSeen(LoadBase(updated, c).value) &&
      Slice(updated, ViewStart(updated), ViewEnd(updated)) ==
        DerivedView(LoadBase(updated, c).value.document, LoadBase(updated, c).value.waves)
    ensures LoadPlan(updated, c, true).Ok? ==> LoadPlan(updated, c, true) == LoadBase(updated, c)
  {
    hide LoadBase, DerivedView, Count, Index;
  }

  /** Where the markers of a plan that loads stand: on lines of their own. */
  lemma {:induction false} MarkerLine(text: string, c: Checks, marker: string) returns (x: string, y: string)
    requires LoadBase(text, c).Ok? && marker != "" && marker in LoadBase(text, c).value.section
    ensures text == x + marker + y && EndsLine(x) && StartsLine(y)
  {
    hide ReadAll, SplitLines, SectionEnd, PlanGraphs, OneHeading, NoBreaks, LoadBase, EndsLine, StartsLine;
    var h, g := BaseFound(text, c);
    var plan, lines := LoadBase(text, c).value, SplitLines(text);
    LinesUnbroken(text);
    SeenUnbroken(lines);
    VisibleLines(ReadAll(lines).visible);
    var k :| 0 <= k < |plan.section| && plan.section[k] == marker;
    assert SplitLines(Seen(text))[h + 1 + k] == marker;
    x, y := LineAt(text, marker, h + 1 + k);
  }

  /** The heading and the graph of a plan, over all its visible lines. */
  lemma {:induction false} WholeSection(seen: seq<string>, h: nat, n: nat)
    requires OneHeading(Dropped(seen), h) && n <= SectionEnd(Dropped(seen), h + 1)
    ensures OneHeading(seen, h) && n <= SectionEnd(seen, h + 1)
  {
    hide SectionEnd, EndsSection;
    SectionBounds(seen, h + 1);
    SectionBounds(Dropped(seen), h + 1);
  }

  /** The heading found again around the new view. */
  lemma {:induction false} HeadingAgain(a: seq<string>, m: seq<string>, w: seq<string>, z: seq<string>, h: nat)
    requires OneHeading(a + m + z, h) && SectionOpen(a) && Quiet(w)
    ensures h < |a| && OneHeading(a + w + Dropped(z), h)
    ensures forall i :: h < i < |a| ==> !EndsSection(a[i])
  {
    hide EndsSection;
    var x, y := a + m + z, a + w + Dropped(z);
    var k :| 0 <= k < |a| && a[k] == PLAN_SECTION && forall i :: k < i < |a| ==> !EndsSection(a[i]);
    assert x[k] == a[k];
    forall i | 0 <= i < |y| ensures y[i] == PLAN_SECTION <==> i == h {
      if i < |a| {
        assert y[i] == x[i];
      } else if i < |a| + |w| {
        assert y[i] == w[i - |a|];
      } else {
        assert y[i] == z[i - |a| - |w|] == x[i - |w| + |m|];
      }
    }
  }

  /** The end of the section, too. */
  lemma {:induction false} SectionAgain(a: seq<string>, m: seq<string>, w: seq<string>, z: seq<string>, h: nat,
        n: nat)
    requires h < |a| && (forall i :: h < i < |a| ==> !EndsSection(a[i])) && Quiet(w)
    ensures |a| + |w| <= SectionEnd(a + w + Dropped(z), h + 1)
    ensures |a| + |m| <= n <= SectionEnd(a + m + z, h + 1) && n - |m| - |a| <= |Dropped(z)| ==>
            n - |m| + |w| <= SectionEnd(a + w + Dropped(z), h + 1)
  {
    hide SectionEnd, EndsSection;
    var x, y := a + m + z, a + w + Dropped(z);
    assert forall i :: 0 <= i < |a| ==> a[i] == y[i];
    assert forall i :: |a| <= i < |a| + |w| ==> y[i] == w[i - |a|];
    assert forall i :: |a| + |w| <= i < |y| ==> y[i] == z[i - |a| - |w|] == x[i - |w| + |m|];
    SectionBounds(x, h + 1);
    SectionBounds(y, h + 1);
  }

  lemma {:induction false} NewSection(a: seq<string>, w: seq<string>, z: seq<string>, h: nat, end: nat)
    returns (section: seq<string>)
    requires |ReadAll(a).visible| == |a| && Framed(a, w, z) && ReadAll(w).open.None?
    requires h < |a| && |a| + |w| <= end <= |SeenLines(a, w, z)|
    ensures section == SeenLines(a, w, z)[h + 1..end] && PLAN_START in section && PLAN_END in section
  {
    hide ReadAll, Dropped;
    StartSeen(w);
    EndSeen(w);
    var lines := SeenLines(a, w, z);
    section := lines[h + 1..end];
    assert section[|a| - h - 1] == lines[|a|] == ReadAll(w).visible[0];
    assert section[|a| + |w| - h - 2] == lines[|a| + |w| - 1] == ReadAll(w).visible[|w| - 1];
  }

  /** With the piece between the markers exchanged for a self-contained view the plan loads to the same document if
      front matter and task table are still admitted. */
  lemma {:induction false} Exchanged(text: string, updated: string, c: Checks, a: seq<string>, m: seq<string>,
        w: seq<string>, z: seq<string>)
    requires SplitLines(text) == a + m + z && SplitLines(updated) == a + w + z && Framed(a, w, z)
    requires LoadBase(text, c).Ok? && Admitted(c, updated, Seen(updated), LoadBase(text, c).value.document)
    requires ReadAll(a).open.None? && SectionOpen(ReadAll(a).visible)
    requires ReadAll(m).open.None? && PlanGraphs(ReadAll(m).blocks) == [] && SelfContained(w)
    ensures LoadBase(updated, c).Ok? && MarkersSeen(LoadBase(updated, c).value)
    ensures LoadBase(updated, c).value.document == LoadBase(text, c).value.document
    ensures LoadBase(updated, c).value.waves == LoadBase(text, c).value.waves
  {
    hide ReadAll, PlanGraphs, SplitLines, SectionEnd, OneHeading, Framed, Quiet, LoadBase, Admitted, SectionOpen,
      Dropped, NoBreaks;
    var plan := LoadBase(text, c).value;
    var h, g := BaseFound(text, c);
    LinesUnbroken(text);
    SeenUnbroken(a + m + z);
    VisibleLines(ReadAll(a + m + z).visible);
    ReadThree(a, m, z);
    WholeSection(ReadAll(a + m + z).visible, h, g.line);
    SameLength(a);
    SameLength(m);
    SameLength(w);
    SameLength(z);
    LinesUnbroken(updated);
    SeenAgain(a, w, z);
    ReadThree(a, w, z);
    var next := GraphMoves(a, m, w, z, g);
    HeadingAgain(ReadAll(a).visible, ReadAll(m).visible, ReadAll(w).visible, ReadAll(z).visible, h);
    SectionAgain(ReadAll(a).visible, ReadAll(m).visible, ReadAll(w).visible, ReadAll(z).visible, h, g.line);
    DroppedLength(ReadAll(z).visible);
    var section := NewSection(a, w, z, h, SectionEnd(SeenLines(a, w, z), h + 1));
    BaseOk(updated, c, h, next, plan.(section := section));
  }

  lemma {:induction false} DroppedLength(lines: seq<string>)
    ensures |lines| <= |Dropped(lines)| + 1
  {}

  /** When the plan with the view loads, with both markers in its section, the view has its place there and is
      self-contained, and the graph does not stand where the view is. */
  lemma {:induction false} ExchangedBack(text: string, updated: string, c: Checks, a: seq<string>, m: seq<string>,
        w: seq<string>, z: seq<string>)
    requires SplitLines(text) == a + m + z && SplitLines(updated) == a + w + z && Framed(a, w, z)
    requires LoadBase(text, c).Ok? && LoadBase(updated, c).Ok? && MarkersSeen(LoadBase(updated, c).value)
    requires ReadAll(m).open.None? && PlanGraphs(ReadAll(w).blocks) == []
    ensures ReadAll(a).open.None? && SectionOpen(ReadAll(a).visible)
    ensures PlanGraphs(ReadAll(m).blocks) == [] && SelfContained(w)
    ensures Admitted(c, updated, Seen(updated), LoadBase(text, c).value.document)
  {
    hide ReadAll, PlanGraphs, SplitLines, SectionEnd, OneHeading, Framed, MarkersSeen, LoadBase, Admitted, SectionOpen,
      Quiet, SeenLines;
    var h, g := BaseFound(text, c);
    var k, next := BaseFound(updated, c);
    Located(updated, c, k, next, LoadBase(updated, c).value, a, w, z);
    SpansView(a, w, z, k);
    ReadThree(a, m, z);
    ReadThree(a, w, z);
    var moved := GraphMoves(a, m, w, z, g);
    assert [moved] == [next] && [moved][0] == [next][0];
  }

  lemma {:induction false} SpansView(a: seq<string>, w: seq<string>, z: seq<string>, k: nat)
    requires |ReadAll(a).visible| == |a| && |ReadAll(w).visible| == |w|
    requires OneHeading(SeenLines(a, w, z), k) && k < |a| && SectionEnd(SeenLines(a, w, z), k + 1) >= |a| + |w|
    ensures SectionOpen(ReadAll(a).visible) && Quiet(ReadAll(w).visible)
  {
    hide ReadAll, Dropped, SectionEnd, EndsSection;
    var y, before, seen := SeenLines(a, w, z), ReadAll(a).visible, ReadAll(w).visible;
    SectionBounds(y, k + 1);
    forall i | 0 <= i < |seen| ensures seen[i] != PLAN_SECTION && !EndsSection(seen[i]) {
      assert y[|a| + i] == seen[i];
    }
    forall i | k < i < |before| ensures !EndsSection(before[i]) { assert y[i] == before[i]; }
    assert y[k] == before[k];
  }

  // ---------------------------------------------------------------- main results

  function ViewOf(plan: Loaded): string { DerivedView(plan.document, plan.waves) }

  lemma {:induction false} SyncSuffices(text: string, c: Checks)
    requires MarkersOrdered(text) && LoadBase(text, c).Ok? && Placed(text)
    requires ReadAll(SplitLines(Piece(text))).open.None?
    requires var plan := LoadBase(text, c).value;
      MarkersOnce(ViewOf(plan)) && SelfContained(SplitLines(ViewOf(plan))) && StillAdmitted(text, c, plan)
    ensures SyncPlan(text, c).Ok? && LoadPlan(SyncPlan(text, c).value, c, true).Ok?
    ensures LoadPlan(SyncPlan(text, c).value, c, true).value.document == LoadBase(text, c).value.document
  {
    hide LoadBase, LoadPlan, SyncPlan, DerivedView, MarkersOnce, ViewStart, ViewEnd, SplitLines, ReadAll, PlanGraphs,
      SelfContained, Seen, Framed, EndsLine, StartsLine, MarkersSeen, Admitted, SectionOpen, Solid;
    var plan := LoadBase(text, c).value;
    var pre, x, post, view := Pre(text), Piece(text), Post(text), ViewOf(plan);
    var updated := pre + view + post;
    var front := ViewText(plan.document, plan.waves);
    PieceEnds(text);
    UpdatedLines(pre, x, post);
    UpdatedLines(pre, view, post);
    MarkersMove(pre, x, view, post);
    var a, m, w, z := SplitLines(pre), SplitLines(x), SplitLines(view), SplitLines(Behind(post));
    FramedOnce(updated, a, w, z);
    ViewPlace(pre, view, front, post);
    assert Slice(updated, ViewStart(updated), ViewEnd(updated)) == view;
    Exchanged(text, updated, c, a, m, w, z);
    SyncStep(text, c, plan, updated);
  }

  lemma {:induction false} SyncNeeds(text: string, c: Checks)
    requires MarkersOrdered(text) && LoadBase(text, c).Ok? && ReadAll(SplitLines(Piece(text))).open.None?
    requires PlanGraphs(ReadAll(SplitLines(ViewOf(LoadBase(text, c).value))).blocks) == []
    requires SyncPlan(text, c).Ok?
    ensures var plan := LoadBase(text, c).value;
      && Placed(text) && MarkersOnce(ViewOf(plan)) && SelfContained(SplitLines(ViewOf(plan)))
      && StillAdmitted(text, c, plan)
  {
    hide LoadBase, LoadPlan, SyncPlan, DerivedView, MarkersOnce, ViewStart, ViewEnd, SplitLines, ReadAll, PlanGraphs,
      SelfContained, Seen, Framed, EndsLine, StartsLine, Admitted, SectionOpen, Solid;
    var plan := LoadBase(text, c).value;
    var pre, x, post, view := Pre(text), Piece(text), Post(text), ViewOf(plan);
    var updated := pre + view + post;
    var front := ViewText(plan.document, plan.waves);
    SyncStep(text, c, plan, updated);
    PieceEnds(text);
    AtLines(updated, c, pre, view, front, post);
    UpdatedLines(pre, x, post);
    UpdatedLines(pre, view, post);
    MarkersMove(pre, x, view, post);
    var a, m, w, z := SplitLines(pre), SplitLines(x), SplitLines(view), SplitLines(Behind(post));
    FramedOnce(updated, a, w, z);
    ExchangedBack(text, updated, c, a, m, w, z);
  }

  /** In a plan that loads with both markers in its section, the view between them is bounded by line breaks. */
  lemma {:induction false} AtLines(text: string, c: Checks, pre: string, view: string, front: string, post: string)
    requires LoadBase(text, c).Ok? && MarkersSeen(LoadBase(text, c).value) && MarkersOnce(text)
    requires text == pre + view + post && view == front + PLAN_END && PLAN_START <= view
    ensures EndsLine(pre) && StartsLine(post)
  {
    hide LoadBase, Count, EndsLine, StartsLine;
    MarkerText();
    var x, y := MarkerLine(text, c, PLAN_START);
    assert text[|pre|..][..|PLAN_START|] == PLAN_START;
    OccursOnce(x, y, |pre|, PLAN_START);
    assert x == text[..|x|] == pre;
    var before := pre + front;
    x, y := MarkerLine(text, c, PLAN_END);
    assert text == before + (PLAN_END + post);
    assert text[|before|..] == PLAN_END + post && (PLAN_END + post)[..|PLAN_END|] == PLAN_END;
    OccursOnce(x, y, |before|, PLAN_END);
    assert y == text[|x| + |PLAN_END|..] == post;
  }

  /** Sync succeeds exactly when the markers are bounded by line breaks and stand outside fences in the section, the
      graph does not stand between them, the new view holds each marker once and is self-contained, and front matter
      and task table are still admitted. The text between the markers closes the fences it opens, and the view
      holds no graph of its own. */
  lemma {:induction false} SyncExactly(text: string, c: Checks)
    requires MarkersOrdered(text) && LoadBase(text, c).Ok? && ReadAll(SplitLines(Piece(text))).open.None?
    requires PlanGraphs(ReadAll(SplitLines(ViewOf(LoadBase(text, c).value))).blocks) == []
    ensures var plan := LoadBase(text, c).value;
      SyncPlan(text, c).Ok? <==>
      Placed(text) && MarkersOnce(ViewOf(plan)) && SelfContained(SplitLines(ViewOf(plan))) &&
      StillAdmitted(text, c, plan)
    ensures SyncPlan(text, c).Ok? ==>
      SyncPlan(text, c).value == Rewritten(text, LoadBase(text, c).value) &&
      LoadPlan(SyncPlan(text, c).value, c, true).Ok? &&
      LoadPlan(SyncPlan(text, c).value, c, true).value.document == LoadBase(text, c).value.document
  {
    hide *;
    var plan := LoadBase(text, c).value;
    SyncStep(text, c, plan, Rewritten(text, plan));
    if SyncPlan(text, c).Ok? { SyncNeeds(text, c); }
    if Placed(text) && MarkersOnce(ViewOf(plan)) && SelfContained(SplitLines(ViewOf(plan))) &&
       StillAdmitted(text, c, plan)
    {
      SyncSuffices(text, c);
    }
  }

  // ---------------------------------------------------------------- front matter and task table stay

  lemma {:induction false} SplitOnAppend(x: string, y: string, c: char)
    ensures |SplitOn(x, c)| <= |SplitOn(x + y, c)|
    ensures forall i :: 0 <= i < |SplitOn(x, c)| - 1 ==> SplitOn(x + y, c)[i] == SplitOn(x, c)[i]
    decreases |x|
  {
    if x != "" {
      assert (x + y)[1..] == x[1..] + y;
      SplitOnAppend(x[1..], y, c);
    }
  }

  /** The front matter is closed by a whole line. */
  predicate FrontClosed(text: string) {
    FrontMatter(text).Some? && RuleFrom(SplitOn(text, '\n'), 2).value + 1 < |SplitOn(text, '\n')|
  }

  lemma {:induction false} RuleKept(lines: seq<string>, more: seq<string>, i: nat)
    requires RuleFrom(lines, i).Some? && RuleFrom(lines, i).value + 1 < |lines| <= |more|
    requires forall k :: 0 <= k < |lines| - 1 ==> more[k] == lines[k]
    ensures RuleFrom(more, i) == RuleFrom(lines, i)
    decreases |lines| - i
  {
    if !IsRule(lines, i) { RuleKept(lines, more, i + 1); }
  }

  lemma {:induction false} FrontKept(x: string, y: string)
    requires FrontClosed(x)
    ensures FrontMatter(x + y) == FrontMatter(x)
  {
    hide SplitOn, Join;
    var lines, more := SplitOn(x, '\n'), SplitOn(x + y, '\n');
    SplitOnAppend(x, y, '\n');
    RuleKept(lines, more, 2);
    var end := RuleFrom(lines, 2).value;
    assert more[1..end] == lines[1..end];
  }

  lemma {:induction false} IndexKept(x: string, y: string, p: string)
    requires p != "" && Count(x, p) > 0
    ensures Count(x + y, p) > 0 && Index(x + y, p) == Index(x, p)
    decreases |x|
  {
    assert (x + y)[..|p|] == x[..|p|];
    if !StartsWith(x, p) {
      assert (x + y)[1..] == x[1..] + y;
      IndexKept(x[1..], y, p);
    }
  }

  /** The task table is closed by a mention of the section. */
  predicate TableClosed(visible: string) {
    Count(visible, STEPS) > 0 && Count(visible[Index(visible, STEPS) + |STEPS|..], PLAN_SECTION) > 0
  }

  lemma {:induction false} TableKept(x: string, y: string)
    requires TableClosed(x)
    ensures TableText(x + y) == TableText(x)
  {
    hide Count, Index;
    IndexKept(x, y, STEPS);
    var i := Index(x, STEPS) + |STEPS|;
    assert (x + y)[i..] == x[i..] + y;
    IndexKept(x[i..], y, PLAN_SECTION);
    var k := Index(x[i..], PLAN_SECTION);
    assert (x[i..] + y)[..k] == x[i..][..k];
  }

  lemma {:induction false} JoinConcat(a: seq<string>, b: seq<string>)
    requires a != [] && b != []
    ensures Join("\n", a + b) == Join("\n", a) + ("\n" + Join("\n", b))
    decreases |a|
  {
    if |a| == 1 {
      assert (a + b)[1..] == b;
    } else {
      assert (a + b)[1..] == a[1..] + b;
      JoinConcat(a[1..], b);
    }
  }

  /** Front matter and task table stand before the view and end there. */
  predicate Settled(text: string)
    requires MarkersOrdered(text)
  {
    FrontClosed(Pre(text)) && TableClosed(Join("\n", ReadAll(SplitLines(Pre(text))).visible))
  }

  /** What is visible begins with what is visible before a piece that starts outside fences. */
  lemma {:induction false} SeenBefore(pre: string, x: string, post: string) returns (rest: string)
    requires EndsLine(pre) && StartsLine(post) && Solid(x) && ReadAll(SplitLines(pre)).open.None? && pre != ""
    ensures Seen(pre + x + post) == Join("\n", ReadAll(SplitLines(pre)).visible) + rest
  {
    hide ReadAll, SplitLines, Join;
    UpdatedLines(pre, x, post);
    SplitStep(x);
    SplitStep(pre);
    var a, more := SplitLines(pre), SplitLines(x) + SplitLines(Behind(post));
    assert SplitLines(pre + x + post) == a + more;
    ReadAppend(a, more);
    SameLength(a);
    SameLength(more);
    JoinConcat(ReadAll(a).visible, ReadAll(more).visible);
    rest := "\n" + Join("\n", ReadAll(more).visible);
  }

  /** Then exchanging the view leaves them as they are. */
  lemma {:induction false} SettledAdmits(text: string, c: Checks)
    requires MarkersOrdered(text) && LoadBase(text, c).Ok? && Placed(text) && Settled(text)
    ensures StillAdmitted(text, c, LoadBase(text, c).value)
  {
    hide LoadBase, DerivedView, MarkersOnce, ViewStart, ViewEnd, SplitLines, ReadAll, PlanGraphs, FrontClosed,
      TableClosed, Seen, SectionOpen, Solid, EndsLine, StartsLine, FrontMatter, TableText, Join;
    var plan := LoadBase(text, c).value;
    var pre, x, post, view := Pre(text), Piece(text), Post(text), ViewOf(plan);
    var h, g := BaseFound(text, c);
    PieceEnds(text);
    var front := ViewText(plan.document, plan.waves);
    NoLines();
    assert pre != "" by { if pre == "" { EmptyRead(); } }
    assert text == pre + (x + post) && pre + view + post == pre + (view + post);
    FrontKept(pre, x + post);
    FrontKept(pre, view + post);
    var old_ := SeenBefore(pre, x, post);
    var new_ := SeenBefore(pre, view, post);
    TableKept(Join("\n", ReadAll(SplitLines(pre)).visible), old_);
    TableKept(Join("\n", ReadAll(SplitLines(pre)).visible), new_);
  }

  lemma {:induction false} EmptyRead()
    ensures !SectionOpen(ReadAll([]).visible)
  {}
}
