/** The string operations of Python that the scripts rely on: whitespace, line breaks,
    stripping, splitting and joining. Characters are Unicode scalar values. */
module Text {

  datatype Option<+T> = None | Some(value: T)

  /** `str.isspace` of one character. */
  predicate IsSpace(c: char) {
    || '\U{09}' <= c <= '\U{0D}' || '\U{1C}' <= c <= '\U{20}' || c == '\U{85}' || c == '\U{A0}'
    || c == '\U{1680}' || '\U{2000}' <= c <= '\U{200A}' || c == '\U{2028}' || c == '\U{2029}'
    || c == '\U{202F}' || c == '\U{205F}' || c == '\U{3000}'
  }

  /** The characters at which `str.splitlines` ends a line. */
  predicate IsBreak(c: char) {
    || '\U{0A}' <= c <= '\U{0D}' || '\U{1C}' <= c <= '\U{1E}' || c == '\U{85}'
    || c == '\U{2028}' || c == '\U{2029}'
  }

  predicate IsDigit(c: char) { '0' <= c <= '9' }

  /** White space, line breaks and digits, one by one. */
  lemma {:induction false} CharacterForms(c: char)
    ensures IsSpace(c) <==>
            c in "\U{9}\U{A}\U{B}\U{C}\U{D}\U{1C}\U{1D}\U{1E}\U{1F}\U{20}\U{85}\U{A0}" +
                 "\U{1680}\U{2000}\U{2001}\U{2002}\U{2003}\U{2004}\U{2005}\U{2006}\U{2007}\U{2008}\U{2009}\U{200A}" +
                 "\U{2028}\U{2029}\U{202F}\U{205F}\U{3000}"
    ensures IsBreak(c) <==> c in "\U{A}\U{B}\U{C}\U{D}\U{1C}\U{1D}\U{1E}\U{85}\U{2028}\U{2029}"
    ensures IsDigit(c) <==> c in "0123456789"
  {}

  predicate StartsWith(s: string, prefix: string) {
    |prefix| <= |s| && s[..|prefix|] == prefix
  }

  lemma {:induction false} StartForm(s: string, prefix: string)
    ensures StartsWith(s, prefix) <==> exists rest :: s == prefix + rest
  {
    if StartsWith(s, prefix) { assert s == prefix + s[|prefix|..]; }
    if rest :| s == prefix + rest { assert s[..|prefix|] == prefix; }
  }

  function RStrip(s: string): (r: string)
    ensures |r| <= |s|
    ensures r == "" || !IsSpace(r[|r| - 1])
  {
    if s != "" && IsSpace(s[|s| - 1]) then RStrip(s[..|s| - 1]) else s
  }

  function LStrip(s: string): (r: string)
    ensures |r| <= |s|
    ensures r == "" || !IsSpace(r[0])
  {
    if s != "" && IsSpace(s[0]) then LStrip(s[1..]) else s
  }

  /** What stripping on the right drops is space. */
  lemma {:induction false} RStripPrefix(s: string)
    ensures RStrip(s) <= s && forall j :: |RStrip(s)| <= j < |s| ==> IsSpace(s[j])
    decreases |s|
  {
    if s != "" && IsSpace(s[|s| - 1]) {
      var front := s[..|s| - 1];
      RStripPrefix(front);
      forall j | |RStrip(s)| <= j < |s| ensures IsSpace(s[j]) { assert j < |s| - 1 ==> s[j] == front[j]; }
    }
  }

  lemma {:induction false} LStripSuffix(s: string)
    ensures LStrip(s) == s[|s| - |LStrip(s)|..]
    decreases |s|
  {
    if s != "" && IsSpace(s[0]) { LStripSuffix(s[1..]); }
  }

  function Strip(s: string): (r: string)
    ensures |r| <= |s|
    ensures r == "" || (!IsSpace(r[0]) && !IsSpace(r[|r| - 1]))
  {
    LStripSuffix(RStrip(s));
    LStrip(RStrip(s))
  }

  /** A string that stripping leaves alone: nonempty, with no space at either end. */
  predicate Trimmed(s: string) {
    s != "" && !IsSpace(s[0]) && !IsSpace(s[|s| - 1])
  }

  lemma StripTrimmed(s: string)
    requires Trimmed(s)
    ensures RStrip(s) == s && LStrip(s) == s && Strip(s) == s
  {}

  predicate AllWhite(s: string) { forall i :: 0 <= i < |s| ==> IsSpace(s[i]) }

  lemma {:induction false} StripPadded(pad: string, t: string, tail: string)
    requires AllWhite(pad) && AllWhite(tail) && (t == "" || Trimmed(t))
    ensures Strip(pad + t + tail) == t
    decreases |pad| + |tail|
  {
    var s := pad + t + tail;
    if tail != "" {
      assert s[..|s| - 1] == pad + t + tail[..|tail| - 1];
      StripPadded(pad, t, tail[..|tail| - 1]);
    } else if t == "" {
      assert s == pad;
      if pad != "" {
        assert s[..|s| - 1] == pad[..|pad| - 1] + t + tail;
        StripPadded(pad[..|pad| - 1], t, tail);
      }
    } else {
      assert s == pad + t && s[|s| - 1] == t[|t| - 1];
      assert RStrip(s) == s;
      if pad != "" {
        assert s[1..] == pad[1..] + t + tail;
        StripPadded(pad[1..], t, tail);
        assert RStrip(s[1..]) == s[1..];
      }
    }
  }

  function Spaces(n: nat): (s: string)
    ensures |s| == n && forall i :: 0 <= i < n ==> s[i] == ' '
  {
    seq(n, _ => ' ')
  }

  /** The number of leading blanks: `len(line) - len(line.lstrip(" "))`. */
  function LeadingBlanks(s: string): (n: nat)
    ensures n <= |s| && (forall i :: 0 <= i < n ==> s[i] == ' ') && (n < |s| ==> s[n] != ' ')
  {
    if s != "" && s[0] == ' ' then 1 + LeadingBlanks(s[1..]) else 0
  }

  lemma {:induction false} LStripBlanks(n: nat, s: string)
    requires Trimmed(s)
    ensures LStrip(Spaces(n) + s) == s && LeadingBlanks(Spaces(n) + s) == n
    decreases n
  {
    if n == 0 {
      assert Spaces(0) + s == s;
    } else {
      assert (Spaces(n) + s)[1..] == Spaces(n - 1) + s;
      LStripBlanks(n - 1, s);
    }
  }

  /** The number of leading characters that are `c`. */
  function RunLength(s: string, c: char): (n: nat)
    ensures n <= |s| && (forall i :: 0 <= i < n ==> s[i] == c) && (n < |s| ==> s[n] != c)
  {
    if s != "" && s[0] == c then 1 + RunLength(s[1..], c) else 0
  }

  /** Index of the first line break, or the length. */
  function BreakAt(s: string): (k: nat)
    ensures k <= |s| && (forall i :: 0 <= i < k ==> !IsBreak(s[i])) && (k < |s| ==> IsBreak(s[k]))
  {
    if s == "" || IsBreak(s[0]) then 0 else 1 + BreakAt(s[1..])
  }

  /** `str.splitlines`: a carriage return followed by a line feed ends one line, not two. */
  function SplitLines(s: string): seq<string>
    decreases |s|
  {
    if s == "" then []
    else
      var k := BreakAt(s);
      if k == |s| then [s]
      else if s[k] == '\r' && k + 1 < |s| && s[k + 1] == '\n' then [s[..k]] + SplitLines(s[k + 2..])
      else [s[..k]] + SplitLines(s[k + 1..])
  }

  /** The text cut at every `c`: at least one part, none holding it. */
  function SplitOn(s: string, c: char): (parts: seq<string>)
    ensures parts != []
    ensures forall i :: 0 <= i < |parts| ==> c !in parts[i]
  {
    if s == "" then [""]
    else
      var rest := SplitOn(s[1..], c);
      if s[0] == c then [""] + rest else [[s[0]] + rest[0]] + rest[1..]
  }

  lemma {:induction false} SplitHead(part: string, c: char, rest: string)
    requires c !in part
    ensures SplitOn(part, c) == [part] && SplitOn(part + [c] + rest, c) == [part] + SplitOn(rest, c)
    decreases |part|
  {
    if part == "" {
      assert part + [c] + rest == [c] + rest && ([c] + rest)[1..] == rest;
    } else {
      SplitHead(part[1..], c, rest);
      assert (part + [c] + rest)[1..] == part[1..] + [c] + rest;
      assert [part[0]] + part[1..] == part;
    }
  }

  lemma {:induction false} FirstJoined(c: char, r: seq<string>, more: seq<string>)
    requires r != []
    ensures [""] + (r + more) == [""] + r + more
    ensures [[c] + (r + more)[0]] + (r + more)[1..] == [[c] + r[0]] + r[1..] + more
  {
    assert (r + more)[1..] == r[1..] + more;
  }

  lemma {:induction false} SplitOnStep(s: string, c: char)
    requires s != ""
    ensures var rest := SplitOn(s[1..], c);
      SplitOn(s, c) == if s[0] == c then [""] + rest else [[s[0]] + rest[0]] + rest[1..]
  {}

  /** The parts of two texts with the separator between them are the parts of each. */
  lemma {:induction false} SplitOnAround(a: string, c: char, b: string)
    ensures SplitOn(a + [c] + b, c) == SplitOn(a, c) + SplitOn(b, c)
    decreases |a|
  {
    hide SplitOn;
    if a == "" {
      SplitHead("", c, b);
      assert "" + [c] + b == a + [c] + b;
    } else {
      var r, more := SplitOn(a[1..], c), SplitOn(b, c);
      SplitOnAround(a[1..], c, b);
      SplitOnStep(a, c);
      SplitOnStep(a + [c] + b, c);
      assert (a + [c] + b)[1..] == a[1..] + [c] + b && (a + [c] + b)[0] == a[0];
      FirstJoined(a[0], r, more);
    }
  }

  function Join(separator: string, lines: seq<string>): string {
    if |lines| == 0 then ""
    else if |lines| == 1 then lines[0]
    else lines[0] + separator + Join(separator, lines[1..])
  }

  lemma {:induction false} Assoc(a: string, b: string, c: string)
    ensures a + b + c == a + (b + c)
  {}

  predicate NoBreaks(s: string) { forall i :: 0 <= i < |s| ==> !IsBreak(s[i]) }

  lemma BreakAfter(a: string, c: char, b: string)
    requires NoBreaks(a) && IsBreak(c)
    ensures BreakAt(a + [c] + b) == |a|
  {
    var s := a + [c] + b;
    assert s[|a|] == c;
    assert forall i :: 0 <= i < |a| ==> s[i] == a[i];
    assert forall i :: 0 <= i < |a| ==> !IsBreak(s[i]);
  }

  /** A line without a break in it, closed by a line feed, is the first line. */
  lemma {:induction false} SplitFirst(line: string, rest: string)
    requires NoBreaks(line)
    ensures SplitLines(line + "\n" + rest) == [line] + SplitLines(rest)
  {
    hide BreakAt;
    var text := line + "\n" + rest;
    assert text == line + ['\n'] + rest;
    BreakAfter(line, '\n', rest);
    assert text[..|line|] == line && text[|line| + 1..] == rest;
  }
}
