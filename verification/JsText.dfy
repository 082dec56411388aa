/** The string operations of ECMAScript that the plugin's client code relies on. */
module JsText {
  import opened Text

  /** White space and line terminators: what `trim` removes and `\s` matches. */
  predicate JsSpace(c: char) {
    || '\U{09}' <= c <= '\U{0D}' || c == ' ' || c == '\U{A0}' || c == '\U{1680}'
    || '\U{2000}' <= c <= '\U{200A}' || c == '\U{2028}' || c == '\U{2029}'
    || c == '\U{202F}' || c == '\U{205F}' || c == '\U{3000}' || c == '\U{FEFF}'
  }

  /** The line terminators, which `.` does not match. */
  predicate Terminator(c: char) { c == '\n' || c == '\r' || c == '\U{2028}' || c == '\U{2029}' }

  predicate WordChar(c: char) { 'a' <= c <= 'z' || 'A' <= c <= 'Z' || '0' <= c <= '9' || c == '_' }

  /** White space and line terminators, one by one. */
  lemma {:induction false} SpaceForms(c: char)
    ensures JsSpace(c) <==>
            c in "\U{9}\U{A}\U{B}\U{C}\U{D}\U{20}\U{A0}\U{1680}\U{2000}\U{2001}\U{2002}\U{2003}" +
                 "\U{2004}\U{2005}\U{2006}\U{2007}\U{2008}\U{2009}\U{200A}\U{2028}\U{2029}\U{202F}\U{205F}\U{3000}" +
                 "\U{FEFF}"
    ensures Terminator(c) <==> c in "\n\r\U{2028}\U{2029}"
  {}

  /** The number of leading white-space characters. */
  function SpaceRun(s: string): (n: nat)
    ensures n <= |s| && (forall i :: 0 <= i < n ==> JsSpace(s[i])) && (n < |s| ==> !JsSpace(s[n]))
  {
    if s != "" && JsSpace(s[0]) then 1 + SpaceRun(s[1..]) else 0
  }

  function TrimStart(s: string): (r: string)
    ensures r == "" || !JsSpace(r[0])
  {
    s[SpaceRun(s)..]
  }

  function TrimEnd(s: string): (r: string)
    ensures r <= s
    ensures r == "" || !JsSpace(r[|r| - 1])
  {
    if s != "" && JsSpace(s[|s| - 1]) then TrimEnd(s[..|s| - 1]) else s
  }

  function Trim(s: string): (r: string)
    ensures r == "" || (!JsSpace(r[0]) && !JsSpace(r[|r| - 1]))
  {
    TrimStart(TrimEnd(s))
  }

  /** No white space at either end: what trimming leaves alone. */
  predicate Neat(s: string) { s == "" || (!JsSpace(s[0]) && !JsSpace(s[|s| - 1])) }

  lemma {:induction false} TrimNothing(s: string)
    requires Neat(s)
    ensures Trim(s) == s
  {
    assert TrimEnd(s) == s;
  }

  /** One blank on either side is trimmed away. */
  lemma {:induction false} TrimBlanks(s: string)
    requires Neat(s)
    ensures Trim(" " + s + " ") == s
  {
    if s == "" {
      assert " " + s == " " && " "[..0] == "";
      assert TrimEnd(" ") == "";
    } else {
      assert (" " + s)[|s|] == s[|s| - 1];
      assert TrimEnd(" " + s) == " " + s && TrimEnd(s) == s;
    }
  }

  predicate AllSpace(s: string) { forall i :: 0 <= i < |s| ==> JsSpace(s[i]) }

  lemma {:induction false} TrimEndOf(t: string, tail: string)
    requires AllSpace(tail) && (t == "" || !JsSpace(t[|t| - 1]))
    ensures TrimEnd(t + tail) == t
    decreases |tail|
  {
    var s := t + tail;
    if tail == "" {
      assert s == t;
    } else {
      assert s[..|s| - 1] == t + tail[..|tail| - 1];
      TrimEndOf(t, tail[..|tail| - 1]);
    }
  }

  lemma {:induction false} TrimStartOf(pad: string, t: string)
    requires AllSpace(pad) && (t == "" || !JsSpace(t[0]))
    ensures SpaceRun(pad + t) == |pad| && TrimStart(pad + t) == t
  {
    var s := pad + t;
    assert forall i :: 0 <= i < |pad| ==> s[i] == pad[i];
    if t != "" { assert s[|pad|] == t[0]; }
    assert forall i :: 0 <= i < |pad| ==> JsSpace(s[i]);
  }

  /** Trimming drops the space at both ends and nothing else. */
  lemma {:induction false} TrimOf(pad: string, t: string, tail: string)
    requires AllSpace(pad) && AllSpace(tail) && Neat(t)
    ensures Trim(pad + t + tail) == t
  {
    if t == "" {
      var all := pad + t + tail;
      assert AllSpace(all) && "" + all == all;
      TrimEndOf("", all);
      assert TrimStart("") == "";
    } else {
      assert (pad + t)[|pad + t| - 1] == t[|t| - 1];
      TrimEndOf(pad + t, tail);
      TrimStartOf(pad, t);
    }
  }

  lemma {:induction false} TrimParts(s: string) returns (pad: string, tail: string)
    ensures AllSpace(pad) && AllSpace(tail) && s == pad + Trim(s) + tail
  {
    tail := EndSpace(s);
    var e := TrimEnd(s);
    pad := e[..SpaceRun(e)];
    assert e == pad + TrimStart(e);
  }

  lemma {:induction false} EndSpace(s: string) returns (tail: string)
    ensures AllSpace(tail) && s == TrimEnd(s) + tail
    decreases |s|
  {
    if s != "" && JsSpace(s[|s| - 1]) {
      tail := EndSpace(s[..|s| - 1]);
      tail := tail + [s[|s| - 1]];
    } else {
      tail := "";
    }
  }

  /** `content.split("\n")`: at least one line, none holding a line feed. */
  function SplitNewlines(s: string): seq<string> { SplitOn(s, '\n') }

  /** The lines joined again are the content. */
  lemma {:induction false} JoinNewlines(s: string)
    ensures Join("\n", SplitNewlines(s)) == s
    decreases |s|
  {
    if s != "" {
      var rest := SplitNewlines(s[1..]);
      JoinNewlines(s[1..]);
      if s[0] == '\n' {
        assert ([""] + rest)[1..] == rest;
        assert "" + "\n" + Join("\n", rest) == s;
      } else {
        assert SplitNewlines(s)[1..] == rest[1..];
        assert [s[0]] + s[1..] == s;
        if |rest| > 1 {
          assert [s[0]] + rest[0] + "\n" + Join("\n", rest[1..]) == [s[0]] + (rest[0] + "\n" + Join("\n", rest[1..]));
        }
      }
    }
  }
}
