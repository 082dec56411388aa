/** Scalars: the reader undoes the writer's text of every scalar and empty collection. */
module YamlScalars {
  import opened Text
  import opened YamlReader
  import opened YamlWriter

  function Append(s: string, rest: Option<string>): Option<string> {
    if rest.Some? then Some(s + rest.value) else None
  }

  lemma {:induction false} DecodeStep(c: char, escaped: string, plain: string, tail: string, t: Option<string>)
    requires DecodeJson(escaped + tail) == Append(plain, t)
    ensures DecodeJson(EscapeChar(c) + escaped + tail) == Append([c] + plain, t)
  {
    DecodeOne(c, escaped + tail);
    Assoc(EscapeChar(c), escaped, tail);
    if t.Some? { Assoc([c], plain, t.value); }
  }

  lemma {:induction false} DecodeEscape(s: string, tail: string)
    ensures DecodeJson(Escape(s) + tail) == Append(s, DecodeJson(tail))
    decreases |s|
  {
    hide DecodeJson, EscapeChar;
    var t := DecodeJson(tail);
    if s == "" {
      assert Escape(s) + tail == tail;
      assert t.Some? ==> s + t.value == t.value;
    } else {
      DecodeEscape(s[1..], tail);
      DecodeStep(s[0], Escape(s[1..]), s[1..], tail, t);
      assert [s[0]] + s[1..] == s;
    }
  }

  lemma {:induction false} DecodeOne(c: char, rest: string)
    ensures DecodeJson(EscapeChar(c) + rest) == Prepend(c, DecodeJson(rest))
  {
    var e := EscapeChar(c);
    var whole := e + rest;
    assert whole[|e|..] == rest;
    if |e| == 6 {
      assert forall i :: 0 <= i < 4 ==> whole[2..][i] == e[i + 2];
      assert c as nat / 16 * 16 + c as nat % 16 == c as nat;
      assert Hex4(whole[2..]) == Some(c as nat);
    }
    assert NextUnit(whole) == Some(Unit(c, |e|));
  }

  lemma {:induction false} DecodeClosed(s: string)
    ensures DecodeJson(Escape(s) + "\"") == Some(s)
  {
    DecodeEscape(s, "\"");
    assert s + "" == s;
  }

  lemma {:induction false} DecodeOpen(s: string)
    ensures DecodeJson(Escape(s)) == None
  {
    DecodeEscape(s, "");
    assert Escape(s) + "" == Escape(s);
  }

  lemma {:induction false} ParsePlain(s: string)
    requires Trimmed(s) && s[0] !in "'\"[{"
    ensures ParseScalar(s) == PlainScalar(s)
  {
    hide PlainScalar, ParseItems, ParseEntries, Unquote, DecodeJson, SplitFlow, LStrip, RStrip;
    StripTrimmed(s);
  }

  lemma {:induction false} IntTextFacts(n: int)
    ensures Trimmed(IntText(n)) && IsIntText(IntText(n)) && IntValue(IntText(n)) == n
    ensures forall i :: 0 <= i < |IntText(n)| ==> IsDigit(IntText(n)[i]) || IntText(n)[i] == '-'
  {
    var s := IntText(n);
    if n < 0 { assert s[1..] == NatText(-n); }
  }

  lemma {:induction false} PlainDigits(s: string)
    requires IsIntText(s) && forall i :: 0 <= i < |s| ==> IsDigit(s[i]) || s[i] == '-'
    ensures PlainScalar(s) == Ok(Int(IntValue(s)))
  {
    assert LowerAscii(s)[0] == s[0];
    assert !HasSeparator(s);
  }

  lemma {:induction false} ParseInt(n: int)
    ensures ParseScalar(IntText(n)) == Ok(Int(n))
  {
    IntTextFacts(n);
    ParsePlain(IntText(n));
    PlainDigits(IntText(n));
  }

  lemma {:induction false} PlainWord(s: string)
    requires s == "null" || s == "true" || s == "false"
    ensures PlainScalar(s) == Ok(if s == "null" then Null else Bool(s == "true"))
  {
    assert LowerAscii(s) == s;
    assert !HasSeparator(s);
  }

  lemma {:induction false} ParseWord(v: Value)
    requires v.Null? || v.Bool?
    ensures ParseScalar(ScalarText(v)) == Ok(v)
  {
    var s := ScalarText(v);
    ParsePlain(s);
    PlainWord(s);
  }

  lemma {:induction false} EmptyFlow()
    ensures SplitFlow("") == []
  {
    assert StripParts([""], 0) == [] + StripParts([], 0);
  }

  lemma {:induction false} ParseEmptyCollection(v: Value)
    requires (v.List? || v.Map?) && Inline(v) && Writable(v)
    ensures ParseScalar(InlineText(v)) == Ok(v)
  {
    var s := InlineText(v);
    StripTrimmed(s);
    EmptyFlow();
    assert s[1..|s| - 1] == "";
  }

  lemma {:induction false} ParseInline(v: Value)
    requires Inline(v) && Writable(v)
    ensures ParseScalar(InlineText(v)) == Ok(v)
  {
    hide PlainScalar, ParseItems, ParseEntries, Unquote, DecodeJson, SplitFlow, LStrip, RStrip, Escape, IntText;
    match v
    case Str(text) =>
      var s := JsonText(text);
      StripTrimmed(s);
      assert s[1..] == Escape(text) + "\"";
      DecodeClosed(text);
    case Int(n) => ParseInt(n);
    case List(_) => ParseEmptyCollection(v);
    case Map(_) => ParseEmptyCollection(v);
    case _ => ParseWord(v);
  }
}
