/** What the reader makes of every form a scalar may be written in: plain, single- and double-quoted text, and flow
    sequences and mappings. */
module YamlForms {
  import opened Lists
  import opened Text
  import opened YamlReader
  import opened YamlWriter

  lemma {:induction false} ParseStripped(s: string)
    ensures ParseScalar(s) == ParseScalar(Strip(s))
  {
    hide PlainScalar, ParseItems, ParseEntries, Unquote, DecodeJson, SplitFlow, LStrip, RStrip;
    if Strip(s) != "" { StripTrimmed(Strip(s)); } else { assert Strip("") == ""; }
  }

  // ---------------------------------------------------------------- single quotes

  /** The text between single quotes: a quote is written twice. */
  function Doubled(s: string): string {
    if s == "" then "" else (if s[0] == '\'' then "''" else [s[0]]) + Doubled(s[1..])
  }

  /** Nothing, or a comment: a number sign after space. */
  predicate Commented(rest: string) {
    rest == "" || exists k :: 0 < k < |rest| && rest[k] == '#' && forall j :: 0 <= j < k ==> IsSpace(rest[j])
  }

  lemma {:induction false} CommentFound(rest: string)
    requires rest != "" && !IsSpace(rest[|rest| - 1])
    ensures Strip(rest) != ""
    ensures Commented(rest) <==> IsSpace(rest[0]) && StartsWith(LStrip(rest), "#")
  {
    assert RStrip(rest) == rest;
    LStripFirst(rest);
    var k := |rest| - |LStrip(rest)|;
    if Commented(rest) {
      var m :| 0 < m < |rest| && rest[m] == '#' && forall j :: 0 <= j < m ==> IsSpace(rest[j]);
      assert m == k;
    }
    if StartsWith(LStrip(rest), "#") { assert rest[k] == LStrip(rest)[0] == '#'; }
  }

  /** Stripping on the left drops exactly the space before the first other character. */
  lemma {:induction false} LStripFirst(s: string)
    requires s != "" && !IsSpace(s[|s| - 1])
    ensures LStrip(s) != ""
    ensures var k := |s| - |LStrip(s)|;
      !IsSpace(s[k]) && LStrip(s) == s[k..] && forall j :: 0 <= j < k ==> IsSpace(s[j])
    decreases |s|
  {
    if IsSpace(s[0]) {
      LStripFirst(s[1..]);
      var k := |s| - |LStrip(s)|;
      forall j | 0 <= j < k ensures IsSpace(s[j]) { if j > 0 { assert s[1..][j - 1] == s[j]; } }
      assert s[1..][k - 1] == s[k];
    }
  }

  lemma {:induction false} UnquoteDoubled(s: string, rest: string, whole: string)
    requires rest == "" || (rest[0] != '\'' && !IsSpace(rest[|rest| - 1]))
    ensures Unquote(Doubled(s) + "'" + rest, whole) ==
            if Commented(rest) then Ok(s) else Err(UnexpectedAfterQuoted(whole))
    ensures Unquote(Doubled(s), whole) == Err(UnclosedQuoted(whole))
    decreases |s|
  {
    hide Commented, LStrip;
    var t := Doubled(s) + "'" + rest;
    if s == "" {
      assert t == "'" + rest && t[1..] == rest;
      if rest == "" { CommentedNone(); } else { CommentFound(rest); }
    } else {
      UnquoteDoubled(s[1..], rest, whole);
      var more := Doubled(s[1..]) + "'" + rest;
      assert [s[0]] + s[1..] == s;
      if s[0] == '\'' {
        assert t == "''" + more && t[2..] == more;
        assert Doubled(s)[2..] == Doubled(s[1..]);
      } else {
        assert t == [s[0]] + more && t[1..] == more;
        assert Doubled(s)[1..] == Doubled(s[1..]);
      }
    }
  }

  lemma {:induction false} CommentedNone()
    ensures Commented("") && Strip("") == ""
  {}

  /** Every text after a single quote is the doubled form of some string, alone or closed by a quote that no other
      follows: these are all the forms there are. */
  lemma {:induction false} QuotedForms(t: string) returns (s: string, closed: bool, rest: string)
    ensures t == if closed then Doubled(s) + "'" + rest else Doubled(s)
    ensures closed && rest != "" ==> rest[0] != '\''
    decreases |t|
  {
    if t == "" {
      s, closed, rest := "", false, "";
    } else if t[0] != '\'' {
      s, closed, rest := QuotedForms(t[1..]);
      s := [t[0]] + s;
      assert s[1..] + "" == s[1..];
      assert t == [t[0]] + t[1..];
    } else if |t| > 1 && t[1] == '\'' {
      s, closed, rest := QuotedForms(t[2..]);
      s := "'" + s;
      assert t == "''" + t[2..];
    } else {
      s, closed, rest := "", true, t[1..];
      assert t == "'" + rest;
    }
  }

  /** A single-quoted text is its string, whatever stands in it. Only a comment may follow, and without the closing
      quote it is refused. */
  lemma {:induction false} SingleQuoted(s: string, rest: string)
    requires rest == "" || (rest[0] != '\'' && !IsSpace(rest[|rest| - 1]))
    ensures var text := "'" + Doubled(s) + "'" + rest;
      ParseScalar(text) == if Commented(rest) then Ok(Str(s)) else Err(UnexpectedAfterQuoted(text))
    ensures var open := "'" + Doubled(s);
      !IsSpace(open[|open| - 1]) ==> ParseScalar(open) == Err(UnclosedQuoted(open))
  {
    hide PlainScalar, ParseItems, ParseEntries, Unquote, DecodeJson, SplitFlow, LStrip, RStrip, Commented, Doubled;
    var text, open := "'" + Doubled(s) + "'" + rest, "'" + Doubled(s);
    assert text[1..] == Doubled(s) + "'" + rest && open[1..] == Doubled(s);
    UnquoteDoubled(s, rest, text);
    UnquoteDoubled(s, "", open);
    StripTrimmed(text);
    if !IsSpace(open[|open| - 1]) { StripTrimmed(open); }
  }

  // ---------------------------------------------------------------- double quotes

  predicate HexSpells(c: char, d: nat) {
    (d < 10 && c as int == '0' as int + d) ||
    (10 <= d < 16 && (c as int == 'a' as int + d - 10 || c as int == 'A' as int + d - 10))
  }

  /** Four hexadecimal digits of either case. */
  predicate Hex4Spells(h: string, n: nat) {
    |h| == 4 && n < 0x10000 &&
    HexSpells(h[0], n / 0x1000) && HexSpells(h[1], n / 0x100 % 16) && HexSpells(h[2], n / 16 % 16) &&
        HexSpells(h[3], n % 16)
  }

  predicate Escapes(e: char, c: char) {
    || (e == c && (c == '"' || c == '\\' || c == '/')) || (e == 'b' && c == '\U{08}') || (e == 'f' && c == '\U{0C}')
    || (e == 'n' && c == '\n') || (e == 'r' && c == '\r') || (e == 't' && c == '\t')
  }

  /** The ways to write one character in a JSON string. (Section 7 of RFC 8259.) */
  predicate Spells(u: string, c: char) {
    || (u == [c] && c >= ' ' && c != '"' && c != '\\')
    || (|u| == 2 && u[0] == '\\' && Escapes(u[1], c))
    || (|u| == 6 && u[..2] == "\\u" && c as nat < 0x10000 && Hex4Spells(u[2..], c as nat))
    || (|u| == 12 && u[..2] == "\\u" && u[6..8] == "\\u" && c as nat >= 0x10000 &&
        Hex4Spells(u[2..6], 0xD800 + (c as nat - 0x10000) / 0x400) &&
        Hex4Spells(u[8..], 0xDC00 + (c as nat - 0x10000) % 0x400))
  }

  lemma {:induction false} Hex4Read(h: string, n: nat, rest: string)
    requires Hex4Spells(h, n)
    ensures Hex4(h + rest) == Some(n)
  {
    var s := h + rest;
    assert s[0] == h[0] && s[1] == h[1] && s[2] == h[2] && s[3] == h[3];
    HexRead(h[0], n / 0x1000);
    HexRead(h[1], n / 0x100 % 16);
    HexRead(h[2], n / 16 % 16);
    HexRead(h[3], n % 16);
    HexSum(n);
  }

  lemma {:induction false} HexRead(c: char, d: nat)
    requires HexSpells(c, d)
    ensures HexValue(c) == Some(d)
  {}

  lemma {:induction false} HexSum(n: nat)
    requires n < 0x10000
    ensures ((n / 0x1000 * 16 + n / 0x100 % 16) * 16 + n / 16 % 16) * 16 + n % 16 == n
  {}

  lemma {:induction false} SpelledNext(u: string, c: char, rest: string)
    requires Spells(u, c)
    ensures NextUnit(u + rest) == Some(Unit(c, |u|)) && u != "" && u[0] != '"'
  {
    hide Hex4, Hex4Spells;
    var s, n := u + rest, c as nat;
    assert forall i :: 0 <= i < |u| ==> s[i] == u[i];
    if |u| == 6 {
      assert s[2..] == u[2..] + rest;
      Hex4Read(u[2..], n, rest);
    } else if |u| == 12 {
      var high, low := 0xD800 + (n - 0x10000) / 0x400, 0xDC00 + (n - 0x10000) % 0x400;
      assert s[2..] == u[2..6] + (u[6..] + rest);
      Hex4Read(u[2..6], high, u[6..] + rest);
      assert s[6..] == u[6..] + rest && s[6..][2..] == u[8..] + rest;
      Hex4Read(u[8..], low, rest);
      LowRead(s[6..], low);
      assert 0x10000 + (high - 0xD800) * 0x400 + (low - 0xDC00) == n;
    }
  }

  lemma {:induction false} LowRead(s: string, low: nat)
    requires |s| >= 6 && s[0] == '\\' && s[1] == 'u' && Hex4(s[2..]) == Some(low) && 0xDC00 <= low < 0xE000
    ensures LowSurrogate(s) == Some(low)
  {
    assert s[..2] == "\\u";
  }

  lemma {:induction false} Hex4Spelled(s: string, n: nat)
    requires Hex4(s) == Some(n)
    ensures |s| >= 4 && Hex4Spells(s[..4], n)
  {
    var a, b, c, d := HexValue(s[0]).value, HexValue(s[1]).value, HexValue(s[2]).value, HexValue(s[3]).value;
    assert n == ((a * 16 + b) * 16 + c) * 16 + d;
    HexParts(a, b, c, d, n);
  }

  lemma {:induction false} HexParts(a: nat, b: nat, c: nat, d: nat, n: nat)
    requires a < 16 && b < 16 && c < 16 && d < 16 && n == ((a * 16 + b) * 16 + c) * 16 + d
    ensures n / 0x1000 == a && n / 0x100 % 16 == b && n / 16 % 16 == c && n % 16 == d
  {}

  lemma {:induction false} NextSpelled(s: string)
    requires s != "" && s[0] != '"' && NextUnit(s).Some?
    ensures Spells(s[..NextUnit(s).value.width], NextUnit(s).value.c)
  {
    hide Hex4, Hex4Spells;
    var u := s[..NextUnit(s).value.width];
    if s[0] == '\\' && s[1] == 'u' {
      assert u[..2] == "\\u";
      var code := Hex4(s[2..]).value;
      Hex4Spelled(s[2..], code);
      assert s[2..][..4] == s[2..6];
      if |u| == 12 {
        var low := LowSurrogate(s[6..]).value;
        Hex4Spelled(s[6..][2..], low);
        assert s[6..][2..][..4] == u[8..] && u[2..6] == s[2..6] && u[6..8] == s[6..][..2];
        Surrogates(code, low, NextUnit(s).value.c as nat);
      } else {
        assert u[2..] == s[2..6];
      }
    } else if s[0] == '\\' {
      assert u == [s[0], s[1]];
    } else {
      assert u == [s[0]];
    }
  }

  lemma {:induction false} Surrogates(high: nat, low: nat, n: nat)
    requires 0xD800 <= high < 0xDC00 && 0xDC00 <= low < 0xE000 &&
        n == 0x10000 + (high - 0xD800) * 0x400 + (low - 0xDC00)
    ensures n >= 0x10000 && 0xD800 + (n - 0x10000) / 0x400 == high && 0xDC00 + (n - 0x10000) % 0x400 == low
  {}

  function Concat(us: seq<string>): string { if us == [] then "" else us[0] + Concat(us[1..]) }

  predicate SpellsAll(us: seq<string>, s: string) { |us| == |s| && forall i :: 0 <= i < |us| ==> Spells(us[i], s[i]) }

  lemma {:induction false} DecodeSpelled(us: seq<string>, s: string)
    requires SpellsAll(us, s)
    ensures DecodeJson(Concat(us) + "\"") == Some(s)
    decreases |us|
  {
    hide Spells, NextUnit;
    if us == [] {
      assert Concat(us) + "\"" == "\"" && s == "";
    } else {
      DecodeSpelled(us[1..], s[1..]);
      var rest := Concat(us[1..]) + "\"";
      assert Concat(us) + "\"" == us[0] + rest && (us[0] + rest)[|us[0]|..] == rest;
      SpelledNext(us[0], s[0], rest);
      assert (us[0] + rest)[0] == us[0][0] && [s[0]] + s[1..] == s;
    }
  }

  lemma {:induction false} SpelledDecode(t: string) returns (us: seq<string>)
    requires DecodeJson(t).Some?
    ensures SpellsAll(us, DecodeJson(t).value) && t == Concat(us) + "\""
    decreases |t|
  {
    hide Spells, NextUnit;
    if t[0] == '"' {
      us := [];
    } else {
      NextSpelled(t);
      var u := NextUnit(t).value;
      us := SpelledDecode(t[u.width..]);
      var s := DecodeJson(t).value;
      assert s[1..] == DecodeJson(t[u.width..]).value;
      us := [t[..u.width]] + us;
      assert us[1..] + [] == us[1..];
      assert t == t[..u.width] + t[u.width..];
    }
  }

  /** A double-quoted text reads as a string exactly when it spells it, character by character, up to a last quote. */
  lemma {:induction false} DoubleQuoted(t: string, s: string)
    requires t != "" && t[|t| - 1] == '"'
    ensures ParseScalar("\"" + t) == Ok(Str(s)) <==> exists us :: SpellsAll(us, s) && t == Concat(us) + "\""
    ensures match ParseScalar("\"" + t) case Ok(v) => v.Str? case Err(e) => e == InvalidDoubleQuoted("\"" + t)
  {
    hide PlainScalar, ParseItems, ParseEntries, Unquote, DecodeJson, SplitFlow, LStrip, RStrip, Spells, SpellsAll;
    StripTrimmed("\"" + t);
    assert ("\"" + t)[1..] == t;
    if DecodeJson(t) == Some(s) { var us := SpelledDecode(t); }
    if exists us :: SpellsAll(us, s) && t == Concat(us) + "\"" {
      var us :| SpellsAll(us, s) && t == Concat(us) + "\"";
      DecodeSpelled(us, s);
    }
  }

  /** A text that opens with a double quote or a bracket must end with the one that closes it. */
  lemma {:induction false} Unfinished(s: string)
    requires Trimmed(s)
    ensures s[0] == '[' && s[|s| - 1] != ']' ==> ParseScalar(s) == Err(UnclosedFlowSequence(s))
    ensures s[0] == '{' && s[|s| - 1] != '}' ==> ParseScalar(s) == Err(UnclosedFlowMapping(s))
    ensures s[0] == '"' && (|s| == 1 || s[|s| - 1] != '"') ==> ParseScalar(s) == Err(UnclosedQuoted(s))
  {
    hide PlainScalar, ParseItems, ParseEntries, Unquote, DecodeJson, SplitFlow, LStrip, RStrip;
    StripTrimmed(s);
  }

  // ---------------------------------------------------------------- plain text

  /** The same word in letters of either case. */
  predicate SameWord(s: string, word: string) {
    |s| == |word| &&
    forall i :: 0 <= i < |s| ==>
      s[i] == word[i] || ('A' <= s[i] <= 'Z' && s[i] as int - 'A' as int == word[i] as int - 'a' as int)
  }

  predicate Digits(s: string) { s != "" && forall i :: 0 <= i < |s| ==> '0' <= s[i] <= '9' }

  predicate IntegerText(s: string) { Digits(s) || (s != "" && s[0] == '-' && Digits(s[1..])) }

  predicate DecimalText(s: string) {
    exists i :: 0 < i < |s| && s[i] == '.' && IntegerText(s[..i]) && Digits(s[i + 1..])
  }

  /** A colon before a blank or a tab. */
  predicate KeyLike(s: string) { exists i :: 0 <= i < |s| - 1 && s[i] == ':' && s[i + 1] in " \t" }

  predicate NoneWord(s: string) { SameWord(s, "null") || s == "~" }
  predicate TrueWord(s: string) { SameWord(s, "true") || SameWord(s, "yes") || SameWord(s, "on") }
  predicate FalseWord(s: string) { SameWord(s, "false") || SameWord(s, "no") || SameWord(s, "off") }

  lemma {:induction false} LowerSame(s: string, word: string)
    requires forall i :: 0 <= i < |word| ==> 'a' <= word[i] <= 'z'
    ensures LowerAscii(s) == word <==> SameWord(s, word)
  {
    if LowerAscii(s) == word { assert forall i :: 0 <= i < |s| ==> LowerAscii(s)[i] == word[i]; }
  }

  lemma {:induction false} IntegerSame(s: string)
    ensures IsIntText(s) <==> IntegerText(s)
  {}

  lemma {:induction false} DecimalSame(s: string)
    ensures IsFloatText(s) <==> DecimalText(s)
  {
    hide IsIntText, IntegerText;
    if IsFloatText(s) {
      var i :| 0 < i < |s| - 1 && s[i] == '.' && IsIntText(s[..i]) && AllDigits(s[i + 1..]);
      IntegerSame(s[..i]);
    }
    if DecimalText(s) {
      var i :| 0 < i < |s| && s[i] == '.' && IntegerText(s[..i]) && Digits(s[i + 1..]);
      IntegerSame(s[..i]);
    }
  }

  lemma {:induction false} KeyLikeSame(s: string)
    ensures HasSeparator(s) <==> KeyLike(s)
  {
    if HasSeparator(s) { var i :| 0 <= i < |s| - 1 && s[i] == ':' && (s[i + 1] == ' ' || s[i + 1] == '\t'); }
    if KeyLike(s) { var i :| 0 <= i < |s| - 1 && s[i] == ':' && s[i + 1] in " \t"; }
  }

  /** What a plain text is: nothing, a truth value, an integer, a decimal, refused for a colon, or itself. */
  lemma {:induction false} PlainForms(s: string)
    requires Trimmed(s) && s[0] !in "'\"[{"
    ensures var r := ParseScalar(s);
      if KeyLike(s) then r == Err(UnquotedSeparator(s))
      else if NoneWord(s) then r == Ok(Null)
      else if TrueWord(s) then r == Ok(Bool(true))
      else if FalseWord(s) then r == Ok(Bool(false))
      else if IntegerText(s) then r.Ok? && r.value.Int?
      else if DecimalText(s) then r == Ok(Float(s))
      else r == Ok(Str(s))
  {
    hide IsIntText, IntegerText, DecimalText, IsFloatText, SameWord, LowerAscii, KeyLike, HasSeparator, ParseItems,
      ParseEntries, Unquote, DecodeJson, SplitFlow, LStrip, RStrip;
    StripTrimmed(s);
    LowerSame(s, "null");
    TildeSame(s);
    LowerSame(s, "true");
    LowerSame(s, "yes");
    LowerSame(s, "on");
    LowerSame(s, "false");
    LowerSame(s, "no");
    LowerSame(s, "off");
    IntegerSame(s);
    DecimalSame(s);
    KeyLikeSame(s);
  }

  lemma {:induction false} TildeSame(s: string)
    ensures LowerAscii(s) == "~" <==> s == "~"
  {
    if LowerAscii(s) == "~" { assert LowerAscii(s)[0] == '~'; }
  }

  /** A word in small letters is itself, unless it is one of seven. */
  lemma {:induction false} WordRead(word: string)
    requires word != "" && forall i :: 0 <= i < |word| ==> 'a' <= word[i] <= 'z'
    requires word !in {"null", "true", "yes", "on", "false", "no", "off"}
    ensures ParseScalar(word) == Ok(Str(word))
  {
    hide ParseScalar;
    SmallWord(word, "null");
    SmallWord(word, "true");
    SmallWord(word, "yes");
    SmallWord(word, "on");
    SmallWord(word, "false");
    SmallWord(word, "no");
    SmallWord(word, "off");
    hide SameWord;
    PlainForms(word);
  }

  lemma {:induction false} SmallWord(s: string, word: string)
    requires forall i :: 0 <= i < |s| ==> 'a' <= s[i] <= 'z'
    ensures SameWord(s, word) ==> s == word
  {}

  /** Any number of zeros may stand before an integer, and a sign before these. */
  lemma {:induction false} IntegerRead(zeros: nat, n: nat)
    ensures var digits := Zeros(zeros) + NatText(n);
      ParseScalar(digits) == Ok(Int(n)) && ParseScalar("-" + digits) == Ok(Int(0 - n))
  {
    hide ParseScalar, NatText, DigitsValue, Zeros;
    var digits := Zeros(zeros) + NatText(n);
    ZerosValue(zeros, NatText(n));
    PlainInteger(digits);
    assert ("-" + digits)[1..] == digits;
    PlainInteger("-" + digits);
  }

  function Zeros(n: nat): (z: string)
    ensures |z| == n && AllDigits(z)
  {
    seq(n, _ => '0')
  }

  lemma {:induction false} ZerosValue(zeros: nat, s: string)
    requires AllDigits(s)
    ensures AllDigits(Zeros(zeros) + s) && DigitsValue(Zeros(zeros) + s) == DigitsValue(s)
    decreases |s|, zeros
  {
    var all := Zeros(zeros) + s;
    assert AllDigits(all);
    if s != "" {
      assert all[..|all| - 1] == Zeros(zeros) + s[..|s| - 1];
      ZerosValue(zeros, s[..|s| - 1]);
    } else if zeros > 0 {
      assert all[..|all| - 1] == Zeros(zeros - 1) + s;
      ZerosValue(zeros - 1, s);
    }
  }

  lemma {:induction false} PlainInteger(s: string)
    requires IsIntText(s)
    ensures ParseScalar(s) == Ok(Int(IntValue(s)))
  {
    hide ParseItems, ParseEntries, Unquote, DecodeJson, SplitFlow, LStrip, RStrip, IntValue;
    StripTrimmed(s);
    var digits := if s[0] == '-' then s[1..] else s;
    assert forall i :: 0 <= i < |s| ==> IsDigit(s[i]) || (i == 0 && s[i] == '-');
    assert LowerAscii(s)[0] == s[0];
  }

  // ---------------------------------------------------------------- text between top-level commas

  /** Reading `s` goes from one state to the other, closes no bracket it has not opened, and meets no comma at the
      top level. */
  predicate Scans(s: string, from: Scan, to: Scan) {
    if s == "" then from == to
    else !(s[0] == ',' && from == TOP_LEVEL) && Advance(s[0], from).depth >= 0 && Scans(s[1..], Advance(s[0], from), to)
  }

  /** A text that commas can be put around: its quotes and brackets are closed, and the commas in it stand within. */
  predicate Flat(s: string) { Scans(s, TOP_LEVEL, TOP_LEVEL) }

  lemma {:induction false} ScansOn(a: string, b: string, from: Scan, mid: Scan, to: Scan)
    requires Scans(a, from, mid) && Scans(b, mid, to)
    ensures Scans(a + b, from, to)
    decreases |a|
  {
    hide Advance;
    if a == "" {
      assert a + b == b;
    } else {
      assert (a + b)[1..] == a[1..] + b;
      ScansOn(a[1..], b, Advance(a[0], from), mid, to);
    }
  }

  /** One bracket deeper no comma is at the top level. */
  lemma {:induction false} ScansDeeper(s: string, from: Scan, to: Scan)
    requires Scans(s, from, to) && from.depth >= 0
    ensures Scans(s, from.(depth := from.depth + 1), to.(depth := to.depth + 1))
    decreases |s|
  {
    if s != "" { ScansDeeper(s[1..], Advance(s[0], from), to); }
  }

  lemma {:induction false} PartsFlat(p: string, rest: string, st: Scan)
    requires Scans(p, st, TOP_LEVEL)
    ensures FlowParts(p, st) == [p] && FlowParts(p + "," + rest, st) == [p] + FlowParts(rest, TOP_LEVEL)
    decreases |p|
  {
    hide Advance;
    if p == "" {
      assert p + "," + rest == "," + rest && ("," + rest)[1..] == rest;
    } else {
      var more := p[1..] + "," + rest;
      assert (p + "," + rest)[1..] == more && (p + "," + rest)[0] == p[0];
      PartsFlat(p[1..], rest, Advance(p[0], st));
      assert [p[0]] + p[1..] == p;
    }
  }

  predicate AllFlat(parts: seq<string>) { forall i :: 0 <= i < |parts| ==> Flat(parts[i]) }

  lemma {:induction false} JoinedParts(parts: seq<string>)
    requires parts != [] && AllFlat(parts)
    ensures FlowParts(Join(",", parts), TOP_LEVEL) == parts
    decreases |parts|
  {
    hide FlowParts, Scans;
    PartsFlat(parts[0], Join(",", parts[1..]), TOP_LEVEL);
    if |parts| > 1 {
      JoinedParts(parts[1..]);
      assert parts == [parts[0]] + parts[1..];
    } else {
      assert parts == [parts[0]];
    }
  }

  /** Commas between flat texts in a bracket. */
  lemma {:induction false} JoinedScans(parts: seq<string>)
    requires AllFlat(parts)
    ensures Scans(Join(",", parts), Scan(None, 1), Scan(None, 1))
    decreases |parts|
  {
    if parts != [] {
      ScansDeeper(parts[0], TOP_LEVEL, TOP_LEVEL);
      if |parts| > 1 {
        JoinedScans(parts[1..]);
        assert Scans(",", Scan(None, 1), Scan(None, 1));
        hide Scans;
        ScansOn(parts[0], ",", Scan(None, 1), Scan(None, 1), Scan(None, 1));
        ScansOn(parts[0] + ",", Join(",", parts[1..]), Scan(None, 1), Scan(None, 1), Scan(None, 1));
      }
    }
  }

  lemma {:induction false} BracketFlat(open: char, inner: string, close: char)
    requires open in "[{" && close in "]}" && Scans(inner, Scan(None, 1), Scan(None, 1))
    ensures Flat([open] + inner + [close])
  {
    ScansStart(open, inner);
    assert Scans([close], Scan(None, 1), TOP_LEVEL);
    ScansOn([open] + inner, [close], TOP_LEVEL, Scan(None, 1), TOP_LEVEL);
  }

  lemma {:induction false} ScansStart(open: char, inner: string)
    requires open in "[{" && Scans(inner, Scan(None, 1), Scan(None, 1))
    ensures Scans([open] + inner, TOP_LEVEL, Scan(None, 1))
  {
    assert Scans([open], TOP_LEVEL, Scan(None, 1));
    ScansOn([open], inner, TOP_LEVEL, Scan(None, 1), Scan(None, 1));
  }

  /** Within quotes nothing but the quote itself matters. */
  lemma {:induction false} ScansQuoted(s: string, q: char)
    requires q !in s
    ensures Scans(s, Scan(Some(q), 0), Scan(Some(q), 0))
    decreases |s|
  {
    if s != "" { ScansQuoted(s[1..], q); }
  }

  lemma {:induction false} ScansDoubled(s: string)
    ensures Scans(Doubled(s), Scan(Some('\''), 0), Scan(Some('\''), 0))
    decreases |s|
  {
    if s != "" {
      ScansDoubled(s[1..]);
      if s[0] == '\'' {
        assert Doubled(s)[1..][1..] == Doubled(s[1..]);
      } else {
        assert Doubled(s)[1..] == Doubled(s[1..]);
      }
    }
  }

  lemma {:induction false} QuoteFlat(q: char, inner: string)
    requires q in "'\"" && Scans(inner, Scan(Some(q), 0), Scan(Some(q), 0))
    ensures Flat([q] + inner + [q])
  {
    assert Scans([q], TOP_LEVEL, Scan(Some(q), 0)) && Scans([q], Scan(Some(q), 0), TOP_LEVEL);
    ScansOn([q], inner, TOP_LEVEL, Scan(Some(q), 0), Scan(Some(q), 0));
    ScansOn([q] + inner, [q], TOP_LEVEL, Scan(Some(q), 0), TOP_LEVEL);
  }

  /** A character that neither quotes, brackets nor separates. */
  predicate Bare(c: char) { c !in "'\"[]{}," }

  lemma {:induction false} BareScans(s: string)
    requires forall i :: 0 <= i < |s| ==> Bare(s[i])
    ensures Flat(s)
    decreases |s|
  {
    if s != "" { BareScans(s[1..]); }
  }

  /** Which texts are flat: those without quotes, brackets and commas, every single-quoted string, every double-quoted
      text without an escaped quote, and flat texts in brackets with commas between. */
  lemma {:induction false} FlatForms(s: string, parts: seq<string>)
    ensures (forall i :: 0 <= i < |s| ==> Bare(s[i])) ==> Flat(s)
    ensures Flat("'" + Doubled(s) + "'")
    ensures '"' !in s ==> Flat("\"" + s + "\"")
    ensures AllFlat(parts) ==> Flat("[" + Join(",", parts) + "]") && Flat("{" + Join(",", parts) + "}")
  {
    hide Scans, Flat;
    if forall i :: 0 <= i < |s| ==> Bare(s[i]) { BareScans(s); }
    ScansDoubled(s);
    QuoteFlat('\'', Doubled(s));
    if '"' !in s {
      ScansQuoted(s, '"');
      QuoteFlat('"', s);
    }
    if AllFlat(parts) {
      JoinedScans(parts);
      BracketFlat('[', Join(",", parts), ']');
      BracketFlat('{', Join(",", parts), '}');
    }
  }

  // ---------------------------------------------------------------- flow sequences

  predicate Filled(parts: seq<string>) { forall i :: 0 <= i < |parts| ==> Strip(parts[i]) != "" }

  lemma {:induction false} StrippedAll(parts: seq<string>, bound: nat)
    requires Filled(parts) && AllWithin(parts, bound)
    ensures var r := StripParts(parts, bound);
      |r| == |parts| && forall i :: 0 <= i < |parts| ==> r[i] == Strip(parts[i])
    decreases |parts|
  {
    if parts != [] { StrippedAll(parts[1..], bound); }
  }

  /** The values of the texts, up to the first that is refused. */
  ghost predicate ReadsEach(parts: seq<string>, r: Result<seq<Value>>) {
    match r
    case Ok(values) => |values| == |parts| && forall i :: 0 <= i < |parts| ==> ParseScalar(parts[i]) == Ok(values[i])
    case Err(e) =>
      exists i :: 0 <= i < |parts| && ParseScalar(parts[i]) == Err(e) &&
          forall j :: 0 <= j < i ==> ParseScalar(parts[j]).Ok?
  }

  lemma {:induction false} ItemsEach(parts: seq<string>, stripped: seq<string>, bound: nat)
    requires AllWithin(stripped, bound) && |stripped| == |parts|
    requires forall i :: 0 <= i < |parts| ==> stripped[i] == Strip(parts[i])
    ensures ReadsEach(parts, ParseItems(stripped, bound))
    decreases |parts|
  {
    hide ParseScalar, Strip;
    if parts != [] {
      ItemsEach(parts[1..], stripped[1..], bound);
      ParseStripped(parts[0]);
      var rest := ParseItems(stripped[1..], bound);
      if ParseScalar(parts[0]).Ok? {
        match rest
        case Ok(values) =>
        case Err(e) =>
          var i :| 0 <= i < |parts[1..]| && ParseScalar(parts[1..][i]) == Err(e) &&
                   forall j :: 0 <= j < i ==> ParseScalar(parts[1..][j]).Ok?;
          assert parts[i + 1] == parts[1..][i];
          assert forall j :: 0 < j < i + 1 ==> parts[j] == parts[1..][j - 1];
      }
    }
  }

  /** A flow sequence reads as the values of the texts between its commas, in order, or is refused for the first of
      them that is refused. Space around them does not matter. */
  lemma {:induction false} FlowSequence(parts: seq<string>)
    requires AllFlat(parts) && Filled(parts)
    ensures var r := ParseScalar("[" + Join(",", parts) + "]");
      match r
      case Ok(v) => v.List? && ReadsEach(parts, Ok(v.items))
      case Err(e) => ReadsEach(parts, Err(e))
  {
    hide PlainScalar, ParseItems, ParseEntries, Unquote, DecodeJson, SplitFlow, LStrip, RStrip, ReadsEach, AllFlat,
        Filled,
      Join;
    var inner := Join(",", parts);
    var s := "[" + inner + "]";
    StripTrimmed(s);
    assert s[1..|s| - 1] == inner;
    SplitFilled(parts);
    ItemsEach(parts, SplitFlow(inner), |inner|);
  }

  lemma {:induction false} SplitFilled(parts: seq<string>)
    requires AllFlat(parts) && Filled(parts)
    ensures var r := SplitFlow(Join(",", parts));
      |r| == |parts| && forall i :: 0 <= i < |parts| ==> r[i] == Strip(parts[i])
  {
    hide FlowParts, AllFlat, Filled, StripParts, Strip;
    if parts == [] {
      EmptyParts();
    } else {
      JoinedParts(parts);
      StrippedAll(parts, |Join(",", parts)|);
    }
  }

  lemma {:induction false} EmptyParts()
    ensures SplitFlow("") == []
  {
    assert Strip("") == "";
    assert StripParts([""], 0) == [] + StripParts([], 0);
  }

  // ---------------------------------------------------------------- flow mappings

  /** Reading `s` ends at the top level and meets no colon there. */
  predicate KeyScans(s: string, st: Scan) {
    if s == "" then st == TOP_LEVEL else !(s[0] == ':' && st == TOP_LEVEL) && KeyScans(s[1..], Advance(s[0], st))
  }

  /** A text that stands before the colon of an entry: space at neither end, its quotes and brackets closed, and no
      colon but within. */
  predicate Keyed(key: string) { (key == "" || Trimmed(key)) && KeyScans(key, TOP_LEVEL) }

  lemma {:induction false} ColonFound(key: string, rest: string, st: Scan)
    requires KeyScans(key, st) && (rest == "" || IsSpace(rest[0]))
    ensures ColonAt(key + ":" + rest, st) == Some(|key|)
    decreases |key|
  {
    var s := key + ":" + rest;
    if key == "" {
      assert s == ":" + rest;
    } else {
      assert s[1..] == key[1..] + ":" + rest && s[0] == key[0];
      hide Advance;
      ColonFound(key[1..], rest, Advance(key[0], st));
    }
  }

  lemma {:induction false} KeySplits(key: string, rest: string)
    requires Keyed(key) && (rest == "" || IsSpace(rest[0]))
    ensures SplitKey(key + ":" + rest) == KeySplit(key, true, Strip(rest))
  {
    hide ColonAt;
    var s := key + ":" + rest;
    ColonFound(key, rest, TOP_LEVEL);
    assert s[..|key|] == key && s[|key| + 1..] == rest;
    if key != "" { StripTrimmed(key); } else { assert Strip("") == ""; }
  }

  /** Plain words with no colon, quote or bracket are such keys, and so is every quoted text. */
  lemma {:induction false} KeyForms(s: string)
    ensures (forall i :: 0 <= i < |s| ==> s[i] !in "'\"[]{}:") ==> KeyScans(s, TOP_LEVEL)
    ensures '"' !in s ==> KeyScans("\"" + s + "\"", TOP_LEVEL)
    ensures '\'' !in s ==> KeyScans("'" + s + "'", TOP_LEVEL)
  {
    if forall i :: 0 <= i < |s| ==> s[i] !in "'\"[]{}:" { PlainKeyScans(s); }
    if '"' !in s { QuotedKeyScans(s, '"'); assert ("\"" + s + "\"")[1..] == s + "\""; }
    if '\'' !in s { QuotedKeyScans(s, '\''); assert ("'" + s + "'")[1..] == s + "'"; }
  }

  lemma {:induction false} PlainKeyScans(s: string)
    requires forall i :: 0 <= i < |s| ==> s[i] !in "'\"[]{}:"
    ensures KeyScans(s, TOP_LEVEL)
    decreases |s|
  {
    if s != "" { PlainKeyScans(s[1..]); }
  }

  lemma {:induction false} QuotedKeyScans(s: string, q: char)
    requires q !in s && q in "'\""
    ensures KeyScans(s + [q], Scan(Some(q), 0))
    decreases |s|
  {
    if s == "" {
      assert s + [q] == [q] && [q][1..] == "";
    } else {
      assert (s + [q])[1..] == s[1..] + [q];
      QuotedKeyScans(s[1..], q);
    }
  }

  function NamesOf(entries: seq<Entry>): (names: seq<string>)
    ensures |names| == |entries| && forall i :: 0 <= i < |names| ==> names[i] == entries[i].key
  {
    seq(|entries|, i requires 0 <= i < |entries| => entries[i].key)
  }

  /** The entries are those of the keys in the order they first occur, each with the value it occurs with last. */
  ghost predicate Dictionary(keys: seq<string>, values: seq<Value>, entries: seq<Entry>) {
    && |keys| == |values| && NamesOf(entries) == Unique(keys)
    && forall i :: 0 <= i < |keys| && keys[i] !in keys[i + 1..] ==> Entry(keys[i], values[i]) in entries
  }

  lemma {:induction false} UnseenSnoc(seen: set<string>, s: seq<string>, x: string)
    ensures Unseen(seen, s + [x]) == Unseen(seen, s) + (if x in seen || x in s then [] else [x])
    decreases |s|
  {
    if s == [] {
      assert s + [x] == [x] && [x][1..] == [];
    } else {
      assert (s + [x])[1..] == s[1..] + [x] && s == [s[0]] + s[1..];
      UnseenSnoc(if s[0] in seen then seen else seen + {s[0]}, s[1..], x);
    }
  }

  lemma {:induction false} NamesCons(e: Entry, rest: seq<Entry>)
    ensures NamesOf([e] + rest) == [e.key] + NamesOf(rest)
  {}

  lemma {:induction false} PutNames(entries: seq<Entry>, key: string, value: Value)
    ensures NamesOf(Put(entries, key, value)) == NamesOf(entries) + (if key in NamesOf(entries) then [] else [key])
    decreases |entries|
  {
    if entries == [] {
    } else {
      hide NamesOf;
      var rest := entries[1..];
      assert entries == [entries[0]] + rest;
      NamesCons(entries[0], rest);
      if entries[0].key == key {
        NamesCons(Entry(key, value), rest);
      } else {
        PutNames(rest, key, value);
        NamesCons(entries[0], Put(rest, key, value));
      }
    }
  }

  lemma {:induction false} PutKeeps(entries: seq<Entry>, key: string, value: Value)
    ensures Entry(key, value) in Put(entries, key, value)
    ensures forall e :: e in entries && e.key != key ==> e in Put(entries, key, value)
    decreases |entries|
  {
    if entries != [] && entries[0].key != key { PutKeeps(entries[1..], key, value); }
  }

  lemma {:induction false} PutDictionary(keys: seq<string>, values: seq<Value>, entries: seq<Entry>, key: string,
                                         value: Value)
    requires Dictionary(keys, values, entries)
    ensures Dictionary(keys + [key], values + [value], Put(entries, key, value))
  {
    PutLasts(keys, values, entries, key, value);
    hide Put, Unseen, NamesOf;
    PutNames(entries, key, value);
    UnseenSnoc({}, keys, key);
    UnseenFacts({}, keys);
    NamesElements(entries, keys, key);
  }

  lemma {:induction false} NamesElements(entries: seq<Entry>, keys: seq<string>, key: string)
    requires NamesOf(entries) == Unique(keys) && Elements(Unique(keys)) == Elements(keys)
    ensures key in NamesOf(entries) <==> key in keys
  {
    assert key in Elements(keys) <==> key in Elements(Unique(keys));
  }

  lemma {:induction false} PutLasts(keys: seq<string>, values: seq<Value>, entries: seq<Entry>, key: string,
      value: Value)
    requires Dictionary(keys, values, entries)
    ensures var ks, vs := keys + [key], values + [value];
      forall i :: 0 <= i < |ks| && ks[i] !in ks[i + 1..] ==> Entry(ks[i], vs[i]) in Put(entries, key, value)
  {
    hide Put, NamesOf, Unique;
    PutKeeps(entries, key, value);
    var ks, vs := keys + [key], values + [value];
    forall i | 0 <= i < |ks| && ks[i] !in ks[i + 1..] ensures Entry(ks[i], vs[i]) in Put(entries, key, value) {
      if i < |keys| {
        assert ks[i + 1..] == keys[i + 1..] + [key];
        assert Entry(keys[i], values[i]) in entries && keys[i] != key;
      }
    }
  }

  /** An entry of a flow mapping: the key, a colon, and nothing or space and a value. */
  predicate EntryText(part: string, key: string, rest: string) {
    Keyed(key) && (rest == "" || IsSpace(rest[0])) && Strip(part) == key + ":" + rest
  }

  predicate EntryTexts(parts: seq<string>, keys: seq<string>, rests: seq<string>) {
    |parts| == |keys| == |rests| && forall i :: 0 <= i < |parts| ==> EntryText(parts[i], keys[i], rests[i])
  }

  /** The values of the texts after the first `n`, which have been read. */
  lemma {:induction false} EntriesEach(stripped: seq<string>, keys: seq<string>, rests: seq<string>, n: nat, bound: nat,
                                       values: seq<Value>, done: seq<Entry>)
    requires AllWithin(stripped, bound) && |stripped| == |keys| == |rests| && n <= |keys|
    requires forall i :: 0 <= i < |keys| ==>
      Keyed(keys[i]) && (rests[i] == "" || IsSpace(rests[i][0])) && stripped[i] == keys[i] + ":" + rests[i]
    requires |values| == n && (forall i :: 0 <= i < n ==> ParseScalar(rests[i]) == Ok(values[i]))
    requires Dictionary(keys[..n], values, done)
    ensures AllWithin(stripped[n..], bound)
    ensures match ParseEntries(stripped[n..], bound, done)
      case Ok(entries) => exists all :: ReadsEach(rests, Ok(all)) && Dictionary(keys, all, entries)
      case Err(e) => ReadsEach(rests, Err(e))
    decreases |keys| - n
  {
    hide ParseScalar, Strip, Dictionary, Put, SplitKey, Keyed, IsSpace;
    if n == |keys| {
      assert keys[..n] == keys && ReadsEach(rests, Ok(values));
    } else {
      KeySplits(keys[n], rests[n]);
      ParseStripped(rests[n]);
      assert stripped[n..][1..] == stripped[n + 1..];
      match ParseScalar(rests[n])
      case Err(e) => assert ReadsEach(rests, Err(e));
      case Ok(v) =>
        PutDictionary(keys[..n], values, done, keys[n], v);
        assert keys[..n + 1] == keys[..n] + [keys[n]];
        EntriesEach(stripped, keys, rests, n + 1, bound, values + [v], Put(done, keys[n], v));
    }
  }

  /** A flow mapping holds each key once, in the order the keys first occur, with the value of its last occurrence,
      or is refused for the first value that is. */
  lemma {:induction false} FlowMapping(parts: seq<string>, keys: seq<string>, rests: seq<string>)
    requires AllFlat(parts) && EntryTexts(parts, keys, rests)
    ensures match ParseScalar("{" + Join(",", parts) + "}")
      case Ok(v) => v.Map? && exists values :: ReadsEach(rests, Ok(values)) && Dictionary(keys, values, v.entries)
      case Err(e) => ReadsEach(rests, Err(e))
  {
    hide PlainScalar, ParseItems, ParseEntries, Unquote, DecodeJson, SplitFlow, LStrip, RStrip, ReadsEach, AllFlat,
      Join, Dictionary, Keyed;
    var inner := Join(",", parts);
    var s := "{" + inner + "}";
    StripTrimmed(s);
    assert s[1..|s| - 1] == inner;
    SplitFilled(parts);
    EmptyDictionary();
    assert keys[..0] == [] && SplitFlow(inner)[0..] == SplitFlow(inner);
    EntriesEach(SplitFlow(inner), keys, rests, 0, |inner|, [], []);
  }

  lemma {:induction false} EmptyDictionary()
    ensures Dictionary([], [], [])
  {}

  /** A text without a colon is no entry: the mapping is refused for it, if it is the first one. */
  lemma {:induction false} FlowEntryNeeded(bad: string, more: seq<string>)
    requires Flat(bad) && AllFlat(more) && Filled(more) && Strip(bad) != "" && !SplitKey(Strip(bad)).found
    ensures ParseScalar("{" + Join(",", [bad] + more) + "}") == Err(InvalidFlowEntry(Strip(bad)))
  {
    hide PlainScalar, ParseItems, Unquote, DecodeJson, SplitFlow, LStrip, RStrip, Flat, Join, SplitKey;
    var parts := [bad] + more;
    assert AllFlat(parts) && Filled(parts);
    var inner := Join(",", parts);
    var s := "{" + inner + "}";
    StripTrimmed(s);
    assert s[1..|s| - 1] == inner;
    SplitFilled(parts);
  }
}
