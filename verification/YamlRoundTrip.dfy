/** The reader undoes the writer on every projection, exactly when every string in it survives the line
    splitter and the comment scanner. */
module YamlRoundTrip {
  import opened Text
  import opened YamlReader
  import opened YamlWriter
  import opened YamlScalars
  import opened YamlRows

  predicate StringsSurvive(v: Value) {
    match v
    case Str(text) => Survives(text)
    case List(items) => forall i :: 0 <= i < |items| ==> StringsSurvive(items[i])
    case Map(entries) => forall i :: 0 <= i < |entries| ==> StringsSurvive(entries[i].value)
    case _ => true
  }

  predicate DistinctKeys(entries: seq<Entry>) {
    forall i, j :: 0 <= i < j < |entries| ==> entries[i].key != entries[j].key
  }

  /** A dictionary's keys are distinct; here they are also all safe. Floats are left out. */
  predicate Projection(v: Value)
    ensures Projection(v) ==> Writable(v)
  {
    match v
    case Float(_) => false
    case List(items) => forall i :: 0 <= i < |items| ==> Projection(items[i])
    case Map(entries) =>
      DistinctKeys(entries) &&
      forall i :: 0 <= i < |entries| ==> SafeKey(entries[i].key) && Projection(entries[i].value)
    case _ => true
  }

  // ---------------------------------------------------------------- keys and heads

  lemma {:induction false} ColonAfter(key: string, tail: string)
    requires forall i :: 0 <= i < |key| ==> KeyTail(key[i])
    requires tail == "" || IsSpace(tail[0])
    ensures ColonAt(key + (":" + tail), TOP_LEVEL) == Some(|key|)
    decreases |key|
  {
    var s := key + (":" + tail);
    if key == "" {
      assert s == ":" + tail;
    } else {
      assert s[1..] == key[1..] + (":" + tail);
      ColonAfter(key[1..], tail);
    }
  }

  lemma {:induction false} NoColon(s: string, st: Scan)
    requires forall i :: 0 <= i < |s| ==> s[i] != ':'
    ensures ColonAt(s, st) == None
    decreases |s|
  {
    if s != "" { NoColon(s[1..], Advance(s[0], st)); }
  }

  lemma {:induction false} StripBlank(rest: string)
    requires Trimmed(rest)
    ensures Strip(" " + rest) == rest
  {
    assert (" " + rest)[1..] == rest && (" " + rest)[|rest|] == rest[|rest| - 1];
    assert RStrip(" " + rest) == " " + rest;
    StripTrimmed(rest);
  }

  lemma {:induction false} SplitAtColon(key: string, tail: string, rest: string)
    requires SafeKey(key) && (tail == "" || IsSpace(tail[0])) && Strip(tail) == rest
    ensures SplitKey(key + (":" + tail)) == KeySplit(key, true, rest)
  {
    hide ColonAt, Strip;
    var content := key + (":" + tail);
    ColonAfter(key, tail);
    assert content[..|key|] == key && content[|key| + 1..] == tail;
    StripTrimmed(key);
  }

  lemma {:induction false} SplitSafeKey(key: string, rest: string)
    requires SafeKey(key) && (rest == "" || Trimmed(rest))
    ensures var content := if rest == "" then key + ":" else key + ": " + rest;
      SplitKey(content) == KeySplit(key, true, rest) && LooksLikeMapping(content) && !IsDash(content)
  {
    hide SplitKey, Strip;
    var tail := if rest == "" then "" else " " + rest;
    var content := key + (":" + tail);
    assert content == if rest == "" then key + ":" else key + ": " + rest;
    StripTail(rest);
    SplitAtColon(key, tail, rest);
    assert content[0] == key[0];
  }

  lemma {:induction false} StripTail(rest: string)
    requires rest == "" || Trimmed(rest)
    ensures Strip(if rest == "" then "" else " " + rest) == rest
  {
    if rest != "" { StripBlank(rest); }
  }

  lemma {:induction false} NotMapping(s: string)
    requires s != "" && (s[0] == '"' || forall i :: 0 <= i < |s| ==> s[i] != ':')
    ensures !LooksLikeMapping(s)
  {
    hide ColonAt, Strip;
    if s[0] != '"' { NoColon(s, TOP_LEVEL); }
  }

  lemma {:induction false} InlineFacts(v: Value)
    requires Inline(v) && Writable(v)
    ensures Trimmed(InlineText(v)) && !LooksLikeMapping(InlineText(v)) && !IsBlockMark(InlineText(v))
    ensures !v.Str? ==> PlainText(InlineText(v))
  {
    hide LooksLikeMapping, IntText, Escape;
    if v.Int? { IntTextFacts(v.n); }
    NotMapping(InlineText(v));
  }

  lemma {:induction false} UnclosedErr(t: string)
    requires Trimmed("\"" + Escape(t))
    ensures ParseScalar("\"" + Escape(t)).Err? && !LooksLikeMapping("\"" + Escape(t))
    ensures !IsBlockMark("\"" + Escape(t))
  {
    var s := "\"" + Escape(t);
    hide LooksLikeMapping, DecodeJson, Escape, Strip;
    StripTrimmed(s);
    assert s[1..] == Escape(t);
    DecodeOpen(t);
    NotMapping(s);
  }

  // ---------------------------------------------------------------- tokens that agree with rows

  /** Row `row` holds a quoted string and `token` is the same line with that string left unclosed. */
  ghost predicate Broken(token: Token, row: Token) {
    token.indent == row.indent && Trimmed(token.content) &&
    exists h, s, t :: PlainText(h) && row.content == h + JsonText(s) && token.content == Unclosed(h, t)
  }

  /** From index `i` the tokens are the first `n` rows, followed, if rows remain, by a broken one. */
  ghost predicate Agree(tokens: seq<Token>, i: nat, rows: seq<Token>, n: nat) {
    && n <= |rows| && i + n <= |tokens|
    && (forall j :: 0 <= j < n ==> tokens[i + j] == rows[j])
    && (n < |rows| ==> i + n < |tokens| && Broken(tokens[i + n], rows[n]))
  }

  /** The token at `next`, if any, is indented less than `indent`. */
  predicate Closed(tokens: seq<Token>, next: nat, indent: nat) {
    next < |tokens| ==> tokens[next].indent < indent
  }

  lemma {:induction false} AgreeIndent(tokens: seq<Token>, i: nat, rows: seq<Token>, n: nat)
    requires Agree(tokens, i, rows, n) && rows != []
    ensures i < |tokens| && tokens[i].indent == rows[0].indent
  {
    if n > 0 { assert tokens[i + 0] == rows[0]; }
  }

  lemma {:induction false} AgreeBounds(tokens: seq<Token>, i: nat, rows: seq<Token>, n: nat)
    requires Agree(tokens, i, rows, n)
    ensures n <= |rows| && i + n <= |tokens|
  {}

  lemma {:induction false} AgreeSplit(tokens: seq<Token>, i: nat, a: seq<Token>, b: seq<Token>, n: nat)
    requires Agree(tokens, i, a + b, n)
    ensures n < |a| ==> Agree(tokens, i, a, n)
    ensures n >= |a| ==> Agree(tokens, i, a, |a|) && Agree(tokens, i + |a|, b, n - |a|)
  {
    var rows := a + b;
    forall j | 0 <= j < n && j < |a| ensures tokens[i + j] == a[j] { assert tokens[i + j] == rows[j]; }
    if n >= |a| {
      forall j | 0 <= j < n - |a| ensures tokens[i + |a| + j] == b[j] {
        assert tokens[i + (|a| + j)] == rows[|a| + j];
      }
    }
  }

  lemma {:induction false} NotBroken(token: Token, row: Token)
    requires PlainText(row.content)
    ensures !Broken(token, row)
    ensures forall h, s :: row.content != h + JsonText(s)
  {
    forall h, s ensures row.content != h + JsonText(s) { assert (h + JsonText(s))[|h|] == '"'; }
  }

  lemma {:induction false} HeadShort(g: string, x: string, h: string, y: string)
    requires PlainText(g) && g + ("\"" + x) == h + ("\"" + y)
    ensures |g| <= |h|
  {
    var s := g + ("\"" + x);
    assert forall i :: 0 <= i < |g| ==> s[i] == g[i] && s[i] != '"';
    assert s[|h|] == '"';
  }

  lemma {:induction false} HeadUnique(g: string, x: string, h: string, y: string)
    requires PlainText(g) && PlainText(h) && g + ("\"" + x) == h + ("\"" + y)
    ensures g == h
  {
    HeadShort(g, x, h, y);
    HeadShort(h, y, g, x);
    assert g == (g + ("\"" + x))[..|g|] && h == (h + ("\"" + y))[..|h|];
  }

  /** A broken line of an inline value keeps its head and leaves a value that cannot be read. */
  lemma {:induction false} BrokenInline(token: Token, row: Token, head: string, v: Value) returns (rest: string)
    requires Broken(token, row) && Inline(v) && Writable(v)
    requires PlainText(head) && row.content == head + InlineText(v)
    ensures token.content == head + rest && Trimmed(rest)
    ensures ParseScalar(rest).Err? && !LooksLikeMapping(rest) && !IsBlockMark(rest)
  {
    hide ParseScalar, LooksLikeMapping, Escape, InlineText, IsBlockMark, PlainText;
    InlineFacts(v);
    var h, s, t :| PlainText(h) && row.content == h + JsonText(s) && token.content == Unclosed(h, t);
    InlineIsString(row, head, v, h, s);
    rest := "\"" + Escape(t);
    assert token.content[|token.content| - 1] == rest[|rest| - 1];
    UnclosedErr(t);
  }

  lemma {:induction false} InlineIsString(row: Token, head: string, v: Value, h: string, s: string)
    requires Inline(v) && Writable(v) && PlainText(head) && row.content == head + InlineText(v)
    requires PlainText(h) && row.content == h + JsonText(s)
    ensures h == head
  {
    if v.Str? {
      assert InlineText(v) == JsonText(v.text);
      StringHead(head, v.text, h, s);
    } else {
      InlineFacts(v);
      NotBroken(row, row);
    }
  }

  lemma {:induction false} StringHead(g: string, x: string, h: string, y: string)
    requires PlainText(g) && PlainText(h) && g + JsonText(x) == h + JsonText(y)
    ensures g == h
  {
    hide Escape, PlainText;
    assert g + ("\"" + (Escape(x) + "\"")) == g + JsonText(x);
    assert h + ("\"" + (Escape(y) + "\"")) == h + JsonText(y);
    HeadUnique(g, Escape(x) + "\"", h, Escape(y) + "\"");
  }

  // ---------------------------------------------------------------- rows

  lemma {:induction false} NodeRowsHead(v: Value, indent: nat)
    requires !IsScalar(v) && Writable(v)
    ensures NodeRows(v, indent) != [] && NodeRows(v, indent)[0].indent == indent
  {}

  // ---------------------------------------------------------------- one step of each reader

  lemma {:induction false} NodeAsScalar(tokens: seq<Token>, i: nat, indent: nat, v: Value)
    requires i < |tokens| && !IsDash(tokens[i].content) && !LooksLikeMapping(tokens[i].content)
    requires ParseScalar(tokens[i].content) == Ok(v)
    ensures ParseNode(tokens, i, indent) == Ok(Parsed(v, i + 1))
  {
    hide ParseScalar, ParseMap, ParseSeq, LooksLikeMapping;
  }

  lemma {:induction false} NodeAsMap(tokens: seq<Token>, i: nat, indent: nat)
    requires i < |tokens| && !IsDash(tokens[i].content) && LooksLikeMapping(tokens[i].content)
    ensures ParseNode(tokens, i, indent) ==
            match ParseMap(tokens, i, indent, []) case Ok(p) => Ok(Parsed(Map(p.value), p.next)) case Err(e) => Err(e)
  {
    hide ParseScalar, ParseMap, ParseSeq, LooksLikeMapping;
  }

  lemma {:induction false} NodeAsSeq(tokens: seq<Token>, i: nat, indent: nat)
    requires i < |tokens| && IsDash(tokens[i].content)
    ensures ParseNode(tokens, i, indent) ==
            match ParseSeq(tokens, i, indent, []) case Ok(p) => Ok(Parsed(List(p.value), p.next)) case Err(e) => Err(e)
  {
    hide ParseScalar, ParseMap, ParseSeq, LooksLikeMapping;
  }

  lemma {:induction false} EntryInline(tokens: seq<Token>, index: nat, indent: nat, rest: string)
    requires index <= |tokens| && rest != "" && !IsBlockMark(rest)
    ensures EntryValue(tokens, index, indent, rest) ==
            match ParseScalar(rest) case Ok(value) => Ok(Parsed(value, index)) case Err(e) => Err(e)
  {
    hide ParseScalar, ParseNode, ParseSeq, DeeperEnd, BlockText;
  }

  lemma {:induction false} EntryNested(tokens: seq<Token>, index: nat, indent: nat)
    requires index < |tokens| && tokens[index].indent > indent
    ensures EntryValue(tokens, index, indent, "") == ParseNode(tokens, index, tokens[index].indent)
  {
    hide ParseScalar, ParseNode, ParseSeq, DeeperEnd, BlockText;
  }

  lemma {:induction false} MapStep(tokens: seq<Token>, i: nat, indent: nat, done: seq<Entry>, key: string, rest: string)
    requires i < |tokens| && tokens[i].indent == indent && !IsDash(tokens[i].content)
    requires SplitKey(tokens[i].content) == KeySplit(key, true, rest) && key !in KeysOf(done)
    ensures ParseMap(tokens, i, indent, done) ==
            match EntryValue(tokens, i + 1, indent, rest)
            case Ok(p) => ParseMap(tokens, p.next, indent, done + [Entry(key, p.value)])
            case Err(e) => Err(e)
  {
    hide EntryValue, SplitKey, KeysOf;
  }

  lemma {:induction false} ItemInline(tokens: seq<Token>, i: nat, indent: nat, rest: string)
    requires i < |tokens| && IsDash(tokens[i].content) && tokens[i].content != "-"
    requires Strip(tokens[i].content[2..]) == rest && !LooksLikeMapping(rest)
    ensures ItemValue(tokens, i, indent) ==
            match ParseScalar(rest) case Ok(value) => Ok(Parsed(value, i + 1)) case Err(e) => Err(e)
  {
    hide ParseScalar, ParseNode, ParseMap, DeeperEnd, LooksLikeMapping, Strip;
  }

  lemma {:induction false} ItemNested(tokens: seq<Token>, i: nat, indent: nat)
    requires i + 1 < |tokens| && tokens[i].content == "-" && tokens[i + 1].indent > indent
    ensures ItemValue(tokens, i, indent) == ParseNode(tokens, i + 1, tokens[i + 1].indent)
  {
    hide ParseScalar, ParseNode, ParseMap, DeeperEnd, LooksLikeMapping, Strip;
  }

  lemma {:induction false} SeqStep(tokens: seq<Token>, i: nat, indent: nat, done: seq<Value>)
    requires i < |tokens| && tokens[i].indent == indent && IsDash(tokens[i].content)
    ensures ParseSeq(tokens, i, indent, done) ==
            match ItemValue(tokens, i, indent)
            case Ok(p) => ParseSeq(tokens, p.next, indent, done + [p.value])
            case Err(e) => Err(e)
  {
    hide ItemValue;
  }

  lemma {:induction false} StopsAt(tokens: seq<Token>, i: nat, indent: nat, entries: seq<Entry>, items: seq<Value>)
    requires i <= |tokens| && Closed(tokens, i, indent)
    ensures ParseMap(tokens, i, indent, entries) == Ok(Parsed(entries, i))
    ensures ParseSeq(tokens, i, indent, items) == Ok(Parsed(items, i))
  {
    hide EntryValue, ItemValue, SplitKey;
  }

  // ---------------------------------------------------------------- one parse, whole or broken

  /** Outcome of reading `rows` of which `n` are intact: the value, or a refusal. */
  ghost predicate Reads<T>(r: Result<Parsed<T>>, value: T, next: nat, n: nat, rows: seq<Token>) {
    if n == |rows| then r == Ok(Parsed(value, next)) else r.Err?
  }

  lemma {:induction false} InlineWhole(tokens: seq<Token>, i: nat, rows: seq<Token>, n: nat)
    requires |rows| == 1 && PlainText(rows[0].content) && Agree(tokens, i, rows, n)
    ensures n == 1 && tokens[i] == rows[0]
  {
    if i < |tokens| { NotBroken(tokens[i], rows[0]); }
    if n == 1 { assert tokens[i + 0] == rows[0]; }
  }

  lemma {:induction false} NodeParse(v: Value, tokens: seq<Token>, i: nat, indent: nat, n: nat)
    requires Projection(v) && !IsScalar(v) && Agree(tokens, i, NodeRows(v, indent), n)
    requires n == |NodeRows(v, indent)| ==> Closed(tokens, i + n, indent)
    ensures i < |tokens|
    ensures Reads(ParseNode(tokens, i, indent), v, i + n, n, NodeRows(v, indent))
    decreases v, 1, 0
  {
    hide ParseNode, ParseMap, ParseSeq, ParseScalar, LooksLikeMapping, EntryRows, ItemRows;
    var rows := NodeRows(v, indent);
    NodeRowsHead(v, indent);
    AgreeIndent(tokens, i, rows, n);
    if Inline(v) {
      InlineFacts(v);
      InlineWhole(tokens, i, rows, n);
      ParseInline(v);
      NodeAsScalar(tokens, i, indent, v);
    } else if v.Map? {
      MapHead(v, tokens, i, indent, n);
      assert v.entries[..0] == [];
      EntriesParse(v, 0, tokens, i, indent, n);
      NodeAsMap(tokens, i, indent);
    } else {
      ListHead(v, tokens, i, indent, n);
      assert v.items[..0] == [];
      ItemsParse(v, 0, tokens, i, indent, n);
      NodeAsSeq(tokens, i, indent);
    }
  }

  lemma {:induction false} MapHead(v: Value, tokens: seq<Token>, i: nat, indent: nat, n: nat)
    requires Projection(v) && v.Map? && v.entries != [] && Agree(tokens, i, NodeRows(v, indent), n)
    ensures i < |tokens| && !IsDash(tokens[i].content) && LooksLikeMapping(tokens[i].content)
  {
    assert NodeRows(v, indent) == OneEntryRows(v.entries[0], indent) + EntryRows(v, 1, indent);
    var rest := EntryHead(v.entries[0], tokens, i, indent, n, EntryRows(v, 1, indent));
  }

  lemma {:induction false} ListHead(v: Value, tokens: seq<Token>, i: nat, indent: nat, n: nat)
    requires Projection(v) && v.List? && v.items != [] && Agree(tokens, i, NodeRows(v, indent), n)
    ensures i < |tokens| && IsDash(tokens[i].content)
  {
    assert NodeRows(v, indent) == OneItemRows(v.items[0], indent) + ItemRows(v, 1, indent);
    var rest := ItemHead(v.items[0], tokens, i, indent, n, ItemRows(v, 1, indent));
  }

  /** The first token of an entry: its key, and the text `rest` after the colon. */
  lemma {:induction false} EntryHead(e: Entry, tokens: seq<Token>, i: nat, indent: nat, n: nat, more: seq<Token>)
    returns (rest: string)
    requires SafeKey(e.key) && Projection(e.value) && Agree(tokens, i, OneEntryRows(e, indent) + more, n)
    ensures i < |tokens| && tokens[i].indent == indent && !IsDash(tokens[i].content)
    ensures LooksLikeMapping(tokens[i].content) && SplitKey(tokens[i].content) == KeySplit(e.key, true, rest)
    ensures if !Inline(e.value) then n >= 1 && rest == ""
            else !IsBlockMark(rest) && rest != "" &&
                 ParseScalar(rest).Ok? == (n >= 1) && (n >= 1 ==> ParseScalar(rest) == Ok(e.value))
  {
    var rows := OneEntryRows(e, indent) + more;
    AgreeIndent(tokens, i, rows, n);
    assert n > 0 ==> tokens[i + 0] == rows[0];
    if !Inline(e.value) {
      rest := "";
      if n == 0 { NotBroken(tokens[i], rows[0]); }
    } else if n == 0 {
      rest := BrokenInline(tokens[i], rows[0], e.key + ": ", e.value);
    } else {
      rest := InlineText(e.value);
      InlineFacts(e.value);
      ParseInline(e.value);
    }
    SplitSafeKey(e.key, rest);
  }

  /** After a line that opens a nested collection, the rest of its rows agree, one line further down. */
  lemma {:induction false} AgreeBelow(tokens: seq<Token>, i: nat, row: Token, v: Value, indent: nat, n: nat)
    requires !IsScalar(v) && Writable(v) && n >= 1
    requires Agree(tokens, i, [row] + NodeRows(v, indent), n)
    ensures Agree(tokens, i + 1, NodeRows(v, indent), n - 1)
    ensures i + 1 < |tokens| && tokens[i + 1].indent == indent
  {
    hide NodeRows;
    AgreeSplit(tokens, i, [row], NodeRows(v, indent), n);
    NodeRowsHead(v, indent);
    AgreeIndent(tokens, i + 1, NodeRows(v, indent), n - 1);
  }

  lemma {:induction false} EntryParse(e: Entry, tokens: seq<Token>, i: nat, indent: nat, n: nat)
    requires SafeKey(e.key) && Projection(e.value) && Agree(tokens, i, OneEntryRows(e, indent), n)
    requires n == |OneEntryRows(e, indent)| ==> Closed(tokens, i + n, indent + 1)
    ensures i < |tokens| && tokens[i].indent == indent && !IsDash(tokens[i].content)
    ensures var split := SplitKey(tokens[i].content);
      split.key == e.key && split.found &&
      Reads(EntryValue(tokens, i + 1, indent, split.rest), e.value, i + n, n, OneEntryRows(e, indent))
    decreases e.value, 2, 0
  {
    hide EntryValue, ParseNode, ParseScalar, SplitKey, LooksLikeMapping, NodeRows, Agree, InlineText, KeyText;
    var rows := OneEntryRows(e, indent);
    AgreeBounds(tokens, i, rows, n);
    assert rows + [] == rows;
    var rest := EntryHead(e, tokens, i, indent, n, []);
    if Inline(e.value) {
      EntryInline(tokens, i + 1, indent, rest);
    } else {
      AgreeBelow(tokens, i, rows[0], e.value, indent + 2, n);
      EntryNested(tokens, i + 1, indent);
      NodeParse(e.value, tokens, i + 1, indent + 2, n - 1);
    }
  }

  lemma {:induction false} EntriesParse(v: Value, k: nat, tokens: seq<Token>, i: nat, indent: nat, n: nat)
    requires Projection(v) && v.Map? && k <= |v.entries| && Agree(tokens, i, EntryRows(v, k, indent), n)
    requires n == |EntryRows(v, k, indent)| ==> Closed(tokens, i + n, indent)
    ensures Reads(ParseMap(tokens, i, indent, v.entries[..k]), v.entries, i + n, n, EntryRows(v, k, indent))
    decreases v, 0, |v.entries| - k
  {
    hide ParseMap, EntryValue, SplitKey, OneEntryRows, Agree;
    AgreeBounds(tokens, i, EntryRows(v, k, indent), n);
    var done := v.entries[..k];
    if k == |v.entries| {
      assert done == v.entries;
      StopsAt(tokens, i, indent, done, []);
    } else {
      var e := v.entries[k];
      var first, more := OneEntryRows(e, indent), EntryRows(v, k + 1, indent);
      var m := |first|;
      AgreeSplit(tokens, i, first, more, n);
      if n >= m && more != [] { AgreeIndent(tokens, i + m, more, n - m); }
      EntryParse(e, tokens, i, indent, if n < m then n else m);
      assert e.key !in KeysOf(done);
      MapStep(tokens, i, indent, done, e.key, SplitKey(tokens[i].content).rest);
      if n >= m {
        EntriesParse(v, k + 1, tokens, i + m, indent, n - m);
        assert done + [Entry(e.key, e.value)] == v.entries[..k + 1];
      }
    }
  }

  lemma {:induction false} ItemHead(item: Value, tokens: seq<Token>, i: nat, indent: nat, n: nat, more: seq<Token>)
    returns (rest: string)
    requires Projection(item) && Agree(tokens, i, OneItemRows(item, indent) + more, n)
    ensures i < |tokens| && tokens[i].indent == indent && IsDash(tokens[i].content)
    ensures if !Inline(item) then n >= 1 && tokens[i].content == "-"
            else tokens[i].content != "-" && Strip(tokens[i].content[2..]) == rest && !LooksLikeMapping(rest) &&
                 ParseScalar(rest).Ok? == (n >= 1) && (n >= 1 ==> ParseScalar(rest) == Ok(item))
  {
    hide ParseScalar, LooksLikeMapping, Strip, NodeRows, InlineText;
    var rows := OneItemRows(item, indent) + more;
    AgreeIndent(tokens, i, rows, n);
    assert n > 0 ==> tokens[i + 0] == rows[0];
    if !Inline(item) {
      rest := "";
    } else {
      if n == 0 {
        rest := BrokenInline(tokens[i], rows[0], "- ", item);
      } else {
        rest := InlineText(item);
        InlineFacts(item);
        ParseInline(item);
      }
      assert tokens[i].content[2..] == rest && tokens[i].content[..2] == "- ";
      StripTrimmed(rest);
    }
  }

  lemma {:induction false} ItemParse(item: Value, tokens: seq<Token>, i: nat, indent: nat, n: nat)
    requires Projection(item) && Agree(tokens, i, OneItemRows(item, indent), n)
    requires n == |OneItemRows(item, indent)| ==> Closed(tokens, i + n, indent + 1)
    ensures i < |tokens| && tokens[i].indent == indent && IsDash(tokens[i].content)
    ensures Reads(ItemValue(tokens, i, indent), item, i + n, n, OneItemRows(item, indent))
    decreases item, 2, 0
  {
    hide ItemValue, ParseNode, ParseScalar, LooksLikeMapping, Strip, NodeRows, Agree, InlineText;
    var rows := OneItemRows(item, indent);
    AgreeBounds(tokens, i, rows, n);
    assert rows + [] == rows;
    var rest := ItemHead(item, tokens, i, indent, n, []);
    if Inline(item) {
      ItemInline(tokens, i, indent, rest);
    } else {
      AgreeBelow(tokens, i, rows[0], item, indent + 2, n);
      ItemNested(tokens, i, indent);
      NodeParse(item, tokens, i + 1, indent + 2, n - 1);
    }
  }

  lemma {:induction false} ItemsParse(v: Value, k: nat, tokens: seq<Token>, i: nat, indent: nat, n: nat)
    requires Projection(v) && v.List? && k <= |v.items| && Agree(tokens, i, ItemRows(v, k, indent), n)
    requires n == |ItemRows(v, k, indent)| ==> Closed(tokens, i + n, indent)
    ensures Reads(ParseSeq(tokens, i, indent, v.items[..k]), v.items, i + n, n, ItemRows(v, k, indent))
    decreases v, 0, |v.items| - k
  {
    hide ParseSeq, ItemValue, OneItemRows, Agree;
    AgreeBounds(tokens, i, ItemRows(v, k, indent), n);
    var done := v.items[..k];
    if k == |v.items| {
      assert done == v.items;
      StopsAt(tokens, i, indent, [], done);
    } else {
      var item := v.items[k];
      var first, more := OneItemRows(item, indent), ItemRows(v, k + 1, indent);
      var m := |first|;
      AgreeSplit(tokens, i, first, more, n);
      if n >= m && more != [] { AgreeIndent(tokens, i + m, more, n - m); }
      ItemParse(item, tokens, i, indent, if n < m then n else m);
      SeqStep(tokens, i, indent, done);
      if n >= m {
        ItemsParse(v, k + 1, tokens, i + m, indent, n - m);
        assert done + [item] == v.items[..k + 1];
      }
    }
  }

  // ---------------------------------------------------------------- from text to tokens

  /** The row holds a quoted string that does not survive. */
  ghost predicate BadRow(row: Token) {
    exists h, s :: Head(h) && row.content == h + JsonText(s) && !Survives(s)
  }

  /** The first row that does not survive, or the number of rows: then every string survives. */
  ghost predicate FirstBad(rows: seq<Token>, n: nat, survives: bool) {
    && n <= |rows|
    && (forall j :: 0 <= j < n ==> GoodContent(rows[j].content))
    && (n < |rows| ==> BadRow(rows[n]))
    && (n == |rows| <==> survives)
  }

  lemma {:induction false} FirstBadConcat(a: seq<Token>, b: seq<Token>, n: nat, m: nat, p: bool, q: bool)
    returns (k: nat)
    requires FirstBad(a, n, p) && FirstBad(b, m, q)
    ensures FirstBad(a + b, k, p && q)
  {
    hide GoodContent, BadRow;
    k := if p then |a| + m else n;
  }

  lemma {:induction false} FirstBadInline(indent: nat, head: string, v: Value) returns (n: nat)
    requires Head(head) && Inline(v) && Writable(v)
    ensures FirstBad([Token(indent, head + InlineText(v))], n, StringsSurvive(v))
  {
    hide GoodContent, Survives, JsonText;
    InlineFacts(v);
    n := 1;
    if v.Str? {
      if Survives(v.text) { SurvivorGood(head, v.text); } else { n := 0; }
    } else {
      PlainContent(head + InlineText(v));
    }
  }

  lemma {:induction false} NodeFirstBad(v: Value, indent: nat) returns (n: nat)
    requires Projection(v) && !IsScalar(v)
    ensures FirstBad(NodeRows(v, indent), n, StringsSurvive(v))
    decreases v, 1, 0
  {
    if Inline(v) {
      InlineFacts(v);
      PlainContent(InlineText(v));
      n := 1;
    } else if v.Map? {
      n := EntriesFirstBad(v, 0, indent);
    } else {
      n := ItemsFirstBad(v, 0, indent);
    }
  }

  lemma {:induction false} EntryFirstBad(e: Entry, indent: nat) returns (n: nat)
    requires SafeKey(e.key) && Projection(e.value)
    ensures FirstBad(OneEntryRows(e, indent), n, StringsSurvive(e.value))
    decreases e.value, 2, 0
  {
    if Inline(e.value) {
      n := FirstBadInline(indent, e.key + ": ", e.value);
    } else {
      PlainContent(e.key + ":");
      n := NodeFirstBad(e.value, indent + 2);
      n := FirstBadConcat([Token(indent, e.key + ":")], NodeRows(e.value, indent + 2), 1, n, true,
        StringsSurvive(e.value));
    }
  }

  lemma {:induction false} ItemFirstBad(item: Value, indent: nat) returns (n: nat)
    requires Projection(item)
    ensures FirstBad(OneItemRows(item, indent), n, StringsSurvive(item))
    decreases item, 2, 0
  {
    if Inline(item) {
      n := FirstBadInline(indent, "- ", item);
    } else {
      PlainContent("-");
      n := NodeFirstBad(item, indent + 2);
      n := FirstBadConcat([Token(indent, "-")], NodeRows(item, indent + 2), 1, n, true, StringsSurvive(item));
    }
  }

  predicate EntriesSurvive(entries: seq<Entry>, k: nat) {
    forall i :: k <= i < |entries| ==> StringsSurvive(entries[i].value)
  }

  predicate ItemsSurvive(items: seq<Value>, k: nat) {
    forall i :: k <= i < |items| ==> StringsSurvive(items[i])
  }

  lemma {:induction false} EntriesFirstBad(v: Value, k: nat, indent: nat) returns (n: nat)
    requires Projection(v) && v.Map? && k <= |v.entries|
    ensures FirstBad(EntryRows(v, k, indent), n, EntriesSurvive(v.entries, k))
    decreases v, 0, |v.entries| - k
  {
    if k == |v.entries| { return 0; }
    hide FirstBad, OneEntryRows, StringsSurvive, EntriesSurvive;
    var first := EntryFirstBad(v.entries[k], indent);
    var more := EntriesFirstBad(v, k + 1, indent);
    n := FirstBadConcat(OneEntryRows(v.entries[k], indent), EntryRows(v, k + 1, indent), first, more,
                        StringsSurvive(v.entries[k].value), EntriesSurvive(v.entries, k + 1));
  }

  lemma {:induction false} ItemsFirstBad(v: Value, k: nat, indent: nat) returns (n: nat)
    requires Projection(v) && v.List? && k <= |v.items|
    ensures FirstBad(ItemRows(v, k, indent), n, ItemsSurvive(v.items, k))
    decreases v, 0, |v.items| - k
  {
    if k == |v.items| { return 0; }
    hide FirstBad, OneItemRows, StringsSurvive, ItemsSurvive;
    var first := ItemFirstBad(v.items[k], indent);
    var more := ItemsFirstBad(v, k + 1, indent);
    n := FirstBadConcat(OneItemRows(v.items[k], indent), ItemRows(v, k + 1, indent), first, more,
                        StringsSurvive(v.items[k]), ItemsSurvive(v.items, k + 1));
  }

  /** The tab check of the token reader looks only at blanks, so reading tokens never fails. */
  lemma {:induction false} TokensNeverFail(lines: seq<string>)
    ensures TokensOf(lines).Ok?
    decreases |lines|
  {
    hide StripComment, RStrip, Strip;
    if lines != [] {
      assert LineToken(lines[0]).Ok?;
      TokensNeverFail(lines[1..]);
    }
  }

  /** A line indented by a tab is read as if it were not indented. */
  lemma {:induction false} TabIndentRead()
    ensures LineToken("\tx") == Ok(Some(Token(0, "x")))
  {
    var line := "\tx";
    assert line[1..] == "x" && "x"[1..] == "" && line[..2] == line;
    assert KeepLength("x", true, Quotes(false, false)) == 1;
    assert StripComment(line) == line;
    assert RStrip(line) == line && LStrip(line) == "x";
  }

  /** The document text of some rows. */
  function Document(rows: seq<Token>): string
    requires rows != []
  {
    Join("\n", LinesText(rows)) + "\n"
  }

  lemma {:induction false} DocumentStep(rows: seq<Token>)
    requires rows != []
    ensures Document(rows) == LineText(rows[0]) + "\n" + (if |rows| == 1 then "" else Document(rows[1..]))
  {
    assert LinesText(rows)[1..] == LinesText(rows[1..]);
  }

  lemma {:induction false} SplitHead(text: string)
    requires text != ""
    ensures SplitLines(text) != [] && SplitLines(text)[0] == text[..BreakAt(text)]
  {}

  /** A good first row is the first token, and the rest of the text gives the others. */
  lemma {:induction false} GoodStep(row: Token, more: string)
    requires GoodContent(row.content)
    ensures Tokens(more).Ok? && Tokens(LineText(row) + "\n" + more) == Ok([row] + Tokens(more).value)
  {
    hide GoodContent, TokensOf, SplitLines, LineText;
    GoodToken(row);
    SplitFirst(LineText(row), more);
    TokensStep(row, SplitLines(more));
  }

  /** The tokens of a document agree with its rows up to the first bad one. */
  lemma {:induction false} DocumentTokens(rows: seq<Token>, n: nat, survives: bool)
    requires rows != [] && FirstBad(rows, n, survives)
    ensures Tokens(Document(rows)).Ok? && Agree(Tokens(Document(rows)).value, 0, rows, n)
    ensures n == |rows| ==> |Tokens(Document(rows)).value| == n
    decreases |rows|
  {
    hide Agree, GoodContent, BadRow, TokensOf, SplitLines, LineText, Document;
    var more := if |rows| == 1 then "" else Document(rows[1..]);
    DocumentStep(rows);
    if n == 0 {
      BadDocument(rows[0], more, rows);
    } else {
      GoodStep(rows[0], more);
      if |rows| > 1 {
        DocumentTokens(rows[1..], n - 1, survives);
        AgreeCons(rows, Tokens(more).value, n);
      } else {
        NoTokens();
        LastAgrees(rows);
      }
    }
  }

  lemma {:induction false} NoTokens()
    ensures Tokens("") == Ok([])
  {}

  lemma {:induction false} LastAgrees(rows: seq<Token>)
    requires |rows| == 1
    ensures Agree([rows[0]] + [], 0, rows, 1)
  {}

  lemma {:induction false} TokensStep(row: Token, lines: seq<string>)
    requires LineToken(LineText(row)) == Ok(Some(row))
    ensures TokensOf(lines).Ok? && TokensOf([LineText(row)] + lines) == Ok([row] + TokensOf(lines).value)
  {
    hide LineToken, LineText;
    TokensNeverFail(lines);
    assert ([LineText(row)] + lines)[1..] == lines;
  }

  lemma {:induction false} AgreeCons(rows: seq<Token>, tokens: seq<Token>, n: nat)
    requires rows != [] && n > 0 && Agree(tokens, 0, rows[1..], n - 1)
    ensures Agree([rows[0]] + tokens, 0, rows, n)
  {
    hide Broken;
    var all := [rows[0]] + tokens;
    forall j | 0 <= j < n ensures all[0 + j] == rows[j] {
      if j > 0 { assert tokens[0 + (j - 1)] == rows[1..][j - 1]; }
    }
    if n < |rows| { assert all[0 + n] == tokens[0 + (n - 1)] && rows[n] == rows[1..][n - 1]; }
  }

  /** A document whose first row is bad starts with a broken token. */
  lemma {:induction false} BadDocument(row: Token, rest: string, rows: seq<Token>)
    requires BadRow(row) && rows != [] && rows[0] == row
    ensures var text := LineText(row) + "\n" + rest;
      Tokens(text).Ok? && Agree(Tokens(text).value, 0, rows, 0)
  {
    var h, s :| Head(h) && row.content == h + JsonText(s) && !Survives(s);
    var text := LineText(row) + "\n" + rest;
    var t := BrokenLine(row.indent, h, s, rest);
    assert row == Token(row.indent, h + JsonText(s));
    SplitHead(text);
    TokensNeverFail(SplitLines(text));
    TokensNeverFail(SplitLines(text)[1..]);
    var token := Token(row.indent, Unclosed(h, t));
    assert Tokens(text).value == [token] + TokensOf(SplitLines(text)[1..]).value;
    assert Broken(token, row);
  }

  // ---------------------------------------------------------------- main results

  /** Reading what the writer wrote gives the value back exactly when every string survives; otherwise
      the document is refused, never misread. */
  lemma {:induction false} RoundTrip(v: Value)
    requires Projection(v) && !IsScalar(v)
    ensures StringsSurvive(v) ==> Load(Render(v)) == Ok(v)
    ensures !StringsSurvive(v) ==> Load(Render(v)).Err?
  {
    hide ParseNode, NodeRows, Agree, FirstBad, Tokens, StringsSurvive;
    var rows := NodeRows(v, 0);
    NodeRowsHead(v, 0);
    var n := NodeFirstBad(v, 0);
    DocumentTokens(rows, n, StringsSurvive(v));
    var tokens := Tokens(Document(rows)).value;
    AgreeBounds(tokens, 0, rows, n);
    AgreeIndent(tokens, 0, rows, n);
    WholeOrBad(rows, n, StringsSurvive(v));
    NodeParse(v, tokens, 0, 0, n);
  }

  /** A quote and then a number sign after a blank: the comment scanner takes the quote for the closing one. */
  lemma {:induction false} QuoteSignRefused()
    ensures var v := Map([Entry("k", Str("\" #"))]);
      Projection(v) && !StringsSurvive(v) && Load(Render(v)).Err?
  {
    hide Survives;
    QuoteSign();
    RoundTrip(Map([Entry("k", Str("\" #"))]));
  }

  lemma {:induction false} QuoteSign()
    ensures !Survives("\" #")
  {
    var s := "\" #";
    assert s[1..] == " #" && " #"[1..] == "#";
    assert RawKeep("#", true, PLAIN) == 0;
    assert RawKeep(" #", false, PLAIN) == 1;
    assert RawKeep(s, false, IN_DOUBLE) == 2;
  }

  /** A line separator, which JSON leaves as it is and the line splitter takes for the end of a line. */
  lemma {:induction false} SeparatorRefused()
    ensures var v := Map([Entry("k", Str("a\U{2028}b"))]);
      Projection(v) && !StringsSurvive(v) && Load(Render(v)).Err?
  {
    var s := "a\U{2028}b";
    assert RawBreak(s[1]);
    assert !Survives(s);
    RoundTrip(Map([Entry("k", Str(s))]));
  }

  lemma {:induction false} WholeOrBad(rows: seq<Token>, n: nat, survives: bool)
    requires FirstBad(rows, n, survives)
    ensures n == |rows| <==> survives
  {}

  /** Without a quote in it a string can only be split by a raw line break. */
  lemma {:induction false} QuoteFreeSurvives(s: string)
    requires forall i :: 0 <= i < |s| ==> s[i] != '"' && !RawBreak(s[i])
    ensures Survives(s)
  {
    KeepQuoteFree(s, false);
  }

  lemma {:induction false} KeepQuoteFree(s: string, afterSpace: bool)
    requires forall i :: 0 <= i < |s| ==> s[i] != '"'
    ensures RawKeep(s, afterSpace, IN_DOUBLE) == |s|
    decreases |s|
  {
    if s != "" { KeepQuoteFree(s[1..], IsSpace(s[0]) && s[0] >= ' '); }
  }

  // ---------------------------------------------------------------- keys that are not safe

  lemma {:induction false} ColonInQuotes(e: string, tail: string)
    requires forall i :: 0 <= i < |e| ==> e[i] != '"'
    requires tail == "" || IsSpace(tail[0])
    ensures ColonAt(e + ("\"" + (":" + tail)), Scan(Some('"'), 0)) == Some(|e| + 1)
    decreases |e|
  {
    var s := e + ("\"" + (":" + tail));
    if e == "" {
      assert s[1..] == ":" + tail;
    } else {
      assert s[1..] == e[1..] + ("\"" + (":" + tail));
      ColonInQuotes(e[1..], tail);
    }
  }

  lemma {:induction false} EscapeQuoteFree(s: string)
    requires forall i :: 0 <= i < |s| ==> s[i] != '"'
    ensures forall i :: 0 <= i < |Escape(s)| ==> Escape(s)[i] != '"'
    decreases |s|
  {
    if s != "" { EscapeQuoteFree(s[1..]); }
  }

  lemma {:induction false} ColonAfterQuoted(key: string, tail: string)
    requires (forall i :: 0 <= i < |key| ==> key[i] != '"') && (tail == "" || IsSpace(tail[0]))
    ensures ColonAt(JsonText(key) + (":" + tail), TOP_LEVEL) == Some(|JsonText(key)|)
  {
    var e := Escape(key);
    EscapeQuoteFree(key);
    ColonInQuotes(e, tail);
    assert JsonText(key) + (":" + tail) == "\"" + (e + ("\"" + (":" + tail)));
  }

  /** The writer quotes a key that is not safe and the key splitter does not unquote it. */
  lemma {:induction false} QuotedKeyKept(key: string, rest: string)
    requires !SafeKey(key) && forall i :: 0 <= i < |key| ==> key[i] != '"'
    requires rest == "" || Trimmed(rest)
    ensures KeyText(key) == JsonText(key) != key
    ensures SplitKey(KeyText(key) + (":" + (if rest == "" then "" else " " + rest))) ==
      KeySplit(JsonText(key), true, rest)
  {
    var quoted, tail := JsonText(key), if rest == "" then "" else " " + rest;
    assert quoted[0] == '"';
    assert IsSpace(' ');
    ColonAfterQuoted(key, tail);
    assert (quoted + (":" + tail))[..|quoted|] == quoted && (quoted + (":" + tail))[|quoted| + 1..] == tail;
    StripTrimmed(quoted);
    StripTail(rest);
  }
}
