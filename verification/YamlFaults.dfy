/** The first line of a projection that cannot come back: one whose key is quoted or whose string does not
    survive. The tokens of the document are the rows before it and then what is left of it. */
module YamlFaults {
  import opened Text
  import opened YamlReader
  import opened YamlWriter
  import opened YamlRows
  import opened YamlRoundTrip

  /** What the writer takes, floats aside: dictionaries with distinct, nonempty keys of any other kind. */
  predicate Tree(v: Value)
    ensures Tree(v) ==> Writable(v)
  {
    match v
    case Float(_) => false
    case List(items) => forall i :: 0 <= i < |items| ==> Tree(items[i])
    case Map(entries) =>
      DistinctKeys(entries) &&
      forall i :: 0 <= i < |entries| ==> entries[i].key != "" && Tree(entries[i].value)
    case _ => true
  }

  predicate SafeKeys(v: Value) {
    match v
    case List(items) => forall i :: 0 <= i < |items| ==> SafeKeys(items[i])
    case Map(entries) => forall i :: 0 <= i < |entries| ==> SafeKey(entries[i].key) && SafeKeys(entries[i].value)
    case _ => true
  }

  predicate Good(v: Value) { SafeKeys(v) && StringsSurvive(v) }

  predicate GoodEntry(e: Entry) { SafeKey(e.key) && Good(e.value) }

  lemma {:induction false} ProjectionParts(v: Value)
    ensures Projection(v) <==> Tree(v) && SafeKeys(v)
  {
    match v
    case List(items) => forall i | 0 <= i < |items| { ProjectionParts(items[i]); }
    case Map(entries) => forall i | 0 <= i < |entries| { ProjectionParts(entries[i].value); }
    case _ =>
  }

  // ---------------------------------------------------------------- the first row that goes wrong

  ghost function NodeStop(v: Value, indent: nat): nat
    requires Tree(v) && !IsScalar(v)
    decreases v, 1, 0
  {
    if Inline(v) then 1 else if v.Map? then EntriesStop(v, 0, indent) else ItemsStop(v, 0, indent)
  }

  ghost function EntryStop(e: Entry, indent: nat): nat
    requires e.key != "" && Tree(e.value)
    decreases e.value, 2, 0
  {
    if GoodEntry(e) then |OneEntryRows(e, indent)|
    else if !SafeKey(e.key) || Inline(e.value) then 0
    else 1 + NodeStop(e.value, indent + 2)
  }

  ghost function ItemStop(item: Value, indent: nat): nat
    requires Tree(item)
    decreases item, 2, 0
  {
    if Good(item) then |OneItemRows(item, indent)|
    else if Inline(item) then 0
    else 1 + NodeStop(item, indent + 2)
  }

  /** Up to the first entry that is not good, and into it. */
  ghost function EntriesStop(v: Value, k: nat, indent: nat): nat
    requires v.Map? && Tree(v) && k <= |v.entries|
    decreases v, 0, |v.entries| - k
  {
    if k == |v.entries| then 0
    else EntryStop(v.entries[k], indent) + (if GoodEntry(v.entries[k]) then EntriesStop(v, k + 1, indent) else 0)
  }

  ghost function ItemsStop(v: Value, k: nat, indent: nat): nat
    requires v.List? && Tree(v) && k <= |v.items|
    decreases v, 0, |v.items| - k
  {
    if k == |v.items| then 0
    else ItemStop(v.items[k], indent) + (if Good(v.items[k]) then ItemsStop(v, k + 1, indent) else 0)
  }

  /** A row that opens with a quoted key. */
  predicate QuotedRow(row: Token) { row.content != "" && row.content[0] == '"' }

  /** The first row whose key is quoted or whose string does not survive, or the number of rows. */
  ghost predicate FirstFault(rows: seq<Token>, n: nat, good: bool) {
    && n <= |rows|
    && (forall j :: 0 <= j < n ==> GoodContent(rows[j].content))
    && (n < |rows| ==> BadRow(rows[n]) || QuotedRow(rows[n]))
    && (n == |rows| <==> good)
  }

  lemma {:induction false} FaultFirst(a: seq<Token>, b: seq<Token>, n: nat)
    requires FirstFault(a, n, false)
    ensures FirstFault(a + b, n, false)
  {
    hide GoodContent, BadRow, QuotedRow;
  }

  lemma {:induction false} FaultLater(a: seq<Token>, b: seq<Token>, m: nat, good: bool)
    requires FirstFault(a, |a|, true) && FirstFault(b, m, good)
    ensures FirstFault(a + b, |a| + m, good)
  {
    hide GoodContent, BadRow, QuotedRow;
  }

  predicate EntriesGood(entries: seq<Entry>, k: nat) {
    forall i :: k <= i < |entries| ==> GoodEntry(entries[i])
  }

  predicate ItemsGood(items: seq<Value>, k: nat) {
    forall i :: k <= i < |items| ==> Good(items[i])
  }

  lemma {:induction false} GoodFrom(entries: seq<Entry>, k: nat)
    requires k <= |entries|
    ensures EntriesGood(entries, k) <==> k == |entries| || (GoodEntry(entries[k]) && EntriesGood(entries, k + 1))
  {
    hide GoodEntry;
  }

  lemma {:induction false} GoodItemsFrom(items: seq<Value>, k: nat)
    requires k <= |items|
    ensures ItemsGood(items, k) <==> k == |items| || (Good(items[k]) && ItemsGood(items, k + 1))
  {
    hide Good;
  }

  lemma {:induction false} EntriesStep(v: Value, k: nat, indent: nat)
    requires v.Map? && Tree(v) && k < |v.entries|
    ensures EntryRows(v, k, indent) == OneEntryRows(v.entries[k], indent) + EntryRows(v, k + 1, indent)
    ensures EntriesStop(v, k, indent) ==
            EntryStop(v.entries[k], indent) + (if GoodEntry(v.entries[k]) then EntriesStop(v, k + 1, indent) else 0)
  {
    hide OneEntryRows, EntryStop, GoodEntry;
  }

  lemma {:induction false} ItemsStep(v: Value, k: nat, indent: nat)
    requires v.List? && Tree(v) && k < |v.items|
    ensures ItemRows(v, k, indent) == OneItemRows(v.items[k], indent) + ItemRows(v, k + 1, indent)
    ensures ItemsStop(v, k, indent) ==
            ItemStop(v.items[k], indent) + (if Good(v.items[k]) then ItemsStop(v, k + 1, indent) else 0)
  {
    hide OneItemRows, ItemStop, Good;
  }

  lemma {:induction false} NodeStops(v: Value, indent: nat)
    requires Tree(v) && !IsScalar(v)
    ensures FirstFault(NodeRows(v, indent), NodeStop(v, indent), Good(v))
    decreases v, 1, 0
  {
    if Inline(v) {
      InlineFacts(v);
      PlainContent(InlineText(v));
    } else if v.Map? {
      EntriesStops(v, 0, indent);
      assert EntriesGood(v.entries, 0) <==> Good(v);
    } else {
      ItemsStops(v, 0, indent);
      assert ItemsGood(v.items, 0) <==> Good(v);
    }
  }

  lemma {:induction false} EntryStops(e: Entry, indent: nat)
    requires e.key != "" && Tree(e.value)
    ensures FirstFault(OneEntryRows(e, indent), EntryStop(e, indent), GoodEntry(e))
    decreases e.value, 2, 0
  {
    if !SafeKey(e.key) {
      assert QuotedRow(OneEntryRows(e, indent)[0]);
    } else if GoodEntry(e) || Inline(e.value) {
      ProjectionParts(e.value);
      var n := EntryFirstBad(e, indent);
    } else {
      PlainContent(e.key + ":");
      NodeStops(e.value, indent + 2);
      FaultLater([Token(indent, e.key + ":")], NodeRows(e.value, indent + 2), NodeStop(e.value, indent + 2), false);
    }
  }

  lemma {:induction false} ItemStops(item: Value, indent: nat)
    requires Tree(item)
    ensures FirstFault(OneItemRows(item, indent), ItemStop(item, indent), Good(item))
    decreases item, 2, 0
  {
    if Good(item) || Inline(item) {
      ProjectionParts(item);
      var n := ItemFirstBad(item, indent);
    } else {
      PlainContent("-");
      NodeStops(item, indent + 2);
      FaultLater([Token(indent, "-")], NodeRows(item, indent + 2), NodeStop(item, indent + 2), false);
    }
  }

  /** Rows whose first part ends where its entry or item is faulty, if it is. */
  lemma {:induction false} JoinStops(a: seq<Token>, b: seq<Token>, n: nat, m: nat, p: bool, q: bool)
    requires FirstFault(a, n, p) && (p ==> FirstFault(b, m, q))
    ensures FirstFault(a + b, n + (if p then m else 0), p && q)
  {
    hide GoodContent, BadRow, QuotedRow;
    if p { FaultLater(a, b, m, q); } else { FaultFirst(a, b, n); }
  }

  lemma {:induction false} NoEntries(v: Value, indent: nat)
    requires v.Map? && Tree(v)
    ensures FirstFault(EntryRows(v, |v.entries|, indent), EntriesStop(v, |v.entries|, indent), true)
  {
    hide OneEntryRows, EntryStop, GoodEntry;
  }

  lemma {:induction false} NoItems(v: Value, indent: nat)
    requires v.List? && Tree(v)
    ensures FirstFault(ItemRows(v, |v.items|, indent), ItemsStop(v, |v.items|, indent), true)
  {
    hide OneItemRows, ItemStop, Good;
  }

  lemma {:induction false} EntriesStops(v: Value, k: nat, indent: nat)
    requires v.Map? && Tree(v) && k <= |v.entries|
    ensures FirstFault(EntryRows(v, k, indent), EntriesStop(v, k, indent), EntriesGood(v.entries, k))
    decreases v, 0, |v.entries| - k
  {
    hide FirstFault, EntriesGood, GoodEntry, EntryRows, OneEntryRows, EntriesStop, EntryStop, Writable;
    GoodFrom(v.entries, k);
    if k == |v.entries| {
      NoEntries(v, indent);
    } else {
      var e, m := v.entries[k], EntriesStop(v, k + 1, indent);
      var first, more, n := OneEntryRows(e, indent), EntryRows(v, k + 1, indent), EntryStop(e, indent);
      EntryStops(e, indent);
      EntriesStops(v, k + 1, indent);
      EntriesStep(v, k, indent);
      JoinStops(first, more, n, m, GoodEntry(e), EntriesGood(v.entries, k + 1));
    }
  }

  lemma {:induction false} ItemsStops(v: Value, k: nat, indent: nat)
    requires v.List? && Tree(v) && k <= |v.items|
    ensures FirstFault(ItemRows(v, k, indent), ItemsStop(v, k, indent), ItemsGood(v.items, k))
    decreases v, 0, |v.items| - k
  {
    hide FirstFault, ItemsGood, Good, ItemRows, OneItemRows, ItemsStop, ItemStop, Writable;
    GoodItemsFrom(v.items, k);
    if k == |v.items| {
      NoItems(v, indent);
    } else {
      var item, m := v.items[k], ItemsStop(v, k + 1, indent);
      var first, more, n := OneItemRows(item, indent), ItemRows(v, k + 1, indent), ItemStop(item, indent);
      ItemStops(item, indent);
      ItemsStops(v, k + 1, indent);
      ItemsStep(v, k, indent);
      JoinStops(first, more, n, m, Good(item), ItemsGood(v.items, k + 1));
    }
  }

  // ---------------------------------------------------------------- from text to tokens

  /** The token of a quoted row: some beginning of it, from the quote on, not cut at a colon. */
  predicate QuotedStart(token: Token, row: Token) {
    && token.indent == row.indent && QuotedRow(token) && Trimmed(token.content)
    && token.content <= row.content
    && (|token.content| < |row.content| ==> row.content[|token.content|] != ':')
  }

  ghost predicate Faulty(token: Token, row: Token) {
    if QuotedRow(row) then QuotedStart(token, row) else Broken(token, row)
  }

  /** From index `i` the tokens are the first `n` rows and then what is left of the faulty one. */
  ghost predicate Meets(tokens: seq<Token>, i: nat, rows: seq<Token>, n: nat) {
    && n < |rows| && i + n < |tokens|
    && (forall j :: 0 <= j < n ==> tokens[i + j] == rows[j])
    && Faulty(tokens[i + n], rows[n])
  }

  lemma {:induction false} MeetsSplit(tokens: seq<Token>, i: nat, a: seq<Token>, b: seq<Token>, n: nat)
    requires Meets(tokens, i, a + b, n)
    ensures n < |a| ==> Meets(tokens, i, a, n)
    ensures n >= |a| ==> Agree(tokens, i, a, |a|) && Meets(tokens, i + |a|, b, n - |a|)
  {
    var rows := a + b;
    forall j | 0 <= j < n && j < |a| ensures tokens[i + j] == a[j] { assert tokens[i + j] == rows[j]; }
    if n >= |a| {
      forall j | 0 <= j < n - |a| ensures tokens[i + |a| + j] == b[j] {
        assert tokens[i + (|a| + j)] == rows[|a| + j];
      }
      assert tokens[i + |a| + (n - |a|)] == tokens[i + n] && b[n - |a|] == rows[n];
    }
  }

  lemma {:induction false} MeetsIndent(tokens: seq<Token>, i: nat, rows: seq<Token>, n: nat)
    requires Meets(tokens, i, rows, n)
    ensures i < |tokens| && tokens[i].indent == rows[0].indent
  {
    if n > 0 { assert tokens[i + 0] == rows[0]; }
  }

  /** The comment scanner and the trimming keep at least the opening quote and drop no colon first. */
  lemma {:induction false} QuotedToken(row: Token, raw: string)
    requires QuotedRow(row) && raw <= LineText(row) && |raw| > row.indent
    requires |raw| < |LineText(row)| ==> LineText(row)[|raw|] != ':'
    ensures LineToken(raw).Ok? && LineToken(raw).value.Some? && QuotedStart(LineToken(raw).value.value, row)
  {
    hide LineToken, KeepLength, RStrip;
    var c := raw[row.indent..];
    assert raw == Spaces(row.indent) + c && c[0] == '"';
    KeepIndented(row.indent, c);
    KeepsQuote(c);
    var kept := StripComment(raw);
    assert kept[row.indent] == raw[row.indent];
    QuoteStays(kept, row.indent);
    RStripPrefix(kept);
    var line := RStrip(kept);
    var content := line[row.indent..];
    assert line == Spaces(row.indent) + content;
    assert content[0] == line[row.indent] == raw[row.indent];
    TokenOf(raw, row.indent, content);
    CutBefore(raw);
    assert |line| < |LineText(row)| ==> row.content[|content|] == LineText(row)[|line|];
  }

  /** The character at which a raw line is cut is not a colon. */
  lemma {:induction false} CutBefore(raw: string)
    ensures var line := RStrip(StripComment(raw)); |line| < |raw| ==> raw[|line|] != ':'
  {
    hide RStrip, KeepLength;
    KeepEnds(raw, true, PLAIN);
    RStripPrefix(StripComment(raw));
  }

  lemma {:induction false} KeepEnds(s: string, afterSpace: bool, q: Quotes)
    ensures var n := KeepLength(s, afterSpace, q); n < |s| ==> s[n] == '#'
    decreases |s|
  {
    if s != "" && !BeginsComment(s[0], afterSpace, q) { KeepEnds(s[1..], IsSpace(s[0]), AfterChar(s[0], q)); }
  }

  lemma {:induction false} KeepsQuote(c: string)
    requires c != "" && c[0] == '"'
    ensures KeepLength(c, true, PLAIN) > 0
  {}

  lemma {:induction false} QuoteStays(s: string, n: nat)
    requires n < |s| && s[n] == '"'
    ensures |RStrip(s)| > n
    decreases |s|
  {
    if IsSpace(s[|s| - 1]) { QuoteStays(s[..|s| - 1], n); }
  }

  lemma {:induction false} QuotedDocument(row: Token, rest: string, rows: seq<Token>)
    requires QuotedRow(row) && rows != [] && rows[0] == row
    ensures var text := LineText(row) + "\n" + rest;
      Tokens(text).Ok? && Meets(Tokens(text).value, 0, rows, 0)
  {
    hide LineToken;
    var text := LineText(row) + "\n" + rest;
    var k := BreakAt(text);
    assert text[|LineText(row)|] == '\n';
    assert text[row.indent] == '"' && forall j :: 0 <= j < row.indent ==> text[j] == ' ';
    assert row.indent < k <= |LineText(row)|;
    assert text[..k] == LineText(row)[..k];
    if k < |LineText(row)| { assert LineText(row)[k] == text[k]; }
    QuotedToken(row, text[..k]);
    YamlRoundTrip.SplitHead(text);
    TokensNeverFail(SplitLines(text)[1..]);
    var token := LineToken(text[..k]).value.value;
    assert Tokens(text).value == [token] + TokensOf(SplitLines(text)[1..]).value;
  }

  lemma {:induction false} BadMeets(row: Token, rest: string, rows: seq<Token>)
    requires BadRow(row) && !QuotedRow(row) && rows != [] && rows[0] == row
    ensures var text := LineText(row) + "\n" + rest;
      Tokens(text).Ok? && Meets(Tokens(text).value, 0, rows, 0)
  {
    hide Tokens, BadRow, LineText;
    BadDocument(row, rest, rows);
  }

  lemma {:induction false} MeetsCons(rows: seq<Token>, tokens: seq<Token>, n: nat)
    requires rows != [] && n > 0 && Meets(tokens, 0, rows[1..], n - 1)
    ensures Meets([rows[0]] + tokens, 0, rows, n)
  {
    hide Faulty;
    var all := [rows[0]] + tokens;
    forall j | 0 <= j < n ensures all[0 + j] == rows[j] {
      if j > 0 { assert tokens[0 + (j - 1)] == rows[1..][j - 1]; }
    }
    assert all[0 + n] == tokens[0 + (n - 1)] && rows[n] == rows[1..][n - 1];
  }

  /** The tokens of a document are its rows up to the first faulty one, and then what is left of that one. */
  lemma {:induction false} DocumentMeets(rows: seq<Token>, n: nat)
    requires rows != [] && FirstFault(rows, n, false)
    ensures Tokens(Document(rows)).Ok? && Meets(Tokens(Document(rows)).value, 0, rows, n)
    decreases |rows|
  {
    hide Meets, GoodContent, BadRow, QuotedRow, Tokens, LineText, Document;
    var more := if |rows| == 1 then "" else Document(rows[1..]);
    DocumentStep(rows);
    if n > 0 {
      GoodStep(rows[0], more);
      DocumentMeets(rows[1..], n - 1);
      MeetsCons(rows, Tokens(more).value, n);
    } else if QuotedRow(rows[0]) {
      QuotedDocument(rows[0], more, rows);
    } else {
      BadMeets(rows[0], more, rows);
    }
  }
}
