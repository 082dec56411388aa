/** Which values come back at all: a value is read back exactly when every key in it is one the writer
    leaves unquoted and every string survives. The reader never takes the quotes off a key. */
module YamlKeys {
  import opened Text
  import opened YamlReader
  import opened YamlWriter
  import opened YamlScalars
  import opened YamlRows
  import opened YamlRoundTrip
  import opened YamlFaults

  // ---------------------------------------------------------------- a quoted key never reads as the key

  predicate QuoteMarks(s: string) { forall i :: 0 <= i < |s| ==> s[i] == '"' || s[i] == '\\' }

  lemma {:induction false} EscapeMarks(s: string)
    requires QuoteMarks(s)
    ensures QuoteMarks(Escape(s)) && |Escape(s)| == 2 * |s|
    decreases |s|
  {
    if s != "" { EscapeMarks(s[1..]); }
  }

  /** The JSON text of a key that starts with quotes and backslashes starts with one more of them. */
  lemma {:induction false} MarksGoOn(key: string, n: nat)
    requires n <= |key| && QuoteMarks(key[..n])
    ensures n < |JsonText(key)| && QuoteMarks(JsonText(key)[..n + 1])
  {
    hide Escape, QuoteMarks;
    var front := Escape(key[..n]);
    EscapeMarks(key[..n]);
    EscapeConcat(key[..n], key[n..]);
    assert key == key[..n] + key[n..];
    assert JsonText(key) == "\"" + front + (Escape(key[n..]) + "\"");
    assert JsonText(key)[..n + 1] == "\"" + front[..n];
    QuoteFirst(front, n);
  }

  lemma {:induction false} QuoteFirst(s: string, n: nat)
    requires QuoteMarks(s) && n <= |s|
    ensures QuoteMarks("\"" + s[..n])
  {}

  /** A key that begins its own JSON text holds only quotes and backslashes. */
  lemma {:induction false} OwnStart(key: string, n: nat)
    requires n <= |key| && key[..n] <= JsonText(key)
    ensures QuoteMarks(key[..n])
  {
    if n > 0 {
      hide JsonText;
      assert key[..n - 1] == key[..n][..n - 1];
      OwnStart(key, n - 1);
      MarksGoOn(key, n - 1);
      assert key[..n][n - 1] == JsonText(key)[n - 1] == JsonText(key)[..n][n - 1];
    }
  }

  lemma {:induction false} ColonFound(s: string, st: Scan)
    requires ColonAt(s, st).Some?
    ensures s[ColonAt(s, st).value] == ':'
    decreases |s|
  {
    if !SeparatesKey(s, st) { ColonFound(s[1..], Advance(s[0], st)); }
  }

  lemma {:induction false} StripFromQuote(s: string)
    requires s != "" && s[0] == '"'
    ensures Strip(s) <= s && Strip(s) != "" && forall j :: |Strip(s)| <= j < |s| ==> IsSpace(s[j])
  {
    hide RStrip;
    RStripPrefix(s);
    assert !IsSpace(s[0]);
    assert |RStrip(s)| > 0;
    assert LStrip(RStrip(s)) == RStrip(s);
  }

  /** Whatever is left of a line that starts with the JSON text of `key`, its key is not `key`. */
  lemma {:induction false} QuotedNotKey(key: string, x: string, c: string)
    requires key != "" && c != "" && c <= JsonText(key) + x
    ensures SplitKey(c).found ==> SplitKey(c).key != key
  {
    hide SplitKey, Strip, JsonText;
    if SplitKey(c).found && SplitKey(c).key == key {
      var p := KeyBeforeColon(c);
      OpensQuoted(key, x, c);
      StripFromQuote(c[..p]);
      assert key <= c[..p] && c[..p] <= c;
      EscapeLonger(key);
      KeyWithin(key, x, c);
      NextMark(key, x, c);
    }
  }

  lemma {:induction false} KeyBeforeColon(c: string) returns (p: nat)
    requires SplitKey(c).found
    ensures p < |c| && c[p] == ':' && SplitKey(c).key == Strip(c[..p])
  {
    hide Strip, ColonAt;
    p := ColonAt(c, TOP_LEVEL).value;
    ColonFound(c, TOP_LEVEL);
  }

  lemma {:induction false} OpensQuoted(key: string, x: string, c: string)
    requires c != "" && c <= JsonText(key) + x
    ensures c[0] == '"'
  {
    assert c[0] == (JsonText(key) + x)[0];
  }

  /** The character after such a key is a quote or a backslash. */
  lemma {:induction false} NextMark(key: string, x: string, c: string)
    requires key != "" && key <= c <= JsonText(key) + x && key <= JsonText(key)
    requires |key| < |JsonText(key)|
    ensures |key| < |c| ==> c[|key|] == '"' || c[|key|] == '\\'
  {
    hide Escape;
    var own, n := JsonText(key), |key|;
    assert key[..n] == key;
    OwnStart(key, n);
    MarksGoOn(key, n);
    assert own[..n + 1][n] == own[n];
    if n < |c| { assert c[n] == (own + x)[n]; }
  }

  lemma {:induction false} KeyWithin(key: string, x: string, c: string)
    requires key <= c <= JsonText(key) + x && |key| < |JsonText(key)|
    ensures key <= JsonText(key)
  {
    var whole := JsonText(key) + x;
    forall j | 0 <= j < |key| ensures key[j] == JsonText(key)[j] { assert key[j] == c[j] == whole[j]; }
  }

  lemma {:induction false} EscapeLonger(s: string)
    ensures |Escape(s)| >= |s| && |JsonText(s)| > |s|
    decreases |s|
  {
    if s != "" { EscapeLonger(s[1..]); }
  }

  // ---------------------------------------------------------------- what is read already stays

  lemma {:induction false} MapKeeps(tokens: seq<Token>, i: nat, indent: nat, done: seq<Entry>)
    requires i <= |tokens| && ParseMap(tokens, i, indent, done).Ok?
    ensures done <= ParseMap(tokens, i, indent, done).value.value
    decreases |tokens| - i
  {
    hide EntryValue, SplitKey, KeysOf;
    if i < |tokens| && tokens[i].indent == indent && !IsDash(tokens[i].content) {
      var split := SplitKey(tokens[i].content);
      var entry := EntryValue(tokens, i + 1, indent, split.rest).value;
      MapKeeps(tokens, entry.next, indent, done + [Entry(split.key, entry.value)]);
    }
  }

  lemma {:induction false} SeqKeeps(tokens: seq<Token>, i: nat, indent: nat, done: seq<Value>)
    requires i <= |tokens| && ParseSeq(tokens, i, indent, done).Ok?
    ensures done <= ParseSeq(tokens, i, indent, done).value.value
    decreases |tokens| - i
  {
    hide ItemValue;
    if i < |tokens| && tokens[i].indent == indent && IsDash(tokens[i].content) {
      var item := ItemValue(tokens, i, indent).value;
      SeqKeeps(tokens, item.next, indent, done + [item.value]);
    }
  }

  ghost predicate Gives<T>(r: Result<Parsed<T>>, value: T) { r.Ok? && r.value.value == value }

  lemma {:induction false} MapMisses(tokens: seq<Token>, i: nat, indent: nat, entries: seq<Entry>, k: nat, e: Entry)
    requires i <= |tokens| && k < |entries| && e != entries[k]
    ensures !Gives(ParseMap(tokens, i, indent, entries[..k] + [e]), entries)
  {
    hide ParseMap;
    if ParseMap(tokens, i, indent, entries[..k] + [e]).Ok? {
      MapKeeps(tokens, i, indent, entries[..k] + [e]);
      assert (entries[..k] + [e])[k] == e;
    }
  }

  lemma {:induction false} SeqMisses(tokens: seq<Token>, i: nat, indent: nat, items: seq<Value>, k: nat, item: Value)
    requires i <= |tokens| && k < |items| && item != items[k]
    ensures !Gives(ParseSeq(tokens, i, indent, items[..k] + [item]), items)
  {
    hide ParseSeq;
    if ParseSeq(tokens, i, indent, items[..k] + [item]).Ok? {
      SeqKeeps(tokens, i, indent, items[..k] + [item]);
      assert (items[..k] + [item])[k] == item;
    }
  }

  /** The first fault of the value is a string that does not survive, or the first key of its mapping. */
  predicate Refuses(v: Value)
    decreases v, 1, 0
  {
    if v.Map? then EntriesRefuse(v, 0) else v.List? && ItemsRefuse(v, 0)
  }

  predicate EntriesRefuse(v: Value, k: nat)
    requires v.Map? && k <= |v.entries|
    decreases v, 0, |v.entries| - k
  {
    k < |v.entries| &&
    var e := v.entries[k];
    if GoodEntry(e) then EntriesRefuse(v, k + 1)
    else if SafeKey(e.key) then Inline(e.value) || Refuses(e.value)
    else k == 0
  }

  predicate ItemsRefuse(v: Value, k: nat)
    requires v.List? && k <= |v.items|
    decreases v, 0, |v.items| - k
  {
    k < |v.items| &&
    if Good(v.items[k]) then ItemsRefuse(v, k + 1) else Inline(v.items[k]) || Refuses(v.items[k])
  }

  ghost predicate Missed<T>(r: Result<Parsed<T>>, value: T, refuses: bool) {
    !Gives(r, value) && (refuses ==> r.Err?)
  }

  // ---------------------------------------------------------------- a faulty row is never read as its value

  lemma {:induction false} PrefixOpen(s: string, p: string)
    requires p <= Escape(s)
    ensures DecodeJson(p) == None
    decreases |s|
  {
    if s != "" && p != "" {
      var e := EscapeChar(s[0]);
      if |p| < |e| {
        assert p == e[..|p|];
      } else {
        var rest := p[|e|..];
        assert p == e + rest && rest <= Escape(s[1..]);
        DecodeOne(s[0], rest);
        PrefixOpen(s[1..], rest);
      }
    }
  }

  lemma {:induction false} CutInside(key: string, x: string, c: string)
    requires c != "" && c <= JsonText(key) + x && |c| < |JsonText(key)|
    ensures DecodeJson(c[1..]) == None
  {
    hide DecodeJson, Escape;
    var p := c[1..];
    forall j | 0 <= j < |p| ensures p[j] == Escape(key)[j] { assert p[j] == c[j + 1] == (JsonText(key) + x)[j + 1]; }
    PrefixOpen(key, p);
  }

  lemma {:induction false} CutAfter(key: string, x: string, c: string)
    requires c <= JsonText(key) + x && |c| > |JsonText(key)|
    ensures DecodeJson(c[1..]) == None
  {
    hide DecodeJson, Escape;
    var y := c[|JsonText(key)|..];
    var e := Escape(key) + ("\"" + y);
    assert JsonText(key) + x == "\"" + (Escape(key) + ("\"" + x));
    forall j | 0 <= j < |e| ensures c[j + 1] == e[j] { assert c[j + 1] == (JsonText(key) + x)[j + 1]; }
    assert c[1..] == e;
    DecodeEscape(key, "\"" + y);
    NothingAfter(y);
  }

  /** The beginning of a line that starts with a quoted key is no scalar. */
  lemma {:induction false} QuotedErr(key: string, x: string, c: string)
    requires Trimmed(c) && c[0] == '"' && c <= JsonText(key) + x && |c| != |JsonText(key)|
    ensures ParseScalar(c).Err?
  {
    hide DecodeJson, Strip, Escape;
    StripTrimmed(c);
    if |c| < |JsonText(key)| {
      CutInside(key, x, c);
    } else {
      CutAfter(key, x, c);
    }
  }

  lemma {:induction false} NothingAfter(y: string)
    requires y != ""
    ensures DecodeJson("\"" + y) == None
  {}

  lemma {:induction false} NodeErr(tokens: seq<Token>, i: nat, indent: nat)
    requires i < |tokens| && QuotedRow(tokens[i]) && ParseScalar(tokens[i].content).Err?
    ensures ParseNode(tokens, i, indent).Err?
  {
    hide ParseMap, ParseSeq, ParseScalar, LooksLikeMapping;
    NotMapping(tokens[i].content);
  }

  /** An entry read under another key, or not at all. */
  lemma {:induction false} QuotedEntry(v: Value, k: nat, tokens: seq<Token>, i: nat, indent: nat, x: string)
    requires v.Map? && k < |v.entries| && v.entries[k].key != ""
    requires i < |tokens| && tokens[i].indent == indent && QuotedRow(tokens[i])
    requires tokens[i].content <= JsonText(v.entries[k].key) + x
    ensures !Gives(ParseMap(tokens, i, indent, v.entries[..k]), v.entries)
  {
    hide EntryValue, SplitKey, KeysOf, JsonText;
    var content, done := tokens[i].content, v.entries[..k];
    var split := SplitKey(content);
    QuotedNotKey(v.entries[k].key, x, content);
    if split.found && split.key !in KeysOf(done) {
      MapStep(tokens, i, indent, done, split.key, split.rest);
      var value := EntryValue(tokens, i + 1, indent, split.rest);
      if value.Ok? {
        MapMisses(tokens, value.value.next, indent, v.entries, k, Entry(split.key, value.value.value));
      }
    }
  }

  /** The token of an entry whose key is quoted begins with the key's JSON text, or is cut inside it. */
  lemma {:induction false} QuotedFirst(e: Entry, tokens: seq<Token>, i: nat, indent: nat, more: seq<Token>)
    returns (x: string)
    requires !SafeKey(e.key) && e.key != "" && Writable(e.value)
    requires Meets(tokens, i, OneEntryRows(e, indent) + more, 0)
    ensures i < |tokens| && tokens[i].indent == indent && QuotedRow(tokens[i]) && Trimmed(tokens[i].content)
    ensures tokens[i].content <= JsonText(e.key) + x && |tokens[i].content| != |JsonText(e.key)|
  {
    hide Escape, InlineText, NodeRows;
    var row, own := OneEntryRows(e, indent)[0], JsonText(e.key);
    assert (OneEntryRows(e, indent) + more)[0] == row;
    assert row.content[0] == own[0] == '"';
    x := row.content[|own|..];
    assert row.content == own + x && row.content[|own|] == ':';
  }

  /** A faulty row that does not open with a quote leaves a broken token. */
  lemma {:induction false} BrokenFirst(tokens: seq<Token>, i: nat, rows: seq<Token>)
    requires Meets(tokens, i, rows, 0) && !QuotedRow(rows[0])
    ensures Agree(tokens, i, rows, 0)
  {}

  lemma {:induction false} MeetsBelow(tokens: seq<Token>, i: nat, row: Token, v: Value, indent: nat, n: nat)
    requires !IsScalar(v) && Writable(v) && n >= 1
    requires Meets(tokens, i, [row] + NodeRows(v, indent), n)
    ensures i + 1 < |tokens| && tokens[i] == row && tokens[i + 1].indent == indent
    ensures Meets(tokens, i + 1, NodeRows(v, indent), n - 1)
  {
    hide NodeRows, Meets;
    MeetsSplit(tokens, i, [row], NodeRows(v, indent), n);
    assert tokens[i + 0] == [row][0];
    NodeRowsHead(v, indent);
    MeetsIndent(tokens, i + 1, NodeRows(v, indent), n - 1);
  }

  /** The first token of a mapping whose first key is safe. */
  lemma {:induction false} SafeFirst(v: Value, tokens: seq<Token>, i: nat, indent: nat)
    requires v.Map? && Tree(v) && v.entries != [] && SafeKey(v.entries[0].key)
    requires Meets(tokens, i, EntryRows(v, 0, indent), EntriesStop(v, 0, indent))
    ensures i < |tokens| && !IsDash(tokens[i].content) && LooksLikeMapping(tokens[i].content)
  {
    hide LooksLikeMapping, InlineText, GoodEntry;
    var e, more, n := v.entries[0], EntryRows(v, 1, indent), EntriesStop(v, 0, indent);
    var rows := OneEntryRows(e, indent) + more;
    EntriesStep(v, 0, indent);
    if n == 0 {
      assert !QuotedRow(rows[0]);
      BrokenFirst(tokens, i, rows);
      ProjectionParts(e.value);
      var rest := EntryHead(e, tokens, i, indent, 0, more);
    } else {
      assert tokens[i + 0] == rows[0];
      if Inline(e.value) { InlineFacts(e.value); }
      SplitSafeKey(e.key, if Inline(e.value) then InlineText(e.value) else "");
    }
  }

  /** The first token of a list. */
  lemma {:induction false} DashFirst(v: Value, tokens: seq<Token>, i: nat, indent: nat)
    requires v.List? && Tree(v) && v.items != []
    requires Meets(tokens, i, ItemRows(v, 0, indent), ItemsStop(v, 0, indent))
    ensures i < |tokens| && IsDash(tokens[i].content)
  {
    hide InlineText, Good;
    var item, more, n := v.items[0], ItemRows(v, 1, indent), ItemsStop(v, 0, indent);
    var rows := OneItemRows(item, indent) + more;
    ItemsStep(v, 0, indent);
    if n == 0 {
      assert !QuotedRow(rows[0]);
      BrokenFirst(tokens, i, rows);
      ProjectionParts(item);
      var rest := ItemHead(item, tokens, i, indent, 0, more);
    } else {
      assert tokens[i + 0] == rows[0];
    }
  }

  lemma {:induction false} MissNode(v: Value, tokens: seq<Token>, i: nat, indent: nat)
    requires Tree(v) && !IsScalar(v) && !Good(v)
    requires Meets(tokens, i, NodeRows(v, indent), NodeStop(v, indent))
    ensures i < |tokens| && Missed(ParseNode(tokens, i, indent), v, Refuses(v))
    decreases v, 1, 0
  {
    hide ParseNode, ParseMap, ParseSeq, LooksLikeMapping, EntryRows, ItemRows, EntriesStop, ItemsStop, GoodEntry, Meets;
    MeetsIndent(tokens, i, NodeRows(v, indent), NodeStop(v, indent));
    NotInline(v);
    if v.Map? {
      if SafeKey(v.entries[0].key) {
        SafeFirst(v, tokens, i, indent);
        assert v.entries[..0] == [];
        MissEntries(v, 0, tokens, i, indent);
        NodeAsMap(tokens, i, indent);
      } else {
        EntriesStep(v, 0, indent);
        UnsafeStop(v.entries[0], indent);
        var x := QuotedFirst(v.entries[0], tokens, i, indent, EntryRows(v, 1, indent));
        QuotedErr(v.entries[0].key, x, tokens[i].content);
        NodeErr(tokens, i, indent);
      }
    } else {
      DashFirst(v, tokens, i, indent);
      assert v.items[..0] == [];
      MissItems(v, 0, tokens, i, indent);
      NodeAsSeq(tokens, i, indent);
    }
  }

  lemma {:induction false} NotInline(v: Value)
    requires !IsScalar(v) && !Good(v)
    ensures !Inline(v)
    ensures v.Map? ==> !EntriesGood(v.entries, 0)
    ensures v.List? ==> !ItemsGood(v.items, 0)
  {}

  lemma {:induction false} UnsafeStop(e: Entry, indent: nat)
    requires e.key != "" && Tree(e.value) && !SafeKey(e.key)
    ensures EntryStop(e, indent) == 0 && !GoodEntry(e)
  {}

  lemma {:induction false} EntryStopEnd(e: Entry, indent: nat)
    requires e.key != "" && Tree(e.value)
    ensures if GoodEntry(e) then EntryStop(e, indent) == |OneEntryRows(e, indent)|
            else EntryStop(e, indent) < |OneEntryRows(e, indent)|
  {
    hide GoodEntry, OneEntryRows, EntryStop;
    EntryStops(e, indent);
  }

  lemma {:induction false} ItemStopEnd(item: Value, indent: nat)
    requires Tree(item)
    ensures if Good(item) then ItemStop(item, indent) == |OneItemRows(item, indent)|
            else ItemStop(item, indent) < |OneItemRows(item, indent)|
  {
    hide Good, OneItemRows, ItemStop;
    ItemStops(item, indent);
  }

  lemma {:induction false} EntryRowsIndent(v: Value, k: nat, indent: nat)
    requires v.Map? && Writable(v) && k <= |v.entries| && EntryRows(v, k, indent) != []
    ensures EntryRows(v, k, indent)[0].indent == indent
  {
    hide OneEntryRows;
  }

  lemma {:induction false} ItemRowsIndent(v: Value, k: nat, indent: nat)
    requires v.List? && Writable(v) && k <= |v.items| && ItemRows(v, k, indent) != []
    ensures ItemRows(v, k, indent)[0].indent == indent
  {
    hide OneItemRows;
  }

  /** A good entry is read and the reader goes on behind it. */
  lemma {:induction false} PassEntry(v: Value, k: nat, tokens: seq<Token>, i: nat, indent: nat, m: nat)
    requires v.Map? && Tree(v) && k < |v.entries| && GoodEntry(v.entries[k])
    requires m == |OneEntryRows(v.entries[k], indent)| && Agree(tokens, i, OneEntryRows(v.entries[k], indent), m)
    requires i + m < |tokens| && tokens[i + m].indent == indent
    ensures ParseMap(tokens, i, indent, v.entries[..k]) == ParseMap(tokens, i + m, indent, v.entries[..k + 1])
  {
    hide ParseMap, EntryValue, SplitKey, OneEntryRows, Agree;
    var e, done := v.entries[k], v.entries[..k];
    ProjectionParts(e.value);
    EntryParse(e, tokens, i, indent, m);
    assert e.key !in KeysOf(done);
    MapStep(tokens, i, indent, done, e.key, SplitKey(tokens[i].content).rest);
    assert done + [Entry(e.key, e.value)] == v.entries[..k + 1];
  }

  lemma {:induction false} PassItem(v: Value, k: nat, tokens: seq<Token>, i: nat, indent: nat, m: nat)
    requires v.List? && Tree(v) && k < |v.items| && Good(v.items[k])
    requires m == |OneItemRows(v.items[k], indent)| && Agree(tokens, i, OneItemRows(v.items[k], indent), m)
    requires i + m < |tokens| && tokens[i + m].indent == indent
    ensures ParseSeq(tokens, i, indent, v.items[..k]) == ParseSeq(tokens, i + m, indent, v.items[..k + 1])
  {
    hide ParseSeq, ItemValue, OneItemRows, Agree;
    var item, done := v.items[k], v.items[..k];
    ProjectionParts(item);
    ItemParse(item, tokens, i, indent, m);
    SeqStep(tokens, i, indent, done);
    assert done + [item] == v.items[..k + 1];
  }

  lemma {:induction false} MissEntries(v: Value, k: nat, tokens: seq<Token>, i: nat, indent: nat)
    requires v.Map? && Tree(v) && k <= |v.entries| && !EntriesGood(v.entries, k)
    requires k > 0 || SafeKey(v.entries[0].key)
    requires Meets(tokens, i, EntryRows(v, k, indent), EntriesStop(v, k, indent))
    ensures i < |tokens| && Missed(ParseMap(tokens, i, indent, v.entries[..k]), v.entries, EntriesRefuse(v, k))
    decreases v, 0, |v.entries| - k
  {
    hide ParseMap, EntryRows, OneEntryRows, EntriesStop, EntryStop, EntriesGood, GoodEntry, Meets, Agree, Missed;
    hide Writable;
    GoodFrom(v.entries, k);
    var e := v.entries[k];
    var first, more := OneEntryRows(e, indent), EntryRows(v, k + 1, indent);
    EntriesStep(v, k, indent);
    EntryStopEnd(e, indent);
    MeetsIndent(tokens, i, first + more, EntriesStop(v, k, indent));
    MeetsSplit(tokens, i, first, more, EntriesStop(v, k, indent));
    if GoodEntry(e) {
      MeetsIndent(tokens, i + |first|, more, EntriesStop(v, k + 1, indent));
      EntryRowsIndent(v, k + 1, indent);
      PassEntry(v, k, tokens, i, indent, |first|);
      MissEntries(v, k + 1, tokens, i + |first|, indent);
    } else {
      MissEntry(v, k, tokens, i, indent);
    }
  }

  lemma {:induction false} MissEntry(v: Value, k: nat, tokens: seq<Token>, i: nat, indent: nat)
    requires v.Map? && Tree(v) && k < |v.entries| && !GoodEntry(v.entries[k])
    requires k > 0 || SafeKey(v.entries[0].key)
    requires Meets(tokens, i, OneEntryRows(v.entries[k], indent), EntryStop(v.entries[k], indent))
    ensures Missed(ParseMap(tokens, i, indent, v.entries[..k]), v.entries, EntriesRefuse(v, k))
    decreases v.entries[k].value, 2, 0
  {
    hide ParseMap, NodeRows, NodeStop, Meets, Agree, EntryValue, SplitKey, InlineText, Good;
    var e, done := v.entries[k], v.entries[..k];
    var rows := OneEntryRows(e, indent);
    assert rows + [] == rows;
    if !SafeKey(e.key) {
      var x := QuotedFirst(e, tokens, i, indent, []);
      QuotedEntry(v, k, tokens, i, indent, x);
    } else if Inline(e.value) {
      ProjectionParts(e.value);
      BrokenFirst(tokens, i, rows);
      EntryParse(e, tokens, i, indent, 0);
      MapStep(tokens, i, indent, done, e.key, SplitKey(tokens[i].content).rest);
    } else {
      MeetsBelow(tokens, i, rows[0], e.value, indent + 2, EntryStop(e, indent));
      MissNode(e.value, tokens, i + 1, indent + 2);
      SplitSafeKey(e.key, "");
      EntryNested(tokens, i + 1, indent);
      MapStep(tokens, i, indent, done, e.key, "");
      var node := ParseNode(tokens, i + 1, indent + 2);
      if node.Ok? { MapMisses(tokens, node.value.next, indent, v.entries, k, Entry(e.key, node.value.value)); }
    }
  }

  lemma {:induction false} MissItems(v: Value, k: nat, tokens: seq<Token>, i: nat, indent: nat)
    requires v.List? && Tree(v) && k <= |v.items| && !ItemsGood(v.items, k)
    requires Meets(tokens, i, ItemRows(v, k, indent), ItemsStop(v, k, indent))
    ensures i < |tokens| && Missed(ParseSeq(tokens, i, indent, v.items[..k]), v.items, ItemsRefuse(v, k))
    decreases v, 0, |v.items| - k
  {
    hide ParseSeq, ItemRows, OneItemRows, ItemsStop, ItemStop, ItemsGood, Good, Meets, Agree, Missed, Writable;
    GoodItemsFrom(v.items, k);
    var item := v.items[k];
    var first, more := OneItemRows(item, indent), ItemRows(v, k + 1, indent);
    ItemsStep(v, k, indent);
    ItemStopEnd(item, indent);
    MeetsIndent(tokens, i, first + more, ItemsStop(v, k, indent));
    MeetsSplit(tokens, i, first, more, ItemsStop(v, k, indent));
    if Good(item) {
      MeetsIndent(tokens, i + |first|, more, ItemsStop(v, k + 1, indent));
      ItemRowsIndent(v, k + 1, indent);
      PassItem(v, k, tokens, i, indent, |first|);
      MissItems(v, k + 1, tokens, i + |first|, indent);
    } else {
      MissItem(v, k, tokens, i, indent);
    }
  }

  lemma {:induction false} MissItem(v: Value, k: nat, tokens: seq<Token>, i: nat, indent: nat)
    requires v.List? && Tree(v) && k < |v.items| && !Good(v.items[k])
    requires Meets(tokens, i, OneItemRows(v.items[k], indent), ItemStop(v.items[k], indent))
    ensures Missed(ParseSeq(tokens, i, indent, v.items[..k]), v.items, ItemsRefuse(v, k))
    decreases v.items[k], 2, 0
  {
    hide ParseSeq, NodeRows, NodeStop, Meets, Agree, ItemValue, InlineText, Good;
    var item, done := v.items[k], v.items[..k];
    var rows := OneItemRows(item, indent);
    if Inline(item) {
      ProjectionParts(item);
      BrokenFirst(tokens, i, rows);
      ItemParse(item, tokens, i, indent, 0);
      SeqStep(tokens, i, indent, done);
    } else {
      MeetsBelow(tokens, i, rows[0], item, indent + 2, ItemStop(item, indent));
      MissNode(item, tokens, i + 1, indent + 2);
      ItemNested(tokens, i, indent);
      SeqStep(tokens, i, indent, done);
      var node := ParseNode(tokens, i + 1, indent + 2);
      if node.Ok? { SeqMisses(tokens, node.value.next, indent, v.items, k, node.value.value); }
    }
  }

  // ---------------------------------------------------------------- main results

  lemma {:induction false} FaultMissed(v: Value)
    requires Tree(v) && !IsScalar(v) && !Good(v)
    ensures Load(Render(v)) != Ok(v) && (Refuses(v) ==> Load(Render(v)).Err?)
  {
    hide ParseNode, NodeRows, Meets, FirstFault, Tokens, NodeStop, Refuses;
    var rows := NodeRows(v, 0);
    NodeRowsHead(v, 0);
    NodeStops(v, 0);
    DocumentMeets(rows, NodeStop(v, 0));
    var tokens := Tokens(Document(rows)).value;
    MeetsIndent(tokens, 0, rows, NodeStop(v, 0));
    MissNode(v, tokens, 0, 0);
  }

  /** What the writer wrote is read back as the same value exactly when every key is one it leaves unquoted
      and every string survives the line splitter and the comment scanner. */
  lemma {:induction false} RoundTripExactly(v: Value)
    requires Tree(v) && !IsScalar(v)
    ensures Load(Render(v)) == Ok(v) <==> SafeKeys(v) && StringsSurvive(v)
  {
    hide Load, Render;
    ProjectionParts(v);
    if Good(v) { RoundTrip(v); } else { FaultMissed(v); }
  }

  /** A value is refused when, in the order of its lines, the first key that is not safe is the first of its mapping,
      at any depth, or the first string that does not survive comes before it. */
  lemma {:induction false} FirstFaultRefused(v: Value)
    requires Tree(v) && !IsScalar(v) && !Good(v) && Refuses(v)
    ensures Load(Render(v)).Err?
  {
    hide Load, Render;
    FaultMissed(v);
  }

  /** A mapping of one entry, with a blank in its key, and the same mapping one level down. */
  lemma {:induction false} BlankKeyRefused()
    ensures Load(Render(Map([Entry("a b", Int(1))]))).Err?
    ensures Load(Render(Map([Entry("x", Map([Entry("a b", Int(1))]))]))).Err?
  {
    hide Load, Render;
    var key := "a b";
    assert key[1] == ' ' && !SafeKey(key) && SafeKey("x");
    var inner := Map([Entry(key, Int(1))]);
    var outer := Map([Entry("x", inner)]);
    assert inner.entries[0].key == key && outer.entries[0].value == inner;
    FirstFaultRefused(inner);
    FirstFaultRefused(outer);
  }

  const FIRST_ROW := Token(0, "a: 1")
  const SECOND_ROW := Token(0, "\"a b\": 2")

  lemma {:induction false} OneDigit(n: nat)
    requires n < 10
    ensures IntText(n) == [DigitChar(n)]
  {}

  lemma {:induction false} TwoRows(v: Value)
    requires v == Map([Entry("a", Int(1)), Entry("a b", Int(2))])
    ensures Tree(v) && NodeRows(v, 0) == [FIRST_ROW, SECOND_ROW]
  {
    hide Escape, IntText;
    BlankKeyText();
    OneDigit(1);
    OneDigit(2);
    var first, second := v.entries[0], v.entries[1];
    assert NodeRows(v, 0) == OneEntryRows(first, 0) + (OneEntryRows(second, 0) + []);
    assert KeyText("a") + ": " + "1" == FIRST_ROW.content && KeyText("a b") + ": " + "2" == SECOND_ROW.content;
    assert OneEntryRows(first, 0) == [FIRST_ROW];
    assert OneEntryRows(second, 0) == [SECOND_ROW];
  }

  lemma {:induction false} BlankKeyText()
    ensures JsonText("a b") == KeyText("a b") == "\"a b\""
  {
    assert "a b"[1] == ' ' && "a b"[1..] == " b" && "a b"[1..][1..] == "b";
    assert Escape("b") == "b" && Escape(" b") == " b" && Escape("a b") == "a b";
  }

  lemma {:induction false} TwoTokens()
    ensures Tokens(Document([FIRST_ROW, SECOND_ROW])) == Ok([FIRST_ROW, SECOND_ROW])
  {
    hide Tokens, GoodContent, LineText;
    PlainContent(FIRST_ROW.content);
    QuotedKeyContent();
    DocumentStep([FIRST_ROW, SECOND_ROW]);
    DocumentStep([SECOND_ROW]);
    NoTokens();
    GoodStep(SECOND_ROW, "");
    GoodStep(FIRST_ROW, Document([SECOND_ROW]));
    assert [FIRST_ROW, SECOND_ROW][1..] == [SECOND_ROW];
    assert [FIRST_ROW] + ([SECOND_ROW] + []) == [FIRST_ROW, SECOND_ROW];
  }

  lemma {:induction false} QuotedKeyContent()
    ensures GoodContent(SECOND_ROW.content)
  {
    hide KeepLength;
    var c, inside, after := SECOND_ROW.content, "a b", "\": 2";
    assert c == "\"" + (inside + after);
    KeepQuote(inside + after, true, PLAIN);
    KeepNeutral(inside, after, false, IN_DOUBLE);
    assert after == "\"" + ": 2" && ": 2" == ": 2" + "";
    KeepQuote(": 2", false, IN_DOUBLE);
    KeepNeutral(": 2", "", false, PLAIN);
    KeepNone(PLAIN);
  }

  lemma {:induction false} KeepNone(q: Quotes)
    ensures KeepLength("", true, q) == 0 == KeepLength("", false, q)
  {}

  lemma {:induction false} KeepQuote(x: string, afterSpace: bool, q: Quotes)
    requires !q.single
    ensures KeepLength("\"" + x, afterSpace, q) == 1 + KeepLength(x, false, Quotes(false, !q.double))
  {
    assert ("\"" + x)[1..] == x;
  }

  lemma {:induction false} TwoEntries(tokens: seq<Token>)
    requires tokens == [FIRST_ROW, SECOND_ROW]
    ensures ParseMap(tokens, 0, 0, []) == Ok(Parsed([Entry("a", Int(1)), Entry("\"a b\"", Int(2))], 2))
  {
    hide ParseMap, EntryValue, SplitKey, ParseScalar, IntText, JsonText;
    BlankKeyText();
    ParseInt(1);
    ParseInt(2);
    OneDigit(1);
    OneDigit(2);
    SplitSafeKey("a", "1");
    QuotedKeyKept("a b", "2");
    assert FIRST_ROW.content == "a" + ": " + "1" && SECOND_ROW.content == "\"a b\"" + (":" + (" " + "2"));
    MapStep(tokens, 0, 0, [], "a", "1");
    EntryInline(tokens, 1, 0, "1");
    var done := [Entry("a", Int(1))];
    assert [] + done == done;
    assert |"a"| != |"\"a b\""|;
    MapStep(tokens, 1, 0, done, "\"a b\"", "2");
    EntryInline(tokens, 2, 0, "2");
    StopsAt(tokens, 2, 0, done + [Entry("\"a b\"", Int(2))], []);
    assert done + [Entry("\"a b\"", Int(2))] == [Entry("a", Int(1)), Entry("\"a b\"", Int(2))];
  }

  /** The same key after a safe one: the value is read, under another key. */
  lemma {:induction false} BlankKeyMisread()
    ensures Load(Render(Map([Entry("a", Int(1)), Entry("a b", Int(2))]))) ==
            Ok(Map([Entry("a", Int(1)), Entry("\"a b\"", Int(2))]))
  {
    hide Tokens, ParseNode, ParseMap, NodeRows, Tree, Writable, LooksLikeMapping, SplitKey;
    var v := Map([Entry("a", Int(1)), Entry("a b", Int(2))]);
    var tokens := [FIRST_ROW, SECOND_ROW];
    TwoRows(v);
    TwoTokens();
    TwoEntries(tokens);
    SplitSafeKey("a", "1");
    assert FIRST_ROW.content == "a" + ": " + "1";
    NodeAsMap(tokens, 0, 0);
  }
}
