/** Documents in the forms people write: block text, mappings on the line of a dash, sequences at the indentation of
    their key, plain and quoted scalars and flow collections, with comments and empty lines between. */
module YamlDocuments {
  import opened Text
  import opened YamlReader
  import opened YamlForms
  import opened YamlRoundTrip
  import opened YamlRows
  import W = YamlWriter

  /** What stands at one place of a document. A collection is indented by at least one blank more than the key or
      dash before it, a sequence under a key possibly not at all; `shift` says how many more. A mapping in a sequence
      may begin on the line of its dash. More blanks than one may stand before a scalar. The lines of a block text are
      as deep as they are, below its key. */
  datatype Form =
    | Nothing
    | Scalar(pad: nat, text: string)
    | Block(mark: string, lines: seq<Token>)
    | Items(shift: nat, items: seq<Form>)
    | Fields(shift: nat, compact: bool, fields: seq<FormField>)

  datatype FormField = FormField(key: string, value: Form)

  // ---------------------------------------------------------------- what a document says

  function Contents(lines: seq<Token>): seq<string> {
    seq(|lines|, i requires 0 <= i < |lines| => lines[i].content)
  }

  /** Block text keeps its line breaks or joins its lines with blanks; a dash drops the last break. */
  function BlockMeaning(mark: string, lines: seq<Token>): string {
    match mark
    case "|-" => Join("\n", Contents(lines))
    case "|" => Join("\n", Contents(lines)) + "\n"
    case "|+" => Join("\n", Contents(lines)) + "\n"
    case ">-" => Join(" ", Contents(lines))
    case _ => Join(" ", Contents(lines)) + "\n"
  }

  function Meaning(v: Form): Value {
    match v
    case Nothing => Null
    case Scalar(_, text) => if ParseScalar(text).Ok? then ParseScalar(text).value else Null
    case Block(mark, lines) => Str(BlockMeaning(mark, lines))
    case Items(_, items) => List(seq(|items|, i requires 0 <= i < |items| => Meaning(items[i])))
    case Fields(_, _, fields) =>
      Map(seq(|fields|, i requires 0 <= i < |fields| => Entry(fields[i].key, Meaning(fields[i].value))))
  }

  // ---------------------------------------------------------------- how it is written

  function Below(lines: seq<Token>, depth: nat): (r: seq<Token>)
    ensures |r| == |lines|
    ensures forall i :: 0 <= i < |lines| ==> r[i] == Token(depth + lines[i].indent, lines[i].content)
  {
    seq(|lines|, i requires 0 <= i < |lines| => Token(depth + lines[i].indent, lines[i].content))
  }

  /** The lines of a value that stands on its own, each with its indentation. */
  function NodeLines(v: Form, n: nat): (rows: seq<Token>)
    requires NodeGood(v)
    ensures rows != [] && rows[0].indent == n
    decreases v, 1, 0
  {
    match v
    case Scalar(_, text) => [Token(n, text)]
    case Items(_, _) => ItemsLines(v, 0, n)
    case Fields(_, _, _) => FieldsLines(v, 0, n)
  }

  function ItemsLines(v: Form, k: nat, n: nat): (rows: seq<Token>)
    requires v.Items? && NodeGood(v) && k <= |v.items|
    ensures k < |v.items| ==> rows != [] && rows[0].indent == n
    decreases v, 0, |v.items| - k
  {
    if k == |v.items| then [] else ItemLines(v.items[k], n) + ItemsLines(v, k + 1, n)
  }

  function ItemLines(item: Form, n: nat): (rows: seq<Token>)
    requires ItemGood(item)
    ensures rows != [] && rows[0].indent == n
    decreases item, 2, 0
  {
    match item
    case Nothing => [Token(n, "-")]
    case Scalar(pad, text) => [Token(n, "- " + Spaces(pad) + text)]
    case Items(shift, _) => [Token(n, "-")] + NodeLines(item, n + 1 + shift)
    case Fields(shift, compact, _) =>
      if compact then
        var rows := NodeLines(item, n + 2);
        [Token(n, "- " + rows[0].content)] + rows[1..]
      else [Token(n, "-")] + NodeLines(item, n + 1 + shift)
  }

  function FieldsLines(v: Form, k: nat, n: nat): (rows: seq<Token>)
    requires v.Fields? && NodeGood(v) && k <= |v.fields|
    ensures k < |v.fields| ==> rows != [] && rows[0].indent == n
    decreases v, 0, |v.fields| - k
  {
    if k == |v.fields| then [] else FieldLines(v.fields[k], n) + FieldsLines(v, k + 1, n)
  }

  function FieldLines(f: FormField, n: nat): (rows: seq<Token>)
    requires FieldGood(f)
    ensures rows != [] && rows[0].indent == n
    decreases f.value, 2, 0
  {
    match f.value
    case Nothing => [Token(n, f.key + ":")]
    case Scalar(pad, text) => [Token(n, f.key + ": " + Spaces(pad) + text)]
    case Block(mark, lines) => [Token(n, f.key + ": " + mark)] + Below(lines, n + 1)
    case Items(shift, _) => [Token(n, f.key + ":")] + NodeLines(f.value, n + shift)
    case Fields(shift, _, _) => [Token(n, f.key + ":")] + NodeLines(f.value, n + 1 + shift)
  }

  // ---------------------------------------------------------------- what may stand where

  /** The first key of a mapping: not quoted, bracketed or with a blank, or its line is no mapping. */
  predicate LeadKey(key: string) { (key == "" || key[0] !in "[{\"'") && ' ' !in key }

  predicate DistinctKeys(fields: seq<FormField>) {
    forall i, j :: 0 <= i < j < |fields| ==> fields[i].key != fields[j].key
  }

  predicate NodeGood(v: Form)
    decreases v, 0
  {
    match v
    case Scalar(_, text) => Trimmed(text) && !IsDash(text) && !LooksLikeMapping(text) && ParseScalar(text).Ok?
    case Items(_, items) => items != [] && forall i :: 0 <= i < |items| ==> ItemGood(items[i])
    case Fields(_, _, fields) =>
      fields != [] && LeadKey(fields[0].key) && DistinctKeys(fields) &&
      forall i :: 0 <= i < |fields| ==> FieldGood(fields[i])
    case _ => false
  }

  predicate ItemGood(item: Form)
    decreases item, 1
  {
    match item
    case Nothing => true
    case Scalar(_, text) => Trimmed(text) && !LooksLikeMapping(text) && ParseScalar(text).Ok?
    case Block(_, _) => false
    case _ => NodeGood(item)
  }

  predicate FieldGood(f: FormField)
    decreases f.value, 1
  {
    Keyed(f.key) && !StartsWith(f.key, "- ") &&
    match f.value
    case Nothing => true
    case Scalar(_, text) => Trimmed(text) && !IsBlockMark(text) && ParseScalar(text).Ok?
    case Block(mark, _) => IsBlockMark(mark)
    case _ => NodeGood(f.value)
  }

  // ---------------------------------------------------------------- rows among the tokens

  predicate Stands(tokens: seq<Token>, i: nat, rows: seq<Token>) {
    i + |rows| <= |tokens| && forall j :: 0 <= j < |rows| ==> tokens[i + j] == rows[j]
  }

  lemma {:induction false} StandsParts(tokens: seq<Token>, i: nat, a: seq<Token>, b: seq<Token>)
    requires Stands(tokens, i, a + b)
    ensures Stands(tokens, i, a) && Stands(tokens, i + |a|, b)
  {
    forall j | 0 <= j < |a| ensures tokens[i + j] == a[j] { assert (a + b)[j] == a[j]; }
    forall j | 0 <= j < |b| ensures tokens[i + |a| + j] == b[j] { assert (a + b)[|a| + j] == b[j]; }
  }

  /** What follows is outside. */
  predicate Out(tokens: seq<Token>, i: nat, n: nat) { i >= |tokens| || tokens[i].indent < n }

  /** What follows is outside, or the next key beside. */
  predicate Beside(tokens: seq<Token>, i: nat, n: nat) {
    Out(tokens, i, n) || (tokens[i].indent == n && !IsDash(tokens[i].content))
  }

  predicate NotDeeper(tokens: seq<Token>, i: nat, n: nat) { i >= |tokens| || tokens[i].indent <= n }

  lemma {:induction false} DeeperTo(tokens: seq<Token>, i: nat, end: nat, n: nat)
    requires i <= end <= |tokens| && NotDeeper(tokens, end, n) && forall j :: i <= j < end ==> tokens[j].indent > n
    ensures DeeperEnd(tokens, i, n) == end
    decreases end - i
  {
    if i < end { DeeperTo(tokens, i + 1, end, n); }
  }

  /** Every line of a value is at least as deep as its first one. */
  lemma {:induction false} NodeDeep(v: Form, n: nat)
    requires NodeGood(v)
    ensures forall j :: 0 <= j < |NodeLines(v, n)| ==> NodeLines(v, n)[j].indent >= n
    decreases v, 1, 0
  {
    match v
    case Scalar(_, _) =>
    case Items(_, _) => ItemsDeep(v, 0, n);
    case Fields(_, _, _) => FieldsDeep(v, 0, n);
  }

  lemma {:induction false} ItemsDeep(v: Form, k: nat, n: nat)
    requires v.Items? && NodeGood(v) && k <= |v.items|
    ensures forall j :: 0 <= j < |ItemsLines(v, k, n)| ==> ItemsLines(v, k, n)[j].indent >= n
    decreases v, 0, |v.items| - k
  {
    hide NodeGood, ItemGood;
    if k < |v.items| {
      GoodItem(v, k);
      ItemDeep(v.items[k], n);
      ItemsDeep(v, k + 1, n);
    }
  }

  lemma {:induction false} GoodItem(v: Form, k: nat)
    requires v.Items? && NodeGood(v) && k < |v.items|
    ensures ItemGood(v.items[k])
  {}

  lemma {:induction false} GoodField(v: Form, k: nat)
    requires v.Fields? && NodeGood(v) && k < |v.fields|
    ensures FieldGood(v.fields[k])
  {}

  lemma {:induction false} ItemDeep(item: Form, n: nat)
    requires ItemGood(item)
    ensures forall j :: 0 <= j < |ItemLines(item, n)| ==> ItemLines(item, n)[j].indent >= n
    ensures forall j :: 0 < j < |ItemLines(item, n)| ==> ItemLines(item, n)[j].indent > n
    decreases item, 2, 0
  {
    match item
    case Items(shift, _) => NodeDeep(item, n + 1 + shift);
    case Fields(shift, compact, _) =>
      NodeDeep(item, n + 2);
      NodeDeep(item, n + 1 + shift);
    case _ =>
  }

  lemma {:induction false} FieldsDeep(v: Form, k: nat, n: nat)
    requires v.Fields? && NodeGood(v) && k <= |v.fields|
    ensures forall j :: 0 <= j < |FieldsLines(v, k, n)| ==> FieldsLines(v, k, n)[j].indent >= n
    decreases v, 0, |v.fields| - k
  {
    hide NodeGood, FieldGood;
    if k < |v.fields| {
      GoodField(v, k);
      FieldDeep(v.fields[k], n);
      FieldsDeep(v, k + 1, n);
    }
  }

  lemma {:induction false} FieldDeep(f: FormField, n: nat)
    requires FieldGood(f)
    ensures forall j :: 0 <= j < |FieldLines(f, n)| ==> FieldLines(f, n)[j].indent >= n
    decreases f.value, 2, 0
  {
    match f.value
    case Items(shift, _) => NodeDeep(f.value, n + shift);
    case Fields(shift, _, _) => NodeDeep(f.value, n + 1 + shift);
    case _ =>
  }

  // ---------------------------------------------------------------- one line

  function FieldText(key: string, pad: nat, rest: string): string {
    if rest == "" then key + ":" else key + ": " + Spaces(pad) + rest
  }

  lemma {:induction false} FieldContent(key: string, pad: nat, rest: string)
    requires Keyed(key) && !StartsWith(key, "- ") && (rest == "" || Trimmed(rest))
    ensures var content := FieldText(key, pad, rest);
      SplitKey(content) == KeySplit(key, true, rest) && !IsDash(content) && (LeadKey(key) ==> LooksLikeMapping(content))
  {
    hide SplitKey, Keyed, Strip;
    var tail := if rest == "" then "" else " " + Spaces(pad) + rest;
    var content := key + ":" + tail;
    assert content == FieldText(key, pad, rest);
    PadStripped(pad, rest);
    KeySplits(key, tail);
    assert content[|key|] == ':' && (key != "" ==> content[0] == key[0]);
    assert |content| >= 2 ==> content[..2][0] == content[0] && content[..2][1] == content[1];
    assert |key| >= 2 ==> key[..2] == content[..2];
  }

  lemma {:induction false} PadStripped(pad: nat, rest: string)
    requires rest == "" || Trimmed(rest)
    ensures Strip(if rest == "" then "" else " " + Spaces(pad) + rest) == rest
    ensures Strip(Spaces(pad) + rest) == rest
  {
    StripPadded(Spaces(pad), rest, "");
    StripPadded(" " + Spaces(pad), rest, "");
    assert Spaces(pad) + rest + "" == Spaces(pad) + rest;
    assert " " + Spaces(pad) + rest + "" == " " + Spaces(pad) + rest;
    if rest == "" { StripPadded("", "", ""); }
  }

  lemma {:induction false} ItemContent(pad: nat, text: string)
    requires Trimmed(text)
    ensures var content := "- " + Spaces(pad) + text; IsDash(content) && content != "-" && Strip(content[2..]) == text
  {
    var content := "- " + Spaces(pad) + text;
    assert content == "- " + (Spaces(pad) + text);
    DashStarts(Spaces(pad) + text);
    PadStripped(pad, text);
  }

  lemma {:induction false} BlockRead(mark: string, lines: seq<Token>, tokens: seq<Token>, i: nat, n: nat)
    requires IsBlockMark(mark) && Stands(tokens, i, Below(lines, n + 1)) && NotDeeper(tokens, i + |lines|, n)
    ensures EntryValue(tokens, i, n, mark) == Ok(Parsed(Str(BlockMeaning(mark, lines)), i + |lines|))
  {
    hide Join;
    var end := i + |lines|;
    forall j | i <= j < end ensures tokens[j].indent > n { assert tokens[i + (j - i)] == Below(lines, n + 1)[j - i]; }
    DeeperTo(tokens, i, end, n);
    var read := tokens[i..end];
    assert Contents(read) == Contents(lines) by {
      forall j | 0 <= j < |lines| ensures read[j].content == lines[j].content {
        assert tokens[i + j] == Below(lines, n + 1)[j];
      }
    }
    BlockTextRead(mark, read);
  }

  lemma {:induction false} BlockTextRead(mark: string, lines: seq<Token>)
    requires IsBlockMark(mark)
    ensures BlockText(mark, lines) == BlockMeaning(mark, lines)
  {
    hide Join;
    assert seq(|lines|, i requires 0 <= i < |lines| => lines[i].content) == Contents(lines);
    assert Join("\n", Contents(lines)) + "" == Join("\n", Contents(lines));
    assert Join(" ", Contents(lines)) + "" == Join(" ", Contents(lines));
  }

  // ---------------------------------------------------------------- reading the rows

  function ItemValues(v: Form, k: nat): seq<Value>
    requires v.Items? && k <= |v.items|
  {
    Meaning(v).items[k..]
  }

  function FieldValues(v: Form, k: nat): seq<Entry>
    requires v.Fields? && k <= |v.fields|
  {
    Meaning(v).entries[k..]
  }

  lemma {:induction false} ItemValuesHead(v: Form, k: nat)
    requires v.Items? && k < |v.items|
    ensures ItemValues(v, k) == [Meaning(v.items[k])] + ItemValues(v, k + 1)
  {}

  lemma {:induction false} FieldValuesHead(v: Form, k: nat)
    requires v.Fields? && k < |v.fields|
    ensures FieldValues(v, k) == [Entry(v.fields[k].key, Meaning(v.fields[k].value))] + FieldValues(v, k + 1)
  {}

  lemma {:induction false} NodeReads(v: Form, tokens: seq<Token>, i: nat, n: nat)
    requires NodeGood(v) && Stands(tokens, i, NodeLines(v, n))
    requires var end := i + |NodeLines(v, n)|; Out(tokens, end, n) || (v.Items? && Beside(tokens, end, n)) || v.Scalar?
    ensures i < |tokens| && ParseNode(tokens, i, n) == Ok(Parsed(Meaning(v), i + |NodeLines(v, n)|))
    decreases v, 1, 0
  {
    hide ParseScalar, ParseMap, ParseSeq, LooksLikeMapping, IsDash;
    assert tokens[i + 0] == NodeLines(v, n)[0];
    match v
    case Scalar(_, _) => NodeAsScalar(tokens, i, n, Meaning(v));
    case Items(_, items) =>
      FirstItem(v, n);
      NodeAsSeq(tokens, i, n);
      ItemsReads(v, 0, tokens, i, n, []);
      assert [] + ItemValues(v, 0) == Meaning(v).items;
    case Fields(_, _, fields) =>
      FirstField(v, n);
      NodeAsMap(tokens, i, n);
      FieldsReads(v, 0, tokens, i, n, []);
      assert [] + FieldValues(v, 0) == Meaning(v).entries;
  }

  lemma {:induction false} FirstItem(v: Form, n: nat)
    requires v.Items? && NodeGood(v)
    ensures IsDash(NodeLines(v, n)[0].content) && ItemValues(v, 0) == Meaning(v).items
  {
    ItemStarts(v.items[0], n);
  }

  lemma {:induction false} ItemStarts(item: Form, n: nat)
    requires ItemGood(item)
    ensures IsDash(ItemLines(item, n)[0].content)
  {
    hide NodeGood, ParseScalar, LooksLikeMapping;
    match item
    case Scalar(pad, text) => ItemContent(pad, text);
    case Fields(_, compact, _) => if compact { DashStarts(NodeLines(item, n + 2)[0].content); }
    case _ =>
  }

  lemma {:induction false} DashStarts(text: string)
    ensures IsDash("- " + text) && ("- " + text)[2..] == text
  {
    assert ("- " + text)[..2] == "- ";
  }

  lemma {:induction false} FieldStarts(f: FormField, n: nat)
    requires FieldGood(f)
    ensures var content := FieldLines(f, n)[0].content;
      !IsDash(content) && (LeadKey(f.key) ==> LooksLikeMapping(content))
      && SplitKey(content) == KeySplit(f.key, true, RestOf(f))
  {
    hide NodeGood, ParseScalar, LooksLikeMapping, Keyed, SplitKey, IsDash;
    FieldContent(f.key, PadOf(f), RestOf(f));
    assert FieldLines(f, n)[0].content == FieldText(f.key, PadOf(f), RestOf(f));
  }

  function PadOf(f: FormField): nat { if f.value.Scalar? then f.value.pad else 0 }

  /** What stands behind the colon. */
  function RestOf(f: FormField): (rest: string)
    requires FieldGood(f)
    ensures rest == "" || Trimmed(rest)
  {
    match f.value
    case Scalar(_, text) => text
    case Block(mark, _) => mark
    case _ => ""
  }

  lemma {:induction false} FirstField(v: Form, n: nat)
    requires v.Fields? && NodeGood(v)
    ensures !IsDash(NodeLines(v, n)[0].content) && LooksLikeMapping(NodeLines(v, n)[0].content)
    ensures FieldValues(v, 0) == Meaning(v).entries
  {
    GoodField(v, 0);
    FieldStarts(v.fields[0], n);
  }

  lemma {:induction false} ItemsReads(v: Form, k: nat, tokens: seq<Token>, i: nat, n: nat, done: seq<Value>)
    requires v.Items? && NodeGood(v) && k <= |v.items| && Stands(tokens, i, ItemsLines(v, k, n))
    requires Beside(tokens, i + |ItemsLines(v, k, n)|, n)
    ensures ParseSeq(tokens, i, n, done) == Ok(Parsed(done + ItemValues(v, k), i + |ItemsLines(v, k, n)|))
    decreases v, 0, |v.items| - k
  {
    hide ParseSeq, ItemValue, NodeGood, ItemGood, IsDash, ItemLines;
    if k == |v.items| {
      SeqStops(tokens, i, n, done);
      assert done + ItemValues(v, k) == done;
    } else {
      GoodItem(v, k);
      var item, more := v.items[k], ItemsLines(v, k + 1, n);
      var rows := ItemLines(item, n);
      StandsParts(tokens, i, rows, more);
      assert tokens[i + 0] == rows[0];
      ItemStarts(item, n);
      if more != [] { assert tokens[i + |rows| + 0] == more[0]; }
      ItemReads(item, tokens, i, n);
      SeqStep(tokens, i, n, done);
      ItemsReads(v, k + 1, tokens, i + |rows|, n, done + [Meaning(item)]);
      ItemValuesHead(v, k);
      hide ItemValues, Meaning;
      assert done + [Meaning(item)] + ItemValues(v, k + 1) == done + ItemValues(v, k);
    }
  }

  lemma {:induction false} SeqStops(tokens: seq<Token>, i: nat, n: nat, done: seq<Value>)
    requires i <= |tokens| && Beside(tokens, i, n)
    ensures ParseSeq(tokens, i, n, done) == Ok(Parsed(done, i))
  {
    hide ItemValue;
  }

  lemma {:induction false} ItemReads(item: Form, tokens: seq<Token>, i: nat, n: nat)
    requires ItemGood(item) && Stands(tokens, i, ItemLines(item, n)) && NotDeeper(tokens, i + |ItemLines(item, n)|, n)
    requires i < |tokens| && IsDash(tokens[i].content)
    ensures ItemValue(tokens, i, n) == Ok(Parsed(Meaning(item), i + |ItemLines(item, n)|))
    decreases item, 2, 0
  {
    hide ParseScalar, ParseNode, ParseMap, LooksLikeMapping, IsDash, ItemValue;
    var rows := ItemLines(item, n);
    assert tokens[i + 0] == rows[0];
    match item
    case Nothing => ItemNothing(tokens, i, n);
    case Scalar(pad, text) =>
      ItemContent(pad, text);
      ItemInline(tokens, i, n, text);
    case Items(shift, _) => ItemBelow(item, tokens, i, n, n + 1 + shift);
    case Fields(shift, compact, _) =>
      if compact { ItemCompact(item, tokens, i, n); } else { ItemBelow(item, tokens, i, n, n + 1 + shift); }
  }

  lemma {:induction false} ItemNothing(tokens: seq<Token>, i: nat, n: nat)
    requires i < |tokens| && tokens[i].content == "-" && NotDeeper(tokens, i + 1, n)
    ensures ItemValue(tokens, i, n) == Ok(Parsed(Null, i + 1))
  {
    hide ParseNode, ParseMap, ParseScalar;
  }

  lemma {:induction false} ItemBelow(item: Form, tokens: seq<Token>, i: nat, n: nat, m: nat)
    requires (item.Items? || item.Fields?) && NodeGood(item) && n < m
    requires Stands(tokens, i, [Token(n, "-")] + NodeLines(item, m))
    requires NotDeeper(tokens, i + 1 + |NodeLines(item, m)|, n)
    ensures i < |tokens| && IsDash(tokens[i].content)
    ensures ItemValue(tokens, i, n) == Ok(Parsed(Meaning(item), i + 1 + |NodeLines(item, m)|))
    decreases item, 1, 1
  {
    hide ParseNode, ItemValue, NodeLines, NodeGood;
    StandsParts(tokens, i, [Token(n, "-")], NodeLines(item, m));
    assert tokens[i + 0] == [Token(n, "-")][0];
    assert tokens[i + 1 + 0] == NodeLines(item, m)[0];
    ItemNested(tokens, i, n);
    NodeReads(item, tokens, i + 1, m);
  }

  /** The first field and the lines behind it are the lines of the mapping, two columns in. */
  lemma {:induction false} CompactAgain(item: Form, tokens: seq<Token>, i: nat, n: nat)
    requires item.Fields? && item.compact && NodeGood(item) && Stands(tokens, i, ItemLines(item, n))
    ensures |ItemLines(item, n)| == |NodeLines(item, n + 2)| >= 1
    ensures var inner := NodeLines(item, n + 2);
      [Token(n + 2, inner[0].content)] + tokens[i + 1..i + |inner|] == inner
  {
    hide NodeGood, NodeLines, FieldsLines;
    var inner, rows := NodeLines(item, n + 2), ItemLines(item, n);
    FirstField(item, n + 2);
    var again := [Token(n + 2, inner[0].content)] + tokens[i + 1..i + |rows|];
    forall j | 0 <= j < |inner| ensures again[j] == inner[j] {
      if j > 0 { assert tokens[i + j] == rows[j]; }
    }
  }

  lemma {:induction false} ItemCompact(item: Form, tokens: seq<Token>, i: nat, n: nat)
    requires item.Fields? && item.compact && NodeGood(item)
    requires Stands(tokens, i, ItemLines(item, n)) && NotDeeper(tokens, i + |ItemLines(item, n)|, n)
    requires i < |tokens| && IsDash(tokens[i].content)
    ensures ItemValue(tokens, i, n) == Ok(Parsed(Meaning(item), i + |ItemLines(item, n)|))
    decreases item, 1, 1
  {
    hide ParseMap, ItemValue, NodeGood, IsDash, LooksLikeMapping, FieldsLines;
    var inner, rows := NodeLines(item, n + 2), ItemLines(item, n);
    var end := i + |rows|;
    assert tokens[i + 0] == rows[0];
    FirstField(item, n + 2);
    var first := inner[0].content;
    DashStarts(first);
    FieldTrimmed(item, n + 2);
    StripTrimmed(first);
    ItemDeep(item, n);
    forall j | i + 1 <= j < end ensures tokens[j].indent > n { assert tokens[i + (j - i)] == rows[j - i]; }
    DeeperTo(tokens, i + 1, end, n);
    CompactAgain(item, tokens, i, n);
    assert forall j :: 0 <= j < |inner| ==> inner[0 + j] == inner[j];
    FieldsReads(item, 0, inner, 0, n + 2, []);
    assert [] + FieldValues(item, 0) == Meaning(item).entries;
    CompactItem(tokens, i, n, first, end, inner);
  }

  lemma {:induction false} FieldTrimmed(v: Form, n: nat)
    requires v.Fields? && NodeGood(v)
    ensures Trimmed(NodeLines(v, n)[0].content)
  {
    GoodField(v, 0);
    RowTrimmed(v.fields[0], n);
  }

  lemma {:induction false} RowTrimmed(f: FormField, n: nat)
    requires FieldGood(f)
    ensures Trimmed(FieldLines(f, n)[0].content)
  {
    hide NodeGood, ParseScalar, KeyScans;
    var rest := RestOf(f);
    var content := FieldLines(f, n)[0].content;
    assert content == FieldText(f.key, PadOf(f), rest);
    assert content[0] == if f.key == "" then ':' else f.key[0];
    assert content[|content| - 1] == if rest == "" then ':' else rest[|rest| - 1];
  }

  lemma {:induction false} CompactItem(tokens: seq<Token>, i: nat, n: nat, first: string, end: nat, again: seq<Token>)
    requires i < end <= |tokens| && IsDash(tokens[i].content) && tokens[i].content == "- " + first && first != ""
    requires Strip(first) == first && LooksLikeMapping(first) && DeeperEnd(tokens, i + 1, n) == end
    requires again == [Token(n + 2, first)] + tokens[i + 1..end]
    requires ParseMap(again, 0, n + 2, []).Ok? && ParseMap(again, 0, n + 2, []).value.next == |again|
    ensures ItemValue(tokens, i, n) == Ok(Parsed(Map(ParseMap(again, 0, n + 2, []).value.value), end))
  {
    hide ParseMap, ParseNode, ParseScalar, LooksLikeMapping, Strip;
    assert tokens[i].content[2..] == first;
  }

  lemma {:induction false} FieldsReads(v: Form, k: nat, tokens: seq<Token>, i: nat, n: nat, done: seq<Entry>)
    requires v.Fields? && NodeGood(v) && k <= |v.fields| && Stands(tokens, i, FieldsLines(v, k, n))
    requires Out(tokens, i + |FieldsLines(v, k, n)|, n)
    requires |done| == k && forall j :: 0 <= j < k ==> done[j].key == v.fields[j].key
    ensures ParseMap(tokens, i, n, done) == Ok(Parsed(done + FieldValues(v, k), i + |FieldsLines(v, k, n)|))
    decreases v, 0, |v.fields| - k
  {
    hide ParseMap, EntryValue, NodeGood, FieldGood, IsDash, FieldLines, SplitKey;
    if k == |v.fields| {
      MapStops(tokens, i, n, done);
      assert done + FieldValues(v, k) == done;
    } else {
      GoodField(v, k);
      var f, more := v.fields[k], FieldsLines(v, k + 1, n);
      var rows := FieldLines(f, n);
      StandsParts(tokens, i, rows, more);
      assert tokens[i + 0] == rows[0];
      FieldStarts(f, n);
      NewKey(v, k, done);
      if more != [] {
        assert tokens[i + |rows| + 0] == more[0];
        GoodField(v, k + 1);
        FieldStarts(v.fields[k + 1], n);
      }
      FieldReads(f, tokens, i, n);
      MapStep(tokens, i, n, done, f.key, RestOf(f));
      FieldsReads(v, k + 1, tokens, i + |rows|, n, done + [Entry(f.key, Meaning(f.value))]);
      FieldValuesHead(v, k);
      hide FieldValues, Meaning;
      assert done + [Entry(f.key, Meaning(f.value))] + FieldValues(v, k + 1) == done + FieldValues(v, k);
    }
  }

  lemma {:induction false} NewKey(v: Form, k: nat, done: seq<Entry>)
    requires v.Fields? && NodeGood(v) && k < |v.fields| && |done| == k
    requires forall j :: 0 <= j < k ==> done[j].key == v.fields[j].key
    ensures v.fields[k].key !in KeysOf(done)
  {
    assert DistinctKeys(v.fields);
  }

  lemma {:induction false} MapStops(tokens: seq<Token>, i: nat, n: nat, done: seq<Entry>)
    requires i <= |tokens| && Out(tokens, i, n)
    ensures ParseMap(tokens, i, n, done) == Ok(Parsed(done, i))
  {
    hide EntryValue, SplitKey;
  }

  lemma {:induction false} FieldReads(f: FormField, tokens: seq<Token>, i: nat, n: nat)
    requires FieldGood(f) && Stands(tokens, i, FieldLines(f, n)) && Beside(tokens, i + |FieldLines(f, n)|, n)
    ensures i < |tokens|
    ensures EntryValue(tokens, i + 1, n, RestOf(f)) == Ok(Parsed(Meaning(f.value), i + |FieldLines(f, n)|))
    decreases f.value, 2, 0
  {
    hide ParseScalar, ParseNode, EntryValue, IsDash, Keyed, BlockMeaning;
    var rows := FieldLines(f, n);
    assert tokens[i + 0] == rows[0];
    match f.value
    case Nothing => EntryNothing(tokens, i + 1, n);
    case Scalar(_, text) => EntryInline(tokens, i + 1, n, text);
    case Block(mark, lines) =>
      StandsParts(tokens, i, [rows[0]], Below(lines, n + 1));
      BlockRead(mark, lines, tokens, i + 1, n);
    case Items(shift, _) =>
      StandsParts(tokens, i, [rows[0]], NodeLines(f.value, n + shift));
      assert tokens[i + 1 + 0] == NodeLines(f.value, n + shift)[0];
      NodeReads(f.value, tokens, i + 1, n + shift);
      if shift > 0 {
        EntryNested(tokens, i + 1, n);
      } else {
        FirstItem(f.value, n);
        EntryBeside(f.value, tokens, i + 1, n);
      }
    case Fields(shift, _, _) =>
      StandsParts(tokens, i, [rows[0]], NodeLines(f.value, n + 1 + shift));
      assert tokens[i + 1 + 0] == NodeLines(f.value, n + 1 + shift)[0];
      NodeReads(f.value, tokens, i + 1, n + 1 + shift);
      EntryNested(tokens, i + 1, n);
  }

  lemma {:induction false} EntryNothing(tokens: seq<Token>, i: nat, n: nat)
    requires i <= |tokens| && Beside(tokens, i, n)
    ensures EntryValue(tokens, i, n, "") == Ok(Parsed(Null, i))
  {
    hide ParseNode, ParseSeq, ParseScalar;
  }

  /** A sequence at the indentation of its key. */
  lemma {:induction false} EntryBeside(v: Form, tokens: seq<Token>, i: nat, n: nat)
    requires i < |tokens| && tokens[i].indent == n && IsDash(tokens[i].content)
    ensures EntryValue(tokens, i, n, "") == ParseNode(tokens, i, n)
  {
    hide ParseSeq, ParseScalar, ParseMap, IsDash;
  }

  /** A mapping that begins on the line of a dash goes on two columns to the right of the dash and nowhere else, also
      when more blanks than one stand behind the dash: another deeper line behind a first value is refused. */
  lemma {:induction false} MisalignedRefused(tokens: seq<Token>, i: nat, n: nat, first: string, key: string,
      text: string)
    requires i + 1 < |tokens| && IsDash(tokens[i].content) && tokens[i].content != "-"
    requires first == Strip(tokens[i].content[2..]) && LooksLikeMapping(first) && !IsDash(first)
    requires SplitKey(first) == KeySplit(key, true, text) && text != "" && !IsBlockMark(text) && ParseScalar(text).Ok?
    requires n < tokens[i + 1].indent != n + 2
    ensures ItemValue(tokens, i, n).Err?
  {
    hide ParseNode, ParseScalar, LooksLikeMapping, Strip, SplitKey, IsDash;
    var end := DeeperEnd(tokens, i + 1, n);
    var again := [Token(n + 2, first)] + tokens[i + 1..end];
    assert end > i + 1 && again[1] == tokens[i + 1];
    MapStep(again, 0, n + 2, [], key, text);
    EntryInline(again, 1, n + 2, text);
    DeeperMap(again, 1, n + 2, [] + [Entry(key, ParseScalar(text).value)]);
    var read := ParseMap(again, 0, n + 2, []);
    assert read.Err? || read.value.next != |again|;
  }

  lemma {:induction false} DeeperMap(tokens: seq<Token>, i: nat, n: nat, done: seq<Entry>)
    requires i < |tokens|
    ensures tokens[i].indent > n ==> ParseMap(tokens, i, n, done).Err?
    ensures tokens[i].indent < n ==> ParseMap(tokens, i, n, done) == Ok(Parsed(done, i))
  {
    hide EntryValue, SplitKey;
  }

  // ---------------------------------------------------------------- the text of a document

  /** The quotes that are open at the end of a content. */
  function QuotesAfter(s: string, q: Quotes): Quotes { if s == "" then q else QuotesAfter(s[1..], AfterChar(s[0], q)) }

  /** A row with its indentation, space behind it, and a comment if there is space before it and no quote is open. */
  ghost predicate RowLine(line: string, row: Token) { exists gap, note :: NotedLine(line, row, gap, note) }

  predicate NotedLine(line: string, row: Token, gap: string, note: string) {
    && line == W.LineText(row) + gap + note && AllWhite(gap)
    && (note == "" || (note[0] == '#' && gap != "" && QuotesAfter(row.content, PLAIN) == PLAIN))
  }

  /** Only space, and a comment perhaps. */
  ghost predicate EmptyLine(line: string) {
    exists gap, note :: line == gap + note && AllWhite(gap) && (note == "" || note[0] == '#')
  }

  /** The lines hold the rows, with comments and empty lines between. */
  ghost predicate Holds(lines: seq<string>, rows: seq<Token>) {
    if lines == [] then rows == []
    else
      NoBreaks(lines[0]) &&
      if EmptyLine(lines[0]) then Holds(lines[1..], rows)
      else rows != [] && GoodContent(rows[0].content) && RowLine(lines[0], rows[0]) && Holds(lines[1..], rows[1..])
  }

  function Lined(lines: seq<string>): string { if lines == [] then "" else lines[0] + "\n" + Lined(lines[1..]) }

  lemma {:induction false} KeepHead(a: char, s: string, afterSpace: bool, q: Quotes)
    requires !BeginsComment(a, afterSpace, q)
    ensures KeepLength([a] + s, afterSpace, q) == 1 + KeepLength(s, IsSpace(a), AfterChar(a, q))
  {
    hide BeginsComment, IsSpace, AfterChar;
    assert ([a] + s)[1..] == s;
  }

  lemma {:induction false} KeepAll(c: string, afterSpace: bool, q: Quotes)
    requires c != "" && KeepLength(c, afterSpace, q) == |c|
    ensures !BeginsComment(c[0], afterSpace, q)
    ensures KeepLength(c[1..], IsSpace(c[0]), AfterChar(c[0], q)) == |c| - 1
  {
    hide BeginsComment, IsSpace, AfterChar;
  }

  lemma {:induction false} KeepOn(c: string, rest: string, afterSpace: bool, q: Quotes)
    requires KeepLength(c, afterSpace, q) == |c|
    ensures KeepLength(c + rest, afterSpace, q) ==
            |c| + KeepLength(rest, if c == "" then afterSpace else IsSpace(c[|c| - 1]), QuotesAfter(c, q))
    decreases |c|
  {
    hide KeepLength, BeginsComment, IsSpace, AfterChar;
    if c == "" {
      assert c + rest == rest;
    } else {
      KeepAll(c, afterSpace, q);
      KeepOn(c[1..], rest, IsSpace(c[0]), AfterChar(c[0], q));
      KeepHead(c[0], c[1..] + rest, afterSpace, q);
      assert c + rest == [c[0]] + (c[1..] + rest);
    }
  }

  lemma {:induction false} KeepSpace(gap: string, afterSpace: bool, q: Quotes)
    requires AllWhite(gap)
    ensures KeepLength(gap, afterSpace, q) == |gap| && QuotesAfter(gap, q) == q
    decreases |gap|
  {
    if gap != "" { KeepSpace(gap[1..], true, q); }
  }

  lemma {:induction false} KeepNote(gap: string, note: string, afterSpace: bool, q: Quotes)
    requires AllWhite(gap) && (note == "" || (note[0] == '#' && (gap != "" || afterSpace) && q == PLAIN))
    ensures KeepLength(gap + note, afterSpace, q) == |gap|
  {
    KeepSpace(gap, afterSpace, q);
    KeepOn(gap, note, afterSpace, q);
  }

  lemma {:induction false} RStripSpace(s: string, gap: string)
    requires AllWhite(gap) && (s == "" || !IsSpace(s[|s| - 1]))
    ensures RStrip(s + gap) == s
    decreases |gap|
  {
    if gap == "" {
      assert s + gap == s;
    } else {
      assert (s + gap)[..|s + gap| - 1] == s + gap[..|gap| - 1];
      RStripSpace(s, gap[..|gap| - 1]);
    }
  }

  lemma {:induction false} EmptyToken(line: string)
    requires EmptyLine(line)
    ensures LineToken(line) == Ok(None)
  {
    var gap, note :| line == gap + note && AllWhite(gap) && (note == "" || note[0] == '#');
    KeepNote(gap, note, true, PLAIN);
    assert StripComment(line) == gap;
    RStripSpace("", gap);
    assert "" + gap == gap && Strip("") == "";
  }

  lemma {:induction false} IndentedText(row: Token)
    requires Trimmed(row.content)
    ensures W.LineText(row) == Spaces(row.indent) + row.content
    ensures W.LineText(row) != "" && !IsSpace(W.LineText(row)[|W.LineText(row)| - 1])
  {}

  lemma {:induction false} RowToken(line: string, row: Token)
    requires RowLine(line, row) && GoodContent(row.content)
    ensures LineToken(line) == Ok(Some(row))
  {
    hide QuotesAfter, KeepLength, RStrip, LineToken, W.LineText, NoBreaks;
    var gap, note :| NotedLine(line, row, gap, note);
    var c, text := row.content, W.LineText(row);
    KeepOn(c, gap + note, true, PLAIN);
    KeepNote(gap, note, false, QuotesAfter(c, PLAIN));
    KeepIndented(row.indent, c + (gap + note));
    IndentedText(row);
    assert line == Spaces(row.indent) + (c + (gap + note));
    assert StripComment(line) == text + gap;
    RStripSpace(text, gap);
    TokenOf(line, row.indent, c);
  }

  lemma {:induction false} HoldsTokens(lines: seq<string>, rows: seq<Token>)
    requires Holds(lines, rows)
    ensures TokensOf(lines) == Ok(rows)
    decreases |lines|
  {
    hide LineToken, RowLine, EmptyLine, GoodContent, NoBreaks;
    if lines != [] {
      if EmptyLine(lines[0]) {
        EmptyToken(lines[0]);
        HoldsTokens(lines[1..], rows);
        assert [] + rows == rows;
      } else {
        RowToken(lines[0], rows[0]);
        HoldsTokens(lines[1..], rows[1..]);
        assert [rows[0]] + rows[1..] == rows;
      }
    }
  }

  lemma {:induction false} LinedSplits(lines: seq<string>)
    requires forall i :: 0 <= i < |lines| ==> NoBreaks(lines[i])
    ensures SplitLines(Lined(lines)) == lines
    decreases |lines|
  {
    hide NoBreaks, SplitLines;
    if lines == [] {
      NoLines();
    } else {
      LinedSplits(lines[1..]);
      SplitFirst(lines[0], Lined(lines[1..]));
    }
  }

  lemma {:induction false} NoLines()
    ensures SplitLines("") == []
  {}

  lemma {:induction false} HoldsLines(lines: seq<string>, rows: seq<Token>)
    requires Holds(lines, rows)
    ensures forall i :: 0 <= i < |lines| ==> NoBreaks(lines[i])
    decreases |lines|
  {
    hide RowLine, EmptyLine, GoodContent, NoBreaks;
    if lines != [] {
      HoldsLines(lines[1..], if EmptyLine(lines[0]) then rows else rows[1..]);
      assert forall i :: 0 < i < |lines| ==> lines[i] == lines[1..][i - 1];
    }
  }

  /** Every document reads as what it says, at whatever depth it begins. */
  lemma {:induction false} DocumentReads(v: Form, n: nat, lines: seq<string>)
    requires NodeGood(v) && Holds(lines, NodeLines(v, n))
    ensures Load(Lined(lines)) == Ok(Meaning(v))
  {
    hide NodeGood, Holds, ParseNode, NodeLines, TokensOf, SplitLines;
    var rows := NodeLines(v, n);
    HoldsTokens(lines, rows);
    HoldsLines(lines, rows);
    LinedSplits(lines);
    NodeReads(v, rows, 0, n);
  }

  // ---------------------------------------------------------------- a document

  lemma {:induction false} ListRead()
    ensures ParseScalar("[b, c]") == Ok(List([Str("b"), Str("c")]))
  {
    hide ParseScalar, Scans, Flat;
    var parts := ["b", " c"];
    FlatForms("b", []);
    FlatForms(" c", []);
    WordRead("b");
    WordRead("c");
    StripTrimmed("b");
    StripBlank("c");
    ParseStripped(" c");
    assert parts[1..] == [" c"] && Join(",", parts) == "b, c";
    assert "[" + Join(",", parts) + "]" == "[b, c]";
    assert parts[0] == "b" && parts[1] == " c";
    FlowSequence(parts);
    var r := ParseScalar("[b, c]");
    assert r.Ok? && r.value.items == [Str("b"), Str("c")];
  }

  /** A flow sequence under a key, with a comment behind it, keeps its order. */
  lemma {:induction false} DocumentExample()
    ensures Load(Lined(["a: [b, c] # d"])) == Ok(Map([Entry("a", List([Str("b"), Str("c")]))]))
  {
    hide Load, ParseScalar, Holds, Lined, NodeGood, NodeLines, Meaning;
    var v := Fields(0, false, [FormField("a", Scalar(0, "[b, c]"))]);
    ExampleGood(v);
    ExampleRows(v);
    ExampleLine();
    DocumentReads(v, 0, ["a: [b, c] # d"]);
  }

  lemma {:induction false} ExampleGood(v: Form)
    requires v == Fields(0, false, [FormField("a", Scalar(0, "[b, c]"))])
    ensures NodeGood(v) && Meaning(v) == Map([Entry("a", List([Str("b"), Str("c")]))])
  {
    hide ParseScalar;
    ListRead();
    KeyForms("a");
    assert FieldGood(v.fields[0]);
    assert Meaning(v).entries == [Entry("a", List([Str("b"), Str("c")]))];
  }

  lemma {:induction false} ExampleRows(v: Form)
    requires v == Fields(0, false, [FormField("a", Scalar(0, "[b, c]"))]) && NodeGood(v)
    ensures NodeLines(v, 0) == [Token(0, "a: [b, c]")]
  {
    hide ParseScalar, SplitKey;
    var f := v.fields[0];
    assert Spaces(0) == "" && "a" + ": " + Spaces(0) + "[b, c]" == "a: [b, c]";
    assert FieldLines(f, 0) == [Token(0, "a: [b, c]")] && FieldsLines(v, 1, 0) == [];
    assert NodeLines(v, 0) == FieldLines(f, 0) + [];
  }

  lemma {:induction false} ExampleLine()
    ensures Holds(["a: [b, c] # d"], [Token(0, "a: [b, c]")])
  {
    hide KeepLength, EmptyLine, W.LineText, RowLine, Holds, GoodContent, QuotesAfter, NotedLine;
    var line, c := "a: [b, c] # d", "a: [b, c]";
    PlainContent(c);
    ExampleNoted(line, c);
    NotEmpty(line);
    RowLineBy(line, Token(0, c), " ", "# d");
    HoldsOne(line, Token(0, c));
  }

  lemma {:induction false} ExampleNoted(line: string, c: string)
    requires line == "a: [b, c] # d" && c == "a: [b, c]"
    ensures NotedLine(line, Token(0, c), " ", "# d")
  {
    hide W.LineText, QuotesAfter;
    QuotesPlain(c);
    FlushText(c);
    assert line == c + " " + "# d";
  }

  lemma {:induction false} RowLineBy(line: string, row: Token, gap: string, note: string)
    requires NotedLine(line, row, gap, note)
    ensures RowLine(line, row)
  {}

  lemma {:induction false} HoldsOne(line: string, row: Token)
    requires NoBreaks(line) && !EmptyLine(line) && GoodContent(row.content) && RowLine(line, row)
    ensures Holds([line], [row])
  {
    hide NoBreaks, EmptyLine, GoodContent, RowLine;
    assert [line][1..] == [] && [row][1..] == [];
    assert Holds([], []);
  }

  lemma {:induction false} FlushText(c: string)
    ensures W.LineText(Token(0, c)) == c
  {
    assert Spaces(0) + c == c;
  }

  lemma {:induction false} NotEmpty(line: string)
    requires line != "" && !IsSpace(line[0]) && line[0] != '#'
    ensures !EmptyLine(line)
  {}

  lemma {:induction false} QuotesPlain(s: string)
    requires forall i :: 0 <= i < |s| ==> Neutral(s[i])
    ensures QuotesAfter(s, PLAIN) == PLAIN
    decreases |s|
  {
    if s != "" { QuotesPlain(s[1..]); }
  }
}
