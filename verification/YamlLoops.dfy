/** The loops the reader and the writer run, proved against the functions of `YamlReader` and
    `YamlWriter`. */
module YamlLoops {
  import opened Text
  import opened YamlReader
  import opened YamlWriter

  // ---------------------------------------------------------------- lines and keys

  method ScanComment(line: string) returns (kept: string)
    ensures kept == StripComment(line)
  {
    var q, afterSpace := Quotes(false, false), true;
    for index := 0 to |line|
      invariant KeepLength(line, true, Quotes(false, false)) == index + KeepLength(line[index..], afterSpace, q)
    {
      var c := line[index];
      if BeginsComment(c, afterSpace, q) { return line[..index]; }
      assert line[index..][1..] == line[index + 1..];
      q, afterSpace := AfterChar(c, q), IsSpace(c);
    }
    return line;
  }

  lemma {:induction false} TokensAppend(a: seq<string>, b: seq<string>)
    requires TokensOf(a).Ok?
    ensures TokensOf(a + b) ==
            match TokensOf(b) case Ok(t) => Ok(TokensOf(a).value + t) case Err(e) => Err(e)
    decreases |a|
  {
    hide LineToken;
    if a == [] {
      assert a + b == b;
      if TokensOf(b).Ok? { assert [] + TokensOf(b).value == TokensOf(b).value; }
    } else {
      assert (a + b)[1..] == a[1..] + b;
      TokensAppend(a[1..], b);
      if TokensOf(b).Ok? {
        var first := LineToken(a[0]).value;
        var head := if first.Some? then [first.value] else [];
        assert head + TokensOf(a[1..]).value + TokensOf(b).value == head + (TokensOf(a[1..]).value + TokensOf(b).value);
      }
    }
  }

  lemma {:induction false} TokensOne(line: string)
    ensures TokensOf([line]) ==
            match LineToken(line)
            case Ok(t) => Ok(if t.Some? then [t.value] else [])
            case Err(e) => Err(e)
  {
    hide LineToken;
    assert [line][1..] == [] && TokensOf([]) == Ok([]);
    match LineToken(line)
    case Ok(t) =>
      var head := if t.Some? then [t.value] else [];
      assert head + [] == head;
    case Err(_) =>
  }

  method ReadTokens(text: string) returns (r: Result<seq<Token>>)
    ensures r == Tokens(text)
  {
    hide LineToken;
    var lines := SplitLines(text);
    var tokens: seq<Token> := [];
    for index := 0 to |lines|
      invariant TokensOf(lines[..index]) == Ok(tokens)
    {
      var one := LineToken(lines[index]);
      TokensOne(lines[index]);
      TokensAppend(lines[..index], [lines[index]]);
      assert lines[..index + 1] == lines[..index] + [lines[index]];
      if one.Err? {
        TokensFail(lines, index + 1);
        return Err(one.error);
      }
      assert tokens + [] == tokens;
      if one.value.Some? { tokens := tokens + [one.value.value]; }
    }
    assert lines[..|lines|] == lines;
    return Ok(tokens);
  }

  lemma {:induction false} TokensFail(lines: seq<string>, n: nat)
    requires n <= |lines| && TokensOf(lines[..n]).Err?
    ensures TokensOf(lines) == Err(TokensOf(lines[..n]).error)
    decreases n
  {
    hide LineToken;
    if n > 0 && LineToken(lines[0]).Ok? {
      assert lines[..n][1..] == lines[1..][..n - 1];
      TokensFail(lines[1..], n - 1);
    }
  }

  /** A scan that has passed `index` characters without finding the colon. */
  function Shifted(r: Option<nat>, index: nat): Option<nat> {
    if r.Some? then Some(r.value + index) else None
  }

  method FindKey(content: string) returns (r: KeySplit)
    ensures r == SplitKey(content)
  {
    hide SeparatesKey, Strip, Advance;
    var st := TOP_LEVEL;
    assert content[0..] == content;
    for index := 0 to |content|
      invariant ColonAt(content, TOP_LEVEL) == Shifted(ColonAt(content[index..], st), index)
    {
      var s := content[index..];
      if SeparatesKey(s, st) {
        return KeySplit(Strip(content[..index]), true, Strip(content[index + 1..]));
      }
      assert s[1..] == content[index + 1..];
      st := Advance(content[index], st);
    }
    return KeySplit(Strip(content), false, "");
  }

  /** The parts already cut, the text since the last cut, and the parts of the rest. */
  function Glue(done: seq<string>, open: string, rest: seq<string>): seq<string>
    requires |rest| > 0
  {
    done + [open + rest[0]] + rest[1..]
  }

  method CutFlow(text: string) returns (r: seq<string>)
    ensures r == SplitFlow(text)
  {
    hide Advance, StripParts, Glue, FlowParts;
    var parts: seq<string> := [];
    var st, start := TOP_LEVEL, 0;
    FlowStart(text);
    for index := 0 to |text|
      invariant start <= index
      invariant forall i :: 0 <= i < |parts| ==> |parts[i]| <= |text|
      invariant FlowParts(text, TOP_LEVEL) == Glue(parts, text[start..index], FlowParts(text[index..], st))
    {
      FlowStep(text, parts, start, index, st);
      if text[index] == ',' && st == TOP_LEVEL {
        parts := parts + [text[start..index]];
        start := index + 1;
      } else {
        st := Advance(text[index], st);
      }
    }
    FlowEnd(text, parts, start, st);
    parts := parts + [text[start..]];
    r := StripParts(parts, |text|);
  }

  lemma {:induction false} FlowStart(text: string)
    ensures FlowParts(text, TOP_LEVEL) == Glue([], text[0..0], FlowParts(text[0..], TOP_LEVEL))
  {
    hide FlowParts;
    var parts := FlowParts(text, TOP_LEVEL);
    assert text[0..] == text && "" + parts[0] == parts[0] && parts == [parts[0]] + parts[1..];
  }

  /** One character of the flow scan: a cut, or one more character of the open part. */
  lemma {:induction false} FlowStep(text: string, parts: seq<string>, start: nat, index: nat, st: Scan)
    requires start <= index < |text|
    ensures Glue(parts, text[start..index], FlowParts(text[index..], st)) ==
            if text[index] == ',' && st == TOP_LEVEL then
              Glue(parts + [text[start..index]], text[index + 1..index + 1], FlowParts(text[index + 1..], st))
            else Glue(parts, text[start..index + 1], FlowParts(text[index + 1..], Advance(text[index], st)))
  {
    hide Advance, Glue;
    var s := text[index..];
    assert s[1..] == text[index + 1..];
    if s[0] == ',' && st == TOP_LEVEL {
      GlueCut(parts, text[start..index], FlowParts(s[1..], st));
      assert text[index + 1..index + 1] == "";
    } else {
      assert text[start..index + 1] == text[start..index] + [s[0]];
      GlueStep(parts, text[start..index], s[0], FlowParts(s[1..], Advance(s[0], st)));
    }
  }

  lemma {:induction false} FlowEnd(text: string, parts: seq<string>, start: nat, st: Scan)
    requires start <= |text|
    ensures Glue(parts, text[start..|text|], FlowParts(text[|text|..], st)) == parts + [text[start..]]
  {
    assert text[|text|..] == "" && text[start..|text|] + "" == text[start..] && [""][1..] == [];
    assert FlowParts(text[|text|..], st) == [""];
  }

  lemma {:induction false} GlueCut(done: seq<string>, open: string, rest: seq<string>)
    requires |rest| > 0
    ensures Glue(done, open, [""] + rest) == Glue(done + [open], "", rest)
  {
    assert open + "" == open && "" + rest[0] == rest[0];
  }

  lemma {:induction false} GlueStep(done: seq<string>, open: string, c: char, rest: seq<string>)
    requires |rest| > 0
    ensures Glue(done, open, [[c] + rest[0]] + rest[1..]) == Glue(done, open + [c], rest)
  {
    assert open + ([c] + rest[0]) == open + [c] + rest[0];
  }

  // ---------------------------------------------------------------- blocks

  lemma {:induction false} SeqUnfold(tokens: seq<Token>, i: nat, indent: nat, done: seq<Value>)
    requires i <= |tokens|
    ensures ParseSeq(tokens, i, indent, done) ==
            if i == |tokens| || tokens[i].indent != indent || !IsDash(tokens[i].content) then Ok(Parsed(done, i))
            else
              match ItemValue(tokens, i, indent)
              case Ok(p) => ParseSeq(tokens, p.next, indent, done + [p.value])
              case Err(e) => Err(e)
  {
    hide ItemValue;
  }

  method ReadMap(tokens: seq<Token>, start: nat, indent: nat) returns (r: Result<Parsed<seq<Entry>>>)
    requires start <= |tokens|
    ensures r == ParseMap(tokens, start, indent, [])
    decreases |tokens| - start, HeadLength(tokens, start), 3
  {
    var result: seq<Entry>, index := [], start;
    while index < |tokens| && tokens[index].indent >= indent && tokens[index].indent == indent &&
          !IsDash(tokens[index].content)
      invariant start <= index <= |tokens|
      invariant ParseMap(tokens, start, indent, []) == ParseMap(tokens, index, indent, result)
      decreases |tokens| - index
    {
      var content := tokens[index].content;
      var split := FindKey(content);
      if !split.found { return Err(ExpectedMappingEntry(content)); }
      if split.key in KeysOf(result) { return Err(DuplicateKey(split.key)); }
      var value := ReadEntryValue(tokens, index + 1, indent, split.rest);
      if value.Err? { return Err(value.error); }
      result := result + [Entry(split.key, value.value.value)];
      index := value.value.next;
    }
    if index < |tokens| && tokens[index].indent > indent {
      return Err(UnexpectedIndentation(tokens[index].content));
    }
    return Ok(Parsed(result, index));
  }

  method ReadEntryValue(tokens: seq<Token>, start: nat, indent: nat, rest: string) returns (r: Result<Parsed<Value>>)
    requires start <= |tokens|
    ensures r == EntryValue(tokens, start, indent, rest)
    ensures r.Ok? ==> start <= r.value.next <= |tokens|
    decreases |tokens| - start, HeadLength(tokens, start), 5
  {
    hide ParseNode, ParseSeq, ParseScalar, HeadLength, BlockText;
    var index := start;
    if IsBlockMark(rest) {
      while index < |tokens| && tokens[index].indent > indent
        invariant start <= index <= |tokens|
        invariant DeeperEnd(tokens, start, indent) == DeeperEnd(tokens, index, indent)
      {
        index := index + 1;
      }
      return Ok(Parsed(Str(BlockText(rest, tokens[start..index])), index));
    } else if rest != "" {
      var value := ParseScalar(rest);
      if value.Err? { return Err(value.error); }
      return Ok(Parsed(value.value, index));
    } else if index < |tokens| && tokens[index].indent > indent {
      r := ReadNode(tokens, index, tokens[index].indent);
    } else if index < |tokens| && tokens[index].indent == indent && IsDash(tokens[index].content) {
      var items := ReadSeq(tokens, index, indent);
      if items.Err? { return Err(items.error); }
      return Ok(Parsed(List(items.value.value), items.value.next));
    } else {
      return Ok(Parsed(Null, index));
    }
  }

  method ReadSeq(tokens: seq<Token>, start: nat, indent: nat) returns (r: Result<Parsed<seq<Value>>>)
    requires start <= |tokens|
    ensures r == ParseSeq(tokens, start, indent, [])
    decreases |tokens| - start, HeadLength(tokens, start), 3
  {
    hide ParseSeq, ItemValue, HeadLength;
    var result: seq<Value>, index := [], start;
    while index < |tokens| && tokens[index].indent == indent && IsDash(tokens[index].content)
      invariant start <= index <= |tokens|
      invariant ParseSeq(tokens, start, indent, []) == ParseSeq(tokens, index, indent, result)
      decreases |tokens| - index
    {
      SeqUnfold(tokens, index, indent, result);
      var item := ReadItem(tokens, index, indent);
      if item.Err? { return Err(item.error); }
      result := result + [item.value.value];
      index := item.value.next;
    }
    SeqUnfold(tokens, index, indent, result);
    return Ok(Parsed(result, index));
  }

  method ReadItem(tokens: seq<Token>, start: nat, indent: nat) returns (r: Result<Parsed<Value>>)
    requires start < |tokens| && IsDash(tokens[start].content)
    ensures r == ItemValue(tokens, start, indent)
    ensures r.Ok? ==> start < r.value.next <= |tokens|
    decreases |tokens| - start, HeadLength(tokens, start), 1
  {
    hide ParseNode, ParseMap, ParseScalar, LooksLikeMapping, Strip;
    var content := tokens[start].content;
    var index := start + 1;
    if content == "-" {
      if index < |tokens| && tokens[index].indent > indent {
        r := ReadNode(tokens, index, tokens[index].indent);
      } else {
        r := Ok(Parsed(Null, index));
      }
      return;
    }
    var rest := Strip(content[2..]);
    if LooksLikeMapping(rest) {
      var item := [Token(indent + 2, rest)];
      while index < |tokens| && tokens[index].indent > indent
        invariant start + 1 <= index <= |tokens|
        invariant DeeperEnd(tokens, start + 1, indent) == DeeperEnd(tokens, index, indent)
        invariant item == [Token(indent + 2, rest)] + tokens[start + 1..index]
      {
        item := item + [tokens[index]];
        index := index + 1;
      }
      var entries := ReadMap(item, 0, indent + 2);
      if entries.Err? { return Err(entries.error); }
      if entries.value.next != |item| { return Err(UnparsedItem(rest)); }
      return Ok(Parsed(Map(entries.value.value), index));
    }
    var value := ParseScalar(rest);
    if value.Err? { return Err(value.error); }
    return Ok(Parsed(value.value, index));
  }

  method ReadNode(tokens: seq<Token>, index: nat, indent: nat) returns (r: Result<Parsed<Value>>)
    requires index < |tokens|
    ensures r == ParseNode(tokens, index, indent)
    decreases |tokens| - index, HeadLength(tokens, index), 4
  {
    hide ParseMap, ParseSeq, ParseScalar, LooksLikeMapping, HeadLength;
    var content := tokens[index].content;
    if IsDash(content) {
      var items := ReadSeq(tokens, index, indent);
      if items.Err? { return Err(items.error); }
      return Ok(Parsed(List(items.value.value), items.value.next));
    }
    if !LooksLikeMapping(content) {
      var value := ParseScalar(content);
      if value.Err? { return Err(value.error); }
      return Ok(Parsed(value.value, index + 1));
    }
    var entries := ReadMap(tokens, index, indent);
    if entries.Err? { return Err(entries.error); }
    return Ok(Parsed(Map(entries.value.value), entries.value.next));
  }

  method LoadText(text: string) returns (r: Result<Value>)
    ensures r == Load(text)
  {
    hide ParseNode, Tokens;
    var tokens := ReadTokens(text);
    if tokens.Err? { return Err(tokens.error); }
    if tokens.value == [] { return Ok(Null); }
    var node := ReadNode(tokens.value, 0, tokens.value[0].indent);
    if node.Err? { return Err(node.error); }
    if node.value.next != |tokens.value| { return Err(TrailingContent(node.value.next)); }
    return Ok(node.value.value);
  }

  // ---------------------------------------------------------------- the writer's shared line list

  /** A node the writer renders rather than refuses: a collection whose keys are all named. */
  predicate Renders(v: Value) { !IsScalar(v) && NamedKeys(v) }

  predicate NamedItems(v: Value, k: nat)
    requires v.List? && k <= |v.items|
  {
    forall i :: 0 <= i < k ==> NamedKeys(v.items[i])
  }

  lemma {:induction false} NamedItemsStep(v: Value, k: nat)
    requires v.List? && k < |v.items|
    ensures NamedItems(v, k + 1) <==> NamedItems(v, k) && NamedKeys(v.items[k])
    ensures !NamedKeys(v.items[k]) ==> !NamedKeys(v)
    ensures Writable(v) ==> Writable(v.items[k])
  {}

  lemma {:induction false} NamedItemsAll(v: Value)
    requires v.List?
    ensures NamedItems(v, |v.items|) <==> NamedKeys(v)
  {}

  predicate NamedEntries(v: Value, k: nat)
    requires v.Map? && k <= |v.entries|
  {
    forall i :: 0 <= i < k ==> v.entries[i].key != "" && NamedKeys(v.entries[i].value)
  }

  lemma {:induction false} NamedEntriesStep(v: Value, k: nat)
    requires v.Map? && k < |v.entries|
    ensures NamedEntries(v, k + 1) <==> NamedEntries(v, k) && v.entries[k].key != "" && NamedKeys(v.entries[k].value)
    ensures v.entries[k].key == "" || !NamedKeys(v.entries[k].value) ==> !NamedKeys(v)
    ensures Writable(v) ==> v.entries[k].key != "" && Writable(v.entries[k].value)
  {}

  lemma {:induction false} NamedEntriesAll(v: Value)
    requires v.Map?
    ensures NamedEntries(v, |v.entries|) <==> NamedKeys(v)
  {}

  class LineBuffer {
    var lines: seq<string>

    constructor ()
      ensures lines == []
    {
      lines := [];
    }

    method Append(indent: nat, content: string)
      modifies this
      ensures lines == old(lines) + LinesText([Token(indent, content)])
    {
      lines := lines + [Spaces(indent) + content];
    }

    /** Appends the rows of `v`, or refuses after appending some of them. */
    method RenderNode(v: Value, indent: nat) returns (ok: bool)
      requires FloatFree(v)
      modifies this
      ensures ok <==> Renders(v)
      ensures old(lines) <= lines
      ensures ok ==> Writable(v) && lines == old(lines) + LinesText(NodeRows(v, indent))
      decreases v, 1
    {
      WritableParts(v);
      if IsScalar(v) { return false; }
      if Inline(v) {
        Append(indent, InlineText(v));
        return true;
      }
      if v.Map? { ok := RenderEntries(v, indent); } else { ok := RenderItems(v, indent); }
    }

    method RenderEntries(v: Value, indent: nat) returns (ok: bool)
      requires FloatFree(v) && v.Map? && v.entries != []
      modifies this
      ensures ok <==> NamedKeys(v)
      ensures old(lines) <= lines
      ensures ok ==> Writable(v) && lines == old(lines) + LinesText(EntryRows(v, 0, indent))
      decreases v, 0
    {
      hide LinesText, OneEntryRows, NamedKeys, Writable;
      WritableParts(v);
      for k := 0 to |v.entries|
        invariant old(lines) <= lines
        invariant NamedEntries(v, k)
        invariant NamedKeys(v) ==>
          lines + LinesText(EntryRows(v, k, indent)) == old(lines) + LinesText(EntryRows(v, 0, indent))
      {
        ok := RenderEntry(v.entries[k], indent);
        NamedEntriesStep(v, k);
        if !ok { return; }
      }
      NamedEntriesAll(v);
      return true;
    }

    method RenderEntry(e: Entry, indent: nat) returns (ok: bool)
      requires FloatFree(e.value)
      modifies this
      ensures ok <==> e.key != "" && NamedKeys(e.value)
      ensures old(lines) <= lines
      ensures ok ==> Writable(e.value) && lines == old(lines) + LinesText(OneEntryRows(e, indent))
      decreases e.value, 2
    {
      WritableParts(e.value);
      if e.key == "" { return false; }
      if Inline(e.value) {
        Append(indent, KeyText(e.key) + ": " + InlineText(e.value));
        return true;
      }
      Append(indent, KeyText(e.key) + ":");
      ok := RenderNode(e.value, indent + 2);
    }

    method RenderItems(v: Value, indent: nat) returns (ok: bool)
      requires FloatFree(v) && v.List? && v.items != []
      modifies this
      ensures ok <==> NamedKeys(v)
      ensures old(lines) <= lines
      ensures ok ==> Writable(v) && lines == old(lines) + LinesText(ItemRows(v, 0, indent))
      decreases v, 0
    {
      hide LinesText, OneItemRows, NamedKeys, Writable;
      WritableParts(v);
      for k := 0 to |v.items|
        invariant old(lines) <= lines
        invariant NamedItems(v, k)
        invariant NamedKeys(v) ==>
          lines + LinesText(ItemRows(v, k, indent)) == old(lines) + LinesText(ItemRows(v, 0, indent))
      {
        ok := RenderItem(v.items[k], indent);
        NamedItemsStep(v, k);
        if !ok { return; }
      }
      NamedItemsAll(v);
      return true;
    }

    method RenderItem(item: Value, indent: nat) returns (ok: bool)
      requires FloatFree(item)
      modifies this
      ensures ok <==> NamedKeys(item)
      ensures old(lines) <= lines
      ensures ok ==> Writable(item) && lines == old(lines) + LinesText(OneItemRows(item, indent))
      decreases item, 2
    {
      WritableParts(item);
      if Inline(item) {
        Append(indent, "- " + InlineText(item));
        return true;
      }
      Append(indent, "-");
      ok := RenderNode(item, indent + 2);
    }
  }
}
