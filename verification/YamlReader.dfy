/** The YAML subset reader: values, line tokens, scalars and the block grammar as functions.
    `YamlLoops` holds the loops the program runs and proves them equal to these functions. */
module YamlReader {
  import opened Text

  datatype Value =
    | Null
    | Bool(b: bool)
    | Int(n: int)
    | Float(literal: string)
    | Str(text: string)
    | List(items: seq<Value>)
    | Map(entries: seq<Entry>)

  /** One key of a mapping; a mapping keeps the order its keys were first written in. */
  datatype Entry = Entry(key: string, value: Value)

  datatype YamlError =
    | TabIndentation
    | UnexpectedIndentation(content: string)
    | ExpectedMappingEntry(content: string)
    | DuplicateKey(key: string)
    | UnexpectedAfterQuoted(content: string)
    | UnclosedQuoted(content: string)
    | InvalidDoubleQuoted(content: string)
    | UnclosedFlowSequence(content: string)
    | UnclosedFlowMapping(content: string)
    | InvalidFlowEntry(content: string)
    | UnquotedSeparator(content: string)
    | UnparsedItem(content: string)
    | TrailingContent(index: nat)

  datatype Result<+T> = Ok(value: T) | Err(error: YamlError) {
    predicate IsFailure() { Err? }
    function PropagateFailure<U>(): Result<U> requires Err? { Err(error) }
    function Extract(): T requires Ok? { value }
  }

  datatype Token = Token(indent: nat, content: string)

  // ---------------------------------------------------------------- lines to tokens

  /** What the comment scanner remembers after a character: inside single quotes, inside double quotes. */
  datatype Quotes = Quotes(single: bool, double: bool)

  function AfterChar(c: char, q: Quotes): Quotes {
    if c == '\'' && !q.double then Quotes(!q.single, q.double)
    else if c == '"' && !q.single then Quotes(q.single, !q.double)
    else q
  }

  /** `#` outside quotes, at the start of the line or after a space, begins a comment. */
  predicate BeginsComment(c: char, afterSpace: bool, q: Quotes) {
    c == '#' && !q.single && !q.double && afterSpace
  }

  /** How many characters of `s` come before its comment. */
  function KeepLength(s: string, afterSpace: bool, q: Quotes): (n: nat)
    ensures n <= |s|
  {
    if s == "" || BeginsComment(s[0], afterSpace, q) then 0
    else 1 + KeepLength(s[1..], IsSpace(s[0]), AfterChar(s[0], q))
  }

  function StripComment(line: string): string {
    line[..KeepLength(line, true, Quotes(false, false))]
  }

  /** The token of one raw line, or nothing for a blank or comment line. */
  function LineToken(raw: string): Result<Option<Token>> {
    var line := RStrip(StripComment(raw));
    if Strip(line) == "" then Ok(None)
    else if '\t' in line[..LeadingBlanks(line)] then Err(TabIndentation)
    else Ok(Some(Token(LeadingBlanks(line), Strip(line))))
  }

  function TokensOf(lines: seq<string>): Result<seq<Token>> {
    if lines == [] then Ok([])
    else
      var first :- LineToken(lines[0]);
      var rest :- TokensOf(lines[1..]);
      Ok((if first.Some? then [first.value] else []) + rest)
  }

  function Tokens(text: string): Result<seq<Token>> {
    TokensOf(SplitLines(text))
  }

  // ---------------------------------------------------------------- scalars and flow collections

  /** The scanner of keys and flow items: the open quote, if any, and the bracket depth. */
  datatype Scan = Scan(quote: Option<char>, depth: int)

  const TOP_LEVEL := Scan(None, 0)

  function Advance(c: char, st: Scan): Scan {
    if st.quote.Some? then (if c == st.quote.value then st.(quote := None) else st)
    else if c == '\'' || c == '"' then st.(quote := Some(c))
    else if c == '[' || c == '{' then st.(depth := st.depth + 1)
    else if c == ']' || c == '}' then st.(depth := st.depth - 1)
    else st
  }

  predicate SeparatesKey(s: string, st: Scan) {
    s != "" && st == TOP_LEVEL && s[0] == ':' && (|s| == 1 || IsSpace(s[1]))
  }

  /** Offset of the colon that ends the key. */
  function ColonAt(s: string, st: Scan): (r: Option<nat>)
    ensures r.Some? ==> r.value < |s|
  {
    if s == "" then None
    else if SeparatesKey(s, st) then Some(0)
    else
      match ColonAt(s[1..], Advance(s[0], st))
      case None => None
      case Some(i) => Some(i + 1)
  }

  datatype KeySplit = KeySplit(key: string, found: bool, rest: string)

  function SplitKey(content: string): (r: KeySplit)
    ensures r.found ==> |r.rest| < |content|
  {
    match ColonAt(content, TOP_LEVEL)
    case Some(i) => KeySplit(Strip(content[..i]), true, Strip(content[i + 1..]))
    case None => KeySplit(Strip(content), false, "")
  }

  predicate LooksLikeMapping(content: string) {
    content != "" && content[0] !in "[{\"'" &&
    var split := SplitKey(content);
    split.found && ' ' !in split.key
  }

  /** The text between top-level commas, before stripping. */
  function FlowParts(s: string, st: Scan): (parts: seq<string>)
    ensures |parts| > 0
    ensures forall i :: 0 <= i < |parts| ==> |parts[i]| <= |s|
  {
    if s == "" then [""]
    else if s[0] == ',' && st == TOP_LEVEL then [""] + FlowParts(s[1..], st)
    else
      var rest := FlowParts(s[1..], Advance(s[0], st));
      [[s[0]] + rest[0]] + rest[1..]
  }

  function StripParts(parts: seq<string>, bound: nat): (r: seq<string>)
    requires forall i :: 0 <= i < |parts| ==> |parts[i]| <= bound
    ensures forall i :: 0 <= i < |r| ==> |r[i]| <= bound
  {
    if parts == [] then []
    else (if Strip(parts[0]) == "" then [] else [Strip(parts[0])]) + StripParts(parts[1..], bound)
  }

  function SplitFlow(text: string): (r: seq<string>)
    ensures forall i :: 0 <= i < |r| ==> |r[i]| <= |text|
  {
    StripParts(FlowParts(text, TOP_LEVEL), |text|)
  }

  /** The text of a single-quoted scalar after its opening quote; two quotes stand for one. */
  function Unquote(s: string, whole: string): Result<string> {
    if s == "" then Err(UnclosedQuoted(whole))
    else if s[0] != '\'' then
      var rest :- Unquote(s[1..], whole);
      Ok([s[0]] + rest)
    else if |s| > 1 && s[1] == '\'' then
      var rest :- Unquote(s[2..], whole);
      Ok("'" + rest)
    else if Strip(s[1..]) != "" && !(IsSpace(s[1]) && StartsWith(LStrip(s[1..]), "#")) then
      Err(UnexpectedAfterQuoted(whole))
    else Ok("")
  }

  function HexValue(c: char): Option<nat> {
    if '0' <= c <= '9' then Some(c as nat - '0' as nat)
    else if 'a' <= c <= 'f' then Some(c as nat - 'a' as nat + 10)
    else if 'A' <= c <= 'F' then Some(c as nat - 'A' as nat + 10)
    else None
  }

  function Hex4(s: string): (r: Option<nat>)
    ensures r.Some? ==> |s| >= 4 && r.value < 0x10000
  {
    if |s| < 4 then None
    else
      match (HexValue(s[0]), HexValue(s[1]), HexValue(s[2]), HexValue(s[3]))
      case (Some(a), Some(b), Some(c), Some(d)) => Some(((a * 16 + b) * 16 + c) * 16 + d)
      case _ => None
  }

  function SimpleEscape(c: char): Option<char> {
    if c == '"' || c == '\\' || c == '/' then Some(c)
    else if c == 'b' then Some('\U{08}')
    else if c == 'f' then Some('\U{0C}')
    else if c == 'n' then Some('\n')
    else if c == 'r' then Some('\r')
    else if c == 't' then Some('\t')
    else None
  }

  datatype Unit = Unit(c: char, width: nat)

  /** The first character of a JSON string's text and how many characters spell it.
      (Section 7 of RFC 8259. A lone surrogate escape has no character here and is refused.) */
  function NextUnit(s: string): (u: Option<Unit>)
    requires s != ""
    ensures u.Some? ==> 0 < u.value.width <= |s|
  {
    if s[0] != '\\' then (if s[0] < ' ' then None else Some(Unit(s[0], 1)))
    else if |s| == 1 then None
    else if s[1] != 'u' then
      (match SimpleEscape(s[1]) case Some(c) => Some(Unit(c, 2)) case None => None)
    else
      match (Hex4(s[2..]), if |s| > 6 then LowSurrogate(s[6..]) else None)
      case (None, _) => None
      case (Some(code), low) =>
        if code < 0xD800 || 0xE000 <= code then Some(Unit(code as char, 6))
        else if code < 0xDC00 && low.Some? then
          Some(Unit((0x10000 + (code - 0xD800) * 0x400 + (low.value - 0xDC00)) as char, 12))
        else None
  }

  /** The text of a JSON string after its opening quote; nothing may follow the closing one. */
  function DecodeJson(s: string): Option<string>
    decreases |s|
  {
    if s == "" then None
    else if s[0] == '"' then (if |s| == 1 then Some("") else None)
    else
      match NextUnit(s)
      case None => None
      case Some(u) => Prepend(u.c, DecodeJson(s[u.width..]))
  }

  function LowSurrogate(s: string): (r: Option<nat>)
    ensures r.Some? ==> |s| >= 6 && 0xDC00 <= r.value < 0xE000
  {
    if StartsWith(s, "\\u") && Hex4(s[2..]).Some? && 0xDC00 <= Hex4(s[2..]).value < 0xE000 then Hex4(s[2..])
    else None
  }

  function Prepend(c: char, rest: Option<string>): Option<string> {
    if rest.Some? then Some([c] + rest.value) else None
  }

  predicate AllDigits(s: string) { forall i :: 0 <= i < |s| ==> IsDigit(s[i]) }

  predicate IsIntText(s: string) {
    var digits := if s != "" && s[0] == '-' then s[1..] else s;
    digits != "" && AllDigits(digits)
  }

  predicate IsFloatText(s: string) {
    exists i :: 0 < i < |s| - 1 && s[i] == '.' && IsIntText(s[..i]) && AllDigits(s[i + 1..])
  }

  function DigitsValue(s: string): nat
    requires AllDigits(s)
  {
    if s == "" then 0
    else DigitsValue(s[..|s| - 1]) * 10 + (s[|s| - 1] as nat - '0' as nat)
  }

  function IntValue(s: string): int
    requires IsIntText(s)
  {
    if s[0] == '-' then 0 - DigitsValue(s[1..]) else DigitsValue(s)
  }

  function LowerAscii(s: string): string {
    seq(|s|, i requires 0 <= i < |s| =>
      if 'A' <= s[i] <= 'Z' then (s[i] as int + 32) as char else s[i])
  }

  predicate HasSeparator(s: string) {
    exists i :: 0 <= i < |s| - 1 && s[i] == ':' && (s[i + 1] == ' ' || s[i + 1] == '\t')
  }

  function PlainScalar(value: string): Result<Value> {
    if HasSeparator(value) then Err(UnquotedSeparator(value))
    else
      var lowered := LowerAscii(value);
      if lowered == "null" || lowered == "~" then Ok(Null)
      else if lowered == "true" || lowered == "yes" || lowered == "on" then Ok(Bool(true))
      else if lowered == "false" || lowered == "no" || lowered == "off" then Ok(Bool(false))
      else if IsIntText(value) then Ok(Int(IntValue(value)))
      else if IsFloatText(value) then Ok(Float(value))
      else Ok(Str(value))
  }

  /** `result[key] = value` on a dictionary that keeps insertion order. */
  function Put(entries: seq<Entry>, key: string, value: Value): seq<Entry> {
    if entries == [] then [Entry(key, value)]
    else if entries[0].key == key then [Entry(key, value)] + entries[1..]
    else [entries[0]] + Put(entries[1..], key, value)
  }

  predicate AllWithin(parts: seq<string>, bound: nat) {
    forall i :: 0 <= i < |parts| ==> |parts[i]| <= bound
  }

  function ParseScalar(raw: string): Result<Value>
    decreases |raw|, 0
  {
    var value := Strip(raw);
    if value == "" then Ok(Str(""))
    else
      var first, last := value[0], value[|value| - 1];
      if first == '\'' then
        var text :- Unquote(value[1..], value);
        Ok(Str(text))
      else if first == '"' then
        if |value| < 2 || last != '"' then Err(UnclosedQuoted(value))
        else
          match DecodeJson(value[1..])
          case Some(text) => Ok(Str(text))
          case None => Err(InvalidDoubleQuoted(value))
      else if first == '[' then
        if last != ']' then Err(UnclosedFlowSequence(value))
        else
          var items :- ParseItems(SplitFlow(value[1..|value| - 1]), |value| - 2);
          Ok(List(items))
      else if first == '{' then
        if last != '}' then Err(UnclosedFlowMapping(value))
        else
          var entries :- ParseEntries(SplitFlow(value[1..|value| - 1]), |value| - 2, []);
          Ok(Map(entries))
      else PlainScalar(value)
  }

  function ParseItems(parts: seq<string>, bound: nat): Result<seq<Value>>
    requires AllWithin(parts, bound)
    decreases bound, |parts|
  {
    if parts == [] then Ok([])
    else
      var rest := ParseItems(parts[1..], bound);
      var first := ParseScalar(parts[0]);
      if first.Err? then Err(first.error)
      else if rest.Err? then rest
      else Ok([first.value] + rest.value)
  }

  function ParseEntries(parts: seq<string>, bound: nat, done: seq<Entry>): Result<seq<Entry>>
    requires AllWithin(parts, bound)
    decreases bound, |parts|
  {
    if parts == [] then Ok(done)
    else
      var split := SplitKey(parts[0]);
      if !split.found then Err(InvalidFlowEntry(parts[0]))
      else
        var item :- ParseScalar(split.rest);
        ParseEntries(parts[1..], bound, Put(done, split.key, item))
  }

  // ---------------------------------------------------------------- blocks

  predicate IsDash(content: string) { content == "-" || StartsWith(content, "- ") }

  /** First index from `index` whose token is not indented deeper than `indent`. */
  function DeeperEnd(tokens: seq<Token>, index: nat, indent: nat): (end: nat)
    requires index <= |tokens|
    ensures index <= end <= |tokens|
    ensures forall i :: index <= i < end ==> tokens[i].indent > indent
    ensures end < |tokens| ==> tokens[end].indent <= indent
    decreases |tokens| - index
  {
    if index < |tokens| && tokens[index].indent > indent then DeeperEnd(tokens, index + 1, indent) else index
  }

  predicate IsBlockMark(rest: string) {
    rest == "|" || rest == ">" || rest == "|-" || rest == ">-" || rest == "|+" || rest == ">+"
  }

  function BlockText(mark: string, tokens: seq<Token>): string
    requires IsBlockMark(mark)
  {
    var lines := seq(|tokens|, i requires 0 <= i < |tokens| => tokens[i].content);
    Join(if mark[0] == '|' then "\n" else " ", lines) + (if mark[|mark| - 1] == '-' then "" else "\n")
  }

  datatype Parsed<+T> = Parsed(value: T, next: nat)

  function KeysOf(entries: seq<Entry>): set<string> {
    set i | 0 <= i < |entries| :: entries[i].key
  }

  /** The tokens left, then the length of the next one: what every reader call decreases. */
  function HeadLength(tokens: seq<Token>, index: nat): nat {
    if index < |tokens| then |tokens[index].content| else 0
  }

  /** The value that follows a key whose text is `rest`, and the index after it. */
  function EntryValue(tokens: seq<Token>, index: nat, indent: nat, rest: string): (r: Result<Parsed<Value>>)
    requires index <= |tokens|
    ensures r.Ok? ==> index <= r.value.next <= |tokens|
    decreases |tokens| - index, HeadLength(tokens, index), 5
  {
    if IsBlockMark(rest) then
      var end := DeeperEnd(tokens, index, indent);
      Ok(Parsed(Str(BlockText(rest, tokens[index..end])), end))
    else if rest != "" then
      var value :- ParseScalar(rest);
      Ok(Parsed(value, index))
    else if index < |tokens| && tokens[index].indent > indent then
      ParseNode(tokens, index, tokens[index].indent)
    else if index < |tokens| && tokens[index].indent == indent && IsDash(tokens[index].content) then
      var items :- ParseSeq(tokens, index, indent, []);
      Ok(Parsed(List(items.value), items.next))
    else Ok(Parsed(Null, index))
  }

  function ParseMap(tokens: seq<Token>, index: nat, indent: nat, done: seq<Entry>): (r: Result<Parsed<seq<Entry>>>)
    requires index <= |tokens|
    ensures r.Ok? ==> index <= r.value.next <= |tokens|
    ensures r.Ok? && index < |tokens| && tokens[index].indent == indent && !IsDash(tokens[index].content) ==>
              index < r.value.next
    ensures r.Ok? && r.value.next < |tokens| ==>
              tokens[r.value.next].indent < indent ||
              (tokens[r.value.next].indent == indent && IsDash(tokens[r.value.next].content))
    decreases |tokens| - index, HeadLength(tokens, index), 3
  {
    if index == |tokens| || tokens[index].indent < indent then Ok(Parsed(done, index))
    else
      var content := tokens[index].content;
      if tokens[index].indent > indent then Err(UnexpectedIndentation(content))
      else if IsDash(content) then Ok(Parsed(done, index))
      else
        var split := SplitKey(content);
        if !split.found then Err(ExpectedMappingEntry(content))
        else if split.key in KeysOf(done) then Err(DuplicateKey(split.key))
        else
          var entry :- EntryValue(tokens, index + 1, indent, split.rest);
          ParseMap(tokens, entry.next, indent, done + [Entry(split.key, entry.value)])
  }

  /** The value of one sequence item and the index after it. */
  function ItemValue(tokens: seq<Token>, index: nat, indent: nat): (r: Result<Parsed<Value>>)
    requires index < |tokens| && IsDash(tokens[index].content)
    ensures r.Ok? ==> index < r.value.next <= |tokens|
    decreases |tokens| - index, HeadLength(tokens, index), 1
  {
    var content := tokens[index].content;
    if content == "-" then
      if index + 1 < |tokens| && tokens[index + 1].indent > indent then
        ParseNode(tokens, index + 1, tokens[index + 1].indent)
      else Ok(Parsed(Null, index + 1))
    else
      var rest := Strip(content[2..]);
      if LooksLikeMapping(rest) then
        var end := DeeperEnd(tokens, index + 1, indent);
        var item := [Token(indent + 2, rest)] + tokens[index + 1..end];
        var entries :- ParseMap(item, 0, indent + 2, []);
        if entries.next != |item| then Err(UnparsedItem(rest))
        else Ok(Parsed(Map(entries.value), end))
      else
        var value :- ParseScalar(rest);
        Ok(Parsed(value, index + 1))
  }

  function ParseSeq(tokens: seq<Token>, index: nat, indent: nat, done: seq<Value>): (r: Result<Parsed<seq<Value>>>)
    requires index <= |tokens|
    ensures r.Ok? ==> index <= r.value.next <= |tokens|
    ensures r.Ok? && index < |tokens| && tokens[index].indent == indent && IsDash(tokens[index].content) ==>
              index < r.value.next
    ensures r.Ok? && r.value.next < |tokens| && tokens[r.value.next].indent == indent ==>
              !IsDash(tokens[r.value.next].content)
    decreases |tokens| - index, HeadLength(tokens, index), 3
  {
    if index == |tokens| || tokens[index].indent != indent || !IsDash(tokens[index].content) then
      Ok(Parsed(done, index))
    else
      var item :- ItemValue(tokens, index, indent);
      ParseSeq(tokens, item.next, indent, done + [item.value])
  }

  function ParseNode(tokens: seq<Token>, index: nat, indent: nat): (r: Result<Parsed<Value>>)
    requires index < |tokens|
    ensures r.Ok? ==> index <= r.value.next <= |tokens|
    ensures r.Ok? && indent == tokens[index].indent ==> index < r.value.next
    decreases |tokens| - index, HeadLength(tokens, index), 4
  {
    var content := tokens[index].content;
    if IsDash(content) then
      var items :- ParseSeq(tokens, index, indent, []);
      Ok(Parsed(List(items.value), items.next))
    else if !LooksLikeMapping(content) then
      var value :- ParseScalar(content);
      Ok(Parsed(value, index + 1))
    else
      var entries :- ParseMap(tokens, index, indent, []);
      Ok(Parsed(Map(entries.value), entries.next))
  }

  function Load(text: string): Result<Value> {
    var tokens :- Tokens(text);
    if tokens == [] then Ok(Null)
    else
      var node :- ParseNode(tokens, 0, tokens[0].indent);
      if node.next != |tokens| then Err(TrailingContent(node.next)) else Ok(node.value)
  }
}
