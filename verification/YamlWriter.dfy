/** The projection writer: block YAML with every string quoted as JSON. */
module YamlWriter {
  import opened Text
  import opened YamlReader

  // ---------------------------------------------------------------- scalars

  function DigitChar(d: nat): char
    requires d < 10
  {
    ('0' as int + d) as char
  }

  function NatText(n: nat): (s: string)
    ensures s != "" && AllDigits(s) && DigitsValue(s) == n && (s[0] == '0' ==> n == 0 && |s| == 1)
  {
    if n < 10 then
      assert DigitsValue("") == 0 && [DigitChar(n)][..0] == "";
      [DigitChar(n)]
    else
      var s := NatText(n / 10) + [DigitChar(n % 10)];
      assert s[..|s| - 1] == NatText(n / 10);
      s
  }

  function IntText(n: int): string {
    if n < 0 then "-" + NatText(-n) else NatText(n)
  }

  function HexChar(d: nat): char
    requires d < 16
  {
    if d < 10 then ('0' as int + d) as char else ('a' as int + d - 10) as char
  }

  /** `json.dumps(..., ensure_ascii=False)` of one character. */
  function EscapeChar(c: char): (e: string)
    ensures e != ""
  {
    if c == '"' then "\\\""
    else if c == '\\' then "\\\\"
    else if c == '\n' then "\\n"
    else if c == '\r' then "\\r"
    else if c == '\t' then "\\t"
    else if c == '\U{0C}' then "\\f"
    else if c == '\U{08}' then "\\b"
    else if c < ' ' then "\\u00" + [HexChar(c as nat / 16), HexChar(c as nat % 16)]
    else [c]
  }

  function Escape(s: string): string {
    if s == "" then "" else EscapeChar(s[0]) + Escape(s[1..])
  }

  function JsonText(s: string): string { "\"" + Escape(s) + "\"" }

  predicate IsScalar(v: Value) { !v.List? && !v.Map? }

  function ScalarText(v: Value): string
    requires IsScalar(v) && !v.Float?
  {
    match v
    case Null => "null"
    case Bool(b) => if b then "true" else "false"
    case Int(n) => IntText(n)
    case Str(text) => JsonText(text)
  }

  predicate KeyHead(c: char) { 'A' <= c <= 'Z' || 'a' <= c <= 'z' || c == '_' }

  predicate KeyTail(c: char) { KeyHead(c) || IsDigit(c) || c == '.' || c == '-' }

  /** Keys the writer leaves unquoted. */
  predicate SafeKey(key: string) {
    key != "" && KeyHead(key[0]) && forall i :: 0 <= i < |key| ==> KeyTail(key[i])
  }

  function KeyText(key: string): string { if SafeKey(key) then key else JsonText(key) }

  // ---------------------------------------------------------------- rows

  /** Values written on the line of their key or dash: scalars and empty collections. */
  predicate Inline(v: Value) {
    match v
    case List(items) => items == []
    case Map(entries) => entries == []
    case _ => true
  }

  /** No key is empty and no number is a float, at any depth. */
  predicate Writable(v: Value) {
    match v
    case Float(_) => false
    case List(items) => forall i :: 0 <= i < |items| ==> Writable(items[i])
    case Map(entries) => forall i :: 0 <= i < |entries| ==> entries[i].key != "" && Writable(entries[i].value)
    case _ => true
  }

  predicate FloatFree(v: Value) {
    match v
    case Float(_) => false
    case List(items) => forall i :: 0 <= i < |items| ==> FloatFree(items[i])
    case Map(entries) => forall i :: 0 <= i < |entries| ==> FloatFree(entries[i].value)
    case _ => true
  }

  /** The keys the writer accepts: it refuses an empty one. */
  predicate NamedKeys(v: Value) {
    match v
    case List(items) => forall i :: 0 <= i < |items| ==> NamedKeys(items[i])
    case Map(entries) => forall i :: 0 <= i < |entries| ==> entries[i].key != "" && NamedKeys(entries[i].value)
    case _ => true
  }

  lemma {:induction false} WritableParts(v: Value)
    ensures Writable(v) <==> FloatFree(v) && NamedKeys(v)
  {
    match v
    case List(items) => forall i | 0 <= i < |items| { WritableParts(items[i]); }
    case Map(entries) => forall i | 0 <= i < |entries| { WritableParts(entries[i].value); }
    case _ =>
  }

  function InlineText(v: Value): string
    requires Inline(v) && Writable(v)
  {
    if v.List? then "[]" else if v.Map? then "{}" else ScalarText(v)
  }

  /** The lines of one collection, each as its indentation and its content. */
  function NodeRows(v: Value, indent: nat): (rows: seq<Token>)
    requires !IsScalar(v) && Writable(v)
    decreases v, 1, 0
  {
    if Inline(v) then [Token(indent, InlineText(v))]
    else if v.List? then ItemRows(v, 0, indent)
    else EntryRows(v, 0, indent)
  }

  function EntryRows(v: Value, k: nat, indent: nat): seq<Token>
    requires v.Map? && Writable(v) && k <= |v.entries|
    decreases v, 0, |v.entries| - k
  {
    if k == |v.entries| then [] else OneEntryRows(v.entries[k], indent) + EntryRows(v, k + 1, indent)
  }

  function OneEntryRows(e: Entry, indent: nat): (rows: seq<Token>)
    requires e.key != "" && Writable(e.value)
    ensures |rows| > 0 && rows[0].indent == indent
    decreases e.value, 2, 0
  {
    if Inline(e.value) then [Token(indent, KeyText(e.key) + ": " + InlineText(e.value))]
    else [Token(indent, KeyText(e.key) + ":")] + NodeRows(e.value, indent + 2)
  }

  function ItemRows(v: Value, k: nat, indent: nat): seq<Token>
    requires v.List? && Writable(v) && k <= |v.items|
    decreases v, 0, |v.items| - k
  {
    if k == |v.items| then [] else OneItemRows(v.items[k], indent) + ItemRows(v, k + 1, indent)
  }

  function OneItemRows(item: Value, indent: nat): (rows: seq<Token>)
    requires Writable(item)
    ensures |rows| > 0 && rows[0].indent == indent
    decreases item, 2, 0
  {
    if Inline(item) then [Token(indent, "- " + InlineText(item))]
    else [Token(indent, "-")] + NodeRows(item, indent + 2)
  }

  function LineText(row: Token): string { Spaces(row.indent) + row.content }

  function LinesText(rows: seq<Token>): (lines: seq<string>)
    ensures |lines| == |rows| && forall i :: 0 <= i < |rows| ==> lines[i] == LineText(rows[i])
  {
    seq(|rows|, i requires 0 <= i < |rows| => LineText(rows[i]))
  }

  /** The whole projection as text. */
  function Render(v: Value): string
    requires !IsScalar(v) && Writable(v)
  {
    Join("\n", LinesText(NodeRows(v, 0))) + "\n"
  }
}
