/** Text-level scanners of the JSONC surgeon. Each scanner is specified by a
    recursive function on the rest of the text, and the index loop that does
    the work is proved to compute it. */
module JsoncText {

  datatype Res<+T> = Ok(value: T) | Err(message: string)

  /** Python's str.isspace for one character. */
  predicate IsSpace(c: char) {
    || '\t' <= c <= '\r' || '\U{1c}' <= c <= ' ' || c == '\U{85}' || c == '\U{a0}' || c == '\U{1680}'
    || '\U{2000}' <= c <= '\U{200a}' || c == '\U{2028}' || c == '\U{2029}' || c == '\U{202f}' || c == '\U{205f}'
    || c == '\U{3000}'
  }

  predicate IsBreak(c: char) {
    c == '\r' || c == '\n'
  }

  predicate StartsLine(s: string) {
    |s| >= 2 && s[0] == '/' && s[1] == '/'
  }

  predicate StartsBlock(s: string) {
    |s| >= 2 && s[0] == '/' && s[1] == '*'
  }

  predicate EndsBlock(s: string) {
    |s| >= 2 && s[0] == '*' && s[1] == '/'
  }

  /** `s` with `prefix` put in front of an Ok result. */
  function Behind(prefix: string, r: Res<string>): Res<string> {
    match r case Ok(t) => Ok(prefix + t) case Err(m) => Err(m)
  }

  // ---- comments -> spaces ---------------------------------------------------

  /** Where the comment stripper is. */
  datatype Mode = Code | Str | Esc | Line | Block

  function Strip(s: string, m: Mode): Res<string>
    decreases |s|, if m == Line then 1 else 0
  {
    if s == "" then if m == Block then Err("unterminated JSONC block comment") else Ok("")
    else
      match m
      case Code =>
        if s[0] == '"' then Behind([s[0]], Strip(s[1..], Str))
        else if StartsLine(s) then Behind("  ", Strip(s[2..], Line))
        else if StartsBlock(s) then Behind("  ", Strip(s[2..], Block))
        else Behind([s[0]], Strip(s[1..], Code))
      case Str =>
        Behind([s[0]], Strip(s[1..], if s[0] == '\\' then Esc else if s[0] == '"' then Code else Str))
      case Esc => Behind([s[0]], Strip(s[1..], Str))
      case Line => if IsBreak(s[0]) then Strip(s, Code) else Behind(" ", Strip(s[1..], Line))
      case Block =>
        if EndsBlock(s) then Behind("  ", Strip(s[2..], Code))
        else Behind([if IsBreak(s[0]) then s[0] else ' '], Strip(s[1..], Block))
  }

  function WithoutComments(text: string): Res<string> {
    Strip(text, Code)
  }

  // ---- trivia -----------------------------------------------------------------

  /** What follows the first newline, or nothing. */
  function AfterNewline(s: string): (r: string)
    ensures |r| <= |s| && (s != "" ==> |r| < |s|)
  {
    if s == "" then "" else if s[0] == '\n' then s[1..] else AfterNewline(s[1..])
  }

  /** What follows the first end-of-block-comment mark, if there is one. */
  function AfterClose(s: string): (r: Res<string>)
    ensures r.Ok? ==> |r.value| + 2 <= |s|
  {
    if |s| < 2 then Err("unterminated JSONC block comment")
    else if EndsBlock(s) then Ok(s[2..])
    else AfterClose(s[1..])
  }

  /** The text after leading whitespace and comments. */
  function SkipTrivia(s: string): (r: Res<string>)
    ensures r.Ok? ==> |r.value| <= |s|
    decreases |s|
  {
    if s == "" then Ok("")
    else if IsSpace(s[0]) then SkipTrivia(s[1..])
    else if StartsLine(s) then SkipTrivia(AfterNewline(s[2..]))
    else if StartsBlock(s) then
      match AfterClose(s[2..]) { case Ok(r) => SkipTrivia(r) case Err(m) => Err(m) }
    else Ok(s)
  }

  // ---- values -------------------------------------------------------------------

  /** The text after the closing quote; `s` starts inside the string. */
  function StringRest(s: string, escaped: bool): (r: Res<string>)
    ensures r.Ok? ==> |r.value| < |s|
  {
    if s == "" then Err("unterminated JSON string")
    else if escaped then StringRest(s[1..], false)
    else if s[0] == '\\' then StringRest(s[1..], true)
    else if s[0] == '"' then Ok(s[1..])
    else StringRest(s[1..], false)
  }

  predicate EndsScalar(s: string) {
    s == "" || s[0] == ',' || s[0] == ']' || s[0] == '}' || StartsLine(s) || StartsBlock(s)
  }

  /** The text after a number, true, false or null, and the whitespace that follows it. */
  function ScalarRest(s: string): (r: string)
    ensures |r| <= |s|
    ensures EndsScalar(r)
  {
    if EndsScalar(s) then s else ScalarRest(s[1..])
  }

  predicate Opens(c: char) { c == '[' || c == '{' }
  predicate Closes(c: char) { c == ']' || c == '}' }
  function Opener(c: char): char { if c == ']' then '[' else '{' }

  /** The text after the bracket that empties the stack; the stack's top is its last element. */
  function BracketRest(s: string, stack: seq<char>): (r: Res<string>)
    requires stack != []
    ensures r.Ok? ==> |r.value| < |s|
    decreases |s|
  {
    if s == "" then Err("unterminated JSON value")
    else if s[0] == '"' then
      (match StringRest(s[1..], false) case Ok(r) => BracketRest(r, stack) case Err(m) => Err(m))
    else if StartsLine(s) then BracketRest(AfterNewline(s[2..]), stack)
    else if StartsBlock(s) then
      (match AfterClose(s[2..]) case Ok(r) => BracketRest(r, stack) case Err(m) => Err(m))
    else if Opens(s[0]) then BracketRest(s[1..], stack + [s[0]])
    else if Closes(s[0]) then
      if stack[|stack| - 1] != Opener(s[0]) then Err("mismatched JSON delimiters")
      else if |stack| == 1 then Ok(s[1..])
      else BracketRest(s[1..], stack[..|stack| - 1])
    else BracketRest(s[1..], stack)
  }

  /** The text after one value; the value may be preceded by trivia. */
  function ValueRest(s: string): (r: Res<string>)
    ensures r.Ok? ==> |r.value| <= |s|
  {
    match SkipTrivia(s)
    case Err(m) => Err(m)
    case Ok(v) =>
      if v == "" then Err("missing JSON value")
      else if v[0] == '"' then StringRest(v[1..], false)
      else if !Opens(v[0]) then Ok(ScalarRest(v))
      else BracketRest(v[1..], [v[0]])
  }

  // ---- trailing commas -> spaces ------------------------------------------------------

  /** What the comma look-ahead sees: whitespace and comments skipped, an unclosed block comment left standing. */
  function LookAhead(s: string): (r: string)
    ensures |r| <= |s|
    decreases |s|
  {
    if s == "" then ""
    else if IsSpace(s[0]) then LookAhead(s[1..])
    else if StartsLine(s) then LookAhead(AfterNewline(s[2..]))
    else if StartsBlock(s) then
      match AfterClose(s[2..]) { case Ok(r) => LookAhead(r) case Err(_) => s }
    else s
  }

  predicate IsTrailing(afterComma: string) {
    var r := LookAhead(afterComma); r != "" && Closes(r[0])
  }

  function StripCommas(s: string, m: Mode): (r: string)
    requires m == Code || m == Str || m == Esc
    ensures |r| == |s|
    decreases |s|
  {
    if s == "" then ""
    else
      match m
      case Code =>
        if s[0] == '"' then [s[0]] + StripCommas(s[1..], Str)
        else [if s[0] == ',' && IsTrailing(s[1..]) then ' ' else s[0]] + StripCommas(s[1..], Code)
      case Str => [s[0]] + StripCommas(s[1..], if s[0] == '\\' then Esc else if s[0] == '"' then Code else Str)
      case Esc => [s[0]] + StripCommas(s[1..], Str)
  }

  function WithoutTrailingCommas(text: string): string {
    StripCommas(text, Code)
  }
}
