/** JSONC documents as trees with their trivia, how they print, what they mean, and the
    strict JSON parser the surgeon hands the cleaned text to. Printing takes the text that
    follows as an argument, so that scanners can be followed from one piece to the next. */
module JsoncGrammar {
  import opened JsoncText
  import opened Options

  // ---- documents --------------------------------------------------------------

  /** One piece of trivia; a line comment owns the newline that ends it. */
  datatype Piece = Space(c: char) | LineComment(body: string) | BlockComment(body: string)

  type Trivia = seq<Piece>

  /** A property name: the literal between its quotes, and the trivia around its colon. */
  datatype Key = Key(literal: string, before: Trivia, after: Trivia)

  datatype Value = Text(literal: string) | Scalar(token: string) | Array(items: Items) | Object(items: Items)

  /** Members or elements up to the closing bracket. `Close` is the trivia in front of it. */
  datatype Items =
    | Close(tr: Trivia)
    | Item(pre: Trivia, key: Option<Key>, value: Value, post: Trivia, comma: bool, rest: Items)

  /** A document whose root is an object; it may end in a line comment without a newline. */
  datatype Doc = Doc(lead: Trivia, items: Items, tail: Trivia, last: Option<string>)

  predicate JsonSpace(c: char) {
    c == ' ' || c == '\t' || c == '\n' || c == '\r'
  }

  predicate LineBodyOk(body: string) {
    forall i | 0 <= i < |body| :: body[i] != '\n' && (body[i] == '\r' ==> i == |body| - 1)
  }

  predicate BlockBodyOk(body: string) {
    forall i | 0 <= i < |body| - 1 :: !(body[i] == '*' && body[i + 1] == '/')
  }

  predicate PieceOk(p: Piece) {
    match p
    case Space(c) => JsonSpace(c)
    case LineComment(body) => LineBodyOk(body)
    case BlockComment(body) => BlockBodyOk(body)
  }

  predicate TriviaOk(tr: Trivia) {
    forall p <- tr :: PieceOk(p)
  }

  /** No unescaped quote, no dangling backslash. */
  predicate LiteralOk(s: string, escaped: bool) {
    if s == "" then !escaped
    else if escaped then LiteralOk(s[1..], false)
    else s[0] != '"' && LiteralOk(s[1..], s[0] == '\\')
  }

  predicate TokenChar(c: char) {
    'a' <= c <= 'z' || 'A' <= c <= 'Z' || '0' <= c <= '9' || c == '+' || c == '-' || c == '.'
  }

  /** Where the reader of a number, or of a word such as true, is; `rest` is what the word still needs. */
  datatype TokenState =
    | Begin | Minus | Zero | Whole | Point | Fraction | ExpMark | ExpSign | Exponent | Word(rest: string) | Wrong

  predicate Digit(c: char) { '0' <= c <= '9' }

  function NextState(st: TokenState, c: char): TokenState {
    match st
    case Begin =>
      if c == '-' then Minus else if c == '0' then Zero else if Digit(c) then Whole
      else if c == 't' then Word("rue") else if c == 'f' then Word("alse") else if c == 'n' then Word("ull")
      else if c == 'N' then Word("aN") else if c == 'I' then Word("nfinity") else Wrong
    case Minus =>
      if c == '0' then Zero else if Digit(c) then Whole else if c == 'I' then Word("nfinity") else Wrong
    case Zero => if c == '.' then Point else if c == 'e' || c == 'E' then ExpMark else Wrong
    case Whole =>
      if Digit(c) then Whole else if c == '.' then Point else if c == 'e' || c == 'E' then ExpMark else Wrong
    case Point => if Digit(c) then Fraction else Wrong
    case Fraction => if Digit(c) then Fraction else if c == 'e' || c == 'E' then ExpMark else Wrong
    case ExpMark => if c == '+' || c == '-' then ExpSign else if Digit(c) then Exponent else Wrong
    case ExpSign => if Digit(c) then Exponent else Wrong
    case Exponent => if Digit(c) then Exponent else Wrong
    case Word(rest) => if rest != "" && c == rest[0] then Word(rest[1..]) else Wrong
    case Wrong => Wrong
  }

  predicate Reads(t: string, st: TokenState) {
    if t == "" then st.Zero? || st.Whole? || st.Fraction? || st.Exponent? || st == Word("")
    else Reads(t[1..], NextState(st, t[0]))
  }

  /** A number of RFC 8259 section 6, a word of its section 3, or one of Python's NaN, Infinity, -Infinity. */
  predicate TokenOk(t: string) {
    t != "" && (forall c <- t :: TokenChar(c)) && Reads(t, Begin)
  }

  predicate KeyOk(k: Key) {
    LiteralOk(k.literal, false) && TriviaOk(k.before) && TriviaOk(k.after)
  }

  predicate ValueOk(v: Value) {
    match v
    case Text(s) => LiteralOk(s, false)
    case Scalar(t) => TokenOk(t)
    case Array(items) => ItemsOk(items, false)
    case Object(items) => ItemsOk(items, true)
  }

  /** One comma between members, at most one behind the last. */
  predicate ItemsOk(it: Items, named: bool) {
    match it
    case Close(tr) => TriviaOk(tr)
    case Item(pre, key, value, post, comma, rest) =>
      && TriviaOk(pre) && TriviaOk(post) && ValueOk(value)
      && key.Some? == named && (key.Some? ==> KeyOk(key.value))
      && ItemsOk(rest, named) && (!comma ==> rest == Close([]))
  }

  predicate HexDigit(c: char) {
    Digit(c) || 'a' <= c <= 'f' || 'A' <= c <= 'F'
  }

  /** What may stand behind a backslash: one of eight characters, or u and four hexadecimal digits. */
  predicate Escape(s: string) {
    s != "" &&
    (s[0] in {'"', '\\', '/', 'b', 'f', 'n', 'r', 't'}
     || (s[0] == 'u' && |s| >= 5 && HexDigit(s[1]) && HexDigit(s[2]) && HexDigit(s[3]) && HexDigit(s[4])))
  }

  /** No raw control character and no unknown escape in a literal. */
  predicate Spelled(s: string, escaped: bool) {
    s == "" || ((if escaped then Escape(s) else s[0] >= ' ') && Spelled(s[1..], !escaped && s[0] == '\\'))
  }

  predicate NoControl(s: string) {
    forall i | 0 <= i < |s| :: s[i] >= ' '
  }

  lemma {:induction false} SpelledHasNoControl(s: string, escaped: bool)
    requires Spelled(s, escaped)
    ensures NoControl(s)
  {
    if s != "" {
      SpelledHasNoControl(s[1..], !escaped && s[0] == '\\');
      assert forall i | 0 < i < |s| :: s[i] == s[1..][i - 1];
    }
  }

  /** All literals are spelled as RFC 8259 section 7 asks. */
  predicate LegibleV(v: Value) {
    match v
    case Text(s) => Spelled(s, false)
    case Scalar(_) => true
    case Array(items) => LegibleI(items)
    case Object(items) => LegibleI(items)
  }

  predicate LegibleI(it: Items) {
    it.Item? ==>
      && (it.key.Some? ==> Spelled(it.key.value.literal, false)) && LegibleV(it.value) && LegibleI(it.rest)
  }

  predicate ShapeOk(d: Doc) {
    && TriviaOk(d.lead) && ItemsOk(d.items, true) && TriviaOk(d.tail)
    && (d.last.Some? ==> LineBodyOk(d.last.value))
  }

  predicate DocOk(d: Doc) {
    ShapeOk(d) && LegibleI(d.items)
  }

  // ---- printing ---------------------------------------------------------------

  function PieceText(p: Piece): string {
    match p
    case Space(c) => [c]
    case LineComment(body) => "//" + body + "\n"
    case BlockComment(body) => "/*" + body + "*/"
  }

  function PrTr(tr: Trivia, k: string): string {
    if tr == [] then k else PieceText(tr[0]) + PrTr(tr[1..], k)
  }

  function PrKey(key: Option<Key>, k: string): string {
    match key
    case None => k
    case Some(Key(literal, before, after)) =>
      "\"" + (literal + ("\"" + PrTr(before, ":" + PrTr(after, k))))
  }

  function PrV(v: Value, k: string): string
    decreases v
  {
    match v
    case Text(s) => "\"" + (s + ("\"" + k))
    case Scalar(t) => t + k
    case Array(items) => "[" + PrI(items, "]" + k)
    case Object(items) => "{" + PrI(items, "}" + k)
  }

  function PrI(it: Items, k: string): string
    decreases it
  {
    match it
    case Close(tr) => PrTr(tr, k)
    case Item(pre, key, value, post, comma, rest) =>
      PrTr(pre, PrKey(key, PrV(value, PrTr(post, (if comma then "," else "") + PrI(rest, k)))))
  }

  function LastText(last: Option<string>): string {
    if last.Some? then "//" + last.value else ""
  }

  function Print(d: Doc): string {
    PrTr(d.lead, "{" + PrI(d.items, "}" + PrTr(d.tail, LastText(d.last))))
  }

  // ---- meaning ------------------------------------------------------------------

  /** JSON values; a scalar stands for itself, an object forgets order and repetition. */
  datatype Json =
    | JText(text: string) | JScalar(token: string) | JArray(elems: seq<Json>) | JObject(members: map<string, Json>)

  /** `decode` reads a string literal (the text between the quotes). */
  function Mean(decode: string -> string, v: Value): Json {
    match v
    case Text(s) => JText(decode(s))
    case Scalar(t) => JScalar(t)
    case Array(items) => JArray(MeanElems(decode, items))
    case Object(items) => JObject(MeanMembers(decode, items, map[]))
  }

  function MeanElems(decode: string -> string, it: Items): seq<Json> {
    match it
    case Close(_) => []
    case Item(_, _, value, _, _, rest) => [Mean(decode, value)] + MeanElems(decode, rest)
  }

  /** The last occurrence of a name wins. */
  function MeanMembers(decode: string -> string, it: Items, acc: map<string, Json>): map<string, Json> {
    match it
    case Close(_) => acc
    case Item(_, key, value, _, _, rest) =>
      MeanMembers(decode, rest, if key.Some? then acc[decode(key.value.literal) := Mean(decode, value)] else acc)
  }

  // ---- strict JSON --------------------------------------------------------------

  function SkipSpace(s: string): (r: string)
    ensures |r| <= |s|
  {
    if s != "" && JsonSpace(s[0]) then SkipSpace(s[1..]) else s
  }

  function TokenRest(s: string): (r: string)
    ensures |r| <= |s|
  {
    if s != "" && TokenChar(s[0]) then TokenRest(s[1..]) else s
  }

  datatype Parsed = Parsed(json: Json, rest: string)

  /** One value at the start of `s`. */
  function ParseValue(decode: string -> string, s: string): (r: Res<Parsed>)
    ensures r.Ok? ==> |r.value.rest| < |s|
    decreases |s|, 0
  {
    if s == "" then Err("value expected")
    else if s[0] == '"' then
      (match StringRest(s[1..], false)
       case Ok(r) => Ok(Parsed(JText(decode(s[1..][..|s| - 2 - |r|])), r))
       case Err(m) => Err(m))
    else if s[0] == '[' then
      var r := SkipSpace(s[1..]);
      if r != "" && r[0] == ']' then Ok(Parsed(JArray([]), r[1..])) else ParseElems(decode, r, [])
    else if s[0] == '{' then
      var r := SkipSpace(s[1..]);
      if r != "" && r[0] == '}' then Ok(Parsed(JObject(map[]), r[1..])) else ParseMembers(decode, r, map[])
    else if TokenChar(s[0]) then
      var r := TokenRest(s[1..]);
      if Reads(s[..|s| - |r|], Begin) then Ok(Parsed(JScalar(s[..|s| - |r|]), r)) else Err("value expected")
    else Err("value expected")
  }

  function ParseElems(decode: string -> string, s: string, acc: seq<Json>): (r: Res<Parsed>)
    ensures r.Ok? ==> |r.value.rest| < |s|
    decreases |s|, 1
  {
    match ParseValue(decode, s)
    case Err(m) => Err(m)
    case Ok(Parsed(json, r)) =>
      var t := SkipSpace(r);
      if t != "" && t[0] == ',' then ParseElems(decode, SkipSpace(t[1..]), acc + [json])
      else if t != "" && t[0] == ']' then Ok(Parsed(JArray(acc + [json]), t[1..]))
      else Err("comma expected")
  }

  function ParseMembers(decode: string -> string, s: string, acc: map<string, Json>): (r: Res<Parsed>)
    ensures r.Ok? ==> |r.value.rest| < |s|
    decreases |s|, 1
  {
    if s == "" || s[0] != '"' then Err("name expected")
    else
      match StringRest(s[1..], false)
      case Err(m) => Err(m)
      case Ok(afterName) =>
        var name := decode(s[1..][..|s| - 2 - |afterName|]);
        var colon := SkipSpace(afterName);
        if colon == "" || colon[0] != ':' then Err("colon expected")
        else
          match ParseValue(decode, SkipSpace(colon[1..]))
          case Err(m) => Err(m)
          case Ok(Parsed(json, r)) =>
            var t := SkipSpace(r);
            if t != "" && t[0] == ',' then ParseMembers(decode, SkipSpace(t[1..]), acc[name := json])
            else if t != "" && t[0] == '}' then Ok(Parsed(JObject(acc[name := json]), t[1..]))
            else Err("comma expected")
  }

  /** No raw control character and no unknown escape inside a string of a text without comments. */
  predicate Legible(s: string, m: Mode)
    requires m == Code || m == Str || m == Esc
  {
    s == "" ||
    match m
    case Code => Legible(s[1..], if s[0] == '"' then Str else Code)
    case Str => s[0] >= ' ' && Legible(s[1..], if s[0] == '\\' then Esc else if s[0] == '"' then Code else Str)
    case Esc => Escape(s) && Legible(s[1..], Str)
  }

  /** json.loads. Where it meets a bad character in a string it stops; the verdict is the same when all strings
      are looked at first. */
  function Loads(decode: string -> string, s: string): Res<Json> {
    if !Legible(s, Code) then Err("invalid character in a string") else
    match ParseValue(decode, SkipSpace(s))
    case Err(m) => Err(m)
    case Ok(Parsed(json, r)) => if SkipSpace(r) == "" then Ok(json) else Err("extra data")
  }

  /** Comments out, trailing commas out, then strict JSON. */
  function ParseJsonc(decode: string -> string, text: string): Res<Json> {
    match WithoutComments(text)
    case Err(m) => Err(m)
    case Ok(t) => Loads(decode, WithoutTrailingCommas(t))
  }
}
