/** Setting and removing one top-level property in the text: what the edits are
    (functions on texts), and the loops that make them. `decode` reads a string literal. */
module JsoncSurgeon {
  import opened JsoncText
  import opened JsoncGrammar
  import opened JsoncScan
  import opened LineText
  import opened Options

  // ---- the member walk ------------------------------------------------------------

  /** One top-level member; each place is the text from that place on. */
  datatype Member = Member(name: string, keyStart: string, valueStart: string, valueEnd: string, after: string)

  /** The value's place, behind the colon. The remover does not look at the colon itself (`strict` false). */
  function BehindColon(nameEnd: string, strict: bool): (r: Res<string>)
    ensures r.Ok? ==> |r.value| < |nameEnd|
  {
    match SkipTrivia(nameEnd)
    case Err(m) => Err(m)
    case Ok(colon) =>
      if colon == "" || (strict && colon[0] != ':') then Err("missing colon after top-level JSONC property")
      else SkipTrivia(colon[1..])
  }

  /** The rest of a member, from its value on. */
  function ReadValue(name: string, s: string, valueStart: string): (r: Res<Member>)
    ensures r.Ok? ==> |r.value.after| <= |r.value.valueEnd| <= |valueStart|
    ensures r.Ok? ==> r.value.valueStart == valueStart && r.value.keyStart == s && r.value.name == name
  {
    match ValueRest(valueStart)
    case Err(m) => Err(m)
    case Ok(valueEnd) =>
      match SkipTrivia(valueEnd)
      case Err(m) => Err(m)
      case Ok(after) => Ok(Member(name, s, valueStart, valueEnd, after))
  }

  /** The rest of a member, from behind its name on. */
  function ReadNamed(name: string, s: string, nameEnd: string, strict: bool): (r: Res<Member>)
    ensures r.Ok? ==> |r.value.after| <= |r.value.valueEnd| <= |r.value.valueStart| <= |nameEnd|
    ensures r.Ok? ==> r.value.keyStart == s && r.value.name == name
  {
    match BehindColon(nameEnd, strict)
    case Err(m) => Err(m)
    case Ok(valueStart) => ReadValue(name, s, valueStart)
  }

  /** The member whose name starts `s`. */
  function ReadMember(decode: string -> string, s: string, strict: bool): (r: Res<Member>)
    requires s != "" && s[0] == '"'
    ensures r.Ok? ==> |r.value.after| <= |r.value.valueEnd| <= |r.value.valueStart| < |s|
    ensures r.Ok? ==> r.value.keyStart == s
  {
    match StringRest(s[1..], false)
    case Err(m) => Err(m)
    case Ok(nameEnd) => ReadNamed(decode(s[1..][..|s| - 2 - |nameEnd|]), s, nameEnd, strict)
  }

  /** One turn of the walk: it fails, comes to the closing brace, or goes on behind a comma. */
  datatype FindTurn =
    | FindFail(message: string) | FindEnd(found: Option<Member>) | FindMore(from: string, found: Option<Member>)

  /** Where the walk goes behind a member. */
  function BehindMember(member: Member, found: Option<Member>): FindTurn {
    if member.after != "" && member.after[0] == ',' then FindMore(member.after[1..], found)
    else if member.after != "" && member.after[0] == '}' then FindEnd(found)
    else FindFail("missing comma after top-level JSONC property")
  }

  /** The turn of the walk at a property name. */
  function MemberTurn(decode: string -> string, t: string, key: string, found: Option<Member>): (r: FindTurn)
    requires t != "" && t[0] == '"'
    ensures r.FindMore? ==> |r.from| < |t|
    ensures (r.FindMore? || r.FindEnd?) && r.found.Some? && r.found != found ==> |r.found.value.valueStart| < |t|
  {
    match ReadMember(decode, t, true)
    case Err(m) => FindFail(m)
    case Ok(member) => BehindMember(member, if member.name == key then Some(member) else found)
  }

  function SpanTurn(decode: string -> string, s: string, key: string, found: Option<Member>): (r: FindTurn)
    ensures r.FindMore? ==> |r.from| < |s|
    ensures (r.FindMore? || r.FindEnd?) && r.found.Some? && r.found != found ==> |r.found.value.valueStart| < |s|
  {
    match SkipTrivia(s)
    case Err(m) => FindFail(m)
    case Ok(t) =>
      if t == "" then FindFail("unterminated JSONC root object")
      else if t[0] == '}' then FindEnd(found)
      else if t[0] != '"' then FindFail("top-level JSONC property name is not a string")
      else MemberTurn(decode, t, key, found)
  }

  /** The last member named `key` from `s` on, which stands behind a brace or a comma. */
  function SpanFrom(decode: string -> string, s: string, key: string, found: Option<Member>): (r: Res<Option<Member>>)
    ensures r.Ok? && r.value.Some? && r.value != found ==> |r.value.value.valueStart| < |s|
    decreases |s|
  {
    match SpanTurn(decode, s, key, found)
    case FindFail(m) => Err(m)
    case FindEnd(found') => Ok(found')
    case FindMore(from, found') => SpanFrom(decode, from, key, found')
  }

  function TopSpan(decode: string -> string, text: string, key: string): (r: Res<Option<Member>>)
    ensures r.Ok? && r.value.Some? ==> |r.value.value.valueStart| <= |text|
  {
    match SkipTrivia(text)
    case Err(m) => Err(m)
    case Ok(root) =>
      if root == "" || root[0] != '{' then Err("JSONC root is not an object")
      else SpanFrom(decode, root[1..], key, None)
  }

  /** Where the places of a member are in `text`. */
  datatype Spot = Spot(name: string, keyStart: nat, valueStart: nat, valueEnd: nat, after: nat)

  ghost predicate SpotIs(text: string, spot: Spot, m: Member) {
    && spot.name == m.name
    && spot.keyStart < spot.valueStart <= spot.valueEnd <= spot.after <= |text|
    && text[spot.keyStart..] == m.keyStart && text[spot.valueStart..] == m.valueStart
    && text[spot.valueEnd..] == m.valueEnd && text[spot.after..] == m.after
  }

  ghost predicate SpotOf(text: string, r: Res<Spot>, m: Res<Member>, keyStart: nat) {
    && (r.Ok? ==> m.Ok? && SpotIs(text, r.value, m.value) && r.value.keyStart == keyStart)
    && (r.Err? ==> m.Err?)
  }

  method ValueStartAt(text: string, nameEnd: nat, strict: bool) returns (r: Res<nat>)
    requires nameEnd <= |text|
    ensures r.Ok? ==> nameEnd < r.value && At(text, BehindColon(text[nameEnd..], strict), r.value)
    ensures r.Err? ==> BehindColon(text[nameEnd..], strict).Err?
  {
    var colon := SkipJsoncTrivia(text, nameEnd);
    if colon.Err? { return Err(colon.message); }
    if colon.value >= |text| || (strict && text[colon.value] != ':') {
      return Err("missing colon after top-level JSONC property");
    }
    Suffix(text, colon.value, colon.value + 1);
    r := SkipJsoncTrivia(text, colon.value + 1);
  }

  method ReadValueAt(text: string, name: string, keyStart: nat, valueStart: nat) returns (r: Res<Spot>)
    requires keyStart < valueStart <= |text|
    ensures SpotOf(text, r, ReadValue(name, text[keyStart..], text[valueStart..]), keyStart)
  {
    var valueEnd := ValueEnd(text, valueStart);
    if valueEnd.Err? { return Err(valueEnd.message); }
    var after := SkipJsoncTrivia(text, valueEnd.value);
    if after.Err? { return Err(after.message); }
    r := Ok(Spot(name, keyStart, valueStart, valueEnd.value, after.value));
  }

  method ReadNamedAt(text: string, name: string, keyStart: nat, nameEnd: nat, strict: bool) returns (r: Res<Spot>)
    requires keyStart < nameEnd <= |text|
    ensures SpotOf(text, r, ReadNamed(name, text[keyStart..], text[nameEnd..], strict), keyStart)
  {
    var valueStart := ValueStartAt(text, nameEnd, strict);
    if valueStart.Err? { return Err(valueStart.message); }
    r := ReadValueAt(text, name, keyStart, valueStart.value);
  }

  lemma NameAt(decode: string -> string, text: string, i: nat, nameEnd: nat, strict: bool)
    requires i + 1 < nameEnd <= |text| && text[i] == '"'
    requires StringRest(text[i + 1..], false) == Ok(text[nameEnd..])
    ensures ReadMember(decode, text[i..], strict)
         == ReadNamed(decode(text[i + 1..nameEnd - 1]), text[i..], text[nameEnd..], strict)
  {
    Suffix(text, i, i + 1);
    assert text[i..][1..][..|text[i..]| - 2 - |text[nameEnd..]|] == text[i + 1..nameEnd - 1];
  }

  lemma NoNameAt(decode: string -> string, text: string, i: nat, strict: bool)
    requires i < |text| && text[i] == '"' && StringRest(text[i + 1..], false).Err?
    ensures ReadMember(decode, text[i..], strict).Err?
  {
    Suffix(text, i, i + 1);
  }

  /** What the end of the name tells of the member. */
  ghost predicate NameTells(decode: string -> string, text: string, i: nat, strict: bool, nameEnd: Res<nat>)
    requires i < |text| && text[i] == '"'
  {
    var m := ReadMember(decode, text[i..], strict);
    match nameEnd
    case Err(_) => m.Err?
    case Ok(end) =>
      && i + 1 < end <= |text|
      && m == ReadNamed(decode(text[i + 1..end - 1]), text[i..], text[end..], strict)
  }

  lemma NameKnown(decode: string -> string, text: string, i: nat, strict: bool, nameEnd: Res<nat>)
    requires i < |text| && text[i] == '"'
    requires nameEnd.Ok? ==> i + 1 < nameEnd.value && At(text, StringRest(text[i + 1..], false), nameEnd.value)
    requires nameEnd.Err? ==> StringRest(text[i + 1..], false).Err?
    ensures NameTells(decode, text, i, strict, nameEnd)
  {
    match nameEnd
    case Ok(end) => NameAt(decode, text, i, end, strict);
    case Err(_) => NoNameAt(decode, text, i, strict);
  }

  method ReadMemberAt(decode: string -> string, text: string, i: nat, strict: bool) returns (r: Res<Spot>)
    requires i < |text| && text[i] == '"'
    ensures SpotOf(text, r, ReadMember(decode, text[i..], strict), i)
  {
    var nameEnd := StringEnd(text, i);
    NameKnown(decode, text, i, strict, nameEnd);
    if nameEnd.Err? { return Err(nameEnd.message); }
    r := ReadNamedAt(text, decode(text[i + 1..nameEnd.value - 1]), i, nameEnd.value, strict);
  }

  /** A found place and the member it is. */
  ghost predicate FoundIs(text: string, found: Option<Spot>, member: Option<Member>) {
    found.Some? == member.Some? && (found.Some? ==> SpotIs(text, found.value, member.value))
  }

  /** The turn of the walk at the property name at position k. */
  method MemberTurnAt(decode: string -> string, text: string, k: nat, key: string, found: Option<Spot>,
                      ghost member: Option<Member>)
    returns (message: string, more: bool, next: nat, found': Option<Spot>, ghost member': Option<Member>)
    requires k < |text| && text[k] == '"' && FoundIs(text, found, member)
    ensures var turn := MemberTurn(decode, text[k..], key, member);
            && (message != "" <==> turn.FindFail?)
            && (message == "" ==> (more <==> turn.FindMore?) && member' == turn.found)
            && (message == "" && more ==> k < next <= |text| && turn.from == text[next..])
    ensures FoundIs(text, found', member')
  {
    message, more, found', member', next := "", false, found, member, k;
    var spot := ReadMemberAt(decode, text, k, true);
    if spot.Err? { message := "malformed JSONC property"; return; }
    if spot.value.name == key {
      found' := Some(spot.value);
      member' := Some(ReadMember(decode, text[k..], true).value);
    }
    message, more, next := BehindMemberAt(text, spot.value.after, ReadMember(decode, text[k..], true).value, member');
  }

  method BehindMemberAt(text: string, after: nat, ghost m: Member, ghost found: Option<Member>)
    returns (message: string, more: bool, next: nat)
    requires after <= |text| && m.after == text[after..]
    ensures var turn := BehindMember(m, found);
            && (message != "" <==> turn.FindFail?)
            && (message == "" ==> (more <==> turn.FindMore?) && turn.found == found)
            && (message == "" && more ==> next == after + 1 <= |text| && turn.from == text[next..])
  {
    message, more, next := "", false, after;
    if next < |text| && text[next] == ',' {
      Suffix(text, next, next + 1);
      more, next := true, next + 1;
    } else if next >= |text| || text[next] != '}' {
      message := "missing comma after top-level JSONC property";
    }
  }

  /** One turn of the walk at position i. */
  method FindTurnAt(decode: string -> string, text: string, i: nat, key: string, found: Option<Spot>,
                    ghost member: Option<Member>)
    returns (message: string, more: bool, next: nat, found': Option<Spot>, ghost member': Option<Member>)
    requires i <= |text| && FoundIs(text, found, member)
    ensures var turn := SpanTurn(decode, text[i..], key, member);
            && (message != "" <==> turn.FindFail?)
            && (message == "" ==> (more <==> turn.FindMore?) && member' == turn.found)
            && (message == "" && more ==> i < next <= |text| && turn.from == text[next..])
    ensures FoundIs(text, found', member')
  {
    message, more, next, found', member' := "", false, i, found, member;
    var start := SkipJsoncTrivia(text, i);
    if start.Err? { message := "unterminated JSONC block comment"; return; }
    var k := start.value;
    if k >= |text| { message := "unterminated JSONC root object"; return; }
    if text[k] == '}' { return; }
    if text[k] != '"' { message := "top-level JSONC property name is not a string"; return; }
    message, more, next, found', member' := MemberTurnAt(decode, text, k, key, found, member);
  }

  method TopLevelValueSpan(decode: string -> string, text: string, key: string)
    returns (r: Res<Option<Spot>>, ghost member: Option<Member>)
    ensures r.Err? ==> TopSpan(decode, text, key).Err?
    ensures r.Ok? ==> TopSpan(decode, text, key) == Ok(member) && FoundIs(text, r.value, member)
  {
    member := None;
    assert text[0..] == text;
    var root := SkipJsoncTrivia(text, 0);
    if root.Err? { return Err(root.message), member; }
    if root.value >= |text| || text[root.value] != '{' { return Err("JSONC root is not an object"), member; }
    assert text[root.value..][1..] == text[root.value + 1..];
    var found: Option<Spot> := None;
    var i, more := root.value + 1, true;
    while more
      invariant i <= |text| && FoundIs(text, found, member)
      invariant TopSpan(decode, text, key) == if more then SpanFrom(decode, text[i..], key, member) else Ok(member)
      decreases |text| - i, more
    {
      var message, next;
      message, more, next, found, member := FindTurnAt(decode, text, i, key, found, member);
      if message != "" { return Err(message), member; }
      if more { i := next; }
    }
    return Ok(found), member;
  }

  // ---- line layout of a serialized value ----------------------------------------------

  function JoinIndented(lines: seq<string>, indent: string): string {
    if lines == [] then "" else "\n" + indent + lines[0] + JoinIndented(lines[1..], indent)
  }

  /** The first line as it is, every other behind a newline and the indent. */
  function Reindent(serialized: string, indent: string): string
    requires serialized != ""
  {
    FirstLine(serialized) + JoinIndented(SplitLines(AfterFirstLine(serialized)), indent)
  }

  method ReindentLines(serialized: string, indent: string) returns (r: string)
    requires serialized != ""
    ensures r == Reindent(serialized, indent)
  {
    var lines := SplitLines(serialized);
    assert lines[1..] == SplitLines(AfterFirstLine(serialized));
    r := lines[0];
    for i := 1 to |lines|
      invariant Reindent(serialized, indent) == r + JoinIndented(lines[i..], indent)
    {
      assert lines[i..][1..] == lines[i + 1..];
      ghost var before := r;
      r := r + ("\n" + indent + lines[i]);
      assert before + (("\n" + indent + lines[i]) + JoinIndented(lines[i + 1..], indent))
          == r + JoinIndented(lines[i + 1..], indent);
    }
    assert r + "" == r;
  }

  predicate Blank(c: char) {
    c == ' ' || c == '\t'
  }

  function LeadBlanks(s: string): string {
    if s != "" && Blank(s[0]) then [s[0]] + LeadBlanks(s[1..]) else ""
  }

  /** The text of the last, unfinished line. */
  function LastLine(s: string): string {
    if s == "" || s[|s| - 1] == '\n' then "" else LastLine(s[..|s| - 1]) + [s[|s| - 1]]
  }

  /** The indentation of the line a value stands on; `before` is all text in front of it. */
  function LineIndent(before: string): string {
    LeadBlanks(LastLine(before))
  }

  /** The first line of `s` that is blanks and then a quote gives its blanks. */
  function FirstMemberIndent(s: string): Option<string>
    decreases |s|
  {
    if s == "" then None
    else
      var blanks := LeadBlanks(s);
      if blanks != "" && |blanks| < |s| && s[|blanks|] == '"' then Some(blanks)
      else FirstMemberIndent(AfterNewline(s))
  }

  // ---- set --------------------------------------------------------------------------

  function Front(text: string, from: string): string
    requires |from| <= |text|
  {
    text[..|text| - |from|]
  }

  /** The text with the value of one member exchanged. */
  function ReplaceEdit(text: string, m: Member, serialized: string): string
    requires |m.valueStart| <= |text| && serialized != ""
  {
    var before := Front(text, m.valueStart);
    before + Indented(serialized, LineIndent(before)) + m.valueEnd
  }

  function Indented(serialized: string, indent: string): string
    requires serialized != ""
  {
    if '\n' in serialized then Reindent(serialized, indent) else serialized
  }

  /** The indentation for a new member of the root object that starts at `root`. */
  function MemberIndent(text: string, root: string): string
    requires |root| <= |text|
  {
    var stripped := WithoutComments(text);
    var end := ValueRest(root);
    if stripped.Err? || end.Err? || |stripped.value| != |text| || |root| < 2 + |end.value| then "  "
    else
      var inside := stripped.value[|text| - |root| + 1..|text| - |end.value| - 1];
      var found := FirstMemberIndent(inside);
      if found.Some? then found.value else "  "
  }

  /** The text with a new first member. */
  function InsertEdit(text: string, root: string, indent: string, keyToken: string, serialized: string,
                      others: bool): string
    requires root != "" && |root| <= |text| && serialized != ""
  {
    text[..|text| - |root| + 1] + "\n" + indent + keyToken + ": " + Reindent(serialized, indent)
    + (if others then "," else "") + root[1..]
  }

  /** dict.get: a missing key reads as null. */
  function Get(members: map<string, Json>, key: string): Json {
    if key in members then members[key] else JScalar("null")
  }

  const NAN := "NaN"

  /** Python's equality of two parsed values: NaN differs from itself. Inside a list or a dictionary it does
      not, since json.loads gives one and the same object for it and those compare identity first. */
  predicate Equal(a: Json, b: Json) {
    a == b && a != JScalar(NAN)
  }

  /** The self-check: the edited text still parses, to an object that has the value under the key. */
  function Checked(decode: string -> string, result: string, key: string, serialized: string): Res<string> {
    var reparsed := ParseJsonc(decode, result);
    var wanted := Loads(decode, serialized);
    if reparsed.Ok? && reparsed.value.JObject? && wanted.Ok?
       && Equal(Get(reparsed.value.members, key), wanted.value)
    then Ok(result)
    else Err("could not set top-level JSONC property")
  }

  /** The edit for a key that is there: `m` is its last occurrence. */
  function SetPresent(decode: string -> string, text: string, m: Member, key: string, serialized: string): Res<string>
    requires |m.valueStart| <= |text| && serialized != ""
  {
    Checked(decode, ReplaceEdit(text, m, serialized), key,
            Indented(serialized, LineIndent(Front(text, m.valueStart))))
  }

  /** The edit for a key that is not there. */
  function SetAbsent(decode: string -> string, text: string, key: string, keyToken: string, serialized: string,
                     others: bool): Res<string>
    requires serialized != ""
  {
    var root := SkipTrivia(text);
    if root.Err? || root.value == "" then Err("JSONC root is not an object")
    else if ValueRest(root.value).Err? then Err("unterminated JSON value")
    else
      Checked(decode, InsertEdit(text, root.value, MemberIndent(text, root.value), keyToken, serialized, others),
              key, serialized)
  }

  /** `keyToken` and `serialized` are the JSON texts of the key and of the value. */
  function SetEdit(decode: string -> string, text: string, key: string, keyToken: string, serialized: string)
    : Res<string>
    requires serialized != ""
  {
    var parsed := ParseJsonc(decode, text);
    if parsed.Err? then Err(parsed.message)
    else if !parsed.value.JObject? then Err("JSONC root is not an object")
    else
      var span := TopSpan(decode, text, key);
      if span.Err? then Err(span.message)
      else if span.value.Some? then SetPresent(decode, text, span.value.value, key, serialized)
      else SetAbsent(decode, text, key, keyToken, serialized, parsed.value.members != map[])
  }

  method Parse(decode: string -> string, text: string) returns (r: Res<Json>)
    ensures r == ParseJsonc(decode, text)
  {
    var stripped := StripComments(text);
    if stripped.Err? { return Err(stripped.message); }
    var clean := StripTrailingCommas(stripped.value);
    r := Loads(decode, clean);
  }

  method IndentBefore(text: string, start: nat) returns (indent: string)
    requires start <= |text|
    ensures indent == LineIndent(text[..start])
  {
    var lineStart := start;
    while lineStart > 0 && text[lineStart - 1] != '\n'
      invariant 0 <= lineStart <= start
      invariant LastLine(text[..start]) == LastLine(text[..lineStart]) + text[lineStart..start]
    {
      ghost var s := text[..lineStart];
      assert s[..|s| - 1] == text[..lineStart - 1] && s[|s| - 1] == text[lineStart - 1];
      assert [text[lineStart - 1]] + text[lineStart..start] == text[lineStart - 1..start];
      assert (LastLine(text[..lineStart - 1]) + [text[lineStart - 1]]) + text[lineStart..start]
          == LastLine(text[..lineStart - 1]) + text[lineStart - 1..start];
      lineStart := lineStart - 1;
    }
    assert LastLine(text[..lineStart]) == "" && "" + text[lineStart..start] == text[lineStart..start];
    indent := LeadBlanks(text[lineStart..start]);
  }

  method CheckSet(decode: string -> string, result: string, key: string, serialized: string) returns (r: Res<string>)
    ensures r == Checked(decode, result, key, serialized)
  {
    var reparsed := Parse(decode, result);
    var wanted := Loads(decode, serialized);
    if reparsed.Err? || !reparsed.value.JObject? || wanted.Err?
       || !Equal(Get(reparsed.value.members, key), wanted.value) {
      return Err("could not set top-level JSONC property");
    }
    return Ok(result);
  }

  method SetAtSpan(decode: string -> string, text: string, start: nat, end: nat, key: string, serialized: string,
                   ghost m: Member)
    returns (r: Res<string>)
    requires serialized != "" && start <= |text| && end <= |text|
    requires m.valueStart == text[start..] && m.valueEnd == text[end..]
    ensures r == SetPresent(decode, text, m, key, serialized)
  {
    assert Front(text, m.valueStart) == text[..start];
    var indent := IndentBefore(text, start);
    var rendered := serialized;
    if '\n' in serialized {
      rendered := ReindentLines(serialized, indent);
    }
    r := CheckSet(decode, text[..start] + rendered + text[end..], key, rendered);
  }

  method InsertMember(decode: string -> string, text: string, key: string, keyToken: string, serialized: string,
                      others: bool)
    returns (r: Res<string>)
    requires serialized != ""
    ensures r.Ok? ==> SetAbsent(decode, text, key, keyToken, serialized, others) == r
    ensures r.Err? ==> SetAbsent(decode, text, key, keyToken, serialized, others).Err?
  {
    assert text[0..] == text;
    var rootStart := SkipJsoncTrivia(text, 0);
    if rootStart.Err? || rootStart.value >= |text| { return Err("JSONC root is not an object"); }
    var root := rootStart.value;
    var rootEnd := ValueEnd(text, root);
    if rootEnd.Err? { return Err(rootEnd.message); }
    var indent := MemberIndent(text, text[root..]);
    var rendered := ReindentLines(serialized, indent);
    var result := text[..root + 1] + "\n" + indent + keyToken + ": " + rendered
                  + (if others then "," else "") + text[root + 1..];
    assert text[root..][1..] == text[root + 1..];
    r := CheckSet(decode, result, key, serialized);
  }

  method SetTopLevelValue(decode: string -> string, text: string, key: string, keyToken: string, serialized: string)
    returns (r: Res<string>)
    requires serialized != ""
    ensures r.Ok? ==> SetEdit(decode, text, key, keyToken, serialized) == r
    ensures r.Err? ==> SetEdit(decode, text, key, keyToken, serialized).Err?
  {
    var parsed := Parse(decode, text);
    if parsed.Err? { return Err(parsed.message); }
    if !parsed.value.JObject? { return Err("JSONC root is not an object"); }
    var span, member := TopLevelValueSpan(decode, text, key);
    if span.Err? { return Err(span.message); }
    if span.value.Some? {
      var Spot(_, _, start, end, _) := span.value.value;
      r := SetAtSpan(decode, text, start, end, key, serialized, member.value);
    } else {
      r := InsertMember(decode, text, key, keyToken, serialized, parsed.value.members != map[]);
    }
  }

  // ---- remove -----------------------------------------------------------------------

  /** A pair to remove: where it starts, where its value ends, and what follows the trivia behind. */
  datatype Span = Span(keyStart: nat, valueEnd: nat, after: nat)

  /** One turn of the remover's walk: it fails, stops, or goes on behind a comma. */
  datatype Turn = Fail(message: string) | Stop(members: seq<Member>) | More(from: string, members: seq<Member>)

  /** Where the remover goes behind a pair. */
  function BehindPair(member: Member, acc: seq<Member>): Turn {
    if member.after != "" && member.after[0] == ',' then More(member.after[1..], acc) else Stop(acc)
  }

  /** The turn of the remover at a property name. */
  function PairTurn(decode: string -> string, t: string, key: string, acc: seq<Member>): (r: Turn)
    requires t != "" && t[0] == '"'
    ensures r.More? ==> |r.from| < |t|
  {
    match ReadMember(decode, t, false)
    case Err(m) => Fail(m)
    case Ok(member) => BehindPair(member, if member.name == key then acc + [member] else acc)
  }

  function SpansTurn(decode: string -> string, s: string, key: string, acc: seq<Member>): (r: Turn)
    ensures r.More? ==> |r.from| < |s|
  {
    match SkipTrivia(s)
    case Err(m) => Fail(m)
    case Ok(t) =>
      if t == "" || t[0] == '}' then Stop(acc)
      else if t[0] != '"' then Fail("top-level JSONC property name is not a string")
      else PairTurn(decode, t, key, acc)
  }

  /** The pairs named `key` from `s` on. */
  function SpansFrom(decode: string -> string, s: string, key: string, acc: seq<Member>): Res<seq<Member>>
    decreases |s|
  {
    match SpansTurn(decode, s, key, acc)
    case Fail(m) => Err(m)
    case Stop(members) => Ok(members)
    case More(from, members) => SpansFrom(decode, from, key, members)
  }

  function SpanOf(text: string, m: Member): Span
    requires |m.keyStart| <= |text| && |m.valueEnd| <= |text| && |m.after| <= |text|
  {
    Span(|text| - |m.keyStart|, |text| - |m.valueEnd|, |text| - |m.after|)
  }

  // Python slices: an offset past the end is the end.
  function Take(s: string, n: nat): string { if n <= |s| then s[..n] else s }
  function Drop(s: string, n: nat): string { if n <= |s| then s[n..] else "" }

  /** The last comma of `front`, when only whitespace and commas follow it and it lies behind `root`. */
  function BackComma(front: string, root: nat): (r: Option<nat>)
    ensures r.Some? ==> root < r.value < |front|
  {
    if |front| <= root + 1 then None
    else
      var c := front[|front| - 1];
      if c == ',' then Some(|front| - 1)
      else if IsSpace(c) then BackComma(front[..|front| - 1], root)
      else None
  }

  /** One pair and one comma go: the comma behind it, else the comma in front of it. */
  function Cut(s: string, span: Span, root: nat): string {
    if span.after < |s| && s[span.after] == ',' then Take(s, span.keyStart) + Drop(s, span.after + 1)
    else
      match BackComma(Take(s, span.keyStart), root)
      case Some(j) => Take(s, j) + Drop(s, span.valueEnd)
      case None => Take(s, span.keyStart) + Drop(s, span.valueEnd)
  }

  /** The last span first, so that the offsets of the earlier ones stay good. */
  function CutAll(text: string, spans: seq<Span>, root: nat): string {
    if spans == [] then text else Cut(CutAll(text, spans[1..], root), spans[0], root)
  }

  function SpanIn(text: string, m: Member): Span {
    if |m.keyStart| <= |text| && |m.valueEnd| <= |text| && |m.after| <= |text| then SpanOf(text, m) else Span(0, 0, 0)
  }

  function SpansOf(text: string, members: seq<Member>): seq<Span> {
    if members == [] then [] else SpansOf(text, members[..|members| - 1]) + [SpanIn(text, members[|members| - 1])]
  }

  /** The self-check behind the cuts: the text parses to an object without the key. */
  predicate Gone(decode: string -> string, text: string, key: string) {
    var parsed := ParseJsonc(decode, text);
    parsed.Ok? && parsed.value.JObject? && key !in parsed.value.members
  }

  function CheckedGone(decode: string -> string, result: string, key: string): Res<string> {
    if Gone(decode, result, key) then Ok(result) else Err("could not remove top-level JSONC property")
  }

  /** The edit for a text whose root object starts at `root`. */
  function RemoveFrom(decode: string -> string, text: string, root: string, key: string): Res<string>
    requires |root| <= |text|
  {
    if root == "" || root[0] != '{' then Err("JSONC root is not an object")
    else
      var members := SpansFrom(decode, root[1..], key, []);
      if members.Err? then Err(members.message)
      else if members.value == [] then Ok(text)
      else CheckedGone(decode, CutAll(text, SpansOf(text, members.value), |text| - |root|), key)
  }

  function RemoveEdit(decode: string -> string, text: string, key: string): Res<string> {
    var parsed := ParseJsonc(decode, text);
    if parsed.Err? then Err(parsed.message)
    else if !parsed.value.JObject? || key !in parsed.value.members then Ok(text)
    else
      var root := SkipTrivia(text);
      if root.Err? then Err("JSONC root is not an object") else RemoveFrom(decode, text, root.value, key)
  }

  method CutSpan(s: string, span: Span, root: nat) returns (r: string)
    ensures r == Cut(s, span, root)
  {
    if span.after < |s| && s[span.after] == ',' {
      return Take(s, span.keyStart) + Drop(s, span.after + 1);
    }
    var front := Take(s, span.keyStart);
    var j: int := |front| - 1;
    assert front[..j + 1] == front;
    while j > root && (IsSpace(front[j]) || front[j] == ',')
      invariant -1 <= j < |front|
      invariant BackComma(front, root) == BackComma(front[..j + 1], root)
    {
      if front[j] == ',' {
        assert front[..j] == s[..j];
        return Take(s, j) + Drop(s, span.valueEnd);
      }
      assert front[..j + 1][..j] == front[..j];
      j := j - 1;
    }
    return front + Drop(s, span.valueEnd);
  }

  /** The turn of the remover at the property name at position k. */
  method CollectPair(decode: string -> string, text: string, k: nat, key: string, spans: seq<Span>,
                     ghost members: seq<Member>)
    returns (ok: bool, more: bool, next: nat, spans': seq<Span>, ghost members': seq<Member>)
    requires k < |text| && text[k] == '"' && spans == SpansOf(text, members)
    ensures var turn := PairTurn(decode, text[k..], key, members);
            && (ok <==> !turn.Fail?) && (ok && more <==> turn.More?)
            && (ok && more ==> k < next <= |text| && turn.from == text[next..])
            && (ok ==> members' == turn.members)
    ensures ok ==> spans' == SpansOf(text, members')
  {
    ok, spans', members', more, next := true, spans, members, false, k;
    var spot := ReadMemberAt(decode, text, k, false);
    if spot.Err? { ok := false; return; }
    ghost var m := ReadMember(decode, text[k..], false).value;
    if spot.value.name == key {
      assert SpanIn(text, m) == Span(spot.value.keyStart, spot.value.valueEnd, spot.value.after);
      spans' := spans + [Span(spot.value.keyStart, spot.value.valueEnd, spot.value.after)];
      members' := members + [m];
    }
    next := spot.value.after;
    if next < |text| && text[next] == ',' {
      Suffix(text, next, next + 1);
      more, next := true, next + 1;
    }
  }

  /** One turn of the remover at position i. */
  method CollectTurn(decode: string -> string, text: string, i: nat, key: string, spans: seq<Span>,
                     ghost members: seq<Member>)
    returns (ok: bool, more: bool, next: nat, spans': seq<Span>, ghost members': seq<Member>)
    requires i <= |text| && spans == SpansOf(text, members)
    ensures var turn := SpansTurn(decode, text[i..], key, members);
            && (ok <==> !turn.Fail?) && (ok && more <==> turn.More?)
            && (ok && more ==> i < next <= |text| && turn.from == text[next..])
            && (ok ==> members' == turn.members)
    ensures ok ==> spans' == SpansOf(text, members')
  {
    spans', members', more, next := spans, members, false, i;
    var start := SkipJsoncTrivia(text, i);
    if start.Err? { ok := false; return; }
    ok := true;
    var k := start.value;
    if k >= |text| || text[k] == '}' { return; }
    if text[k] != '"' { ok := false; return; }
    ok, more, next, spans', members' := CollectPair(decode, text, k, key, spans, members);
  }

  method CollectSpans(decode: string -> string, text: string, root: nat, key: string)
    returns (r: Res<seq<Span>>, ghost members: seq<Member>)
    requires root < |text|
    ensures r.Err? ==> SpansFrom(decode, text[root + 1..], key, []).Err?
    ensures r.Ok? ==> SpansFrom(decode, text[root + 1..], key, []) == Ok(members) && r.value == SpansOf(text, members)
  {
    var spans: seq<Span> := [];
    members := [];
    var i, more := root + 1, true;
    ghost var all := SpansFrom(decode, text[i..], key, members);
    while more
      invariant i <= |text|
      invariant spans == SpansOf(text, members)
      invariant all == if more then SpansFrom(decode, text[i..], key, members) else Ok(members)
      decreases |text| - i, more
    {
      var ok, next;
      ok, more, next, spans, members := CollectTurn(decode, text, i, key, spans, members);
      if !ok { return Err("malformed top-level JSONC property"), members; }
      if more { i := next; }
    }
    return Ok(spans), members;
  }

  method CutBackToFront(text: string, spans: seq<Span>, root: nat) returns (result: string)
    ensures result == CutAll(text, spans, root)
  {
    result := text;
    var n := |spans|;
    while n > 0
      invariant 0 <= n <= |spans|
      invariant result == CutAll(text, spans[n..], root)
    {
      n := n - 1;
      assert spans[n..][1..] == spans[n + 1..];
      result := CutSpan(result, spans[n], root);
    }
    assert spans[0..] == spans;
  }

  method CutNamed(decode: string -> string, text: string, root: nat, key: string) returns (r: Res<string>)
    requires root < |text| && text[root] == '{'
    ensures r.Ok? ==> RemoveFrom(decode, text, text[root..], key) == r
    ensures r.Err? ==> RemoveFrom(decode, text, text[root..], key).Err?
  {
    assert text[root..][1..] == text[root + 1..];
    var spans, members := CollectSpans(decode, text, root, key);
    if spans.Err? { return Err(spans.message); }
    if spans.value == [] { return Ok(text); }
    assert members != [];
    var result := CutBackToFront(text, spans.value, root);
    var reparsed := Parse(decode, result);
    if reparsed.Err? || !reparsed.value.JObject? || key in reparsed.value.members {
      return Err("could not remove top-level JSONC property");
    }
    return Ok(result);
  }

  method RemoveTopLevelValue(decode: string -> string, text: string, key: string) returns (r: Res<string>)
    ensures r.Ok? ==> RemoveEdit(decode, text, key) == r
    ensures r.Err? ==> RemoveEdit(decode, text, key).Err?
  {
    var parsed := Parse(decode, text);
    if parsed.Err? { return Err(parsed.message); }
    if !parsed.value.JObject? || key !in parsed.value.members { return Ok(text); }
    assert text[0..] == text;
    var root := SkipJsoncTrivia(text, 0);
    if root.Err? || root.value >= |text| || text[root.value] != '{' { return Err("JSONC root is not an object"); }
    r := CutNamed(decode, text, root.value, key);
  }
}
