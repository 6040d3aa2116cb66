/** The member walks on a raw text and on the text without comments: the same members at the same offsets. */
module JsoncTwins {
  import opened JsoncText
  import opened JsoncLaws
  import opened JsoncSurgeon
  import opened Options

  predicate StartsComment(s: string) {
    StartsLine(s) || StartsBlock(s)
  }

  /** The value's first character; the walk has skipped the trivia in front of it already. */
  predicate IsScalar(m: Member) {
    var v := SkipTrivia(m.valueStart);
    v.Ok? && v.value != "" && v.value[0] != '"' && !Opens(v.value[0])
  }

  /** No quote inside a scalar, as in every JSON text. */
  predicate Unquoted(m: Member) {
    IsScalar(m) ==>
      var v := SkipTrivia(m.valueStart).value;
      |m.valueEnd| <= |v| && '"' !in v[..|v| - |m.valueEnd|]
  }

  /** The scalars of all members that the walk passes are without quotes. */
  predicate AllUnquoted(decode: string -> string, s: string)
    decreases |s|
  {
    match SkipTrivia(s)
    case Err(_) => true
    case Ok(t) =>
      t == "" || t[0] != '"' ||
      match ReadMember(decode, t, true)
      case Err(_) => true
      case Ok(m) => Unquoted(m) && (m.after != "" && m.after[0] == ',' ==> AllUnquoted(decode, m.after[1..]))
  }

  /** One member, on the raw text and on the stripped one: all places are the same, but for the end of a
      scalar, which on the stripped text takes the trivia behind it along. */
  ghost predicate SameMember(m: Member, n: Member) {
    && m.name == n.name && Twins(m.keyStart, n.keyStart) && Twins(m.valueStart, n.valueStart)
    && Twins(m.after, n.after)
    && (if IsScalar(m) then n.valueEnd == n.after else Twins(m.valueEnd, n.valueEnd))
    && (IsScalar(m) && !StartsComment(m.valueEnd) ==> Twins(m.valueEnd, n.valueEnd))
  }

  ghost predicate SameFound(m: Option<Member>, n: Option<Member>) {
    m.Some? == n.Some? && (m.Some? ==> SameMember(m.value, n.value))
  }

  ghost predicate SameMembers(ms: seq<Member>, ns: seq<Member>) {
    |ms| == |ns| && forall i | 0 <= i < |ms| :: SameMember(ms[i], ns[i])
  }

  predicate ClosesMember(s: string) {
    s != "" && (s[0] == ',' || s[0] == '}')
  }

  lemma SameNames(s: string, t: string, r: string, b: string)
    requires |r| == |b| < |s| == |t| && t == s[..|s| - |r|] + b
    ensures s[..|s| - 1 - |r|] == t[..|t| - 1 - |b|]
  {
    var lit := s[..|s| - |r|];
    assert lit[..|lit| - 1] == s[..|s| - 1 - |r|] && lit[..|lit| - 1] == t[..|t| - 1 - |b|];
  }

  lemma NameAgrees(raw: string, blank: string)
    requires Twins(raw, blank) && raw != "" && raw[0] == '"' && StringRest(raw[1..], false).Ok?
    ensures blank != "" && blank[0] == '"' && StringRest(blank[1..], false).Ok?
    ensures var r, b := StringRest(raw[1..], false).value, StringRest(blank[1..], false).value;
            Twins(r, b) && raw[1..][..|raw| - 2 - |r|] == blank[1..][..|blank| - 2 - |b|]
  {
    StringEndsAgree(raw, blank);
    StringsAreKept(raw[1..], false);
    TwinsSameLength(raw, blank);
    var r, b := StringRest(raw[1..], false).value, StringRest(blank[1..], false).value;
    TwinsSameLength(r, b);
    SameNames(raw[1..], blank[1..], r, b);
  }

  lemma ColonAgrees(raw: string, blank: string)
    requires Twins(raw, blank) && BehindColon(raw, true).Ok?
    ensures BehindColon(blank, true).Ok? && Twins(BehindColon(raw, true).value, BehindColon(blank, true).value)
  {
    TriviaAgrees(raw, blank);
    var colon, colon' := SkipTrivia(raw).value, SkipTrivia(blank).value;
    TwinsAfterChar(colon, colon');
    TriviaAgrees(colon[1..], colon'[1..]);
  }

  lemma {:induction false} SkipTwice(s: string)
    requires SkipTrivia(s).Ok?
    ensures SkipTrivia(SkipTrivia(s).value) == SkipTrivia(s)
    decreases |s|
  {
    if s != "" {
      if IsSpace(s[0]) { SkipTwice(s[1..]); }
      else if StartsLine(s) { SkipTwice(AfterNewline(s[2..])); }
      else if StartsBlock(s) { SkipTwice(AfterClose(s[2..]).value); }
    }
  }

  /** A scalar that a comma or the closing brace follows, behind any trivia. */
  lemma ScalarAgrees(raw: string, blank: string)
    requires Twins(raw, blank) && raw != "" && raw[0] != '"' && !Opens(raw[0]) && SkipTrivia(raw) == Ok(raw)
    requires '"' !in raw[..|raw| - |ScalarRest(raw)|]
    requires SkipTrivia(ScalarRest(raw)).Ok? && ClosesMember(SkipTrivia(ScalarRest(raw)).value)
    ensures ValueRest(blank) == Ok(ScalarRest(blank)) && SkipTrivia(ScalarRest(blank)) == Ok(ScalarRest(blank))
    ensures Twins(SkipTrivia(ScalarRest(raw)).value, ScalarRest(blank))
    ensures !StartsComment(ScalarRest(raw)) ==> Twins(ScalarRest(raw), ScalarRest(blank))
  {
    var r := ScalarRest(raw);
    TriviaAgrees(raw, blank);
    TwinsAfterFirst(raw, blank);
    ScalarEndsAgree(raw, blank);
    var b := Strip(r, Code).value;
    ScalarOverTrivia(r, b);
    TriviaAgrees(r, b);
    SkipTwice(b);
  }

  lemma TwinsAfterFirst(raw: string, blank: string)
    requires Twins(raw, blank) && raw != "" && raw[0] != '"' && SkipTrivia(raw) == Ok(raw)
    ensures blank != "" && blank[0] == raw[0] && SkipTrivia(blank) == Ok(blank)
  {
    if StartsLine(raw) {
    } else if StartsBlock(raw) {
    } else {
      TwinsAfterChar(raw, blank);
    }
  }

  /** A value and the trivia behind it. */
  lemma ValueAgrees(m: Member, raw: string, blank: string)
    requires Twins(raw, blank) && SkipTrivia(raw) == Ok(raw)
    requires m.valueStart == raw && ValueRest(raw) == Ok(m.valueEnd) && SkipTrivia(m.valueEnd) == Ok(m.after)
    requires Unquoted(m) && ClosesMember(m.after)
    ensures ValueRest(blank).Ok? && SkipTrivia(ValueRest(blank).value).Ok?
    ensures var end := ValueRest(blank).value;
            && Twins(m.after, SkipTrivia(end).value)
            && (if IsScalar(m) then end == SkipTrivia(end).value else Twins(m.valueEnd, end))
            && (IsScalar(m) && !StartsComment(m.valueEnd) ==> Twins(m.valueEnd, end))
  {
    if IsScalar(m) {
      ScalarAgrees(raw, blank);
    } else {
      ValueEndsAgree(raw, blank);
      TriviaAgrees(m.valueEnd, ValueRest(blank).value);
    }
  }

  /** The member at a property name. */
  lemma MemberAgrees(decode: string -> string, raw: string, blank: string)
    requires Twins(raw, blank) && raw != "" && raw[0] == '"' && ReadMember(decode, raw, true).Ok?
    requires Unquoted(ReadMember(decode, raw, true).value)
    requires ClosesMember(ReadMember(decode, raw, true).value.after)
    ensures blank != "" && blank[0] == '"' && ReadMember(decode, blank, true).Ok?
    ensures SameMember(ReadMember(decode, raw, true).value, ReadMember(decode, blank, true).value)
  {
    var m := ReadMember(decode, raw, true).value;
    NameAgrees(raw, blank);
    var nameEnd, nameEnd' := StringRest(raw[1..], false).value, StringRest(blank[1..], false).value;
    ColonAgrees(nameEnd, nameEnd');
    SkipTwice(SkipTrivia(nameEnd).value[1..]);
    ValueAgrees(m, m.valueStart, BehindColon(nameEnd', true).value);
  }

  /** A member that is read with its colon is read alike by the remover. */
  lemma StrictIsLoose(decode: string -> string, s: string)
    requires s != "" && s[0] == '"' && ReadMember(decode, s, true).Ok?
    ensures ReadMember(decode, s, false) == ReadMember(decode, s, true)
  {
  }

  lemma MarkAgrees(m: Member, n: Member)
    requires SameMember(m, n) && ClosesMember(m.after)
    ensures n.after != "" && n.after[0] == m.after[0] && Twins(m.after[1..], n.after[1..])
  {
    TwinsAfterChar(m.after, n.after);
  }

  /** Where the walk stands in front of a member, on both texts. */
  lemma StartAgrees(s: string, b: string)
    requires Twins(s, b) && SkipTrivia(s).Ok? && SkipTrivia(s).value != ""
    ensures SkipTrivia(b).Ok? && SkipTrivia(b).value != "" && SkipTrivia(b).value[0] == SkipTrivia(s).value[0]
    ensures Twins(SkipTrivia(s).value, SkipTrivia(b).value)
  {
    TriviaAgrees(s, b);
    SkipTwice(s);
    if SkipTrivia(s).value[0] != '"' { TwinsAfterFirst(SkipTrivia(s).value, SkipTrivia(b).value); }
  }

  /** The span walk finds the same member at the same offsets. */
  lemma {:induction false} SpanAgrees(decode: string -> string, s: string, b: string, key: string,
                                      found: Option<Member>, found': Option<Member>)
    requires Twins(s, b) && SameFound(found, found') && AllUnquoted(decode, s)
    requires SpanFrom(decode, s, key, found).Ok?
    ensures SpanFrom(decode, b, key, found').Ok?
    ensures SameFound(SpanFrom(decode, s, key, found).value, SpanFrom(decode, b, key, found').value)
    decreases |s|
  {
    StartAgrees(s, b);
    var t, u := SkipTrivia(s).value, SkipTrivia(b).value;
    if t[0] != '}' {
      var m := ReadMember(decode, t, true).value;
      MemberAgrees(decode, t, u);
      var n := ReadMember(decode, u, true).value;
      MarkAgrees(m, n);
      if m.after[0] == ',' {
        var next, next' := if m.name == key then Some(m) else found, if n.name == key then Some(n) else found';
        SpanAgrees(decode, m.after[1..], n.after[1..], key, next, next');
      }
    }
  }

  lemma SameMembersMore(ms: seq<Member>, ns: seq<Member>, m: Member, n: Member)
    requires SameMembers(ms, ns) && SameMember(m, n)
    ensures SameMembers(ms + [m], ns + [n])
  {
  }

  lemma PairAgrees(decode: string -> string, t: string, u: string) returns (m: Member, n: Member)
    requires Twins(t, u) && t != "" && t[0] == '"' && ReadMember(decode, t, true).Ok?
    requires Unquoted(ReadMember(decode, t, true).value) && ClosesMember(ReadMember(decode, t, true).value.after)
    ensures u != "" && u[0] == '"' && SameMember(m, n)
    ensures ReadMember(decode, t, true) == Ok(m) && ReadMember(decode, t, false) == Ok(m)
    ensures ReadMember(decode, u, true) == Ok(n) && ReadMember(decode, u, false) == Ok(n)
    ensures n.after != "" && n.after[0] == m.after[0] && Twins(m.after[1..], n.after[1..])
  {
    MemberAgrees(decode, t, u);
    m, n := ReadMember(decode, t, true).value, ReadMember(decode, u, true).value;
    StrictIsLoose(decode, t);
    StrictIsLoose(decode, u);
    MarkAgrees(m, n);
  }

  lemma TurnsAgree(decode: string -> string, s: string, b: string, key: string, found: Option<Member>,
                   acc: seq<Member>, acc': seq<Member>)
    requires Twins(s, b) && SameMembers(acc, acc') && AllUnquoted(decode, s)
    requires SpanFrom(decode, s, key, found).Ok?
    ensures var x, y := SpansTurn(decode, s, key, acc), SpansTurn(decode, b, key, acc');
            match x
            case Fail(_) => false
            case Stop(ms) => y.Stop? && SameMembers(ms, y.members)
            case More(from, ms) =>
              && y.More? && SameMembers(ms, y.members) && Twins(from, y.from) && AllUnquoted(decode, from)
              && SpanTurn(decode, s, key, found).FindMore? && SpanTurn(decode, s, key, found).from == from
  {
    StartAgrees(s, b);
    var t, u := SkipTrivia(s).value, SkipTrivia(b).value;
    if t[0] != '}' {
      var m, n := PairAgrees(decode, t, u);
      SameMembersMore(acc, acc', m, n);
    }
  }

  /** So does the remover's walk, on every text that the span walk accepts. */
  lemma {:induction false} SpansAgree(decode: string -> string, s: string, b: string, key: string,
                                      found: Option<Member>, acc: seq<Member>, acc': seq<Member>)
    requires Twins(s, b) && SameMembers(acc, acc') && AllUnquoted(decode, s)
    requires SpanFrom(decode, s, key, found).Ok?
    ensures SpansFrom(decode, s, key, acc).Ok? && SpansFrom(decode, b, key, acc').Ok?
    ensures SameMembers(SpansFrom(decode, s, key, acc).value, SpansFrom(decode, b, key, acc').value)
    decreases |s|
  {
    TurnsAgree(decode, s, b, key, found, acc, acc');
    var x, y := SpansTurn(decode, s, key, acc), SpansTurn(decode, b, key, acc');
    if x.More? {
      SpansAgree(decode, x.from, y.from, key, SpanTurn(decode, s, key, found).found, x.members, y.members);
    }
  }

  /** From the start of the text: whatever member the walk finds on the raw text, it finds on the stripped
      text under the same name and at the same offsets. */
  lemma WalksAgree(decode: string -> string, raw: string, blank: string, key: string)
    requires Twins(raw, blank) && TopSpan(decode, raw, key).Ok?
    requires AllUnquoted(decode, SkipTrivia(raw).value[1..])
    ensures TopSpan(decode, blank, key).Ok?
    ensures SameFound(TopSpan(decode, raw, key).value, TopSpan(decode, blank, key).value)
    ensures var root, root' := SkipTrivia(raw).value[1..], SkipTrivia(blank).value[1..];
            && SpansFrom(decode, root, key, []).Ok? && SpansFrom(decode, root', key, []).Ok?
            && SameMembers(SpansFrom(decode, root, key, []).value, SpansFrom(decode, root', key, []).value)
  {
    StartAgrees(raw, blank);
    var root, root' := SkipTrivia(raw).value, SkipTrivia(blank).value;
    TwinsAfterFirst(root, root') by { SkipTwice(raw); }
    TwinsAfterChar(root, root');
    SpanAgrees(decode, root[1..], root'[1..], key, None, None);
    SpansAgree(decode, root[1..], root'[1..], key, None, [], []);
  }

  // ---- where they part ------------------------------------------------------------------------

  /** A document with one member, whose value and what follows it is `v`. */
  function OneMember(v: string): string {
    "{" + ("\"" + ("\"" + (":" + v)))
  }

  lemma TwinsInOne(raw: string, blank: string)
    requires Twins(raw, blank)
    ensures Twins(OneMember(raw), OneMember(blank))
  {
    var colon, colon' := ":" + raw, ":" + blank;
    assert colon[1..] == raw && Strip(colon, Code) == Ok(colon') && CrSafe(colon, Code);
    var quote, quote' := "\"" + colon, "\"" + colon';
    assert quote[1..] == colon && Strip(quote, Str) == Ok(quote') && CrSafe(quote, Str);
    var name, name' := "\"" + quote, "\"" + quote';
    assert name[1..] == quote && Strip(name, Code) == Ok(name') && CrSafe(name, Code);
    assert OneMember(raw)[1..] == name;
  }

  lemma OneMemberRead(decode: string -> string, v: string)
    requires v != "" && Stands(v)
    ensures var s := "\"" + ("\"" + (":" + v));
            ReadMember(decode, s, true) == ReadValue(decode(""), s, v)
  {
    var colon := ":" + v;
    var quote := "\"" + colon;
    var s := "\"" + quote;
    assert colon[1..] == v && quote[1..] == colon && s[1..] == quote;
    assert s[1..][..|s| - 2 - |colon|] == "";
    assert SkipTrivia(colon) == Ok(colon) && SkipTrivia(v) == Ok(v);
    assert StringRest(quote, false) == Ok(colon) && BehindColon(colon, true) == Ok(v);
  }

  /** The skipper leaves it alone. */
  predicate Stands(v: string) {
    v != "" && !IsSpace(v[0]) && !StartsComment(v)
  }

  /** The walk over a lone member succeeds exactly when the closing brace follows its value. */
  lemma OneMemberWalk(decode: string -> string, v: string, key: string)
    requires Stands(v) && v[0] != '"' && !Opens(v[0])
    requires var after := SkipTrivia(ScalarRest(v)); after.Ok? ==> after.value != "" && after.value[0] != ','
    ensures TopSpan(decode, OneMember(v), key).Ok? <==>
              SkipTrivia(ScalarRest(v)).Ok? && SkipTrivia(ScalarRest(v)).value[0] == '}'
  {
    var text, s := OneMember(v), "\"" + ("\"" + (":" + v));
    OneMemberRead(decode, v);
    assert text[1..] == s && SkipTrivia(text) == Ok(text) && SkipTrivia(s) == Ok(s);
    assert ValueRest(v) == Ok(ScalarRest(v));
  }

  /** Why the walk must succeed: a comment inside what the stripped text shows as one scalar makes the walk
      fail on the raw text, but not on the stripped one. */
  lemma ScalarsPart(decode: string -> string, key: string)
    ensures var raw, blank := OneMember("1/**/2}"), OneMember("1    2}");
            Twins(raw, blank) && TopSpan(decode, raw, key).Err? && TopSpan(decode, blank, key).Ok?
  {
    ScalarsTwins();
    TwinsInOne("1/**/2}", "1    2}");
    ScalarsEnd();
    OneMemberWalk(decode, "1/**/2}", key);
    OneMemberWalk(decode, "1    2}", key);
  }

  lemma ScalarsEnd()
    ensures SkipTrivia(ScalarRest("1/**/2}")) == Ok("2}") && SkipTrivia(ScalarRest("1    2}")) == Ok("}")
  {
    var raw := "1/**/2}";
    var c := raw[1..];
    assert c == "/**/2}" && c[2..] == "*/2}" && c[2..][2..] == "2}";
    assert ScalarRest(raw) == c && AfterClose("*/2}") == Ok("2}") && SkipTrivia("2}") == Ok("2}");
    BlankedEnd();
  }

  lemma BlankedEnd()
    ensures ScalarRest("1    2}") == "}" && SkipTrivia("}") == Ok("}")
  {
    var blank := "1    2}";
    var d := blank[1..];
    assert d[1..] == "   2}" && "   2}"[1..] == "  2}" && "  2}"[1..] == " 2}" && " 2}"[1..] == "2}";
    assert "2}"[1..] == "}" && ScalarRest("2}") == "}";
    assert ScalarRest(" 2}") == "}" && ScalarRest("  2}") == "}" && ScalarRest("   2}") == "}";
  }

  lemma ScalarsTwins()
    ensures Twins("1/**/2}", "1    2}")
  {
    var raw, blank := "1/**/2}", "1    2}";
    var c, d := raw[1..], blank[1..];
    assert c == "/**/2}" && c[2..] == "*/2}" && c[2..][2..] == "2}" && "2}"[1..] == "}";
    assert "}" + "" == "}" && "2" + "}" == "2}";
    assert Strip("}", Code) == Behind("}", Strip("", Code)) == Ok("}");
    assert Strip("2}", Code) == Behind("2", Ok("}")) == Ok("2}");
    assert Strip("*/2}", Block) == Behind("  ", Ok("2}")) && "  " + "2}" == "  2}";
    assert Strip(c, Code) == Behind("  ", Ok("  2}")) && "  " + "  2}" == d;
    assert Strip(raw, Code) == Behind("1", Ok(d)) && "1" + d == blank;
    assert CrSafe("2}", Code) && CrSafe("*/2}", Block) && CrSafe(c, Code);
  }

  /** Why scalars must not hold quotes: the stripper takes this comment mark for a part of a string, so that
      the walk succeeds on the raw text and fails on the stripped one. */
  lemma QuotesPart(decode: string -> string, key: string)
    ensures var raw := OneMember("1\"" + Quoted("/*" + ("*/" + "}")));
            var blank := OneMember("1\"" + Quoted("  " + ("  " + "}")));
            Twins(raw, blank) && TopSpan(decode, raw, key).Ok? && TopSpan(decode, blank, key).Err?
  {
    var code, code' := "/*" + ("*/" + "}"), "  " + ("  " + "}");
    QuotesTwins(code, code');
    TwinsInOne("1\"" + Quoted(code), "1\"" + Quoted(code'));
    QuotesSkip(code, code');
    QuotesFront(Quoted(code), Quoted(code'));
    OneMemberWalk(decode, "1\"" + Quoted(code), key);
    OneMemberWalk(decode, "1\"" + Quoted(code'), key);
  }

  /** The rest of a string that begins like a comment, and what follows it. */
  function Quoted(code: string): string {
    "/" + ("*" + ("\"" + code))
  }

  lemma OneCharOn(c: char, m: Mode, next: Mode, k: string, k': string)
    requires (m == Str && c != '\\' && next == if c == '"' then Code else Str)
          || (m == Code && c != '/' && next == if c == '"' then Str else Code)
    requires CrSafe(k, next) && Strip(k, next) == Ok(k')
    ensures CrSafe([c] + k, m) && Strip([c] + k, m) == Ok([c] + k')
  {
    assert ([c] + k)[1..] == k;
  }

  lemma QuotesTwins(code: string, code': string)
    requires code == "/*" + ("*/" + "}") && code' == "  " + ("  " + "}")
    ensures Twins("1\"" + Quoted(code), "1\"" + Quoted(code'))
  {
    QuotesComment(code, code');
    OneCharOn('"', Str, Code, code, code');
    OneCharOn('*', Str, Str, "\"" + code, "\"" + code');
    OneCharOn('/', Str, Str, "*" + ("\"" + code), "*" + ("\"" + code'));
    OneCharOn('"', Code, Str, Quoted(code), Quoted(code'));
    OneCharOn('1', Code, Code, "\"" + Quoted(code), "\"" + Quoted(code'));
    assert "1\"" + Quoted(code) == "1" + ("\"" + Quoted(code));
    assert "1\"" + Quoted(code') == "1" + ("\"" + Quoted(code'));
  }

  lemma QuotesComment(code: string, code': string)
    requires code == "/*" + ("*/" + "}") && code' == "  " + ("  " + "}")
    ensures Strip(code, Code) == Ok(code') && CrSafe(code, Code)
  {
    var close := "*/" + "}";
    assert code[2..] == close && close[2..] == "}";
    assert "}" + "" == "}";
    assert Strip("}", Code) == Behind("}", Strip("", Code)) == Ok("}");
    assert CrSafe("}", Code) && CrSafe(close, Block);
  }

  lemma QuotesFront(slash: string, slash': string)
    requires StartsBlock(slash) && StartsBlock(slash')
    ensures ScalarRest("1\"" + slash) == slash && ScalarRest("1\"" + slash') == slash'
  {
    var one, one' := "1\"" + slash, "1\"" + slash';
    assert one[1..] == "\"" + slash && one'[1..] == "\"" + slash' && one[1..][1..] == slash && one'[1..][1..] == slash';
    assert ScalarRest(one[1..]) == slash && ScalarRest(one'[1..]) == slash';
  }

  lemma QuotesSkip(code: string, code': string)
    requires code == "/*" + ("*/" + "}") && code' == "  " + ("  " + "}")
    ensures SkipTrivia(Quoted(code)) == Ok("}") && SkipTrivia(Quoted(code')).Err?
  {
    var s, s' := Quoted(code), Quoted(code');
    var q, q' := "\"" + code, "\"" + code';
    assert s[2..] == q && s'[2..] == q' && q[1..] == code && q'[1..] == code';
    var close := code[1..];
    assert close == "*" + ("*/" + "}") && close[1..] == "*/" + "}" && ("*/" + "}")[2..] == "}";
    assert AfterClose("*/" + "}") == Ok("}") && AfterClose(close) == Ok("}") && AfterClose(q) == Ok("}");
    NoClose(code');
    assert AfterClose(q').Err?;
  }

  lemma {:induction false} NoClose(s: string)
    requires '*' !in s
    ensures AfterClose(s).Err?
  {
    if |s| >= 2 {
      assert s[0] in s;
      assert forall c | c in s[1..] :: c in s;
      NoClose(s[1..]);
    }
  }
}
