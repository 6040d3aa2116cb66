/** Printing a well-formed document and parsing the text gives the document's meaning:
    comments become spaces, trailing commas become spaces, and strict JSON is left. */
module JsoncRoundTrip {
  import opened JsoncText
  import opened JsoncGrammar
  import opened Options

  // ---- printing trivia ----------------------------------------------------------

  /** Trivia made of the whitespace characters of `s`. */
  function Spaces(s: string): Trivia {
    seq(|s|, i requires 0 <= i < |s| => Space(s[i]))
  }

  lemma {:induction false} PrSpaces(s: string, k: string)
    ensures PrTr(Spaces(s), k) == s + k
  {
    if s != "" {
      assert Spaces(s)[1..] == Spaces(s[1..]);
      PrSpaces(s[1..], k);
      assert s + k == [s[0]] + (s[1..] + k);
    }
  }

  lemma {:induction false} PrTrConcat(a: Trivia, b: Trivia, k: string)
    ensures PrTr(a + b, k) == PrTr(a, PrTr(b, k))
  {
    if a == [] {
      assert a + b == b;
    } else {
      assert (a + b)[1..] == a[1..] + b;
      PrTrConcat(a[1..], b, k);
    }
  }

  predicate OnlySpaces(tr: Trivia) {
    forall p <- tr :: p.Space? && JsonSpace(p.c)
  }

  // ---- comments become spaces -------------------------------------------------------

  function BlankLineText(body: string): string {
    if body == "" then "" else [if IsBreak(body[0]) then body[0] else ' '] + BlankLineText(body[1..])
  }

  function BlankPiece(p: Piece): string {
    match p
    case Space(c) => [c]
    case LineComment(body) => "  " + BlankLineText(body) + "\n"
    case BlockComment(body) => "  " + BlankLineText(body) + "  "
  }

  function BlankText(tr: Trivia): string {
    if tr == [] then "" else BlankPiece(tr[0]) + BlankText(tr[1..])
  }

  function BlankTr(tr: Trivia): Trivia {
    Spaces(BlankText(tr))
  }

  function BlankKey(key: Option<Key>): Option<Key> {
    match key
    case None => None
    case Some(Key(literal, before, after)) => Some(Key(literal, BlankTr(before), BlankTr(after)))
  }

  function BlankV(v: Value): Value {
    match v
    case Text(_) => v
    case Scalar(_) => v
    case Array(items) => Array(BlankI(items))
    case Object(items) => Object(BlankI(items))
  }

  function BlankI(it: Items): Items {
    match it
    case Close(tr) => Close(BlankTr(tr))
    case Item(pre, key, value, post, comma, rest) =>
      Item(BlankTr(pre), BlankKey(key), BlankV(value), BlankTr(post), comma, BlankI(rest))
  }

  lemma {:induction false} BlankTextIsSpace(tr: Trivia)
    requires TriviaOk(tr)
    ensures forall c <- BlankText(tr) :: JsonSpace(c)
    ensures OnlySpaces(BlankTr(tr))
  {
    if tr != [] {
      assert PieceOk(tr[0]);
      if !tr[0].Space? { BlankLineIsSpace(tr[0].body); }
      assert forall c <- BlankPiece(tr[0]) :: JsonSpace(c);
      BlankTextIsSpace(tr[1..]);
      assert BlankText(tr) == BlankPiece(tr[0]) + BlankText(tr[1..]);
    }
  }

  lemma {:induction false} BlankLineIsSpace(body: string)
    ensures forall c <- BlankLineText(body) :: JsonSpace(c)
  {
    if body != "" { BlankLineIsSpace(body[1..]); }
  }

  lemma AddBehind(a: string, b: string, r: Res<string>)
    ensures Behind(a, Behind(b, r)) == Behind(a + b, r)
  {
    if r.Ok? {
      assert a + (b + r.value) == (a + b) + r.value;
    }
  }

  lemma {:induction false} StripLineBody(body: string, k: string)
    requires LineBodyOk(body)
    ensures Strip(body + ("\n" + k), Line) == Behind(BlankLineText(body) + "\n", Strip(k, Code))
  {
    var s := body + ("\n" + k);
    if body == "" {
      assert s == "\n" + k && s[1..] == k;
      assert BlankLineText(body) + "\n" == "\n";
    } else if body[0] == '\r' {
      assert body == "\r" && body[1..] == "";
      assert s[1..] == "\n" + k && s[1..][1..] == k;
      assert BlankLineText(body) == "\r" + BlankLineText("") == "\r";
      AddBehind("\r", "\n", Strip(k, Code));
      assert Strip(s, Code) == Behind("\r", Strip("\n" + k, Code));
      assert Strip("\n" + k, Code) == Behind("\n", Strip(k, Code));
    } else {
      assert s[1..] == body[1..] + ("\n" + k);
      StripLineBody(body[1..], k);
      AddBehind(" ", BlankLineText(body[1..]) + "\n", Strip(k, Code));
      assert " " + (BlankLineText(body[1..]) + "\n") == BlankLineText(body) + "\n";
    }
  }

  lemma {:induction false} StripBlockBody(body: string, k: string)
    requires BlockBodyOk(body)
    ensures Strip(body + ("*/" + k), Block) == Behind(BlankLineText(body) + "  ", Strip(k, Code))
  {
    var s := body + ("*/" + k);
    if body == "" {
      assert s == "*/" + k && s[2..] == k;
      assert BlankLineText(body) + "  " == "  ";
    } else {
      assert s[1..] == body[1..] + ("*/" + k);
      assert !EndsBlock(s);
      StripBlockBody(body[1..], k);
      var c := if IsBreak(s[0]) then s[0] else ' ';
      AddBehind([c], BlankLineText(body[1..]) + "  ", Strip(k, Code));
      assert [c] + (BlankLineText(body[1..]) + "  ") == BlankLineText(body) + "  ";
    }
  }

  lemma StripLineComment(body: string, k: string)
    requires LineBodyOk(body)
    ensures Strip("//" + body + "\n" + k, Code) == Behind("  " + BlankLineText(body) + "\n", Strip(k, Code))
  {
    var s := "//" + body + "\n" + k;
    assert s[2..] == body + ("\n" + k) && StartsLine(s);
    StripLineBody(body, k);
    AddBehind("  ", BlankLineText(body) + "\n", Strip(k, Code));
    assert "  " + (BlankLineText(body) + "\n") == "  " + BlankLineText(body) + "\n";
  }

  lemma StripBlockComment(body: string, k: string)
    requires BlockBodyOk(body)
    ensures Strip("/*" + body + "*/" + k, Code) == Behind("  " + BlankLineText(body) + "  ", Strip(k, Code))
  {
    var s := "/*" + body + "*/" + k;
    assert s[2..] == body + ("*/" + k) && StartsBlock(s);
    StripBlockBody(body, k);
    AddBehind("  ", BlankLineText(body) + "  ", Strip(k, Code));
    assert "  " + (BlankLineText(body) + "  ") == "  " + BlankLineText(body) + "  ";
  }

  lemma StripPiece(p: Piece, k: string)
    requires PieceOk(p)
    ensures Strip(PieceText(p) + k, Code) == Behind(BlankPiece(p), Strip(k, Code))
  {
    match p
    case Space(c) => assert ([c] + k)[1..] == k;
    case LineComment(body) => StripLineComment(body, k);
    case BlockComment(body) => StripBlockComment(body, k);
  }

  lemma {:induction false} StripTrText(tr: Trivia, k: string)
    requires TriviaOk(tr)
    ensures Strip(PrTr(tr, k), Code) == Behind(BlankText(tr), Strip(k, Code))
  {
    if tr == [] {
      if Strip(k, Code).Ok? {
        assert "" + Strip(k, Code).value == Strip(k, Code).value;
      }
    } else {
      var p, more := tr[0], tr[1..];
      assert PieceOk(p);
      StripTrText(more, k);
      StripPiece(p, PrTr(more, k));
      AddBehind(BlankPiece(p), BlankText(more), Strip(k, Code));
    }
  }

  lemma StripTr(tr: Trivia, k: string, k': string)
    requires TriviaOk(tr) && Strip(k, Code) == Ok(k')
    ensures Strip(PrTr(tr, k), Code) == Ok(PrTr(BlankTr(tr), k'))
  {
    StripTrText(tr, k);
    PrSpaces(BlankText(tr), k');
  }

  lemma {:induction false} StringRestOfLiteral(s: string, k: string, escaped: bool)
    requires LiteralOk(s, escaped)
    ensures StringRest(s + ("\"" + k), escaped) == Ok(k)
  {
    var t := s + ("\"" + k);
    if s == "" {
      assert t == "\"" + k && t[1..] == k;
    } else {
      assert t[1..] == s[1..] + ("\"" + k);
      StringRestOfLiteral(s[1..], k, if escaped then false else s[0] == '\\');
    }
  }

  /** A printed string: where it ends, and the literal in it. */
  lemma QuotedRead(literal: string, k: string)
    requires LiteralOk(literal, false)
    ensures var s := "\"" + (literal + ("\"" + k));
            s[0] == '"' && StringRest(s[1..], false) == Ok(k) && s[1..][..|s| - 2 - |k|] == literal
  {
    var s := "\"" + (literal + ("\"" + k));
    assert s[1..] == literal + ("\"" + k);
    StringRestOfLiteral(literal, k, false);
  }

  lemma {:induction false} StripLiteral(s: string, k: string, k': string, escaped: bool)
    requires LiteralOk(s, escaped) && Strip(k, Code) == Ok(k')
    ensures Strip(s + ("\"" + k), if escaped then Esc else Str) == Ok(s + ("\"" + k'))
  {
    var t := s + ("\"" + k);
    if s == "" {
      assert t == "\"" + k && t[1..] == k;
      assert s + ("\"" + k') == "\"" + k';
    } else {
      assert t[1..] == s[1..] + ("\"" + k);
      StripLiteral(s[1..], k, k', if escaped then false else s[0] == '\\');
      assert [s[0]] + (s[1..] + ("\"" + k')) == s + ("\"" + k');
    }
  }

  lemma StripQuoted(s: string, k: string, k': string)
    requires LiteralOk(s, false) && Strip(k, Code) == Ok(k')
    ensures Strip("\"" + (s + ("\"" + k)), Code) == Ok("\"" + (s + ("\"" + k')))
  {
    StripLiteral(s, k, k', false);
    assert ("\"" + (s + ("\"" + k)))[1..] == s + ("\"" + k);
  }

  /** A character that is neither a quote nor a slash is copied. */
  lemma StripChar(c: char, k: string, k': string)
    requires c != '"' && c != '/' && Strip(k, Code) == Ok(k')
    ensures Strip([c] + k, Code) == Ok([c] + k')
  {
  }

  lemma {:induction false} StripToken(t: string, k: string, k': string)
    requires (forall c <- t :: TokenChar(c)) && Strip(k, Code) == Ok(k')
    ensures Strip(t + k, Code) == Ok(t + k')
  {
    if t == "" {
      assert t + k == k && t + k' == k';
    } else {
      assert TokenChar(t[0]);
      StripToken(t[1..], k, k');
      StripChar(t[0], t[1..] + k, t[1..] + k');
      assert [t[0]] + (t[1..] + k) == t + k && [t[0]] + (t[1..] + k') == t + k';
    }
  }

  lemma StripKey(key: Option<Key>, k: string, k': string)
    requires key.Some? ==> KeyOk(key.value)
    requires Strip(k, Code) == Ok(k')
    ensures Strip(PrKey(key, k), Code) == Ok(PrKey(BlankKey(key), k'))
  {
    if key.Some? {
      var Key(literal, before, after) := key.value;
      StripTr(after, k, k');
      StripChar(':', PrTr(after, k), PrTr(BlankTr(after), k'));
      StripTr(before, ":" + PrTr(after, k), ":" + PrTr(BlankTr(after), k'));
      StripQuoted(literal, PrTr(before, ":" + PrTr(after, k)), PrTr(BlankTr(before), ":" + PrTr(BlankTr(after), k')));
    }
  }

  lemma {:induction false} StripV(v: Value, k: string, k': string)
    requires ValueOk(v) && Strip(k, Code) == Ok(k')
    ensures Strip(PrV(v, k), Code) == Ok(PrV(BlankV(v), k'))
    decreases v
  {
    match v
    case Text(s) => StripQuoted(s, k, k');
    case Scalar(t) => StripToken(t, k, k');
    case Array(items) =>
      StripChar(']', k, k');
      StripI(items, false, "]" + k, "]" + k');
      StripChar('[', PrI(items, "]" + k), PrI(BlankI(items), "]" + k'));
    case Object(items) =>
      StripChar('}', k, k');
      StripI(items, true, "}" + k, "}" + k');
      StripChar('{', PrI(items, "}" + k), PrI(BlankI(items), "}" + k'));
  }

  lemma {:induction false} StripI(it: Items, named: bool, k: string, k': string)
    requires ItemsOk(it, named) && Strip(k, Code) == Ok(k')
    ensures Strip(PrI(it, k), Code) == Ok(PrI(BlankI(it), k'))
    decreases it
  {
    match it
    case Close(tr) => StripTr(tr, k, k');
    case Item(pre, key, value, post, comma, rest) =>
      StripI(rest, named, k, k');
      var r, r' := PrI(rest, k), PrI(BlankI(rest), k');
      var c := if comma then "," else "";
      if comma { StripChar(',', r, r'); } else { assert "" + r == r && "" + r' == r'; }
      StripTr(post, c + r, c + r');
      StripV(value, PrTr(post, c + r), PrTr(BlankTr(post), c + r'));
      StripKey(key, PrV(value, PrTr(post, c + r)), PrV(BlankV(value), PrTr(BlankTr(post), c + r')));
      StripTr(pre, PrKey(key, PrV(value, PrTr(post, c + r))),
              PrKey(BlankKey(key), PrV(BlankV(value), PrTr(BlankTr(post), c + r'))));
  }

  // ---- trailing commas become spaces ----------------------------------------------------

  function DropV(v: Value): Value {
    match v
    case Text(_) => v
    case Scalar(_) => v
    case Array(items) => Array(DropI(items))
    case Object(items) => Object(DropI(items))
  }

  function DropI(it: Items): Items {
    match it
    case Close(_) => it
    case Item(pre, key, value, post, comma, rest) =>
      if comma && rest.Close? then Item(pre, key, DropV(value), post + [Space(' ')] + rest.tr, false, Close([]))
      else Item(pre, key, DropV(value), post, comma, DropI(rest))
  }

  predicate SpaceKey(key: Option<Key>) {
    key.Some? ==> LiteralOk(key.value.literal, false) && OnlySpaces(key.value.before) && OnlySpaces(key.value.after)
  }

  /** Well formed, and all trivia is whitespace. */
  predicate SpaceV(v: Value) {
    match v
    case Text(s) => LiteralOk(s, false)
    case Scalar(t) => TokenOk(t)
    case Array(items) => SpaceI(items, false)
    case Object(items) => SpaceI(items, true)
  }

  predicate SpaceI(it: Items, named: bool) {
    match it
    case Close(tr) => OnlySpaces(tr)
    case Item(pre, key, value, post, comma, rest) =>
      && OnlySpaces(pre) && OnlySpaces(post) && SpaceV(value) && key.Some? == named && SpaceKey(key)
      && SpaceI(rest, named) && (!comma ==> rest == Close([]))
  }

  lemma {:induction false} BlankVIsSpace(v: Value)
    requires ValueOk(v)
    ensures SpaceV(BlankV(v))
    decreases v
  {
    match v
    case Text(_) =>
    case Scalar(_) =>
    case Array(items) => BlankIIsSpace(items, false);
    case Object(items) => BlankIIsSpace(items, true);
  }

  lemma {:induction false} BlankIIsSpace(it: Items, named: bool)
    requires ItemsOk(it, named)
    ensures SpaceI(BlankI(it), named)
    decreases it
  {
    match it
    case Close(tr) => BlankTextIsSpace(tr);
    case Item(pre, key, value, post, comma, rest) =>
      BlankTextIsSpace(pre);
      BlankTextIsSpace(post);
      BlankVIsSpace(value);
      if key.Some? {
        BlankTextIsSpace(key.value.before);
        BlankTextIsSpace(key.value.after);
      }
      BlankIIsSpace(rest, named);
      if !comma { assert BlankTr([]) == []; }
  }

  lemma {:induction false} CommasTr(tr: Trivia, k: string)
    requires OnlySpaces(tr)
    ensures StripCommas(PrTr(tr, k), Code) == PrTr(tr, StripCommas(k, Code))
  {
    if tr != [] {
      CommasTr(tr[1..], k);
      assert PrTr(tr, k)[1..] == PrTr(tr[1..], k);
    }
  }

  lemma {:induction false} LookAheadTr(tr: Trivia, k: string)
    requires OnlySpaces(tr)
    ensures LookAhead(PrTr(tr, k)) == LookAhead(k)
  {
    if tr != [] {
      LookAheadTr(tr[1..], k);
      assert PrTr(tr, k)[1..] == PrTr(tr[1..], k);
    }
  }

  lemma {:induction false} CommasLiteral(s: string, k: string, escaped: bool)
    requires LiteralOk(s, escaped)
    ensures StripCommas(s + ("\"" + k), if escaped then Esc else Str) == s + ("\"" + StripCommas(k, Code))
  {
    var t := s + ("\"" + k);
    if s == "" {
      assert t == "\"" + k && t[1..] == k;
    } else {
      assert t[1..] == s[1..] + ("\"" + k);
      CommasLiteral(s[1..], k, if escaped then false else s[0] == '\\');
      assert [s[0]] + (s[1..] + ("\"" + StripCommas(k, Code))) == s + ("\"" + StripCommas(k, Code));
    }
  }

  lemma CommasQuoted(s: string, k: string)
    requires LiteralOk(s, false)
    ensures StripCommas("\"" + (s + ("\"" + k)), Code) == "\"" + (s + ("\"" + StripCommas(k, Code)))
  {
    CommasLiteral(s, k, false);
    assert ("\"" + (s + ("\"" + k)))[1..] == s + ("\"" + k);
  }

  lemma CommasChar(c: char, k: string)
    requires c != '"' && c != ','
    ensures StripCommas([c] + k, Code) == [c] + StripCommas(k, Code)
  {
  }

  lemma {:induction false} CommasToken(t: string, k: string)
    requires forall c <- t :: TokenChar(c)
    ensures StripCommas(t + k, Code) == t + StripCommas(k, Code)
  {
    if t == "" {
      assert t + k == k && t + StripCommas(k, Code) == StripCommas(k, Code);
    } else {
      assert TokenChar(t[0]);
      CommasToken(t[1..], k);
      CommasChar(t[0], t[1..] + k);
      assert [t[0]] + (t[1..] + k) == t + k;
      assert [t[0]] + (t[1..] + StripCommas(k, Code)) == t + StripCommas(k, Code);
    }
  }

  lemma CommasKey(key: Option<Key>, k: string)
    requires SpaceKey(key)
    ensures StripCommas(PrKey(key, k), Code) == PrKey(key, StripCommas(k, Code))
  {
    if key.Some? {
      var Key(literal, before, after) := key.value;
      CommasTr(after, k);
      CommasChar(':', PrTr(after, k));
      CommasTr(before, ":" + PrTr(after, k));
      CommasQuoted(literal, PrTr(before, ":" + PrTr(after, k)));
    }
  }

  /** The first character of a value, or of a name, is none the look-ahead skips or waits for. */
  predicate Solid(s: string) {
    s != "" && !IsSpace(s[0]) && s[0] != '/' && !Closes(s[0])
  }

  lemma ItemIsSolid(it: Items, named: bool, k: string)
    requires it.Item? && SpaceI(it, named)
    ensures Solid(PrKey(it.key, PrV(it.value, k)))
  {
    if it.key.None? && it.value.Scalar? {
      assert TokenChar(it.value.token[0]);
    }
  }

  lemma CommaIsTrailingExactlyBeforeClose(rest: Items, named: bool, close: char, k: string)
    requires SpaceI(rest, named) && Closes(close)
    ensures IsTrailing(PrI(rest, [close] + k)) <==> rest.Close?
  {
    match rest
    case Close(tr) => LookAheadTr(tr, [close] + k);
    case Item(pre, key, value, post, comma, more) =>
      var inner := PrTr(post, (if comma then "," else "") + PrI(more, [close] + k));
      LookAheadTr(pre, PrKey(key, PrV(value, inner)));
      ItemIsSolid(rest, named, inner);
  }

  lemma {:induction false} CommasV(v: Value, k: string)
    requires SpaceV(v)
    ensures StripCommas(PrV(v, k), Code) == PrV(DropV(v), StripCommas(k, Code))
    decreases v
  {
    match v
    case Text(s) => CommasQuoted(s, k);
    case Scalar(t) => CommasToken(t, k);
    case Array(items) =>
      CommasI(items, false, ']', k);
      CommasChar('[', PrI(items, "]" + k));
    case Object(items) =>
      CommasI(items, true, '}', k);
      CommasChar('{', PrI(items, "}" + k));
  }

  lemma {:induction false} CommasI(it: Items, named: bool, close: char, k: string)
    requires SpaceI(it, named) && Closes(close)
    ensures StripCommas(PrI(it, [close] + k), Code) == PrI(DropI(it), [close] + StripCommas(k, Code))
    decreases it
  {
    CommasChar(close, k);
    var k' := StripCommas(k, Code);
    match it
    case Close(tr) => CommasTr(tr, [close] + k);
    case Item(pre, key, value, post, comma, rest) =>
      var r := PrI(rest, [close] + k);
      var c := if comma then "," else "";
      CommasTr(pre, PrKey(key, PrV(value, PrTr(post, c + r))));
      CommasKey(key, PrV(value, PrTr(post, c + r)));
      CommasV(value, PrTr(post, c + r));
      CommasTr(post, c + r);
      CommasI(rest, named, close, k);
      var r' := PrI(DropI(rest), [close] + k');
      if comma {
        CommaIsTrailingExactlyBeforeClose(rest, named, close, k);
        assert ("," + r)[1..] == r;
        if rest.Close? {
          CommasTr(rest.tr, [close] + k);
          PrTrConcat(post + [Space(' ')], rest.tr, [close] + k');
          PrTrConcat(post, [Space(' ')], PrTr(rest.tr, [close] + k'));
          assert PrTr([Space(' ')], r') == " " + r';
          assert "" + ([close] + k') == [close] + k';
        }
      } else {
        assert "" + r == r && "" + r' == r';
      }
  }

  // ---- strict JSON reads what is left -----------------------------------------------------

  predicate StrictV(v: Value) {
    match v
    case Text(s) => LiteralOk(s, false)
    case Scalar(t) => TokenOk(t)
    case Array(items) => StrictI(items, false)
    case Object(items) => StrictI(items, true)
  }

  /** Whitespace only, and no comma in front of the closing bracket. */
  predicate StrictI(it: Items, named: bool) {
    match it
    case Close(tr) => OnlySpaces(tr)
    case Item(pre, key, value, post, comma, rest) =>
      && OnlySpaces(pre) && OnlySpaces(post) && StrictV(value) && key.Some? == named && SpaceKey(key)
      && StrictI(rest, named) && (comma <==> rest.Item?) && (!comma ==> rest == Close([]))
  }

  lemma {:induction false} DropVIsStrict(v: Value)
    requires SpaceV(v)
    ensures StrictV(DropV(v))
    decreases v
  {
    match v
    case Text(_) =>
    case Scalar(_) =>
    case Array(items) => DropIIsStrict(items, false);
    case Object(items) => DropIIsStrict(items, true);
  }

  lemma {:induction false} DropIIsStrict(it: Items, named: bool)
    requires SpaceI(it, named)
    ensures StrictI(DropI(it), named)
    decreases it
  {
    match it
    case Close(_) =>
    case Item(_, _, value, _, _, rest) =>
      DropVIsStrict(value);
      DropIIsStrict(rest, named);
  }

  lemma {:induction false} SkipSpaceTr(tr: Trivia, k: string)
    requires OnlySpaces(tr)
    ensures SkipSpace(PrTr(tr, k)) == SkipSpace(k)
  {
    if tr != [] {
      SkipSpaceTr(tr[1..], k);
      assert PrTr(tr, k)[1..] == PrTr(tr[1..], k);
    }
  }

  lemma {:induction false} TokenRestOf(t: string, k: string)
    requires (forall c <- t :: TokenChar(c)) && (k == "" || !TokenChar(k[0]))
    ensures TokenRest(t + k) == k
  {
    if t == "" {
      assert t + k == k;
    } else {
      assert (t + k)[1..] == t[1..] + k;
      TokenRestOf(t[1..], k);
    }
  }

  /** What may follow a value: nothing that would prolong a token. */
  predicate Ends(k: string) {
    k == "" || !TokenChar(k[0])
  }

  lemma PostEnds(post: Trivia, k: string)
    requires OnlySpaces(post) && Ends(k)
    ensures Ends(PrTr(post, k))
  {
  }

  lemma ParsesText(decode: string -> string, lit: string, k: string)
    requires LiteralOk(lit, false)
    ensures ParseValue(decode, "\"" + (lit + ("\"" + k))) == Ok(Parsed(JText(decode(lit)), k))
  {
    QuotedRead(lit, k);
  }

  lemma ParsesToken(decode: string -> string, t: string, k: string)
    requires TokenOk(t) && Ends(k)
    ensures ParseValue(decode, t + k) == Ok(Parsed(JScalar(t), k))
  {
    var s := t + k;
    assert TokenChar(t[0]);
    assert s[1..] == t[1..] + k;
    TokenRestOf(t[1..], k);
    assert s[..|s| - |k|] == t;
  }

  lemma ParsesEmpty(decode: string -> string, tr: Trivia, k: string)
    requires OnlySpaces(tr)
    ensures ParseValue(decode, "[" + PrTr(tr, "]" + k)) == Ok(Parsed(JArray([]), k))
    ensures ParseValue(decode, "{" + PrTr(tr, "}" + k)) == Ok(Parsed(JObject(map[]), k))
  {
    assert ("[" + PrTr(tr, "]" + k))[1..] == PrTr(tr, "]" + k);
    assert ("{" + PrTr(tr, "}" + k))[1..] == PrTr(tr, "}" + k);
    SkipSpaceTr(tr, "]" + k);
    SkipSpaceTr(tr, "}" + k);
    assert ("]" + k)[1..] == k && ("}" + k)[1..] == k;
  }

  lemma {:induction false} ParsesV(decode: string -> string, v: Value, k: string)
    requires StrictV(v) && Ends(k)
    ensures ParseValue(decode, PrV(v, k)) == Ok(Parsed(Mean(decode, v), k))
    decreases v
  {
    match v
    case Text(lit) => ParsesText(decode, lit, k);
    case Scalar(t) => ParsesToken(decode, t, k);
    case Array(items) =>
      if items.Close? {
        ParsesEmpty(decode, items.tr, k);
      } else {
        ParsesArray(decode, items, k);
      }
    case Object(items) =>
      if items.Close? {
        ParsesEmpty(decode, items.tr, k);
      } else {
        ParsesObject(decode, items, k);
      }
  }

  lemma ParsesArray(decode: string -> string, items: Items, k: string)
    requires items.Item? && StrictI(items, false)
    ensures ParseValue(decode, "[" + PrI(items, "]" + k)) == Ok(Parsed(JArray(MeanElems(decode, items)), k))
    decreases items, 1
  {
    var s := "[" + PrI(items, "]" + k);
    assert s[1..] == PrI(items, "]" + k);
    ItemStart(items, false, "]" + k);
    ParsesElems(decode, items, k, []);
    assert [] + MeanElems(decode, items) == MeanElems(decode, items);
  }

  lemma ParsesObject(decode: string -> string, items: Items, k: string)
    requires items.Item? && StrictI(items, true)
    ensures ParseValue(decode, "{" + PrI(items, "}" + k)) == Ok(Parsed(JObject(MeanMembers(decode, items, map[])), k))
    decreases items, 1
  {
    var s := "{" + PrI(items, "}" + k);
    assert s[1..] == PrI(items, "}" + k);
    ItemStart(items, true, "}" + k);
    ParsesMembers(decode, items, k, map[]);
  }

  /** The text of an item, trivia in front of it left out. */
  function FromKey(it: Items, k: string): string
    requires it.Item?
  {
    PrKey(it.key, PrV(it.value, PrTr(it.post, (if it.comma then "," else "") + PrI(it.rest, k))))
  }

  lemma StrictIsSpace(it: Items, named: bool, k: string)
    requires it.Item? && StrictI(it, named)
    ensures Solid(FromKey(it, k))
  {
    if it.key.None? && it.value.Scalar? {
      assert TokenChar(it.value.token[0]);
    }
  }

  lemma ItemStart(it: Items, named: bool, k: string)
    requires it.Item? && StrictI(it, named)
    ensures SkipSpace(PrI(it, k)) == FromKey(it, k) && Solid(FromKey(it, k))
  {
    SkipSpaceTr(it.pre, FromKey(it, k));
    StrictIsSpace(it, named, k);
  }

  /** Behind a value: whitespace, then a comma and the next item, or the closing bracket. */
  lemma AfterValue(it: Items, named: bool, close: char, k: string)
    requires it.Item? && StrictI(it, named) && Closes(close)
    ensures var after := PrTr(it.post, (if it.comma then "," else "") + PrI(it.rest, [close] + k));
            && Ends(after)
            && SkipSpace(after) == (if it.comma then "," + PrI(it.rest, [close] + k) else [close] + k)
  {
    var x := (if it.comma then "," else "") + PrI(it.rest, [close] + k);
    SkipSpaceTr(it.post, x);
    if !it.comma {
      assert x == [close] + k;
    }
    PostEnds(it.post, x);
  }

  lemma AppendOne(acc: seq<Json>, json: Json, more: seq<Json>)
    ensures (acc + [json]) + more == acc + ([json] + more)
  {
  }

  lemma {:induction false} ParsesElems(decode: string -> string, it: Items, k: string, acc: seq<Json>)
    requires it.Item? && StrictI(it, false)
    ensures ParseElems(decode, FromKey(it, "]" + k), acc) == Ok(Parsed(JArray(acc + MeanElems(decode, it)), k))
    decreases it, 0
  {
    var after := PrTr(it.post, (if it.comma then "," else "") + PrI(it.rest, "]" + k));
    var t := if it.comma then "," + PrI(it.rest, "]" + k) else "]" + k;
    var json := Mean(decode, it.value);
    AfterValue(it, false, ']', k);
    ParsesV(decode, it.value, after);
    AppendOne(acc, json, MeanElems(decode, it.rest));
    if it.comma {
      assert t[1..] == PrI(it.rest, "]" + k);
      ItemStart(it.rest, false, "]" + k);
      ParsesElems(decode, it.rest, k, acc + [json]);
    } else {
      assert t[1..] == k;
      assert acc + [json] + [] == acc + [json];
    }
  }

  lemma ColonParses(before: Trivia, after: Trivia, v: string)
    requires OnlySpaces(before) && OnlySpaces(after) && v != "" && !JsonSpace(v[0])
    ensures var c := SkipSpace(PrTr(before, ":" + PrTr(after, v)));
            c != "" && c[0] == ':' && SkipSpace(c[1..]) == v
  {
    SkipSpaceTr(before, ":" + PrTr(after, v));
    assert (":" + PrTr(after, v))[1..] == PrTr(after, v);
    SkipSpaceTr(after, v);
  }

  lemma ValueFirst(v: Value, k: string)
    requires StrictV(v)
    ensures PrV(v, k) != "" && !JsonSpace(PrV(v, k)[0])
  {
    if v.Scalar? { assert TokenChar(v.token[0]); }
  }

  lemma NameParses(it: Items, k: string)
    requires it.Item? && StrictI(it, true)
    ensures var s := FromKey(it, k);
            var lit := it.key.value.literal;
            && s != "" && s[0] == '"' && StringRest(s[1..], false).Ok?
            && var r := StringRest(s[1..], false).value;
               && s[1..][..|s| - 2 - |r|] == lit
               && SkipSpace(r) != "" && SkipSpace(r)[0] == ':'
               && SkipSpace(SkipSpace(r)[1..])
                  == PrV(it.value, PrTr(it.post, (if it.comma then "," else "") + PrI(it.rest, k)))
  {
    var v := PrV(it.value, PrTr(it.post, (if it.comma then "," else "") + PrI(it.rest, k)));
    var Key(literal, before, after) := it.key.value;
    var r := PrTr(before, ":" + PrTr(after, v));
    assert FromKey(it, k) == "\"" + (literal + ("\"" + r));
    QuotedRead(literal, r);
    ValueFirst(it.value, PrTr(it.post, (if it.comma then "," else "") + PrI(it.rest, k)));
    ColonParses(before, after, v);
  }

  lemma {:induction false} ParsesMembers(decode: string -> string, it: Items, k: string, acc: map<string, Json>)
    requires it.Item? && StrictI(it, true)
    ensures ParseMembers(decode, FromKey(it, "}" + k), acc) == Ok(Parsed(JObject(MeanMembers(decode, it, acc)), k))
    decreases it, 0
  {
    var after := PrTr(it.post, (if it.comma then "," else "") + PrI(it.rest, "}" + k));
    NameParses(it, "}" + k);
    AfterValue(it, true, '}', k);
    ParsesV(decode, it.value, after);
    var t := SkipSpace(after);
    var acc' := acc[decode(it.key.value.literal) := Mean(decode, it.value)];
    if it.comma {
      assert t[1..] == PrI(it.rest, "}" + k);
      ItemStart(it.rest, true, "}" + k);
      ParsesMembers(decode, it.rest, k, acc');
    } else {
      assert t[1..] == k;
    }
  }

  // ---- cleaning keeps the meaning ------------------------------------------------------------

  lemma {:induction false} CleanKeepsMean(decode: string -> string, v: Value)
    ensures Mean(decode, DropV(BlankV(v))) == Mean(decode, v)
    decreases v
  {
    match v
    case Text(_) =>
    case Scalar(_) =>
    case Array(items) => CleanKeepsElems(decode, items);
    case Object(items) => CleanKeepsMembers(decode, items, map[]);
  }

  lemma {:induction false} CleanKeepsElems(decode: string -> string, it: Items)
    ensures MeanElems(decode, DropI(BlankI(it))) == MeanElems(decode, it)
    decreases it
  {
    match it
    case Close(_) =>
    case Item(_, _, value, _, _, rest) =>
      CleanKeepsMean(decode, value);
      CleanKeepsElems(decode, rest);
  }

  lemma {:induction false} CleanKeepsMembers(decode: string -> string, it: Items, acc: map<string, Json>)
    ensures MeanMembers(decode, DropI(BlankI(it)), acc) == MeanMembers(decode, it, acc)
    decreases it
  {
    match it
    case Close(_) =>
    case Item(_, key, value, _, _, rest) =>
      CleanKeepsMean(decode, value);
      CleanKeepsMembers(decode, rest, if key.Some? then acc[decode(key.value.literal) := Mean(decode, value)] else acc);
  }

  // ---- control characters ----------------------------------------------------------------------

  lemma LegibleChar(c: char, k: string)
    requires c != '"'
    ensures Legible([c] + k, Code) == Legible(k, Code)
  {
    assert ([c] + k)[1..] == k;
  }

  lemma {:induction false} LegibleTr(tr: Trivia, k: string)
    requires OnlySpaces(tr)
    ensures Legible(PrTr(tr, k), Code) == Legible(k, Code)
  {
    if tr != [] {
      assert tr[0] in tr;
      assert forall p | p in tr[1..] :: p in tr;
      LegibleTr(tr[1..], k);
      LegibleChar(tr[0].c, PrTr(tr[1..], k));
    }
  }

  lemma {:induction false} LegibleToken(t: string, k: string)
    requires forall c <- t :: TokenChar(c)
    ensures Legible(t + k, Code) == Legible(k, Code)
  {
    if t == "" {
      assert t + k == k;
    } else {
      assert t[0] in t;
      assert forall c | c in t[1..] :: c in t;
      LegibleToken(t[1..], k);
      assert t + k == [t[0]] + (t[1..] + k);
      LegibleChar(t[0], t[1..] + k);
    }
  }

  /** A closing quote is no part of an escape. */
  lemma EscapeInside(s: string, k: string)
    requires s != ""
    ensures Escape(s + ("\"" + k)) <==> Escape(s)
  {
    var t := s + ("\"" + k);
    assert forall i | 0 <= i < |s| :: t[i] == s[i];
    assert t[|s|] == '"' && !HexDigit('"');
  }

  lemma {:induction false} LegibleLiteral(s: string, k: string, escaped: bool)
    requires LiteralOk(s, escaped)
    ensures Legible(s + ("\"" + k), if escaped then Esc else Str) <==> Spelled(s, escaped) && Legible(k, Code)
  {
    var t := s + ("\"" + k);
    if s == "" {
      assert t == "\"" + k && t[1..] == k;
    } else {
      assert t[0] == s[0] && t[1..] == s[1..] + ("\"" + k);
      EscapeInside(s, k);
      LegibleLiteral(s[1..], k, !escaped && s[0] == '\\');
    }
  }

  lemma LegibleQuoted(s: string, k: string)
    requires LiteralOk(s, false)
    ensures Legible("\"" + (s + ("\"" + k)), Code) <==> Spelled(s, false) && Legible(k, Code)
  {
    assert ("\"" + (s + ("\"" + k)))[1..] == s + ("\"" + k);
    LegibleLiteral(s, k, false);
  }

  lemma LegibleKey(key: Option<Key>, k: string)
    requires SpaceKey(key)
    ensures Legible(PrKey(key, k), Code) <==> (key.Some? ==> Spelled(key.value.literal, false)) && Legible(k, Code)
  {
    if key.Some? {
      var Key(literal, before, after) := key.value;
      LegibleTr(after, k);
      LegibleChar(':', PrTr(after, k));
      LegibleTr(before, ":" + PrTr(after, k));
      LegibleQuoted(literal, PrTr(before, ":" + PrTr(after, k)));
    }
  }

  /** A printed value is legible exactly when its literals are. */
  lemma {:induction false} LegiblePrV(v: Value, k: string)
    requires StrictV(v)
    ensures Legible(PrV(v, k), Code) <==> LegibleV(v) && Legible(k, Code)
    decreases v
  {
    match v
    case Text(s) => LegibleQuoted(s, k);
    case Scalar(t) => LegibleToken(t, k);
    case Array(items) =>
      LegibleChar(']', k);
      LegiblePrI(items, false, "]" + k);
      LegibleChar('[', PrI(items, "]" + k));
    case Object(items) =>
      LegibleChar('}', k);
      LegiblePrI(items, true, "}" + k);
      LegibleChar('{', PrI(items, "}" + k));
  }

  lemma {:induction false} LegiblePrI(it: Items, named: bool, k: string)
    requires StrictI(it, named)
    ensures Legible(PrI(it, k), Code) <==> LegibleI(it) && Legible(k, Code)
    decreases it
  {
    match it
    case Close(tr) => LegibleTr(tr, k);
    case Item(pre, key, value, post, comma, rest) =>
      var r := PrI(rest, k);
      var c := (if comma then "," else "") + r;
      LegiblePrI(rest, named, k);
      if comma { LegibleChar(',', r); } else { assert c == r; }
      LegibleTr(post, c);
      LegiblePrV(value, PrTr(post, c));
      LegibleKey(key, PrV(value, PrTr(post, c)));
      LegibleTr(pre, PrKey(key, PrV(value, PrTr(post, c))));
  }

  lemma {:induction false} CleanKeepsLegible(v: Value)
    ensures LegibleV(DropV(BlankV(v))) == LegibleV(v)
    decreases v
  {
    match v
    case Text(_) =>
    case Scalar(_) =>
    case Array(items) => CleanItemsKeepLegible(items);
    case Object(items) => CleanItemsKeepLegible(items);
  }

  lemma {:induction false} CleanItemsKeepLegible(it: Items)
    ensures LegibleI(DropI(BlankI(it))) == LegibleI(it)
    decreases it
  {
    if it.Item? {
      CleanKeepsLegible(it.value);
      CleanItemsKeepLegible(it.rest);
    }
  }

  // ---- the document ---------------------------------------------------------------------------

  /** A last line comment, like any other, becomes spaces. */
  lemma {:induction false} StripLast(body: string)
    requires LineBodyOk(body)
    ensures Strip(body, Line) == Ok(BlankLineText(body))
    ensures OnlySpaces(Spaces(BlankLineText(body)))
  {
    BlankLineIsSpace(body);
    if body != "" && !IsBreak(body[0]) {
      StripLast(body[1..]);
    } else if body != "" {
      assert body[1..] == "";
      assert Strip(body, Code) == Behind([body[0]], Ok(""));
    }
  }

  lemma LastIsBlank(last: Option<string>) returns (blank: Trivia)
    requires last.Some? ==> LineBodyOk(last.value)
    ensures OnlySpaces(blank) && Strip(LastText(last), Code) == Ok(PrTr(blank, ""))
  {
    if last.Some? {
      StripLast(last.value);
      var s := "  " + BlankLineText(last.value);
      blank := Spaces(s);
      BlankLineIsSpace(last.value);
      PrSpaces(s, "");
      assert s + "" == s;
      assert LastText(last)[2..] == last.value;
    } else {
      blank := [];
    }
  }

  /** The text that is left of a printed document, and the value whose text it is. */
  lemma PrintIsCleaned(d: Doc) returns (lead: Trivia, clean: Value, k: string)
    requires ShapeOk(d)
    ensures WithoutComments(Print(d)).Ok?
    ensures WithoutTrailingCommas(WithoutComments(Print(d)).value) == PrTr(lead, PrV(clean, k))
    ensures clean == DropV(BlankV(Object(d.items))) && StrictV(clean)
    ensures OnlySpaces(lead) && SkipSpace(k) == "" && Ends(k) && Legible(k, Code)
  {
    var root := Object(d.items);
    var blankLast := LastIsBlank(d.last);
    var tail := BlankTr(d.tail);
    var raw := PrTr(d.tail, LastText(d.last));
    lead, clean, k := BlankTr(d.lead), DropV(BlankV(root)), PrTr(tail, PrTr(blankLast, ""));
    StripTr(d.tail, LastText(d.last), PrTr(blankLast, ""));
    StripV(root, raw, k);
    StripTr(d.lead, PrV(root, raw), PrV(BlankV(root), k));
    BlankTextIsSpace(d.lead);
    BlankTextIsSpace(d.tail);
    BlankVIsSpace(root);
    CommasTr(lead, PrV(BlankV(root), k));
    CommasV(BlankV(root), k);
    CommasTr(tail, PrTr(blankLast, ""));
    CommasTr(blankLast, "");
    DropVIsStrict(BlankV(root));
    SkipSpaceTr(tail, PrTr(blankLast, ""));
    SkipSpaceTr(blankLast, "");
    PostEnds(blankLast, "");
    PostEnds(tail, PrTr(blankLast, ""));
    LegibleTr(tail, PrTr(blankLast, ""));
    LegibleTr(blankLast, "");
  }

  /** A document with a raw control character or an unknown escape in a literal is not JSON, comments or not. */
  lemma ParseJsoncRefuses(decode: string -> string, d: Doc)
    requires ShapeOk(d) && !LegibleI(d.items)
    ensures ParseJsonc(decode, Print(d)).Err?
  {
    var lead, clean, k := PrintIsCleaned(d);
    CleanKeepsLegible(Object(d.items));
    LegiblePrV(clean, k);
    LegibleTr(lead, PrV(clean, k));
  }

  /** Parsing a printed document: its root object, the last occurrence of a name winning. */
  lemma ParseJsoncReadsPrint(decode: string -> string, d: Doc)
    requires DocOk(d)
    ensures ParseJsonc(decode, Print(d)) == Ok(JObject(MeanMembers(decode, d.items, map[])))
  {
    var lead, clean, k := PrintIsCleaned(d);
    CleanKeepsLegible(Object(d.items));
    LegiblePrV(clean, k);
    LegibleTr(lead, PrV(clean, k));
    SkipSpaceTr(lead, PrV(clean, k));
    ParsesV(decode, clean, k);
    CleanKeepsMean(decode, Object(d.items));
  }
}
