/** Setting a top-level property changes exactly that property of the parsed document, and
    touches exactly one stretch of the text. */
module JsoncLens {
  import opened JsoncText
  import opened JsoncGrammar
  import opened JsoncRoundTrip
  import opened JsoncSurgeon
  import opened JsoncWalk
  import opened LineText
  import opened Options

  // ---- printing in front of a text ---------------------------------------------------

  lemma {:induction false} TrFront(tr: Trivia, k: string)
    ensures PrTr(tr, k) == PrTr(tr, "") + k
  {
    if tr == [] {
      assert "" + k == k;
    } else {
      TrFront(tr[1..], k);
      assert (PieceText(tr[0]) + PrTr(tr[1..], "")) + k == PieceText(tr[0]) + (PrTr(tr[1..], "") + k);
    }
  }

  lemma Assoc(a: string, b: string, c: string)
    ensures a + (b + c) == (a + b) + c
  {
  }

  lemma QuoteFront(literal: string, x: string, k: string)
    ensures "\"" + (literal + ("\"" + (x + k))) == ("\"" + (literal + ("\"" + x))) + k
  {
  }

  lemma ColonFront(before: Trivia, after: Trivia, k: string)
    ensures PrTr(before, ":" + PrTr(after, k)) == PrTr(before, ":" + PrTr(after, "")) + k
  {
    var a := PrTr(after, "");
    TrFront(after, k);
    Assoc(":", a, k);
    TrFront(before, (":" + a) + k);
    TrFront(before, ":" + a);
    Assoc(PrTr(before, ""), ":" + a, k);
  }

  lemma KeyFront(key: Option<Key>, k: string)
    ensures PrKey(key, k) == PrKey(key, "") + k
  {
    if key.Some? {
      var Key(literal, before, after) := key.value;
      ColonFront(before, after, k);
      QuoteFront(literal, PrTr(before, ":" + PrTr(after, "")), k);
    } else {
      assert "" + k == k;
    }
  }

  lemma BracketFront(open: string, x: string, close: string, k: string)
    ensures open + (x + (close + k)) == (open + (x + (close + ""))) + k
  {
  }

  lemma {:induction false} ValueFront(v: Value, k: string)
    ensures PrV(v, k) == PrV(v, "") + k
    decreases v, 0
  {
    match v
    case Text(s) =>
      QuoteFront(s, "", k);
      assert "" + k == k;
    case Scalar(t) => assert t + "" == t;
    case Array(items) =>
      ItemsFront(items, "]" + k);
      ItemsFront(items, "]" + "");
      BracketFront("[", PrI(items, ""), "]", k);
    case Object(items) =>
      ItemsFront(items, "}" + k);
      ItemsFront(items, "}" + "");
      BracketFront("{", PrI(items, ""), "}", k);
  }

  /** The text of an item in front of its tail. */
  function Head(pre: Trivia, key: Option<Key>, v: Value, post: Trivia, comma: bool): string {
    PrTr(pre, "") + (PrKey(key, "") + (PrV(v, "") + (PrTr(post, "") + (if comma then "," else ""))))
  }

  lemma {:induction false} ItemsFront(it: Items, k: string)
    ensures PrI(it, k) == PrI(it, "") + k
    decreases it, 1
  {
    match it
    case Close(tr) => TrFront(tr, k);
    case Item(pre, key, v, post, comma, rest) =>
      ItemsFront(rest, k);
      FrontOfItem(it, k);
      FrontOfItem(it, "");
      var h := Head(pre, key, v, post, comma);
      Assoc(h, PrI(rest, ""), k);
  }

  lemma Assoc5(t4: string, t3: string, t2: string, t1: string, c: string, r: string)
    ensures t4 + (t3 + (t2 + (t1 + (c + r)))) == (t4 + (t3 + (t2 + (t1 + c)))) + r
  {
  }

  lemma FrontOfItem(it: Items, k: string)
    requires it.Item?
    ensures PrI(it, k) == Head(it.pre, it.key, it.value, it.post, it.comma) + PrI(it.rest, k)
    decreases it, 0
  {
    FrontOf(it.pre, it.key, it.value, it.post, if it.comma then "," else "", PrI(it.rest, k));
  }

  lemma FrontOf(pre: Trivia, key: Option<Key>, v: Value, post: Trivia, c: string, r: string)
    ensures PrTr(pre, PrKey(key, PrV(v, PrTr(post, c + r))))
         == (PrTr(pre, "") + (PrKey(key, "") + (PrV(v, "") + (PrTr(post, "") + c)))) + r
    decreases v, 1
  {
    var x1 := PrTr(post, c + r);
    var x2 := PrV(v, x1);
    var x3 := PrKey(key, x2);
    TrFront(post, c + r);
    ValueFront(v, x1);
    KeyFront(key, x2);
    TrFront(pre, x3);
    Assoc5(PrTr(pre, ""), PrKey(key, ""), PrV(v, ""), PrTr(post, ""), c, r);
  }

  // ---- a serialized value, laid out with newlines -----------------------------------------

  predicate PlainTr(tr: Trivia) {
    forall i | 0 <= i < |tr| :: tr[i].Space? && (tr[i].c == ' ' || tr[i].c == '\n')
  }

  /** Strict JSON laid out with spaces and newlines only, as json.dumps writes it: control characters are
      escaped, other line separators such as U+2028 are not. */
  predicate PlainV(v: Value) {
    match v
    case Text(s) => LiteralOk(s, false) && Spelled(s, false)
    case Scalar(t) => TokenOk(t)
    case Array(items) => PlainI(items, false)
    case Object(items) => PlainI(items, true)
  }

  predicate PlainKey(key: Option<Key>) {
    key.Some? ==>
      && LiteralOk(key.value.literal, false) && Spelled(key.value.literal, false)
      && PlainTr(key.value.before) && PlainTr(key.value.after)
  }

  predicate PlainI(it: Items, named: bool) {
    match it
    case Close(tr) => PlainTr(tr)
    case Item(pre, key, value, post, comma, rest) =>
      && PlainTr(pre) && PlainTr(post) && PlainV(value) && key.Some? == named && PlainKey(key)
      && PlainI(rest, named) && (comma <==> rest.Item?) && (!comma ==> rest == Close([]))
  }

  /** No line separator inside its literals. */
  predicate NoSepV(v: Value) {
    match v
    case Text(s) => NoSep(s)
    case Scalar(_) => true
    case Array(items) => NoSepI(items)
    case Object(items) => NoSepI(items)
  }

  predicate NoSepI(it: Items) {
    it.Item? ==> (it.key.Some? ==> NoSep(it.key.value.literal)) && NoSepV(it.value) && NoSepI(it.rest)
  }

  /** Every line separator becomes a newline and the indent. */
  function Subst(s: string, indent: string): string {
    if s == "" then ""
    else (if IsLineSep(s[0]) then "\n" + indent else [s[0]]) + Subst(s[1..], indent)
  }

  lemma {:induction false} SubstAppend(a: string, b: string, indent: string)
    ensures Subst(a + b, indent) == Subst(a, indent) + Subst(b, indent)
  {
    if a == "" {
      assert a + b == b && "" + Subst(b, indent) == Subst(b, indent);
    } else {
      assert (a + b)[1..] == a[1..] + b;
      SubstAppend(a[1..], b, indent);
      var h := if IsLineSep(a[0]) then "\n" + indent else [a[0]];
      assert h + (Subst(a[1..], indent) + Subst(b, indent)) == (h + Subst(a[1..], indent)) + Subst(b, indent);
    }
  }

  lemma {:induction false} SubstNothing(s: string, indent: string)
    requires NoSep(s)
    ensures Subst(s, indent) == s
  {
    if s != "" {
      SubstNothing(s[1..], indent);
    }
  }

  predicate NoReturns(s: string) {
    forall i | 0 <= i < |s| :: s[i] != '\r'
  }

  /** No line end of two characters, and none at the end of the text. */
  predicate SplitsInside(s: string) {
    s != "" && !IsLineSep(s[|s| - 1]) && NoReturns(s)
  }

  /** One more line in front of a reindented text. */
  lemma ReindentLine(line: string, sep: char, rest: string, indent: string)
    requires rest != "" && NoSep(line) && IsLineSep(sep) && sep != '\r'
    ensures Reindent(line + ([sep] + rest), indent) == line + ("\n" + indent + Reindent(rest, indent))
  {
    var s := line + ([sep] + rest);
    SeparatorEnds(line, sep, rest);
    var lines := SplitLines(rest);
    assert SplitLines(s)[1..] == lines;
    assert JoinIndented(lines, indent) == "\n" + indent + lines[0] + JoinIndented(lines[1..], indent);
    Assoc("\n" + indent, lines[0], JoinIndented(lines[1..], indent));
  }

  lemma LastLineOf(s: string, indent: string)
    requires NoSep(s) && s != ""
    ensures Reindent(s, indent) == s
  {
    AllOneLine(s);
    assert SplitLines(s)[1..] == SplitLines("");
    assert s + "" == s;
  }

  lemma {:induction false} LineSplits(s: string) returns (line: string, sep: char, rest: string)
    requires SplitsInside(s) && !NoSep(s)
    ensures NoSep(line) && IsLineSep(sep) && sep != '\r' && s == line + ([sep] + rest) && SplitsInside(rest)
  {
    if IsLineSep(s[0]) {
      line, sep, rest := "", s[0], s[1..];
      assert s == "" + ([sep] + rest);
      assert s[|s| - 1] == rest[|rest| - 1];
    } else {
      assert s[1..] != "";
      assert s[1..][|s| - 2] == s[|s| - 1];
      var more;
      more, sep, rest := LineSplits(s[1..]);
      line := [s[0]] + more;
      Assoc([s[0]], more, [sep] + rest);
    }
  }

  /** splitlines and joining again is putting a newline and the indent in the place of every separator. */
  lemma {:induction false} ReindentIsSubst(s: string, indent: string)
    requires SplitsInside(s)
    ensures Reindent(s, indent) == Subst(s, indent)
    decreases |s|
  {
    if NoSep(s) {
      LastLineOf(s, indent);
      SubstNothing(s, indent);
    } else {
      var line, sep, rest := LineSplits(s);
      ReindentLine(line, sep, rest, indent);
      ReindentIsSubst(rest, indent);
      SubstAppend(line, [sep] + rest, indent);
      SubstNothing(line, indent);
      assert ([sep] + rest)[1..] == rest;
    }
  }

  function IndentTr(tr: Trivia, indent: string): Trivia {
    if tr == [] then []
    else if tr[0] == Space('\n') then [tr[0]] + Spaces(indent) + IndentTr(tr[1..], indent)
    else [tr[0]] + IndentTr(tr[1..], indent)
  }

  function IndentKey(key: Option<Key>, indent: string): Option<Key> {
    match key
    case None => None
    case Some(Key(literal, before, after)) =>
      Some(Key(Subst(literal, indent), IndentTr(before, indent), IndentTr(after, indent)))
  }

  function IndentV(v: Value, indent: string): Value {
    match v
    case Text(s) => Text(Subst(s, indent))
    case Scalar(_) => v
    case Array(items) => Array(IndentI(items, indent))
    case Object(items) => Object(IndentI(items, indent))
  }

  function IndentI(it: Items, indent: string): Items {
    match it
    case Close(tr) => Close(IndentTr(tr, indent))
    case Item(pre, key, value, post, comma, rest) =>
      Item(IndentTr(pre, indent), IndentKey(key, indent), IndentV(value, indent), IndentTr(post, indent), comma,
           IndentI(rest, indent))
  }

  predicate Blanks(s: string) {
    forall i | 0 <= i < |s| :: Blank(s[i])
  }

  lemma {:induction false} SubstTr(tr: Trivia, k: string, indent: string)
    requires PlainTr(tr) && Blanks(indent)
    ensures Subst(PrTr(tr, k), indent) == PrTr(IndentTr(tr, indent), Subst(k, indent))
    ensures OnlySpaces(IndentTr(tr, indent))
  {
    if tr != [] {
      SubstTr(tr[1..], k, indent);
      var more := IndentTr(tr[1..], indent);
      var k' := Subst(k, indent);
      assert PrTr(tr, k)[1..] == PrTr(tr[1..], k);
      if tr[0] == Space('\n') {
        PrTrConcat([tr[0]] + Spaces(indent), more, k');
        PrTrConcat([tr[0]], Spaces(indent), PrTr(more, k'));
        PrSpaces(indent, PrTr(more, k'));
        assert PrTr([tr[0]], indent + PrTr(more, k')) == "\n" + (indent + PrTr(more, k'));
        assert "\n" + (indent + PrTr(more, k')) == ("\n" + indent) + PrTr(more, k');
      } else {
        PrTrConcat([tr[0]], more, k');
        assert PrTr([tr[0]], PrTr(more, k')) == [tr[0].c] + PrTr(more, k');
      }
    }
  }

  lemma SubstLiteral(s: string, k: string, indent: string)
    ensures Subst("\"" + (s + ("\"" + k)), indent) == "\"" + (Subst(s, indent) + ("\"" + Subst(k, indent)))
  {
    assert ("\"" + (s + ("\"" + k)))[1..] == s + ("\"" + k);
    SubstAppend(s, "\"" + k, indent);
    assert ("\"" + k)[1..] == k;
  }

  lemma SubstChar(c: char, k: string, indent: string)
    requires !IsLineSep(c)
    ensures Subst([c] + k, indent) == [c] + Subst(k, indent)
  {
  }

  lemma SubstToken(t: string, k: string, indent: string)
    requires TokenOk(t)
    ensures Subst(t + k, indent) == t + Subst(k, indent)
  {
    forall i | 0 <= i < |t| ensures !IsLineSep(t[i]) { assert TokenChar(t[i]); }
    SubstNothing(t, indent);
    SubstAppend(t, k, indent);
  }

  lemma SubstKey(key: Option<Key>, k: string, indent: string)
    requires PlainKey(key) && Blanks(indent)
    ensures Subst(PrKey(key, k), indent) == PrKey(IndentKey(key, indent), Subst(k, indent))
  {
    if key.Some? {
      var Key(literal, before, after) := key.value;
      SubstTr(after, k, indent);
      SubstChar(':', PrTr(after, k), indent);
      SubstTr(before, ":" + PrTr(after, k), indent);
      SubstLiteral(literal, PrTr(before, ":" + PrTr(after, k)), indent);
    }
  }

  lemma {:induction false} SubstV(v: Value, k: string, indent: string)
    requires PlainV(v) && Blanks(indent)
    ensures Subst(PrV(v, k), indent) == PrV(IndentV(v, indent), Subst(k, indent))
    decreases v
  {
    match v
    case Text(s) => SubstLiteral(s, k, indent);
    case Scalar(t) => SubstToken(t, k, indent);
    case Array(items) =>
      SubstChar(']', k, indent);
      SubstI(items, false, "]" + k, indent);
      SubstChar('[', PrI(items, "]" + k), indent);
    case Object(items) =>
      SubstChar('}', k, indent);
      SubstI(items, true, "}" + k, indent);
      SubstChar('{', PrI(items, "}" + k), indent);
  }

  lemma {:induction false} SubstI(it: Items, named: bool, k: string, indent: string)
    requires PlainI(it, named) && Blanks(indent)
    ensures Subst(PrI(it, k), indent) == PrI(IndentI(it, indent), Subst(k, indent))
    decreases it
  {
    match it
    case Close(tr) => SubstTr(tr, k, indent);
    case Item(pre, key, value, post, comma, rest) =>
      var r := PrI(rest, k);
      var c := (if comma then "," else "") + r;
      SubstTr(pre, PrKey(key, PrV(value, PrTr(post, c))), indent);
      SubstKey(key, PrV(value, PrTr(post, c)), indent);
      SubstV(value, PrTr(post, c), indent);
      SubstTr(post, c, indent);
      SubstI(rest, named, k, indent);
      if comma {
        SubstChar(',', r, indent);
      } else {
        assert c == r && "" + Subst(r, indent) == Subst(r, indent);
      }
  }

  lemma {:induction false} BlanksInLiteral(indent: string, t: string)
    requires Blanks(indent)
    ensures LiteralOk(indent + t, false) == LiteralOk(t, false)
  {
    if indent == "" {
      assert indent + t == t;
    } else {
      assert Blank(indent[0]) && (indent + t)[1..] == indent[1..] + t;
      BlanksInLiteral(indent[1..], t);
    }
  }

  /** A broken literal still has no quote inside. */
  lemma {:induction false} SubstInLiteral(s: string, escaped: bool, indent: string)
    requires LiteralOk(s, escaped) && Blanks(indent)
    ensures LiteralOk(Subst(s, indent), escaped)
  {
    if s != "" {
      var t := Subst(s[1..], indent);
      SubstInLiteral(s[1..], !escaped && s[0] == '\\', indent);
      if IsLineSep(s[0]) {
        Assoc("\n", indent, t);
        assert ("\n" + (indent + t))[1..] == indent + t;
        BlanksInLiteral(indent, t);
      } else {
        assert ([s[0]] + t)[1..] == t;
      }
    }
  }

  /** But it holds a newline. */
  lemma {:induction false} SubstIsLegible(s: string, indent: string)
    requires Spelled(s, false)
    ensures Spelled(Subst(s, indent), false) <==> NoSep(s)
    ensures NoSep(s) ==> Subst(s, indent) == s
  {
    if NoSep(s) {
      SubstNothing(s, indent);
    } else {
      var i :| 0 <= i < |s| && IsLineSep(s[i]);
      assert s == s[..i] + ([s[i]] + s[i + 1..]);
      SubstAppend(s[..i], [s[i]] + s[i + 1..], indent);
      assert ([s[i]] + s[i + 1..])[1..] == s[i + 1..];
      assert Subst(s, indent)[|Subst(s[..i], indent)|] == '\n';
      if Spelled(Subst(s, indent), false) { SpelledHasNoControl(Subst(s, indent), false); }
    }
  }

  /** Indenting keeps the shape of a value. It stays legible, and keeps what it means, exactly when no
      literal was broken. */
  lemma {:induction false} IndentedValue(decode: string -> string, v: Value, indent: string)
    requires PlainV(v) && Blanks(indent)
    ensures StrictV(IndentV(v, indent)) && ValueOk(IndentV(v, indent))
    ensures LegibleV(IndentV(v, indent)) <==> NoSepV(v)
    ensures NoSepV(v) ==> Mean(decode, IndentV(v, indent)) == Mean(decode, v)
    decreases v
  {
    match v
    case Text(s) =>
      SubstInLiteral(s, false, indent);
      SubstIsLegible(s, indent);
    case Scalar(_) =>
    case Array(items) => IndentedItems(decode, items, false, indent, map[]);
    case Object(items) => IndentedItems(decode, items, true, indent, map[]);
  }

  lemma IndentedKey(key: Option<Key>, indent: string)
    requires PlainKey(key) && Blanks(indent) && key.Some?
    ensures var k := IndentKey(key, indent);
            && k.Some? && SpaceKey(k) && KeyOk(k.value)
            && (Spelled(k.value.literal, false) <==> NoSep(key.value.literal))
            && (NoSep(key.value.literal) ==> k.value.literal == key.value.literal)
  {
    SubstTr(key.value.before, "", indent);
    SubstTr(key.value.after, "", indent);
    SubstInLiteral(key.value.literal, false, indent);
    SubstIsLegible(key.value.literal, indent);
  }

  lemma {:induction false} IndentedItems(decode: string -> string, it: Items, named: bool, indent: string,
                                         acc: map<string, Json>)
    requires PlainI(it, named) && Blanks(indent)
    ensures StrictI(IndentI(it, indent), named) && ItemsOk(IndentI(it, indent), named)
    ensures LegibleI(IndentI(it, indent)) <==> NoSepI(it)
    ensures NoSepI(it) ==> MeanElems(decode, IndentI(it, indent)) == MeanElems(decode, it)
    ensures NoSepI(it) ==> MeanMembers(decode, IndentI(it, indent), acc) == MeanMembers(decode, it, acc)
    decreases it
  {
    match it
    case Close(tr) => SubstTr(tr, "", indent);
    case Item(pre, key, value, post, comma, rest) =>
      SubstTr(pre, "", indent);
      SubstTr(post, "", indent);
      if key.Some? { IndentedKey(key, indent); }
      IndentedValue(decode, value, indent);
      IndentedItems(decode, rest, named, indent,
                    if key.Some? then acc[decode(key.value.literal) := Mean(decode, value)] else acc);
  }

  lemma ReturnsJoin(a: string, b: string)
    requires NoReturns(a) && NoReturns(b)
    ensures NoReturns(a + b)
  {
  }

  lemma {:induction false} PlainTrReturns(tr: Trivia, k: string)
    requires PlainTr(tr) && NoReturns(k)
    ensures NoReturns(PrTr(tr, k))
  {
    if tr != [] {
      PlainTrReturns(tr[1..], k);
    }
  }

  lemma PlainLiteralReturns(s: string, k: string)
    requires Spelled(s, false) && NoReturns(k)
    ensures NoReturns("\"" + (s + ("\"" + k)))
  {
    SpelledHasNoControl(s, false);
  }

  lemma PlainKeyReturns(key: Option<Key>, k: string)
    requires PlainKey(key) && NoReturns(k)
    ensures NoReturns(PrKey(key, k))
  {
    if key.Some? {
      var Key(literal, before, after) := key.value;
      PlainTrReturns(after, k);
      ReturnsJoin(":", PrTr(after, k));
      PlainTrReturns(before, ":" + PrTr(after, k));
      PlainLiteralReturns(literal, PrTr(before, ":" + PrTr(after, k)));
    }
  }

  lemma {:induction false} PlainVReturns(v: Value, k: string)
    requires PlainV(v) && NoReturns(k)
    ensures NoReturns(PrV(v, k))
    decreases v
  {
    match v
    case Text(s) => PlainLiteralReturns(s, k);
    case Scalar(t) =>
      forall i | 0 <= i < |t| ensures t[i] != '\r' { assert TokenChar(t[i]); }
      ReturnsJoin(t, k);
    case Array(items) =>
      ReturnsJoin("]", k);
      PlainIReturns(items, false, "]" + k);
      ReturnsJoin("[", PrI(items, "]" + k));
    case Object(items) =>
      ReturnsJoin("}", k);
      PlainIReturns(items, true, "}" + k);
      ReturnsJoin("{", PrI(items, "}" + k));
  }

  lemma {:induction false} PlainIReturns(it: Items, named: bool, k: string)
    requires PlainI(it, named) && NoReturns(k)
    ensures NoReturns(PrI(it, k))
    decreases it
  {
    match it
    case Close(tr) => PlainTrReturns(tr, k);
    case Item(pre, key, value, post, comma, rest) =>
      PlainIReturns(rest, named, k);
      var c := if comma then "," else "";
      ReturnsJoin(c, PrI(rest, k));
      PlainTrReturns(post, c + PrI(rest, k));
      PlainVReturns(value, PrTr(post, c + PrI(rest, k)));
      PlainKeyReturns(key, PrV(value, PrTr(post, c + PrI(rest, k))));
      PlainTrReturns(pre, PrKey(key, PrV(value, PrTr(post, c + PrI(rest, k)))));
  }

  lemma PlainEndsSolid(v: Value)
    requires PlainV(v)
    ensures PrV(v, "") != "" && !IsLineSep(PrV(v, "")[|PrV(v, "")| - 1])
  {
    match v
    case Text(s) => assert PrV(v, "")[|PrV(v, "")| - 1] == '"';
    case Scalar(t) => assert PrV(v, "") == t && TokenChar(t[|t| - 1]);
    case Array(items) => ItemsFront(items, "]" + "");
    case Object(items) => ItemsFront(items, "}" + "");
  }

  /** What reindenting makes of a serialized value: the value, indented, and any literal with a separator
      broken. */
  lemma WrittenText(decode: string -> string, v: Value, indent: string)
    requires PlainV(v) && Blanks(indent)
    ensures PrV(v, "") != "" && Reindent(PrV(v, ""), indent) == PrV(IndentV(v, indent), "")
    ensures ValueOk(IndentV(v, indent)) && (LegibleV(IndentV(v, indent)) <==> NoSepV(v))
  {
    PlainEndsSolid(v);
    PlainVReturns(v, "");
    ReindentIsSubst(PrV(v, ""), indent);
    SubstV(v, "", indent);
    IndentedValue(decode, v, indent);
  }

  /** A value whose literals stay in one piece. */
  lemma WrittenValue(decode: string -> string, v: Value, indent: string)
    requires PlainV(v) && NoSepV(v) && Blanks(indent)
    ensures Mean(decode, IndentV(v, indent)) == Mean(decode, v)
    ensures Loads(decode, PrV(IndentV(v, indent), "")) == Ok(Mean(decode, v))
  {
    IndentedValue(decode, v, indent);
    LoadsStrict(decode, IndentV(v, indent));
  }

  lemma LoadsStrict(decode: string -> string, v: Value)
    requires StrictV(v) && LegibleV(v)
    ensures Loads(decode, PrV(v, "")) == Ok(Mean(decode, v))
  {
    LegiblePrV(v, "");
    if v.Scalar? { assert TokenChar(v.token[0]); }
    assert SkipSpace(PrV(v, "")) == PrV(v, "");
    ParsesV(decode, v, "");
  }

  lemma {:induction false} LeadBlanksAreBlanks(s: string)
    ensures Blanks(LeadBlanks(s))
  {
    if s != "" && Blank(s[0]) {
      LeadBlanksAreBlanks(s[1..]);
    }
  }

  lemma {:induction false} FirstIndentIsBlanks(s: string)
    ensures FirstMemberIndent(s).Some? ==> Blanks(FirstMemberIndent(s).value)
    decreases |s|
  {
    LeadBlanksAreBlanks(s);
    if s != "" {
      FirstIndentIsBlanks(AfterNewline(s));
    }
  }

  lemma MemberIndentIsBlanks(text: string, root: string)
    requires |root| <= |text|
    ensures Blanks(MemberIndent(text, root))
  {
    var stripped := WithoutComments(text);
    var end := ValueRest(root);
    if stripped.Ok? && end.Ok? && |stripped.value| == |text| && |root| >= 2 + |end.value| {
      FirstIndentIsBlanks(stripped.value[|text| - |root| + 1..|text| - |end.value| - 1]);
    }
  }

  // ---- replacing the last occurrence -------------------------------------------------------

  predicate HasKey(decode: string -> string, it: Items, key: string)
    requires ItemsOk(it, true)
  {
    it.Item? && (decode(it.key.value.literal) == key || HasKey(decode, it.rest, key))
  }

  /** The members with the last one named `key` given the value `nv`. */
  function ReplaceLast(decode: string -> string, it: Items, key: string, nv: Value): Items
    requires ItemsOk(it, true)
  {
    match it
    case Close(_) => it
    case Item(pre, k, value, post, comma, rest) =>
      if HasKey(decode, rest, key) then Item(pre, k, value, post, comma, ReplaceLast(decode, rest, key, nv))
      else if decode(k.value.literal) == key then Item(pre, k, nv, Left(value, post), comma, rest)
      else it
  }

  lemma {:induction false} ReplaceLastOk(decode: string -> string, it: Items, key: string, nv: Value)
    requires ItemsOk(it, true) && ValueOk(nv)
    ensures ItemsOk(ReplaceLast(decode, it, key, nv), true)
    ensures LegibleI(it) && HasKey(decode, it, key) ==> (LegibleI(ReplaceLast(decode, it, key, nv)) <==> LegibleV(nv))
    ensures it.Item? <==> ReplaceLast(decode, it, key, nv).Item?
    decreases it
  {
    match it
    case Close(_) =>
    case Item(_, _, value, post, _, rest) =>
      ReplaceLastOk(decode, rest, key, nv);
      DropSpacesOk(post);
  }

  lemma {:induction false} LastNamedSkips(decode: string -> string, it: Items, key: string, k: string,
                                          found: Option<Member>)
    requires ItemsOk(it, true)
    ensures LastNamed(decode, it, key, k, found)
         == if HasKey(decode, it, key) then LastNamed(decode, it, key, k, None) else found
    ensures HasKey(decode, it, key) ==> LastNamed(decode, it, key, k, None).Some?
    decreases it
  {
    match it
    case Close(_) =>
    case Item(_, _, _, _, _, rest) =>
      var m := MemberOf(decode, it, k);
      LastNamedSkips(decode, rest, key, k, if m.name == key then Some(m) else found);
      LastNamedSkips(decode, rest, key, k, if m.name == key then Some(m) else None);
      LastNamedSkips(decode, rest, key, k, None);
  }

  /** The member the span names, and the text in front of its value: with the value exchanged,
      the document prints as the same text in front, the new value, and the text behind the span. */
  lemma {:induction false} ReplacePrints(decode: string -> string, it: Items, key: string, nv: Value, k: string)
    returns (p: string, m: Member)
    requires ItemsOk(it, true) && HasKey(decode, it, key)
    ensures LastNamed(decode, it, key, k, None) == Some(m)
    ensures PrI(it, k) == p + m.valueStart
    ensures PrI(ReplaceLast(decode, it, key, nv), k) == p + PrV(nv, m.valueEnd)
    decreases it
  {
    var Item(pre, key', v, post, comma, rest) := it;
    var own := MemberOf(decode, it, k);
    LastNamedSkips(decode, rest, key, k, if own.name == key then Some(own) else None);
    if HasKey(decode, rest, key) {
      var q;
      q, m := ReplacePrints(decode, rest, key, nv, k);
      var h := Head(pre, key', v, post, comma);
      FrontOfItem(it, k);
      FrontOfItem(ReplaceLast(decode, it, key, nv), k);
      p := h + q;
      Assoc(h, q, m.valueStart);
      Assoc(h, q, PrV(nv, m.valueEnd));
    } else {
      m := own;
      p := PrTr(pre, "") + PrKey(key', "");
      KeyedFront(pre, key', m.valueStart);
      KeyedFront(pre, key', PrV(nv, m.valueEnd));
    }
  }

  lemma KeyedFront(pre: Trivia, key: Option<Key>, x: string)
    ensures PrTr(pre, PrKey(key, x)) == (PrTr(pre, "") + PrKey(key, "")) + x
  {
    KeyFront(key, x);
    TrFront(pre, PrKey(key, x));
    Assoc(PrTr(pre, ""), PrKey(key, ""), x);
  }

  lemma {:induction false} OtherKeysCommute(decode: string -> string, it: Items, key: string, x: Json,
                                            acc: map<string, Json>)
    requires ItemsOk(it, true) && !HasKey(decode, it, key)
    ensures MeanMembers(decode, it, acc[key := x]) == MeanMembers(decode, it, acc)[key := x]
    decreases it
  {
    match it
    case Close(_) =>
    case Item(_, k, value, _, _, rest) =>
      var name, json := decode(k.value.literal), Mean(decode, value);
      assert acc[key := x][name := json] == acc[name := json][key := x];
      OtherKeysCommute(decode, rest, key, x, acc[name := json]);
  }

  lemma {:induction false} ReplaceMeans(decode: string -> string, it: Items, key: string, nv: Value,
                                        acc: map<string, Json>)
    requires ItemsOk(it, true) && HasKey(decode, it, key)
    ensures MeanMembers(decode, ReplaceLast(decode, it, key, nv), acc)
         == MeanMembers(decode, it, acc)[key := Mean(decode, nv)]
    decreases it
  {
    var Item(_, k, value, _, _, rest) := it;
    var name, was, now := decode(k.value.literal), Mean(decode, value), Mean(decode, nv);
    if HasKey(decode, rest, key) {
      ReplaceMeans(decode, rest, key, nv, acc[name := was]);
    } else {
      OtherKeysCommute(decode, rest, key, was, acc);
      OtherKeysCommute(decode, rest, key, now, acc);
    }
  }

  lemma {:induction false} KeysOfMeaning(decode: string -> string, it: Items, key: string, acc: map<string, Json>)
    requires ItemsOk(it, true)
    ensures key in MeanMembers(decode, it, acc) <==> HasKey(decode, it, key) || key in acc
    decreases it
  {
    match it
    case Close(_) =>
    case Item(_, k, value, _, _, rest) =>
      KeysOfMeaning(decode, rest, key, acc[decode(k.value.literal) := Mean(decode, value)]);
  }

  // ---- the lens ---------------------------------------------------------------------------

  /** The members of the parsed document. */
  function Members(decode: string -> string, d: Doc): map<string, Json> {
    MeanMembers(decode, d.items, map[])
  }

  lemma SpanOfKey(decode: string -> string, d: Doc, key: string)
    requires DocOk(d)
    ensures var k := "}" + PrTr(d.tail, LastText(d.last));
            TopSpan(decode, Print(d), key) == Ok(LastNamed(decode, d.items, key, k, None))
    ensures HasKey(decode, d.items, key) <==> key in Members(decode, d)
    ensures HasKey(decode, d.items, key) <==> TopSpan(decode, Print(d), key).value.Some?
  {
    var k := PrTr(d.tail, LastText(d.last));
    RootOf(d);
    assert ("{" + PrI(d.items, "}" + k))[1..] == PrI(d.items, "}" + k);
    WalkFindsLast(decode, d.items, key, k, None);
    LastNamedSkips(decode, d.items, key, "}" + k, None);
    KeysOfMeaning(decode, d.items, key, map[]);
  }

  lemma PrintFront(d: Doc, p: string, rest: string)
    requires "{" + PrI(d.items, "}" + PrTr(d.tail, LastText(d.last))) == p + rest
    ensures Print(d) == (PrTr(d.lead, "") + p) + rest
  {
    assert Print(d) == PrTr(d.lead, p + rest);
    TrFront(d.lead, p + rest);
    Assoc(PrTr(d.lead, ""), p, rest);
  }

  /** The text around the value the span names: exchanging the value in the document exchanges it in the text. */
  lemma Exchange(decode: string -> string, d: Doc, key: string, nv: Value) returns (before: string, m: Member)
    requires DocOk(d) && HasKey(decode, d.items, key)
    ensures TopSpan(decode, Print(d), key) == Ok(Some(m))
    ensures Print(d) == before + m.valueStart && Front(Print(d), m.valueStart) == before
    ensures Print(d.(items := ReplaceLast(decode, d.items, key, nv))) == before + PrV(nv, "") + m.valueEnd
  {
    var k := "}" + PrTr(d.tail, LastText(d.last));
    var d' := d.(items := ReplaceLast(decode, d.items, key, nv));
    SpanOfKey(decode, d, key);
    var p;
    p, m := ReplacePrints(decode, d.items, key, nv, k);
    before := PrTr(d.lead, "") + ("{" + p);
    Assoc("{", p, m.valueStart);
    PrintFront(d, "{" + p, m.valueStart);
    ValueFront(nv, m.valueEnd);
    Assoc("{", p, PrV(nv, "") + m.valueEnd);
    PrintFront(d', "{" + p, PrV(nv, "") + m.valueEnd);
    Assoc(before, PrV(nv, ""), m.valueEnd);
  }

  lemma SameFront(a: string, b: string, c: string)
    requires a + c == b + c
    ensures a == b
  {
    assert |a| == |b|;
    assert (a + c)[..|a|] == a && (b + c)[..|b|] == b;
  }

  lemma ReplacedDoc(decode: string -> string, d: Doc, key: string, nv: Value)
    requires DocOk(d) && HasKey(decode, d.items, key) && ValueOk(nv)
    ensures var d' := d.(items := ReplaceLast(decode, d.items, key, nv));
            && Members(decode, d') == Members(decode, d)[key := Mean(decode, nv)]
            && (LegibleV(nv) ==> DocOk(d') && ParseJsonc(decode, Print(d')) == Ok(JObject(Members(decode, d'))))
            && (!LegibleV(nv) ==> ParseJsonc(decode, Print(d')).Err?)
  {
    var d' := d.(items := ReplaceLast(decode, d.items, key, nv));
    ReplaceLastOk(decode, d.items, key, nv);
    ReplaceMeans(decode, d.items, key, nv, map[]);
    if LegibleV(nv) { ParseJsoncReadsPrint(decode, d'); } else { ParseJsoncRefuses(decode, d'); }
  }

  /** Where the edit of a key that is there takes place, and what it writes. */
  lemma ReplaceWrites(decode: string -> string, d: Doc, key: string, keyToken: string, v: Value)
    returns (d': Doc, before: string, nv: Value, m: Member)
    requires DocOk(d) && PlainV(v) && key in Members(decode, d)
    ensures PrV(v, "") != "" && HasKey(decode, d.items, key) && ValueOk(nv)
    ensures nv == (if '\n' in PrV(v, "") then IndentV(v, LineIndent(before)) else v) && Blanks(LineIndent(before))
    ensures d' == d.(items := ReplaceLast(decode, d.items, key, nv))
    ensures TopSpan(decode, Print(d), key) == Ok(Some(m)) && |m.valueStart| <= |Print(d)|
    ensures Front(Print(d), m.valueStart) == before && Print(d) == before + m.valueStart
    ensures Indented(PrV(v, ""), LineIndent(before)) == PrV(nv, "") && Print(d') == before + PrV(nv, "") + m.valueEnd
    ensures SetEdit(decode, Print(d), key, keyToken, PrV(v, "")) == Checked(decode, Print(d'), key, PrV(nv, ""))
  {
    KeysOfMeaning(decode, d.items, key, map[]);
    before, m := Exchange(decode, d, key, v);
    var indent := LineIndent(before);
    LeadBlanksAreBlanks(LastLine(before));
    WrittenText(decode, v, indent);
    PlainIsStrict(v);
    PlainIsOk(v);
    nv := if '\n' in PrV(v, "") then IndentV(v, indent) else v;
    var before', m' := Exchange(decode, d, key, nv);
    SameFront(before, before', m.valueStart);
    d' := d.(items := ReplaceLast(decode, d.items, key, nv));
    ParseJsoncReadsPrint(decode, d);
    PresentEdit(decode, Print(d), m, key, PrV(v, ""), PrV(nv, ""), Print(d'));
  }

  lemma PresentEdit(decode: string -> string, text: string, m: Member, key: string, serialized: string,
                    written: string, result: string)
    requires serialized != "" && |m.valueStart| <= |text|
    requires var before := Front(text, m.valueStart);
             Indented(serialized, LineIndent(before)) == written && result == before + written + m.valueEnd
    ensures SetPresent(decode, text, m, key, serialized) == Checked(decode, result, key, written)
  {
  }

  /** The value is written in one piece, or no literal can break. */
  predicate StaysWhole(v: Value, present: bool) {
    NoSepV(v) || (present && '\n' !in PrV(v, ""))
  }

  /** And it is not the one value that differs from itself. */
  predicate Settable(v: Value, present: bool) {
    StaysWhole(v, present) && v != Scalar(NAN)
  }

  lemma WholeValue(decode: string -> string, v: Value, indent: string, nv: Value)
    requires PlainV(v) && Blanks(indent) && StaysWhole(v, true)
    requires nv == if '\n' in PrV(v, "") then IndentV(v, indent) else v
    ensures LegibleV(nv) && Mean(decode, nv) == Mean(decode, v) && Loads(decode, PrV(nv, "")) == Ok(Mean(decode, v))
  {
    if '\n' in PrV(v, "") {
      WrittenValue(decode, v, indent);
      IndentedValue(decode, v, indent);
    } else {
      PlainIsStrict(v);
      SerializedLoads(decode, v);
    }
  }

  /** Setting a key that is there. `before` and `behind` are the untouched text; between them stood
      the value of the last occurrence, and now stands the new value, indented. */
  lemma SetReplaces(decode: string -> string, d: Doc, key: string, keyToken: string, v: Value)
    returns (d': Doc, before: string, nv: Value, behind: string)
    requires DocOk(d) && PlainV(v) && key in Members(decode, d) && Settable(v, true)
    ensures PrV(v, "") != ""
    ensures SetEdit(decode, Print(d), key, keyToken, PrV(v, "")) == Ok(Print(d'))
    ensures DocOk(d') && Members(decode, d') == Members(decode, d)[key := Mean(decode, v)]
    ensures ParseJsonc(decode, Print(d')) == Ok(JObject(Members(decode, d)[key := Mean(decode, v)]))
    ensures Mean(decode, nv) == Mean(decode, v) && Print(d') == before + PrV(nv, "") + behind
    ensures var span := TopSpan(decode, Print(d), key);
            && span.Ok? && span.value.Some?
            && Print(d) == before + span.value.value.valueStart && span.value.value.valueEnd == behind
  {
    var m;
    d', before, nv, m := ReplaceWrites(decode, d, key, keyToken, v);
    behind := m.valueEnd;
    WholeValue(decode, v, LineIndent(before), nv);
    ReplacedDoc(decode, d, key, nv);
    PassesCheck(decode, Print(d'), key, PrV(nv, ""), Members(decode, d'), Mean(decode, v));
  }

  /** Otherwise the self-check fails: the text is not JSON any more, or the value differs from itself. */
  lemma SetBreaksValue(decode: string -> string, d: Doc, key: string, keyToken: string, v: Value)
    requires DocOk(d) && PlainV(v) && key in Members(decode, d) && !Settable(v, true)
    ensures PrV(v, "") != "" && SetEdit(decode, Print(d), key, keyToken, PrV(v, "")).Err?
  {
    var d', before, nv, m := ReplaceWrites(decode, d, key, keyToken, v);
    if v == Scalar(NAN) {
      NanLoads(decode);
    } else {
      IndentedValue(decode, v, LineIndent(before));
      ReplacedDoc(decode, d, key, nv);
    }
    FailsCheck(decode, Print(d'), key, PrV(nv, ""));
  }

  /** The members with a new first one. */
  function InsertFirst(it: Items, literal: string, indent: string, nv: Value): Items {
    var pre := Spaces("\n" + indent);
    var name := Some(Key(literal, [], [Space(' ')]));
    if it.Close? then Item(pre, name, nv, it.tr, false, Close([])) else Item(pre, name, nv, [], true, it)
  }

  lemma NewMemberText(pre: string, literal: string, value: string, r: string)
    ensures pre + ("\"" + (literal + ("\"" + (":" + (" " + (value + r))))))
         == pre + ("\"" + literal + "\"") + ": " + value + r
  {
  }

  lemma InsertPrints(it: Items, literal: string, indent: string, nv: Value, k: string)
    ensures PrI(InsertFirst(it, literal, indent, nv), k)
         == "\n" + indent + ("\"" + literal + "\"") + ": " + PrV(nv, "") + ((if it.Item? then "," else "") + PrI(it, k))
  {
    var r := (if it.Item? then "," else "") + PrI(it, k);
    var name := Some(Key(literal, [], [Space(' ')]));
    PrSpaces("\n" + indent, PrKey(name, PrV(nv, r)));
    assert PrTr([Space(' ')], PrV(nv, r)) == " " + PrV(nv, r);
    ValueFront(nv, r);
    NewMemberText("\n" + indent, literal, PrV(nv, ""), r);
    if it.Close? {
      assert PrI(Close([]), k) == k && "" + k == k && "" + PrI(it, k) == PrI(it, k);
      assert PrTr(it.tr, "" + PrI(Close([]), k)) == r;
    } else {
      assert PrTr([], "," + PrI(it, k)) == r;
    }
  }

  lemma InsertOk(decode: string -> string, it: Items, literal: string, indent: string, nv: Value)
    requires ItemsOk(it, true) && ValueOk(nv) && LiteralOk(literal, false) && Spelled(literal, false) && Blanks(indent)
    requires !HasKey(decode, it, decode(literal))
    ensures ItemsOk(InsertFirst(it, literal, indent, nv), true)
    ensures LegibleI(InsertFirst(it, literal, indent, nv)) <==> LegibleI(it) && LegibleV(nv)
    ensures MeanMembers(decode, InsertFirst(it, literal, indent, nv), map[])
         == MeanMembers(decode, it, map[])[decode(literal) := Mean(decode, nv)]
  {
    OtherKeysCommute(decode, it, decode(literal), Mean(decode, nv), map[]);
  }

  /** The text of a new first member. */
  function NewMember(literal: string, indent: string, nv: Value, others: bool): string {
    "\n" + indent + ("\"" + literal + "\"") + ": " + PrV(nv, "") + (if others then "," else "")
  }

  lemma InsertedText(d: Doc, literal: string, indent: string, nv: Value)
    ensures var k := "}" + PrTr(d.tail, LastText(d.last));
            var before := PrTr(d.lead, "") + "{";
            && Print(d) == before + PrI(d.items, k)
            && Print(d.(items := InsertFirst(d.items, literal, indent, nv)))
               == before + NewMember(literal, indent, nv, d.items.Item?) + PrI(d.items, k)
  {
    var k := "}" + PrTr(d.tail, LastText(d.last));
    var behind := PrI(d.items, k);
    var c := if d.items.Item? then "," else "";
    var x := "\n" + indent + ("\"" + literal + "\"") + ": " + PrV(nv, "");
    PrintFront(d, "{", behind);
    InsertPrints(d.items, literal, indent, nv, k);
    Assoc(x, c, behind);
    PrintFront(d.(items := InsertFirst(d.items, literal, indent, nv)), "{", (x + c) + behind);
    Assoc(PrTr(d.lead, "") + "{", x + c, behind);
  }

  /** What the edit writes, with the new value already rendered. */
  lemma InsertEditText(before: string, behind: string, indent: string, literal: string, serialized: string, nv: Value,
                       others: bool)
    requires before != "" && before[|before| - 1] == '{'
    requires serialized != "" && Reindent(serialized, indent) == PrV(nv, "")
    ensures InsertEdit(before + behind, "{" + behind, indent, "\"" + literal + "\"", serialized, others)
         == before + NewMember(literal, indent, nv, others) + behind
  {
    var text, root := before + behind, "{" + behind;
    assert text[..|text| - |root| + 1] == before && root[1..] == behind;
    var member := "\n" + indent + ("\"" + literal + "\"") + ": " + PrV(nv, "");
    assert (before + "\n" + indent + ("\"" + literal + "\"") + ": " + PrV(nv, "")) == before + member;
  }

  lemma InsertedDoc(decode: string -> string, d: Doc, literal: string, indent: string, nv: Value)
    requires DocOk(d) && ValueOk(nv) && LiteralOk(literal, false) && Spelled(literal, false) && Blanks(indent)
    requires !HasKey(decode, d.items, decode(literal))
    ensures var d' := d.(items := InsertFirst(d.items, literal, indent, nv));
            && Members(decode, d') == Members(decode, d)[decode(literal) := Mean(decode, nv)]
            && (LegibleV(nv) ==> DocOk(d') && ParseJsonc(decode, Print(d')) == Ok(JObject(Members(decode, d'))))
            && (!LegibleV(nv) ==> ParseJsonc(decode, Print(d')).Err?)
  {
    var d' := d.(items := InsertFirst(d.items, literal, indent, nv));
    InsertOk(decode, d.items, literal, indent, nv);
    if LegibleV(nv) { ParseJsoncReadsPrint(decode, d'); } else { ParseJsoncRefuses(decode, d'); }
  }

  /** What the edit of a key that is not there writes: one member more, behind the opening brace. */
  lemma InsertWrites(decode: string -> string, d: Doc, literal: string, v: Value)
    returns (d': Doc, indent: string, before: string, member: string, behind: string)
    requires DocOk(d) && PlainV(v) && LiteralOk(literal, false) && Spelled(literal, false)
    requires decode(literal) !in Members(decode, d)
    ensures !HasKey(decode, d.items, decode(literal)) && Blanks(indent)
    ensures PrV(v, "") != "" && ValueOk(IndentV(v, indent))
    ensures d' == d.(items := InsertFirst(d.items, literal, indent, IndentV(v, indent)))
    ensures Print(d) == before + behind && Print(d') == before + member + behind
    ensures SetEdit(decode, Print(d), decode(literal), "\"" + literal + "\"", PrV(v, ""))
         == Checked(decode, Print(d'), decode(literal), PrV(v, ""))
  {
    var text := Print(d);
    before, behind := PrTr(d.lead, "") + "{", PrI(d.items, "}" + PrTr(d.tail, LastText(d.last)));
    var root := "{" + behind;
    var key, others := decode(literal), d.items.Item?;
    SpanOfKey(decode, d, key);
    ParseJsoncReadsPrint(decode, d);
    NonEmptyMeaning(decode, d.items);
    RootOf(d);
    RootEnds(d);
    indent := MemberIndent(text, root);
    MemberIndentIsBlanks(text, root);
    WrittenText(decode, v, indent);
    var nv := IndentV(v, indent);
    member := NewMember(literal, indent, nv, others);
    d' := d.(items := InsertFirst(d.items, literal, indent, nv));
    InsertedText(d, literal, indent, nv);
    InsertEditText(before, behind, indent, literal, PrV(v, ""), nv, others);
  }

  /** Setting a key that is not there: the whole text stays, with one member put in behind the
      opening brace. */
  lemma SetInserts(decode: string -> string, d: Doc, literal: string, v: Value)
    returns (d': Doc, before: string, member: string, behind: string)
    requires DocOk(d) && PlainV(v) && LiteralOk(literal, false) && Spelled(literal, false)
    requires decode(literal) !in Members(decode, d) && Settable(v, false)
    ensures PrV(v, "") != ""
    ensures SetEdit(decode, Print(d), decode(literal), "\"" + literal + "\"", PrV(v, "")) == Ok(Print(d'))
    ensures DocOk(d') && Members(decode, d') == Members(decode, d)[decode(literal) := Mean(decode, v)]
    ensures ParseJsonc(decode, Print(d')) == Ok(JObject(Members(decode, d)[decode(literal) := Mean(decode, v)]))
    ensures Print(d) == before + behind && Print(d') == before + member + behind
  {
    var indent;
    d', indent, before, member, behind := InsertWrites(decode, d, literal, v);
    WrittenValue(decode, v, indent);
    IndentedValue(decode, v, indent);
    InsertedDoc(decode, d, literal, indent, IndentV(v, indent));
    SerializedLoads(decode, v);
    PassesCheck(decode, Print(d'), decode(literal), PrV(v, ""), Members(decode, d'), Mean(decode, v));
  }

  lemma PassesCheck(decode: string -> string, result: string, key: string, serialized: string,
                    members: map<string, Json>, json: Json)
    requires ParseJsonc(decode, result) == Ok(JObject(members)) && Loads(decode, serialized) == Ok(json)
    requires key in members && members[key] == json && json != JScalar(NAN)
    ensures Checked(decode, result, key, serialized) == Ok(result)
  {
  }

  lemma FailsCheck(decode: string -> string, result: string, key: string, serialized: string)
    requires ParseJsonc(decode, result).Err? || Loads(decode, serialized) == Ok(JScalar(NAN))
    ensures Checked(decode, result, key, serialized).Err?
  {
  }

  lemma NanLoads(decode: string -> string)
    ensures PlainV(Scalar(NAN)) && Loads(decode, PrV(Scalar(NAN), "")) == Ok(JScalar(NAN))
  {
    assert NAN[1..] == "aN" && "aN"[1..] == "N" && "N"[1..] == "";
    assert Reads("", Word("")) && Reads("N", Word("N")) && Reads("aN", Word("aN"));
    assert forall c <- NAN :: TokenChar(c);
    LoadsStrict(decode, Scalar(NAN));
  }

  /** Otherwise it fails. */
  lemma InsertBreaksValue(decode: string -> string, d: Doc, literal: string, v: Value)
    requires DocOk(d) && PlainV(v) && LiteralOk(literal, false) && Spelled(literal, false)
    requires decode(literal) !in Members(decode, d) && !Settable(v, false)
    ensures PrV(v, "") != ""
    ensures SetEdit(decode, Print(d), decode(literal), "\"" + literal + "\"", PrV(v, "")).Err?
  {
    var d', indent, before, member, behind := InsertWrites(decode, d, literal, v);
    if v == Scalar(NAN) {
      NanLoads(decode);
    } else {
      IndentedValue(decode, v, indent);
      InsertedDoc(decode, d, literal, indent, IndentV(v, indent));
    }
    FailsCheck(decode, Print(d'), decode(literal), PrV(v, ""));
  }

  lemma RootEnds(d: Doc)
    requires DocOk(d)
    ensures ValueRest("{" + PrI(d.items, "}" + PrTr(d.tail, LastText(d.last)))) == Ok(PrTr(d.tail, LastText(d.last)))
  {
    BracketValueRest(Object(d.items), PrTr(d.tail, LastText(d.last)));
  }

  lemma NonEmptyMeaning(decode: string -> string, it: Items)
    requires ItemsOk(it, true)
    ensures MeanMembers(decode, it, map[]) != map[] <==> it.Item?
  {
    if it.Item? {
      KeysOfMeaning(decode, it, decode(it.key.value.literal), map[]);
    }
  }

  lemma SerializedLoads(decode: string -> string, v: Value)
    requires PlainV(v)
    ensures Loads(decode, PrV(v, "")) == Ok(Mean(decode, v))
  {
    PlainIsStrict(v);
    LoadsStrict(decode, v);
  }

  lemma {:induction false} PlainIsStrict(v: Value)
    requires PlainV(v)
    ensures StrictV(v) && LegibleV(v)
    decreases v
  {
    match v
    case Text(_) =>
    case Scalar(_) =>
    case Array(items) => PlainItemsAreStrict(items, false);
    case Object(items) => PlainItemsAreStrict(items, true);
  }

  lemma {:induction false} PlainItemsAreStrict(it: Items, named: bool)
    requires PlainI(it, named)
    ensures StrictI(it, named) && LegibleI(it)
    decreases it
  {
    match it
    case Close(_) =>
    case Item(_, _, value, _, _, rest) =>
      PlainIsStrict(value);
      PlainItemsAreStrict(rest, named);
  }

  lemma {:induction false} PlainIsOk(v: Value)
    requires PlainV(v)
    ensures ValueOk(v)
    decreases v
  {
    match v
    case Text(_) =>
    case Scalar(_) =>
    case Array(items) => PlainItemsAreOk(items, false);
    case Object(items) => PlainItemsAreOk(items, true);
  }

  lemma {:induction false} PlainItemsAreOk(it: Items, named: bool)
    requires PlainI(it, named)
    ensures ItemsOk(it, named)
    decreases it
  {
    match it
    case Close(_) =>
    case Item(_, _, value, _, _, rest) =>
      PlainIsOk(value);
      PlainItemsAreOk(rest, named);
  }

  /** Whatever the document holds under the key, or whether it holds it at all: set succeeds exactly when
      reindenting breaks no literal and the value is not NaN, and then the parsed result is the old object
      with that key set. */
  lemma SetIsALens(decode: string -> string, d: Doc, literal: string, v: Value) returns (d': Doc)
    requires DocOk(d) && PlainV(v) && LiteralOk(literal, false) && Spelled(literal, false)
    ensures PrV(v, "") != ""
    ensures var r := SetEdit(decode, Print(d), decode(literal), "\"" + literal + "\"", PrV(v, ""));
            var settable := Settable(v, decode(literal) in Members(decode, d));
            && (r.Ok? <==> settable)
            && (settable ==> r == Ok(Print(d')) && DocOk(d'))
            && (settable ==> ParseJsonc(decode, Print(d'))
                             == Ok(JObject(Members(decode, d)[decode(literal) := Mean(decode, v)])))
  {
    var before, nv, behind, member;
    d' := d;
    if decode(literal) in Members(decode, d) {
      if Settable(v, true) {
        d', before, nv, behind := SetReplaces(decode, d, decode(literal), "\"" + literal + "\"", v);
      } else {
        SetBreaksValue(decode, d, decode(literal), "\"" + literal + "\"", v);
      }
    } else if Settable(v, false) {
      d', before, member, behind := SetInserts(decode, d, literal, v);
    } else {
      InsertBreaksValue(decode, d, literal, v);
    }
  }

  /** Such a value: a string with the separator U+2028 can not be set under a new key. */
  lemma SeparatorIsRefused(decode: string -> string)
    ensures var d := Doc([], Close([]), [], None);
            && DocOk(d) && PlainV(Text("\U{2028}")) && PrV(Text("\U{2028}"), "") != ""
            && SetEdit(decode, Print(d), decode(""), "\"" + "" + "\"", PrV(Text("\U{2028}"), "")).Err?
  {
    var v := Text("\U{2028}");
    assert v.literal[1..] == "" && LiteralOk("", false) && Spelled("", false);
    assert IsLineSep(v.literal[0]);
    InsertBreaksValue(decode, Doc([], Close([]), [], None), "", v);
  }

  /** Another one: NaN can be set nowhere. */
  lemma NanIsRefused(decode: string -> string, d: Doc, literal: string)
    requires DocOk(d) && LiteralOk(literal, false) && Spelled(literal, false)
    ensures PlainV(Scalar(NAN)) && PrV(Scalar(NAN), "") != ""
    ensures SetEdit(decode, Print(d), decode(literal), "\"" + literal + "\"", PrV(Scalar(NAN), "")).Err?
  {
    NanLoads(decode);
    var d' := SetIsALens(decode, d, literal, Scalar(NAN));
  }
}
