/** The raw-text scanners on a printed document: trivia, values and members end where the
    document says they end. */
module JsoncWalk {
  import opened JsoncText
  import opened JsoncGrammar
  import opened JsoncRoundTrip
  import opened JsoncSurgeon
  import opened Options

  // ---- trivia -------------------------------------------------------------------

  lemma {:induction false} AfterNewlineOf(body: string, k: string)
    requires forall i | 0 <= i < |body| :: body[i] != '\n'
    ensures AfterNewline(body + ("\n" + k)) == k
  {
    var s := body + ("\n" + k);
    if body == "" {
      assert s == "\n" + k && s[1..] == k;
    } else {
      assert s[1..] == body[1..] + ("\n" + k);
      AfterNewlineOf(body[1..], k);
    }
  }

  lemma {:induction false} AfterCloseOf(body: string, k: string)
    requires BlockBodyOk(body)
    ensures AfterClose(body + ("*/" + k)) == Ok(k)
  {
    var s := body + ("*/" + k);
    if body == "" {
      assert s == "*/" + k && s[2..] == k;
    } else {
      assert s[1..] == body[1..] + ("*/" + k);
      assert !EndsBlock(s);
      AfterCloseOf(body[1..], k);
    }
  }

  lemma LineText(body: string, k: string)
    requires LineBodyOk(body)
    ensures var s := ("//" + body + "\n") + k; |s| >= 2 && StartsLine(s) && AfterNewline(s[2..]) == k
  {
    var s := ("//" + body + "\n") + k;
    assert s[2..] == body + ("\n" + k);
    AfterNewlineOf(body, k);
  }

  lemma BlockText(body: string, k: string)
    requires BlockBodyOk(body)
    ensures var s := ("/*" + body + "*/") + k; |s| >= 2 && StartsBlock(s) && AfterClose(s[2..]) == Ok(k)
  {
    var s := ("/*" + body + "*/") + k;
    assert s[2..] == body + ("*/" + k);
    AfterCloseOf(body, k);
  }

  /** Where a comment piece ends, found by its end mark. */
  lemma CommentText(p: Piece, k: string)
    requires PieceOk(p) && !p.Space?
    ensures var s := PieceText(p) + k;
            && |s| >= 2
            && (p.LineComment? ==> StartsLine(s) && AfterNewline(s[2..]) == k)
            && (p.BlockComment? ==> StartsBlock(s) && AfterClose(s[2..]) == Ok(k))
  {
    if p.LineComment? { LineText(p.body, k); } else { BlockText(p.body, k); }
  }

  lemma SkipPiece(p: Piece, k: string)
    requires PieceOk(p)
    ensures SkipTrivia(PieceText(p) + k) == SkipTrivia(k)
  {
    if p.Space? {
      assert ([p.c] + k)[1..] == k;
    } else {
      CommentText(p, k);
    }
  }

  lemma {:induction false} SkipTr(tr: Trivia, k: string)
    requires TriviaOk(tr)
    ensures SkipTrivia(PrTr(tr, k)) == SkipTrivia(k)
  {
    if tr != [] {
      assert PieceOk(tr[0]);
      SkipPiece(tr[0], PrTr(tr[1..], k));
      SkipTr(tr[1..], k);
    }
  }

  /** Not the start of trivia. */
  predicate Stops(k: string) {
    k == "" || (!IsSpace(k[0]) && k[0] != '/')
  }

  // ---- values -------------------------------------------------------------------

  lemma BracketPiece(p: Piece, k: string, stack: seq<char>)
    requires PieceOk(p) && stack != []
    ensures BracketRest(PieceText(p) + k, stack) == BracketRest(k, stack)
  {
    if p.Space? {
      assert ([p.c] + k)[1..] == k;
    } else {
      CommentText(p, k);
    }
  }

  lemma {:induction false} BracketTr(tr: Trivia, k: string, stack: seq<char>)
    requires TriviaOk(tr) && stack != []
    ensures BracketRest(PrTr(tr, k), stack) == BracketRest(k, stack)
  {
    if tr != [] {
      assert PieceOk(tr[0]);
      BracketPiece(tr[0], PrTr(tr[1..], k), stack);
      BracketTr(tr[1..], k, stack);
    }
  }

  lemma BracketQuoted(lit: string, k: string, stack: seq<char>)
    requires LiteralOk(lit, false) && stack != []
    ensures BracketRest("\"" + (lit + ("\"" + k)), stack) == BracketRest(k, stack)
  {
    assert ("\"" + (lit + ("\"" + k)))[1..] == lit + ("\"" + k);
    StringRestOfLiteral(lit, k, false);
  }

  lemma {:induction false} BracketToken(t: string, k: string, stack: seq<char>)
    requires (forall c <- t :: TokenChar(c)) && stack != []
    ensures BracketRest(t + k, stack) == BracketRest(k, stack)
  {
    if t == "" {
      assert t + k == k;
    } else {
      assert TokenChar(t[0]);
      assert t + k == [t[0]] + (t[1..] + k);
      BracketToken(t[1..], k, stack);
    }
  }

  lemma BracketKey(key: Option<Key>, k: string, stack: seq<char>)
    requires (key.Some? ==> KeyOk(key.value)) && stack != []
    ensures BracketRest(PrKey(key, k), stack) == BracketRest(k, stack)
  {
    if key.Some? {
      var Key(literal, before, after) := key.value;
      BracketQuoted(literal, PrTr(before, ":" + PrTr(after, k)), stack);
      BracketTr(before, ":" + PrTr(after, k), stack);
      BracketTr(after, k, stack);
    }
  }

  lemma BracketOpen(open: char, close: char, body: string, k: string, stack: seq<char>)
    requires Opens(open) && Closes(close) && Opener(close) == open
    requires BracketRest(body, stack + [open]) == BracketRest([close] + k, stack + [open])
    ensures stack != [] ==> BracketRest([open] + body, stack) == BracketRest(k, stack)
    ensures stack == [] ==> BracketRest(body, [open]) == Ok(k)
  {
    assert ([open] + body)[1..] == body && ([close] + k)[1..] == k;
    assert (stack + [open])[..|stack|] == stack;
    assert stack == [] ==> stack + [open] == [open];
  }

  lemma {:induction false} BracketV(v: Value, k: string, stack: seq<char>)
    requires ValueOk(v) && stack != []
    ensures BracketRest(PrV(v, k), stack) == BracketRest(k, stack)
    decreases v
  {
    match v
    case Text(s) => BracketQuoted(s, k, stack);
    case Scalar(t) => BracketToken(t, k, stack);
    case Array(items) =>
      BracketI(items, false, "]" + k, stack + ['[']);
      BracketOpen('[', ']', PrI(items, "]" + k), k, stack);
    case Object(items) =>
      BracketI(items, true, "}" + k, stack + ['{']);
      BracketOpen('{', '}', PrI(items, "}" + k), k, stack);
  }

  lemma {:induction false} BracketI(it: Items, named: bool, k: string, stack: seq<char>)
    requires ItemsOk(it, named) && stack != []
    ensures BracketRest(PrI(it, k), stack) == BracketRest(k, stack)
    decreases it
  {
    match it
    case Close(tr) => BracketTr(tr, k, stack);
    case Item(pre, key, value, post, comma, rest) =>
      var r := PrI(rest, k);
      var c := (if comma then "," else "") + r;
      BracketTr(pre, PrKey(key, PrV(value, PrTr(post, c))), stack);
      BracketKey(key, PrV(value, PrTr(post, c)), stack);
      BracketV(value, PrTr(post, c), stack);
      BracketTr(post, c, stack);
      BracketComma(comma, r, stack);
      BracketI(rest, named, k, stack);
  }

  lemma BracketComma(comma: bool, r: string, stack: seq<char>)
    requires stack != []
    ensures BracketRest((if comma then "," else "") + r, stack) == BracketRest(r, stack)
  {
    if comma { assert ("," + r)[1..] == r; } else { assert "" + r == r; }
  }

  function DropSpaces(tr: Trivia): Trivia {
    if tr != [] && tr[0].Space? then DropSpaces(tr[1..]) else tr
  }

  lemma {:induction false} DropSpacesOk(tr: Trivia)
    requires TriviaOk(tr)
    ensures TriviaOk(DropSpaces(tr))
  {
    if tr != [] && tr[0].Space? { DropSpacesOk(tr[1..]); }
  }

  /** The trivia behind a value that its span does not swallow. */
  function Left(v: Value, post: Trivia): Trivia {
    if v.Scalar? then DropSpaces(post) else post
  }

  /** A comma or a closing bracket. */
  predicate Delimits(k: string) {
    k != "" && (k[0] == ',' || Closes(k[0]))
  }

  lemma {:induction false} ScalarRestTr(tr: Trivia, k: string)
    requires TriviaOk(tr) && Delimits(k)
    ensures ScalarRest(PrTr(tr, k)) == PrTr(DropSpaces(tr), k)
  {
    if tr != [] {
      assert PieceOk(tr[0]);
      if tr[0].Space? {
        assert PrTr(tr, k)[1..] == PrTr(tr[1..], k);
        ScalarRestTr(tr[1..], k);
      } else {
        CommentText(tr[0], PrTr(tr[1..], k));
      }
    }
  }

  lemma {:induction false} ScalarRestToken(t: string, k: string)
    requires forall c <- t :: TokenChar(c)
    ensures ScalarRest(t + k) == ScalarRest(k)
  {
    if t == "" {
      assert t + k == k;
    } else {
      assert TokenChar(t[0]);
      assert (t + k)[1..] == t[1..] + k;
      ScalarRestToken(t[1..], k);
    }
  }

  lemma ValueStarts(v: Value, k: string)
    requires ValueOk(v)
    ensures PrV(v, k) != "" && Stops(PrV(v, k))
  {
    if v.Scalar? { assert TokenChar(v.token[0]); }
  }

  lemma BracketValueRest(v: Value, k: string)
    requires ValueOk(v) && (v.Array? || v.Object?)
    ensures ValueRest(PrV(v, k)) == Ok(k)
  {
    var s := PrV(v, k);
    assert [] + ['['] == ['['] && [] + ['{'] == ['{'];
    if v.Array? {
      assert s[1..] == PrI(v.items, "]" + k);
      BracketI(v.items, false, "]" + k, ['[']);
      BracketOpen('[', ']', PrI(v.items, "]" + k), k, []);
    } else {
      assert s[1..] == PrI(v.items, "}" + k);
      BracketI(v.items, true, "}" + k, ['{']);
      BracketOpen('{', '}', PrI(v.items, "}" + k), k, []);
    }
    assert SkipTrivia(s) == Ok(s);
  }

  /** A value's span ends behind the value; behind a scalar, also behind the whitespace that follows. */
  lemma ValueRestOf(v: Value, post: Trivia, k: string)
    requires ValueOk(v) && TriviaOk(post) && Delimits(k)
    ensures ValueRest(PrV(v, PrTr(post, k))) == Ok(PrTr(Left(v, post), k))
  {
    var x := PrTr(post, k);
    if v.Text? {
      assert ("\"" + (v.literal + ("\"" + x)))[1..] == v.literal + ("\"" + x);
      StringRestOfLiteral(v.literal, x, false);
    } else if v.Scalar? {
      assert TokenChar(v.token[0]);
      ScalarRestToken(v.token, x);
      ScalarRestTr(post, k);
    } else {
      BracketValueRest(v, x);
    }
  }

  // ---- members ------------------------------------------------------------------

  /** What follows an item's trailing trivia. */
  function Tail(it: Items, k: string): string
    requires it.Item?
  {
    (if it.comma then "," else "") + PrI(it.rest, k)
  }

  /** The member an item prints as. */
  function MemberOf(decode: string -> string, it: Items, k: string): Member
    requires it.Item? && it.key.Some?
  {
    var v := PrV(it.value, PrTr(it.post, Tail(it, k)));
    Member(decode(it.key.value.literal), PrKey(it.key, v), v, PrTr(Left(it.value, it.post), Tail(it, k)), Tail(it, k))
  }

  lemma ColonOver(before: Trivia, after: Trivia, v: string, strict: bool)
    requires TriviaOk(before) && TriviaOk(after) && Stops(v)
    ensures BehindColon(PrTr(before, ":" + PrTr(after, v)), strict) == Ok(v)
  {
    SkipTr(before, ":" + PrTr(after, v));
    assert (":" + PrTr(after, v))[1..] == PrTr(after, v);
    SkipTr(after, v);
  }

  lemma ReadsMember(decode: string -> string, it: Items, k: string, strict: bool)
    requires it.Item? && ItemsOk(it, true) && Delimits(k)
    ensures var m := MemberOf(decode, it, k);
            && m.keyStart != "" && m.keyStart[0] == '"'
            && ReadMember(decode, m.keyStart, strict) == Ok(m)
  {
    var m := MemberOf(decode, it, k);
    var v := m.valueStart;
    var Key(literal, before, after) := it.key.value;
    var r := PrTr(before, ":" + PrTr(after, v));
    var s := m.keyStart;
    assert s == "\"" + (literal + ("\"" + r));
    QuotedRead(literal, r);
    ValueStarts(it.value, PrTr(it.post, Tail(it, k)));
    ColonOver(before, after, v, strict);
    ValueRestOf(it.value, it.post, Tail(it, k));
    if it.value.Scalar? { DropSpacesOk(it.post); }
    SkipTr(Left(it.value, it.post), Tail(it, k));
  }

  /** The last item named `key`. */
  function LastNamed(decode: string -> string, it: Items, key: string, k: string, found: Option<Member>): Option<Member>
    requires ItemsOk(it, true)
  {
    match it
    case Close(_) => found
    case Item(_, _, _, _, _, rest) =>
      var m := MemberOf(decode, it, k);
      LastNamed(decode, rest, key, k, if m.name == key then Some(m) else found)
  }

  lemma SkipToKey(it: Items, named: bool, k: string)
    requires it.Item? && ItemsOk(it, true)
    ensures SkipTrivia(PrI(it, k)) == Ok(PrKey(it.key, PrV(it.value, PrTr(it.post, Tail(it, k)))))
  {
    SkipTr(it.pre, PrKey(it.key, PrV(it.value, PrTr(it.post, Tail(it, k)))));
  }

  lemma FindOnItem(decode: string -> string, it: Items, key: string, k: string, found: Option<Member>)
    requires it.Item? && ItemsOk(it, true)
    ensures var m := MemberOf(decode, it, "}" + k);
            var found' := if m.name == key then Some(m) else found;
            SpanTurn(decode, PrI(it, "}" + k), key, found)
            == if it.comma then FindMore(PrI(it.rest, "}" + k), found') else FindEnd(found')
  {
    var close := "}" + k;
    var m := MemberOf(decode, it, close);
    SkipToKey(it, true, close);
    ReadsMember(decode, it, close, true);
    if it.comma {
      assert m.after == "," + PrI(it.rest, close);
      assert m.after[1..] == PrI(it.rest, close);
    } else {
      assert m.after == close;
    }
  }

  lemma {:induction false} WalkFindsLast(decode: string -> string, it: Items, key: string, k: string,
                                         found: Option<Member>)
    requires ItemsOk(it, true)
    ensures SpanFrom(decode, PrI(it, "}" + k), key, found) == Ok(LastNamed(decode, it, key, "}" + k, found))
    decreases it
  {
    if it.Close? {
      SkipTr(it.tr, "}" + k);
    } else {
      FindOnItem(decode, it, key, k, found);
      if it.comma {
        var m := MemberOf(decode, it, "}" + k);
        WalkFindsLast(decode, it.rest, key, k, if m.name == key then Some(m) else found);
      }
    }
  }

  /** The items named `key`, in order. */
  function AllNamed(decode: string -> string, it: Items, key: string, k: string): seq<Member>
    requires ItemsOk(it, true)
  {
    match it
    case Close(_) => []
    case Item(_, _, _, _, _, rest) =>
      var m := MemberOf(decode, it, k);
      (if m.name == key then [m] else []) + AllNamed(decode, rest, key, k)
  }

  lemma TurnOnItem(decode: string -> string, it: Items, key: string, k: string, acc: seq<Member>)
    requires it.Item? && ItemsOk(it, true)
    ensures var m := MemberOf(decode, it, "}" + k);
            var acc' := if m.name == key then acc + [m] else acc;
            SpansTurn(decode, PrI(it, "}" + k), key, acc)
            == if it.comma then More(PrI(it.rest, "}" + k), acc') else Stop(acc')
  {
    var close := "}" + k;
    var m := MemberOf(decode, it, close);
    SkipToKey(it, true, close);
    ReadsMember(decode, it, close, false);
    if it.comma {
      assert m.after == "," + PrI(it.rest, close);
      assert m.after[1..] == PrI(it.rest, close);
    } else {
      assert m.after == close;
    }
  }

  lemma GoOn(decode: string -> string, s: string, key: string, acc: seq<Member>, turn: Turn)
    requires turn == SpansTurn(decode, s, key, acc) && !turn.Fail?
    ensures SpansFrom(decode, s, key, acc)
         == if turn.More? then SpansFrom(decode, turn.from, key, turn.members) else Ok(turn.members)
  {
  }

  /** The item itself, when it is named `key`. */
  function Own(decode: string -> string, it: Items, key: string, k: string): seq<Member>
    requires it.Item? && it.key.Some?
  {
    var m := MemberOf(decode, it, k);
    if m.name == key then [m] else []
  }

  lemma WalkItem(decode: string -> string, it: Items, key: string, k: string, acc: seq<Member>)
    requires it.Item? && ItemsOk(it, true)
    ensures var own := Own(decode, it, key, "}" + k);
            SpansFrom(decode, PrI(it, "}" + k), key, acc)
            == if it.comma then SpansFrom(decode, PrI(it.rest, "}" + k), key, acc + own) else Ok(acc + own)
  {
    TurnOnItem(decode, it, key, k, acc);
    var own := Own(decode, it, key, "}" + k);
    assert own == [] ==> acc + own == acc;
    GoOn(decode, PrI(it, "}" + k), key, acc,
         if it.comma then More(PrI(it.rest, "}" + k), acc + own) else Stop(acc + own));
  }

  lemma AppendOwn(acc: seq<Member>, own: seq<Member>, later: seq<Member>)
    ensures (acc + own) + later == acc + (own + later)
  {
  }

  lemma {:induction false} WalkFindsAll(decode: string -> string, it: Items, key: string, k: string, acc: seq<Member>)
    requires ItemsOk(it, true)
    ensures SpansFrom(decode, PrI(it, "}" + k), key, acc) == Ok(acc + AllNamed(decode, it, key, "}" + k))
    decreases it
  {
    if it.Close? {
      SkipTr(it.tr, "}" + k);
      GoOn(decode, PrI(it, "}" + k), key, acc, Stop(acc));
      assert acc + [] == acc;
    } else {
      WalkItem(decode, it, key, k, acc);
      var own := Own(decode, it, key, "}" + k);
      var later := AllNamed(decode, it.rest, key, "}" + k);
      AppendOwn(acc, own, later);
      if it.comma {
        WalkFindsAll(decode, it.rest, key, k, acc + own);
      } else {
        assert (acc + own) + [] == acc + own;
      }
    }
  }

  /** The root object of a printed document is found behind its leading trivia. */
  lemma RootOf(d: Doc)
    requires DocOk(d)
    ensures SkipTrivia(Print(d)) == Ok("{" + PrI(d.items, "}" + PrTr(d.tail, LastText(d.last))))
  {
    SkipTr(d.lead, "{" + PrI(d.items, "}" + PrTr(d.tail, LastText(d.last))));
  }
}
