/** What the removal of a property promises to leave alone - everything but the pair and one comma - and
    exactly when it does. */
module JsoncKeep {
  import opened JsoncText
  import opened JsoncGrammar
  import opened JsoncRoundTrip
  import opened JsoncSurgeon
  import opened JsoncWalk
  import opened JsoncLens
  import opened JsoncRemove
  import opened Options

  // ---- the text ---------------------------------------------------------------------------

  /** The members with every `key` taken out, and all trivia around the pairs kept. Which comma goes is as
      in Without. */
  function Promised(decode: string -> string, it: Items, key: string, first: bool): Cutting
    requires ItemsOk(it, true)
  {
    match it
    case Close(_) => Cutting(it, false)
    case Item(pre, k, value, post, comma, rest) =>
      var c := Promised(decode, rest, key, false);
      var tr := if c.items.Close? then c.items.tr else [];
      if decode(k.value.literal) != key then
        if c.eat || !comma then Cutting(Item(pre, k, value, post + tr, false, Close([])), false)
        else Cutting(Item(pre, k, value, post, true, c.items), false)
      else if comma && !c.eat then Cutting(InFront(pre + post, c.items), false)
      else Cutting(Close(pre + (post + tr)), AllSpaces(pre) && !first)
  }

  /** Nothing stands where the cuts reach beyond a pair and its comma: between a value and the comma behind it;
      or, when the comma in front goes, between that comma and the pair, and behind a scalar. */
  predicate AllKept(decode: string -> string, it: Items, key: string, first: bool)
    requires ItemsOk(it, true)
  {
    it.Item? ==>
      && AllKept(decode, it.rest, key, false)
      && (decode(it.key.value.literal) == key ==>
            if it.comma && !Without(decode, it.rest, key, false).eat then it.post == []
            else Left(it.value, it.post) == it.post && (AllSpaces(it.pre) && !first ==> it.pre == []))
  }

  lemma {:induction false} PieceIsText(p: Piece)
    ensures PieceText(p) != ""
  {
  }

  lemma {:induction false} TrLength(tr: Trivia, k: string)
    ensures |PrTr(tr, k)| == |PrTr(tr, "")| + |k| && |PrTr(tr, "")| >= |tr|
  {
    if tr != [] {
      TrLength(tr[1..], k);
      PieceIsText(tr[0]);
    }
  }

  lemma TrLengthBoth(a: Trivia, b: Trivia, k: string)
    ensures |PrTr(a + b, k)| == |PrTr(a, "")| + |PrTr(b, k)|
  {
    PrTrConcat(a, b, k);
    TrLength(a, PrTr(b, k));
  }

  lemma {:induction false} DropSpacesLength(tr: Trivia)
    ensures |PrTr(DropSpaces(tr), "")| <= |PrTr(tr, "")|
    ensures |PrTr(DropSpaces(tr), "")| == |PrTr(tr, "")| <==> DropSpaces(tr) == tr
    ensures |DropSpaces(tr)| <= |tr|
  {
    if tr != [] && tr[0].Space? { DropSpacesLength(tr[1..]); }
  }

  lemma InFrontLength(pre: Trivia, it: Items, k: string)
    ensures |PrI(InFront(pre, it), k)| == |PrTr(pre, "")| + |PrI(it, k)|
  {
    InFrontPrints(pre, it, k);
  }

  /** The list of a member that stays. */
  lemma StayingLength(it: Items, tr: Trivia, rest: Items, k: string)
    requires it.Item?
    ensures |PrI(Item(it.pre, it.key, it.value, it.post, true, rest), k)|
         == |Through("", it, true)| + |PrI(rest, k)|
    ensures |PrI(Item(it.pre, it.key, it.value, it.post + tr, false, Close([])), k)|
         == |Through("", it, false)| + |PrTr(tr, k)|
  {
    KeptWithComma("", it, rest, k);
    KeptAsLast("", it, tr, k);
  }

  /** What is left is never longer than promised, and as long only if nothing more was cut. */
  lemma {:induction false} PromisedLength(decode: string -> string, it: Items, key: string, first: bool, k: string)
    requires ItemsOk(it, true)
    ensures var c, q := Without(decode, it, key, first), Promised(decode, it, key, first);
            && c.eat == q.eat && c.items.Close? == q.items.Close? && |PrI(c.items, k)| <= |PrI(q.items, k)|
            && (AllKept(decode, it, key, first) ==> c == q)
            && (!AllKept(decode, it, key, first) ==> |PrI(c.items, k)| < |PrI(q.items, k)|)
    decreases it
  {
    if it.Item? {
      var c, q := Without(decode, it.rest, key, false), Promised(decode, it.rest, key, false);
      var tr, tr' := if c.items.Close? then c.items.tr else [], if q.items.Close? then q.items.tr else [];
      PromisedLength(decode, it.rest, key, false, k);
      EatLeavesClose(decode, it.rest, key, false);
      if decode(it.key.value.literal) != key {
        StayingLength(it, tr, c.items, k);
        StayingLength(it, tr', q.items, k);
      } else if it.comma && !c.eat {
        InFrontLength(it.pre, c.items, k);
        InFrontLength(it.pre + it.post, q.items, k);
        TrLengthBoth(it.pre, it.post, "");
        TrLength(it.post, "");
        if it.post == [] { assert it.pre + it.post == it.pre; }
      } else {
        LastLength(it, tr, tr', first, k);
      }
    }
  }

  lemma LastLength(it: Items, tr: Trivia, tr': Trivia, first: bool, k: string)
    requires it.Item? && |PrTr(tr, k)| <= |PrTr(tr', k)|
    ensures var c, q := LastCut(it.pre, Left(it.value, it.post) + tr, first).items, Close(it.pre + (it.post + tr'));
            var kept := Left(it.value, it.post) == it.post && (AllSpaces(it.pre) && !first ==> it.pre == []);
            && |PrI(c, k)| <= |PrI(q, k)|
            && (kept && tr == tr' ==> c == q)
            && (!kept || |PrTr(tr, k)| < |PrTr(tr', k)| ==> |PrI(c, k)| < |PrI(q, k)|)
  {
    var left := Left(it.value, it.post);
    TrLengthBoth(it.pre, it.post + tr', k);
    TrLengthBoth(it.post, tr', k);
    TrLengthBoth(it.pre, left + tr, k);
    TrLengthBoth(left, tr, k);
    TrLength(it.pre, "");
    DropSpacesLength(it.post);
    if it.pre == [] { assert it.pre + (it.post + tr') == it.post + tr'; }
  }

  function PromisedDoc(decode: string -> string, d: Doc, key: string): Doc
    requires DocOk(d)
  {
    d.(items := Promised(decode, d.items, key, true).items)
  }

  lemma PrintLength(d: Doc, e: Doc)
    requires e == d.(items := e.items)
    ensures |Print(d)| - |PrI(d.items, "}" + Ending(d))| == |Print(e)| - |PrI(e.items, "}" + Ending(e))|
  {
    OpeningPrints(d);
    OpeningPrints(e);
  }

  /** The removal leaves the text alone, apart from the pairs and one comma each, if and only if no pair finds
      its comma in a comment, and nothing stands where the cuts reach farther. */
  lemma RemoveKeepsAll(decode: string -> string, d: Doc, key: string)
    requires DocOk(d)
    ensures RemoveEdit(decode, Print(d), key) == Ok(Print(PromisedDoc(decode, d, key)))
       <==> Safe(decode, d.items, key, true) && AllKept(decode, d.items, key, true)
  {
    var kept, promised := Kept(decode, d, key), PromisedDoc(decode, d, key);
    PromisedLength(decode, d.items, key, true, "}" + Ending(d));
    PrintLength(kept, promised);
    RemoveIsExact(decode, d, key);
    if !Safe(decode, d.items, key, true) { UnsafeIsShorter(decode, d, key); }
  }

  // ---- the comments -----------------------------------------------------------------------

  /** What a reader of the document cares about: its comments and its pairs. */
  datatype Bit = Note(comment: Piece) | Named(key: Option<Key>, value: Value)

  function Notes(tr: Trivia): seq<Bit> {
    if tr == [] then [] else (if tr[0].Space? then [] else [Note(tr[0])]) + Notes(tr[1..])
  }

  function Bits(it: Items): seq<Bit> {
    match it
    case Close(tr) => Notes(tr)
    case Item(pre, key, value, post, _, rest) => Notes(pre) + ([Named(key, value)] + (Notes(post) + Bits(rest)))
  }

  /** All of them but the pairs of that name. */
  function BitsWithout(decode: string -> string, it: Items, key: string): seq<Bit>
    requires ItemsOk(it, true)
  {
    match it
    case Close(tr) => Notes(tr)
    case Item(pre, k, value, post, _, rest) =>
      Notes(pre) + ((if decode(k.value.literal) == key then [] else [Named(k, value)])
                    + (Notes(post) + BitsWithout(decode, rest, key)))
  }

  /** No comment stands between a removed value and the comma behind it that goes along. */
  predicate GapsBare(decode: string -> string, it: Items, key: string)
    requires ItemsOk(it, true)
  {
    it.Item? ==>
      && GapsBare(decode, it.rest, key)
      && (decode(it.key.value.literal) == key && it.comma && !Without(decode, it.rest, key, false).eat ==>
            AllSpaces(it.post))
  }

  lemma {:induction false} NotesBoth(a: Trivia, b: Trivia)
    ensures Notes(a + b) == Notes(a) + Notes(b)
  {
    if a == [] {
      assert a + b == b;
    } else {
      assert (a + b)[1..] == a[1..] + b;
      NotesBoth(a[1..], b);
    }
  }

  lemma {:induction false} NoNotes(tr: Trivia)
    ensures Notes(tr) == [] <==> AllSpaces(tr)
  {
    if tr != [] { NoNotes(tr[1..]); }
  }

  lemma {:induction false} NotesLeft(v: Value, post: Trivia)
    ensures Notes(Left(v, post)) == Notes(post)
  {
    if v.Scalar? && post != [] && post[0].Space? { NotesLeft(v, post[1..]); }
  }

  lemma BitsInFront(pre: Trivia, it: Items)
    ensures Bits(InFront(pre, it)) == Notes(pre) + Bits(it)
  {
    match it
    case Close(tr) => NotesBoth(pre, tr);
    case Item(p, key, value, post, _, rest) =>
      NotesBoth(pre, p);
      assert (Notes(pre) + Notes(p)) + ([Named(key, value)] + (Notes(post) + Bits(rest)))
          == Notes(pre) + (Notes(p) + ([Named(key, value)] + (Notes(post) + Bits(rest))));
  }

  /** The bits of a list, from those of its first item and of its rest. */
  function Around(it: Items, own: seq<Bit>, rest: seq<Bit>): seq<Bit>
    requires it.Item?
  {
    Notes(it.pre) + (own + (Notes(it.post) + rest))
  }

  lemma AroundLength(it: Items, own: seq<Bit>, rest: seq<Bit>)
    requires it.Item?
    ensures |Around(it, own, rest)| == |Notes(it.pre)| + |own| + |Notes(it.post)| + |rest|
    ensures own == [] && Notes(it.post) == [] ==> Around(it, own, rest) == Notes(it.pre) + rest
  {
  }

  /** An item that stays, or goes without the comma behind it, keeps the comments around it. */
  lemma BitsAround(decode: string -> string, it: Items, key: string, first: bool)
    requires it.Item? && ItemsOk(it, true)
    ensures var c := Without(decode, it.rest, key, false);
            var own := if decode(it.key.value.literal) == key then [] else [Named(it.key, it.value)];
            && BitsWithout(decode, it, key) == Around(it, own, BitsWithout(decode, it.rest, key))
            && (own != [] || !it.comma || c.eat ==>
                  Bits(Without(decode, it, key, first).items) == Around(it, own, Bits(c.items)))
  {
    var c := Without(decode, it.rest, key, false);
    EatLeavesClose(decode, it.rest, key, false);
    if decode(it.key.value.literal) != key {
      if c.eat || !it.comma { StayingLastBits(it, c.items); }
    } else if !it.comma || c.eat {
      LastBits(it, c.items.tr, first);
    }
  }

  /** What is left holds as many comments as it should, or fewer. */
  lemma {:induction false} BitsLeft(decode: string -> string, it: Items, key: string, first: bool)
    requires ItemsOk(it, true)
    ensures var bits, want := Bits(Without(decode, it, key, first).items), BitsWithout(decode, it, key);
            && |bits| <= |want|
            && (GapsBare(decode, it, key) ==> bits == want)
            && (!GapsBare(decode, it, key) ==> |bits| < |want|)
    decreases it
  {
    if it.Item? {
      var c, want := Without(decode, it.rest, key, false), BitsWithout(decode, it.rest, key);
      var own := if decode(it.key.value.literal) == key then [] else [Named(it.key, it.value)];
      BitsLeft(decode, it.rest, key, false);
      BitsAround(decode, it, key, first);
      AroundLength(it, own, want);
      AroundLength(it, own, Bits(c.items));
      if own == [] && it.comma && !c.eat {
        BitsInFront(it.pre, c.items);
        NoNotes(it.post);
      }
    }
  }

  lemma StayingLastBits(it: Items, rest: Items)
    requires it.Item? && rest.Close?
    ensures Bits(Item(it.pre, it.key, it.value, it.post + rest.tr, false, Close([])))
         == Notes(it.pre) + ([Named(it.key, it.value)] + (Notes(it.post) + Bits(rest)))
  {
    NotesBoth(it.post, rest.tr);
    assert Bits(Close([])) == [];
  }

  lemma LastBits(it: Items, tr: Trivia, first: bool)
    requires it.Item?
    ensures Bits(LastCut(it.pre, Left(it.value, it.post) + tr, first).items) == Around(it, [], Notes(tr))
  {
    var pre, post, last := Notes(it.pre), Notes(it.post), Notes(tr);
    NotesBoth(Left(it.value, it.post), tr);
    NotesLeft(it.value, it.post);
    NotesBoth(it.pre, Left(it.value, it.post) + tr);
    NoNotes(it.pre);
    NothingInFront(pre, post + last);
  }

  lemma NothingInFront(pre: seq<Bit>, rest: seq<Bit>)
    ensures pre + ([] + rest) == pre + rest && (pre == [] ==> pre + rest == rest)
  {
  }

  /** The removal keeps every comment outside the pairs, and every other pair, in order, if and only if no pair
      finds its comma in a comment, and no comment stands between a removed value and a comma that goes along. */
  lemma RemoveKeepsComments(decode: string -> string, d: Doc, key: string)
    requires DocOk(d)
    ensures && RemoveEdit(decode, Print(d), key) == Ok(Print(Kept(decode, d, key)))
            && Bits(Kept(decode, d, key).items) == BitsWithout(decode, d.items, key)
       <==> Safe(decode, d.items, key, true) && GapsBare(decode, d.items, key)
  {
    RemoveIsExact(decode, d, key);
    BitsLeft(decode, d.items, key, true);
  }

  // ---- a comment that goes ------------------------------------------------------------------

  function CommentInTheGap(): Doc {
    Doc([], Item([], Some(Key("", [], [])), Scalar("1"), [BlockComment("x")], true, Close([])), [], None)
  }

  /** A comment between a removed value and its comma is removed. */
  lemma CommentIsRemoved(decode: string -> string)
    ensures var d := CommentInTheGap();
            && DocOk(d) && Safe(decode, d.items, decode(""), true) && !GapsBare(decode, d.items, decode(""))
            && Print(d) == "{\"\":1" + ("/*x*/" + ",}") && RemoveEdit(decode, Print(d), decode("")) == Ok("{}")
  {
    var d := CommentInTheGap();
    var kept := Kept(decode, d, decode(""));
    assert Without(decode, d.items.rest, decode(""), false) == Cutting(Close([]), false);
    assert InFront([], Close([])) == Close([]) && Without(decode, d.items, decode(""), true).items == Close([]);
    GapText(d, kept);
    RemoveIsExact(decode, d, decode(""));
  }

  lemma GapText(d: Doc, kept: Doc)
    requires d == CommentInTheGap() && kept == d.(items := Close([]))
    ensures Print(d) == "{\"\":1" + ("/*x*/" + ",}") && Print(kept) == "{}"
  {
    assert LastText(None) == "" && PrTr([], "") == "" && "}" + "" == "}";
    assert PrI(Close([]), "}") == "}" && "," + "}" == ",}";
    assert PrTr([BlockComment("x")], ",}") == "/*x*/" + PrTr([], ",}") == "/*x*/" + ",}";
    var v := PrV(Scalar("1"), "/*x*/" + ",}");
    assert PrKey(d.items.key, v) == "\"" + ("" + ("\"" + (":" + v)));
    assert PrI(d.items, "}") == PrKey(d.items.key, v);
  }

  // ---- a comment that comes alive ------------------------------------------------------------

  /** The comma that ends a comment in front of the pair is taken; what follows the pair joins that comment,
      up to the next line - and the rest of a block comment is not one any more. */
  function CommentBehind(body: string): Doc {
    Doc([], Item([LineComment(",")], Some(Key("", [], [])), Scalar("1"), [BlockComment(body), Space('\n')], false,
                 Close([])), [], None)
  }

  /** The document that the removal writes. */
  function Revived(): Doc {
    Doc([], Item([LineComment("/*")], Some(Key("z", [], [])), Scalar("2"), [LineComment("*/")], false, Close([])),
        [], None)
  }

  lemma RevivedText()
    ensures Print(Revived()) == ("{//" + "/*") + ("\n" + ("\"z\":2" + ("//*/" + "\n}")))
  {
    var it := Revived().items;
    assert "}" + PrTr([], LastText(None)) == "}" && PrI(Close([]), "}") == "}" && "" + "}" == "}";
    assert PrTr([LineComment("*/")], "}") == ("//" + "*/" + "\n") + "}" == "//*/" + "\n}";
    var v := "2" + ("//*/" + "\n}");
    assert PrKey(it.key, v) == "\"" + ("z" + ("\"" + (":" + v))) == "\"z\":2" + ("//*/" + "\n}");
    assert PrTr([LineComment("/*")], PrKey(it.key, v)) == ("//" + "/*" + "\n") + PrKey(it.key, v);
  }

  lemma BehindOk(body: string)
    requires BlockBodyOk(body)
    ensures DocOk(CommentBehind(body))
  {
    var it := CommentBehind(body).items;
    assert LineBodyOk(",") && PieceOk(it.pre[0]) && PieceOk(it.post[0]) && PieceOk(it.post[1]);
    assert TriviaOk(it.pre) && TriviaOk(it.post);
    assert "1"[1..] == "" && Reads("", Whole) && TokenOk("1");
    assert KeyOk(it.key.value) && ValueOk(it.value);
    assert ItemsOk(it.rest, true) && LegibleI(it.rest);
  }

  lemma GapBehind(body: string)
    ensures Gap(CommentBehind(body).items) == "/*" + body + "*/" + "\n"
  {
    var it := CommentBehind(body).items;
    assert Left(it.value, it.post) == it.post && it.post[1..] == [Space('\n')] && it.post[1..][1..] == [];
    assert PrTr([Space('\n')], "") == "\n" + "";
    assert PrTr(it.post, "") == ("/*" + body + "*/") + ("\n" + "");
  }

  lemma FrontBehind(pre: Trivia)
    requires pre == [LineComment(",")]
    ensures "{" + PrTr(pre, "") == "{//,\n"
  {
    assert pre[1..] == [] && PrTr(pre, "") == ("//" + "," + "\n") + "";
  }

  /** The only pair of a document, in its text. */
  lemma LonePair(decode: string -> string, d: Doc, key: string)
    requires DocOk(d) && d.lead == [] && d.tail == [] && d.last.None?
    requires d.items.Item? && d.items.rest == Close([]) && !d.items.comma && decode(d.items.key.value.literal) == key
    ensures var it := d.items;
            var text := ("{" + PrTr(it.pre, "")) + (JsoncRemove.Pair(it) + (Gap(it) + "}"));
            RemoveEdit(decode, Print(d), key) == CheckedGone(decode, Cut(text, PairSpan("{", it), 0), key)
  {
    var it := d.items;
    assert Ending(d) == "" && "}" + "" == "}" && Opening(d) == "" + "{" == "{";
    RemoveCuts(decode, d, key);
    OpeningPrints(d);
    var m, text := MemberOf(decode, it, "}"), Print(d);
    assert AllNamed(decode, it, key, "}") == [m] + AllNamed(decode, it.rest, key, "}") == [m];
    assert [m][..0] == [] && SpansOf(text, [m]) == [] + [SpanIn(text, m)] == [SpanIn(text, m)];
    SpanOfItem(decode, "{", it, "}");
    ItemText("{", it, "}");
    assert [PairSpan("{", it)][1..] == [];
    assert CutAll(text, [PairSpan("{", it)], 0) == Cut(text, PairSpan("{", it), 0);
    assert Tail(it, "}") == "" + PrI(Close([]), "}") == "}";
  }

  /** The cut of a lone pair behind the comment. */
  lemma LonePairCut(decode: string -> string, body: string)
    requires BlockBodyOk(body)
    ensures RemoveEdit(decode, Print(CommentBehind(body)), decode(""))
         == CheckedGone(decode, "{//" + (("/*" + body + "*/" + "\n") + "}"), decode(""))
  {
    var it := CommentBehind(body).items;
    BehindOk(body);
    LonePair(decode, CommentBehind(body), decode(""));
    GapBehind(body);
    FrontBehind(it.pre);
    LoneCut("{" + PrTr(it.pre, ""), JsoncRemove.Pair(it), Gap(it));
  }

  lemma LoneCut(front: string, pair: string, gap: string)
    requires front == "{//,\n"
    ensures Cut(front + (pair + (gap + "}")), StringSpan(front, pair, gap), 0) == "{//" + (gap + "}")
  {
    var s, after := front + (pair + (gap + "}")), |front| + |pair| + |gap|;
    assert s[after] == '}';
    CutWithoutComma(front, pair, gap, "}", after, 0);
    assert front[..4] == "{//," && BackComma(front[..4], 0) == Some(3) && BackComma(front, 0) == Some(3);
    assert front[..3] == "{//";
  }

  /** Removal may succeed and bring a commented-out member to life: what it writes lacks the key, but does not
      parse to the old object without the key. */
  lemma CommentComesAlive(decode: string -> string)
    requires decode("z") != decode("")
    ensures var d := CommentBehind("\n\"z\":2//");
            && DocOk(d) && Members(decode, d) - {decode("")} == map[]
            && RemoveEdit(decode, Print(d), decode("")) == Ok(Print(Revived()))
            && ParseJsonc(decode, Print(Revived())) == Ok(JObject(map[decode("z") := JScalar("2")]))
  {
    var body := "\n\"z\":2//";
    BehindOk(body);
    LonePairCut(decode, body);
    RevivedText();
    SameTexts(body);
    RevivedParses(decode);
    assert Members(decode, CommentBehind(body)) == map[][decode("") := JScalar("1")];
  }

  lemma SameTexts(body: string)
    requires body == "\n\"z\":2//"
    ensures "{//" + (("/*" + body + "*/" + "\n") + "}")
         == ("{//" + "/*") + ("\n" + ("\"z\":2" + ("//*/" + "\n}")))
  {
  }

  lemma RevivedParses(decode: string -> string)
    ensures ParseJsonc(decode, Print(Revived())) == Ok(JObject(map[decode("z") := JScalar("2")]))
  {
    var it := Revived().items;
    assert LineBodyOk("/*") && LineBodyOk("*/") && PieceOk(it.pre[0]) && PieceOk(it.post[0]);
    assert TriviaOk(it.pre) && TriviaOk(it.post);
    assert "2"[1..] == "" && Reads("", Whole) && TokenOk("2");
    assert "z"[1..] == "" && KeyOk(it.key.value) && ValueOk(it.value);
    assert ItemsOk(it.rest, true) && LegibleI(it.rest);
    ParseJsoncReadsPrint(decode, Revived());
    assert MeanMembers(decode, it, map[]) == map[][decode("z") := JScalar("2")];
  }
}
