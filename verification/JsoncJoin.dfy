/** A removal that takes the comma out of a comment: what stands behind the pair, up to the end of its line,
    joins that comment. When that line ends outside a block comment, the result is a document all the same,
    and means the old one without the key. */
module JsoncJoin {
  import opened JsoncText
  import opened JsoncGrammar
  import opened JsoncRoundTrip
  import opened JsoncSurgeon
  import opened JsoncWalk
  import opened JsoncLens
  import opened JsoncRemove
  import opened JsoncKeep
  import opened Options

  // ---- the rest of a line ------------------------------------------------------------------

  /** Trivia up to its first newline, as text, and what follows; a block comment with a newline ends no line. */
  datatype Line = Open | Ended(text: string, rest: Trivia)

  function Longer(s: string, line: Line): Line {
    match line case Open => Open case Ended(text, rest) => Ended(s + text, rest)
  }

  function LineOf(tr: Trivia): Line {
    if tr == [] then Open
    else
      match tr[0]
      case Space(c) => if c == '\n' then Ended("", tr[1..]) else Longer([c], LineOf(tr[1..]))
      case LineComment(body) => Ended("//" + body, tr[1..])
      case BlockComment(body) => if '\n' in body then Open else Longer("/*" + body + "*/", LineOf(tr[1..]))
  }

  lemma {:induction false} LinePrints(tr: Trivia, k: string)
    requires TriviaOk(tr) && LineOf(tr).Ended?
    ensures var Ended(text, rest) := LineOf(tr); TriviaOk(rest) && PrTr(tr, k) == text + ("\n" + PrTr(rest, k))
  {
    var Ended(text, rest) := LineOf(tr);
    var x := "\n" + PrTr(rest, k);
    match tr[0]
    case LineComment(body) => Assoc("//" + body, "\n", PrTr(tr[1..], k));
    case Space(c) =>
      if c != '\n' {
        LinePrints(tr[1..], k);
        Assoc([c], LineOf(tr[1..]).text, x);
      } else {
        assert "" + x == x;
      }
    case BlockComment(body) =>
      LinePrints(tr[1..], k);
      Assoc("/*" + body + "*/", LineOf(tr[1..]).text, x);
  }

  // ---- the comment without its comma ---------------------------------------------------------

  function Crop(body: string): (r: string)
    requires EndsInComma(body)
    ensures |r| < |body|
  {
    if body[|body| - 1] == ',' then body[..|body| - 1] else Crop(body[..|body| - 1])
  }

  lemma {:induction false} CropOk(body: string)
    requires EndsInComma(body) && LineBodyOk(body)
    ensures LineBodyOk(Crop(body)) && '\r' !in Crop(body)
  {
    if body[|body| - 1] != ',' { CropOk(body[..|body| - 1]); }
  }

  /** The trivia in front of a comment that ends in a comma, and that comment up to the comma. */
  datatype Cropped = Cropped(front: Trivia, body: string)

  function CropComment(pre: Trivia): Cropped
    requires CommaComment(pre)
  {
    var last := pre[|pre| - 1];
    if last.LineComment? then Cropped(pre[..|pre| - 1], Crop(last.body)) else CropComment(pre[..|pre| - 1])
  }

  lemma {:induction false} CropCommentOk(pre: Trivia)
    requires TriviaOk(pre) && CommaComment(pre)
    ensures TriviaOk(CropComment(pre).front) && LineBodyOk(CropComment(pre).body) && '\r' !in CropComment(pre).body
  {
    var last := pre[|pre| - 1];
    assert PieceOk(last);
    if last.LineComment? { CropOk(last.body); } else { CropCommentOk(pre[..|pre| - 1]); }
  }

  /** The look back ends at the comma the comment is cropped at. */
  ghost predicate EndsAt(s: string, root: nat, kept: string) {
    BackComma(s, root) == Some(|kept|) && |kept| <= |s| && s[..|kept|] == kept
  }

  lemma EndsFarther(s: string, c: char, root: nat, kept: string)
    requires EndsAt(s, root, kept) && IsSpace(c)
    ensures EndsAt(s + [c], root, kept)
  {
    BackOverSpace(s, c, root);
  }

  lemma {:induction false} BackInBody(front: string, body: string, root: nat)
    requires root < |front| && EndsInComma(body)
    ensures EndsAt(front + body, root, front + Crop(body))
  {
    var last, more := body[|body| - 1], body[..|body| - 1];
    assert body == more + [last];
    Assoc(front, more, [last]);
    if last != ',' {
      BackInBody(front, more, root);
      EndsFarther(front + more, last, root, front + Crop(body));
    }
  }

  /** The text up to the comma inside the comment. */
  function UpToComma(p: string, pre: Trivia): string
    requires CommaComment(pre)
  {
    (p + PrTr(CropComment(pre).front, "")) + ("//" + CropComment(pre).body)
  }

  lemma BackToLine(front: string, body: string, root: nat)
    requires root < |front| && EndsInComma(body)
    ensures EndsAt(front + ("//" + body + "\n"), root, front + ("//" + Crop(body)))
  {
    var f := front + "//";
    BackInBody(f, body, root);
    EndsFarther(f + body, '\n', root, f + Crop(body));
    assert front + ("//" + body + "\n") == (f + body) + ['\n'];
    Assoc(front, "//", Crop(body));
  }

  lemma LastPiece(p: string, pre: Trivia)
    requires pre != []
    ensures p + PrTr(pre, "") == (p + PrTr(pre[..|pre| - 1], "")) + PieceText(pre[|pre| - 1])
  {
    var text := PieceText(pre[|pre| - 1]);
    TrLast(pre, "");
    assert text + "" == text;
    Assoc(p, PrTr(pre[..|pre| - 1], ""), text);
  }

  lemma {:induction false} BackToComment(p: string, pre: Trivia, root: nat)
    requires TriviaOk(pre) && root < |p| && CommaComment(pre)
    ensures EndsAt(p + PrTr(pre, ""), root, UpToComma(p, pre))
    decreases |pre|
  {
    var more, last := pre[..|pre| - 1], pre[|pre| - 1];
    LastPiece(p, pre);
    if last.LineComment? {
      BackToLine(p + PrTr(more, ""), last.body, root);
    } else {
      assert PieceOk(last);
      BackToComment(p, more, root);
      EndsFarther(p + PrTr(more, ""), last.c, root, UpToComma(p, pre));
    }
  }

  // ---- the joined document ---------------------------------------------------------------------

  /** The trivia in front of the closing brace: the comment has lost its comma, and won the rest of the line. */
  function JoinTrivia(pre: Trivia, left: Trivia): Trivia
    requires CommaComment(pre) && LineOf(left).Ended?
  {
    CropComment(pre).front + ([LineComment(CropComment(pre).body + LineOf(left).text)] + LineOf(left).rest)
  }

  lemma JoinTriviaOk(pre: Trivia, left: Trivia)
    requires TriviaOk(pre) && CommaComment(pre) && TriviaOk(left)
    requires LineOf(left).Ended? && LineBodyOk(LineOf(left).text)
    ensures TriviaOk(JoinTrivia(pre, left))
  {
    CropCommentOk(pre);
    LinePrints(left, "");
    assert LineBodyOk(CropComment(pre).body + LineOf(left).text);
  }

  lemma LineJoins(body: string, text: string, rest: Trivia, k: string)
    ensures PrTr([LineComment(body + text)] + rest, k) == ("//" + body) + (text + ("\n" + PrTr(rest, k)))
  {
    var tr, x := [LineComment(body + text)] + rest, PrTr(rest, k);
    assert tr[1..] == rest && tr[0] == LineComment(body + text);
    assert ("//" + (body + text) + "\n") + x == ("//" + body) + (text + ("\n" + x));
  }

  lemma JoinTriviaPrints(p: string, pre: Trivia, left: Trivia, k: string)
    requires CommaComment(pre) && TriviaOk(left) && LineOf(left).Ended?
    ensures UpToComma(p, pre) + PrTr(left, k) == p + PrTr(JoinTrivia(pre, left), k)
  {
    var Cropped(front, body) := CropComment(pre);
    var Ended(text, rest) := LineOf(left);
    var joined := [LineComment(body + text)] + rest;
    LinePrints(left, k);
    LineJoins(body, text, rest, k);
    PrTrConcat(front, joined, k);
    TrFront(front, PrTr(joined, k));
    Assoc(p, PrTr(front, ""), PrTr(joined, k));
    Assoc(p + PrTr(front, ""), "//" + body, PrTr(left, k));
  }

  /** What stands behind the pair that takes a comma out of a comment; there is one such pair at most, the
      last of all members that stay or go. */
  function BehindUnsafe(decode: string -> string, it: Items, key: string, first: bool): Trivia
    requires ItemsOk(it, true) && !Safe(decode, it, key, first)
  {
    var c := Without(decode, it.rest, key, false);
    if !Safe(decode, it.rest, key, false) then BehindUnsafe(decode, it.rest, key, false)
    else if c.items.Close? then Left(it.value, it.post) + c.items.tr else []
  }

  /** That pair's line ends, outside block comments, and without a carriage return in it. */
  predicate Joins(decode: string -> string, it: Items, key: string, first: bool)
    requires ItemsOk(it, true) && !Safe(decode, it, key, first)
  {
    var line := LineOf(BehindUnsafe(decode, it, key, first));
    line.Ended? && LineBodyOk(line.text)
  }

  /** The members without the key, when the last pair to go takes a comma out of a comment. */
  function Joined(decode: string -> string, it: Items, key: string, first: bool): Items
    requires ItemsOk(it, true) && !Safe(decode, it, key, first) && Joins(decode, it, key, first)
  {
    if Safe(decode, it.rest, key, false) then Close(JoinTrivia(it.pre, BehindUnsafe(decode, it, key, first)))
    else
      var rest := Joined(decode, it.rest, key, false);
      if decode(it.key.value.literal) == key then InFront(it.pre, rest)
      else Item(it.pre, it.key, it.value, it.post, true, rest)
  }

  lemma UnsafePair(decode: string -> string, it: Items, key: string, first: bool)
    requires ItemsOk(it, true) && !Safe(decode, it, key, first) && Safe(decode, it.rest, key, false)
    ensures var c := Without(decode, it.rest, key, false);
            && it.Item? && decode(it.key.value.literal) == key && CommaComment(it.pre)
            && c.items.Close? && TriviaOk(c.items.tr) && (c.eat <==> it.comma)
            && BehindUnsafe(decode, it, key, first) == Left(it.value, it.post) + c.items.tr
            && TriviaOk(BehindUnsafe(decode, it, key, first))
    ensures var c := Without(decode, it, key, first); !c.eat && c.items.Close?
  {
    EatLeavesClose(decode, it.rest, key, false);
    WithoutOk(decode, it.rest, key, false);
    NoSpaceComment(it.pre);
    DropSpacesOk(it.post);
  }

  /** Joined or not, the same members are left. */
  lemma {:induction false} JoinedMeans(decode: string -> string, it: Items, key: string, first: bool,
                                       acc: map<string, Json>)
    requires ItemsOk(it, true) && !Safe(decode, it, key, first) && Joins(decode, it, key, first)
    ensures !Without(decode, it, key, first).eat
    ensures MeanMembers(decode, Joined(decode, it, key, first), acc)
         == MeanMembers(decode, Without(decode, it, key, first).items, acc)
    ensures ItemsOk(Joined(decode, it, key, first), true)
    ensures LegibleI(it) ==> LegibleI(Joined(decode, it, key, first))
    decreases it
  {
    if Safe(decode, it.rest, key, false) {
      UnsafePair(decode, it, key, first);
      JoinTriviaOk(it.pre, BehindUnsafe(decode, it, key, first));
    } else if decode(it.key.value.literal) == key {
      JoinedMeans(decode, it.rest, key, false, acc);
      MeanInFront(decode, it.pre, Without(decode, it.rest, key, false).items, acc);
      MeanInFront(decode, it.pre, Joined(decode, it.rest, key, false), acc);
    } else {
      JoinedMeans(decode, it.rest, key, false, acc[decode(it.key.value.literal) := Mean(decode, it.value)]);
    }
  }

  // ---- the cuts ------------------------------------------------------------------------------

  /** The cut of the pair whose comma is found in the comment. */
  lemma CutJoins(p: string, it: Items, c: Cutting, k: string, root: nat)
    requires it.Item? && ItemsOk(it, true) && |p| > root && CommaComment(it.pre) && k != "" && k[0] != ','
    requires c.items.Close? && TriviaOk(c.items.tr) && (c.eat <==> it.comma)
    requires TriviaOk(Left(it.value, it.post)) && LineOf(Left(it.value, it.post) + c.items.tr).Ended?
    ensures Cut(After(Through(p, it, it.comma), c, k), PairSpan(p, it), root)
         == p + PrI(Close(JoinTrivia(it.pre, Left(it.value, it.post) + c.items.tr)), k)
  {
    var tr := c.items.tr;
    NoCommaBehind(p, it, c, k);
    CutTakesBack(p, it, tr, k, root);
    BackToComment(p, it.pre, root);
    LeftPrints(it, tr, k);
    JoinTriviaPrints(p, it.pre, Left(it.value, it.post) + tr, k);
  }

  /** Cutting every pair named `key` out of the text prints the joined members. */
  lemma {:induction false} CutsJoin(decode: string -> string, p: string, it: Items, key: string, k: string,
                                    first: bool, root: nat)
    requires ItemsOk(it, true) && Placed(p, first, root)
    requires !Safe(decode, it, key, first) && Joins(decode, it, key, first)
    ensures var text := p + PrI(it, "}" + k);
            CutAll(text, SpansOf(text, AllNamed(decode, it, key, "}" + k)), root)
            == p + PrI(Joined(decode, it, key, first), "}" + k)
    decreases it
  {
    ThroughItem(p, it, it.comma, PrI(it.rest, "}" + k));
    ThroughEndsInComma(p, it);
    if Safe(decode, it.rest, key, false) {
      JoinHere(decode, p, it, key, k, first, root);
    } else {
      CutsJoin(decode, Through(p, it, true), it.rest, key, k, false, root);
      JoinBehind(decode, p, it, key, k, first, root);
    }
  }

  lemma JoinHere(decode: string -> string, p: string, it: Items, key: string, k: string, first: bool, root: nat)
    requires ItemsOk(it, true) && Placed(p, first, root)
    requires !Safe(decode, it, key, first) && Joins(decode, it, key, first) && Safe(decode, it.rest, key, false)
    ensures var text := p + PrI(it, "}" + k);
            CutAll(text, SpansOf(text, AllNamed(decode, it, key, "}" + k)), root)
            == p + PrI(Joined(decode, it, key, first), "}" + k)
  {
    var close := "}" + k;
    var c := Without(decode, it.rest, key, false);
    UnsafePair(decode, it, key, first);
    ThroughItem(p, it, it.comma, PrI(it.rest, close));
    ThroughEndsInComma(p, it);
    if it.comma { CutsPrint(decode, Through(p, it, true), it.rest, key, k, false, root); }
    FirstOfSpans(decode, p, it, key, close, root);
    DropSpacesOk(it.post);
    CutJoins(p, it, c, close, root);
  }

  /** An item in front of the joined one stays, or goes with its own comma. */
  lemma JoinBehind(decode: string -> string, p: string, it: Items, key: string, k: string, first: bool, root: nat)
    requires ItemsOk(it, true) && Placed(p, first, root)
    requires !Safe(decode, it, key, first) && Joins(decode, it, key, first) && !Safe(decode, it.rest, key, false)
    requires var text := p + PrI(it, "}" + k);
             CutAll(text, SpansOf(text, AllNamed(decode, it.rest, key, "}" + k)), root)
             == Through(p, it, true) + PrI(Joined(decode, it.rest, key, false), "}" + k)
    ensures var text := p + PrI(it, "}" + k);
            CutAll(text, SpansOf(text, AllNamed(decode, it, key, "}" + k)), root)
            == p + PrI(Joined(decode, it, key, first), "}" + k)
  {
    var close := "}" + k;
    var rest := Joined(decode, it.rest, key, false);
    if decode(it.key.value.literal) != key {
      var later := AllNamed(decode, it.rest, key, close);
      assert [] + later == later;
      KeptWithComma(p, it, rest, close);
    } else {
      FirstOfSpans(decode, p, it, key, close, root);
      CutItemWithComma(p, it, Cutting(rest, false), close, root);
    }
  }

  // ---- the removal -----------------------------------------------------------------------------

  /** The document without the key, its last comment joined by the rest of the removed pair's line. */
  function JoinedDoc(decode: string -> string, d: Doc, key: string): Doc
    requires DocOk(d) && !Safe(decode, d.items, key, true) && Joins(decode, d.items, key, true)
  {
    d.(items := Joined(decode, d.items, key, true))
  }

  lemma JoinedDocMeans(decode: string -> string, d: Doc, key: string)
    requires DocOk(d) && !Safe(decode, d.items, key, true) && Joins(decode, d.items, key, true)
    ensures DocOk(JoinedDoc(decode, d, key))
    ensures Members(decode, JoinedDoc(decode, d, key)) == Members(decode, d) - {key}
  {
    JoinedMeans(decode, d.items, key, true, map[]);
    KeptMeans(decode, d, key);
  }

  /** The removal succeeds, with the joined document. */
  lemma RemoveJoins(decode: string -> string, d: Doc, key: string)
    requires DocOk(d) && !Safe(decode, d.items, key, true) && Joins(decode, d.items, key, true)
    ensures RemoveEdit(decode, Print(d), key) == Ok(Print(JoinedDoc(decode, d, key)))
  {
    var p, joined := Opening(d), JoinedDoc(decode, d, key);
    if !HasKey(decode, d.items, key) { AbsentIsSafe(decode, d.items, key, true, ""); }
    RemoveCuts(decode, d, key);
    OpeningPrints(d);
    OpeningPrints(joined);
    CutsJoin(decode, p, d.items, key, Ending(d), true, |p| - 1);
    JoinedDocMeans(decode, d, key);
    ParseJsoncReadsPrint(decode, joined);
  }

  /** The removal succeeds and means the old object without the key, unless it takes a comma out of a comment
      and the removed pair's line does not end outside block comments. */
  lemma RemoveMeans(decode: string -> string, d: Doc, key: string)
    requires DocOk(d) && (!Safe(decode, d.items, key, true) ==> Joins(decode, d.items, key, true))
    ensures var r := RemoveEdit(decode, Print(d), key);
            r.Ok? && ParseJsonc(decode, r.value) == Ok(JObject(Members(decode, d) - {key}))
  {
    if Safe(decode, d.items, key, true) {
      RemoveIsExact(decode, d, key);
      KeptMeans(decode, d, key);
    } else {
      RemoveJoins(decode, d, key);
      JoinedDocMeans(decode, d, key);
      ParseJsoncReadsPrint(decode, JoinedDoc(decode, d, key));
    }
  }

  /** When the line goes on to the closing brace, the removal may fail for want of it. */
  lemma BraceIsTaken(decode: string -> string)
    ensures var d := CommaInAComment();
            && DocOk(d) && !Safe(decode, d.items, decode(""), true) && !Joins(decode, d.items, decode(""), true)
            && RemoveEdit(decode, Print(d), decode("")).Err?
  {
    var d := CommaInAComment();
    var it := d.items;
    CommentCommaIsTaken(decode);
    RemoveIsExact(decode, d, decode(""));
    LonePair(decode, d, decode(""));
    FrontBehind(it.pre);
    assert Gap(it) == "";
    LoneCut("{" + PrTr(it.pre, ""), JsoncRemove.Pair(it), Gap(it));
    assert "{//" + ("" + "}") == "{//}";
    OpenBraceFails(decode);
  }

  lemma OpenBraceFails(decode: string -> string)
    ensures ParseJsonc(decode, "{//}").Err?
  {
    var s, blank := "{//}", "{   ";
    assert s[1..] == "//}" && s[1..][2..] == "}" && "}"[1..] == "";
    assert " " + "" == " " && "  " + " " == "   " && "{" + "   " == blank;
    assert Strip("", Line) == Ok("") && Strip("}", Line) == Ok(" ") && Strip("//}", Code) == Ok("   ");
    assert Strip(s, Code) == Ok(blank);
    assert blank[1..] == "   " && "   "[1..] == "  " && "  "[1..] == " " && " "[1..] == "";
    assert StripCommas(blank, Code) == blank;
    assert SkipSpace("   ") == "";
  }
}
