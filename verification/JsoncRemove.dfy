/** Removing a top-level property: every occurrence goes with one comma, nothing but deletions
    happens to the text, and the parsed document loses exactly that key. */
module JsoncRemove {
  import opened JsoncText
  import opened JsoncGrammar
  import opened JsoncRoundTrip
  import opened JsoncSurgeon
  import opened JsoncWalk
  import opened JsoncLens
  import opened Options

  // ---- the document without a key ------------------------------------------------------

  /** What is left of a list of members, and whether the comma in front of the list goes too. */
  datatype Cutting = Cutting(items: Items, eat: bool)

  function InFront(pre: Trivia, it: Items): Items {
    match it
    case Close(tr) => Close(pre + tr)
    case Item(p, key, value, post, comma, rest) => Item(pre + p, key, value, post, comma, rest)
  }

  predicate AllSpaces(tr: Trivia) {
    forall p <- tr :: p.Space?
  }

  /** What a pair without a comma behind leaves: the whitespace in front of it goes with the comma there. */
  function LastCut(pre: Trivia, left: Trivia, first: bool): Cutting {
    if AllSpaces(pre) && !first then Cutting(Close(left), true) else Cutting(Close(pre + left), false)
  }

  /** The document's members with every `key` taken out, back to front. `first` says that no comma
      stands in front of the list. A pair takes the comma behind it along; when there is none (any
      more), it takes the comma in front, unless a comment stands between. */
  function Without(decode: string -> string, it: Items, key: string, first: bool): Cutting
    requires ItemsOk(it, true)
  {
    match it
    case Close(_) => Cutting(it, false)
    case Item(pre, k, value, post, comma, rest) =>
      var c := Without(decode, rest, key, false);
      var tr := if c.items.Close? then c.items.tr else [];
      if decode(k.value.literal) != key then
        if c.eat || !comma then Cutting(Item(pre, k, value, post + tr, false, Close([])), false)
        else Cutting(Item(pre, k, value, post, true, c.items), false)
      else if comma && !c.eat then Cutting(InFront(pre, c.items), false)
      else
        var left := Left(value, post) + tr;
        LastCut(pre, left, first)
  }

  /** The last comma of a text when only whitespace follows it. */
  predicate EndsInComma(s: string) {
    s != "" && (s[|s| - 1] == ',' || (IsSpace(s[|s| - 1]) && EndsInComma(s[..|s| - 1])))
  }

  /** The last piece that is no whitespace is a line comment that ends in a comma. */
  predicate CommaComment(pre: Trivia) {
    pre != [] &&
    var p := pre[|pre| - 1];
    (p.LineComment? && EndsInComma(p.body)) || (p.Space? && CommaComment(pre[..|pre| - 1]))
  }

  /** No pair that has to take the comma in front finds one inside a comment first. */
  predicate Safe(decode: string -> string, it: Items, key: string, first: bool)
    requires ItemsOk(it, true)
  {
    it.Item? ==>
      && Safe(decode, it.rest, key, false)
      && (decode(it.key.value.literal) == key && (!it.comma || Without(decode, it.rest, key, false).eat) ==>
            !CommaComment(it.pre))
  }

  lemma {:induction false} EatLeavesClose(decode: string -> string, it: Items, key: string, first: bool)
    requires ItemsOk(it, true)
    ensures var c := Without(decode, it, key, first); (c.eat ==> c.items.Close? && it.Item? && !first)
    decreases it
  {
  }

  lemma {:induction false} WithoutOk(decode: string -> string, it: Items, key: string, first: bool)
    requires ItemsOk(it, true)
    ensures ItemsOk(Without(decode, it, key, first).items, true)
    ensures LegibleI(it) ==> LegibleI(Without(decode, it, key, first).items)
    decreases it
  {
    if it.Item? {
      WithoutOk(decode, it.rest, key, false);
      EatLeavesClose(decode, it.rest, key, false);
      DropSpacesOk(it.post);
    }
  }

  lemma MeanInFront(decode: string -> string, pre: Trivia, it: Items, acc: map<string, Json>)
    ensures MeanMembers(decode, InFront(pre, it), acc) == MeanMembers(decode, it, acc)
  {
  }

  /** The remaining members mean the old object without the key. */
  lemma {:induction false} WithoutMeans(decode: string -> string, it: Items, key: string, first: bool,
                                        acc: map<string, Json>)
    requires ItemsOk(it, true) && key !in acc
    ensures MeanMembers(decode, Without(decode, it, key, first).items, acc) == MeanMembers(decode, it, acc) - {key}
    decreases it
  {
    if it.Item? {
      var c := Without(decode, it.rest, key, false);
      var name, json := decode(it.key.value.literal), Mean(decode, it.value);
      EatLeavesClose(decode, it.rest, key, false);
      if name != key {
        WithoutMeans(decode, it.rest, key, false, acc[name := json]);
      } else {
        WithoutMeans(decode, it.rest, key, false, acc);
        MeanInFront(decode, it.pre, c.items, acc);
        RemovedFirst(decode, it.rest, key, json, acc);
      }
    }
  }

  lemma {:induction false} RemovedFirst(decode: string -> string, it: Items, key: string, x: Json,
                                        acc: map<string, Json>)
    requires ItemsOk(it, true)
    ensures MeanMembers(decode, it, acc[key := x]) - {key} == MeanMembers(decode, it, acc) - {key}
    decreases it
  {
    if it.Item? {
      var name, json := decode(it.key.value.literal), Mean(decode, it.value);
      if name == key {
        assert acc[key := x][name := json] == acc[name := json];
      } else {
        assert acc[key := x][name := json] == acc[name := json][key := x];
        RemovedFirst(decode, it.rest, key, x, acc[name := json]);
      }
    } else {
      assert acc[key := x] - {key} == acc - {key};
    }
  }

  // ---- looking back for a comma ---------------------------------------------------------

  lemma BackOverSpace(front: string, c: char, root: nat)
    requires IsSpace(c) && root < |front|
    ensures BackComma(front + [c], root) == BackComma(front, root)
  {
  }

  lemma {:induction false} TrLast(tr: Trivia, k: string)
    requires tr != []
    ensures PrTr(tr, k) == PrTr(tr[..|tr| - 1], "") + (PieceText(tr[|tr| - 1]) + k)
  {
    var last := tr[|tr| - 1];
    assert tr == tr[..|tr| - 1] + [last];
    PrTrConcat(tr[..|tr| - 1], [last], k);
    assert PrTr([last], k) == PieceText(last) + k;
    TrFront(tr[..|tr| - 1], PieceText(last) + k);
  }

  /** A text that does not end in a comma and whitespace stops the look. */
  lemma {:induction false} BackStops(front: string, body: string, root: nat)
    requires root + 1 < |front| && !IsSpace(front[|front| - 1]) && front[|front| - 1] != ','
    ensures BackComma(front + body, root).None? <==> !EndsInComma(body)
    ensures BackComma(front + body, root).Some? ==> BackComma(front + body, root).value >= |front|
    decreases |body|
  {
    var s := front + body;
    if body == "" {
      assert s == front;
    } else {
      assert s[..|s| - 1] == front + body[..|body| - 1];
      BackStops(front, body[..|body| - 1], root);
    }
  }

  /** A newline behind a comment body: the look ends inside the comment. */
  lemma BackIntoLine(front: string, body: string, root: nat)
    requires root < |front|
    ensures var r := BackComma(front + ("//" + body + "\n"), root);
            if EndsInComma(body) then r.Some? && r.value >= |front| else r.None?
  {
    var f := front + "//";
    assert front + ("//" + body + "\n") == (f + body) + ['\n'];
    BackOverSpace(f + body, '\n', root);
    BackStops(f, body, root);
  }

  lemma BackAtSlash(front: string, body: string, root: nat)
    requires root < |front|
    ensures BackComma(front + ("/*" + body + "*/"), root).None?
  {
  }

  /** What the look back sees behind `pre`. */
  ghost predicate SeenBack(front: string, pre: Trivia, root: nat, r: Option<nat>) {
    if AllSpaces(pre) then r == BackComma(front, root)
    else if CommaComment(pre) then r.Some? && r.value >= |front|
    else r.None?
  }

  lemma SpacesSplit(pre: Trivia)
    requires pre != []
    ensures AllSpaces(pre) <==> AllSpaces(pre[..|pre| - 1]) && pre[|pre| - 1].Space?
  {
  }

  lemma CommaCommentLast(more: Trivia, last: Piece)
    ensures CommaComment(more + [last])
        <==> if last.Space? then CommaComment(more) else last.LineComment? && EndsInComma(last.body)
  {
  }

  lemma BackOverLast(front: string, more: Trivia, last: Piece, root: nat)
    requires PieceOk(last) && root < |front|
    requires SeenBack(front, more, root, BackComma(front + PrTr(more, ""), root))
    ensures SeenBack(front, more + [last], root, BackComma((front + PrTr(more, "")) + PieceText(last), root))
  {
    var f := front + PrTr(more, "");
    SpacesSplit(more + [last]);
    assert (more + [last])[..|more|] == more;
    CommaCommentLast(more, last);
    match last
    case Space(c) => BackOverSpace(f, c, root);
    case LineComment(body) => BackIntoLine(f, body, root);
    case BlockComment(body) => BackAtSlash(f, body, root);
  }

  /** Where the look back from a pair ends, when it starts behind `pre`: in a comment that ends in a
      comma it finds that comma, any other comment stops it. */
  lemma {:induction false} BackOverTrivia(front: string, pre: Trivia, root: nat)
    requires TriviaOk(pre) && root < |front|
    ensures SeenBack(front, pre, root, BackComma(front + PrTr(pre, ""), root))
    decreases |pre|
  {
    if pre == [] {
      assert front + "" == front;
    } else {
      var more, last := pre[..|pre| - 1], pre[|pre| - 1];
      assert pre == more + [last];
      BackOverTrivia(front, more, root);
      BackOverLast(front, more, last, root);
      TrLast(pre, "");
      assert PieceText(last) + "" == PieceText(last);
      Assoc(front, PrTr(more, ""), PieceText(last));
    }
  }

  // ---- the cuts in the text ----------------------------------------------------------------

  lemma SliceFront(a: string, b: string)
    ensures Take(a + b, |a|) == a && Drop(a + b, |a|) == b
  {
  }

  /** `front` up to the comma the look back finds, then `x`. */
  function BackCut(front: string, root: nat, x: string): string {
    match BackComma(front, root) case Some(j) => front[..j] + x case None => front + x
  }

  /** A pair with no comma behind: it goes, with the comma the look back finds. */
  lemma CutWithoutComma(front: string, pair: string, gap: string, rest: string, after: nat, root: nat)
    requires after >= |front| + |pair|
    requires var s := front + (pair + (gap + rest)); after < |s| ==> s[after] != ','
    ensures var s := front + (pair + (gap + rest));
            Cut(s, Span(|front|, |front| + |pair|, after), root) == BackCut(front, root, gap + rest)
  {
    var s := front + (pair + (gap + rest));
    SliceFront(front, pair + (gap + rest));
    Assoc(front, pair, gap + rest);
    SliceFront(front + pair, gap + rest);
    var j := BackComma(front, root);
    if j.Some? {
      assert Take(s, j.value) == front[..j.value];
    }
  }

  // ---- one pair in the text -------------------------------------------------------------

  /** The whitespace a value's span swallows. */
  function Swallowed(v: Value, post: Trivia): string {
    if v.Scalar? && post != [] && post[0].Space? then [post[0].c] + Swallowed(v, post[1..]) else ""
  }

  lemma {:induction false} SwallowedFront(v: Value, post: Trivia, k: string)
    ensures PrTr(post, k) == Swallowed(v, post) + PrTr(Left(v, post), k)
  {
    if v.Scalar? && post != [] && post[0].Space? {
      SwallowedFront(v, post[1..], k);
      Assoc([post[0].c], Swallowed(v, post[1..]), PrTr(Left(v, post[1..]), k));
    } else {
      assert "" + PrTr(post, k) == PrTr(post, k);
    }
  }

  /** The text a removed pair's span covers. */
  function Pair(it: Items): string
    requires it.Item?
  {
    PrKey(it.key, "") + (PrV(it.value, "") + Swallowed(it.value, it.post))
  }

  function Gap(it: Items): string
    requires it.Item?
  {
    PrTr(Left(it.value, it.post), "")
  }

  /** The span of a pair whose list prints behind `p`. */
  function PairSpan(p: string, it: Items): Span
    requires it.Item?
  {
    StringSpan(p + PrTr(it.pre, ""), Pair(it), Gap(it))
  }

  function StringSpan(front: string, pair: string, gap: string): Span {
    Span(|front|, |front| + |pair|, |front| + |pair| + |gap|)
  }

  lemma PairText(it: Items, c: string)
    requires it.Item?
    ensures PrKey(it.key, PrV(it.value, PrTr(it.post, c))) == Pair(it) + PrTr(Left(it.value, it.post), c)
    ensures PrTr(Left(it.value, it.post), c) == Gap(it) + c
  {
    var rest := PrTr(Left(it.value, it.post), c);
    SwallowedFront(it.value, it.post, c);
    TrFront(Left(it.value, it.post), c);
    ValueFront(it.value, Swallowed(it.value, it.post) + rest);
    Assoc(PrV(it.value, ""), Swallowed(it.value, it.post), rest);
    KeyFront(it.key, (PrV(it.value, "") + Swallowed(it.value, it.post)) + rest);
    Assoc(PrKey(it.key, ""), PrV(it.value, "") + Swallowed(it.value, it.post), rest);
  }

  /** The text up to the pair, the pair, the gap behind it, and the tail. */
  lemma ItemText(p: string, it: Items, k: string)
    requires it.Item?
    ensures p + PrI(it, k) == (p + PrTr(it.pre, "")) + (Pair(it) + (Gap(it) + Tail(it, k)))
  {
    PairText(it, Tail(it, k));
    TrFront(it.pre, PrKey(it.key, PrV(it.value, PrTr(it.post, Tail(it, k)))));
    Assoc(p, PrTr(it.pre, ""), Pair(it) + (Gap(it) + Tail(it, k)));
  }

  /** Where the walk finds the pair. */
  lemma SpanOfItem(decode: string -> string, p: string, it: Items, k: string)
    requires it.Item? && ItemsOk(it, true)
    ensures SpanIn(p + PrI(it, k), MemberOf(decode, it, k))
            == PairSpan(p, it)
  {
    ItemText(p, it, k);
    PairText(it, Tail(it, k));
  }

  lemma {:induction false} SpansOfFirst(text: string, m: Member, members: seq<Member>)
    ensures SpansOf(text, [m] + members) == [SpanIn(text, m)] + SpansOf(text, members)
  {
    if members == [] {
      assert [m] + members == [m];
      assert [m][..0] == [];
    } else {
      var more, last := members[..|members| - 1], members[|members| - 1];
      assert ([m] + members)[..|members|] == [m] + more;
      SpansOfFirst(text, m, more);
    }
  }

  /** The text up to the end of an item. */
  function Through(p: string, it: Items, comma: bool): string
    requires it.Item?
  {
    (p + PrTr(it.pre, "")) + (Pair(it) + (Gap(it) + (if comma then "," else "")))
  }

  lemma Assoc4(a: string, b: string, c: string, d: string, e: string)
    ensures a + (b + (c + (d + e))) == (a + (b + (c + d))) + e
  {
  }

  /** An item followed by `r` prints as the text through the item, then `r`. */
  lemma ThroughItem(p: string, it: Items, comma: bool, r: string)
    requires it.Item?
    ensures p + PrTr(it.pre, PrKey(it.key, PrV(it.value, PrTr(it.post, (if comma then "," else "") + r))))
         == Through(p, it, comma) + r
  {
    var c := (if comma then "," else "") + r;
    PairText(it, c);
    TrFront(it.pre, PrKey(it.key, PrV(it.value, PrTr(it.post, c))));
    Assoc(p, PrTr(it.pre, ""), Pair(it) + (Gap(it) + c));
    Assoc4(p + PrTr(it.pre, ""), Pair(it), Gap(it), if comma then "," else "", r);
  }

  // ---- all pairs of the key --------------------------------------------------------------

  /** The text `p` in front, followed by what the removal leaves of a list. */
  function After(p: string, c: Cutting, k: string): string
    requires p != ""
  {
    (if c.eat then p[..|p| - 1] else p) + PrI(c.items, k)
  }

  lemma ThroughEndsInComma(p: string, it: Items)
    requires it.Item?
    ensures Through(p, it, true) != "" && Through(p, it, true)[|Through(p, it, true)| - 1] == ','
    ensures Through(p, it, true)[..|Through(p, it, true)| - 1] == Through(p, it, false)
  {
  }

  /** The item stays as it is. */
  lemma KeptWithComma(p: string, it: Items, rest: Items, k: string)
    requires it.Item?
    ensures Through(p, it, true) + PrI(rest, k) == p + PrI(Item(it.pre, it.key, it.value, it.post, true, rest), k)
  {
    ThroughItem(p, it, true, PrI(rest, k));
  }

  /** The item stays, and is the last one now. */
  lemma KeptAsLast(p: string, it: Items, tr: Trivia, k: string)
    requires it.Item?
    ensures Through(p, it, false) + PrTr(tr, k)
         == p + PrI(Item(it.pre, it.key, it.value, it.post + tr, false, Close([])), k)
  {
    ThroughItem(p, it, false, PrTr(tr, k));
    assert "" + PrTr(tr, k) == PrTr(tr, k);
    assert PrI(Close([]), k) == k && "" + k == k;
    PrTrConcat(it.post, tr, k);
  }

  /** The item stays; it loses its comma when a later pair has to take it. */
  lemma KeptItem(p: string, it: Items, c: Cutting, k: string)
    requires it.Item? && p != "" && (c.eat ==> it.comma && c.items.Close?) && (!it.comma ==> c.items == Close([]))
    ensures var tr := if c.items.Close? then c.items.tr else [];
            After(Through(p, it, it.comma), c, k)
            == p + PrI(if c.eat || !it.comma then Item(it.pre, it.key, it.value, it.post + tr, false, Close([]))
                       else Item(it.pre, it.key, it.value, it.post, true, c.items), k)
  {
    if c.eat || !it.comma {
      ThroughEndsInComma(p, it);
      KeptAsLast(p, it, c.items.tr, k);
    } else {
      KeptWithComma(p, it, c.items, k);
    }
  }

  lemma InFrontPrints(pre: Trivia, it: Items, k: string)
    ensures PrI(InFront(pre, it), k) == PrTr(pre, "") + PrI(it, k)
  {
    match it
    case Close(tr) =>
      PrTrConcat(pre, tr, k);
      TrFront(pre, PrTr(tr, k));
    case Item(q, key, v, post, comma, rest) =>
      var x := PrKey(key, PrV(v, PrTr(post, (if comma then "," else "") + PrI(rest, k))));
      PrTrConcat(pre, q, x);
      TrFront(pre, PrTr(q, x));
  }

  /** The pair goes with the comma behind it. */
  lemma CutItemWithComma(p: string, it: Items, c: Cutting, k: string, root: nat)
    requires it.Item? && p != "" && it.comma && !c.eat
    ensures Cut(After(Through(p, it, true), c, k),
                PairSpan(p, it), root)
            == p + PrI(InFront(it.pre, c.items), k)
  {
    var front := p + PrTr(it.pre, "");
    ThroughEndsInComma(p, it);
    CutOfComma(front, Pair(it), Gap(it), PrI(c.items, k), root);
    InFrontPrints(it.pre, c.items, k);
    Assoc(p, PrTr(it.pre, ""), PrI(c.items, k));
  }

  lemma {:induction false} TrNoComma(tr: Trivia, k: string)
    requires TriviaOk(tr) && k != "" && k[0] != ','
    ensures PrTr(tr, k) != "" && PrTr(tr, k)[0] != ','
  {
    if tr != [] { assert PieceOk(tr[0]); }
  }

  /** `p` in front of the first member, or behind a comma. */
  predicate Placed(p: string, first: bool, root: nat) {
    |p| > root && (if first then |p| == root + 1 else |p| > root + 1 && p[|p| - 1] == ',')
  }

  /** The cut of a pair with no comma behind. */
  lemma CutTakesBack(p: string, it: Items, tr: Trivia, k: string, root: nat)
    requires it.Item? && ItemsOk(it, true) && TriviaOk(tr) && k != "" && k[0] != ','
    ensures var front := p + PrTr(it.pre, "");
            Cut(Through(p, it, false) + PrTr(tr, k), PairSpan(p, it), root)
            == BackCut(front, root, Gap(it) + PrTr(tr, k))
  {
    var front, pair, gap, r := p + PrTr(it.pre, ""), Pair(it), Gap(it), PrTr(tr, k);
    assert Through(p, it, false) == front + (pair + (gap + ""));
    TrNoComma(tr, k);
    CutNoComma(front, pair, gap, r, root);
  }

  lemma CutNoComma(front: string, pair: string, gap: string, r: string, root: nat)
    requires r != "" && r[0] != ','
    ensures Cut((front + (pair + (gap + ""))) + r, StringSpan(front, pair, gap), root)
         == BackCut(front, root, gap + r)
  {
    assert gap + "" == gap;
    Assoc(pair, gap, r);
    Assoc(front, pair + gap, r);
    NextChar(front, pair, gap, r);
    CutWithoutComma(front, pair, gap, r, |front| + |pair| + |gap|, root);
  }

  lemma NextChar(a: string, b: string, c: string, r: string)
    requires r != ""
    ensures |a| + |b| + |c| < |a + (b + (c + r))| && (a + (b + (c + r)))[|a| + |b| + |c|] == r[0]
  {
  }

  lemma SeenFromPlace(p: string, pre: Trivia, first: bool, root: nat)
    requires TriviaOk(pre) && Placed(p, first, root) && !CommaComment(pre)
    ensures BackComma(p + PrTr(pre, ""), root) == if AllSpaces(pre) && !first then Some(|p| - 1) else None
  {
    BackOverTrivia(p, pre, root);
  }

  /** The text in front, cut back, and what is left behind. */
  lemma BackCutPrints(p: string, pre: Trivia, left: Trivia, k: string, first: bool, root: nat)
    requires TriviaOk(pre) && Placed(p, first, root) && !CommaComment(pre)
    ensures BackCut(p + PrTr(pre, ""), root, PrTr(left, k)) == After(p, LastCut(pre, left, first), k)
  {
    SeenFromPlace(p, pre, first, root);
    if AllSpaces(pre) && !first {
      SliceTake(p, PrTr(pre, ""), |p| - 1);
    } else {
      PreStays(p, pre, left, k);
    }
  }

  /** The pair goes with the comma in front of it, if it finds one. */
  lemma CutLastItem(p: string, it: Items, tr: Trivia, k: string, first: bool, root: nat)
    requires it.Item? && ItemsOk(it, true) && TriviaOk(tr) && Placed(p, first, root)
    requires !CommaComment(it.pre) && k != "" && k[0] != ','
    ensures Cut(Through(p, it, false) + PrTr(tr, k), PairSpan(p, it), root)
         == After(p, LastCut(it.pre, Left(it.value, it.post) + tr, first), k)
  {
    CutTakesBack(p, it, tr, k, root);
    LeftPrints(it, tr, k);
    BackCutPrints(p, it.pre, Left(it.value, it.post) + tr, k, first, root);
  }

  lemma PreStays(p: string, pre: Trivia, left: Trivia, k: string)
    ensures (p + PrTr(pre, "")) + PrTr(left, k) == p + PrTr(pre + left, k)
  {
    PrTrConcat(pre, left, k);
    TrFront(pre, PrTr(left, k));
    Assoc(p, PrTr(pre, ""), PrTr(left, k));
  }

  lemma SliceTake(a: string, b: string, n: nat)
    requires n <= |a|
    ensures (a + b)[..n] == a[..n]
  {
  }

  lemma LeftPrints(it: Items, tr: Trivia, k: string)
    requires it.Item?
    ensures Gap(it) + PrTr(tr, k) == PrTr(Left(it.value, it.post) + tr, k)
  {
    PrTrConcat(Left(it.value, it.post), tr, k);
    TrFront(Left(it.value, it.post), PrTr(tr, k));
  }

  /** Cutting every pair named `key` out of the text prints the members without the key. */
  lemma {:induction false} CutsPrint(decode: string -> string, p: string, it: Items, key: string, k: string,
                                     first: bool, root: nat)
    requires ItemsOk(it, true) && Placed(p, first, root) && Safe(decode, it, key, first)
    ensures var text := p + PrI(it, "}" + k);
            CutAll(text, SpansOf(text, AllNamed(decode, it, key, "}" + k)), root)
            == After(p, Without(decode, it, key, first), "}" + k)
    decreases it
  {
    if it.Item? {
      var close := "}" + k;
      var text := p + PrI(it, close);
      var c := Without(decode, it.rest, key, false);
      var p' := Through(p, it, it.comma);
      var later := AllNamed(decode, it.rest, key, close);
      ThroughItem(p, it, it.comma, PrI(it.rest, close));
      EatLeavesClose(decode, it.rest, key, false);
      if it.comma {
        ThroughEndsInComma(p, it);
        CutsPrint(decode, p', it.rest, key, k, false, root);
      }
      assert CutAll(text, SpansOf(text, later), root) == After(p', c, close);
      OneMoreCut(decode, p, it, key, k, first, root);
    }
  }

  /** One step of the removal: the later pairs are gone already. */
  lemma OneMoreCut(decode: string -> string, p: string, it: Items, key: string, k: string, first: bool, root: nat)
    requires it.Item? && ItemsOk(it, true) && Placed(p, first, root) && Safe(decode, it, key, first)
    requires var text := p + PrI(it, "}" + k);
             CutAll(text, SpansOf(text, AllNamed(decode, it.rest, key, "}" + k)), root)
             == After(Through(p, it, it.comma), Without(decode, it.rest, key, false), "}" + k)
    ensures var text := p + PrI(it, "}" + k);
            CutAll(text, SpansOf(text, AllNamed(decode, it, key, "}" + k)), root)
            == After(p, Without(decode, it, key, first), "}" + k)
  {
    var close := "}" + k;
    var text := p + PrI(it, close);
    var c := Without(decode, it.rest, key, false);
    var later := AllNamed(decode, it.rest, key, close);
    EatLeavesClose(decode, it.rest, key, false);
    if decode(it.key.value.literal) != key {
      assert [] + later == later;
      KeptItem(p, it, c, close);
    } else {
      var m := MemberOf(decode, it, close);
      SpansOfFirst(text, m, later);
      SpanOfItem(decode, p, it, close);
      var spans := SpansOf(text, later);
      assert ([SpanIn(text, m)] + spans)[1..] == spans;
      if it.comma && !c.eat {
        CutItemWithComma(p, it, c, close, root);
      } else {
        var tr := c.items.tr;
        WithoutOk(decode, it.rest, key, false);
        ThroughEndsInComma(p, it);
        CutLastItem(p, it, tr, close, first, root);
      }
    }
  }

  // ---- a comma inside a comment ------------------------------------------------------------

  /** Taking the comma out of a comment deletes more than the pair. */
  lemma CutInComment(decode: string -> string, p: string, it: Items, c: Cutting, k: string, root: nat)
    returns (x: string)
    requires it.Item? && ItemsOk(it, true) && |p| > root && CommaComment(it.pre) && k != "" && k[0] != ','
    requires c.items.Close? && TriviaOk(c.items.tr) && (c.eat <==> it.comma)
    ensures Cut(After(Through(p, it, it.comma), c, k),
                PairSpan(p, it), root) == p + x
    ensures |x| < |PrI(Close(it.pre + (Left(it.value, it.post) + c.items.tr)), k)|
  {
    var tr := c.items.tr;
    NoCommaBehind(p, it, c, k);
    CutTakesBack(p, it, tr, k, root);
    CommentSeen(p, it.pre, root);
    x := ShorterBy(p, PrTr(it.pre, ""), BackComma(p + PrTr(it.pre, ""), root).value, Gap(it) + PrTr(tr, k));
    LeftPrints(it, tr, k);
    PrTrConcat(it.pre, Left(it.value, it.post) + tr, k);
    TrFront(it.pre, PrTr(Left(it.value, it.post) + tr, k));
  }

  lemma NoCommaBehind(p: string, it: Items, c: Cutting, k: string)
    requires it.Item? && p != "" && c.items.Close? && (c.eat <==> it.comma)
    ensures After(Through(p, it, it.comma), c, k) == Through(p, it, false) + PrTr(c.items.tr, k)
  {
  }

  lemma ShorterBy(a: string, b: string, j: nat, r: string) returns (x: string)
    requires |a| <= j < |a + b|
    ensures (a + b)[..j] + r == a + x && |x| < |b + r|
  {
    x := (a + b)[|a|..j] + r;
    assert (a + b)[..j] == a + (a + b)[|a|..j];
  }

  lemma CommentSeen(p: string, pre: Trivia, root: nat)
    requires TriviaOk(pre) && |p| > root && CommaComment(pre)
    ensures BackComma(p + PrTr(pre, ""), root).Some? && BackComma(p + PrTr(pre, ""), root).value >= |p|
  {
    BackOverTrivia(p, pre, root);
    NoSpaceComment(pre);
  }

  lemma {:induction false} NoSpaceComment(pre: Trivia)
    requires CommaComment(pre)
    ensures !AllSpaces(pre)
    decreases |pre|
  {
    SpacesSplit(pre);
    if pre[|pre| - 1].Space? { NoSpaceComment(pre[..|pre| - 1]); }
  }

  /** When the removal is not safe, it leaves a shorter text than the document without the key. */
  lemma {:induction false} UnsafeCuts(decode: string -> string, p: string, it: Items, key: string, k: string,
                                      first: bool, root: nat) returns (x: string)
    requires ItemsOk(it, true) && Placed(p, first, root) && !Safe(decode, it, key, first)
    ensures var text := p + PrI(it, "}" + k);
            CutAll(text, SpansOf(text, AllNamed(decode, it, key, "}" + k)), root) == p + x
    ensures var c := Without(decode, it, key, first); !c.eat && |x| < |PrI(c.items, "}" + k)|
    decreases it
  {
    var close := "}" + k;
    var text := p + PrI(it, close);
    var c := Without(decode, it.rest, key, false);
    var p' := Through(p, it, it.comma);
    var later := AllNamed(decode, it.rest, key, close);
    ThroughItem(p, it, it.comma, PrI(it.rest, close));
    ThroughEndsInComma(p, it);
    if Safe(decode, it.rest, key, false) {
      EatLeavesClose(decode, it.rest, key, false);
      WithoutOk(decode, it.rest, key, false);
      if it.comma { CutsPrint(decode, p', it.rest, key, k, false, root); }
      assert CutAll(text, SpansOf(text, later), root) == After(p', c, close);
      FirstOfSpans(decode, p, it, key, close, root);
      x := CutInComment(decode, p, it, c, close, root);
      NoSpaceComment(it.pre);
    } else {
      var y := UnsafeCuts(decode, p', it.rest, key, k, false, root);
      x := UnsafeBehind(decode, p, it, key, k, first, root, y);
    }
  }

  /** The cut of a pair comes after the cuts of the later ones. */
  lemma FirstOfSpans(decode: string -> string, p: string, it: Items, key: string, close: string, root: nat)
    requires it.Item? && ItemsOk(it, true) && decode(it.key.value.literal) == key
    ensures var text := p + PrI(it, close);
            CutAll(text, SpansOf(text, AllNamed(decode, it, key, close)), root)
            == Cut(CutAll(text, SpansOf(text, AllNamed(decode, it.rest, key, close)), root),
                   PairSpan(p, it), root)
  {
    var text := p + PrI(it, close);
    var m, later := MemberOf(decode, it, close), AllNamed(decode, it.rest, key, close);
    SpansOfFirst(text, m, later);
    SpanOfItem(decode, p, it, close);
    assert ([SpanIn(text, m)] + SpansOf(text, later))[1..] == SpansOf(text, later);
  }

  /** An item in front of an unsafe one keeps the shorter text behind it. */
  lemma UnsafeBehind(decode: string -> string, p: string, it: Items, key: string, k: string, first: bool, root: nat,
                     y: string) returns (x: string)
    requires it.Item? && ItemsOk(it, true) && it.comma
    requires var text := p + PrI(it, "}" + k);
             CutAll(text, SpansOf(text, AllNamed(decode, it.rest, key, "}" + k)), root) == Through(p, it, true) + y
    requires var c := Without(decode, it.rest, key, false); !c.eat && |y| < |PrI(c.items, "}" + k)|
    ensures var text := p + PrI(it, "}" + k);
            CutAll(text, SpansOf(text, AllNamed(decode, it, key, "}" + k)), root) == p + x
    ensures var c := Without(decode, it, key, first); !c.eat && |x| < |PrI(c.items, "}" + k)|
  {
    var close := "}" + k;
    var c := Without(decode, it.rest, key, false);
    if decode(it.key.value.literal) != key {
      var later := AllNamed(decode, it.rest, key, close);
      assert [] + later == later;
      x := KeptShorter(p, it, c.items, close, y);
    } else {
      FirstOfSpans(decode, p, it, key, close, root);
      x := CutShorter(p, it, c.items, close, y, root);
    }
  }

  lemma KeptShorter(p: string, it: Items, rest: Items, k: string, y: string) returns (x: string)
    requires it.Item? && it.comma && |y| < |PrI(rest, k)|
    ensures Through(p, it, true) + y == p + x
    ensures |x| < |PrI(Item(it.pre, it.key, it.value, it.post, true, rest), k)|
  {
    x := Through("", it, true) + y;
    ThroughFront(p, it, y);
    ThroughItem("", it, true, PrI(rest, k));
  }

  lemma CutShorter(p: string, it: Items, rest: Items, k: string, y: string, root: nat) returns (x: string)
    requires it.Item? && it.comma && |y| < |PrI(rest, k)|
    ensures Cut(Through(p, it, true) + y, PairSpan(p, it), root) == p + x
    ensures |x| < |PrI(InFront(it.pre, rest), k)|
  {
    var front := p + PrTr(it.pre, "");
    CutOfComma(front, Pair(it), Gap(it), y, root);
    InFrontPrints(it.pre, rest, k);
    x := PrTr(it.pre, "") + y;
    Assoc(p, PrTr(it.pre, ""), y);
  }

  lemma CutOfComma(front: string, pair: string, gap: string, y: string, root: nat)
    ensures Cut((front + (pair + (gap + ","))) + y, StringSpan(front, pair, gap), root)
         == front + y
  {
  }

  lemma ThroughFront(p: string, it: Items, y: string)
    requires it.Item?
    ensures Through(p, it, true) + y == p + (Through("", it, true) + y)
  {
    var x := Pair(it) + (Gap(it) + ",");
    assert "" + PrTr(it.pre, "") == PrTr(it.pre, "");
    Assoc(p, PrTr(it.pre, ""), x);
    Assoc(p, PrTr(it.pre, "") + x, y);
  }

  // ---- the removal ---------------------------------------------------------------------------

  /** The document without the key. */
  function Kept(decode: string -> string, d: Doc, key: string): Doc
    requires DocOk(d)
  {
    d.(items := Without(decode, d.items, key, true).items)
  }

  lemma KeptMeans(decode: string -> string, d: Doc, key: string)
    requires DocOk(d)
    ensures DocOk(Kept(decode, d, key)) && Members(decode, Kept(decode, d, key)) == Members(decode, d) - {key}
    ensures ParseJsonc(decode, Print(Kept(decode, d, key))) == Ok(JObject(Members(decode, d) - {key}))
  {
    WithoutOk(decode, d.items, key, true);
    WithoutMeans(decode, d.items, key, true, map[]);
    ParseJsoncReadsPrint(decode, Kept(decode, d, key));
  }

  lemma {:induction false} AbsentIsSafe(decode: string -> string, it: Items, key: string, first: bool, k: string)
    requires ItemsOk(it, true) && !HasKey(decode, it, key)
    ensures Safe(decode, it, key, first) && AllNamed(decode, it, key, k) == []
    ensures Without(decode, it, key, first) == Cutting(it, false)
    decreases it
  {
    if it.Item? {
      AbsentIsSafe(decode, it.rest, key, false, k);
      if !it.comma { assert it.post + [] == it.post; }
    }
  }

  lemma {:induction false} PresentIsNamed(decode: string -> string, it: Items, key: string, k: string)
    requires ItemsOk(it, true) && HasKey(decode, it, key)
    ensures AllNamed(decode, it, key, k) != []
    decreases it
  {
    if decode(it.key.value.literal) != key { PresentIsNamed(decode, it.rest, key, k); }
  }

  /** The text up to the first member, and the text behind the last. */
  function Opening(d: Doc): string { PrTr(d.lead, "") + "{" }
  function Ending(d: Doc): string { PrTr(d.tail, LastText(d.last)) }

  lemma OpeningPrints(d: Doc)
    ensures Print(d) == Opening(d) + PrI(d.items, "}" + Ending(d))
  {
    PrintFront(d, "{", PrI(d.items, "}" + Ending(d)));
  }

  lemma MembersToCut(decode: string -> string, d: Doc, key: string)
    requires DocOk(d)
    ensures var s := "{" + PrI(d.items, "}" + Ending(d));
            SpansFrom(decode, s[1..], key, []) == Ok(AllNamed(decode, d.items, key, "}" + Ending(d)))
  {
    assert ("{" + PrI(d.items, "}" + Ending(d)))[1..] == PrI(d.items, "}" + Ending(d));
    WalkFindsAll(decode, d.items, key, Ending(d), []);
    var named := AllNamed(decode, d.items, key, "}" + Ending(d));
    assert [] + named == named;
  }

  /** What the edit does when the key is there: it cuts all pairs, then checks. */
  lemma RemoveCuts(decode: string -> string, d: Doc, key: string)
    requires DocOk(d) && HasKey(decode, d.items, key)
    ensures var named := AllNamed(decode, d.items, key, "}" + Ending(d));
            RemoveEdit(decode, Print(d), key)
            == CheckedGone(decode, CutAll(Print(d), SpansOf(Print(d), named), |Opening(d)| - 1), key)
  {
    var root := "{" + PrI(d.items, "}" + Ending(d));
    OpeningPrints(d);
    EditIsFrom(decode, d, key);
    MembersToCut(decode, d, key);
    PresentIsNamed(decode, d.items, key, "}" + Ending(d));
    RemoveFromCuts(decode, Print(d), key, root, AllNamed(decode, d.items, key, "}" + Ending(d)));
    assert |Print(d)| - |root| == |Opening(d)| - 1;
  }

  lemma EditIsFrom(decode: string -> string, d: Doc, key: string)
    requires DocOk(d) && HasKey(decode, d.items, key)
    ensures |"{" + PrI(d.items, "}" + Ending(d))| <= |Print(d)|
    ensures RemoveEdit(decode, Print(d), key) == RemoveFrom(decode, Print(d), "{" + PrI(d.items, "}" + Ending(d)), key)
  {
    OpeningPrints(d);
    RootOf(d);
    ParseJsoncReadsPrint(decode, d);
    KeysOfMeaning(decode, d.items, key, map[]);
  }

  lemma RemoveFromCuts(decode: string -> string, text: string, key: string, root: string, members: seq<Member>)
    requires |root| <= |text| && root != "" && root[0] == '{'
    requires SpansFrom(decode, root[1..], key, []) == Ok(members) && members != []
    ensures RemoveFrom(decode, text, root, key)
         == CheckedGone(decode, CutAll(text, SpansOf(text, members), |text| - |root|), key)
  {
  }

  /** Removal writes exactly the document without the key when, and only when, no pair that must take
      the comma in front of it has a comment ending in a comma there instead. */
  lemma RemoveIsExact(decode: string -> string, d: Doc, key: string)
    requires DocOk(d)
    ensures RemoveEdit(decode, Print(d), key) == Ok(Print(Kept(decode, d, key))) <==> Safe(decode, d.items, key, true)
  {
    if !HasKey(decode, d.items, key) {
      AbsentIsSafe(decode, d.items, key, true, "");
      ParseJsoncReadsPrint(decode, d);
      KeysOfMeaning(decode, d.items, key, map[]);
    } else {
      var k, p := Ending(d), Opening(d);
      RemoveCuts(decode, d, key);
      OpeningPrints(d);
      OpeningPrints(Kept(decode, d, key));
      KeptMeans(decode, d, key);
      EatLeavesClose(decode, d.items, key, true);
      if Safe(decode, d.items, key, true) {
        CutsPrint(decode, p, d.items, key, k, true, |p| - 1);
      } else {
        UnsafeIsShorter(decode, d, key);
      }
    }
  }

  /** Otherwise more goes than should, or nothing is written. */
  lemma UnsafeIsShorter(decode: string -> string, d: Doc, key: string)
    requires DocOk(d) && !Safe(decode, d.items, key, true)
    ensures var r := RemoveEdit(decode, Print(d), key); r.Ok? ==> |r.value| < |Print(Kept(decode, d, key))|
  {
    var k, p := Ending(d), Opening(d);
    if !HasKey(decode, d.items, key) { AbsentIsSafe(decode, d.items, key, true, ""); }
    RemoveCuts(decode, d, key);
    OpeningPrints(d);
    OpeningPrints(Kept(decode, d, key));
    var x := UnsafeCuts(decode, p, d.items, key, k, true, |p| - 1);
  }

  /** A document whose only pair stands behind a comment that ends in a comma. */
  function CommaInAComment(): Doc {
    Doc([], Item([LineComment(",")], Some(Key("", [], [])), Scalar("1"), [], false, Close([])), [], None)
  }

  lemma CommentCommaText()
    ensures Print(CommaInAComment()) == "{//,\n\"\":1}"
  {
    var it := CommaInAComment().items;
    OnePairText(it.pre, it.key, it.value);
    OneLineComment(",", "\"\":1}");
    assert PrKey(it.key, "1}") == "\"\":1}";
  }

  lemma OneLineComment(body: string, k: string)
    ensures PrTr([LineComment(body)], k) == "//" + body + "\n" + k
  {
  }

  lemma OnePairText(pre: Trivia, key: Option<Key>, v: Value)
    ensures Print(Doc([], Item(pre, key, v, [], false, Close([])), [], None))
         == "{" + PrTr(pre, PrKey(key, PrV(v, "}")))
  {
    assert "}" + PrTr([], LastText(None)) == "}";
    assert "" + PrI(Close([]), "}") == "}";
  }

  /** A comma that ends a comment in front of the last pair is taken for the separator. */
  lemma CommentCommaIsTaken(decode: string -> string)
    ensures var d := CommaInAComment();
            && DocOk(d) && Print(d) == "{//,\n\"\":1}"
            && RemoveEdit(decode, Print(d), decode("")) != Ok(Print(Kept(decode, d, decode(""))))
  {
    var d := CommaInAComment();
    CommentCommaText();
    assert DocOk(d);
    assert EndsInComma(",") && CommaComment(d.items.pre);
    assert !Safe(decode, d.items, decode(""), true);
    RemoveIsExact(decode, d, decode(""));
  }

  // ---- nothing but deletions -------------------------------------------------------------------

  /** `a` is `b` with characters left out. */
  predicate Subseq(a: string, b: string) {
    a == "" || (b != "" && ((a[0] == b[0] && Subseq(a[1..], b[1..])) || Subseq(a, b[1..])))
  }

  lemma {:induction false} SubseqSelf(a: string)
    ensures Subseq(a, a)
  {
    if a != "" { SubseqSelf(a[1..]); }
  }

  lemma {:induction false} SubseqDrop(a: string, n: nat)
    requires n <= |a|
    ensures Subseq(a[n..], a)
  {
    if n == 0 {
      SubseqSelf(a);
      assert a[0..] == a;
    } else {
      SubseqDrop(a[1..], n - 1);
      assert a[1..][n - 1..] == a[n..];
    }
  }

  /** A stretch left out. */
  lemma {:induction false} SubseqCut(a: string, i: nat, j: nat)
    requires i <= |a| && j <= |a| && i <= j
    ensures Subseq(a[..i] + a[j..], a)
  {
    if i == 0 {
      SubseqDrop(a, j);
      assert a[..0] + a[j..] == a[j..];
    } else {
      SubseqCut(a[1..], i - 1, j - 1);
      assert a[..i] + a[j..] == [a[0]] + (a[1..][..i - 1] + a[1..][j - 1..]);
      assert (a[..i] + a[j..])[1..] == a[1..][..i - 1] + a[1..][j - 1..];
    }
  }

  lemma {:induction false} SubseqTrans(a: string, b: string, c: string)
    requires Subseq(a, b) && Subseq(b, c)
    ensures Subseq(a, c)
    decreases |a| + |b| + |c|
  {
    if a != "" {
      if b[0] == c[0] && Subseq(b[1..], c[1..]) {
        if a[0] == b[0] && Subseq(a[1..], b[1..]) { SubseqTrans(a[1..], b[1..], c[1..]); }
        else { SubseqTrans(a, b[1..], c[1..]); }
      } else {
        SubseqTrans(a, b, c[1..]);
      }
    }
  }

  lemma CutDeletes(s: string, span: Span, root: nat)
    requires span.keyStart <= span.valueEnd <= span.after
    ensures Subseq(Cut(s, span, root), s)
  {
    var n := |s|;
    var start := if span.keyStart <= n then span.keyStart else n;
    var end := if span.valueEnd <= n then span.valueEnd else n;
    assert Take(s, span.keyStart) == s[..start] && Drop(s, span.valueEnd) == s[end..];
    if span.after < n && s[span.after] == ',' {
      SubseqCut(s, start, span.after + 1);
    } else {
      var j := BackComma(Take(s, span.keyStart), root);
      if j.Some? {
        SubseqCut(s, j.value, end);
      } else {
        SubseqCut(s, start, end);
      }
    }
  }

  ghost predicate Ordered(spans: seq<Span>) {
    forall i | 0 <= i < |spans| :: spans[i].keyStart <= spans[i].valueEnd <= spans[i].after
  }

  lemma {:induction false} CutAllDeletes(text: string, spans: seq<Span>, root: nat)
    requires Ordered(spans)
    ensures Subseq(CutAll(text, spans, root), text)
  {
    if spans == [] {
      SubseqSelf(text);
    } else {
      CutAllDeletes(text, spans[1..], root);
      CutDeletes(CutAll(text, spans[1..], root), spans[0], root);
      SubseqTrans(CutAll(text, spans, root), CutAll(text, spans[1..], root), text);
    }
  }

  /** Every member the walk reads ends behind its start. */
  ghost predicate WellRead(members: seq<Member>) {
    forall i | 0 <= i < |members| ::
      |members[i].after| <= |members[i].valueEnd| <= |members[i].keyStart|
  }

  lemma {:induction false} WalkReadsInOrder(decode: string -> string, s: string, key: string, acc: seq<Member>)
    requires WellRead(acc)
    ensures SpansFrom(decode, s, key, acc).Ok? ==> WellRead(SpansFrom(decode, s, key, acc).value)
    decreases |s|
  {
    var t := SkipTrivia(s);
    if t.Ok? && t.value != "" && t.value[0] == '"' && ReadMember(decode, t.value, false).Ok? {
    }
    var turn := SpansTurn(decode, s, key, acc);
    if turn.More? {
      WalkReadsInOrder(decode, turn.from, key, turn.members);
    }
  }

  lemma {:induction false} SpansInOrder(text: string, members: seq<Member>)
    requires WellRead(members)
    ensures Ordered(SpansOf(text, members))
  {
    if members != [] {
      SpansInOrder(text, members[..|members| - 1]);
      assert WellRead([members[|members| - 1]]);
    }
  }

  lemma WalkIsRead(decode: string -> string, s: string, key: string, members: seq<Member>)
    requires SpansFrom(decode, s, key, []) == Ok(members)
    ensures WellRead(members)
  {
    WalkReadsInOrder(decode, s, key, []);
  }

  /** The text with these members cut out. */
  function CutText(text: string, root: string, members: seq<Member>): string
    requires |root| <= |text|
  {
    CutAll(text, SpansOf(text, members), |text| - |root|)
  }

  lemma CutSpansDelete(text: string, spans: seq<Span>, root: nat, cut: string)
    requires Ordered(spans) && cut == CutAll(text, spans, root)
    ensures Subseq(cut, text)
  {
    CutAllDeletes(text, spans, root);
  }

  lemma CutTextDeletes(text: string, root: string, members: seq<Member>, cut: string)
    requires |root| <= |text| && WellRead(members) && cut == CutText(text, root, members)
    ensures Subseq(cut, text)
  {
    var spans := SpansOf(text, members);
    SpansInOrder(text, members);
    CutSpansDelete(text, spans, |text| - |root|, cut);
  }

  /** What came out of the cuts and passed the check. */
  ghost predicate CutDown(decode: string -> string, result: string, text: string, key: string) {
    Subseq(result, text) && (result == text || Gone(decode, result, key))
  }

  lemma CheckedIsDown(decode: string -> string, r: Res<string>, cut: string, text: string, key: string)
    requires Subseq(cut, text) && r == CheckedGone(decode, cut, key) && r.Ok?
    ensures CutDown(decode, r.value, text, key)
  {
  }

  lemma CutTextIsChecked(decode: string -> string, text: string, root: string, key: string, members: seq<Member>)
    requires |root| <= |text| && root != "" && root[0] == '{' && members != []
    requires SpansFrom(decode, root[1..], key, []) == Ok(members)
    ensures RemoveFrom(decode, text, root, key) == CheckedGone(decode, CutText(text, root, members), key)
  {
    RemoveFromCuts(decode, text, key, root, members);
  }

  /** An edit that succeeds found the root object and could walk it. */
  lemma EditWalked(decode: string -> string, text: string, root: string, key: string)
    requires |root| <= |text| && RemoveFrom(decode, text, root, key).Ok?
    ensures root != "" && root[0] == '{' && SpansFrom(decode, root[1..], key, []).Ok?
    ensures SpansFrom(decode, root[1..], key, []).value == [] ==> RemoveFrom(decode, text, root, key) == Ok(text)
  {
  }

  lemma RemoveFromDeletes(decode: string -> string, text: string, root: string, key: string)
    requires |root| <= |text| && RemoveFrom(decode, text, root, key).Ok?
    ensures CutDown(decode, RemoveFrom(decode, text, root, key).value, text, key)
  {
    EditWalked(decode, text, root, key);
    var members := SpansFrom(decode, root[1..], key, []).value;
    if members == [] {
      SubseqSelf(text);
    } else {
      CutTextIsChecked(decode, text, root, key, members);
      WalkIsRead(decode, root[1..], key, members);
      var cut := CutText(text, root, members);
      CutTextDeletes(text, root, members, cut);
      CheckedIsDown(decode, RemoveFrom(decode, text, root, key), cut, text, key);
    }
  }

  /** The edit leaves the text alone, or cuts from the root object on. */
  lemma RemoveCases(decode: string -> string, text: string, key: string)
    requires RemoveEdit(decode, text, key).Ok?
    ensures RemoveEdit(decode, text, key) == Ok(text)
         || (SkipTrivia(text).Ok?
             && RemoveEdit(decode, text, key) == RemoveFrom(decode, text, SkipTrivia(text).value, key))
  {
  }

  /** Whatever the text, what removal returns is the text with characters left out; unless it is the
      text itself, it parses to an object without the key. */
  lemma RemoveOnlyDeletes(decode: string -> string, text: string, key: string)
    requires RemoveEdit(decode, text, key).Ok?
    ensures CutDown(decode, RemoveEdit(decode, text, key).value, text, key)
  {
    RemoveCases(decode, text, key);
    if RemoveEdit(decode, text, key) == Ok(text) {
      SubseqSelf(text);
    } else {
      RemoveFromDeletes(decode, text, SkipTrivia(text).value, key);
    }
  }
}
