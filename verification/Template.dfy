/** The inline template dialect: `{{ .var }}` and `{{ if eq .os "x" }} ... {{ else }} ... {{ end }}`.
    A text is its tokens; values of the context carry no template marks. */
module Template {
  import opened Options

  datatype Token =
    | Text(text: string) | Var(name: string) | If(name: string, wanted: string) | Else | End
    | Bad(block: string)  // any other {{ ... }}

  datatype TemplateError =
    | Unclosed | UnknownCondition(name: string) | UnknownVariable(name: string) | Unmatched | Unsupported(block: string)

  datatype Res<+T> = Ok(value: T) | Fail(error: TemplateError)

  type Context = map<string, string>

  // ---- what the expander does ---------------------------------------------------------

  /** The raw parts of one if block, and what follows it. */
  datatype Parts = Parts(thens: seq<Token>, elses: seq<Token>, rest: seq<Token>)

  /** Walks an if body: `thens` and `elses` are what it collected, `depth` the open blocks. */
  function Walk(ts: seq<Token>, depth: nat, thens: seq<Token>, elses: Option<seq<Token>>): (r: Res<Parts>)
    requires depth >= 1
    ensures r.Ok? ==> |r.value.thens| + |r.value.elses| + |r.value.rest| + 1
                      <= |ts| + |thens| + (if elses.Some? then |elses.value| else 0)
    decreases |ts|
  {
    if ts == [] then Fail(Unclosed)
    else
      var t := ts[0];
      if t == End && depth == 1 then Ok(Parts(thens, if elses.Some? then elses.value else [], ts[1..]))
      else if t == Else && depth == 1 && elses.None? then Walk(ts[1..], depth, thens, Some([]))
      else
        var depth' := if t.If? then depth + 1 else if t == End then depth - 1 else depth;
        if elses.Some? then Walk(ts[1..], depth', thens, Some(elses.value + [t]))
        else Walk(ts[1..], depth', thens + [t], None)
  }

  function Split(ts: seq<Token>): (r: Res<Parts>)
    ensures r.Ok? ==> |r.value.thens| + |r.value.elses| + |r.value.rest| + 1 <= |ts|
  {
    Walk(ts, 1, [], None)
  }

  function InFrontOf(t: Token, r: Res<seq<Token>>): Res<seq<Token>> {
    match r case Ok(ts) => Ok([t] + ts) case Fail(e) => Fail(e)
  }

  /** Every top-level block replaced by its selected branch, expanded; both branches are expanded. */
  function IfBlocks(ts: seq<Token>, ctx: Context): Res<seq<Token>>
    decreases |ts|, 0
  {
    if ts == [] then Ok([])
    else if !ts[0].If? then InFrontOf(ts[0], IfBlocks(ts[1..], ctx))
    else if ts[0].name !in ctx then Fail(UnknownCondition(ts[0].name))
    else
      match Split(ts[1..])
      case Fail(e) => Fail(e)
      case Ok(Parts(thens, elses, rest)) =>
        match Expand(thens, ctx)
        case Fail(e) => Fail(e)
        case Ok(a) =>
          match Expand(elses, ctx)
          case Fail(e) => Fail(e)
          case Ok(b) => InFrontOf(Text(if ctx[ts[0].name] == ts[0].wanted then a else b), IfBlocks(rest, ctx))
  }

  /** Variables replaced; anything else in braces is an error. */
  function Substitute(ts: seq<Token>, ctx: Context): Res<string> {
    if ts == [] then Ok("")
    else
      match One(ts[0], ctx)
      case Fail(e) => Fail(e)
      case Ok(a) => (match Substitute(ts[1..], ctx) case Fail(e) => Fail(e) case Ok(b) => Ok(a + b))
  }

  function One(t: Token, ctx: Context): Res<string> {
    match t
    case Text(s) => Ok(s)
    case Var(name) => if name in ctx then Ok(ctx[name]) else Fail(UnknownVariable(name))
    case Bad(block) => Fail(Unsupported(block))
    case If(_, _) => Fail(Unmatched)
    case Else => Fail(Unmatched)
    case End => Fail(Unmatched)
  }

  function Expand(ts: seq<Token>, ctx: Context): Res<string>
    decreases |ts|, 1
  {
    match IfBlocks(ts, ctx)
    case Fail(e) => Fail(e)
    case Ok(us) => Substitute(us, ctx)
  }

  // ---- the expander -----------------------------------------------------------------------

  /** The walk at `cursor`, with what it has collected given by offsets. */
  ghost function WalkAt(ts: seq<Token>, start: nat, cursor: nat, depth: nat, elseStart: Option<nat>): Res<Parts>
    requires start <= cursor <= |ts| && depth >= 1
    requires elseStart.Some? ==> start <= elseStart.value < cursor
  {
    if elseStart.Some? then Walk(ts[cursor..], depth, ts[start..elseStart.value], Some(ts[elseStart.value + 1..cursor]))
    else Walk(ts[cursor..], depth, ts[start..cursor], None)
  }

  lemma SliceOn(ts: seq<Token>, from: nat, cursor: nat)
    requires from <= cursor < |ts|
    ensures ts[from..cursor] + [ts[cursor]] == ts[from..cursor + 1] && ts[cursor..][1..] == ts[cursor + 1..]
  {
  }

  lemma WalkOn(ts: seq<Token>, start: nat, cursor: nat, depth: nat, elseStart: Option<nat>)
    requires start <= cursor < |ts| && depth >= 1
    requires elseStart.Some? ==> start <= elseStart.value < cursor
    requires !(ts[cursor] == End && depth == 1)
    ensures var t := ts[cursor];
            WalkAt(ts, start, cursor, depth, elseStart)
            == if t == Else && depth == 1 && elseStart.None? then WalkAt(ts, start, cursor + 1, depth, Some(cursor))
               else
                 WalkAt(ts, start, cursor + 1,
                        if t.If? then depth + 1 else if t == End then depth - 1 else depth, elseStart)
  {
    SliceOn(ts, start, cursor);
    if elseStart.Some? { SliceOn(ts, elseStart.value + 1, cursor); }
    assert ts[cursor + 1..cursor + 1] == [];
  }

  method SplitIfBlock(ts: seq<Token>, start: nat) returns (r: Res<(seq<Token>, seq<Token>, nat)>)
    requires start <= |ts|
    ensures r.Fail? ==> Split(ts[start..]) == Fail(r.error)
    ensures r.Ok? ==> start < r.value.2 <= |ts|
    ensures r.Ok? ==> Split(ts[start..]) == Ok(Parts(r.value.0, r.value.1, ts[r.value.2..]))
  {
    var depth, cursor := 1, start;
    var elseStart: Option<nat> := None;
    assert ts[start..start] == [];
    while cursor < |ts|
      invariant start <= cursor <= |ts| && depth >= 1
      invariant elseStart.Some? ==> start <= elseStart.value < cursor
      invariant Split(ts[start..]) == WalkAt(ts, start, cursor, depth, elseStart)
    {
      var t := ts[cursor];
      if t == End && depth == 1 {
        SliceOn(ts, start, cursor);
        return Ok((ts[start..if elseStart.Some? then elseStart.value else cursor],
                   if elseStart.Some? then ts[elseStart.value + 1..cursor] else [], cursor + 1));
      }
      WalkOn(ts, start, cursor, depth, elseStart);
      if t.If? {
        depth := depth + 1;
      } else if t == Else {
        if depth == 1 && elseStart.None? { elseStart := Some(cursor); }
      } else if t == End {
        depth := depth - 1;
      }
      cursor := cursor + 1;
    }
    return Fail(Unclosed);
  }

  /** Ok results joined behind `out`. */
  function Behind(out: seq<Token>, r: Res<seq<Token>>): Res<seq<Token>> {
    match r case Ok(ts) => Ok(out + ts) case Fail(e) => Fail(e)
  }

  lemma {:induction false} PlainRun(ts: seq<Token>, n: nat, ctx: Context)
    requires n <= |ts| && forall i | 0 <= i < n :: !ts[i].If?
    ensures IfBlocks(ts, ctx) == Behind(ts[..n], IfBlocks(ts[n..], ctx))
  {
    if n == 0 {
      assert ts[..0] == [] && ts[0..] == ts;
      if IfBlocks(ts, ctx).Ok? { assert [] + IfBlocks(ts, ctx).value == IfBlocks(ts, ctx).value; }
    } else {
      PlainRun(ts[1..], n - 1, ctx);
      assert ts[1..][n - 1..] == ts[n..];
      assert ts[..n] == [ts[0]] + ts[1..][..n - 1];
      BehindTwice([ts[0]], ts[1..][..n - 1], IfBlocks(ts[n..], ctx));
    }
  }

  method FindIf(ts: seq<Token>, from: nat) returns (at: nat)
    requires from <= |ts|
    ensures from <= at <= |ts| && forall i | from <= i < at :: !ts[i].If?
    ensures at < |ts| ==> ts[at].If?
  {
    at := from;
    while at < |ts| && !ts[at].If?
      invariant from <= at <= |ts| && forall i | from <= i < at :: !ts[i].If?
    {
      at := at + 1;
    }
  }

  lemma BehindTwice(a: seq<Token>, b: seq<Token>, r: Res<seq<Token>>)
    ensures Behind(a, Behind(b, r)) == Behind(a + b, r)
  {
    if r.Ok? { assert a + (b + r.value) == (a + b) + r.value; }
  }

  /** One block: its selected branch, expanded, and where it ends. */
  method ExpandBlock(ts: seq<Token>, open: nat, ctx: Context) returns (r: Res<(Token, nat)>)
    requires open < |ts| && ts[open].If?
    ensures r.Fail? ==> IfBlocks(ts[open..], ctx) == Fail(r.error)
    ensures r.Ok? ==> open < r.value.1 <= |ts|
    ensures r.Ok? ==> IfBlocks(ts[open..], ctx) == InFrontOf(r.value.0, IfBlocks(ts[r.value.1..], ctx))
    decreases |ts|, 0
  {
    var If(name, wanted) := ts[open];
    if name !in ctx { return Fail(UnknownCondition(name)); }
    var split := SplitIfBlock(ts, open + 1);
    if split.Fail? { return Fail(split.error); }
    var (thens, elses, end) := split.value;
    var expandedThen := ExpandInlineTemplates(thens, ctx);
    if expandedThen.Fail? { return Fail(expandedThen.error); }
    var expandedElse := Ok("");
    if elses != [] { expandedElse := ExpandInlineTemplates(elses, ctx); }
    if expandedElse.Fail? { return Fail(expandedElse.error); }
    r := Ok((Text(if ctx[name] == wanted then expandedThen.value else expandedElse.value), end));
  }

  method ExpandIfBlocks(ts: seq<Token>, ctx: Context) returns (r: Res<seq<Token>>)
    ensures r == IfBlocks(ts, ctx)
    decreases |ts|, 1
  {
    var out: seq<Token> := [];
    var pos := 0;
    NothingBehind(ts, ctx);
    while true
      invariant pos <= |ts|
      invariant IfBlocks(ts, ctx) == Behind(out, IfBlocks(ts[pos..], ctx))
      decreases |ts| - pos
    {
      var open := FindIf(ts, pos);
      PlainRun(ts[pos..], open - pos, ctx);
      assert ts[pos..][..open - pos] == ts[pos..open] && ts[pos..][open - pos..] == ts[open..];
      BehindTwice(out, ts[pos..open], IfBlocks(ts[open..], ctx));
      out := out + ts[pos..open];
      if open == |ts| {
        assert IfBlocks(ts[open..], ctx) == Ok([]) && out + [] == out;
        return Ok(out);
      }
      var block := ExpandBlock(ts, open, ctx);
      if block.Fail? { return Fail(block.error); }
      BehindTwice(out, [block.value.0], IfBlocks(ts[block.value.1..], ctx));
      out, pos := out + [block.value.0], block.value.1;
    }
  }

  lemma NothingBehind(ts: seq<Token>, ctx: Context)
    ensures IfBlocks(ts, ctx) == Behind([], IfBlocks(ts[0..], ctx))
  {
    assert ts[0..] == ts;
    if IfBlocks(ts, ctx).Ok? { assert [] + IfBlocks(ts, ctx).value == IfBlocks(ts, ctx).value; }
  }

  /** The rest of a substitution behind what is done. */
  function After(done: string, r: Res<string>): Res<string> {
    match r case Ok(b) => Ok(done + b) case Fail(e) => Fail(e)
  }

  lemma SubstituteStep(us: seq<Token>, i: nat, done: string, ctx: Context)
    requires i < |us|
    ensures After(done, Substitute(us[i..], ctx))
         == match One(us[i], ctx)
            case Fail(e) => Fail(e)
            case Ok(a) => After(done + a, Substitute(us[i + 1..], ctx))
  {
    assert us[i..][1..] == us[i + 1..];
    var one, rest := One(us[i], ctx), Substitute(us[i + 1..], ctx);
    if one.Ok? && rest.Ok? { assert done + (one.value + rest.value) == (done + one.value) + rest.value; }
  }

  method SubstituteAll(us: seq<Token>, ctx: Context) returns (r: Res<string>)
    ensures r == Substitute(us, ctx)
  {
    var done := "";
    var i := 0;
    assert us[0..] == us;
    assert Substitute(us, ctx).Ok? ==> "" + Substitute(us, ctx).value == Substitute(us, ctx).value;
    while i < |us|
      invariant i <= |us|
      invariant Substitute(us, ctx) == After(done, Substitute(us[i..], ctx))
    {
      SubstituteStep(us, i, done, ctx);
      var one := One(us[i], ctx);
      if one.Fail? { return Fail(one.error); }
      done := done + one.value;
      i := i + 1;
    }
    assert Substitute(us[i..], ctx) == Ok("") && done + "" == done;
    return Ok(done);
  }

  method ExpandInlineTemplates(ts: seq<Token>, ctx: Context) returns (r: Res<string>)
    ensures r == Expand(ts, ctx)
    decreases |ts|, 2
  {
    var resolved := ExpandIfBlocks(ts, ctx);
    if resolved.Fail? { return Fail(resolved.error); }
    r := SubstituteAll(resolved.value, ctx);
  }

  // ---- well-formed templates -------------------------------------------------------------

  datatype Tpl =
    | Nil
    | TextThen(text: string, rest: Tpl)
    | VarThen(name: string, rest: Tpl)
    | IfThen(name: string, wanted: string, thens: Tpl, elses: Option<Tpl>, rest: Tpl)

  function Flatten(t: Tpl): seq<Token> {
    match t
    case Nil => []
    case TextThen(s, rest) => [Text(s)] + Flatten(rest)
    case VarThen(name, rest) => [Var(name)] + Flatten(rest)
    case IfThen(name, wanted, thens, elses, rest) =>
      [If(name, wanted)] + (Flatten(thens) + (ElsePart(elses) + ([End] + Flatten(rest))))
  }

  function ElsePart(elses: Option<Tpl>): seq<Token> {
    match elses case None => [] case Some(e) => [Else] + Flatten(e)
  }

  /** Every variable and condition is known, in the branches that are not selected too. */
  predicate Known(t: Tpl, ctx: Context) {
    match t
    case Nil => true
    case TextThen(_, rest) => Known(rest, ctx)
    case VarThen(name, rest) => name in ctx && Known(rest, ctx)
    case IfThen(name, _, thens, elses, rest) =>
      name in ctx && Known(thens, ctx) && (elses.Some? ==> Known(elses.value, ctx)) && Known(rest, ctx)
  }

  function Eval(t: Tpl, ctx: Context): string
    requires Known(t, ctx)
  {
    match t
    case Nil => ""
    case TextThen(s, rest) => s + Eval(rest, ctx)
    case VarThen(name, rest) => ctx[name] + Eval(rest, ctx)
    case IfThen(name, wanted, thens, elses, rest) =>
      (if ctx[name] == wanted then Eval(thens, ctx) else if elses.Some? then Eval(elses.value, ctx) else "")
      + Eval(rest, ctx)
  }

  // ---- the expander evaluates templates -----------------------------------------------------

  function MoreThen(thens: seq<Token>, elses: Option<seq<Token>>, x: seq<Token>): seq<Token> {
    if elses.None? then thens + x else thens
  }

  function MoreElse(elses: Option<seq<Token>>, x: seq<Token>): Option<seq<Token>> {
    if elses.None? then None else Some(elses.value + x)
  }

  lemma Join(a: seq<Token>, b: seq<Token>, c: seq<Token>)
    ensures (a + b) + c == a + (b + c)
  {
  }

  /** The walk after it has collected `acc` on top of what it began with. */
  function W(k: seq<Token>, depth: nat, thens: seq<Token>, elses: Option<seq<Token>>, acc: seq<Token>): Res<Parts>
    requires depth >= 1
  {
    Walk(k, depth, MoreThen(thens, elses, acc), MoreElse(elses, acc))
  }

  lemma WalkToken(t: Token, k: seq<Token>, depth: nat, thens: seq<Token>, elses: Option<seq<Token>>, acc: seq<Token>)
    requires depth >= 1 && (t == End || t == Else ==> depth >= 2)
    ensures var depth' := if t.If? then depth + 1 else if t == End then depth - 1 else depth;
            W([t] + k, depth, thens, elses, acc) == W(k, depth', thens, elses, acc + [t])
  {
    assert ([t] + k)[1..] == k;
    Join(thens, acc, [t]);
    if elses.Some? { Join(elses.value, acc, [t]); }
  }

  lemma EmptyFirst(k: seq<Token>)
    ensures [] + k == k
  {
  }

  lemma NothingMore(k: seq<Token>, acc: seq<Token>)
    ensures [] + k == k && acc + [] == acc
  {
  }

  /** A whole template inside a body is collected as it stands. */
  lemma {:induction false} WalkOver(t: Tpl, k: seq<Token>, depth: nat, thens: seq<Token>, elses: Option<seq<Token>>,
                                    acc: seq<Token>)
    requires depth >= 1
    ensures W(Flatten(t) + k, depth, thens, elses, acc) == W(k, depth, thens, elses, acc + Flatten(t))
    decreases t, 0
  {
    match t
    case Nil => NothingMore(k, acc);
    case TextThen(s, rest) => WalkTokenThen(Text(s), rest, k, depth, thens, elses, acc);
    case VarThen(name, rest) => WalkTokenThen(Var(name), rest, k, depth, thens, elses, acc);
    case IfThen(name, wanted, a, b, rest) =>
      var open, body, tail, after := [If(name, wanted)], Flatten(a), ElsePart(b), Flatten(rest);
      IfJoins(open, body, tail, after, k, acc);
      WalkToken(If(name, wanted), body + (tail + ([End] + (after + k))), depth, thens, elses, acc);
      WalkOver(a, tail + ([End] + (after + k)), depth + 1, thens, elses, acc + open);
      WalkElse(b, [End] + (after + k), depth + 1, thens, elses, acc + open + body);
      WalkToken(End, after + k, depth + 1, thens, elses, acc + open + body + tail);
      WalkOver(rest, k, depth, thens, elses, acc + open + body + tail + [End]);
  }

  lemma IfJoins(open: seq<Token>, body: seq<Token>, tail: seq<Token>, after: seq<Token>, k: seq<Token>, acc: seq<Token>)
    ensures (open + (body + (tail + ([End] + after)))) + k == open + (body + (tail + ([End] + (after + k))))
    ensures acc + (open + (body + (tail + ([End] + after)))) == acc + open + body + tail + [End] + after
  {
  }

  lemma WalkTokenThen(t: Token, rest: Tpl, k: seq<Token>, depth: nat, thens: seq<Token>, elses: Option<seq<Token>>,
                      acc: seq<Token>)
    requires depth >= 1 && (t.Text? || t.Var? || (t == Else && depth >= 2))
    ensures W(([t] + Flatten(rest)) + k, depth, thens, elses, acc)
         == W(k, depth, thens, elses, acc + ([t] + Flatten(rest)))
    decreases rest, 1
  {
    Join([t], Flatten(rest), k);
    Join(acc, [t], Flatten(rest));
    WalkToken(t, Flatten(rest) + k, depth, thens, elses, acc);
    WalkOver(rest, k, depth, thens, elses, acc + [t]);
  }

  lemma WalkElse(b: Option<Tpl>, k: seq<Token>, depth: nat, thens: seq<Token>, elses: Option<seq<Token>>,
                 acc: seq<Token>)
    requires depth >= 2
    ensures W(ElsePart(b) + k, depth, thens, elses, acc) == W(k, depth, thens, elses, acc + ElsePart(b))
    decreases b, 2
  {
    match b
    case None => NothingMore(k, acc);
    case Some(e) => WalkTokenThen(Else, e, k, depth, thens, elses, acc);
  }

  /** The splitter finds the block's own else and its own end. */
  lemma SplitsBlock(a: Tpl, b: Option<Tpl>, rest: seq<Token>)
    ensures Split(Flatten(a) + (ElsePart(b) + ([End] + rest)))
         == Ok(Parts(Flatten(a), if b.Some? then Flatten(b.value) else [], rest))
  {
    var end := [End] + rest;
    WalkOver(a, ElsePart(b) + end, 1, [], None, []);
    EmptyFirst([]);
    EmptyFirst(Flatten(a));
    assert end[1..] == rest;
    if b.Some? {
      Join([Else], Flatten(b.value), end);
      assert ([Else] + (Flatten(b.value) + end))[1..] == Flatten(b.value) + end;
      WalkOver(b.value, end, 1, Flatten(a), Some([]), []);
      EmptyFirst(Flatten(b.value));
    } else {
      assert [] + end == end;
    }
  }

  lemma Substitutes(t: Token, us: seq<Token>, ctx: Context)
    ensures Substitute([t] + us, ctx)
         == match One(t, ctx)
            case Fail(e) => Fail(e)
            case Ok(a) => (match Substitute(us, ctx) case Fail(e) => Fail(e) case Ok(b) => Ok(a + b))
  {
  }

  /** A well-formed template whose names are all known expands to its value. */
  lemma {:induction false} TemplatesExpand(t: Tpl, ctx: Context)
    requires Known(t, ctx)
    ensures Expand(Flatten(t), ctx) == Ok(Eval(t, ctx))
    decreases t, 0
  {
    match t
    case Nil =>
    case TextThen(s, rest) => PlainExpands(Text(s), rest, ctx);
    case VarThen(name, rest) => PlainExpands(Var(name), rest, ctx);
    case IfThen(name, wanted, a, b, rest) =>
      var ts := Flatten(t);
      assert ts[1..] == Flatten(a) + (ElsePart(b) + ([End] + Flatten(rest)));
      SplitsBlock(a, b, Flatten(rest));
      TemplatesExpand(a, ctx);
      if b.Some? { TemplatesExpand(b.value, ctx); } else { assert Expand([], ctx) == Ok(""); }
      TemplatesExpand(rest, ctx);
      var chosen := if ctx[name] == wanted then Eval(a, ctx) else if b.Some? then Eval(b.value, ctx) else "";
      Substitutes(Text(chosen), IfBlocks(Flatten(rest), ctx).value, ctx);
  }

  lemma PlainExpands(token: Token, rest: Tpl, ctx: Context)
    requires (token.Text? || (token.Var? && token.name in ctx)) && Known(rest, ctx)
    ensures Expand([token] + Flatten(rest), ctx) == Ok(One(token, ctx).value + Eval(rest, ctx))
    decreases rest, 1
  {
    assert ([token] + Flatten(rest))[1..] == Flatten(rest);
    TemplatesExpand(rest, ctx);
    Substitutes(token, IfBlocks(Flatten(rest), ctx).value, ctx);
  }

  /** What the walk has collected and what is left is always the whole text. */
  function ElseTokens(elses: Option<seq<Token>>): seq<Token> {
    if elses.Some? then [Else] + elses.value else []
  }

  function Whole(thens: seq<Token>, elses: Option<seq<Token>>, ts: seq<Token>): seq<Token> {
    thens + (ElseTokens(elses) + ts)
  }

  lemma WholeElse(thens: seq<Token>, e: seq<Token>, t: Token, ts: seq<Token>)
    ensures Whole(thens, Some(e + [t]), ts) == Whole(thens, Some(e), [t] + ts)
  {
    assert [Else] + (e + [t]) == ([Else] + e) + [t];
    Join([Else] + e, [t], ts);
  }

  lemma WholeThen(thens: seq<Token>, t: Token, ts: seq<Token>)
    ensures Whole(thens + [t], None, ts) == Whole(thens, None, [t] + ts)
  {
    EmptyFirst(ts);
    EmptyFirst([t] + ts);
    Join(thens, [t], ts);
  }

  lemma WholeAtElse(thens: seq<Token>, ts: seq<Token>)
    ensures Whole(thens, Some([]), ts) == Whole(thens, None, [Else] + ts)
  {
    EmptyFirst([Else] + ts);
    assert [Else] + [] == [Else];
  }

  /** One step of the walk: the arguments it goes on with hold the same text. */
  lemma StepKeepsText(ts: seq<Token>, depth: nat, thens: seq<Token>, elses: Option<seq<Token>>)
    returns (depth': nat, thens': seq<Token>, elses': Option<seq<Token>>)
    requires depth >= 1 && Walk(ts, depth, thens, elses).Ok? && !(ts[0] == End && depth == 1)
    ensures depth' >= 1 && Walk(ts, depth, thens, elses) == Walk(ts[1..], depth', thens', elses')
    ensures Whole(thens, elses, ts) == Whole(thens', elses', ts[1..])
  {
    var t, more := ts[0], ts[1..];
    assert ts == [t] + more;
    depth', thens', elses' := if t.If? then depth + 1 else if t == End then depth - 1 else depth, thens, elses;
    if t == Else && depth == 1 && elses.None? {
      elses' := Some([]);
      WholeAtElse(thens, more);
    } else if elses.Some? {
      elses' := Some(elses.value + [t]);
      WholeElse(thens, elses.value, t, more);
    } else {
      thens' := thens + [t];
      WholeThen(thens, t, more);
    }
  }

  lemma {:induction false} WalkKeepsText(ts: seq<Token>, depth: nat, thens: seq<Token>, elses: Option<seq<Token>>)
    returns (els: Option<seq<Token>>)
    requires depth >= 1 && Walk(ts, depth, thens, elses).Ok?
    ensures var p := Walk(ts, depth, thens, elses).value;
            && Whole(thens, elses, ts) == Whole(p.thens, els, [End] + p.rest)
            && p.elses == if els.Some? then els.value else []
    decreases |ts|
  {
    if ts[0] == End && depth == 1 {
      assert ts == [End] + ts[1..];
      els := elses;
    } else {
      var depth', thens', elses' := StepKeepsText(ts, depth, thens, elses);
      els := WalkKeepsText(ts[1..], depth', thens', elses');
    }
  }

  /** Whatever the expander accepts is a well-formed template with known names, and it returns its value. */
  lemma {:induction false} ExpandedIsTemplate(ts: seq<Token>, ctx: Context) returns (t: Tpl)
    requires Expand(ts, ctx).Ok?
    ensures Flatten(t) == ts && Known(t, ctx) && Expand(ts, ctx) == Ok(Eval(t, ctx))
    decreases |ts|
  {
    if ts == [] {
      t := Nil;
    } else if !ts[0].If? {
      Substitutes(ts[0], IfBlocks(ts[1..], ctx).value, ctx);
      var rest := ExpandedIsTemplate(ts[1..], ctx);
      assert ts == [ts[0]] + ts[1..];
      t := if ts[0].Text? then TextThen(ts[0].text, rest) else VarThen(ts[0].name, rest);
    } else {
      t := ExpandedBlock(ts, ctx);
    }
  }

  lemma ExpandedBlock(ts: seq<Token>, ctx: Context) returns (t: Tpl)
    requires Expand(ts, ctx).Ok? && ts != [] && ts[0].If?
    ensures Flatten(t) == ts && Known(t, ctx) && Expand(ts, ctx) == Ok(Eval(t, ctx))
    decreases |ts|, 0
  {
    var If(name, wanted) := ts[0];
    var Parts(thens, elses, rest) := Split(ts[1..]).value;
    var a, b := Expand(thens, ctx), Expand(elses, ctx);
    Substitutes(Text(if ctx[name] == wanted then a.value else b.value), IfBlocks(rest, ctx).value, ctx);
    var els := WalkKeepsText(ts[1..], 1, [], None);
    assert [] + ([] + ts[1..]) == ts[1..];
    var ta := ExpandedIsTemplate(thens, ctx);
    var tb := ExpandedIsTemplate(elses, ctx);
    var tr := ExpandedIsTemplate(rest, ctx);
    t := IfThen(name, wanted, ta, if els.Some? then Some(tb) else None, tr);
    assert ts == [ts[0]] + ts[1..];
    if els.None? { assert Expand([], ctx) == Ok(""); }
  }

  /** Expansion succeeds exactly on well-formed templates with known names, and then it is evaluation. */
  lemma ExpandIsEvaluation(ts: seq<Token>, ctx: Context, out: string)
    ensures Expand(ts, ctx) == Ok(out) <==> exists t :: Flatten(t) == ts && Known(t, ctx) && Eval(t, ctx) == out
  {
    if Expand(ts, ctx) == Ok(out) {
      var t := ExpandedIsTemplate(ts, ctx);
      assert Flatten(t) == ts && Known(t, ctx) && Eval(t, ctx) == out;
    }
    if t :| Flatten(t) == ts && Known(t, ctx) && Eval(t, ctx) == out {
      TemplatesExpand(t, ctx);
    }
  }

  lemma {:induction false} KnownByNames(t: Tpl, a: Context, b: Context)
    requires a.Keys == b.Keys && Known(t, a)
    ensures Known(t, b)
    decreases t
  {
    match t
    case Nil =>
    case TextThen(_, rest) => KnownByNames(rest, a, b);
    case VarThen(_, rest) => KnownByNames(rest, a, b);
    case IfThen(_, _, thens, elses, rest) =>
      KnownByNames(thens, a, b);
      if elses.Some? { KnownByNames(elses.value, a, b); }
      KnownByNames(rest, a, b);
  }

  /** A template that fails on one system fails on all: success depends on the names, not on the values. */
  lemma BothBranchesCount(ts: seq<Token>, a: Context, b: Context)
    requires a.Keys == b.Keys && Expand(ts, a).Ok?
    ensures Expand(ts, b).Ok?
  {
    var t := ExpandedIsTemplate(ts, a);
    KnownByNames(t, a, b);
    TemplatesExpand(t, b);
  }
}
