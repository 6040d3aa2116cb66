/** Laws of the scanners over every text: the comment stripper only blanks, keeps
    offsets, line breaks and strings, is idempotent; and scanning the raw text gives the
    offsets of scanning the stripped text. */
module JsoncLaws {
  import opened JsoncText

  /** Position by position, a character is kept or becomes a space; line breaks are kept. */
  ghost predicate OnlyBlanked(s: string, t: string) {
    && |t| == |s|
    && forall i | 0 <= i < |s| :: t[i] == s[i] || (t[i] == ' ' && !IsBreak(s[i]))
  }

  lemma {:induction false} StripOnlyBlanks(s: string, m: Mode)
    requires Strip(s, m).Ok?
    ensures OnlyBlanked(s, Strip(s, m).value)
    decreases |s|, if m == Line then 1 else 0
  {
    if s != "" {
      match m
      case Code =>
        if s[0] == '"' { StripOnlyBlanks(s[1..], Str); }
        else if StartsLine(s) { StripOnlyBlanks(s[2..], Line); }
        else if StartsBlock(s) { StripOnlyBlanks(s[2..], Block); }
        else { StripOnlyBlanks(s[1..], Code); }
      case Str => StripOnlyBlanks(s[1..], if s[0] == '\\' then Esc else if s[0] == '"' then Code else Str);
      case Esc => StripOnlyBlanks(s[1..], Str);
      case Line => if IsBreak(s[0]) { StripOnlyBlanks(s, Code); } else { StripOnlyBlanks(s[1..], Line); }
      case Block =>
        if EndsBlock(s) { StripOnlyBlanks(s[2..], Code); } else { StripOnlyBlanks(s[1..], Block); }
    }
  }

  /** Where the stripped text goes on when the stripper stood in mode `m`. */
  function Landing(m: Mode): Mode {
    if m == Line || m == Block then Code else m
  }

  lemma SpaceInCode(s: string)
    ensures Strip(" " + s, Code) == Behind(" ", Strip(s, Code))
  {
  }

  lemma TwoSpacesInCode(s: string)
    ensures Strip("  " + s, Code) == Behind("  ", Strip(s, Code))
  {
    SpaceInCode(s);
    SpaceInCode(" " + s);
    assert "  " + s == " " + (" " + s);
    if Strip(s, Code).Ok? {
      assert " " + (" " + Strip(s, Code).value) == "  " + Strip(s, Code).value;
    }
  }

  /** Stripping a stripped text changes nothing. */
  lemma {:induction false} StripIdempotent(s: string, m: Mode)
    requires Strip(s, m).Ok?
    ensures Strip(Strip(s, m).value, Landing(m)) == Strip(s, m)
    decreases |s|, if m == Line then 1 else 0
  {
    if s == "" { return; }
    var t := Strip(s, m).value;
    match m
    case Code =>
      if s[0] == '"' {
        StripIdempotent(s[1..], Str);
        assert t[1..] == Strip(s[1..], Str).value;
      } else if StartsLine(s) || StartsBlock(s) {
        var m' := if StartsLine(s) then Line else Block;
        StripIdempotent(s[2..], m');
        TwoSpacesInCode(Strip(s[2..], m').value);
      } else {
        StripIdempotent(s[1..], Code);
        StripOnlyBlanks(s[1..], Code);
        assert t[1..] == Strip(s[1..], Code).value;
      }
    case Str =>
      var m' := if s[0] == '\\' then Esc else if s[0] == '"' then Code else Str;
      StripIdempotent(s[1..], m');
      assert t[1..] == Strip(s[1..], m').value;
    case Esc =>
      StripIdempotent(s[1..], Str);
      assert t[1..] == Strip(s[1..], Str).value;
    case Line =>
      if IsBreak(s[0]) {
        StripIdempotent(s, Code);
      } else {
        StripIdempotent(s[1..], Line);
        SpaceInCode(Strip(s[1..], Line).value);
      }
    case Block =>
      if EndsBlock(s) {
        StripIdempotent(s[2..], Code);
        TwoSpacesInCode(Strip(s[2..], Code).value);
      } else {
        StripIdempotent(s[1..], Block);
        var u := Strip(s[1..], Block).value;
        if !IsBreak(s[0]) { SpaceInCode(u); }
      }
  }

  /** The stripper as a whole: same length, same line breaks, and nothing left for a second pass. */
  lemma StripperLaws(text: string)
    requires WithoutComments(text).Ok?
    ensures var out := WithoutComments(text).value;
            OnlyBlanked(text, out) && WithoutComments(out) == Ok(out)
  {
    StripOnlyBlanks(text, Code);
    StripIdempotent(text, Code);
  }

  lemma LongerLiteral(s: string, r: string)
    requires |r| < |s|
    ensures s[..|s| - |r|] == [s[0]] + s[1..][..|s| - 1 - |r|]
    ensures s[1..] == s[1..][..|s| - 1 - |r|] + r ==> s == s[..|s| - |r|] + r
  {
    var lit := s[1..][..|s| - 1 - |r|];
    assert [s[0]] + (lit + r) == ([s[0]] + lit) + r;
    assert s == [s[0]] + s[1..];
  }

  /** A string literal that starts in code is copied unchanged, closing quote included, and
      stripping goes on right behind it. */
  lemma {:induction false} StringsAreKept(s: string, escaped: bool)
    requires StringRest(s, escaped).Ok?
    ensures var r := StringRest(s, escaped).value;
            var lit := s[..|s| - |r|];
            s == lit + r && Strip(s, if escaped then Esc else Str) == Behind(lit, Strip(r, Code))
  {
    var r := StringRest(s, escaped).value;
    LongerLiteral(s, r);
    if !escaped && s[0] == '"' {
      assert s[..|s| - |r|] == [s[0]];
    } else {
      StringsAreKept(s[1..], !escaped && s[0] == '\\');
      BehindCopy(s, escaped, s[1..][..|s| - 1 - |r|], Strip(r, Code));
    }
  }

  /** One more copied character of a string. */
  lemma BehindCopy(s: string, escaped: bool, lit: string, r: Res<string>)
    requires s != "" && (escaped || s[0] != '"')
    requires Strip(s[1..], if !escaped && s[0] == '\\' then Esc else Str) == Behind(lit, r)
    ensures Strip(s, if escaped then Esc else Str) == Behind([s[0]] + lit, r)
  {
    if r.Ok? { assert [s[0]] + (lit + r.value) == ([s[0]] + lit) + r.value; }
  }

  // ---- raw text against stripped text -------------------------------------------

  /** No lone carriage return inside a line comment: it is followed by a newline, or ends the text. */
  predicate CrSafe(s: string, m: Mode)
    decreases |s|, if m == Line then 1 else 0
  {
    s == "" ||
    match m
    case Code =>
      if s[0] == '"' then CrSafe(s[1..], Str)
      else if StartsLine(s) then CrSafe(s[2..], Line)
      else if StartsBlock(s) then CrSafe(s[2..], Block)
      else CrSafe(s[1..], Code)
    case Str => CrSafe(s[1..], if s[0] == '\\' then Esc else if s[0] == '"' then Code else Str)
    case Esc => CrSafe(s[1..], Str)
    case Line =>
      if IsBreak(s[0]) then (s[0] == '\r' ==> |s| == 1 || s[1] == '\n') && CrSafe(s, Code) else CrSafe(s[1..], Line)
    case Block => if EndsBlock(s) then CrSafe(s[2..], Code) else CrSafe(s[1..], Block)
  }

  /** `blank` is what the stripper makes of `raw`, read from code. */
  ghost predicate Twins(raw: string, blank: string) {
    CrSafe(raw, Code) && Strip(raw, Code) == Ok(blank)
  }

  lemma TwinsSameLength(raw: string, blank: string)
    requires Twins(raw, blank)
    ensures OnlyBlanked(raw, blank)
  {
    StripOnlyBlanks(raw, Code);
  }

  /** A line comment, as the stripper leaves it, is skipped as whitespace up to the newline that ends it. */
  lemma {:induction false} LineBlank(s: string)
    requires CrSafe(s, Line) && Strip(s, Line).Ok?
    ensures var r := AfterNewline(s);
            && CrSafe(r, Code) && Strip(r, Code).Ok?
            && SkipTrivia(Strip(s, Line).value) == SkipTrivia(Strip(r, Code).value)
            && LookAhead(Strip(s, Line).value) == LookAhead(Strip(r, Code).value)
            && ScalarRest(Strip(s, Line).value) == ScalarRest(Strip(r, Code).value)
    ensures forall stack | stack != [] ::
              BracketRest(Strip(s, Line).value, stack) == BracketRest(Strip(AfterNewline(s), Code).value, stack)
  {
    if s != "" {
      var t := Strip(s, Line).value;
      if s[0] == '\n' {
        assert t[1..] == Strip(s[1..], Code).value;
      } else if s[0] == '\r' {
        assert t[1..] == Strip(s[1..], Code).value;
        if |s| > 1 {
          assert s[1..][1..] == s[2..] && s[1..][0] == '\n';
          assert CrSafe(s[1..], Code) && CrSafe(s[1..][1..], Code);
          assert t[1..][1..] == Strip(s[2..], Code).value;
          assert AfterNewline(s) == AfterNewline(s[1..]) == s[1..][1..];
        } else {
          assert s[1..] == "";
        }
      } else {
        LineBlank(s[1..]);
        assert t[1..] == Strip(s[1..], Line).value;
      }
    }
  }

  lemma {:induction false} BlockBlank(s: string)
    requires CrSafe(s, Block) && Strip(s, Block).Ok?
    ensures AfterClose(s).Ok?
    ensures var r := AfterClose(s).value;
            && CrSafe(r, Code) && Strip(r, Code).Ok?
            && SkipTrivia(Strip(s, Block).value) == SkipTrivia(Strip(r, Code).value)
            && LookAhead(Strip(s, Block).value) == LookAhead(Strip(r, Code).value)
            && ScalarRest(Strip(s, Block).value) == ScalarRest(Strip(r, Code).value)
    ensures forall stack | stack != [] ::
              BracketRest(Strip(s, Block).value, stack) == BracketRest(Strip(AfterClose(s).value, Code).value, stack)
  {
    var t := Strip(s, Block).value;
    if EndsBlock(s) {
      var u := Strip(s[2..], Code).value;
      assert t == "  " + u && t[1..] == " " + u && t[1..][1..] == u;
    } else {
      BlockBlank(s[1..]);
      assert t[1..] == Strip(s[1..], Block).value;
    }
  }

  lemma TwinsAfterChar(raw: string, blank: string)
    requires Twins(raw, blank) && raw != "" && raw[0] != '"' && !StartsLine(raw) && !StartsBlock(raw)
    ensures blank != "" && blank[0] == raw[0] && Twins(raw[1..], blank[1..])
    ensures !StartsLine(blank) && !StartsBlock(blank)
  {
  }

  /** Both scanners over a line comment, and over the blanks in its place. */
  lemma TriviaOverLine(raw: string, blank: string)
    requires Twins(raw, blank) && StartsLine(raw)
    ensures var r := AfterNewline(raw[2..]);
            && Strip(r, Code).Ok? && Twins(r, Strip(r, Code).value) && SkipTrivia(raw) == SkipTrivia(r)
            && SkipTrivia(blank) == SkipTrivia(Strip(r, Code).value)
            && ScalarRest(blank) == ScalarRest(Strip(r, Code).value)
  {
    var u := Strip(raw[2..], Line).value;
    LineBlank(raw[2..]);
    assert blank == "  " + u;
    TwoBlanks(blank, u);
  }

  lemma TriviaOverBlock(raw: string, blank: string)
    requires Twins(raw, blank) && StartsBlock(raw)
    ensures AfterClose(raw[2..]).Ok?
    ensures var r := AfterClose(raw[2..]).value;
            && Strip(r, Code).Ok? && Twins(r, Strip(r, Code).value) && SkipTrivia(raw) == SkipTrivia(r)
            && SkipTrivia(blank) == SkipTrivia(Strip(r, Code).value)
            && ScalarRest(blank) == ScalarRest(Strip(r, Code).value)
  {
    var u := Strip(raw[2..], Block).value;
    BlockBlank(raw[2..]);
    assert blank == "  " + u;
    TwoBlanks(blank, u);
  }

  lemma TwoBlanks(s: string, u: string)
    requires s == "  " + u
    ensures SkipTrivia(s) == SkipTrivia(u) && ScalarRest(s) == ScalarRest(u)
  {
    assert s[1..] == " " + u && s[1..][1..] == u;
    assert !EndsScalar(s) && !EndsScalar(s[1..]);
  }

  /** Trivia skipping on the raw text and on the stripped text stop at the same place. */
  lemma {:induction false} TriviaAgrees(raw: string, blank: string)
    requires Twins(raw, blank)
    ensures SkipTrivia(raw).Ok? && SkipTrivia(blank).Ok?
    ensures Twins(SkipTrivia(raw).value, SkipTrivia(blank).value)
    decreases |raw|
  {
    if raw == "" {
    } else if StartsLine(raw) {
      var r := AfterNewline(raw[2..]);
      TriviaOverLine(raw, blank);
      TriviaAgrees(r, Strip(r, Code).value);
    } else if StartsBlock(raw) {
      TriviaOverBlock(raw, blank);
      var r := AfterClose(raw[2..]).value;
      TriviaAgrees(r, Strip(r, Code).value);
    } else if raw[0] != '"' {
      TwinsAfterChar(raw, blank);
      if IsSpace(raw[0]) {
        TriviaAgrees(raw[1..], blank[1..]);
      }
    }
  }

  /** A string literal ends at the same place. */
  lemma StringEndsAgree(raw: string, blank: string)
    requires Twins(raw, blank) && raw != "" && raw[0] == '"' && StringRest(raw[1..], false).Ok?
    ensures blank != "" && blank[0] == '"' && StringRest(blank[1..], false).Ok?
    ensures Twins(StringRest(raw[1..], false).value, StringRest(blank[1..], false).value)
  {
    StringsAreKept(raw[1..], false);
    var r := StringRest(raw[1..], false).value;
    var lit := raw[1..][..|raw| - 1 - |r|];
    assert blank[1..] == lit + Strip(r, Code).value;
    StringRestDependsOnLiteral(lit, r, Strip(r, Code).value, false);
    CrSafeBehindString(raw[1..], false);
  }

  lemma {:induction false} StringRestDependsOnLiteral(lit: string, r: string, r': string, escaped: bool)
    requires StringRest(lit + r, escaped) == Ok(r)
    ensures StringRest(lit + r', escaped) == Ok(r')
  {
    assert |lit + r| > |r|;
    if lit != "" {
      assert (lit + r)[1..] == lit[1..] + r && (lit + r')[1..] == lit[1..] + r';
      if escaped {
        StringRestDependsOnLiteral(lit[1..], r, r', false);
      } else if lit[0] == '\\' {
        StringRestDependsOnLiteral(lit[1..], r, r', true);
      } else if lit[0] == '"' {
        assert |lit| == 1;
      } else {
        StringRestDependsOnLiteral(lit[1..], r, r', false);
      }
    }
  }

  lemma {:induction false} CrSafeBehindString(s: string, escaped: bool)
    requires StringRest(s, escaped).Ok? && CrSafe(s, if escaped then Esc else Str)
    ensures CrSafe(StringRest(s, escaped).value, Code)
  {
    if !escaped && s[0] == '"' {
    } else {
      CrSafeBehindString(s[1..], !escaped && s[0] == '\\');
    }
  }

  /** The matcher over a comment, and over the blanks in its place. */
  lemma BracketOverLine(raw: string, blank: string, stack: seq<char>)
    requires Twins(raw, blank) && stack != [] && StartsLine(raw)
    ensures var r := AfterNewline(raw[2..]);
            && Strip(r, Code).Ok? && Twins(r, Strip(r, Code).value)
            && BracketRest(raw, stack) == BracketRest(r, stack)
            && BracketRest(blank, stack) == BracketRest(Strip(r, Code).value, stack)
  {
    LineBlank(raw[2..]);
  }

  lemma BracketOverBlock(raw: string, blank: string, stack: seq<char>)
    requires Twins(raw, blank) && stack != [] && StartsBlock(raw)
    ensures AfterClose(raw[2..]).Ok?
    ensures var r := AfterClose(raw[2..]).value;
            && Strip(r, Code).Ok? && Twins(r, Strip(r, Code).value)
            && BracketRest(raw, stack) == BracketRest(r, stack)
            && BracketRest(blank, stack) == BracketRest(Strip(r, Code).value, stack)
  {
    BlockBlank(raw[2..]);
  }

  /** A string that is not closed is copied to the end of the text. */
  lemma {:induction false} UnclosedIsCopied(s: string, escaped: bool)
    requires StringRest(s, escaped).Err?
    ensures Strip(s, if escaped then Esc else Str) == Ok(s)
  {
    if s != "" {
      var esc := !escaped && s[0] == '\\';
      UnclosedIsCopied(s[1..], esc);
      assert [s[0]] + s[1..] == s;
    }
  }

  /** A bracketed value ends at the same place, or on neither text, whatever is nested in it. */
  lemma {:induction false} BracketsAgree(raw: string, blank: string, stack: seq<char>)
    requires Twins(raw, blank) && stack != []
    ensures BracketRest(raw, stack).Ok? <==> BracketRest(blank, stack).Ok?
    ensures BracketRest(raw, stack).Ok? ==> Twins(BracketRest(raw, stack).value, BracketRest(blank, stack).value)
    decreases |raw|
  {
    if raw == "" {
    } else if raw[0] == '"' {
      if StringRest(raw[1..], false).Ok? {
        StringEndsAgree(raw, blank);
        BracketsAgree(StringRest(raw[1..], false).value, StringRest(blank[1..], false).value, stack);
      } else {
        UnclosedIsCopied(raw[1..], false);
        assert blank == [raw[0]] + raw[1..] && blank[1..] == raw[1..];
      }
    } else if StartsLine(raw) {
      BracketOverLine(raw, blank, stack);
      BracketsAgree(AfterNewline(raw[2..]), Strip(AfterNewline(raw[2..]), Code).value, stack);
    } else if StartsBlock(raw) {
      BracketOverBlock(raw, blank, stack);
      var r := AfterClose(raw[2..]).value;
      BracketsAgree(r, Strip(r, Code).value, stack);
    } else {
      TwinsAfterChar(raw, blank);
      if Opens(raw[0]) {
        BracketsAgree(raw[1..], blank[1..], stack + [raw[0]]);
      } else if !Closes(raw[0]) {
        BracketsAgree(raw[1..], blank[1..], stack);
      } else if |stack| > 1 {
        BracketsAgree(raw[1..], blank[1..], stack[..|stack| - 1]);
      }
    }
  }

  /** A scalar without quotes: on the stripped text the scanner goes on from where it ends on the raw text. */
  lemma {:induction false} ScalarEndsAgree(raw: string, blank: string)
    requires Twins(raw, blank) && '"' !in raw[..|raw| - |ScalarRest(raw)|]
    ensures var r := ScalarRest(raw);
            && Strip(r, Code).Ok? && Twins(r, Strip(r, Code).value)
            && ScalarRest(blank) == ScalarRest(Strip(r, Code).value)
    decreases |raw|
  {
    var n := |raw| - |ScalarRest(raw)|;
    if !EndsScalar(raw) {
      assert raw[..n][0] == raw[0];
      TwinsAfterChar(raw, blank);
      assert raw[1..][..n - 1] == raw[..n][1..];
      ScalarEndsAgree(raw[1..], blank[1..]);
    }
  }

  /** Over whitespace and blanked comments it goes on to the comma or bracket behind them. */
  lemma {:induction false} ScalarOverTrivia(raw: string, blank: string)
    requires Twins(raw, blank) && SkipTrivia(raw).Ok?
    requires var after := SkipTrivia(raw).value; after != "" && (after[0] == ',' || Closes(after[0]))
    ensures SkipTrivia(blank) == Ok(ScalarRest(blank))
    decreases |raw|
  {
    if StartsLine(raw) {
      TriviaOverLine(raw, blank);
      ScalarOverTrivia(AfterNewline(raw[2..]), Strip(AfterNewline(raw[2..]), Code).value);
    } else if StartsBlock(raw) {
      TriviaOverBlock(raw, blank);
      ScalarOverTrivia(AfterClose(raw[2..]).value, Strip(AfterClose(raw[2..]).value, Code).value);
    } else {
      TwinsAfterChar(raw, blank);
      if IsSpace(raw[0]) { ScalarOverTrivia(raw[1..], blank[1..]); }
    }
  }

  /** Strings and bracketed values end at the same place. */
  lemma ValueEndsAgree(raw: string, blank: string)
    requires Twins(raw, blank) && ValueRest(raw).Ok?
    requires var v := SkipTrivia(raw).value; v[0] == '"' || Opens(v[0])
    ensures ValueRest(blank).Ok? && Twins(ValueRest(raw).value, ValueRest(blank).value)
  {
    TriviaAgrees(raw, blank);
    var v, w := SkipTrivia(raw).value, SkipTrivia(blank).value;
    if v[0] == '"' {
      StringEndsAgree(v, w);
    } else {
      TwinsAfterChar(v, w);
      BracketsAgree(v[1..], w[1..], [v[0]]);
    }
  }

  /** Without the carriage-return condition they part: here the skipper runs over the number
      the stripper left standing. */
  lemma LoneCarriageReturnParts()
    ensures Strip("//\r1", Code) == Ok("  \r1") && !CrSafe("//\r1", Code)
    ensures SkipTrivia("//\r1") == Ok("") && SkipTrivia("  \r1") == Ok("1")
  {
    var raw, blank := "//\r1", "  \r1";
    assert raw[2..] == "\r1" && "\r1"[1..] == "1" && "1"[1..] == "";
    assert "1" + "" == "1" && "\r" + "1" == "\r1" && "  " + "\r1" == "  \r1";
    assert Strip("1", Code) == Behind("1", Ok("")) == Ok("1");
    assert Strip("\r1", Code) == Behind("\r", Ok("1")) == Ok("\r1");
    assert Strip("\r1", Line) == Ok("\r1");
    assert Strip(raw, Code) == Behind("  ", Strip("\r1", Line));
    assert AfterNewline("1") == "" && AfterNewline("\r1") == "";
    assert blank[1..] == " \r1" && blank[1..][1..] == "\r1";
  }
}
