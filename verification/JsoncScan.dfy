/** The index loops of the JSONC scanners, each proved equal to its specification. */
module JsoncScan {
  import opened JsoncText

  lemma Suffix(text: string, i: nat, j: nat)
    requires i <= j <= |text|
    ensures text[i..][j - i..] == text[j..]
  {
  }

  function Moded(inString: bool, escaped: bool): Mode {
    if !inString then Code else if escaped then Esc else Str
  }

  /** What has been written so far, and what the specification says of the rest. */
  ghost predicate Copied(out: array<char>, text: string, i: nat, rest: Res<string>)
    requires i <= |text| == out.Length
    reads out
  {
    && out[i..] == text[i..]
    && WithoutComments(text) == Behind(out[..i], rest)
  }

  method StripComments(text: string) returns (r: Res<string>)
    ensures r == WithoutComments(text)
  {
    var out := new char[|text|](i requires 0 <= i < |text| => text[i]);
    var i := 0;
    var inString, escaped := false, false;
    CopyStarts(out, text);
    while i < |text|
      invariant i <= |text|
      invariant escaped ==> inString
      invariant Copied(out, text, i, Strip(text[i..], Moded(inString, escaped)))
    {
      var c := text[i];
      if inString {
        if escaped {
          escaped := false;
        } else if c == '\\' {
          escaped := true;
        } else if c == '"' {
          inString := false;
        }
        Keep(out, text, i, Strip(text[i + 1..], Moded(inString, escaped)));
        i := i + 1;
        continue;
      }
      if c == '/' && i + 1 < |text| && text[i + 1] == '/' {
        i := BlankLine(out, text, i);
        continue;
      }
      if c == '/' && i + 1 < |text| && text[i + 1] == '*' {
        var closed;
        i, closed := BlankBlock(out, text, i);
        if !closed {
          return Err("unterminated JSONC block comment");
        }
        continue;
      }
      inString := c == '"';
      Keep(out, text, i, Strip(text[i + 1..], Moded(inString, escaped)));
      i := i + 1;
    }
    CopyEnds(out, text);
    return Ok(out[..]);
  }

  lemma CopyStarts(out: array<char>, text: string)
    requires out.Length == |text| && out[..] == text
    ensures Copied(out, text, 0, Strip(text[0..], Code))
  {
    assert out[..0] == "" && out[0..] == text[0..] && text[0..] == text;
    if WithoutComments(text).Ok? {
      assert "" + WithoutComments(text).value == WithoutComments(text).value;
    }
  }

  lemma CopyEnds(out: array<char>, text: string)
    requires out.Length == |text|
    requires exists m :: m != Block && Copied(out, text, |text|, Strip(text[|text|..], m))
    ensures WithoutComments(text) == Ok(out[..])
  {
    assert text[|text|..] == "" && out[..|text|] == out[..];
    assert out[..] + "" == out[..];
  }

  /** Blanks one line comment, up to its line break. */
  method BlankLine(out: array<char>, text: string, start: nat) returns (i: nat)
    requires start + 2 <= |text| == out.Length
    requires Copied(out, text, start, Behind("  ", Strip(text[start + 2..], Line)))
    modifies out
    ensures start < i <= |text| && Copied(out, text, i, Strip(text[i..], Code))
  {
    BlankTwo(out, text, start, Strip(text[start + 2..], Line));
    i := start + 2;
    while i < |text| && text[i] != '\r' && text[i] != '\n'
      invariant start < i <= |text|
      invariant Copied(out, text, i, Strip(text[i..], Line))
    {
      assert text[i..][1..] == text[i + 1..];
      BlankOne(out, text, i, ' ', Strip(text[i + 1..], Line));
      i := i + 1;
    }
  }

  /** Blanks one block comment but its line breaks. */
  method BlankBlock(out: array<char>, text: string, start: nat) returns (i: nat, closed: bool)
    requires start + 2 <= |text| == out.Length
    requires Copied(out, text, start, Behind("  ", Strip(text[start + 2..], Block)))
    modifies out
    ensures start < i <= |text|
    ensures closed ==> Copied(out, text, i, Strip(text[i..], Code))
    ensures !closed ==> WithoutComments(text) == Err("unterminated JSONC block comment")
  {
    BlankTwo(out, text, start, Strip(text[start + 2..], Block));
    i := start + 2;
    while i < |text|
      invariant start < i <= |text|
      invariant Copied(out, text, i, Strip(text[i..], Block))
    {
      if text[i] == '*' && i + 1 < |text| && text[i + 1] == '/' {
        assert text[i..][2..] == text[i + 2..];
        BlankTwo(out, text, i, Strip(text[i + 2..], Code));
        i := i + 2;
        return i, true;
      }
      assert text[i..][1..] == text[i + 1..];
      if text[i] != '\r' && text[i] != '\n' {
        BlankOne(out, text, i, ' ', Strip(text[i + 1..], Block));
      } else {
        Keep(out, text, i, Strip(text[i + 1..], Block));
      }
      i := i + 1;
    }
    assert text[i..] == "";
    return i, false;
  }

  /** Position i keeps its character. */
  lemma Keep(out: array<char>, text: string, i: nat, rest: Res<string>)
    requires i < |text| == out.Length
    requires Copied(out, text, i, Behind([text[i]], rest))
    ensures Copied(out, text, i + 1, rest)
  {
    assert out[i] == out[i..][0] == text[i..][0];
    assert out[..i + 1] == out[..i] + [text[i]];
    assert out[i + 1..] == out[i..][1..] == text[i..][1..] == text[i + 1..];
    if rest.Ok? {
      assert out[..i] + ([text[i]] + rest.value) == out[..i + 1] + rest.value;
    }
  }

  method BlankOne(out: array<char>, text: string, i: nat, c: char, ghost rest: Res<string>)
    requires i < |text| == out.Length
    requires Copied(out, text, i, Behind([c], rest))
    modifies out
    ensures Copied(out, text, i + 1, rest)
  {
    ghost var before := out[..i];
    out[i] := c;
    assert out[..i] == before;
    assert out[..i + 1] == before + [c];
    assert out[i + 1..] == text[i..][1..] == text[i + 1..];
    if rest.Ok? {
      assert before + ([c] + rest.value) == out[..i + 1] + rest.value;
    }
  }

  method BlankTwo(out: array<char>, text: string, i: nat, ghost rest: Res<string>)
    requires i + 2 <= |text| == out.Length
    requires Copied(out, text, i, Behind("  ", rest))
    modifies out
    ensures Copied(out, text, i + 2, rest)
  {
    if rest.Ok? {
      assert "  " + rest.value == " " + (" " + rest.value);
    }
    assert Behind("  ", rest) == Behind(" ", Behind(" ", rest));
    BlankOne(out, text, i, ' ', Behind(" ", rest));
    BlankOne(out, text, i + 1, ' ', rest);
  }

  /** text.find("\n", from): the position of the newline, or -1. */
  method FindNewline(text: string, from: nat) returns (at: int)
    requires from <= |text|
    ensures -1 <= at < |text|
    ensures at >= 0 ==> from <= at && AfterNewline(text[from..]) == text[at + 1..]
    ensures at < 0 ==> AfterNewline(text[from..]) == ""
  {
    for i := from to |text|
      invariant AfterNewline(text[from..]) == AfterNewline(text[i..])
    {
      assert text[i..][1..] == text[i + 1..];
      if text[i] == '\n' {
        return i;
      }
    }
    return -1;
  }

  /** text.find("*" "/", from): the position of the mark, or -1. */
  method FindClose(text: string, from: nat) returns (at: int)
    requires from <= |text|
    ensures -1 <= at <= |text| - 2 || at == -1
    ensures at >= 0 ==> from <= at && AfterClose(text[from..]) == Ok(text[at + 2..])
    ensures at < 0 ==> AfterClose(text[from..]).Err?
  {
    var i := from;
    while i + 1 < |text|
      invariant from <= i <= |text|
      invariant AfterClose(text[from..]) == AfterClose(text[i..])
    {
      assert text[i..][1..] == text[i + 1..];
      Suffix(text, i, i + 2);
      if text[i] == '*' && text[i + 1] == '/' {
        return i;
      }
      i := i + 1;
    }
    return -1;
  }

  /** The index of `rest`, when it is what the specification says follows position i. */
  ghost predicate At(text: string, r: Res<string>, i: nat) {
    i <= |text| && r == Ok(text[i..])
  }

  /** One turn of the trivia skipper: `next` is where to go on; it is i at the first other character. */
  method SkipOne(text: string, i: nat) returns (unclosed: bool, next: nat)
    requires i < |text|
    ensures unclosed ==> SkipTrivia(text[i..]).Err?
    ensures !unclosed ==> i <= next <= |text|
    ensures !unclosed && next > i ==> SkipTrivia(text[i..]) == SkipTrivia(text[next..])
    ensures !unclosed && next == i ==> SkipTrivia(text[i..]) == Ok(text[i..])
  {
    unclosed, next := false, i;
    if IsSpace(text[i]) {
      next := i + 1;
    } else if i + 1 < |text| && text[i] == '/' && text[i + 1] == '/' {
      var newline := FindNewline(text, i + 2);
      if newline < 0 {
        next := |text|;
        assert text[|text|..] == "";
      } else {
        next := newline + 1;
      }
    } else if i + 1 < |text| && text[i] == '/' && text[i + 1] == '*' {
      var close := FindClose(text, i + 2);
      if close < 0 { unclosed := true; } else { next := close + 2; }
    } else {
    }
  }

  method SkipJsoncTrivia(text: string, start: nat) returns (r: Res<nat>)
    requires start <= |text|
    ensures r.Ok? ==> start <= r.value && At(text, SkipTrivia(text[start..]), r.value)
    ensures r.Err? ==> SkipTrivia(text[start..]).Err?
  {
    var i := start;
    while i < |text|
      invariant start <= i <= |text|
      invariant SkipTrivia(text[start..]) == SkipTrivia(text[i..])
      decreases |text| - i
    {
      var unclosed, next := SkipOne(text, i);
      if unclosed { return Err("unterminated JSONC block comment"); }
      if next == i { return Ok(i); }
      i := next;
    }
    return Ok(i);
  }

  method StringEnd(text: string, start: nat) returns (r: Res<nat>)
    requires start < |text|
    ensures r.Ok? ==> start + 1 < r.value && At(text, StringRest(text[start + 1..], false), r.value)
    ensures r.Err? ==> StringRest(text[start + 1..], false).Err?
  {
    var i := start + 1;
    var escaped := false;
    while i < |text|
      invariant start < i <= |text|
      invariant StringRest(text[start + 1..], false) == StringRest(text[i..], escaped)
    {
      assert text[i..][1..] == text[i + 1..];
      if escaped {
        escaped := false;
      } else if text[i] == '\\' {
        escaped := true;
      } else if text[i] == '"' {
        return Ok(i + 1);
      }
      i := i + 1;
    }
    return Err("unterminated JSON string");
  }

  method ValueEnd(text: string, start0: nat) returns (r: Res<nat>)
    requires start0 <= |text|
    ensures r.Ok? ==> start0 <= r.value && At(text, ValueRest(text[start0..]), r.value)
    ensures r.Err? ==> ValueRest(text[start0..]).Err?
  {
    var skipped := SkipJsoncTrivia(text, start0);
    if skipped.Err? {
      return Err(skipped.message);
    }
    var start := skipped.value;
    if start >= |text| {
      return Err("missing JSON value");
    }
    assert text[start..][1..] == text[start + 1..];
    if text[start] == '"' {
      r := StringEnd(text, start);
      return;
    }
    if text[start] != '[' && text[start] != '{' {
      var i := ScalarEnd(text, start);
      return Ok(i);
    }
    r := BracketEnd(text, start);
  }

  method ScalarEnd(text: string, start: nat) returns (i: nat)
    requires start <= |text|
    ensures start <= i <= |text| && ScalarRest(text[start..]) == text[i..]
  {
    i := start;
    while i < |text| && text[i] != ',' && text[i] != ']' && text[i] != '}'
      invariant start <= i <= |text|
      invariant ScalarRest(text[start..]) == ScalarRest(text[i..])
    {
      assert text[i..][1..] == text[i + 1..];
      if text[i] == '/' && i + 1 < |text| && (text[i + 1] == '/' || text[i + 1] == '*') {
        break;
      }
      i := i + 1;
    }
  }

  /** Jumps over a comment that starts at i. */
  method CommentEnd(text: string, i: nat) returns (r: Res<nat>)
    requires i + 2 <= |text| && (StartsLine(text[i..]) || StartsBlock(text[i..]))
    ensures r.Ok? ==> i < r.value <= |text|
    ensures StartsLine(text[i..]) ==> r.Ok? && AfterNewline(text[i + 2..]) == text[r.value..]
    ensures StartsBlock(text[i..]) ==>
              (r.Ok? ==> AfterClose(text[i + 2..]) == Ok(text[r.value..]))
              && (r.Err? ==> AfterClose(text[i + 2..]).Err?)
  {
    if text[i + 1] == '/' {
      var newline := FindNewline(text, i + 2);
      r := Ok(if newline < 0 then |text| else newline + 1);
      assert text[|text|..] == "";
    } else {
      var close := FindClose(text, i + 2);
      r := if close < 0 then Err("unterminated JSONC block comment") else Ok(close + 2);
    }
  }

  method BracketEnd(text: string, start: nat) returns (r: Res<nat>)
    requires start < |text|
    ensures r.Ok? ==> start <= r.value && At(text, BracketRest(text[start + 1..], [text[start]]), r.value)
    ensures r.Err? ==> BracketRest(text[start + 1..], [text[start]]).Err?
  {
    var stack := [text[start]];
    var i := start + 1;
    while i < |text|
      invariant start < i <= |text| && stack != []
      invariant BracketRest(text[start + 1..], [text[start]]) == BracketRest(text[i..], stack)
      decreases |text| - i
    {
      if text[i] == '"' {
        var end := StringEnd(text, i);
        if end.Err? {
          return end;
        }
        i := end.value;
      } else if i + 1 < |text| && text[i] == '/' && (text[i + 1] == '/' || text[i + 1] == '*') {
        var end := CommentEnd(text, i);
        if end.Err? {
          return end;
        }
        i := end.value;
      } else {
        if text[i] == '[' || text[i] == '{' {
          stack := stack + [text[i]];
        } else if text[i] == ']' || text[i] == '}' {
          var expected := if text[i] == ']' then '[' else '{';
          if stack[|stack| - 1] != expected {
            return Err("mismatched JSON delimiters");
          }
          if |stack| == 1 {
            return Ok(i + 1);
          }
          stack := stack[..|stack| - 1];
        }
        i := i + 1;
      }
    }
    return Err("unterminated JSON value");
  }

  /** The look-ahead loop behind a comma. */
  method CommaLookAhead(text: string, from: nat) returns (ahead: nat)
    requires from <= |text|
    ensures ahead <= |text| && LookAhead(text[from..]) == text[ahead..]
  {
    ahead := from;
    while ahead < |text|
      invariant from <= ahead <= |text|
      invariant LookAhead(text[from..]) == LookAhead(text[ahead..])
      decreases |text| - ahead
    {
      if IsSpace(text[ahead]) {
        ahead := ahead + 1;
      } else if ahead + 1 < |text| && text[ahead] == '/' && (text[ahead + 1] == '/' || text[ahead + 1] == '*') {
        var end := CommentEnd(text, ahead);
        if end.Err? {
          return;
        }
        ahead := end.value;
      } else {
        return;
      }
    }
  }

  /** A comma of the code that only trivia separates from a closing bracket. */
  method CommaIsTrailing(text: string, i: nat) returns (trailing: bool)
    requires i < |text|
    ensures trailing == IsTrailing(text[i + 1..])
  {
    var ahead := CommaLookAhead(text, i + 1);
    trailing := ahead < |text| && (text[ahead] == ']' || text[ahead] == '}');
  }

  /** What has been written so far, and what the specification says of the rest. */
  ghost predicate CommasDone(out: array<char>, text: string, i: nat, rest: string)
    requires i <= |text| == out.Length
    reads out
  {
    && out[i..] == text[i..]
    && WithoutTrailingCommas(text) == out[..i] + rest
  }

  method PutOne(out: array<char>, text: string, i: nat, c: char, ghost rest: string)
    requires i < |text| == out.Length
    requires CommasDone(out, text, i, [c] + rest)
    modifies out
    ensures CommasDone(out, text, i + 1, rest)
  {
    ghost var done := out[..i];
    out[i] := c;
    assert out[..i + 1] == done + [c];
    assert out[i + 1..] == text[i..][1..] == text[i + 1..];
    assert (done + [c]) + rest == done + ([c] + rest);
  }

  method StripTrailingCommas(text: string) returns (r: string)
    ensures r == WithoutTrailingCommas(text)
  {
    var out := new char[|text|](i requires 0 <= i < |text| => text[i]);
    var i := 0;
    var inString, escaped := false, false;
    assert text[0..] == text == out[0..] && out[..0] == "";
    while i < |text|
      invariant i <= |text|
      invariant escaped ==> inString
      invariant CommasDone(out, text, i, StripCommas(text[i..], Moded(inString, escaped)))
    {
      var c := text[i];
      if inString {
        if escaped {
          escaped := false;
        } else if c == '\\' {
          escaped := true;
        } else if c == '"' {
          inString := false;
        }
      } else if c == '"' {
        inString := true;
      } else if c == ',' {
        var trailing := CommaIsTrailing(text, i);
        if trailing {
          c := ' ';
        }
      }
      PutOne(out, text, i, c, StripCommas(text[i + 1..], Moded(inString, escaped)));
      i := i + 1;
    }
    assert text[i..] == "" && out[..] == out[..i];
    return out[..];
  }
}
