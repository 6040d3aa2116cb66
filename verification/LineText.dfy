/** Python's str.splitlines. */
module LineText {
  /** The line separators of Python's str.splitlines. */
  predicate IsLineSep(c: char) {
    '\n' <= c <= '\r' || '\U{1c}' <= c <= '\U{1e}' || c == '\U{85}' || c == '\U{2028}' || c == '\U{2029}'
  }

  function FirstLine(s: string): string {
    if s == "" || IsLineSep(s[0]) then "" else [s[0]] + FirstLine(s[1..])
  }

  function AfterFirstLine(s: string): (r: string)
    ensures |r| <= |s| && (s != "" ==> |r| < |s|)
  {
    if s == "" then ""
    else if !IsLineSep(s[0]) then AfterFirstLine(s[1..])
    else if s[0] == '\r' && |s| > 1 && s[1] == '\n' then s[2..]
    else s[1..]
  }

  /** str.splitlines() */
  function SplitLines(s: string): seq<string>
    decreases |s|
  {
    if s == "" then [] else [FirstLine(s)] + SplitLines(AfterFirstLine(s))
  }

  predicate NoSep(s: string) {
    forall i | 0 <= i < |s| :: !IsLineSep(s[i])
  }

  /** A separator that can not be the first half of a line end, and what stands around it. */
  lemma {:induction false} SeparatorEnds(line: string, sep: char, rest: string)
    requires NoSep(line) && IsLineSep(sep) && sep != '\r'
    ensures FirstLine(line + ([sep] + rest)) == line && AfterFirstLine(line + ([sep] + rest)) == rest
  {
    var s := line + ([sep] + rest);
    if line == "" {
      assert s == [sep] + rest && s[1..] == rest;
    } else {
      assert s[1..] == line[1..] + ([sep] + rest);
      SeparatorEnds(line[1..], sep, rest);
    }
  }

  lemma FirstLineOf(line: string, rest: string)
    requires NoSep(line)
    ensures FirstLine(line + ("\n" + rest)) == line && AfterFirstLine(line + ("\n" + rest)) == rest
  {
    SeparatorEnds(line, '\n', rest);
  }

  lemma {:induction false} AllOneLine(s: string)
    requires NoSep(s)
    ensures FirstLine(s) == s && AfterFirstLine(s) == ""
  {
    if s != "" { AllOneLine(s[1..]); }
  }
}
