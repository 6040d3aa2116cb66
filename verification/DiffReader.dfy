/** Reading the added lines out of a zero-context unified diff, against the diffs that git prints. */
module DiffReader {
  import opened LineText

  /** One piece of text to scan: where it stands, its line number, what it says. */
  datatype Piece = Piece(where_: string, line: nat, text: string)

  // ---- numbers ----------------------------------------------------------------------------

  predicate IsDigit(c: char) {
    '0' <= c <= '9'
  }

  function Digits(n: nat): (s: string)
    ensures s != "" && forall i | 0 <= i < |s| :: IsDigit(s[i])
  {
    if n < 10 then [('0' as int + n) as char] else Digits(n / 10) + [('0' as int + n % 10) as char]
  }

  function Value(s: string): nat {
    if s == "" then 0
    else Value(s[..|s| - 1]) * 10 + (if IsDigit(s[|s| - 1]) then s[|s| - 1] as int - '0' as int else 0)
  }

  lemma {:induction false} ValueOfDigits(n: nat)
    ensures Value(Digits(n)) == n
  {
    var s := Digits(n);
    if n >= 10 {
      ValueOfDigits(n / 10);
      assert s[..|s| - 1] == Digits(n / 10);
    } else {
      assert s[..0] == "" && Value("") == 0;
    }
  }

  function LeadDigits(s: string): string {
    if s != "" && IsDigit(s[0]) then [s[0]] + LeadDigits(s[1..]) else ""
  }

  lemma {:induction false} LeadDigitsOf(d: string, rest: string)
    requires (forall i | 0 <= i < |d| :: IsDigit(d[i])) && (rest == "" || !IsDigit(rest[0]))
    ensures LeadDigits(d + rest) == d
  {
    if d == "" {
      assert d + rest == rest;
    } else {
      assert (d + rest)[1..] == d[1..] + rest;
      LeadDigitsOf(d[1..], rest);
    }
  }

  /** The digits behind the first plus sign that has any. */
  function PlusNumber(s: string): nat {
    if s == "" then 0
    else if s[0] == '+' && |s| > 1 && IsDigit(s[1]) then Value(LeadDigits(s[1..]))
    else PlusNumber(s[1..])
  }

  lemma {:induction false} PlusNumberOf(front: string, n: nat, rest: string)
    requires '+' !in front && (rest == "" || !IsDigit(rest[0]))
    ensures PlusNumber(front + ("+" + (Digits(n) + rest))) == n
  {
    var tail := "+" + (Digits(n) + rest);
    if front == "" {
      assert front + tail == tail && tail[1..] == Digits(n) + rest;
      LeadDigitsOf(Digits(n), rest);
      ValueOfDigits(n);
    } else {
      assert (front + tail)[1..] == front[1..] + tail;
      assert front[0] in front;
      assert forall c | c in front[1..] :: c in front;
      PlusNumberOf(front[1..], n, rest);
    }
  }

  // ---- the reader -------------------------------------------------------------------------

  predicate Starts(s: string, prefix: string) {
    |s| >= |prefix| && s[..|prefix|] == prefix
  }

  function BeforeTab(s: string): string {
    if s == "" || s[0] == '\t' then "" else [s[0]] + BeforeTab(s[1..])
  }

  function WithoutB(s: string): string {
    if Starts(s, "b/") then s[2..] else s
  }

  /** The file a header names. */
  function HeaderFile(raw: string): string
    requires Starts(raw, "+++ ")
  {
    WithoutB(BeforeTab(raw[4..]))
  }

  const DEV_NULL := "/dev/null"

  datatype Place = Place(file: string, line: nat, inHunk: bool)

  const START := Place("?", 0, false)

  /** What one raw line does: the new place, and the text it adds. */
  function Turn(prefix: string, at: Place, raw: string): (Place, seq<Piece>) {
    var inHunk := at.inHunk && !Starts(raw, "diff ");
    if Starts(raw, "+++ ") && !inHunk then
      var file := HeaderFile(raw);
      (Place(file, at.line, false), if file != DEV_NULL then [Piece(prefix + file + " (filename)", 0, file)] else [])
    else if Starts(raw, "@@") then (Place(at.file, PlusNumber(raw), true), [])
    else if Starts(raw, "+") then (Place(at.file, at.line + 1, inHunk), [Piece(prefix + at.file, at.line, raw[1..])])
    else (at.(inHunk := inHunk), [])
  }

  function Read(prefix: string, at: Place, raws: seq<string>): seq<Piece>
    decreases |raws|
  {
    if raws == [] then []
    else var (next, pieces) := Turn(prefix, at, raws[0]); pieces + Read(prefix, next, raws[1..])
  }

  function Reached(prefix: string, at: Place, raws: seq<string>): Place
    decreases |raws|
  {
    if raws == [] then at else Reached(prefix, Turn(prefix, at, raws[0]).0, raws[1..])
  }

  method ReadLine(prefix: string, file: string, ln: nat, inHunk: bool, raw: string)
    returns (file': string, ln': nat, inHunk': bool, more: seq<Piece>)
    ensures (Place(file', ln', inHunk'), more) == Turn(prefix, Place(file, ln, inHunk), raw)
  {
    file', ln', inHunk', more := file, ln, inHunk, [];
    if Starts(raw, "diff ") { inHunk' := false; }
    if Starts(raw, "+++ ") && !inHunk' {
      file' := HeaderFile(raw);
      if file' != DEV_NULL { more := [Piece(prefix + file' + " (filename)", 0, file')]; }
    } else if Starts(raw, "@@") {
      inHunk' := true;
      ln' := PlusNumber(raw);
    } else if Starts(raw, "+") {
      more := [Piece(prefix + file, ln, raw[1..])];
      ln' := ln + 1;
    }
  }

  method ParseAddedLines(diff: string, prefix: string) returns (pieces: seq<Piece>)
    ensures pieces == Read(prefix, START, SplitLines(diff))
  {
    pieces := [];
    var file, ln, inHunk := "?", 0, false;
    var raws := SplitLines(diff);
    var i := 0;
    assert raws[0..] == raws && [] + Read(prefix, START, raws) == Read(prefix, START, raws);
    while i < |raws|
      invariant i <= |raws|
      invariant pieces + Read(prefix, Place(file, ln, inHunk), raws[i..]) == Read(prefix, START, raws)
    {
      var more;
      file, ln, inHunk, more := ReadLine(prefix, file, ln, inHunk, raws[i]);
      pieces := pieces + more;
      i := i + 1;
    }
    assert pieces + [] == pieces;
  }

  // ---- the diffs git prints ------------------------------------------------------------------

  /** A hunk without context. `old` is the range on the old side; `tail` is what follows the start on the
      new side; a note says that a side does not end in a newline. */
  datatype Hunk = Hunk(old_: string, start: nat, tail: string, removed: seq<string>, removedNote: seq<string>,
                       added: seq<string>, addedNote: seq<string>)

  /** A file: its header lines (the first begins with "diff "), the name on the new side, and its hunks. A
      file without hunks (a rename, a new mode, an empty file) has no line that names its new side. */
  datatype File = File(first: string, headers: seq<string>, name: string, exists_: bool, tab: bool, hunks: seq<Hunk>)

  function Prefixed(p: string, lines: seq<string>): seq<string> {
    if lines == [] then [] else [p + lines[0]] + Prefixed(p, lines[1..])
  }

  function HunkHead(h: Hunk): string {
    "@@ -" + h.old_ + " " + ("+" + (Digits(h.start) + h.tail))
  }

  function HunkLines(h: Hunk): seq<string> {
    [HunkHead(h)] + (Prefixed("-", h.removed) + (h.removedNote + (Prefixed("+", h.added) + h.addedNote)))
  }

  function HunksLines(hs: seq<Hunk>): seq<string> {
    if hs == [] then [] else HunkLines(hs[0]) + HunksLines(hs[1..])
  }

  // A name with any other character than these git prints in quotes, with escapes.

  predicate PlainChar(c: char) {
    ' ' <= c <= '~' && c != '"' && c != '\\'
  }

  predicate Bare(name: string) {
    forall i | 0 <= i < |name| :: PlainChar(name[i])
  }

  /** The UTF-8 bytes of a character. */
  function Utf8(c: char): (bytes: seq<nat>)
    ensures bytes != [] && forall i | 0 <= i < |bytes| :: bytes[i] < 256
  {
    var n := c as int;
    if n < 0x80 then [n]
    else if n < 0x800 then [0xC0 + n / 64, 0x80 + n % 64]
    else if n < 0x10000 then [0xE0 + n / 4096, 0x80 + n / 64 % 64, 0x80 + n % 64]
    else [0xF0 + n / 262144, 0x80 + n / 4096 % 64, 0x80 + n / 64 % 64, 0x80 + n % 64]
  }

  function OctalDigit(n: nat): (c: char)
    requires n < 8
    ensures IsDigit(c)
  {
    ('0' as int + n) as char
  }

  function Octals(bytes: seq<nat>): (s: string)
    requires forall i | 0 <= i < |bytes| :: bytes[i] < 256
    ensures |s| == 4 * |bytes| && forall i | 0 <= i < |s| :: s[i] == '\\' || IsDigit(s[i])
  {
    if bytes == [] then ""
    else ['\\', OctalDigit(bytes[0] / 64), OctalDigit(bytes[0] / 8 % 8), OctalDigit(bytes[0] % 8)] + Octals(bytes[1..])
  }

  /** One character between the quotes. */
  function Escaped(c: char): (s: string)
    ensures s != "" && forall i | 0 <= i < |s| :: !IsLineSep(s[i]) && s[i] != '\t'
  {
    if PlainChar(c) then [c]
    else if c == '"' then "\\\"" else if c == '\\' then "\\\\" else if c == '\U{7}' then "\\a"
    else if c == '\U{8}' then "\\b" else if c == '\t' then "\\t" else if c == '\n' then "\\n"
    else if c == '\U{b}' then "\\v" else if c == '\U{c}' then "\\f" else if c == '\r' then "\\r"
    else Octals(Utf8(c))
  }

  function AllEscaped(name: string): (s: string)
    ensures |s| >= |name| && forall i | 0 <= i < |s| :: !IsLineSep(s[i]) && s[i] != '\t'
  {
    if name == "" then "" else Escaped(name[0]) + AllEscaped(name[1..])
  }

  function Quoted(name: string): string {
    "\"" + AllEscaped("b/" + name) + "\""
  }

  function Shown(name: string): string {
    if Bare(name) then "b/" + name else Quoted(name)
  }

  function TargetLine(f: File): string {
    "+++ " + (if f.exists_ then Shown(f.name) + (if f.tab then "\t" else "") else DEV_NULL)
  }

  function FileLines(f: File): seq<string> {
    [f.first] + (f.headers + (if f.hunks == [] then [] else [TargetLine(f)] + HunksLines(f.hunks)))
  }

  function DiffLines(d: seq<File>): seq<string> {
    if d == [] then [] else FileLines(d[0]) + DiffLines(d[1..])
  }

  /** git ends every line of a diff with a newline. */
  function Printed(lines: seq<string>): string {
    if lines == [] then "" else lines[0] + ("\n" + Printed(lines[1..]))
  }

  // ---- what should be read ---------------------------------------------------------------------

  function AddedPieces(prefix: string, file: string, start: nat, added: seq<string>): seq<Piece>
    decreases |added|
  {
    if added == [] then []
    else [Piece(prefix + file, start, added[0])] + AddedPieces(prefix, file, start + 1, added[1..])
  }

  function HunksPieces(prefix: string, file: string, hs: seq<Hunk>): seq<Piece> {
    if hs == [] then []
    else AddedPieces(prefix, file, hs[0].start, hs[0].added) + HunksPieces(prefix, file, hs[1..])
  }

  function FileName(f: File): string {
    if f.exists_ then f.name else DEV_NULL
  }

  function NamedPiece(prefix: string, f: File, name: string): seq<Piece> {
    if f.exists_ then [Piece(prefix + name + " (filename)", 0, name)] else []
  }

  function NamePiece(prefix: string, f: File): seq<Piece> {
    NamedPiece(prefix, f, f.name)
  }

  function FilePieces(prefix: string, f: File): seq<Piece> {
    if f.hunks == [] then [] else NamePiece(prefix, f) + HunksPieces(prefix, FileName(f), f.hunks)
  }

  /** The name the reader sees: the quoted form is one to it. */
  function ReadName(f: File): string {
    if !f.exists_ then DEV_NULL else if Bare(f.name) then f.name else Quoted(f.name)
  }

  predicate NameBare(f: File) {
    f.hunks == [] || !f.exists_ || Bare(f.name)
  }

  /** git quotes no name of a file that still exists and has a hunk. */
  predicate NamesBare(d: seq<File>) {
    forall i | 0 <= i < |d| :: NameBare(d[i])
  }

  lemma NameIsRead(f: File)
    ensures ReadName(f) == FileName(f) <==> !f.exists_ || Bare(f.name)
  {
    if f.exists_ && !Bare(f.name) { assert |Quoted(f.name)| > |f.name|; }
  }

  /** What a file gives under the name the reader sees. */
  function ShownPieces(prefix: string, f: File): seq<Piece> {
    if f.hunks == [] then [] else NamedPiece(prefix, f, ReadName(f)) + HunksPieces(prefix, ReadName(f), f.hunks)
  }

  function AllShown(prefix: string, d: seq<File>): seq<Piece> {
    if d == [] then [] else ShownPieces(prefix, d[0]) + AllShown(prefix, d[1..])
  }

  function Expected(prefix: string, d: seq<File>): seq<Piece> {
    if d == [] then [] else FilePieces(prefix, d[0]) + Expected(prefix, d[1..])
  }

  // ---- well-formed diffs -------------------------------------------------------------------------

  /** A line that the reader passes over. */
  predicate Quiet(raw: string) {
    NoSep(raw) && (raw != "" ==> raw[0] != '+' && raw[0] != '@')
  }

  predicate QuietInside(raw: string) {
    NoSep(raw) && raw != "" && raw[0] == '\\'
  }

  /** Removed lines, added lines and the heading may hold anything. */
  predicate HunkOk(h: Hunk) {
    && NoSep(h.old_) && '+' !in h.old_ && (h.tail == "" || !IsDigit(h.tail[0]))
    && (forall i | 0 <= i < |h.removedNote| :: QuietInside(h.removedNote[i]))
    && (forall i | 0 <= i < |h.addedNote| :: QuietInside(h.addedNote[i]))
  }

  predicate FileOk(f: File) {
    && NoSep(f.first) && Starts(f.first, "diff ")
    && (forall i | 0 <= i < |f.headers| :: Quiet(f.headers[i]))
    && f.name != DEV_NULL
    && (!f.exists_ ==> forall i | 0 <= i < |f.hunks| :: f.hunks[i].added == [])
    && forall i | 0 <= i < |f.hunks| :: HunkOk(f.hunks[i])
  }

  predicate DiffOk(d: seq<File>) {
    forall i | 0 <= i < |d| :: FileOk(d[i])
  }

  /** No added line holds a character that Python takes for the end of a line. */
  predicate HunkOnLines(h: Hunk) {
    forall k | 0 <= k < |h.added| :: NoSep(h.added[k])
  }

  predicate FileOnLines(f: File) {
    forall j | 0 <= j < |f.hunks| :: HunkOnLines(f.hunks[j])
  }

  predicate AddedOnOneLine(d: seq<File>) {
    forall i | 0 <= i < |d| :: FileOnLines(d[i])
  }

  predicate AllNoSep(lines: seq<string>) {
    forall i | 0 <= i < |lines| :: NoSep(lines[i])
  }

  // ---- reading line by line -------------------------------------------------------------------------

  lemma {:induction false} ReadAppend(prefix: string, at: Place, a: seq<string>, b: seq<string>)
    ensures Read(prefix, at, a + b) == Read(prefix, at, a) + Read(prefix, Reached(prefix, at, a), b)
    ensures Reached(prefix, at, a + b) == Reached(prefix, Reached(prefix, at, a), b)
    decreases |a|
  {
    if a == [] {
      assert a + b == b && [] + Read(prefix, at, b) == Read(prefix, at, b);
    } else {
      var (next, pieces) := Turn(prefix, at, a[0]);
      assert (a + b)[1..] == a[1..] + b;
      ReadAppend(prefix, next, a[1..], b);
    }
  }

  lemma ReadOne(prefix: string, at: Place, raw: string, rest: seq<string>)
    ensures var (next, pieces) := Turn(prefix, at, raw);
            && Read(prefix, at, [raw] + rest) == pieces + Read(prefix, next, rest)
            && Reached(prefix, at, [raw] + rest) == Reached(prefix, next, rest)
  {
  }

  /** Lines the reader passes over at this place. */
  predicate Silent(at: Place, raw: string) {
    raw == "" || (raw[0] != '+' && raw[0] != '@' && (at.inHunk ==> raw[0] != 'd'))
  }

  lemma NotStart(s: string, prefix: string)
    requires prefix != "" && (s == "" || s[0] != prefix[0])
    ensures !Starts(s, prefix)
  {
  }

  lemma {:induction false} SilentRun(prefix: string, at: Place, lines: seq<string>)
    requires forall i | 0 <= i < |lines| :: Silent(at, lines[i])
    ensures Read(prefix, at, lines) == [] && Reached(prefix, at, lines) == at
    decreases |lines|
  {
    if lines != [] {
      SilentRun(prefix, at, lines[1..]);
    }
  }

  /** An added line of this text looks like a header outside of hunks. */
  predicate HeaderLike(text: string) {
    Starts(text, "++ ")
  }

  predicate NoHeaders(added: seq<string>) {
    forall i | 0 <= i < |added| :: !HeaderLike(added[i])
  }

  lemma AddedTurn(prefix: string, at: Place, text: string)
    requires at.inHunk || !HeaderLike(text)
    ensures Turn(prefix, at, "+" + text) == (at.(line := at.line + 1), [Piece(prefix + at.file, at.line, text)])
  {
    var raw := "+" + text;
    assert raw[..1] == "+" && raw[1..] == text;
    NotStart(raw, "diff ");
    NotStart(raw, "@@");
    if Starts(raw, "+++ ") { assert text[..3] == raw[..4][1..] == "++ "; }
  }

  lemma {:induction false} AddedRun(prefix: string, at: Place, added: seq<string>)
    requires at.inHunk || NoHeaders(added)
    ensures Read(prefix, at, Prefixed("+", added)) == AddedPieces(prefix, at.file, at.line, added)
    ensures Reached(prefix, at, Prefixed("+", added)) == at.(line := at.line + |added|)
    decreases |added|
  {
    if added != [] {
      AddedTurn(prefix, at, added[0]);
      ReadOne(prefix, at, "+" + added[0], Prefixed("+", added[1..]));
      AddedRun(prefix, at.(line := at.line + 1), added[1..]);
    }
  }

  lemma {:induction false} PrefixedSilent(at: Place, lines: seq<string>)
    ensures |Prefixed("-", lines)| == |lines|
    ensures forall i | 0 <= i < |lines| ::
              Silent(at, Prefixed("-", lines)[i]) && Prefixed("-", lines)[i] == "-" + lines[i]
  {
    if lines != [] { PrefixedSilent(at, lines[1..]); }
  }

  lemma HeadTurn(prefix: string, at: Place, h: Hunk)
    requires HunkOk(h)
    ensures Turn(prefix, at, HunkHead(h)) == (Place(at.file, h.start, true), [])
  {
    var raw := HunkHead(h);
    var front := "@@ -" + h.old_ + " ";
    PlusNumberOf(front, h.start, h.tail);
    assert raw[0] == '@' && raw[..2] == "@@";
    NotStart(raw, "+++ ");
  }

  /** Silent lines in front of others change nothing. */
  lemma SilentFront(prefix: string, at: Place, lines: seq<string>, rest: seq<string>)
    requires forall i | 0 <= i < |lines| :: Silent(at, lines[i])
    ensures Read(prefix, at, lines + rest) == Read(prefix, at, rest)
    ensures Reached(prefix, at, lines + rest) == Reached(prefix, at, rest)
  {
    SilentRun(prefix, at, lines);
    ReadAppend(prefix, at, lines, rest);
    Empties(Read(prefix, at, rest));
  }

  lemma Empties(p: seq<Piece>)
    ensures p + [] == p && [] + p == p
  {
  }

  lemma AddedAndNote(prefix: string, at: Place, added: seq<string>, note: seq<string>)
    requires (at.inHunk || NoHeaders(added)) && forall i | 0 <= i < |note| :: QuietInside(note[i])
    ensures Read(prefix, at, Prefixed("+", added) + note) == AddedPieces(prefix, at.file, at.line, added)
    ensures Reached(prefix, at, Prefixed("+", added) + note).file == at.file
  {
    AddedRun(prefix, at, added);
    ReadAppend(prefix, at, Prefixed("+", added), note);
    SilentRun(prefix, at.(line := at.line + |added|), note);
    Empties(AddedPieces(prefix, at.file, at.line, added));
  }

  /** A hunk gives its added lines, numbered from its start. */
  lemma HunkRun(prefix: string, at: Place, h: Hunk)
    requires HunkOk(h)
    ensures Read(prefix, at, HunkLines(h)) == AddedPieces(prefix, at.file, h.start, h.added)
    ensures Reached(prefix, at, HunkLines(h)).file == at.file
  {
    var inside := Place(at.file, h.start, true);
    var minus, last := Prefixed("-", h.removed), Prefixed("+", h.added) + h.addedNote;
    HeadTurn(prefix, at, h);
    ReadOne(prefix, at, HunkHead(h), minus + (h.removedNote + last));
    PrefixedSilent(inside, h.removed);
    SilentFront(prefix, inside, minus, h.removedNote + last);
    SilentFront(prefix, inside, h.removedNote, last);
    AddedAndNote(prefix, inside, h.added, h.addedNote);
    Empties(Read(prefix, inside, last));
  }

  lemma {:induction false} HunksRun(prefix: string, at: Place, hs: seq<Hunk>)
    requires forall i | 0 <= i < |hs| :: HunkOk(hs[i])
    ensures Read(prefix, at, HunksLines(hs)) == HunksPieces(prefix, at.file, hs)
    decreases |hs|
  {
    if hs != [] {
      HunkRun(prefix, at, hs[0]);
      ReadAppend(prefix, at, HunkLines(hs[0]), HunksLines(hs[1..]));
      HunksRun(prefix, Reached(prefix, at, HunkLines(hs[0])), hs[1..]);
    }
  }

  lemma {:induction false} NoTab(s: string, rest: string)
    requires '\t' !in s && (rest == "" || rest[0] == '\t')
    ensures BeforeTab(s + rest) == s
  {
    if s == "" {
      assert s + rest == rest;
    } else {
      assert (s + rest)[1..] == s[1..] + rest && s[0] in s;
      assert forall c | c in s[1..] :: c in s;
      NoTab(s[1..], rest);
    }
  }

  /** A name without quotes is read behind its side's prefix, one in quotes as it stands. */
  lemma TargetFile(f: File)
    requires FileOk(f)
    ensures Starts(TargetLine(f), "+++ ") && HeaderFile(TargetLine(f)) == ReadName(f)
    ensures f.exists_ ==> ReadName(f) != DEV_NULL
  {
    var raw := TargetLine(f);
    assert raw[..4] == "+++ ";
    if f.exists_ {
      var tab := if f.tab then "\t" else "";
      assert raw[4..] == Shown(f.name) + tab;
      ShownHasNoTab(f.name);
      NoTab(Shown(f.name), tab);
      if Bare(f.name) {
        assert ("b/" + f.name)[..2] == "b/" && ("b/" + f.name)[2..] == f.name;
      } else {
        assert Quoted(f.name)[0] == '"';
        NotStart(Quoted(f.name), "b/");
        assert DEV_NULL[0] == '/';
      }
    } else {
      assert raw[4..] == DEV_NULL && DEV_NULL + "" == DEV_NULL;
      NoTab(DEV_NULL, "");
      NotStart(DEV_NULL, "b/");
    }
  }

  lemma ShownHasNoTab(name: string)
    ensures '\t' !in Shown(name) && NoSep(Shown(name))
  {
    if Bare(name) {
      assert PlainChar('b') && PlainChar('/');
      assert forall i | 0 <= i < |name| :: PlainChar(name[i]);
    }
  }

  lemma TargetTurn(prefix: string, at: Place, f: File)
    requires FileOk(f) && !at.inHunk
    ensures Turn(prefix, at, TargetLine(f))
         == (Place(ReadName(f), at.line, false), NamedPiece(prefix, f, ReadName(f)))
  {
    TargetFile(f);
    NotStart(TargetLine(f), "diff ");
  }

  lemma FirstTurn(prefix: string, at: Place, f: File)
    requires FileOk(f)
    ensures Turn(prefix, at, f.first) == (at.(inHunk := false), [])
  {
    DiffTurn(prefix, at, f.first);
  }

  lemma FileRun(prefix: string, at: Place, f: File)
    requires FileOk(f)
    ensures Read(prefix, at, FileLines(f)) == ShownPieces(prefix, f)
  {
    var closed := at.(inHunk := false);
    var body := if f.hunks == [] then [] else [TargetLine(f)] + HunksLines(f.hunks);
    FirstTurn(prefix, at, f);
    ReadOne(prefix, at, f.first, f.headers + body);
    SilentRun(prefix, closed, f.headers);
    ReadAppend(prefix, closed, f.headers, body);
    Empties(Read(prefix, closed, body));
    if f.hunks != [] {
      TargetTurn(prefix, closed, f);
      ReadOne(prefix, closed, TargetLine(f), HunksLines(f.hunks));
      HunksRun(prefix, Place(ReadName(f), at.line, false), f.hunks);
    }
  }

  lemma {:induction false} FilesRun(prefix: string, at: Place, d: seq<File>)
    requires DiffOk(d)
    ensures Read(prefix, at, DiffLines(d)) == AllShown(prefix, d)
    decreases |d|
  {
    if d != [] {
      FileRun(prefix, at, d[0]);
      ReadAppend(prefix, at, FileLines(d[0]), DiffLines(d[1..]));
      FilesRun(prefix, Reached(prefix, at, FileLines(d[0])), d[1..]);
    }
  }

  lemma {:induction false} PiecesAlike(prefix: string, name: string, name': string, hs: seq<Hunk>)
    ensures |HunksPieces(prefix, name, hs)| == |HunksPieces(prefix, name', hs)|
    decreases |hs|
  {
    if hs != [] {
      AddedCount(prefix, name, hs[0].start, hs[0].added);
      AddedCount(prefix, name', hs[0].start, hs[0].added);
      PiecesAlike(prefix, name, name', hs[1..]);
    }
  }

  lemma {:induction false} AddedCount(prefix: string, file: string, start: nat, added: seq<string>)
    ensures |AddedPieces(prefix, file, start, added)| == |added|
    decreases |added|
  {
    if added != [] { AddedCount(prefix, file, start + 1, added[1..]); }
  }

  lemma ShownIsExpected(prefix: string, f: File)
    ensures |ShownPieces(prefix, f)| == |FilePieces(prefix, f)|
    ensures ShownPieces(prefix, f) == FilePieces(prefix, f) <==> NameBare(f)
  {
    PiecesAlike(prefix, ReadName(f), FileName(f), f.hunks);
    NameIsRead(f);
    if f.hunks != [] && f.exists_ && !Bare(f.name) {
      assert ShownPieces(prefix, f)[0].text == ReadName(f) && FilePieces(prefix, f)[0].text == f.name;
    }
  }

  lemma SameHalves(a: seq<Piece>, b: seq<Piece>, a': seq<Piece>, b': seq<Piece>)
    requires |a| == |a'|
    ensures a + b == a' + b' <==> a == a' && b == b'
  {
    if a + b == a' + b' {
      assert a == (a + b)[..|a|] && a' == (a' + b')[..|a'|];
      assert b == (a + b)[|a|..] && b' == (a' + b')[|a'|..];
    }
  }

  /** Line by line, a diff gives exactly its added lines and its names, if and only if git quotes no name. */
  lemma {:induction false} DiffRun(prefix: string, at: Place, d: seq<File>)
    requires DiffOk(d)
    ensures Read(prefix, at, DiffLines(d)) == Expected(prefix, d) <==> NamesBare(d)
  {
    FilesRun(prefix, at, d);
    AllShownIsExpected(prefix, d);
  }

  lemma {:induction false} AllShownIsExpected(prefix: string, d: seq<File>)
    ensures AllShown(prefix, d) == Expected(prefix, d) <==> NamesBare(d)
    decreases |d|
  {
    if d != [] {
      ShownIsExpected(prefix, d[0]);
      AllShownIsExpected(prefix, d[1..]);
      SameHalves(ShownPieces(prefix, d[0]), AllShown(prefix, d[1..]),
                 FilePieces(prefix, d[0]), Expected(prefix, d[1..]));
      assert NamesBare(d) <==> NameBare(d[0]) && NamesBare(d[1..]) by {
        if NamesBare(d) { assert forall i | 0 <= i < |d| - 1 :: d[1..][i] == d[i + 1]; }
        if NameBare(d[0]) && NamesBare(d[1..]) { assert forall i | 0 < i < |d| :: d[i] == d[1..][i - 1]; }
      }
    }
  }

  // ---- from the text to its lines -----------------------------------------------------------------

  /** The lines Python makes of one printed line. */
  function Cuts(line: string): seq<string> {
    SplitLines(line + "\n")
  }

  function AllCuts(lines: seq<string>): seq<string> {
    if lines == [] then [] else Cuts(lines[0]) + AllCuts(lines[1..])
  }

  /** The lines Python makes of what stands behind the first separator. */
  function Behind(line: string): seq<string> {
    SplitLines(AfterFirstLine(line + "\n"))
  }

  function BehindAll(lines: seq<string>): seq<string> {
    if lines == [] then [] else Behind(lines[0]) + BehindAll(lines[1..])
  }

  /** A hunk's lines that git did not print as lines, in front of its added lines. */
  function Fragments(h: Hunk): seq<string> {
    Behind(h.tail) + BehindAll(h.removed)
  }

  lemma {:induction false} FirstAppend(s: string, rest: string)
    requires s != "" && s[|s| - 1] == '\n'
    ensures FirstLine(s + rest) == FirstLine(s) && AfterFirstLine(s + rest) == AfterFirstLine(s) + rest
    ensures var t := AfterFirstLine(s); t == "" || t[|t| - 1] == '\n'
  {
    assert (s + rest)[1..] == s[1..] + rest;
    if !IsLineSep(s[0]) {
      FirstAppend(s[1..], rest);
    } else if s[0] == '\r' {
      assert (s + rest)[2..] == s[2..] + rest;
    }
  }

  lemma {:induction false} SplitAppend(s: string, rest: string)
    requires s == "" || s[|s| - 1] == '\n'
    ensures SplitLines(s + rest) == SplitLines(s) + SplitLines(rest)
    decreases |s|
  {
    if s == "" {
      assert s + rest == rest && [] + SplitLines(rest) == SplitLines(rest);
    } else {
      FirstAppend(s, rest);
      SplitAppend(AfterFirstLine(s), rest);
      JoinStrings([FirstLine(s)], SplitLines(AfterFirstLine(s)), SplitLines(rest));
    }
  }

  lemma {:induction false} SplitsPrinted(lines: seq<string>)
    ensures SplitLines(Printed(lines)) == AllCuts(lines)
    decreases |lines|
  {
    if lines != [] {
      var line, rest := lines[0] + "\n", Printed(lines[1..]);
      assert lines[0] + ("\n" + rest) == line + rest;
      SplitAppend(line, rest);
      SplitsPrinted(lines[1..]);
    }
  }

  lemma JoinStrings(a: seq<string>, b: seq<string>, c: seq<string>)
    ensures a + (b + c) == (a + b) + c
  {
  }

  lemma {:induction false} AllCutsAppend(a: seq<string>, b: seq<string>)
    ensures AllCuts(a + b) == AllCuts(a) + AllCuts(b)
    decreases |a|
  {
    if a == [] {
      assert a + b == b && [] + AllCuts(b) == AllCuts(b);
    } else {
      assert (a + b)[1..] == a[1..] + b;
      AllCutsAppend(a[1..], b);
      JoinStrings(Cuts(a[0]), AllCuts(a[1..]), AllCuts(b));
    }
  }

  lemma {:induction false} CleanCuts(lines: seq<string>)
    requires AllNoSep(lines)
    ensures AllCuts(lines) == lines
    decreases |lines|
  {
    if lines != [] {
      FirstLineOf(lines[0], "");
      assert lines[0] + ("\n" + "") == lines[0] + "\n";
      assert SplitLines("") == [];
      CleanCuts(lines[1..]);
    }
  }

  /** A printed line begins with its first piece; the others were not printed as lines. */
  lemma {:induction false} CutFront(front: string, line: string)
    requires NoSep(front)
    ensures Cuts(front + line) == [front + FirstLine(line + "\n")] + Behind(line)
    decreases |front|
  {
    var s := (front + line) + "\n";
    if front == "" {
      assert front + line == line && line + "\n" != "";
      assert "" + FirstLine(line + "\n") == FirstLine(line + "\n");
    } else {
      CutFront(front[1..], line);
      var t := (front[1..] + line) + "\n";
      assert s[1..] == t && s[0] == front[0] && t != "";
      assert SplitLines(t) == [FirstLine(t)] + SplitLines(AfterFirstLine(t));
      assert [FirstLine(t)] + SplitLines(AfterFirstLine(t)) == [front[1..] + FirstLine(line + "\n")] + Behind(line);
      assert FirstLine(t) == ([FirstLine(t)] + SplitLines(AfterFirstLine(t)))[0] == front[1..] + FirstLine(line + "\n");
      assert SplitLines(AfterFirstLine(t)) == SplitLines(t)[1..] == Behind(line);
      assert [front[0]] + (front[1..] + FirstLine(line + "\n")) == front + FirstLine(line + "\n");
    }
  }

  // ---- every line Python makes is in one piece ----------------------------------------------------

  lemma {:induction false} FirstLineClean(s: string)
    ensures NoSep(FirstLine(s)) && |FirstLine(s)| <= |s| && FirstLine(s) == s[..|FirstLine(s)|]
  {
    if s != "" && !IsLineSep(s[0]) { FirstLineClean(s[1..]); }
  }

  lemma {:induction false} SplitClean(s: string)
    ensures AllNoSep(SplitLines(s))
    decreases |s|
  {
    if s != "" {
      FirstLineClean(s);
      SplitClean(AfterFirstLine(s));
    }
  }

  predicate TextsClean(pieces: seq<Piece>) {
    forall i | 0 <= i < |pieces| :: NoSep(pieces[i].text)
  }

  lemma {:induction false} BeforeTabClean(s: string)
    requires NoSep(s)
    ensures NoSep(BeforeTab(s))
  {
    if s != "" { BeforeTabClean(s[1..]); }
  }

  lemma {:induction false} ReadClean(prefix: string, at: Place, raws: seq<string>)
    requires AllNoSep(raws)
    ensures TextsClean(Read(prefix, at, raws))
    decreases |raws|
  {
    if raws != [] {
      assert NoSep(raws[0]);
      if Starts(raws[0], "+++ ") { BeforeTabClean(raws[0][4..]); }
      assert TextsClean(Turn(prefix, at, raws[0]).1);
      ReadClean(prefix, Turn(prefix, at, raws[0]).0, raws[1..]);
    }
  }

  lemma {:induction false} AddedClean(prefix: string, file: string, start: nat, added: seq<string>)
    ensures |AddedPieces(prefix, file, start, added)| == |added|
    ensures TextsClean(AddedPieces(prefix, file, start, added)) ==> AllNoSep(added)
    decreases |added|
  {
    if added != [] {
      var pieces := AddedPieces(prefix, file, start, added);
      AddedClean(prefix, file, start + 1, added[1..]);
      if TextsClean(pieces) {
        CleanParts([pieces[0]], pieces[1..]);
        assert [pieces[0]][0].text == added[0];
        assert forall i | 0 < i < |added| :: added[i] == added[1..][i - 1];
      }
    }
  }

  lemma CleanParts(a: seq<Piece>, b: seq<Piece>)
    requires TextsClean(a + b)
    ensures TextsClean(a) && TextsClean(b)
  {
    assert forall i | 0 <= i < |a| :: a[i] == (a + b)[i];
    assert forall i | 0 <= i < |b| :: b[i] == (a + b)[|a| + i];
  }

  lemma {:induction false} HunksClean(prefix: string, file: string, hs: seq<Hunk>)
    requires TextsClean(HunksPieces(prefix, file, hs))
    ensures forall i | 0 <= i < |hs| :: HunkOnLines(hs[i])
    decreases |hs|
  {
    if hs != [] {
      CleanParts(AddedPieces(prefix, file, hs[0].start, hs[0].added), HunksPieces(prefix, file, hs[1..]));
      AddedClean(prefix, file, hs[0].start, hs[0].added);
      HunksClean(prefix, file, hs[1..]);
      assert forall i | 0 < i < |hs| :: hs[i] == hs[1..][i - 1];
    }
  }

  /** What should be read is in one piece only if the added lines are. */
  lemma {:induction false} ExpectedClean(prefix: string, d: seq<File>)
    requires TextsClean(Expected(prefix, d))
    ensures AddedOnOneLine(d)
    decreases |d|
  {
    if d != [] {
      CleanParts(FilePieces(prefix, d[0]), Expected(prefix, d[1..]));
      if d[0].hunks != [] {
        CleanParts(NamePiece(prefix, d[0]), HunksPieces(prefix, FileName(d[0]), d[0].hunks));
        HunksClean(prefix, FileName(d[0]), d[0].hunks);
      }
      ExpectedClean(prefix, d[1..]);
      assert forall i | 0 < i < |d| :: d[i] == d[1..][i - 1];
    }
  }

  // ---- what the fragments do ----------------------------------------------------------------------

  /** What the fragments of a hunk add. */
  function Sneaked(prefix: string, file: string, h: Hunk): seq<Piece> {
    Read(prefix, Place(file, h.start, true), Fragments(h))
  }

  /** The place in front of the hunk's added lines. */
  function Slipped(prefix: string, file: string, h: Hunk): Place {
    Reached(prefix, Place(file, h.start, true), Fragments(h))
  }

  /** No added line passes for a header because a fragment closed its hunk. */
  predicate HunkUndisguised(h: Hunk) {
    Slipped("", "", h).inHunk || NoHeaders(h.added)
  }

  predicate FileUndisguised(f: File) {
    forall j | 0 <= j < |f.hunks| :: HunkUndisguised(f.hunks[j])
  }

  predicate Undisguised(d: seq<File>) {
    forall i | 0 <= i < |d| :: FileUndisguised(d[i])
  }

  /** The fragments of every hunk add nothing, and in front of added lines they leave the file and the line
      number alone. `file` is where the reader stands, `name` is where it should stand. */
  predicate HunksHold(prefix: string, name: string, file: string, hs: seq<Hunk>)
    decreases |hs|
  {
    hs == [] ||
    var at := Slipped(prefix, file, hs[0]);
    && Sneaked(prefix, file, hs[0]) == []
    && (hs[0].added != [] ==> at.file == name && at.line == hs[0].start)
    && HunksHold(prefix, name, at.file, hs[1..])
  }

  predicate FileHolds(prefix: string, f: File) {
    NameBare(f) && HunksHold(prefix, FileName(f), FileName(f), f.hunks)
  }

  /** Names are read right, and no fragment does harm. */
  predicate FragmentsHold(prefix: string, d: seq<File>) {
    forall i | 0 <= i < |d| :: FileHolds(prefix, d[i])
  }

  lemma {:induction false} ReachedAlike(prefix: string, at: Place, prefix': string, at': Place, raws: seq<string>)
    requires at.inHunk == at'.inHunk
    ensures Reached(prefix, at, raws).inHunk == Reached(prefix', at', raws).inHunk
    decreases |raws|
  {
    if raws != [] {
      ReachedAlike(prefix, Turn(prefix, at, raws[0]).0, prefix', Turn(prefix', at', raws[0]).0, raws[1..]);
    }
  }

  lemma {:induction false} RemovedRead(prefix: string, at: Place, removed: seq<string>)
    ensures var raws := AllCuts(Prefixed("-", removed));
            && Read(prefix, at, raws) == Read(prefix, at, BehindAll(removed))
            && Reached(prefix, at, raws) == Reached(prefix, at, BehindAll(removed))
    decreases |removed|
  {
    if removed != [] {
      var first, behind := "-" + FirstLine(removed[0] + "\n"), Behind(removed[0]);
      var rest := AllCuts(Prefixed("-", removed[1..]));
      CutFront("-", removed[0]);
      JoinStrings([first], behind, rest);
      assert Silent(at, first);
      SilentFront(prefix, at, [first], behind + rest);
      ReadAppend(prefix, at, behind, rest);
      ReadAppend(prefix, at, behind, BehindAll(removed[1..]));
      RemovedRead(prefix, Reached(prefix, at, behind), removed[1..]);
    }
  }

  lemma HeadRead(prefix: string, at: Place, h: Hunk)
    requires HunkOk(h)
    ensures var raws, inside := Cuts(HunkHead(h)), Place(at.file, h.start, true);
            && Read(prefix, at, raws) == Read(prefix, inside, Behind(h.tail))
            && Reached(prefix, at, raws) == Reached(prefix, inside, Behind(h.tail))
  {
    var front := "@@ -" + h.old_ + " " + ("+" + Digits(h.start));
    var first := FirstLine(h.tail + "\n");
    var cut := h.(tail := first);
    assert HunkHead(h) == front + h.tail && HunkHead(cut) == front + first;
    FirstLineClean(h.tail + "\n");
    CutFront(front, h.tail);
    HeadTurn(prefix, at, cut);
    ReadOne(prefix, at, HunkHead(cut), Behind(h.tail));
    Empties(Read(prefix, Place(at.file, h.start, true), Behind(h.tail)));
  }

  lemma {:induction false} PrefixedClean(c: char, lines: seq<string>)
    requires !IsLineSep(c) && AllNoSep(lines)
    ensures AllNoSep(Prefixed([c], lines))
  {
    if lines != [] { PrefixedClean(c, lines[1..]); }
  }

  /** The lines in front of the added ones. */
  function HunkFront(h: Hunk): seq<string> {
    [HunkHead(h)] + (Prefixed("-", h.removed) + h.removedNote)
  }

  lemma FrontRead(prefix: string, at: Place, h: Hunk)
    requires HunkOk(h)
    ensures Read(prefix, at, AllCuts(HunkFront(h))) == Sneaked(prefix, at.file, h)
    ensures Reached(prefix, at, AllCuts(HunkFront(h))) == Slipped(prefix, at.file, h)
  {
    var inside := Place(at.file, h.start, true);
    var head, minus := Cuts(HunkHead(h)), AllCuts(Prefixed("-", h.removed));
    AllCutsAppend(Prefixed("-", h.removed), h.removedNote);
    CleanCuts(h.removedNote);
    assert AllCuts(HunkFront(h)) == head + (minus + h.removedNote);
    ReadAppend(prefix, at, head, minus + h.removedNote);
    HeadRead(prefix, at, h);
    var next := Reached(prefix, inside, Behind(h.tail));
    ReadAppend(prefix, next, minus, h.removedNote);
    RemovedRead(prefix, next, h.removed);
    SilentRun(prefix, Reached(prefix, next, minus), h.removedNote);
    Empties(Read(prefix, next, minus));
    ReadAppend(prefix, inside, Behind(h.tail), BehindAll(h.removed));
  }

  lemma CutsBehindFront(h: Hunk)
    requires HunkOk(h) && HunkOnLines(h)
    ensures AllCuts(HunkLines(h)) == AllCuts(HunkFront(h)) + (Prefixed("+", h.added) + h.addedNote)
  {
    var last := Prefixed("+", h.added) + h.addedNote;
    assert HunkLines(h) == HunkFront(h) + last;
    AllCutsAppend(HunkFront(h), last);
    PrefixedClean('+', h.added);
    CleanCuts(last);
  }

  lemma HunkCutsRead(prefix: string, at: Place, h: Hunk)
    requires HunkOk(h) && HunkOnLines(h) && HunkUndisguised(h)
    ensures var p, raws := Slipped(prefix, at.file, h), AllCuts(HunkLines(h));
            && Read(prefix, at, raws) == Sneaked(prefix, at.file, h) + AddedPieces(prefix, p.file, p.line, h.added)
            && Reached(prefix, at, raws).file == p.file
  {
    var p, last := Slipped(prefix, at.file, h), Prefixed("+", h.added) + h.addedNote;
    ReachedAlike(prefix, Place(at.file, h.start, true), "", Place("", h.start, true), Fragments(h));
    FrontRead(prefix, at, h);
    CutsBehindFront(h);
    ReadAppend(prefix, at, AllCuts(HunkFront(h)), last);
    AddedAndNote(prefix, p, h.added, h.addedNote);
  }

  // ---- all hunks, all files -----------------------------------------------------------------------

  /** What is read of hunks whose added lines are in one piece and not disguised. */
  function HunksRead(prefix: string, file: string, hs: seq<Hunk>): seq<Piece>
    decreases |hs|
  {
    if hs == [] then []
    else
      var p := Slipped(prefix, file, hs[0]);
      (Sneaked(prefix, file, hs[0]) + AddedPieces(prefix, p.file, p.line, hs[0].added))
      + HunksRead(prefix, p.file, hs[1..])
  }

  lemma {:induction false} HunksCutsRead(prefix: string, at: Place, hs: seq<Hunk>)
    requires forall i | 0 <= i < |hs| :: HunkOk(hs[i]) && HunkOnLines(hs[i]) && HunkUndisguised(hs[i])
    ensures Read(prefix, at, AllCuts(HunksLines(hs))) == HunksRead(prefix, at.file, hs)
    decreases |hs|
  {
    if hs != [] {
      var head, rest := HunkLines(hs[0]), HunksLines(hs[1..]);
      HunkCutsRead(prefix, at, hs[0]);
      AllCutsAppend(head, rest);
      ReadAppend(prefix, at, AllCuts(head), AllCuts(rest));
      HunksCutsRead(prefix, Reached(prefix, at, AllCuts(head)), hs[1..]);
    }
  }

  function FileRead(prefix: string, f: File): seq<Piece> {
    if f.hunks == [] then [] else NamedPiece(prefix, f, ReadName(f)) + HunksRead(prefix, ReadName(f), f.hunks)
  }

  /** The lines in front of a file's hunks. */
  function FileTop(f: File): seq<string> {
    [f.first] + f.headers
  }

  lemma TopRead(prefix: string, at: Place, f: File)
    requires FileOk(f)
    ensures AllCuts(FileTop(f)) == FileTop(f)
    ensures Read(prefix, at, FileTop(f)) == [] && Reached(prefix, at, FileTop(f)) == at.(inHunk := false)
  {
    CleanCuts(FileTop(f));
    FirstTurn(prefix, at, f);
    ReadOne(prefix, at, f.first, f.headers);
    SilentRun(prefix, at.(inHunk := false), f.headers);
  }

  lemma TargetRead(prefix: string, at: Place, f: File)
    requires FileOk(f) && FileOnLines(f) && FileUndisguised(f) && !at.inHunk
    ensures Read(prefix, at, AllCuts([TargetLine(f)] + HunksLines(f.hunks)))
         == NamedPiece(prefix, f, ReadName(f)) + HunksRead(prefix, ReadName(f), f.hunks)
  {
    TargetThen(prefix, at, f, HunksLines(f.hunks));
    HunksCutsRead(prefix, Place(ReadName(f), at.line, false), f.hunks);
  }

  lemma TargetClean(f: File)
    requires FileOk(f)
    ensures Cuts(TargetLine(f)) == [TargetLine(f)]
  {
    if f.exists_ { ShownHasNoTab(f.name); }
    CleanCuts([TargetLine(f)]);
    assert AllCuts([TargetLine(f)]) == Cuts(TargetLine(f)) + AllCuts([]);
  }

  lemma TargetThen(prefix: string, at: Place, f: File, rest: seq<string>)
    requires FileOk(f) && !at.inHunk
    ensures Read(prefix, at, AllCuts([TargetLine(f)] + rest))
         == NamedPiece(prefix, f, ReadName(f)) + Read(prefix, Place(ReadName(f), at.line, false), AllCuts(rest))
  {
    var raw := TargetLine(f);
    assert ([raw] + rest)[1..] == rest && AllCuts([raw] + rest) == Cuts(raw) + AllCuts(rest);
    TargetClean(f);
    TargetTurn(prefix, at, f);
    ReadOne(prefix, at, raw, AllCuts(rest));
  }

  lemma FileCutsRead(prefix: string, at: Place, f: File)
    requires FileOk(f) && FileOnLines(f) && FileUndisguised(f)
    ensures Read(prefix, at, AllCuts(FileLines(f))) == FileRead(prefix, f)
  {
    var top, body := FileTop(f), if f.hunks == [] then [] else [TargetLine(f)] + HunksLines(f.hunks);
    JoinStrings([f.first], f.headers, body);
    AllCutsAppend(top, body);
    TopRead(prefix, at, f);
    ReadAppend(prefix, at, top, AllCuts(body));
    Empties(Read(prefix, at.(inHunk := false), AllCuts(body)));
    if f.hunks != [] { TargetRead(prefix, at.(inHunk := false), f); }
  }

  function DiffRead(prefix: string, d: seq<File>): seq<Piece> {
    if d == [] then [] else FileRead(prefix, d[0]) + DiffRead(prefix, d[1..])
  }

  lemma {:induction false} DiffCutsRead(prefix: string, at: Place, d: seq<File>)
    requires DiffOk(d) && AddedOnOneLine(d) && Undisguised(d)
    ensures Read(prefix, at, AllCuts(DiffLines(d))) == DiffRead(prefix, d)
    decreases |d|
  {
    if d != [] {
      var head, rest := FileLines(d[0]), DiffLines(d[1..]);
      FileCutsRead(prefix, at, d[0]);
      AllCutsAppend(head, rest);
      ReadAppend(prefix, at, AllCuts(head), AllCuts(rest));
      DiffCutsRead(prefix, Reached(prefix, at, AllCuts(head)), d[1..]);
    }
  }

  // ---- counting -------------------------------------------------------------------------------------

  lemma SameParts(a: seq<Piece>, b: seq<Piece>, a': seq<Piece>, b': seq<Piece>)
    requires a + b == a' + b' && |a'| <= |a| && |b'| <= |b|
    ensures a == a' && b == b'
  {
    assert |a| == |a'|;
    assert a == (a + b)[..|a|] && b == (a + b)[|a|..];
  }

  lemma AddedSame(prefix: string, file: string, line: nat, file': string, line': nat, added: seq<string>)
    requires added != []
    requires AddedPieces(prefix, file, line, added) == AddedPieces(prefix, file', line', added)
    ensures file == file' && line == line'
  {
    assert AddedPieces(prefix, file, line, added)[0] == AddedPieces(prefix, file', line', added)[0];
    assert (prefix + file)[|prefix|..] == file && (prefix + file')[|prefix|..] == file';
  }

  /** Nothing is lost, so that one piece too many anywhere shows in the number of pieces. */
  lemma {:induction false} HunksCount(prefix: string, name: string, file: string, hs: seq<Hunk>)
    ensures |HunksPieces(prefix, name, hs)| <= |HunksRead(prefix, file, hs)|
    ensures HunksRead(prefix, file, hs) == HunksPieces(prefix, name, hs) <==> HunksHold(prefix, name, file, hs)
    decreases |hs|
  {
    if hs != [] {
      var p, sneaked, added := Slipped(prefix, file, hs[0]), Sneaked(prefix, file, hs[0]), hs[0].added;
      var read, want := AddedPieces(prefix, p.file, p.line, added), AddedPieces(prefix, name, hs[0].start, added);
      var restRead, restWant := HunksRead(prefix, p.file, hs[1..]), HunksPieces(prefix, name, hs[1..]);
      AddedClean(prefix, p.file, p.line, added);
      AddedClean(prefix, name, hs[0].start, added);
      HunksCount(prefix, name, p.file, hs[1..]);
      if sneaked == [] { Empties(read); }
      if HunksRead(prefix, file, hs) == HunksPieces(prefix, name, hs) {
        SameParts(sneaked + read, restRead, want, restWant);
        assert sneaked == [];
        if added != [] { AddedSame(prefix, p.file, p.line, name, hs[0].start, added); }
      }
    }
  }

  lemma FileCount(prefix: string, f: File)
    ensures |FilePieces(prefix, f)| <= |FileRead(prefix, f)|
    ensures FileRead(prefix, f) == FilePieces(prefix, f) <==> FileHolds(prefix, f)
  {
    HunksCount(prefix, FileName(f), ReadName(f), f.hunks);
    NameIsRead(f);
    if f.hunks != [] {
      SameHalves(NamedPiece(prefix, f, ReadName(f)), HunksRead(prefix, ReadName(f), f.hunks),
                 NamePiece(prefix, f), HunksPieces(prefix, FileName(f), f.hunks));
      if f.exists_ && !Bare(f.name) {
        assert NamedPiece(prefix, f, ReadName(f))[0].text == ReadName(f) && NamePiece(prefix, f)[0].text == f.name;
      }
    }
  }

  lemma {:induction false} DiffCount(prefix: string, d: seq<File>)
    ensures |Expected(prefix, d)| <= |DiffRead(prefix, d)|
    ensures DiffRead(prefix, d) == Expected(prefix, d) <==> FragmentsHold(prefix, d)
    decreases |d|
  {
    if d != [] {
      FileCount(prefix, d[0]);
      DiffCount(prefix, d[1..]);
      if DiffRead(prefix, d) == Expected(prefix, d) {
        SameParts(FileRead(prefix, d[0]), DiffRead(prefix, d[1..]), FilePieces(prefix, d[0]), Expected(prefix, d[1..]));
        assert forall i | 0 < i < |d| :: d[i] == d[1..][i - 1];
      }
    }
  }

  // ---- line by line ---------------------------------------------------------------------------------

  /** Every printed line is read as what git printed it for: where the reader then stands, the lines Python
      makes of it give exactly these pieces. */
  predicate EachLineReads(prefix: string, at: Place, lines: seq<string>, wants: seq<seq<Piece>>)
    requires |wants| == |lines|
    decreases |lines|
  {
    lines == [] ||
    (&& Read(prefix, at, Cuts(lines[0])) == wants[0]
     && EachLineReads(prefix, Reached(prefix, at, Cuts(lines[0])), lines[1..], wants[1..]))
  }

  function Silents(lines: seq<string>): (wants: seq<seq<Piece>>)
    ensures |wants| == |lines|
  {
    if lines == [] then [] else [[]] + Silents(lines[1..])
  }

  function AddedWants(prefix: string, file: string, start: nat, added: seq<string>): (wants: seq<seq<Piece>>)
    ensures |wants| == |added| == |Prefixed("+", added)|
    decreases |added|
  {
    if added == [] then []
    else [[Piece(prefix + file, start, added[0])]] + AddedWants(prefix, file, start + 1, added[1..])
  }

  function HunkWants(prefix: string, file: string, h: Hunk): (wants: seq<seq<Piece>>)
    ensures |wants| == |HunkLines(h)|
  {
    assert HunkLines(h) == HunkFront(h) + (Prefixed("+", h.added) + h.addedNote);
    Silents(HunkFront(h)) + (AddedWants(prefix, file, h.start, h.added) + Silents(h.addedNote))
  }

  function HunksWants(prefix: string, file: string, hs: seq<Hunk>): (wants: seq<seq<Piece>>)
    ensures |wants| == |HunksLines(hs)|
  {
    if hs == [] then [] else HunkWants(prefix, file, hs[0]) + HunksWants(prefix, file, hs[1..])
  }

  function FileWants(prefix: string, f: File): (wants: seq<seq<Piece>>)
    ensures |wants| == |FileLines(f)|
  {
    Silents(FileTop(f))
    + (if f.hunks == [] then [] else [NamePiece(prefix, f)] + HunksWants(prefix, FileName(f), f.hunks))
  }

  function DiffWants(prefix: string, d: seq<File>): (wants: seq<seq<Piece>>)
    ensures |wants| == |DiffLines(d)|
  {
    if d == [] then [] else FileWants(prefix, d[0]) + DiffWants(prefix, d[1..])
  }

  lemma {:induction false} EachAppend(prefix: string, at: Place, a: seq<string>, b: seq<string>,
                                      wa: seq<seq<Piece>>, wb: seq<seq<Piece>>)
    requires |wa| == |a| && |wb| == |b|
    ensures EachLineReads(prefix, at, a + b, wa + wb)
       <==> EachLineReads(prefix, at, a, wa) && EachLineReads(prefix, Reached(prefix, at, AllCuts(a)), b, wb)
    decreases |a|
  {
    if a == [] {
      assert a + b == b && wa + wb == wb;
    } else {
      assert (a + b)[1..] == a[1..] + b && (wa + wb)[1..] == wa[1..] + wb;
      ReadAppend(prefix, at, Cuts(a[0]), AllCuts(a[1..]));
      EachAppend(prefix, Reached(prefix, at, Cuts(a[0])), a[1..], b, wa[1..], wb);
    }
  }

  lemma {:induction false} EachSilent(prefix: string, at: Place, lines: seq<string>)
    ensures EachLineReads(prefix, at, lines, Silents(lines)) <==> Read(prefix, at, AllCuts(lines)) == []
    decreases |lines|
  {
    if lines != [] {
      var next := Reached(prefix, at, Cuts(lines[0]));
      assert Silents(lines)[1..] == Silents(lines[1..]);
      ReadAppend(prefix, at, Cuts(lines[0]), AllCuts(lines[1..]));
      EachSilent(prefix, next, lines[1..]);
    }
  }

  lemma {:induction false} BeforeTabShorter(s: string)
    ensures |BeforeTab(s)| <= |s|
  {
    if s != "" { BeforeTabShorter(s[1..]); }
  }

  /** Outside of hunks a line that looks like a header is not read as an added line. */
  lemma HeaderIsNoLine(prefix: string, at: Place, text: string, piece: Piece)
    requires !at.inHunk && HeaderLike(text) && piece.text == text
    ensures Turn(prefix, at, "+" + text).1 != [piece]
  {
    var raw := "+" + text;
    assert text[..3] == "++ " && raw[..4] == "+" + text[..3] == "+++ ";
    NotStart(raw, "diff ");
    BeforeTabShorter(raw[4..]);
  }

  lemma PlusCuts(prefix: string, at: Place, text: string)
    requires NoSep(text)
    ensures Cuts("+" + text) == ["+" + text]
    ensures Read(prefix, at, Cuts("+" + text)) == Turn(prefix, at, "+" + text).1
    ensures Reached(prefix, at, Cuts("+" + text)) == Turn(prefix, at, "+" + text).0
  {
    var raw := "+" + text;
    FirstLineOf(raw, "");
    assert raw + ("\n" + "") == raw + "\n" && SplitLines("") == [];
    assert [raw] + [] == [raw];
    ReadOne(prefix, at, raw, []);
    Empties(Turn(prefix, at, raw).1);
  }

  /** When an added line is read as one. */
  lemma OneAdded(prefix: string, at: Place, text: string, file: string, line: nat)
    ensures Read(prefix, at, Cuts("+" + text)) == [Piece(prefix + file, line, text)]
       <==> NoSep(text) && at.file == file && at.line == line && (at.inHunk || !HeaderLike(text))
  {
    var piece := Piece(prefix + file, line, text);
    if NoSep(text) {
      PlusCuts(prefix, at, text);
      if at.inHunk || !HeaderLike(text) {
        AddedTurn(prefix, at, text);
        if prefix + at.file == prefix + file {
          assert (prefix + at.file)[|prefix|..] == at.file && (prefix + file)[|prefix|..] == file;
        }
      } else {
        HeaderIsNoLine(prefix, at, text, piece);
      }
    } else {
      SplitClean("+" + text + "\n");
      ReadClean(prefix, at, Cuts("+" + text));
      assert !TextsClean([piece]) by { assert !NoSep([piece][0].text); }
    }
  }

  predicate AddedReads(at: Place, file: string, start: nat, added: seq<string>) {
    added == [] || (AllNoSep(added) && at.file == file && at.line == start && (at.inHunk || NoHeaders(added)))
  }

  lemma AddedHead(prefix: string, at: Place, file: string, start: nat, added: seq<string>)
    requires added != []
    ensures var own := AddedReads(at, file, start, added[..1]);
            var next := at.(line := at.line + 1);
            var all, more := Prefixed("+", added), Prefixed("+", added[1..]);
            && (EachLineReads(prefix, at, all, AddedWants(prefix, file, start, added))
                <==> own && EachLineReads(prefix, next, more, AddedWants(prefix, file, start + 1, added[1..])))
            && (own ==> Reached(prefix, at, AllCuts(all)) == Reached(prefix, next, AllCuts(more)))
  {
    var lines, wants := Prefixed("+", added), AddedWants(prefix, file, start, added);
    assert lines[1..] == Prefixed("+", added[1..]) && wants[1..] == AddedWants(prefix, file, start + 1, added[1..]);
    OneAdded(prefix, at, added[0], file, start);
    AddedSplits(added[..1]);
    ReadAppend(prefix, at, Cuts(lines[0]), AllCuts(lines[1..]));
    if AddedReads(at, file, start, added[..1]) {
      PlusCuts(prefix, at, added[0]);
      AddedTurn(prefix, at, added[0]);
    }
  }

  lemma {:induction false} EachAdded(prefix: string, at: Place, file: string, start: nat, added: seq<string>)
    ensures EachLineReads(prefix, at, Prefixed("+", added), AddedWants(prefix, file, start, added))
       <==> AddedReads(at, file, start, added)
    ensures AddedReads(at, file, start, added) ==> Reached(prefix, at, AllCuts(Prefixed("+", added))).file == at.file
    decreases |added|
  {
    if added != [] {
      AddedHead(prefix, at, file, start, added);
      AddedSplits(added);
      EachAdded(prefix, at.(line := at.line + 1), file, start + 1, added[1..]);
    }
  }

  lemma AddedSplits(added: seq<string>)
    requires added != []
    ensures AllNoSep(added) <==> NoSep(added[0]) && AllNoSep(added[1..])
    ensures NoHeaders(added) <==> !HeaderLike(added[0]) && NoHeaders(added[1..])
  {
    assert forall i | 0 < i < |added| :: added[i] == added[1..][i - 1];
    assert forall i | 0 <= i < |added| - 1 :: added[1..][i] == added[i + 1];
  }

  /** What a hunk needs to be read line by line: nothing sneaks in, and its added lines are read as such. */
  predicate HunkReads(prefix: string, file: string, at: Place, h: Hunk) {
    Sneaked(prefix, at.file, h) == [] && AddedReads(Slipped(prefix, at.file, h), file, h.start, h.added)
  }

  lemma EachHunk(prefix: string, at: Place, file: string, h: Hunk)
    requires HunkOk(h)
    ensures EachLineReads(prefix, at, HunkLines(h), HunkWants(prefix, file, h)) <==> HunkReads(prefix, file, at, h)
    ensures HunkReads(prefix, file, at, h) ==>
              Reached(prefix, at, AllCuts(HunkLines(h))).file == Slipped(prefix, at.file, h).file
  {
    var p, plus := Slipped(prefix, at.file, h), Prefixed("+", h.added);
    var wants := AddedWants(prefix, file, h.start, h.added);
    assert HunkLines(h) == HunkFront(h) + (plus + h.addedNote);
    FrontRead(prefix, at, h);
    EachSilent(prefix, at, HunkFront(h));
    EachAppend(prefix, at, HunkFront(h), plus + h.addedNote, Silents(HunkFront(h)), wants + Silents(h.addedNote));
    EachAppend(prefix, p, plus, h.addedNote, wants, Silents(h.addedNote));
    EachAdded(prefix, p, file, h.start, h.added);
    EachNote(prefix, Reached(prefix, p, AllCuts(plus)), h.addedNote);
    AllCutsAppend(HunkFront(h), plus + h.addedNote);
    AllCutsAppend(plus, h.addedNote);
    ReadAppend(prefix, at, AllCuts(HunkFront(h)), AllCuts(plus) + AllCuts(h.addedNote));
    ReadAppend(prefix, p, AllCuts(plus), AllCuts(h.addedNote));
  }

  lemma EachNote(prefix: string, at: Place, note: seq<string>)
    requires forall i | 0 <= i < |note| :: QuietInside(note[i])
    ensures EachLineReads(prefix, at, note, Silents(note)) && Reached(prefix, at, AllCuts(note)) == at
  {
    CleanCuts(note);
    SilentRun(prefix, at, note);
    EachSilent(prefix, at, note);
  }

  /** The same, by the conditions on its text. */
  lemma HunkReadsIff(prefix: string, file: string, at: Place, h: Hunk)
    ensures var p := Slipped(prefix, at.file, h);
            HunkReads(prefix, file, at, h) <==>
              && HunkOnLines(h) && HunkUndisguised(h) && Sneaked(prefix, at.file, h) == []
              && (h.added != [] ==> p.file == file && p.line == h.start)
  {
    ReachedAlike(prefix, Place(at.file, h.start, true), "", Place("", h.start, true), Fragments(h));
  }

  predicate HunksClear(hs: seq<Hunk>) {
    forall j | 0 <= j < |hs| :: HunkOnLines(hs[j]) && HunkUndisguised(hs[j])
  }

  lemma {:induction false} EachHunks(prefix: string, at: Place, file: string, hs: seq<Hunk>)
    requires forall i | 0 <= i < |hs| :: HunkOk(hs[i])
    ensures EachLineReads(prefix, at, HunksLines(hs), HunksWants(prefix, file, hs))
       <==> HunksClear(hs) && HunksHold(prefix, file, at.file, hs)
    decreases |hs|
  {
    if hs != [] {
      var head, rest := HunkLines(hs[0]), HunksLines(hs[1..]);
      EachHunk(prefix, at, file, hs[0]);
      HunkReadsIff(prefix, file, at, hs[0]);
      EachAppend(prefix, at, head, rest, HunkWants(prefix, file, hs[0]), HunksWants(prefix, file, hs[1..]));
      EachHunks(prefix, Reached(prefix, at, AllCuts(head)), file, hs[1..]);
      ClearSplits(hs);
    }
  }

  lemma ClearSplits(hs: seq<Hunk>)
    requires hs != []
    ensures HunksClear(hs) <==> HunkOnLines(hs[0]) && HunkUndisguised(hs[0]) && HunksClear(hs[1..])
  {
    assert forall i | 0 < i < |hs| :: hs[i] == hs[1..][i - 1];
    assert forall i | 0 <= i < |hs| - 1 :: hs[1..][i] == hs[i + 1];
  }

  predicate FileReads(prefix: string, f: File) {
    FileOnLines(f) && FileUndisguised(f) && FileHolds(prefix, f)
  }

  lemma EachFile(prefix: string, at: Place, f: File)
    requires FileOk(f)
    ensures EachLineReads(prefix, at, FileLines(f), FileWants(prefix, f)) <==> FileReads(prefix, f)
  {
    var closed := at.(inHunk := false);
    var body := if f.hunks == [] then [] else [TargetLine(f)] + HunksLines(f.hunks);
    var wants := if f.hunks == [] then [] else [NamePiece(prefix, f)] + HunksWants(prefix, FileName(f), f.hunks);
    JoinStrings([f.first], f.headers, body);
    TopRead(prefix, at, f);
    EachSilent(prefix, at, FileTop(f));
    EachAppend(prefix, at, FileTop(f), body, Silents(FileTop(f)), wants);
    if f.hunks != [] { EachTarget(prefix, closed, f); }
  }

  lemma EachTarget(prefix: string, at: Place, f: File)
    requires FileOk(f) && f.hunks != [] && !at.inHunk
    ensures EachLineReads(prefix, at, [TargetLine(f)] + HunksLines(f.hunks),
                          [NamePiece(prefix, f)] + HunksWants(prefix, FileName(f), f.hunks))
       <==> FileReads(prefix, f)
  {
    var raw, next := TargetLine(f), Place(ReadName(f), at.line, false);
    TargetClean(f);
    TargetTurn(prefix, at, f);
    ReadOne(prefix, at, raw, []);
    assert [raw] + [] == [raw];
    Empties(NamedPiece(prefix, f, ReadName(f)));
    assert ([raw] + HunksLines(f.hunks))[1..] == HunksLines(f.hunks);
    EachHunks(prefix, next, FileName(f), f.hunks);
    NameIsRead(f);
    if f.exists_ && !Bare(f.name) {
      assert NamedPiece(prefix, f, ReadName(f))[0].text == ReadName(f) && NamePiece(prefix, f)[0].text == f.name;
    }
  }

  predicate FilesRead(prefix: string, d: seq<File>) {
    forall i | 0 <= i < |d| :: FileReads(prefix, d[i])
  }

  lemma FilesReadSplits(prefix: string, d: seq<File>)
    requires d != []
    ensures FilesRead(prefix, d) <==> FileReads(prefix, d[0]) && FilesRead(prefix, d[1..])
  {
    assert forall i | 0 < i < |d| :: d[i] == d[1..][i - 1];
    assert forall i | 0 <= i < |d| - 1 :: d[1..][i] == d[i + 1];
  }

  lemma {:induction false} EachDiff(prefix: string, at: Place, d: seq<File>)
    requires DiffOk(d)
    ensures EachLineReads(prefix, at, DiffLines(d), DiffWants(prefix, d)) <==> FilesRead(prefix, d)
    decreases |d|
  {
    if d != [] {
      var head := FileLines(d[0]);
      EachFile(prefix, at, d[0]);
      EachAppend(prefix, at, head, DiffLines(d[1..]), FileWants(prefix, d[0]), DiffWants(prefix, d[1..]));
      EachDiff(prefix, Reached(prefix, at, AllCuts(head)), d[1..]);
      FilesReadSplits(prefix, d);
    }
  }

  /** On every diff, without exception: each printed line is read as what git printed it for, if and only if no
      added line holds a character that Python takes for the end of a line, no name of a file with a hunk is
      quoted, the fragments behind such characters in removed lines and headings add nothing and leave file
      and number alone, and none of them closes a hunk over an added line that looks like a header. */
  lemma LinesReadExactly(prefix: string, d: seq<File>)
    requires DiffOk(d)
    ensures EachLineReads(prefix, START, DiffLines(d), DiffWants(prefix, d))
       <==> AddedOnOneLine(d) && Undisguised(d) && FragmentsHold(prefix, d)
  {
    EachDiff(prefix, START, d);
    if FilesRead(prefix, d) {
      assert forall i | 0 <= i < |d| :: FileReads(prefix, d[i]);
    } else {
      var i :| 0 <= i < |d| && !FileReads(prefix, d[i]);
    }
  }

  // ---- the round trip ---------------------------------------------------------------------------------

  function ReadBack(prefix: string, d: seq<File>): seq<Piece> {
    Read(prefix, START, SplitLines(Printed(DiffLines(d))))
  }

  /** Reading a printed diff gives exactly the added lines, with their file and number, and one name for
      each file that still exists and has a hunk, if and only if no added line holds a character that Python
      takes for the end of a line, and what stands behind such a character in a removed line or a heading
      adds nothing and leaves file and number alone. (The one premise: no added line is taken for a header
      because such a fragment closed its hunk; then two errors can make up for each other.) */
  lemma ReadsBackExactly(prefix: string, d: seq<File>)
    requires DiffOk(d)
    ensures ReadBack(prefix, d) == Expected(prefix, d) ==> AddedOnOneLine(d)
    ensures Undisguised(d) ==>
              (ReadBack(prefix, d) == Expected(prefix, d) <==> AddedOnOneLine(d) && FragmentsHold(prefix, d))
  {
    var text := Printed(DiffLines(d));
    SplitClean(text);
    ReadClean(prefix, START, SplitLines(text));
    if ReadBack(prefix, d) == Expected(prefix, d) { ExpectedClean(prefix, d); }
    if AddedOnOneLine(d) && Undisguised(d) {
      SplitsPrinted(DiffLines(d));
      DiffCutsRead(prefix, START, d);
      DiffCount(prefix, d);
    }
  }

  // ---- what that means for callers --------------------------------------------------------------------

  /** A fragment that the reader takes for a line of the diff. */
  predicate Loud(raw: string) {
    Starts(raw, "+") || Starts(raw, "@@") || Starts(raw, "diff ")
  }

  predicate NoneLoud(raws: seq<string>) {
    forall i | 0 <= i < |raws| :: !Loud(raws[i])
  }

  predicate FileQuiet(f: File) {
    forall j | 0 <= j < |f.hunks| :: NoneLoud(Fragments(f.hunks[j]))
  }

  predicate FragmentsQuiet(d: seq<File>) {
    forall i | 0 <= i < |d| :: FileQuiet(d[i])
  }

  lemma {:induction false} QuietRun(prefix: string, at: Place, raws: seq<string>)
    requires NoneLoud(raws)
    ensures Read(prefix, at, raws) == [] && Reached(prefix, at, raws) == at
    decreases |raws|
  {
    if raws != [] {
      var raw := raws[0];
      assert !Loud(raw);
      QuietRun(prefix, at, raws[1..]);
    }
  }

  lemma {:induction false} QuietHunksHold(prefix: string, name: string, hs: seq<Hunk>)
    requires forall i | 0 <= i < |hs| :: NoneLoud(Fragments(hs[i]))
    ensures HunksHold(prefix, name, name, hs)
    decreases |hs|
  {
    if hs != [] {
      QuietRun(prefix, Place(name, hs[0].start, true), Fragments(hs[0]));
      QuietHunksHold(prefix, name, hs[1..]);
    }
  }

  /** With no loud fragment - removed lines of files with CRLF line ends have none - the added lines alone decide. */
  lemma QuietReadsBack(prefix: string, d: seq<File>)
    requires DiffOk(d) && FragmentsQuiet(d)
    ensures ReadBack(prefix, d) == Expected(prefix, d) <==> AddedOnOneLine(d) && NamesBare(d)
    ensures Undisguised(d) && (FragmentsHold(prefix, d) <==> NamesBare(d))
  {
    forall i | 0 <= i < |d|
      ensures FileUndisguised(d[i]) && (FileHolds(prefix, d[i]) <==> NameBare(d[i]))
    {
      assert FileQuiet(d[i]);
      forall j | 0 <= j < |d[i].hunks|
        ensures HunkUndisguised(d[i].hunks[j])
      {
        QuietRun("", Place("", d[i].hunks[j].start, true), Fragments(d[i].hunks[j]));
      }
      QuietHunksHold(prefix, FileName(d[i]), d[i].hunks);
    }
    ReadsBackExactly(prefix, d);
  }

  /** A line that ends in a carriage return has no fragments. */
  lemma {:induction false} CrlfIsQuiet(line: string)
    requires NoSep(line)
    ensures Behind(line) == [] && Behind(line + "\r") == []
  {
    if line == "" {
      assert Behind("") == SplitLines("") && "" + "\r" == "\r" && Behind("\r") == SplitLines("");
    } else {
      CrlfIsQuiet(line[1..]);
      assert (line + "\n")[1..] == line[1..] + "\n";
      assert ((line + "\r") + "\n")[1..] == (line[1..] + "\r") + "\n";
    }
  }

  /** What a scan of all new content needs: also the names of new files that are empty. */
  function Promised(prefix: string, d: seq<File>): seq<Piece> {
    if d == [] then []
    else NamePiece(prefix, d[0]) + HunksPieces(prefix, FileName(d[0]), d[0].hunks) + Promised(prefix, d[1..])
  }

  predicate AllHaveHunks(d: seq<File>) {
    forall i | 0 <= i < |d| && d[i].exists_ :: d[i].hunks != []
  }

  lemma PromisedOne(prefix: string, f: File)
    ensures var all := NamePiece(prefix, f) + HunksPieces(prefix, FileName(f), f.hunks);
            && |FilePieces(prefix, f)| <= |all|
            && (all == FilePieces(prefix, f) <==> (f.exists_ ==> f.hunks != []))
  {
  }

  lemma HaveHunksSplits(d: seq<File>)
    requires d != []
    ensures AllHaveHunks(d) <==> (d[0].exists_ ==> d[0].hunks != []) && AllHaveHunks(d[1..])
  {
    assert forall i | 0 < i < |d| :: d[i] == d[1..][i - 1];
    assert forall i | 0 <= i < |d| - 1 :: d[1..][i] == d[i + 1];
  }

  lemma {:induction false} PromisedIsExpected(prefix: string, d: seq<File>)
    ensures |Expected(prefix, d)| <= |Promised(prefix, d)|
    ensures Promised(prefix, d) == Expected(prefix, d) <==> AllHaveHunks(d)
    decreases |d|
  {
    if d != [] {
      var first := NamePiece(prefix, d[0]) + HunksPieces(prefix, FileName(d[0]), d[0].hunks);
      PromisedOne(prefix, d[0]);
      PromisedIsExpected(prefix, d[1..]);
      HaveHunksSplits(d);
      if Promised(prefix, d) == Expected(prefix, d) {
        SameParts(first, Promised(prefix, d[1..]), FilePieces(prefix, d[0]), Expected(prefix, d[1..]));
      }
    }
  }

  /** When the lines are read right, all files that exist are named exactly if each of them has a hunk. */
  lemma EveryFileIsNamed(prefix: string, d: seq<File>)
    requires DiffOk(d) && Undisguised(d) && AddedOnOneLine(d) && FragmentsHold(prefix, d)
    ensures ReadBack(prefix, d) == Promised(prefix, d) <==> AllHaveHunks(d)
  {
    ReadsBackExactly(prefix, d);
    PromisedIsExpected(prefix, d);
  }

  // ---- inputs on which it fails -----------------------------------------------------------------------

  function OneHunk(removed: seq<string>, added: seq<string>): seq<File> {
    [File("diff x", [], "a", true, false, [Hunk("1", 1, " @@", removed, [], added, [])])]
  }

  lemma OneHunkOk(removed: seq<string>, added: seq<string>)
    ensures DiffOk(OneHunk(removed, added))
  {
    var f := OneHunk(removed, added)[0];
    assert f.first[..5] == "diff ";
    assert HunkOk(f.hunks[0]);
  }

  /** A form feed inside an added line hides the rest of the line from the scan. */
  lemma FormFeedHides(prefix: string)
    ensures var d := OneHunk([], ["x\U{c}y"]);
            DiffOk(d) && ReadBack(prefix, d) != Expected(prefix, d)
  {
    var d := OneHunk([], ["x\U{c}y"]);
    OneHunkOk([], ["x\U{c}y"]);
    assert d[0].hunks[0].added[0] == "x\U{c}y" && IsLineSep("x\U{c}y"[1]);
    assert !FileOnLines(d[0]) by { assert !HunkOnLines(d[0].hunks[0]); }
    ReadsBackExactly(prefix, d);
  }

  lemma FragmentsOf(front: string, behind: string, added: seq<string>)
    requires NoSep(front) && NoSep(behind)
    ensures Fragments(OneHunk([front + ("\U{c}" + behind)], added)[0].hunks[0]) == [behind]
  {
    var line := front + ("\U{c}" + behind);
    SeparatorSplits(front, behind);
    ShortHeading();
    assert BehindAll([line]) == Behind(line) + BehindAll([]);
  }

  lemma SeparatorSplits(front: string, behind: string)
    requires NoSep(front) && NoSep(behind)
    ensures Behind(front + ("\U{c}" + behind)) == [behind]
  {
    var t := behind + "\n";
    assert (front + ("\U{c}" + behind)) + "\n" == front + ("\U{c}" + t);
    SeparatorEnds(front, '\U{c}', t);
    FirstLineOf(behind, "");
    assert behind + ("\n" + "") == t && SplitLines("") == [];
  }

  /** Behind a form feed, a part of a removed line is read as an added line. */
  lemma RemovedTextIsRead(prefix: string)
    ensures var d := OneHunk(["x\U{c}+y"], []);
            DiffOk(d) && AddedOnOneLine(d) && ReadBack(prefix, d) != Expected(prefix, d)
  {
    var d := OneHunk(["x\U{c}+y"], []);
    var h := d[0].hunks[0];
    OneHunkOk(["x\U{c}+y"], []);
    assert "x" + ("\U{c}" + "+y") == "x\U{c}+y";
    FragmentsOf("x", "+y", []);
    assert Starts("+y", "+");
    PlusTurn(prefix, Place("a", 1, true), "+y");
    assert Sneaked(prefix, "a", h) != [];
    assert !FileHolds(prefix, d[0]);
    ReadsBackExactly(prefix, d);
  }

  lemma PlusTurn(prefix: string, at: Place, raw: string)
    requires at.inHunk && raw != "" && raw[0] == '+'
    ensures Turn(prefix, at, raw).1 == [Piece(prefix + at.file, at.line, raw[1..])]
  {
  }

  /** A new file that is empty is not named. */
  lemma EmptyFileIsNotNamed(prefix: string)
    ensures var d := [File("diff x", [], "a", true, false, [])];
            DiffOk(d) && ReadBack(prefix, d) != Promised(prefix, d)
  {
    var d := [File("diff x", [], "a", true, false, [])];
    assert d[0].first[..5] == "diff ";
    assert d[0].exists_ && d[0].hunks == [];
    EveryFileIsNamed(prefix, d);
  }

  lemma TwoFragments(front: string, one: string, two: string)
    requires NoSep(front) && NoSep(one) && NoSep(two)
    ensures Behind(front + ("\U{c}" + (one + ("\U{c}" + two)))) == [one, two]
  {
    var line, t := front + ("\U{c}" + (one + ("\U{c}" + two))), one + ("\U{c}" + (two + "\n"));
    assert line + "\n" == front + ("\U{c}" + t);
    SeparatorEnds(front, '\U{c}', t);
    SeparatorEnds(one, '\U{c}', two + "\n");
    FirstLineOf(two, "");
    assert two + ("\n" + "") == two + "\n" && SplitLines("") == [];
    assert SplitLines(two + "\n") == [two] + SplitLines("");
    assert SplitLines(t) == [one] + SplitLines(two + "\n");
  }

  /** A hunk whose removed text adds the line and then closes the hunk, so that the line itself is swallowed. */
  predicate Cancels(h: Hunk, added: string) {
    && HunkOk(h) && h.added == [added] && h.addedNote == [] && NoSep(added) && HeaderLike(added)
    && |Fragments(h)| == 2 && Fragments(h)[0] == "+" + added && Starts(Fragments(h)[1], "diff ")
    && Starts("+" + added, "+++ ") && HeaderFile("+" + added) == DEV_NULL
  }

  lemma DiffTurn(prefix: string, at: Place, raw: string)
    requires Starts(raw, "diff ")
    ensures Turn(prefix, at, raw) == (at.(inHunk := false), [])
  {
    assert raw[0] == raw[..5][0] == 'd';
  }

  lemma CancelPlace(prefix: string, file: string, h: Hunk, added: string)
    requires Cancels(h, added)
    ensures Sneaked(prefix, file, h) == [Piece(prefix + file, h.start, added)]
    ensures Slipped(prefix, file, h) == Place(file, h.start + 1, false)
  {
    var inside, one, two := Place(file, h.start, true), Fragments(h)[0], Fragments(h)[1];
    assert Fragments(h) == [one] + [two] && [two] == [two] + [];
    AddedTurn(prefix, inside, added);
    ReadOne(prefix, inside, one, [two]);
    DiffTurn(prefix, Place(file, h.start + 1, true), two);
    ReadOne(prefix, Place(file, h.start + 1, true), two, []);
  }

  lemma CancelRead(prefix: string, at: Place, h: Hunk, added: string)
    requires Cancels(h, added)
    ensures Read(prefix, at, AllCuts(HunkLines(h))) == [Piece(prefix + at.file, h.start, added)]
  {
    var p, last := Slipped(prefix, at.file, h), "+" + added;
    FrontRead(prefix, at, h);
    assert h.added[1..] == [] && Prefixed("+", h.added) == ["+" + h.added[0]] + Prefixed("+", []) == [last];
    assert Prefixed("+", h.added) + h.addedNote == [last];
    assert HunkLines(h) == HunkFront(h) + [last];
    AllCutsAppend(HunkFront(h), [last]);
    CleanCuts([last]);
    ReadAppend(prefix, at, AllCuts(HunkFront(h)), [last]);
    CancelPlace(prefix, at.file, h, added);
    NotStart(last, "diff ");
    assert Turn(prefix, p, last).1 == [];
    ReadOne(prefix, p, last, []);
    assert [last] + [] == [last];
  }

  lemma CancelReadsBack(prefix: string, f: File, added: string)
    requires FileOk(f) && |f.hunks| == 1 && f.exists_ && Bare(f.name) && Cancels(f.hunks[0], added)
    ensures ReadBack(prefix, [f]) == Expected(prefix, [f])
  {
    var h := f.hunks[0];
    var body := [TargetLine(f)] + HunkLines(h);
    assert HunksLines([h]) == HunkLines(h) + HunksLines([]) && f.hunks == [h];
    assert FileLines(f) == FileTop(f) + body;
    assert DiffLines([f]) == FileLines(f) + DiffLines([]) == FileLines(f);
    SplitsPrinted(FileLines(f));
    AllCutsAppend(FileTop(f), body);
    TopRead(prefix, START, f);
    ReadAppend(prefix, START, FileTop(f), AllCuts(body));
    TargetThen(prefix, START, f, HunkLines(h));
    CancelRead(prefix, Place(f.name, 0, false), h, added);
    CancelExpected(prefix, f, added);
  }

  lemma CancelExpected(prefix: string, f: File, added: string)
    requires |f.hunks| == 1 && f.exists_ && f.hunks[0].added == [added]
    ensures Expected(prefix, [f]) == NamePiece(prefix, f) + [Piece(prefix + f.name, f.hunks[0].start, added)]
  {
    var h := f.hunks[0];
    assert AddedPieces(prefix, f.name, h.start, [added]) == [Piece(prefix + f.name, h.start, added)] + [];
    assert HunksPieces(prefix, f.name, f.hunks) == AddedPieces(prefix, f.name, h.start, h.added) + [];
    assert Expected(prefix, [f]) == FilePieces(prefix, f) + [];
  }

  lemma HeaderOf(name: string)
    requires NoSep(name) && '\t' !in name && !Starts(name, "b/")
    ensures var added := "++ " + name;
            && NoSep(added) && HeaderLike(added) && Starts("+" + added, "+++ ")
            && HeaderFile("+" + added) == name
  {
    var raw := "+" + ("++ " + name);
    assert ("++ " + name)[..3] == "++ ";
    assert raw[..4] == "+++ " && raw[4..] == name && name + "" == name;
    NoTab(name, "");
  }

  lemma ShortHeading()
    ensures Behind(" @@") == []
  {
    FirstLineOf(" @@", "");
    assert " @@" + ("\n" + "") == " @@" + "\n" && SplitLines("") == [];
  }

  lemma DisguiseFragments(h: Hunk, front: string, one: string, two: string)
    requires h.tail == " @@" && h.removed == [front + ("\U{c}" + (one + ("\U{c}" + two)))]
    requires NoSep(front) && NoSep(one) && NoSep(two)
    ensures Fragments(h) == [one, two]
  {
    ShortHeading();
    TwoFragments(front, one, two);
    assert h.removed[1..] == [] && BehindAll(h.removed) == Behind(h.removed[0]) + BehindAll([]);
  }

  function OneName(name: string): File {
    OneHunk([], ["x"])[0].(name := name)
  }

  lemma OneNameOk(name: string)
    requires name != DEV_NULL
    ensures FileOk(OneName(name))
  {
    OneHunkOk([], ["x"]);
    assert FileOk(OneHunk([], ["x"])[0]);
  }

  lemma OneNameQuiet(name: string)
    ensures FileOnLines(OneName(name)) && FileQuiet(OneName(name))
  {
    var h := OneName(name).hunks[0];
    assert NoSep(h.added[0]) && HunkOnLines(h);
    ShortHeading();
    assert Fragments(h) == [];
  }

  /** A name with a character outside ASCII is printed in quotes, and misread. */
  lemma QuotedNameIsMisread(prefix: string)
    ensures var d := [OneName("\U{e9}")];
            DiffOk(d) && AddedOnOneLine(d) && ReadBack(prefix, d) != Expected(prefix, d)
  {
    var name := "\U{e9}";
    var d := [OneName(name)];
    assert |name| != |DEV_NULL| && !PlainChar(name[0]);
    OneNameOk(name);
    OneNameQuiet(name);
    assert !NameBare(d[0]);
    QuietReadsBack(prefix, d);
  }

  /** Why a disguised line is excluded: one fragment adds the line that another fragment hides. */
  lemma TwoWrongs(prefix: string)
    ensures var added := "++ " + DEV_NULL;
            var d := OneHunk(["x" + ("\U{c}" + (("+" + added) + ("\U{c}" + "diff x")))], [added]);
            && DiffOk(d) && AddedOnOneLine(d) && !FragmentsHold(prefix, d) && !Undisguised(d)
            && ReadBack(prefix, d) == Expected(prefix, d)
  {
    NotStart(DEV_NULL, "b/");
    HeaderOf(DEV_NULL);
    assert "diff x"[..5] == "diff ";
    DisguisedReadsBack(prefix, "x", "++ " + DEV_NULL, "diff x");
  }

  lemma DisguisedReadsBack(prefix: string, front: string, added: string, two: string)
    requires NoSep(front) && NoSep(added) && NoSep(two) && HeaderLike(added) && Starts(two, "diff ")
    requires Starts("+" + added, "+++ ") && HeaderFile("+" + added) == DEV_NULL
    ensures var d := OneHunk([front + ("\U{c}" + (("+" + added) + ("\U{c}" + two)))], [added]);
            && DiffOk(d) && AddedOnOneLine(d) && !FragmentsHold(prefix, d) && !Undisguised(d)
            && ReadBack(prefix, d) == Expected(prefix, d)
  {
    var removed := front + ("\U{c}" + (("+" + added) + ("\U{c}" + two)));
    var d := OneHunk([removed], [added]);
    OneHunkOk([removed], [added]);
    DisguiseFragments(d[0].hunks[0], front, "+" + added, two);
    CancelPlace(prefix, "a", d[0].hunks[0], added);
    CancelPlace("", "", d[0].hunks[0], added);
    assert HeaderLike(d[0].hunks[0].added[0]);
    assert !HunkUndisguised(d[0].hunks[0]);
    assert !FileUndisguised(d[0]);
    assert !FileHolds(prefix, d[0]);
    CancelReadsBack(prefix, d[0], added);
  }
}
