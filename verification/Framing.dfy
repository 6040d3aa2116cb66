/** Cutting a stream of chunks into frames: the line queue and byte budget of a seat's two pipes, and the
    reply reader of an HTTP event stream. Chunk boundaries must not show. */
module Framing {
  import opened Options

  /** `s.partition("\n")`: the text in front of the first newline, and the text behind it. */
  datatype Cut = NoNewline | Cut(line: string, rest: string)

  function CutLine(s: string): (r: Cut)
    ensures r.Cut? ==> s == r.line + "\n" + r.rest && '\n' !in r.line
    ensures r.NoNewline? <==> '\n' !in s
  {
    if s == "" then NoNewline
    else if s[0] == '\n' then Cut("", s[1..])
    else match CutLine(s[1..])
         case NoNewline => NoNewline
         case Cut(line, rest) => Cut([s[0]] + line, rest)
  }

  lemma {:induction false} CutLineGrows(s: string, t: string)
    requires CutLine(s).Cut?
    ensures CutLine(s + t) == Cut(CutLine(s).line, CutLine(s).rest + t)
  {
    assert (s + t)[1..] == s[1..] + t;
    if s[0] != '\n' { CutLineGrows(s[1..], t); }
  }

  lemma {:induction false} CutLineAt(line: string, rest: string)
    requires '\n' !in line
    ensures CutLine(line + ("\n" + rest)) == Cut(line, rest)
  {
    var s := line + ("\n" + rest);
    if line == "" {
      assert s == "\n" + rest && s[1..] == rest;
    } else {
      var more := line[1..] + ("\n" + rest);
      assert s[0] == line[0] && s[1..] == more && [line[0]] + line[1..] == line;
      CutLineAt(line[1..], rest);
      assert CutLine(more) == Cut(line[1..], rest);
    }
  }

  function Concat(chunks: seq<string>): string {
    if chunks == [] then "" else chunks[0] + Concat(chunks[1..])
  }

  lemma {:induction false} ConcatOne(chunks: seq<string>, chunk: string)
    ensures Concat(chunks + [chunk]) == Concat(chunks) + chunk
  {
    if chunks == [] {
      assert [] + [chunk] == [chunk] && Concat([chunk]) == chunk + "" == chunk && "" + chunk == chunk;
    } else {
      assert (chunks + [chunk])[1..] == chunks[1..] + [chunk];
      ConcatOne(chunks[1..], chunk);
      assert chunks[0] + (Concat(chunks[1..]) + chunk) == (chunks[0] + Concat(chunks[1..])) + chunk;
    }
  }

  // ---- the line queue of a pipe -------------------------------------------------------------

  /** What a pipe's text puts on the queue: every line with its newline, and an unfinished last one. */
  function Lines(s: string): seq<string>
    decreases |s|
  {
    match CutLine(s)
    case NoNewline => if s == "" then [] else [s]
    case Cut(line, rest) => [line + "\n"] + Lines(rest)
  }

  /** The finished lines, and the unfinished rest. */
  function Finished(s: string): (r: (seq<string>, string))
    decreases |s|
  {
    match CutLine(s)
    case NoNewline => ([], s)
    case Cut(line, rest) => var (more, last) := Finished(rest); ([line + "\n"] + more, last)
  }

  lemma {:induction false} LinesConcat(s: string)
    ensures Concat(Lines(s)) == s
    decreases |s|
  {
    match CutLine(s)
    case NoNewline => if s != "" { assert s + "" == s; }
    case Cut(line, rest) => LinesConcat(rest);
  }

  /** A queued line has its only newline at its end; only the last line may lack it. */
  ghost predicate AreLines(lines: seq<string>) {
    forall i | 0 <= i < |lines| ::
      && lines[i] != "" && '\n' !in lines[i][..|lines[i]| - 1]
      && (i < |lines| - 1 ==> lines[i][|lines[i]| - 1] == '\n')
  }

  lemma AreLinesFrom(line: string, more: seq<string>)
    requires '\n' !in line && AreLines(more)
    ensures AreLines([line + "\n"] + more)
  {
  }

  lemma {:induction false} LinesAreLines(s: string)
    ensures AreLines(Lines(s))
    decreases |s|
  {
    match CutLine(s)
    case NoNewline => if s != "" { assert '\n' !in s[..|s| - 1]; }
    case Cut(line, rest) =>
      LinesAreLines(rest);
      AreLinesFrom(line, Lines(rest));
  }

  lemma LinesLine(s: string)
    requires CutLine(s).Cut?
    ensures Lines(s) == [CutLine(s).line + "\n"] + Lines(CutLine(s).rest)
    ensures Finished(s).0 == [CutLine(s).line + "\n"] + Finished(CutLine(s).rest).0
    ensures Finished(s).1 == Finished(CutLine(s).rest).1
  {
  }

  lemma JoinLines(a: seq<string>, b: seq<string>, c: seq<string>)
    ensures a + (b + c) == (a + b) + c
  {
  }

  lemma {:induction false} LinesOfMore(s: string, t: string)
    ensures Lines(s + t) == Finished(s).0 + Lines(Finished(s).1 + t)
    decreases |s|
  {
    match CutLine(s)
    case NoNewline => assert [] + Lines(s + t) == Lines(s + t);
    case Cut(line, rest) =>
      CutLineGrows(s, t);
      LinesLine(s);
      LinesLine(s + t);
      LinesOfMore(rest, t);
      JoinLines([line + "\n"], Finished(rest).0, Lines(Finished(rest).1 + t));
  }

  /** UTF-8 length of one character. */
  function Utf8Len(c: char): nat {
    if c < '\U{80}' then 1 else if c < '\U{800}' then 2 else if c < '\U{10000}' then 3 else 4
  }

  function Size(s: string): nat {
    if s == "" then 0 else Utf8Len(s[0]) + Size(s[1..])
  }

  lemma {:induction false} SizeAdds(a: string, b: string)
    ensures Size(a + b) == Size(a) + Size(b)
  {
    if a == "" {
      assert a + b == b;
    } else {
      assert (a + b)[1..] == a[1..] + b;
      SizeAdds(a[1..], b);
    }
  }

  const MAX_SEAT_OUTPUT_BYTES: nat := 8 * 1024 * 1024

  /** One byte budget for both pipes. */
  class OutputCapture {
    var bytes: nat
    var exceeded: bool
    var cancelled: bool
    var lines: seq<Option<string>>
    /** The bytes of the chunks that were let through. */
    ghost var accepted: nat

    ghost predicate Valid()
      reads this
    {
      && accepted <= MAX_SEAT_OUTPUT_BYTES && accepted <= bytes
      && (!cancelled ==> accepted == bytes && !exceeded)
    }

    constructor ()
      ensures Valid() && !cancelled && lines == [] && accepted == 0
    {
      bytes, exceeded, cancelled, lines, accepted := 0, false, false, [], 0;
    }

    /** Counts a chunk; past the budget, or once cancelled, it refuses, and every later chunk is refused. */
    method Consume(text: string) returns (ok: bool)
      requires Valid()
      modifies this
      ensures Valid()
      ensures ok <==> !old(cancelled) && old(accepted) + Size(text) <= MAX_SEAT_OUTPUT_BYTES
      ensures accepted == old(accepted) + (if ok then Size(text) else 0)
      ensures cancelled == !ok && bytes == old(bytes) + Size(text)
      ensures lines == old(lines) || (!ok && lines == old(lines) + [None])
      ensures exceeded <==> old(exceeded) || bytes > MAX_SEAT_OUTPUT_BYTES
    {
      bytes := bytes + Size(text);
      if bytes <= MAX_SEAT_OUTPUT_BYTES && !cancelled {
        accepted := accepted + Size(text);
        return true;
      }
      if bytes > MAX_SEAT_OUTPUT_BYTES { exceeded := true; }
      cancelled := true;
      var full: bool := *;
      if !full { lines := lines + [None]; }
      return false;
    }

    /** Puts a line on the queue, unless the capture was cancelled. */
    method Put(line: Option<string>)
      modifies this`lines
      ensures lines == if cancelled then old(lines) else old(lines) + [line]
    {
      if !cancelled { lines := lines + [line]; }
    }
  }

  /** Lines as the queue holds them. */
  function Queued(lines: seq<string>): seq<Option<string>> {
    if lines == [] then [] else [Some(lines[0])] + Queued(lines[1..])
  }

  lemma {:induction false} QueuedAdds(a: seq<string>, b: seq<string>)
    ensures Queued(a + b) == Queued(a) + Queued(b)
  {
    if a == [] {
      assert a + b == b && [] + Queued(b) == Queued(b);
    } else {
      assert (a + b)[1..] == a[1..] + b;
      QueuedAdds(a[1..], b);
      assert [Some(a[0])] + (Queued(a[1..]) + Queued(b)) == ([Some(a[0])] + Queued(a[1..])) + Queued(b);
    }
  }

  lemma QueueStep(lines: seq<Option<string>>, line: string, more: seq<string>)
    ensures (lines + [Some(line)]) + Queued(more) == lines + Queued([line] + more)
  {
  }

  method PutLines(capture: OutputCapture, text: string) returns (rest: string)
    requires !capture.cancelled
    modifies capture`lines
    ensures rest == Finished(text).1
    ensures capture.lines == old(capture.lines) + Queued(Finished(text).0)
  {
    rest := text;
    while CutLine(rest).Cut?
      invariant capture.lines + Queued(Finished(rest).0) == old(capture.lines) + Queued(Finished(text).0)
      invariant Finished(text).1 == Finished(rest).1
      decreases |rest|
    {
      var Cut(line, more) := CutLine(rest);
      LinesLine(rest);
      QueueStep(capture.lines, line + "\n", Finished(more).0);
      capture.Put(Some(line + "\n"));
      rest := more;
    }
    assert capture.lines + [] == capture.lines;
  }

  lemma ConcatStep(chunks: seq<string>, i: nat)
    requires i < |chunks|
    ensures Concat(chunks[..i + 1]) == Concat(chunks[..i]) + chunks[i]
  {
    assert chunks[..i + 1] == chunks[..i] + [chunks[i]];
    ConcatOne(chunks[..i], chunks[i]);
  }

  lemma {:induction false} FinishedOfMore(s: string, t: string)
    ensures Finished(s + t).0 == Finished(s).0 + Finished(Finished(s).1 + t).0
    ensures Finished(s + t).1 == Finished(Finished(s).1 + t).1
    decreases |s|
  {
    match CutLine(s)
    case NoNewline => assert [] + Finished(s + t).0 == Finished(s + t).0;
    case Cut(line, rest) =>
      CutLineGrows(s, t);
      LinesLine(s);
      LinesLine(s + t);
      FinishedOfMore(rest, t);
      JoinLines([line + "\n"], Finished(rest).0, Finished(Finished(rest).1 + t).0);
  }

  lemma LinesFinish(s: string)
    ensures Lines(s) == Finished(s).0 + (if Finished(s).1 == "" then [] else [Finished(s).1])
  {
    assert s + "" == s && Finished(s).1 + "" == Finished(s).1;
    LinesOfMore(s, "");
    NothingFinished(s);
  }

  lemma {:induction false} NothingFinished(s: string)
    ensures CutLine(Finished(s).1).NoNewline?
    decreases |s|
  {
    if CutLine(s).Cut? { NothingFinished(CutLine(s).rest); }
  }

  /** Drains one pipe while nobody else cancels. All that is queued depends on the text alone, never on how
      it was cut into chunks; past the budget the reader stops at a chunk boundary. */
  method DrainLines(chunks: seq<string>, capture: OutputCapture) returns (all: bool)
    requires capture.Valid() && !capture.cancelled
    modifies capture
    ensures capture.Valid()
    ensures all <==> old(capture.accepted) + Size(Concat(chunks)) <= MAX_SEAT_OUTPUT_BYTES
    ensures all ==> capture.lines == old(capture.lines) + Queued(Lines(Concat(chunks))) + [None]
    ensures all ==> capture.accepted == old(capture.accepted) + Size(Concat(chunks))
    ensures !all ==> capture.exceeded && capture.cancelled
  {
    var pending := "";
    all := true;
    assert chunks[..0] == [] && old(capture.lines) + [] == old(capture.lines);
    var i := 0;
    while i < |chunks|
      invariant i <= |chunks| && capture.Valid() && !capture.cancelled
      invariant capture.accepted == old(capture.accepted) + Size(Concat(chunks[..i]))
      invariant pending == Finished(Concat(chunks[..i])).1
      invariant capture.lines == old(capture.lines) + Queued(Finished(Concat(chunks[..i])).0)
    {
      ghost var done := Concat(chunks[..i]);
      ConcatStep(chunks, i);
      SizeAdds(done, chunks[i]);
      var ok := capture.Consume(chunks[i]);
      if !ok {
        PrefixIsSmaller(chunks, i + 1);
        return false;
      }
      ghost var queue := capture.lines;
      FinishedOfMore(done, chunks[i]);
      pending := PutLines(capture, pending + chunks[i]);
      QueuedAdds(Finished(done).0, Finished(Finished(done).1 + chunks[i]).0);
      QueueJoin(old(capture.lines), Queued(Finished(done).0), Queued(Finished(Finished(done).1 + chunks[i]).0));
      i := i + 1;
    }
    assert chunks[..i] == chunks;
    LinesFinish(Concat(chunks));
    if pending != "" {
      capture.Put(Some(pending));
      QueuedAdds(Finished(Concat(chunks)).0, [pending]);
      QueueJoin(old(capture.lines), Queued(Finished(Concat(chunks)).0), [Some(pending)]);
      assert Queued([pending]) == [Some(pending)];
    } else {
      assert Finished(Concat(chunks)).0 + [] == Finished(Concat(chunks)).0;
    }
    capture.Put(None);
  }

  lemma QueueJoin(a: seq<Option<string>>, b: seq<Option<string>>, c: seq<Option<string>>)
    ensures (a + b) + c == a + (b + c)
  {
  }

  lemma {:induction false} PrefixIsSmaller(chunks: seq<string>, i: nat)
    requires i <= |chunks|
    ensures Size(Concat(chunks[..i])) <= Size(Concat(chunks))
    decreases |chunks| - i
  {
    if i == |chunks| {
      assert chunks[..i] == chunks;
    } else {
      ConcatStep(chunks, i);
      SizeAdds(Concat(chunks[..i]), chunks[i]);
      PrefixIsSmaller(chunks, i + 1);
    }
  }

  /** Chunks of both pipes, in the order they come in: which are let through, and how many bytes. */
  function LetThrough(chunks: seq<string>, used: nat, cancelled: bool): (seq<bool>, nat) {
    if chunks == [] then ([], used)
    else
      var ok := !cancelled && used + Size(chunks[0]) <= MAX_SEAT_OUTPUT_BYTES;
      var (rest, total) := LetThrough(chunks[1..], if ok then used + Size(chunks[0]) else used, !ok);
      ([ok] + rest, total)
  }

  method ConsumeAll(chunks: seq<string>, capture: OutputCapture) returns (oks: seq<bool>)
    requires capture.Valid()
    modifies capture
    ensures capture.Valid()
    ensures (oks, capture.accepted) == LetThrough(chunks, old(capture.accepted), old(capture.cancelled))
  {
    oks := [];
    var i := 0;
    ghost var spec := LetThrough(chunks, capture.accepted, capture.cancelled);
    assert chunks[0..] == chunks && [] + spec.0 == spec.0;
    while i < |chunks|
      invariant i <= |chunks| && capture.Valid()
      invariant spec == (oks + LetThrough(chunks[i..], capture.accepted, capture.cancelled).0,
                         LetThrough(chunks[i..], capture.accepted, capture.cancelled).1)
    {
      assert chunks[i..][1..] == chunks[i + 1..];
      ghost var used, cancelled := capture.accepted, capture.cancelled;
      var ok := capture.Consume(chunks[i]);
      ghost var more := LetThrough(chunks[i + 1..], capture.accepted, capture.cancelled).0;
      assert LetThrough(chunks[i..], used, cancelled).0 == [ok] + more;
      assert oks + ([ok] + more) == (oks + [ok]) + more;
      oks := oks + [ok];
      i := i + 1;
    }
    assert chunks[i..] == [] && oks + [] == oks;
  }

  /** However the two pipes interleave: what is let through is a prefix, within the budget, and the first
      refused chunk is the first that would not fit. */
  lemma {:induction false} BudgetHolds(chunks: seq<string>, used: nat) returns (n: nat)
    requires used <= MAX_SEAT_OUTPUT_BYTES
    ensures var (oks, total) := LetThrough(chunks, used, false);
            && n <= |chunks| == |oks| && (forall i | 0 <= i < |oks| :: oks[i] <==> i < n)
            && total == used + Size(Concat(chunks[..n])) <= MAX_SEAT_OUTPUT_BYTES
            && (n < |chunks| ==> total + Size(chunks[n]) > MAX_SEAT_OUTPUT_BYTES)
  {
    if chunks == [] {
      n := 0;
    } else if used + Size(chunks[0]) > MAX_SEAT_OUTPUT_BYTES {
      n := 0;
      RefusedForGood(chunks[1..], used);
      assert chunks[..0] == [];
    } else {
      var m := BudgetHolds(chunks[1..], used + Size(chunks[0]));
      n := m + 1;
      assert chunks[..n][1..] == chunks[1..][..m];
      SizeAdds(chunks[0], Concat(chunks[1..][..m]));
    }
  }

  lemma {:induction false} RefusedForGood(chunks: seq<string>, used: nat)
    ensures var (oks, total) := LetThrough(chunks, used, true);
            |oks| == |chunks| && total == used && forall i | 0 <= i < |oks| :: !oks[i]
  {
    if chunks != [] { RefusedForGood(chunks[1..], used); }
  }

  // ---- both pipes at once ------------------------------------------------------------------------

  /** One step of either reader: stdout's takes a chunk or puts a line, stderr's takes a chunk. */
  datatype Turn = OutChunk(text: string) | OutLine | ErrChunk(text: string)

  /** What a turn takes from stdout, or from stderr. */
  function Taken(turn: Turn, out: bool): string {
    if turn.OutLine? || turn.OutChunk? != out then "" else turn.text
  }

  function TakenAll(turns: seq<Turn>, out: bool): string {
    if turns == [] then "" else Taken(turns[0], out) + TakenAll(turns[1..], out)
  }

  function OutText(turns: seq<Turn>): string { TakenAll(turns, true) }
  function ErrText(turns: seq<Turn>): string { TakenAll(turns, false) }

  lemma JoinTexts(a: string, b: string, c: string)
    ensures a + (b + c) == (a + b) + c && "" + c == c && c + "" == c
  {
  }

  lemma {:induction false} TakenOfMore(turns: seq<Turn>, turn: Turn, out: bool)
    ensures TakenAll(turns + [turn], out) == TakenAll(turns, out) + Taken(turn, out)
  {
    JoinTexts("", "", Taken(turn, out));
    if turns == [] {
      assert [] + [turn] == [turn] && [turn][1..] == [];
    } else {
      assert (turns + [turn])[1..] == turns[1..] + [turn];
      TakenOfMore(turns[1..], turn, out);
      JoinTexts(Taken(turns[0], out), TakenAll(turns[1..], out), Taken(turn, out));
    }
  }

  function Used(turns: seq<Turn>): nat {
    Size(OutText(turns)) + Size(ErrText(turns))
  }

  /** The texts and the bytes up to a turn and through it. */
  lemma OneTurn(turns: seq<Turn>, i: nat)
    requires i < |turns|
    ensures OutText(turns[..i + 1]) == OutText(turns[..i]) + Taken(turns[i], true)
    ensures ErrText(turns[..i + 1]) == ErrText(turns[..i]) + Taken(turns[i], false)
    ensures Used(turns[..i + 1]) == Used(turns[..i]) + Size(Taken(turns[i], true)) + Size(Taken(turns[i], false))
  {
    assert turns[..i + 1] == turns[..i] + [turns[i]];
    TakenOfMore(turns[..i], turns[i], true);
    TakenOfMore(turns[..i], turns[i], false);
    SizeAdds(OutText(turns[..i]), Taken(turns[i], true));
    SizeAdds(ErrText(turns[..i]), Taken(turns[i], false));
  }

  lemma {:induction false} UsedInAll(turns: seq<Turn>, i: nat)
    requires i <= |turns|
    ensures Used(turns[..i]) <= Used(turns)
    decreases |turns| - i
  {
    if i == |turns| {
      assert turns[..i] == turns;
    } else {
      OneTurn(turns, i);
      UsedInAll(turns, i + 1);
    }
  }

  /** What is queued, and what stdout's reader still holds, make up the lines of `text`. */
  ghost predicate Queues(queue: seq<Option<string>>, before: seq<Option<string>>, pending: string, text: string) {
    && queue + Queued(Finished(pending).0) == before + Queued(Finished(text).0)
    && Finished(pending).1 == Finished(text).1
  }

  lemma QueuesChunk(queue: seq<Option<string>>, before: seq<Option<string>>, pending: string, text: string,
                    chunk: string)
    requires Queues(queue, before, pending, text)
    ensures Queues(queue, before, pending + chunk, text + chunk)
  {
    FinishedOfMore(pending, chunk);
    FinishedOfMore(text, chunk);
    var more := Finished(Finished(text).1 + chunk).0;
    QueuedAdds(Finished(pending).0, more);
    QueuedAdds(Finished(text).0, more);
    QueueJoin(queue, Queued(Finished(pending).0), Queued(more));
    QueueJoin(before, Queued(Finished(text).0), Queued(more));
  }

  lemma QueuesLine(queue: seq<Option<string>>, before: seq<Option<string>>, pending: string, text: string)
    requires Queues(queue, before, pending, text) && CutLine(pending).Cut?
    ensures Queues(queue + [Some(CutLine(pending).line + "\n")], before, CutLine(pending).rest, text)
  {
    LinesLine(pending);
    QueueStep(queue, CutLine(pending).line + "\n", Finished(CutLine(pending).rest).0);
  }

  /** One turn of either reader; `text` is what stdout's has taken before. */
  method TakeTurn(turn: Turn, capture: OutputCapture, pending: string, sink: string,
                  ghost before: seq<Option<string>>, ghost text: string)
    returns (ok: bool, pending': string, sink': string)
    requires capture.Valid() && !capture.cancelled && Queues(capture.lines, before, pending, text)
    modifies capture
    ensures capture.Valid() && capture.cancelled == !ok && (!ok ==> capture.exceeded)
    ensures var size := Size(Taken(turn, true)) + Size(Taken(turn, false));
            && (ok <==> old(capture.accepted) + size <= MAX_SEAT_OUTPUT_BYTES)
            && (ok ==> capture.accepted == old(capture.accepted) + size)
    ensures ok ==> Queues(capture.lines, before, pending', text + Taken(turn, true))
    ensures ok ==> sink' == sink + Taken(turn, false)
  {
    ok, pending', sink' := true, pending, sink;
    JoinTexts("", "", text);
    JoinTexts("", "", sink);
    match turn
    case OutLine =>
      if CutLine(pending).Cut? {
        QueuesLine(capture.lines, before, pending, text);
        capture.Put(Some(CutLine(pending).line + "\n"));
        pending' := CutLine(pending).rest;
      }
    case OutChunk(chunk) =>
      QueuesChunk(capture.lines, before, pending, text, chunk);
      ok := capture.Consume(chunk);
      pending' := pending + chunk;
    case ErrChunk(chunk) =>
      ok := capture.Consume(chunk);
      sink' := sink + chunk;
  }

  /** What both readers have taken with the first `i` turns. */
  ghost predicate TakenBy(turns: seq<Turn>, i: nat, text: string, sink: string, used: nat) {
    i <= |turns| && text == OutText(turns[..i]) && sink == ErrText(turns[..i]) && used == Used(turns[..i])
  }

  lemma TakenByNone(turns: seq<Turn>)
    ensures TakenBy(turns, 0, "", "", 0)
  {
    assert turns[..0] == [];
  }

  lemma TakenByMore(turns: seq<Turn>, i: nat, text: string, sink: string, used: nat)
    requires i < |turns| && TakenBy(turns, i, text, sink, used)
    ensures var more := used + Size(Taken(turns[i], true)) + Size(Taken(turns[i], false));
            && TakenBy(turns, i + 1, text + Taken(turns[i], true), sink + Taken(turns[i], false), more)
            && more <= Used(turns)
  {
    OneTurn(turns, i);
    UsedInAll(turns, i + 1);
  }

  lemma TakenByAll(turns: seq<Turn>, text: string, sink: string, used: nat)
    requires TakenBy(turns, |turns|, text, sink, used)
    ensures text == OutText(turns) && sink == ErrText(turns) && used == Used(turns)
  {
    assert turns[..|turns|] == turns;
  }

  /** Both readers on one capture, their steps in any order; stdout's reader ends by putting what it still
      holds. Within the budget the queue depends on stdout's text alone, and what stderr's reader keeps on
      stderr's; past it the first refusal stops the capture. */
  method DrainPipes(turns: seq<Turn>, capture: OutputCapture) returns (all: bool, sink: string)
    requires capture.Valid() && !capture.cancelled
    modifies capture
    ensures capture.Valid()
    ensures all <==> old(capture.accepted) + Used(turns) <= MAX_SEAT_OUTPUT_BYTES
    ensures all ==> capture.lines == old(capture.lines) + Queued(Lines(OutText(turns))) + [None]
    ensures all ==> sink == ErrText(turns)
    ensures !all ==> capture.exceeded && capture.cancelled
  {
    var pending := "";
    sink, all := "", true;
    ghost var text, used: nat := "", 0;
    TakenByNone(turns);
    assert capture.lines + [] == capture.lines;
    var i := 0;
    while i < |turns|
      invariant TakenBy(turns, i, text, sink, used)
      invariant capture.Valid() && !capture.cancelled && capture.accepted == old(capture.accepted) + used
      invariant Queues(capture.lines, old(capture.lines), pending, text)
    {
      TakenByMore(turns, i, text, sink, used);
      all, pending, sink := TakeTurn(turns[i], capture, pending, sink, old(capture.lines), text);
      if !all { return; }
      text, used := text + Taken(turns[i], true), used + Size(Taken(turns[i], true)) + Size(Taken(turns[i], false));
      i := i + 1;
    }
    TakenByAll(turns, text, sink, used);
    PutRest(capture, pending, old(capture.lines), OutText(turns));
  }

  /** The end of stdout's reader. */
  method PutRest(capture: OutputCapture, pending: string, ghost before: seq<Option<string>>, ghost text: string)
    requires capture.Valid() && !capture.cancelled && Queues(capture.lines, before, pending, text)
    modifies capture`lines
    ensures capture.lines == before + Queued(Lines(text)) + [None]
  {
    var last := PutLines(capture, pending);
    LinesFinish(text);
    if last != "" {
      ghost var queue := capture.lines;
      capture.Put(Some(last));
      QueuedAdds(Finished(text).0, [last]);
      QueueJoin(before, Queued(Finished(text).0), [Some(last)]);
      assert Queued([last]) == [Some(last)];
    } else {
      assert Finished(text).0 + [] == Finished(text).0;
    }
    capture.Put(None);
  }

  /** Two captures of the same two texts, cut and interleaved differently: the consumer sees the same lines
      and the same stderr. */
  method DrainTwice(a: seq<Turn>, b: seq<Turn>)
    returns (lines: seq<Option<string>>, lines': seq<Option<string>>, sink: string, sink': string)
    requires OutText(a) == OutText(b) && ErrText(a) == ErrText(b) && Used(a) <= MAX_SEAT_OUTPUT_BYTES
    ensures lines == lines' && sink == sink'
  {
    var one := new OutputCapture();
    var two := new OutputCapture();
    var all, all';
    all, sink := DrainPipes(a, one);
    all', sink' := DrainPipes(b, two);
    lines, lines' := one.lines, two.lines;
  }

  /** The queue holds the text, all of it and nothing else. */
  lemma QueueIsTheText(text: string)
    ensures Concat(Lines(text)) == text && AreLines(Lines(text))
  {
    LinesConcat(text);
    LinesAreLines(text);
  }

  // ---- the reply out of a frame ------------------------------------------------------------------

  /** What a frame's JSON is, as far as the reader looks: unreadable, or not JSON-RPC 2.0, or its id
      (when it is an integer), whether it names a method, and its result and error (objects or not). */
  datatype Frame =
    | Unreadable
    | NotRpc
    | Rpc(method_: bool, id: Option<int>, result: Option<bool>, error: Option<bool>, raw: string)

  datatype Verdict = Bad(message: string) | Skip | Reply(frame: Frame)

  /** The reply to `rid` out of one frame, or nothing, or a protocol error. */
  function MatchingReply(f: Frame, rid: int): Verdict {
    if f.Unreadable? then Bad("invalid JSON response")
    else if f.NotRpc? then Bad("invalid JSON-RPC response")
    else if f.method_ || f.id != Some(rid) then Skip
    else if f.result.Some? == f.error.Some? then Bad("response needs exactly one result or error")
    else if !(if f.result.Some? then f.result.value else f.error.value) then Bad("response must be an object")
    else Reply(f)
  }

  // ---- the event stream reader -----------------------------------------------------------------------

  /** What the reader ends with. */
  datatype End = Found(frame: Frame) | Failed(message: string)

  function TrimReturns(line: string): string {
    if line != "" && line[|line| - 1] == '\r' then TrimReturns(line[..|line| - 1]) else line
  }

  function TrimSpaces(s: string): string {
    if s != "" && s[0] == ' ' then TrimSpaces(s[1..]) else s
  }

  predicate IsData(line: string) {
    |line| >= 5 && line[0] == 'd' && line[1] == 'a' && line[2] == 't' && line[3] == 'a' && line[4] == ':'
  }

  function Joined(event: seq<string>): string {
    if event == [] then "" else if |event| == 1 then event[0] else event[0] + "\n" + Joined(event[1..])
  }

  /** One line of the stream: it adds to the event, or closes it. */
  datatype LineTurn = GoOn(event: seq<string>) | Stop(end: End)

  function OneLine(parse: string -> Frame, rid: int, line: string, event: seq<string>): LineTurn {
    var l := TrimReturns(line);
    if IsData(l) then GoOn(event + [TrimSpaces(l[5..])])
    else if l == "" && event != [] then
      match MatchingReply(parse(Joined(event)), rid)
      case Bad(m) => Stop(Failed(m))
      case Skip => GoOn([])
      case Reply(f) => Stop(Found(f))
    else GoOn(event)
  }

  /** The end of the stream: an open event still counts, an unfinished line does not. */
  function AtEnd(parse: string -> Frame, rid: int, event: seq<string>): End {
    if event == [] then Failed("HTTP stream closed before a matching response")
    else
      match MatchingReply(parse(Joined(event)), rid)
      case Bad(m) => Failed(m)
      case Skip => Failed("HTTP stream closed before a matching response")
      case Reply(f) => Found(f)
  }

  /** What the whole stream's text answers. */
  function StreamReply(parse: string -> Frame, rid: int, s: string, event: seq<string>): End
    decreases |s|
  {
    match CutLine(s)
    case NoNewline => AtEnd(parse, rid, event)
    case Cut(line, rest) =>
      match OneLine(parse, rid, line, event)
      case Stop(end) => end
      case GoOn(event') => StreamReply(parse, rid, rest, event')
  }

  /** The lines of one buffer; `done` when one of them ends the reading. */
  method ReadLines(parse: string -> Frame, rid: int, pending: string, event: seq<string>, ghost rest: string)
    returns (done: bool, end: End, pending': string, event': seq<string>)
    ensures done ==> end == StreamReply(parse, rid, pending + rest, event)
    ensures !done ==> StreamReply(parse, rid, pending' + rest, event') == StreamReply(parse, rid, pending + rest, event)
    ensures !done ==> CutLine(pending').NoNewline?
  {
    done, end, pending', event' := false, Failed(""), pending, event;
    while CutLine(pending').Cut?
      invariant StreamReply(parse, rid, pending' + rest, event') == StreamReply(parse, rid, pending + rest, event)
      decreases |pending'|
    {
      var Cut(line, more) := CutLine(pending');
      CutLineGrows(pending', rest);
      match OneLine(parse, rid, line, event') {
        case Stop(e) => return true, e, pending', event';
        case GoOn(next) => pending', event' := more, next;
      }
    }
  }

  lemma TakeChunk(parse: string -> Frame, rid: int, pending: string, chunks: seq<string>, i: nat, event: seq<string>)
    requires i < |chunks|
    ensures StreamReply(parse, rid, pending + Concat(chunks[i..]), event)
         == StreamReply(parse, rid, (pending + chunks[i]) + Concat(chunks[i + 1..]), event)
    ensures |Concat(chunks[i..])| == |chunks[i]| + |Concat(chunks[i + 1..])|
  {
    assert chunks[i..][1..] == chunks[i + 1..];
    assert pending + (chunks[i] + Concat(chunks[i + 1..])) == (pending + chunks[i]) + Concat(chunks[i + 1..]);
  }

  lemma StreamEnds(parse: string -> Frame, rid: int, pending: string, event: seq<string>)
    requires CutLine(pending).NoNewline?
    ensures StreamReply(parse, rid, pending + "", event) == AtEnd(parse, rid, event)
  {
  }

  lemma StreamBegins(parse: string -> Frame, rid: int, chunks: seq<string>)
    ensures StreamReply(parse, rid, "" + Concat(chunks[0..]), []) == StreamReply(parse, rid, Concat(chunks), [])
    ensures |Concat(chunks[0..])| == |Concat(chunks)|
  {
    assert chunks[0..] == chunks && "" + Concat(chunks) == Concat(chunks);
  }

  /** The reader: non-empty chunks as the connection gives them, then its end. */
  method ReadStream(parse: string -> Frame, rid: int, chunks: seq<string>, limit: nat) returns (end: End)
    ensures |Concat(chunks)| <= limit ==> end == StreamReply(parse, rid, Concat(chunks), [])
    ensures end == StreamReply(parse, rid, Concat(chunks), []) || end == Failed("response exceeds output limit")
  {
    var pending, event, received := "", [], 0;
    var i := 0;
    ghost var whole := StreamReply(parse, rid, Concat(chunks), []);
    ghost var size := |Concat(chunks)|;
    StreamBegins(parse, rid, chunks);
    while i < |chunks|
      invariant i <= |chunks| && received + |Concat(chunks[i..])| == size
      invariant StreamReply(parse, rid, pending + Concat(chunks[i..]), event) == whole
      invariant CutLine(pending).NoNewline?
    {
      TakeChunk(parse, rid, pending, chunks, i, event);
      received := received + |chunks[i]|;
      if received > limit { return Failed("response exceeds output limit"); }
      var done;
      done, end, pending, event := ReadLines(parse, rid, pending + chunks[i], event, Concat(chunks[i + 1..]));
      if done { return; }
      i := i + 1;
    }
    assert Concat(chunks[i..]) == "";
    StreamEnds(parse, rid, pending, event);
    end := AtEnd(parse, rid, event);
  }

  // ---- against the events a server sends ------------------------------------------------------------------

  /** A line of the stream: a payload line behind its field name, or any other field or a comment. */
  datatype StreamLine = Data(text: string) | Other(text: string)

  /** Carriage returns in front of a newline belong to the line end, and spaces behind the colon are layout. */
  predicate LineOk(l: StreamLine) {
    '\n' !in l.text && (l.Other? ==> TrimReturns(l.text) != "" && !IsData(TrimReturns(l.text)))
  }

  predicate LinesOk(lines: seq<StreamLine>) {
    forall i | 0 <= i < |lines| :: LineOk(lines[i])
  }

  /** Some lines, and the blank line that closes them: so many carriage returns and a newline. */
  datatype Event = Event(lines: seq<StreamLine>, crs: nat)

  predicate EventsOk(events: seq<Event>) {
    forall i | 0 <= i < |events| :: LinesOk(events[i].lines)
  }

  /** What a line adds to the payload of its event. */
  function Adds(l: StreamLine): seq<string> {
    if l.Data? then [TrimSpaces(TrimReturns(l.text))] else []
  }

  function Payload(lines: seq<StreamLine>): seq<string> {
    if lines == [] then [] else Adds(lines[0]) + Payload(lines[1..])
  }

  function Returns(n: nat): string {
    if n == 0 then "" else Returns(n - 1) + "\r"
  }

  function LineText(l: StreamLine): string {
    if l.Data? then "data:" + l.text else l.text
  }

  function PrintLines(lines: seq<StreamLine>, k: string): string {
    if lines == [] then k else LineText(lines[0]) + ("\n" + PrintLines(lines[1..], k))
  }

  function PrintEvents(events: seq<Event>, k: string): string {
    if events == [] then k
    else PrintLines(events[0].lines, Returns(events[0].crs) + ("\n" + PrintEvents(events[1..], k)))
  }

  /** The payloads of the events that have one, in order; the stream's end closes the last. */
  function Payloads(events: seq<Event>, last: seq<StreamLine>): seq<seq<string>> {
    if events == [] then (if Payload(last) == [] then [] else [Payload(last)])
    else (if Payload(events[0].lines) == [] then [] else [Payload(events[0].lines)]) + Payloads(events[1..], last)
  }

  /** The first payload that settles the request, judged one by one. */
  function FirstReply(parse: string -> Frame, rid: int, payloads: seq<seq<string>>): End {
    if payloads == [] then Failed("HTTP stream closed before a matching response")
    else
      match MatchingReply(parse(Joined(payloads[0])), rid)
      case Bad(m) => Failed(m)
      case Skip => FirstReply(parse, rid, payloads[1..])
      case Reply(f) => Found(f)
  }

  lemma {:induction false} TrimsBehind(front: string, s: string)
    requires front != "" && front[|front| - 1] != '\r'
    ensures TrimReturns(front + s) == front + TrimReturns(s)
    decreases |s|
  {
    var t := front + s;
    if s == "" {
      assert t == front && front + "" == front;
    } else if s[|s| - 1] == '\r' {
      assert t[..|t| - 1] == front + s[..|s| - 1];
      TrimsBehind(front, s[..|s| - 1]);
    }
  }

  lemma {:induction false} ReturnsAreTrimmed(n: nat)
    ensures TrimReturns(Returns(n)) == "" && '\n' !in Returns(n)
  {
    if n > 0 {
      ReturnsAreTrimmed(n - 1);
      assert Returns(n)[..|Returns(n)| - 1] == Returns(n - 1);
    }
  }

  lemma OneLineOf(parse: string -> Frame, rid: int, line: StreamLine, event: seq<string>)
    requires LineOk(line)
    ensures OneLine(parse, rid, LineText(line), event) == GoOn(event + Adds(line))
  {
    if line.Data? {
      TrimsBehind("data:", line.text);
      var t := TrimReturns(line.text);
      assert ("data:" + t)[5..] == t;
    } else {
      assert event + [] == event;
    }
  }

  /** One line is added to the open event, or passed over. */
  lemma ReadsLine(parse: string -> Frame, rid: int, line: StreamLine, more: string, event: seq<string>)
    requires LineOk(line)
    ensures StreamReply(parse, rid, LineText(line) + ("\n" + more), event)
         == StreamReply(parse, rid, more, event + Adds(line))
  {
    OneLineOf(parse, rid, line, event);
    CutLineAt(LineText(line), more);
  }

  lemma {:induction false} ReadsLines(parse: string -> Frame, rid: int, lines: seq<StreamLine>, k: string,
                                      event: seq<string>)
    requires LinesOk(lines)
    ensures StreamReply(parse, rid, PrintLines(lines, k), event) == StreamReply(parse, rid, k, event + Payload(lines))
    decreases |lines|
  {
    if lines == [] {
      assert event + [] == event;
    } else {
      ReadsLine(parse, rid, lines[0], PrintLines(lines[1..], k), event);
      ReadsLines(parse, rid, lines[1..], k, event + Adds(lines[0]));
      JoinLines(event, Adds(lines[0]), Payload(lines[1..]));
    }
  }

  /** The blank line settles the open event. */
  lemma ReadsBlank(parse: string -> Frame, rid: int, crs: nat, more: string, event: seq<string>)
    ensures StreamReply(parse, rid, Returns(crs) + ("\n" + more), event)
         == if event == [] then StreamReply(parse, rid, more, [])
            else match MatchingReply(parse(Joined(event)), rid)
                 case Bad(m) => Failed(m)
                 case Skip => StreamReply(parse, rid, more, [])
                 case Reply(f) => Found(f)
  {
    ReturnsAreTrimmed(crs);
    CutLineAt(Returns(crs), more);
  }

  /** Any stream of events, with other fields and comments, either line end, an event that only the stream's
      end closes and an unfinished last line: the reader judges payload by payload, in order. */
  lemma {:induction false} EventsAreRead(parse: string -> Frame, rid: int, events: seq<Event>, last: seq<StreamLine>,
                                         unfinished: string)
    requires EventsOk(events) && LinesOk(last) && '\n' !in unfinished
    ensures StreamReply(parse, rid, PrintEvents(events, PrintLines(last, unfinished)), [])
         == FirstReply(parse, rid, Payloads(events, last))
    decreases |events|
  {
    var k := PrintLines(last, unfinished);
    if events == [] {
      ReadsLines(parse, rid, last, unfinished, []);
      assert [] + Payload(last) == Payload(last);
      EndReply(parse, rid, Payload(last));
    } else {
      var lines, rest := events[0].lines, PrintEvents(events[1..], k);
      ReadsLines(parse, rid, lines, Returns(events[0].crs) + ("\n" + rest), []);
      assert [] + Payload(lines) == Payload(lines);
      ReadsBlank(parse, rid, events[0].crs, rest, Payload(lines));
      EventsAreRead(parse, rid, events[1..], last, unfinished);
      FirstOfPayloads(parse, rid, Payload(lines), Payloads(events[1..], last));
    }
  }

  lemma EndReply(parse: string -> Frame, rid: int, event: seq<string>)
    ensures AtEnd(parse, rid, event) == FirstReply(parse, rid, if event == [] then [] else [event])
  {
    if event != [] { assert [event][1..] == []; }
  }

  lemma FirstOfPayloads(parse: string -> Frame, rid: int, event: seq<string>, more: seq<seq<string>>)
    ensures FirstReply(parse, rid, (if event == [] then [] else [event]) + more)
         == if event == [] then FirstReply(parse, rid, more)
            else match MatchingReply(parse(Joined(event)), rid)
                 case Bad(m) => Failed(m)
                 case Skip => FirstReply(parse, rid, more)
                 case Reply(f) => Found(f)
  {
    if event == [] { assert [] + more == more; } else { assert ([event] + more)[1..] == more; }
  }

  /** Answers this request, with one object: a result or an error. */
  predicate Answers(f: Frame, rid: int) {
    && f.Rpc? && !f.method_ && f.id == Some(rid)
    && ((f.result == Some(true) && f.error.None?) || (f.error == Some(true) && f.result.None?))
  }

  /** Meant for somebody else: a notification, a request of the server's own, or another request's reply. */
  predicate Foreign(f: Frame, rid: int) {
    f.Rpc? && (f.method_ || f.id != Some(rid))
  }

  predicate AllForeign(parse: string -> Frame, rid: int, payloads: seq<seq<string>>) {
    forall j | 0 <= j < |payloads| :: Foreign(parse(Joined(payloads[j])), rid)
  }

  /** The first payload that is not meant for somebody else decides: a frame is found exactly when that one
      answers, and then it is that frame. */
  lemma {:induction false} FirstAnswerWins(parse: string -> Frame, rid: int, payloads: seq<seq<string>>)
    returns (n: nat)
    ensures n <= |payloads| && AllForeign(parse, rid, payloads[..n])
    ensures n < |payloads| ==> !Foreign(parse(Joined(payloads[n])), rid)
    ensures FirstReply(parse, rid, payloads).Found? <==>
              n < |payloads| && Answers(parse(Joined(payloads[n])), rid)
    ensures FirstReply(parse, rid, payloads).Found? ==>
              FirstReply(parse, rid, payloads).frame == parse(Joined(payloads[n]))
    decreases |payloads|
  {
    n := 0;
    if payloads != [] && Foreign(parse(Joined(payloads[0])), rid) {
      var m := FirstAnswerWins(parse, rid, payloads[1..]);
      n := m + 1;
      forall j | 0 <= j < n ensures Foreign(parse(Joined(payloads[..n][j])), rid) {
        if j > 0 { assert payloads[..n][j] == payloads[1..][..m][j - 1]; }
      }
    }
  }

  /** The answer does not show the chunk boundaries: two readers of the same text, below the limit, end alike. */
  method ReadTwice(parse: string -> Frame, rid: int, a: seq<string>, b: seq<string>, limit: nat)
    returns (x: End, y: End)
    requires Concat(a) == Concat(b) && |Concat(a)| <= limit
    ensures x == y
  {
    x := ReadStream(parse, rid, a, limit);
    y := ReadStream(parse, rid, b, limit);
  }
}
