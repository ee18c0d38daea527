/** The status-line rewriter: a byte-exact edit of one line of a task file. One character stands for one byte. */
module StatusWriter {
  import opened Json
  import Journal

  const PREFIX := "**Status:**"

  /** validateWritableStatus. */
  predicate Writable(status: string) { status == "done" || status == "blocked" || status == "needs-human" }

  // ---------------------------------------------------------------- lines with their endings

  function Concat(lines: seq<string>): string {
    if lines == [] then "" else lines[0] + Concat(lines[1..])
  }

  /** A line of a split body: not empty, a newline nowhere but at its end. */
  predicate IsLineOf(line: string) { line != "" && forall i | 0 <= i < |line| - 1 :: line[i] != '\n' }

  /** Every line but the last ends in a newline. */
  predicate Proper(lines: seq<string>) {
    (forall i | 0 <= i < |lines| :: IsLineOf(lines[i]))
    && (forall i | 0 <= i < |lines| - 1 :: Journal.Terminated(lines[i]))
  }

  function Lines(body: string): seq<string>
    decreases |body|
  {
    var k := Journal.Newline(body);
    if body == "" then [] else if k == |body| then [body] else [body[..k + 1]] + Lines(body[k + 1..])
  }

  lemma HeadLine(body: string)
    requires body != ""
    ensures var k := Journal.Newline(body);
            if k == |body| then IsLineOf(body) else IsLineOf(body[..k + 1]) && Journal.Terminated(body[..k + 1])
  {
    var k := Journal.Newline(body);
    assert forall i | 0 <= i < k :: body[..k][i] == body[i];
  }

  lemma ConcatCons(head: string, rest: seq<string>)
    ensures Concat([head] + rest) == head + Concat(rest)
  {
    assert ([head] + rest)[1..] == rest;
  }

  /** Splitting and concatenating gives the body back, whatever the body. */
  lemma {:induction false} LinesConcat(body: string)
    ensures Concat(Lines(body)) == body && Proper(Lines(body))
    decreases |body|
  {
    if body != "" {
      HeadLine(body);
      hide Journal.Newline, IsLineOf, Journal.Terminated, Concat;
      var k := Journal.Newline(body);
      var head, tail := if k == |body| then body else body[..k + 1], if k == |body| then "" else body[k + 1..];
      assert body == head + tail;
      LinesConcat(tail);
      ConcatCons(head, Lines(tail));
      assert Lines(body) == [head] + Lines(tail);
      if k < |body| { ProperCons(head, Lines(tail)); }
    }
  }

  lemma ProperCons(head: string, rest: seq<string>)
    requires IsLineOf(head) && Journal.Terminated(head) && Proper(rest)
    ensures Proper([head] + rest)
  {
    var all := [head] + rest;
    assert forall i | 0 < i < |all| :: all[i] == rest[i - 1];
  }

  /** And the split is the only one: lines of that shape are the lines of their concatenation. */
  lemma {:induction false} ConcatLines(lines: seq<string>)
    requires Proper(lines)
    ensures Lines(Concat(lines)) == lines
  {
    if lines != [] {
      var head, rest := lines[0], lines[1..];
      assert lines == [head] + rest;
      assert Proper(rest) by { assert forall i | 0 <= i < |rest| :: rest[i] == lines[i + 1]; }
      ConcatLines(rest);
      FirstLine(head, Concat(rest), rest == []);
    }
  }

  lemma FirstLine(head: string, tail: string, last: bool)
    requires IsLineOf(head) && (last ==> tail == "") && (!last ==> Journal.Terminated(head))
    ensures Lines(head + tail) == [head] + if last then [] else Lines(tail)
  {
    var body, n := head + tail, |head|;
    var k := Journal.Newline(body);
    assert forall i | 0 <= i < n :: body[i] == head[i];
    assert forall i | 0 <= i < n - 1 :: body[i] != '\n';
    if head[n - 1] == '\n' {
      assert body[n - 1] == '\n' && k == n - 1;
      assert body[..k + 1] == head && body[k + 1..] == tail;
    } else {
      assert body == head && k == n;
    }
  }

  /** `lines` are the lines before `start`, and no newline has been met from there to `i`. */
  ghost predicate SplitUpTo(lines: seq<string>, body: string, start: nat, i: nat) {
    start <= i <= |body| && lines + Lines(body[start..]) == Lines(body) && forall j | start <= j < i :: body[j] != '\n'
  }

  lemma SplitStart(body: string)
    ensures SplitUpTo([], body, 0, 0)
  {
    assert body[0..] == body && [] + Lines(body) == Lines(body);
  }

  lemma SplitStep(lines: seq<string>, body: string, start: nat, i: nat)
    requires SplitUpTo(lines, body, start, i) && i < |body|
    ensures if body[i] != '\n' then SplitUpTo(lines, body, start, i + 1)
            else SplitUpTo(lines + [body[start..i + 1]], body, i + 1, i + 1)
  {
    if body[i] == '\n' {
      NextLine(body, start, i);
      hide Lines;
      Shift(lines, body[start..i + 1], Lines(body[i + 1..]));
    }
  }

  lemma SplitEnd(lines: seq<string>, body: string, start: nat)
    requires SplitUpTo(lines, body, start, |body|)
    ensures Lines(body) == lines + if start < |body| then [body[start..]] else []
  {
    LastLine(body[start..]);
    hide Lines;
  }

  method SplitLinesKeepingEndings(body: string) returns (lines: seq<string>)
    ensures lines == Lines(body)
  {
    SplitStart(body);
    lines := [];
    if |body| == 0 {
      SplitEnd([], body, 0);
      return;
    }
    hide SplitUpTo, Lines;
    var start := 0;
    for i := 0 to |body|
      invariant start <= |body| && SplitUpTo(lines, body, start, i)
      invariant start <= i
    {
      SplitStep(lines, body, start, i);
      if body[i] != '\n' { continue; }
      lines := lines + [body[start..i + 1]];
      start := i + 1;
    }
    SplitEnd(lines, body, start);
    if start < |body| { lines := lines + [body[start..]]; }
  }

  lemma Shift(lines: seq<string>, line: string, rest: seq<string>)
    ensures lines + ([line] + rest) == lines + [line] + rest
  {
  }

  lemma NextLine(body: string, start: nat, i: nat)
    requires start <= i < |body| && body[i] == '\n' && forall j | start <= j < i :: body[j] != '\n'
    ensures Lines(body[start..]) == [body[start..i + 1]] + Lines(body[i + 1..])
  {
    var head, tail := body[start..i + 1], body[i + 1..];
    assert head + tail == body[start..];
    FirstLine(head, tail, false);
  }

  lemma LastLine(rest: string)
    requires forall j | 0 <= j < |rest| :: rest[j] != '\n'
    ensures Lines(rest) == if rest == "" then [] else [rest]
  {
  }

  // ---------------------------------------------------------------- line endings

  function Ending(line: string): string {
    var n := |line|;
    if n >= 2 && line[n - 2] == '\r' && line[n - 1] == '\n' then "\r\n"
    else if n >= 1 && line[n - 1] == '\n' then "\n" else ""
  }

  function Content(line: string): string { line[..|line| - |Ending(line)|] }

  method TrimLineEnding(line: string) returns (content: string, ending: string)
    ensures content == Content(line) && ending == Ending(line) && content + ending == line
  {
    var n := |line|;
    if n >= 2 && line[n - 2] == '\r' && line[n - 1] == '\n' { return line[..n - 2], line[n - 2..]; }
    if n >= 1 && line[n - 1] == '\n' { return line[..n - 1], line[n - 1..]; }
    assert line[..n] == line;
    return line, "";
  }

  predicate StartsWith(s: string, prefix: string) { |s| >= |prefix| && s[..|prefix|] == prefix }

  predicate IsStatus(line: string) { StartsWith(Content(line), PREFIX) }

  /** The line that replaces a status line: same ending, new status. */
  function Replacement(line: string, status: string): string { PREFIX + " " + status + Ending(line) }

  /** A text that does not itself end like a line takes any line ending apart again. */
  lemma EndingOf(text: string, ending: string)
    requires text != "" && text[|text| - 1] != '\r' && text[|text| - 1] != '\n'
    requires ending == "" || ending == "\n" || ending == "\r\n"
    ensures Ending(text + ending) == ending && Content(text + ending) == text
  {
    var r, n := text + ending, |text|;
    assert r[n - 1] == text[n - 1] && forall i | 0 <= i < |ending| :: r[n + i] == ending[i];
    assert r[..n] == text;
  }

  lemma StatusText(status: string)
    requires Writable(status)
    ensures var text := PREFIX + " " + status;
            && StartsWith(text, PREFIX) && text[|text| - 1] != '\r' && text[|text| - 1] != '\n'
            && forall i | 0 <= i < |text| :: text[i] != '\n'
  {
    var head, text := PREFIX + " ", PREFIX + " " + status;
    assert forall i | 0 <= i < |head| :: text[i] == head[i];
    assert forall i | |head| <= i < |text| :: text[i] == status[i - |head|];
    assert forall i | 0 <= i < |status| :: status[i] != '\n' && status[i] != '\r';
    assert text[..|PREFIX|] == PREFIX;
  }

  lemma EndingShape(line: string)
    requires IsLineOf(line)
    ensures Ending(line) == "" || Ending(line) == "\n" || Ending(line) == "\r\n"
    ensures Journal.Terminated(line) <==> Ending(line) != ""
  {
  }

  /** A replacement is a status line with the old line's ending and nothing else changes about its shape. */
  lemma ReplacementShape(line: string, status: string)
    requires IsLineOf(line) && Writable(status)
    ensures var r := Replacement(line, status);
            && IsLineOf(r) && IsStatus(r) && Ending(r) == Ending(line)
            && (Journal.Terminated(line) ==> Journal.Terminated(r))
  {
    var text, ending := PREFIX + " " + status, Ending(line);
    var r := text + ending;
    StatusText(status);
    EndingShape(line);
    EndingOf(text, ending);
    hide Ending, Content, Writable, StartsWith;
    forall i | 0 <= i < |r| - 1 ensures r[i] != '\n' {
      assert if i < |text| then r[i] == text[i] else r[i] == ending[i - |text|];
    }
    if ending != "" { assert r[|r| - 1] == ending[|ending| - 1]; }
  }

  // ---------------------------------------------------------------- the rewrite

  datatype Rewritten = Missing | Multiple | Rewritten(body: string, changed: bool)

  /** `i` is the only status line. */
  predicate OnlyStatus(lines: seq<string>, i: int) {
    0 <= i < |lines| && IsStatus(lines[i]) && forall j | 0 <= j < |lines| && j != i :: !IsStatus(lines[j])
  }

  predicate NoStatus(lines: seq<string>) { forall j | 0 <= j < |lines| :: !IsStatus(lines[j]) }

  predicate TwoStatus(lines: seq<string>) {
    exists i, j :: 0 <= i < j < |lines| && IsStatus(lines[i]) && IsStatus(lines[j])
  }

  /** What a rewrite must do: fail on none or several status lines, otherwise replace that one line's text. */
  ghost predicate Rewrites(body: string, status: string, r: Rewritten) {
    match r
    case Missing => NoStatus(Lines(body))
    case Multiple => TwoStatus(Lines(body))
    case Rewritten(updated, changed) =>
      changed == (updated != body) &&
      exists i :: OnlyStatus(Lines(body), i) && Lines(updated) == Lines(body)[i := Replacement(Lines(body)[i], status)]
  }

  lemma {:induction false} ConcatUpdate(lines: seq<string>, i: nat, line: string)
    requires i < |lines|
    ensures Concat(lines[i := line]) == Concat(lines[..i]) + line + Concat(lines[i + 1..])
    ensures Concat(lines) == Concat(lines[..i]) + lines[i] + Concat(lines[i + 1..])
  {
    ConcatSplit(lines[i := line], i);
    ConcatSplit(lines, i);
    assert lines[i := line][..i] == lines[..i] && lines[i := line][i + 1..] == lines[i + 1..];
  }

  lemma {:induction false} ConcatSplit(lines: seq<string>, i: nat)
    requires i < |lines|
    ensures Concat(lines) == Concat(lines[..i]) + lines[i] + Concat(lines[i + 1..])
  {
    if i > 0 {
      ConcatSplit(lines[1..], i - 1);
      assert lines[1..][..i - 1] == lines[..i][1..] && lines[1..][i..] == lines[i + 1..];
      Assoc(lines[0], Concat(lines[1..i]), lines[i]);
      Assoc(lines[0], Concat(lines[1..i]) + lines[i], Concat(lines[i + 1..]));
      assert lines[1..i] == lines[..i][1..];
    } else {
      assert "" + lines[0] == lines[0];
    }
  }

  /** Replacing the one status line leaves a properly split body with exactly that line changed. */
  lemma ReplacedLines(lines: seq<string>, i: nat, status: string)
    requires Proper(lines) && OnlyStatus(lines, i) && Writable(status)
    ensures var now := lines[i := Replacement(lines[i], status)];
            Proper(now) && Lines(Concat(now)) == now && OnlyStatus(now, i)
  {
    ReplacementShape(lines[i], status);
    hide Replacement, IsStatus, IsLineOf, Journal.Terminated;
    var now := lines[i := Replacement(lines[i], status)];
    assert forall j | 0 <= j < |lines| && j != i :: now[j] == lines[j];
    ConcatLines(now);
  }

  method RewriteStatusLine(body: string, status: string) returns (r: Rewritten)
    requires status == "done" || status == "blocked" || status == "needs-human"
    ensures Rewrites(body, status, r) && RewritesBytes(body, status, r)
  {
    hide IsStatus, Replacement, Lines, Proper, RewritesBytes;
    var lines := SplitLinesKeepingEndings(body);
    LinesConcat(body);
    var statusIndex := -1;
    for i := 0 to |lines|
      invariant -1 <= statusIndex < i
      invariant statusIndex == -1 ==> forall j | 0 <= j < i :: !IsStatus(lines[j])
      invariant statusIndex >= 0 ==>
                IsStatus(lines[statusIndex]) && forall j | 0 <= j < i && j != statusIndex :: !IsStatus(lines[j])
    {
      var found := HasStatus(lines[i]);
      if found {
        if statusIndex != -1 {
          RewriteBytes(body, status, Multiple);
          return Multiple;
        }
        statusIndex := i;
      }
    }
    if statusIndex == -1 {
      RewriteBytes(body, status, Missing);
      return Missing;
    }
    var replacement := ReplaceLine(lines[statusIndex], status);
    ReplacedLines(lines, statusIndex, status);
    if lines[statusIndex] == replacement {
      assert lines[statusIndex := replacement] == lines;
      RewriteBytes(body, status, Rewritten(body, false));
      return Rewritten(body, false);
    }
    var updated := Join(lines, statusIndex, replacement);
    Differs(lines, statusIndex, replacement);
    RewriteBytes(body, status, Rewritten(updated, true));
    r := Rewritten(updated, true);
  }

  method HasStatus(line: string) returns (b: bool)
    ensures b == IsStatus(line)
  {
    var content, _ := TrimLineEnding(line);
    b := StartsWith(content, PREFIX);
  }

  method ReplaceLine(line: string, status: string) returns (r: string)
    ensures r == Replacement(line, status)
  {
    var _, ending := TrimLineEnding(line);
    r := PREFIX + " " + status + ending;
  }

  method Join(lines: seq<string>, at: nat, replacement: string) returns (updated: string)
    requires at < |lines|
    ensures updated == Concat(lines[at := replacement])
  {
    updated := "";
    ghost var now := lines[at := replacement];
    for i := 0 to |lines|
      invariant updated + Concat(now[i..]) == Concat(now)
    {
      assert now[i..][1..] == now[i + 1..];
      assert updated + (now[i] + Concat(now[i + 1..])) == updated + now[i] + Concat(now[i + 1..]);
      if i == at {
        updated := updated + replacement;
        continue;
      }
      updated := updated + lines[i];
    }
    assert updated + "" == updated;
  }

  lemma Differs(lines: seq<string>, i: nat, line: string)
    requires i < |lines| && line != lines[i]
    ensures Concat(lines[i := line]) != Concat(lines)
  {
    ConcatUpdate(lines, i, line);
    var a, c := Concat(lines[..i]), Concat(lines[i + 1..]);
    if a + line + c == a + lines[i] + c {
      Drop(a + line, c);
      MiddleEqual(a, line, lines[i], c);
    }
  }

  lemma MiddleEqual(a: string, x: string, y: string, c: string)
    requires a + x + c == a + y + c
    ensures x == y
  {
    var s := a + x + c;
    assert |x| == |y|;
    assert x == s[|a|..|a| + |x|];
    assert y == s[|a|..|a| + |y|];
  }

  /** The three answers exclude each other, so the contract fixes the answer: none, several, or exactly one line. */
  lemma AnswerIsForced(body: string, status: string, r: Rewritten, q: Rewritten)
    requires Rewrites(body, status, r) && Rewrites(body, status, q)
    ensures r == q
  {
    hide Replacement, IsStatus, Lines;
    if r.Rewritten? && q.Rewritten? {
      var i :| OnlyStatus(Lines(body), i) && Lines(r.body) == Lines(body)[i := Replacement(Lines(body)[i], status)];
      var j :| OnlyStatus(Lines(body), j) && Lines(q.body) == Lines(body)[j := Replacement(Lines(body)[j], status)];
      assert i == j;
      LinesConcat(r.body);
      LinesConcat(q.body);
    }
  }

  lemma ReplacementFixed(line: string, status: string)
    requires IsLineOf(line) && Writable(status)
    ensures Replacement(Replacement(line, status), status) == Replacement(line, status)
  {
    ReplacementShape(line, status);
    hide Ending;
  }

  /** A rewritten body has exactly one status line, at the same place, and rewriting it again changes nothing. */
  lemma RewriteOnce(body: string, status: string, r: Rewritten)
    requires Writable(status) && r.Rewritten? && Rewrites(body, status, r)
    ensures exists i ::
              && OnlyStatus(Lines(body), i) && OnlyStatus(Lines(r.body), i)
              && Ending(Lines(r.body)[i]) == Ending(Lines(body)[i])
    ensures Rewrites(r.body, status, Rewritten(r.body, false))
  {
    hide Replacement, Lines, IsStatus, Ending, Concat;
    LinesConcat(body);
    var lines := Lines(body);
    var i :| OnlyStatus(lines, i) && Lines(r.body) == lines[i := Replacement(lines[i], status)];
    ReplacedLines(lines, i, status);
    ReplacementShape(lines[i], status);
    var now := lines[i := Replacement(lines[i], status)];
    assert OnlyStatus(lines, i) && OnlyStatus(now, i) && Ending(now[i]) == Ending(lines[i]);
    ReplacementFixed(lines[i], status);
    assert now[i := Replacement(now[i], status)] == now;
  }

  // ---------------------------------------------------------------- the rewrite, in the bytes of the file

  /** A line of the body starts at `p`, with the status marker. */
  ghost predicate StatusAt(body: string, p: int) {
    0 <= p <= p + 11 <= |body| && body[p..p + 11] == "**Status:**" && (p == 0 || body[p - 1] == '\n')
  }

  /** The text of the line that starts at `p` ends at `e`: the file ends there, or a line ending starts there. */
  ghost predicate TextEnds(body: string, p: int, e: int) {
    && 0 <= p < e <= |body| && '\n' !in body[p..e]
    && (e == |body| || "\r\n" <= body[e..] || (body[e] == '\n' && body[e - 1] != '\r'))
  }

  /** The rewrite in bytes. It fails exactly when no line, or more than one, starts with the marker. Otherwise the text
      of that line becomes the marker, a blank and the status, and every other byte of the file is as it was: the
      line's own ending, whatever it is, included. */
  ghost predicate RewritesBytes(body: string, status: string, r: Rewritten) {
    match r
    case Missing => forall p :: !StatusAt(body, p)
    case Multiple => exists p, q :: p < q && StatusAt(body, p) && StatusAt(body, q)
    case Rewritten(updated, changed) =>
      && changed == (updated != body)
      && exists p, e ::
           && StatusAt(body, p) && (forall q | StatusAt(body, q) :: q == p) && TextEnds(body, p, e)
           && updated == body[..p] + "**Status:** " + status + body[e..]
  }

  lemma MarkerIff(line: string, rest: string)
    requires IsLineOf(line) && (rest == "" || Journal.Terminated(line))
    ensures IsStatus(line) <==> |line + rest| >= 11 && (line + rest)[..11] == "**Status:**"
  {
    var marker, b := "**Status:**", line + rest;
    assert forall i | 0 <= i < 11 :: marker[i] != '\n' && marker[i] != '\r';
    assert forall i | 0 <= i < |line| :: b[i] == line[i];
    if |b| >= 11 && b[..11] == marker {
      assert forall i | 0 <= i < 11 :: b[i] == marker[i];
      assert |line| >= 11;
      assert Content(line)[..11] == marker;
    }
    if IsStatus(line) { assert b[..11] == Content(line)[..11]; }
  }

  lemma BeforeLine(lines: seq<string>, i: nat)
    requires Proper(lines) && i < |lines|
    ensures Journal.Terminated(Concat(lines[..i]))
    ensures Concat(lines[i + 1..]) == "" || Journal.Terminated(lines[i])
  {
    if i > 0 {
      ConcatSplit(lines[..i], i - 1);
      assert lines[..i][..i - 1] == lines[..i - 1] && lines[..i][i..] == [];
      assert Journal.Terminated(lines[i - 1]) && lines[i - 1] != "";
      assert Concat(lines[..i]) == Concat(lines[..i - 1]) + lines[i - 1];
    }
  }

  /** A status line starts at its offset in the file, and nowhere else does one start. */
  lemma StatusOffset(lines: seq<string>, i: nat)
    requires Proper(lines) && i < |lines|
    ensures IsStatus(lines[i]) <==> StatusAt(Concat(lines), |Concat(lines[..i])|)
  {
    ConcatSplit(lines, i);
    BeforeLine(lines, i);
    var a, line, b := Concat(lines[..i]), lines[i], Concat(lines[i + 1..]);
    MarkerIff(line, b);
    hide IsStatus, Concat;
    var body, p := Concat(lines), |a|;
    Assoc(a, line, b);
    Drop(a, line + b);
    assert body[p..] == line + b;
    assert |body| >= p + 11 ==> body[p..p + 11] == (line + b)[..11];
    assert p > 0 ==> body[p - 1] == a[p - 1];
  }

  lemma {:induction false} LineAt(lines: seq<string>, p: nat) returns (i: nat)
    requires Proper(lines) && p < |Concat(lines)| && (p == 0 || Concat(lines)[p - 1] == '\n')
    ensures i < |lines| && |Concat(lines[..i])| == p
  {
    i := 0;
    if p > 0 {
      var head, rest := lines[0], lines[1..];
      var n := |head|;
      assert lines == [head] + rest;
      assert Concat(lines) == head + Concat(rest);
      assert forall k | 0 <= k < n :: Concat(lines)[k] == head[k];
      assert p >= n;
      assert Proper(rest) by { assert forall j | 0 <= j < |rest| :: rest[j] == lines[j + 1]; }
      assert p > n ==> Concat(rest)[p - n - 1] == Concat(lines)[p - 1];
      var j := LineAt(rest, p - n);
      i := j + 1;
      assert lines[..i] == [head] + rest[..j];
      ConcatCons(head, rest[..j]);
    }
  }

  /** The lines and the bytes agree on where status lines are. */
  lemma StatusLines(body: string)
    ensures forall p | StatusAt(body, p) ::
              exists i :: 0 <= i < |Lines(body)| && IsStatus(Lines(body)[i]) && |Concat(Lines(body)[..i])| == p
    ensures forall i | 0 <= i < |Lines(body)| && IsStatus(Lines(body)[i]) ::
              StatusAt(body, |Concat(Lines(body)[..i])|)
  {
    LinesConcat(body);
    hide Concat, Proper, Lines, IsStatus;
    var lines := Lines(body);
    forall p | StatusAt(body, p)
      ensures exists i :: 0 <= i < |lines| && IsStatus(lines[i]) && |Concat(lines[..i])| == p
    {
      var i := LineAt(lines, p);
      StatusOffset(lines, i);
      assert IsStatus(lines[i]);
    }
    forall i | 0 <= i < |lines| && IsStatus(lines[i]) ensures StatusAt(body, |Concat(lines[..i])|) {
      StatusOffset(lines, i);
    }
  }

  /** Replacing a status line's text, in bytes: everything before its line and everything from its line ending on
      stays. */
  lemma ReplacedBytes(lines: seq<string>, i: nat, status: string)
    requires Proper(lines) && i < |lines| && IsStatus(lines[i])
    ensures var body, p := Concat(lines), |Concat(lines[..i])|;
            var e := p + |Content(lines[i])|;
            && TextEnds(body, p, e)
            && Concat(lines[i := Replacement(lines[i], status)]) == body[..p] + (PREFIX + " ") + status + body[e..]
  {
    hide Concat, Proper, TextEnds, Content, Ending, IsStatus;
    var line := lines[i];
    var a, b, c, end := Concat(lines[..i]), Concat(lines[i + 1..]), Content(line), Ending(line);
    ConcatUpdate(lines, i, Replacement(line, status));
    BeforeLine(lines, i);
    Parts(lines, i);
    TextOf(a, line, b);
    Swapped(a, c, end, b, PREFIX + " ", status);
  }

  lemma Parts(lines: seq<string>, i: nat)
    requires Proper(lines) && i < |lines| && IsStatus(lines[i])
    ensures IsLineOf(lines[i]) && Content(lines[i]) + Ending(lines[i]) == lines[i] && Content(lines[i]) != ""
  {
  }

  lemma MarkerText()
    ensures PREFIX + " " == "**Status:** "
  {
  }

  lemma Swapped(a: string, c: string, end: string, b: string, marker: string, status: string)
    ensures var body := a + (c + end) + b;
            && body == a + c + end + b
            && a + (marker + status + end) + b == body[..|a|] + marker + status + body[|a| + |c|..]
  {
    Glued(a, c, end, b);
    Assoc(a, c, end);
    Assoc(a, marker + status, end);
    Assoc(a, marker, status);
    Assoc(a + marker + status, end, b);
  }

  lemma Glued(a: string, c: string, end: string, b: string)
    ensures var body := a + c + end + b;
            body[..|a|] == a && body[|a|..|a| + |c|] == c && body[|a| + |c|..] == end + b
  {
  }

  lemma TextOf(a: string, line: string, b: string)
    requires IsLineOf(line) && Content(line) != "" && (b == "" || Journal.Terminated(line))
    ensures TextEnds(a + Content(line) + Ending(line) + b, |a|, |a| + |Content(line)|)
  {
    EndingShape(line);
    var c, end := Content(line), Ending(line);
    var body, e := a + c + end + b, |a| + |c|;
    Glued(a, c, end, b);
    assert forall k | 0 <= k < |c| :: c[k] == line[k];
    assert body[e - 1] == c[|c| - 1];
    assert end != "" ==> body[e] == end[0];
    if end == "\r\n" { assert body[e..][..2] == end; }
  }

  lemma RewriteBytes(body: string, status: string, r: Rewritten)
    requires Rewrites(body, status, r)
    ensures RewritesBytes(body, status, r)
  {
    LinesConcat(body);
    StatusLines(body);
    hide Concat, Proper, Lines, IsStatus, Replacement, StatusAt, TextEnds, Content;
    var lines := Lines(body);
    match r
    case Missing =>
    case Multiple =>
      var i, j :| 0 <= i < j < |lines| && IsStatus(lines[i]) && IsStatus(lines[j]);
      Apart(lines, i, j);
      assert StatusAt(body, |Concat(lines[..i])|) && StatusAt(body, |Concat(lines[..j])|);
    case Rewritten(updated, changed) =>
      LinesConcat(updated);
      var i :| OnlyStatus(lines, i) && Lines(updated) == lines[i := Replacement(lines[i], status)];
      ReplacedBytes(lines, i, status);
      MarkerText();
      assert StatusAt(body, |Concat(lines[..i])|);
  }

  lemma Apart(lines: seq<string>, i: nat, j: nat)
    requires Proper(lines) && i < j < |lines|
    ensures |Concat(lines[..i])| < |Concat(lines[..j])|
  {
    ConcatSplit(lines[..j], i);
    assert lines[..j][..i] == lines[..i] && lines[i] != "";
  }
}
