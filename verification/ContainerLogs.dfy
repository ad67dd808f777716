/**
  Cursor paging of a container job's evidence on the server, and the bounded tail that a
  client reads by following the cursors.
 */
module ContainerLogs {
  import opened Outcomes
  import opened PyText

  const MAX_LOG_PAGE_ENTRIES := 500
  const MAX_LOG_TEXT := 8192
  const STDERR_MARKER := "[stderr]"

  datatype LogEntry = LogEntry(sequence: nat, stream: string, text: string)

  datatype Page<T> = Page(entries: seq<T>, nextCursor: Option<string>)

  datatype PageError = NotAnOffset | NegativeOffset | ManifestInvalid

  /** `text.split("\n")`. */
  function SplitLines(text: string): seq<string> {
    if text == "" then [""] else
      var lines := SplitLines(text[..|text| - 1]);
      var c := text[|text| - 1];
      if c == '\n' then lines + [""] else lines[..|lines| - 1] + [lines[|lines| - 1] + [c]]
  }

  /** The lines of a log: a final empty piece is not a line. */
  function LogLines(text: string): seq<string> {
    var lines := SplitLines(text);
    if lines != [] && lines[|lines| - 1] == "" then lines[..|lines| - 1] else lines
  }

  predicate OneLine(s: string) {
    '\n' !in s
  }

  lemma {:induction false} SplitLinesHaveNoNewline(text: string)
    ensures SplitLines(text) != [] && forall i :: 0 <= i < |SplitLines(text)| ==> OneLine(SplitLines(text)[i])
  {
    if text != "" {
      SplitLinesHaveNoNewline(text[..|text| - 1]);
    }
  }

  function JoinLines(lines: seq<string>): string {
    if lines == [] then ""
    else if |lines| == 1 then lines[0]
    else JoinLines(lines[..|lines| - 1]) + "\n" + lines[|lines| - 1]
  }

  lemma JoinOne(line: string)
    ensures JoinLines([line]) == line
  {
  }

  lemma JoinSnoc(lines: seq<string>, last: string)
    requires lines != []
    ensures JoinLines(lines + [last]) == JoinLines(lines) + ['\n'] + last
  {
    assert (lines + [last])[..|lines|] == lines;
  }

  lemma JoinLonger(rest: seq<string>, last: string, c: char)
    ensures JoinLines(rest + [last + [c]]) == JoinLines(rest + [last]) + [c]
  {
    hide JoinLines;
    if rest == [] {
      assert rest + [last] == [last] && rest + [last + [c]] == [last + [c]];
      JoinOne(last);
      JoinOne(last + [c]);
    } else {
      JoinSnoc(rest, last);
      JoinSnoc(rest, last + [c]);
      assert JoinLines(rest) + ['\n'] + (last + [c]) == JoinLines(rest) + ['\n'] + last + [c];
    }
  }

  /** Splitting loses nothing: joining the pieces with newlines gives the text back. */
  lemma {:induction false} SplitJoin(text: string)
    ensures JoinLines(SplitLines(text)) == text
  {
    hide JoinLines, OneLine;
    if text == "" {
      JoinOne("");
    } else {
      var earlier, c := text[..|text| - 1], text[|text| - 1];
      SplitJoin(earlier);
      SplitLinesHaveNoNewline(earlier);
      if c == '\n' {
        JoinSnoc(SplitLines(earlier), "");
      } else {
        var lines := SplitLines(earlier);
        var rest, last := lines[..|lines| - 1], lines[|lines| - 1];
        assert lines == rest + [last];
        JoinLonger(rest, last, c);
      }
      assert text == earlier + [c];
    }
  }

  /** A text that does not end a line keeps all its pieces. */
  lemma OpenLogLines(text: string)
    requires text != "" && text[|text| - 1] != '\n'
    ensures LogLines(text) != [] && JoinLines(LogLines(text)) == text
  {
    hide JoinLines;
    SplitJoin(text);
    SplitLinesHaveNoNewline(text[..|text| - 1]);
  }

  /** A final newline ends the last line and does not begin another one. */
  lemma EndedLogLines(text: string)
    ensures LogLines(text + ['\n']) != [] && JoinLines(LogLines(text + ['\n'])) == text
  {
    hide JoinLines;
    SplitJoin(text);
    SplitLinesHaveNoNewline(text);
    var ended := text + ['\n'];
    assert ended[..|ended| - 1] == text;
    assert LogLines(ended) == SplitLines(text);
  }

  lemma LogLinesHaveNoNewline(text: string)
    ensures forall i :: 0 <= i < |LogLines(text)| ==> '\n' !in LogLines(text)[i]
  {
    SplitLinesHaveNoNewline(text);
    hide SplitLines;
    assert forall i :: 0 <= i < |SplitLines(text)| ==> OneLine(SplitLines(text)[i]);
  }

  /** The lines of a log are its text cut at the newlines, the final one ending the last line. */
  lemma LogLinesExactly(text: string)
    ensures text == "" ==> LogLines(text) == []
    ensures text != "" && text[|text| - 1] != '\n' ==> LogLines(text) != [] && JoinLines(LogLines(text)) == text
    ensures LogLines(text + ['\n']) != [] && JoinLines(LogLines(text + ['\n'])) == text
    ensures forall i :: 0 <= i < |LogLines(text)| ==> '\n' !in LogLines(text)[i]
  {
    if text != "" && text[|text| - 1] != '\n' {
      OpenLogLines(text);
    }
    EndedLogLines(text);
    LogLinesHaveNoNewline(text);
    hide JoinLines;
  }

  function Clip(line: string): string {
    if |line| > MAX_LOG_TEXT then line[..MAX_LOG_TEXT] else line
  }

  /** A line is shown up to its first 8192 characters. */
  lemma ClipMeaning(line: string)
    ensures |line| <= 8192 ==> Clip(line) == line
    ensures 8192 < |line| ==> |Clip(line)| == 8192 && Clip(line) < line
  {
  }

  /** The stream label in force once the first `n` lines are read: a marker line switches it for good. */
  function StreamAfter(lines: seq<string>, n: nat): string
    requires n <= |lines|
  {
    if n == 0 then "stdout"
    else if Strip(lines[n - 1]) == STDERR_MARKER then "stderr"
    else StreamAfter(lines, n - 1)
  }

  /** A line is labelled stderr exactly when a marker line stands at or before it. */
  lemma {:induction false} StreamMeaning(lines: seq<string>, n: nat)
    requires n <= |lines|
    ensures StreamAfter(lines, n) == if exists j :: 0 <= j < n && Strip(lines[j]) == "[stderr]" then "stderr" else "stdout"
  {
    hide Strip;
    if n > 0 {
      StreamMeaning(lines, n - 1);
    }
  }

  /** One labelling of the whole log. */
  function WholeLog(lines: seq<string>): seq<LogEntry> {
    seq(|lines|, i requires 0 <= i < |lines| => LogEntry(i, StreamAfter(lines, i + 1), Clip(lines[i])))
  }

  // ------------------------------------------------------------- cursors

  function DecodeCursor(cursor: Option<string>): Result<nat, PageError> {
    if cursor.None? || cursor.value == "" then Ok(0) else
      match ParseInt(cursor.value)
      case None => Err(NotAnOffset)
      case Some(value) => if value < 0 then Err(NegativeOffset) else Ok(value)
  }

  /** No cursor is the start; any other is the whole number it spells, if that is not negative. */
  lemma DecodeCursorExactly(cursor: Option<string>, offset: nat)
    ensures cursor.None? || cursor.value == "" ==> DecodeCursor(cursor) == Ok(0)
    ensures cursor.Some? && cursor.value != "" ==>
      && (DecodeCursor(cursor) == Ok(offset) <==> ParseInt(cursor.value) == Some(offset))
      && (DecodeCursor(cursor) == Err(NegativeOffset) <==> ParseInt(cursor.value).Some? && ParseInt(cursor.value).value < 0)
      && (DecodeCursor(cursor) == Err(NotAnOffset) <==> ParseInt(cursor.value).None?)
  {
    hide ParseInt;
  }

  function NextCursor(next: nat, total: nat): Option<string> {
    if next < total then Some(NatText(next)) else None
  }

  /** A cursor the server hands out decodes to the offset it was made from. */
  lemma CursorRoundTrip(next: nat, total: nat)
    requires next < total
    ensures DecodeCursor(NextCursor(next, total)) == Ok(next)
  {
    NatTextDigits(next);
    IntRoundTrip(next);
  }

  function Min(a: int, b: int): int {
    if a < b then a else b
  }

  /** The slice a page holds; an offset past the end gives an empty page. */
  function Slice<T>(items: seq<T>, offset: nat, limit: nat): seq<T> {
    if offset >= |items| then [] else items[offset..Min(offset + limit, |items|)]
  }

  function PageOf<T>(items: seq<T>, offset: nat, limit: nat): Page<T> {
    Page(Slice(items, offset, limit), NextCursor(offset + |Slice(items, offset, limit)|, |items|))
  }

  /** Everything a reader sees who follows the cursors from an offset with a fixed page size. */
  ghost function Follow<T>(items: seq<T>, offset: nat, limit: nat): seq<T>
    requires limit >= 1
    decreases |items| - offset
  {
    var page := PageOf(items, offset, limit);
    if page.nextCursor.None? then page.entries else
      var next := DecodeCursor(page.nextCursor);
      if next.Ok? && next.value > offset then page.entries + Follow(items, next.value, limit) else page.entries
  }

  /** Following the cursors visits every item from the offset on, once and in order. */
  lemma {:induction false} FollowVisitsAll<T>(items: seq<T>, offset: nat, limit: nat)
    requires limit >= 1 && offset <= |items|
    ensures Follow(items, offset, limit) == items[offset..]
    decreases |items| - offset
  {
    var next := offset + limit;
    if next < |items| {
      assert PageOf(items, offset, limit) == Page(items[offset..next], NextCursor(next, |items|));
      CursorRoundTrip(next, |items|);
      FollowVisitsAll(items, next, limit);
      assert items[offset..next] + items[next..] == items[offset..];
    } else {
      assert Slice(items, offset, limit) == items[offset..];
    }
  }

  /** What the loop of the server decides about one more line. */
  lemma SliceStep<T>(items: seq<T>, index: nat, offset: nat, limit: nat)
    requires index < |items|
    ensures var before := Slice(items[..index], offset, limit);
      Slice(items[..index + 1], offset, limit)
      == if index < offset || |before| >= limit then before else before + [items[index]]
  {
    var before, after := Slice(items[..index], offset, limit), Slice(items[..index + 1], offset, limit);
    if index >= offset && |before| < limit {
      assert before == items[offset..index] && after == items[offset..index + 1];
    } else {
      assert after == before;
    }
  }

  lemma SliceOfNothing<T>(offset: nat, limit: nat)
    ensures Slice<T>([], offset, limit) == []
  {
  }

  /** What the loop of the client learns from one full-size page of a fixed log. */
  lemma PageFacts<T>(items: seq<T>, offset: nat, limit: nat)
    requires offset <= |items| && limit >= 1
    ensures var page := PageOf(items, offset, limit);
      && items[..offset] + page.entries == items[..Min(offset + limit, |items|)]
      && (page.nextCursor.None? <==> offset + limit >= |items|)
      && (page.nextCursor.Some? ==>
        && page.nextCursor.value == NatText(offset + limit) && NatText(offset + limit) != ""
        && Strip(NatText(offset + limit)) == NatText(offset + limit)
        && DecodeCursor(Some(NatText(offset + limit))) == Ok(offset + limit))
  {
    var page := PageOf(items, offset, limit);
    assert items[..offset] + page.entries == items[..Min(offset + limit, |items|)];
    if offset + limit < |items| {
      NatTextDigits(offset + limit);
      StripNatText(offset + limit);
      CursorRoundTrip(offset + limit, |items|);
    }
  }

  /** The cursors remembered so far were made from offsets up to `offset`. */
  ghost predicate SeenUpTo(seen: set<string>, offset: nat) {
    forall c :: c in seen ==> exists m: nat :: m <= offset && c == NatText(m)
  }

  lemma LaterCursorIsNew(seen: set<string>, offset: nat, next: nat)
    requires SeenUpTo(seen, offset) && offset < next
    ensures NatText(next) !in seen
    ensures SeenUpTo(seen + {NatText(next)}, next)
  {
    if NatText(next) in seen {
      var m: nat :| m <= offset && NatText(next) == NatText(m);
      NatTextInjective(m, next);
    }
    forall c | c in seen + {NatText(next)}
      ensures exists m: nat :: m <= next && c == NatText(m)
    {
      if c in seen {
        var m: nat :| m <= offset && c == NatText(m);
      }
    }
  }

  // -------------------------------------------------------------- server

  /** The labelling loop of the server, keeping only the lines of the requested slice. */
  method LabelSlice(lines: seq<string>, offset: nat, limit: nat) returns (entries: seq<LogEntry>)
    ensures entries == Slice(WholeLog(lines), offset, limit)
  {
    hide Slice, Clip, Strip;
    var stream := "stdout";
    entries := [];
    SliceOfNothing<LogEntry>(offset, limit);
    ghost var all := WholeLog(lines);
    for index := 0 to |lines|
      invariant stream == StreamAfter(lines, index)
      invariant entries == Slice(all[..index], offset, limit)
    {
      SliceStep(all, index, offset, limit);
      if Strip(lines[index]) == STDERR_MARKER {
        stream := "stderr";
      }
      if index < offset || |entries| >= limit {
        continue;
      }
      entries := entries + [LogEntry(index, stream, Clip(lines[index]))];
    }
    assert all[..|lines|] == all;
  }

  /** One log page; `log` is None while no evidence has been published. */
  method Logs(log: Option<string>, cursor: Option<string>, requested: int) returns (r: Result<Page<LogEntry>, PageError>)
    requires 1 <= requested
    ensures log.None? ==> r == Ok(Page([], None))
    ensures log.Some? && DecodeCursor(cursor).Err? ==> r == Err(DecodeCursor(cursor).error)
    ensures log.Some? && DecodeCursor(cursor).Ok? ==>
      r == Ok(PageOf(WholeLog(LogLines(log.value)), DecodeCursor(cursor).value, Min(requested, 500)))
  {
    if log.None? {
      return Ok(Page([], None));
    }
    var lines := LogLines(log.value);
    var decoded := DecodeCursor(cursor);
    if decoded.Err? {
      return Err(decoded.error);
    }
    var offset := decoded.value;
    var entries := LabelSlice(lines, offset, Min(requested, MAX_LOG_PAGE_ENTRIES));
    var nextIndex := offset + |entries|;
    r := Ok(Page(entries, if nextIndex < |lines| then Some(NatText(nextIndex)) else None));
  }

  /** The output manifest of a job: none published, one that does not decode, or the outputs it collects. */
  datatype Manifest<T> = Unpublished | Unreadable | Collected(artifacts: seq<T>)

  /** One page of collected artifacts: the limit is clamped to at least one and at most `maximum`. */
  method Artifacts<T>(manifest: Manifest<T>, cursor: Option<string>, requested: int, maximum: nat) returns (r: Result<Page<T>, PageError>)
    requires maximum >= 1
    ensures manifest.Unreadable? ==> r == Err(ManifestInvalid)
    ensures !manifest.Unreadable? && DecodeCursor(cursor).Err? ==> r == Err(DecodeCursor(cursor).error)
    ensures !manifest.Unreadable? && DecodeCursor(cursor).Ok? ==>
      var artifacts := if manifest.Collected? then manifest.artifacts else [];
      r == Ok(PageOf(artifacts, DecodeCursor(cursor).value, Min(if requested > 1 then requested else 1, maximum)))
  {
    var artifacts: seq<T> := [];
    match manifest {
      case Unpublished =>
      case Unreadable => return Err(ManifestInvalid);
      case Collected(outputs) => artifacts := outputs;
    }
    var decoded := DecodeCursor(cursor);
    if decoded.Err? {
      return Err(decoded.error);
    }
    var offset := decoded.value;
    var limit := Min(if requested > 1 then requested else 1, maximum);
    var page := if offset >= |artifacts| then [] else artifacts[offset..Min(offset + limit, |artifacts|)];
    var nextIndex := offset + |page|;
    r := Ok(Page(page, if nextIndex < |artifacts| then Some(NatText(nextIndex)) else None));
  }

  // -------------------------------------------------------------- client

  /** `s.rstrip("\n")`. */
  function DropNewlines(s: string): string {
    if s != "" && s[|s| - 1] == '\n' then DropNewlines(s[..|s| - 1]) else s
  }

  /** What the client makes of one entry; an empty message is dropped. */
  function Message(entry: LogEntry): Option<string> {
    var stream := Strip(if entry.stream == "" then "log" else entry.stream);
    var message := DropNewlines(entry.text);
    if message == "" then None else Some("[" + stream + "] " + message)
  }

  lemma {:induction false} NewlinesDropped(s: string) returns (dropped: string)
    ensures s == DropNewlines(s) + dropped && forall i :: 0 <= i < |dropped| ==> dropped[i] == '\n'
    ensures DropNewlines(s) != "" ==> DropNewlines(s)[|DropNewlines(s)| - 1] != '\n'
  {
    if s != "" && s[|s| - 1] == '\n' {
      var rest := NewlinesDropped(s[..|s| - 1]);
      dropped := rest + ['\n'];
    } else {
      dropped := "";
    }
  }

  /** An entry is dropped exactly if its text is nothing but newlines; otherwise only final newlines are. */
  lemma MessageExactly(entry: LogEntry) returns (body: string, dropped: string)
    ensures entry.text == body + dropped && (forall i :: 0 <= i < |dropped| ==> dropped[i] == '\n')
    ensures body != "" ==> body[|body| - 1] != '\n'
    ensures Message(entry) == if body == "" then None else Some("[" + Strip(if entry.stream == "" then "log" else entry.stream) + "] " + body)
  {
    dropped := NewlinesDropped(entry.text);
    body := DropNewlines(entry.text);
  }

  function Messages(entries: seq<LogEntry>): seq<string> {
    if entries == [] then [] else
      var last := Message(entries[|entries| - 1]);
      Messages(entries[..|entries| - 1]) + (if last.Some? then [last.value] else [])
  }

  lemma {:induction false} MessagesConcat(a: seq<LogEntry>, b: seq<LogEntry>)
    ensures Messages(a + b) == Messages(a) + Messages(b)
  {
    if b == [] {
      assert a + b == a;
    } else {
      assert (a + b)[..|a + b| - 1] == a + b[..|b| - 1];
      MessagesConcat(a, b[..|b| - 1]);
    }
  }

  function Last<T>(s: seq<T>, n: nat): seq<T> {
    if |s| <= n then s else s[|s| - n..]
  }

  /** All of a short sequence, or its end. */
  lemma LastMeaning<T>(s: seq<T>, n: nat)
    ensures |Last(s, n)| == (if |s| < n then |s| else n)
    ensures Last(s, n) == s[|s| - |Last(s, n)|..]
  {
  }

  /** A bounded deque keeps the last elements of everything appended to it. */
  lemma LastAppend<T>(s: seq<T>, x: T, n: nat)
    ensures Last(Last(s, n) + [x], n) == Last(s + [x], n)
  {
  }

  lemma MessagesStep(entries: seq<LogEntry>, i: nat)
    requires i < |entries|
    ensures Messages(entries[..i + 1]) == Messages(entries[..i]) + (if Message(entries[i]).Some? then [Message(entries[i]).value] else [])
  {
    assert entries[..i + 1][..i] == entries[..i];
  }

  method AppendMessages(entries: seq<LogEntry>, maxLines: nat, start: seq<string>, ghost all: seq<string>) returns (tail: seq<string>)
    requires start == Last(all, maxLines)
    ensures tail == Last(all + Messages(entries), maxLines)
  {
    tail := start;
    ghost var appended := all;
    assert all + Messages(entries[..0]) == all;
    for i := 0 to |entries|
      invariant appended == all + Messages(entries[..i])
      invariant tail == Last(appended, maxLines)
    {
      MessagesStep(entries, i);
      var message := Message(entries[i]);
      if message.Some? {
        LastAppend(appended, message.value, maxLines);
        tail := Last(tail + [message.value], maxLines);
        appended := appended + [message.value];
      }
    }
    assert entries[..|entries|] == entries;
  }

  datatype TailError = RepeatedCursor | CallFailed

  /** The bounded tail of a fixed log: no cursor is ever repeated, and the result is the end of what the pages hold. */
  method ReadLogTail(log: Option<string>, maxPages: nat := 100, maxLines: nat := 250) returns (r: Result<seq<string>, TailError>)
    ensures r.Ok?
    ensures log.None? ==> r.value == []
    ensures log.Some? ==>
      var entries := WholeLog(LogLines(log.value));
      r.value == Last(Messages(entries[..Min(|entries|, maxPages * 500)]), maxLines)
  {
    var cursor: Option<string> := None;
    var seen: set<string> := {};
    var tail: seq<string> := [];
    ghost var entries := if log.Some? then WholeLog(LogLines(log.value)) else [];
    ghost var read := 0;
    for page := 0 to maxPages
      invariant read == page * MAX_LOG_PAGE_ENTRIES <= |entries|
      invariant DecodeCursor(cursor) == Ok(read)
      invariant SeenUpTo(seen, read)
      invariant tail == Last(Messages(entries[..read]), maxLines)
    {
      var response := Logs(log, cursor, 500);
      if response.Err? {
        return Err(CallFailed);
      }
      PageFacts(entries, read, MAX_LOG_PAGE_ENTRIES);
      MessagesConcat(entries[..read], response.value.entries);
      tail := AppendMessages(response.value.entries, maxLines, tail, Messages(entries[..read]));
      if response.value.nextCursor.None? || Strip(response.value.nextCursor.value) == "" {
        read := |entries|;
        break;
      }
      var next := Strip(response.value.nextCursor.value);
      LaterCursorIsNew(seen, read, read + MAX_LOG_PAGE_ENTRIES);
      if next in seen {
        return Err(RepeatedCursor);
      }
      seen := seen + {next};
      cursor := Some(next);
      read := read + MAX_LOG_PAGE_ENTRIES;
    }
    assert read == Min(|entries|, maxPages * MAX_LOG_PAGE_ENTRIES);
    r := Ok(tail);
  }
}
