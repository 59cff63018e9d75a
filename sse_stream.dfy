/** The server-sent-events reader of the web client's streaming chat call
    (CapstoneProject/apps/web/src/lib/api.ts, `chatApi.stream`).

    The response body arrives as chunks of text (already decoded). Each chunk is added
    to a buffer, the buffer is split on `'\n'`, every complete line is handled and the
    trailing partial line is kept for the next chunk. Lines starting with `event: ` are
    skipped; for a line starting with `data: ` the rest of the line is parsed and, when
    that succeeds, handed to `onChunk`. The JSON parser is a parameter (`parse`), its
    failure is `None`. */
module SseClient {
  import opened Wrappers
  import opened Strings

  predicate NoNewline(s: string) {
    '\n' !in s
  }

  predicate AllNoNewline(lines: seq<string>) {
    forall i :: 0 <= i < |lines| ==> NoNewline(lines[i])
  }

  /** The text the lines came from: each line followed by its `'\n'`. */
  function Terminated(lines: seq<string>): string {
    if lines == [] then "" else lines[0] + "\n" + Terminated(lines[1..])
  }


  lemma {:induction false} TerminatedAppend(a: seq<string>, b: seq<string>)
    ensures Terminated(a + b) == Terminated(a) + Terminated(b)
  {
    if a == [] {
      assert a + b == b;
    } else {
      assert (a + b)[0] == a[0] && (a + b)[1..] == a[1..] + b;
      TerminatedAppend(a[1..], b);
    }
  }

  lemma TerminatedCons(line: string, lines: seq<string>)
    ensures Terminated([line] + lines) == line + "\n" + Terminated(lines)
  {
    assert ([line] + lines)[0] == line && ([line] + lines)[1..] == lines;
  }

  /** `s.split('\n')`: the pieces between newlines, the last one being what follows
      the last newline (possibly empty). */
  function Split(s: string): (r: seq<string>)
    ensures |r| >= 1
    ensures AllNoNewline(r)
  {
    if s == [] then [""]
    else
      var rest := Split(s[1..]);
      if s[0] == '\n' then [""] + rest
      else
        [[s[0]] + rest[0]] + rest[1..]
  }

  /** The text a split came from: the pieces before the last, each followed by
      `'\n'`, then the last piece. */
  function Joined(r: seq<string>): string
    requires |r| >= 1
  {
    Terminated(r[..|r| - 1]) + r[|r| - 1]
  }

  lemma AppendAssoc(a: string, b: string, c: string)
    ensures (a + b) + c == a + (b + c)
  {
  }

  /** A leading newline puts an empty line in front. */
  lemma JoinedEmptyFirst(rest: seq<string>)
    requires |rest| >= 1
    ensures Joined([""] + rest) == "\n" + Joined(rest)
  {
    var r := [""] + rest;
    var front := rest[..|rest| - 1];
    assert r[..|r| - 1] == [""] + front;
    TerminatedCons("", front);
    AppendAssoc("\n", Terminated(front), rest[|rest| - 1]);
  }

  /** Any other leading character joins the first piece. */
  lemma JoinedGlue(c: char, rest: seq<string>)
    requires |rest| >= 1
    ensures Joined([[c] + rest[0]] + rest[1..]) == [c] + Joined(rest)
  {
    var r := [[c] + rest[0]] + rest[1..];
    var last := rest[|rest| - 1];
    if |rest| == 1 {
      assert r == [[c] + rest[0]];
      assert rest[..0] == [] && r[..0] == [];
    } else {
      var mid := rest[1..|rest| - 1];
      assert rest[..|rest| - 1] == [rest[0]] + mid;
      assert r[..|r| - 1] == [[c] + rest[0]] + mid;
      TerminatedCons(rest[0], mid);
      TerminatedCons([c] + rest[0], mid);
      assert r[|r| - 1] == last;
      AppendAssoc(rest[0] + "\n", Terminated(mid), last);
      AppendAssoc([c] + rest[0] + "\n", Terminated(mid), last);
    }
  }

  /** The pieces of a split, joined back, give the text that was split. */
  lemma {:induction false} SplitJoins(s: string)
    ensures Joined(Split(s)) == s
  {
    if s != [] {
      var rest := Split(s[1..]);
      SplitJoins(s[1..]);
      assert s == [s[0]] + s[1..];
      if s[0] == '\n' {
        JoinedEmptyFirst(rest);
      } else {
        JoinedGlue(s[0], rest);
      }
    }
  }

  /** A line without a newline, its newline, and then anything: the split starts with
      that line. */
  lemma {:induction false} SplitAfterLine(line: string, tail: string)
    requires NoNewline(line)
    ensures Split(line + "\n" + tail) == [line] + Split(tail)
  {
    if line == [] {
      assert line + "\n" + tail == ['\n'] + tail;
      assert (['\n'] + tail)[1..] == tail;
    } else {
      var s := line + "\n" + tail;
      assert s[0] == line[0] && s[1..] == line[1..] + "\n" + tail;
      SplitAfterLine(line[1..], tail);
      assert [line[0]] + line[1..] == line;
    }
  }

  /** A string without newlines splits into itself. */
  lemma {:induction false} SplitNoNewline(s: string)
    requires NoNewline(s)
    ensures Split(s) == [s]
  {
    if s != [] {
      SplitNoNewline(s[1..]);
      assert [s[0]] + s[1..] == s;
    }
  }

  /** Cutting a text into newline-free lines and a newline-free remainder can only be
      done one way: the way `split` does it. */
  lemma {:induction false} SplitUnique(lines: seq<string>, rest: string)
    requires AllNoNewline(lines) && NoNewline(rest)
    ensures Split(Terminated(lines) + rest) == lines + [rest]
  {
    if lines == [] {
      assert Terminated(lines) + rest == rest;
      SplitNoNewline(rest);
    } else {
      SplitUnique(lines[1..], rest);
      assert lines == [lines[0]] + lines[1..];
      TerminatedCons(lines[0], lines[1..]);
      AppendAssoc(lines[0] + "\n", Terminated(lines[1..]), rest);
      SplitAfterLine(lines[0], Terminated(lines[1..]) + rest);
    }
  }

  /** The complete lines of a text: everything before its last newline. */
  function CompleteLines(text: string): seq<string> {
    var parts := Split(text);
    parts[..|parts| - 1]
  }

  /** What is left after the last newline of a text. */
  function Pending(text: string): string {
    var parts := Split(text);
    parts[|parts| - 1]
  }

  /** Whatever follows the last newline never reaches `onChunk`, however it reads. */
  lemma UnterminatedTailIgnored(lines: seq<string>, tail: string)
    requires AllNoNewline(lines) && NoNewline(tail)
    ensures CompleteLines(Terminated(lines) + tail) == lines
    ensures Pending(Terminated(lines) + tail) == tail
  {
    SplitUnique(lines, tail);
  }

  /** What one line hands to `onChunk`: nothing for an `event: ` line, the parsed payload
      of a `data: ` line when it parses, nothing otherwise. */
  function LineChunks<T>(line: string, parse: string -> Option<T>): seq<T> {
    if StartsWith(line, "event: ") then []
    else if StartsWith(line, "data: ") then
      (match parse(line[6..])
       case Some(v) => [v]
       case None => [])
    else []
  }

  /** The `onChunk` calls for a run of complete lines, in line order. */
  function Dispatch<T>(lines: seq<string>, parse: string -> Option<T>): seq<T> {
    if lines == [] then [] else LineChunks(lines[0], parse) + Dispatch(lines[1..], parse)
  }

  /** Dispatch is line by line: a failed parse on one line does not affect the calls for
      the lines after it. */
  lemma {:induction false} DispatchAppend<T>(a: seq<string>, b: seq<string>, parse: string -> Option<T>)
    ensures Dispatch(a + b, parse) == Dispatch(a, parse) + Dispatch(b, parse)
  {
    if a == [] {
      assert a + b == b;
    } else {
      assert (a + b)[0] == a[0] && (a + b)[1..] == a[1..] + b;
      DispatchAppend(a[1..], b, parse);
    }
  }

  /** Every call comes from a `data: ` line whose payload parsed. */
  lemma {:induction false} DispatchFromDataLines<T>(lines: seq<string>, parse: string -> Option<T>, k: nat)
    requires k < |Dispatch(lines, parse)|
    ensures exists i :: (0 <= i < |lines| && StartsWith(lines[i], "data: ") &&
                         parse(lines[i][6..]) == Some(Dispatch(lines, parse)[k]))
  {
    var head := LineChunks(lines[0], parse);
    if k < |head| {
      assert StartsWith(lines[0], "data: ") && parse(lines[0][6..]) == Some(head[k]);
    } else {
      DispatchFromDataLines(lines[1..], parse, k - |head|);
      var i :| 0 <= i < |lines[1..]| && StartsWith(lines[1..][i], "data: ") &&
        parse(lines[1..][i][6..]) == Some(Dispatch(lines[1..], parse)[k - |head|]);
      assert lines[i + 1] == lines[1..][i];
    }
  }

  // ---------------------------------------------------------------------------
  // The fetch response and the reading loop

  /** The body of a failed response as `response.json()` gives it: unreadable, or an
      object with an optional `error` field. */
  datatype ErrorBody = Unreadable | ErrorJson(error: Option<string>)

  datatype Response = Response(ok: bool, status: nat, errorBody: ErrorBody, hasBody: bool)

  datatype Outcome = Completed | Thrown(message: string)

  /** The message thrown for a non-ok response. */
  function HttpErrorText(r: Response): (msg: string)
    ensures r.errorBody.Unreadable? ==> msg == "Unknown error"
    ensures r.errorBody.ErrorJson? && r.errorBody.error.Some? && r.errorBody.error.value != "" ==>
      msg == r.errorBody.error.value
    ensures r.errorBody.ErrorJson? && (r.errorBody.error.None? || r.errorBody.error.value == "") ==>
      msg == "HTTP error! status: " + NatToString(r.status)
  {
    match r.errorBody
    case Unreadable => "Unknown error"
    case ErrorJson(e) =>
      if e.Some? && e.value != "" then e.value else "HTTP error! status: " + NatToString(r.status)
  }

  lemma ConcatSnoc(chunks: seq<string>, i: nat)
    requires i < |chunks|
    ensures Concat(chunks[..i + 1]) == Concat(chunks[..i]) + chunks[i]
  {
    assert chunks[..i + 1][..i] == chunks[..i];
  }

  /** One read keeps the loop's bookkeeping: the lines handled so far, each with its
      newline, followed by the kept partial line, are exactly the chunks received, and
      none of them holds a newline. */
  lemma ReadStep(processed: seq<string>, buffer: string, chunks: seq<string>, i: nat)
    requires i < |chunks| && AllNoNewline(processed)
    requires Terminated(processed) + buffer == Concat(chunks[..i])
    ensures var parts := Split(buffer + chunks[i]);
      && AllNoNewline(processed + parts[..|parts| - 1])
      && NoNewline(parts[|parts| - 1])
      && Terminated(processed + parts[..|parts| - 1]) + parts[|parts| - 1] == Concat(chunks[..i + 1])
  {
    var parts := Split(buffer + chunks[i]);
    var complete, rest := parts[..|parts| - 1], parts[|parts| - 1];
    var tp, tc := Terminated(processed), Terminated(complete);
    SplitJoins(buffer + chunks[i]);
    TerminatedAppend(processed, complete);
    AppendAssoc(tp, tc, rest);
    AppendAssoc(tp, buffer, chunks[i]);
    ConcatSnoc(chunks, i);
    var all := processed + complete;
    forall k | 0 <= k < |all| ensures NoNewline(all[k]) {
      if k < |processed| {
        assert all[k] == processed[k];
      } else {
        assert all[k] == parts[k - |processed|];
      }
    }
  }

  /** The `for (const line of lines)` loop: the `onChunk` calls for the complete lines
      of one read, in order. */
  method HandleLines<T>(complete: seq<string>, parse: string -> Option<T>) returns (calls: seq<T>)
    ensures calls == Dispatch(complete, parse)
  {
    calls := [];
    var j := 0;
    while j < |complete|
      invariant 0 <= j <= |complete|
      invariant calls == Dispatch(complete[..j], parse)
    {
      var line := complete[j];
      if StartsWith(line, "event: ") {
        // skipped
      } else if StartsWith(line, "data: ") {
        var chunkData := parse(line[6..]);
        if chunkData.Some? {
          calls := calls + [chunkData.value];
        }
      }
      assert complete[..j + 1] == complete[..j] + [line];
      DispatchAppend(complete[..j], [line], parse);
      j := j + 1;
    }
    assert complete[..j] == complete;
  }

  /** `chatApi.stream` after the request has been sent: `chunks` is what the reader
      yields before reporting `done`, `dispatched` the arguments of the `onChunk` calls. */
  method Stream<T>(response: Response, chunks: seq<string>, parse: string -> Option<T>)
    returns (outcome: Outcome, dispatched: seq<T>)
    ensures !response.ok ==> outcome == Thrown(HttpErrorText(response)) && dispatched == []
    ensures response.ok && !response.hasBody ==> outcome == Thrown("No reader available") && dispatched == []
    ensures response.ok && response.hasBody ==>
      outcome == Completed && dispatched == Dispatch(CompleteLines(Concat(chunks)), parse)
  {
    dispatched := [];
    if !response.ok {
      return Thrown(HttpErrorText(response)), [];
    }
    if !response.hasBody {
      return Thrown("No reader available"), [];
    }
    var buffer := "";
    ghost var processed: seq<string> := [];
    var i := 0;
    while i < |chunks|
      invariant 0 <= i <= |chunks|
      invariant NoNewline(buffer) && AllNoNewline(processed)
      invariant Terminated(processed) + buffer == Concat(chunks[..i])
      invariant dispatched == Dispatch(processed, parse)
    {
      ReadStep(processed, buffer, chunks, i);
      var lines := Split(buffer + chunks[i]);
      var complete := lines[..|lines| - 1];
      buffer := lines[|lines| - 1];

      var calls := HandleLines(complete, parse);
      DispatchAppend(processed, complete, parse);
      dispatched := dispatched + calls;
      processed := processed + complete;
      i := i + 1;
    }
    assert chunks[..i] == chunks;
    UnterminatedTailIgnored(processed, buffer);
    outcome := Completed;
  }
}
