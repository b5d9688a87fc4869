/** The "sync all" progress stream of `syncAllViews`: the client reads the
    response body chunk by chunk, keeps a text buffer, cuts it at every blank
    line ("\n\n") and hands each complete part whose trimmed text starts with
    "data: " to `JSON.parse`. `JSON.parse` is the parameter `parse`, a partial
    function from text to an event (`None` where it throws). */
module ApiStream {
  import opened Wrappers
  import opened Strings
  import opened Lists

  const Separator: string := "\n\n"
  const DataPrefix: string := "data: "

  /** What reaches `onEvent`: a parsed server event, or an error event the
      client builds itself. */
  datatype Emitted<E> = Message(data: E) | ErrorEvent(error: string)

  /** A rejected promise: the error's `name` and `message`. */
  datatype Failure = Failure(name: string, message: string)

  /** How the request went, as far as the client can observe it. */
  datatype Response =
    | Rejected(failure: Failure)                        // `fetch` itself rejected
    | NotOk(status: int, bodyError: Option<string>)     // `res.ok` is false; `body.error` of the JSON body, if any
    | Streamed(chunks: seq<string>, end: Option<Failure>)  // decoded chunks, then the end of the body or a read failure

  /** The text after "data: " of a part, when its trimmed text carries that prefix. */
  function Payload(part: string): (r: Option<string>)
    ensures r.Some? <==> StartsWith(Trim(part), DataPrefix)
    ensures r.Some? ==> Trim(part) == DataPrefix + r.value
  {
    var line := Trim(part);
    if StartsWith(line, DataPrefix) then
      assert line == line[..6] + line[6..];
      Some(line[6..])
    else None
  }

  /** One part's contribution: an event when it is a data line whose payload parses. */
  function PartEvent<E>(part: string, parse: string -> Option<E>): (r: seq<E>)
    ensures |r| <= 1
    ensures |r| == 1 <==> Payload(part).Some? && parse(Payload(part).value).Some?
    ensures |r| == 1 ==> r[0] == parse(Payload(part).value).value
  {
    match Payload(part)
    case None => []
    case Some(p) =>
      match parse(p)
      case None => []
      case Some(e) => [e]
  }

  /** The events of a list of complete parts, in order. */
  function PartEvents<E>(parts: seq<string>, parse: string -> Option<E>): seq<E>
  {
    if parts == [] then [] else PartEvents(parts[..|parts| - 1], parse) + PartEvent(parts[|parts| - 1], parse)
  }

  lemma {:induction false} PartEventsAppend<E>(a: seq<string>, b: seq<string>, parse: string -> Option<E>)
    ensures PartEvents(a + b, parse) == PartEvents(a, parse) + PartEvents(b, parse)
    decreases |b|
  {
    if b == [] {
      assert a + b == a;
    } else {
      var b' := b[..|b| - 1];
      var last := PartEvent(b[|b| - 1], parse);
      assert (a + b)[..|a + b| - 1] == a + b';
      assert (a + b)[|a + b| - 1] == b[|b| - 1];
      assert PartEvents(a + b, parse) == PartEvents(a + b', parse) + last;
      PartEventsAppend(a, b', parse);
      Assoc(PartEvents(a, parse), PartEvents(b', parse), last);
    }
  }

  /** Every event comes from some part, and a part that is not a data line or
      whose payload does not parse contributes nothing. */
  lemma {:induction false} PartEventsFrom<E>(parts: seq<string>, parse: string -> Option<E>)
    ensures |PartEvents(parts, parse)| <= |parts|
    ensures (forall i :: 0 <= i < |parts| ==> PartEvent(parts[i], parse) == []) ==> PartEvents(parts, parse) == []
    decreases |parts|
  {
    if parts != [] {
      PartEventsFrom(parts[..|parts| - 1], parse);
    }
  }

  /** The complete parts of a buffer (they are followed by a separator). */
  function CompleteParts(buffer: string): seq<string>
  {
    AllButLast(Split(buffer, Separator))
  }

  /** The unterminated rest of a buffer, kept for the next chunk. */
  function Rest(buffer: string): string
  {
    Last(Split(buffer, Separator))
  }

  /** One chunk (lines 205-207): the buffer plus the chunk is cut into its
      complete parts and a rest; the rest holds no separator and nothing is
      lost. */
  lemma SplitFacts(text: string)
    ensures !Contains(Rest(text), Separator)
    ensures Join(CompleteParts(text) + [Rest(text)], Separator) == text
    ensures CompleteParts(text) != [] ==> text == Join(CompleteParts(text), Separator) + Separator + Rest(text)
  {
    var parts := Split(text, Separator);
    JoinSplit(text, Separator);
    SplitPiecesFree(text, Separator, |parts| - 1);
    assert parts == AllButLast(parts) + [Last(parts)];
    if |parts| > 1 {
      JoinSnoc(AllButLast(parts), Last(parts), Separator);
    }
  }

  lemma {:induction false} JoinSnoc(a: seq<string>, x: string, sep: string)
    requires a != []
    ensures Join(a + [x], sep) == Join(a, sep) + sep + x
    decreases |a|
  {
    if |a| == 1 {
      assert a + [x] == [a[0], x];
    } else {
      assert (a + [x])[1..] == a[1..] + [x];
      JoinSnoc(a[1..], x, sep);
    }
  }

  function Concat(chunks: seq<string>): string
  {
    if chunks == [] then "" else chunks[0] + Concat(chunks[1..])
  }

  lemma {:induction false} ConcatSnoc(chunks: seq<string>, c: string)
    ensures Concat(chunks + [c]) == Concat(chunks) + c
    decreases |chunks|
  {
    if chunks == [] {
      assert Concat([c]) == c + Concat([]);
    } else {
      assert (chunks + [c])[1..] == chunks[1..] + [c];
      ConcatSnoc(chunks[1..], c);
    }
  }

  /** The read loop as a fold: the parts completed chunk by chunk and the
      final buffer. */
  function Run(buffer: string, chunks: seq<string>): (seq<string>, string)
    decreases |chunks|
  {
    if chunks == [] then ([], buffer)
    else
      var text := buffer + chunks[0];
      var later := Run(Rest(text), chunks[1..]);
      (CompleteParts(text) + later.0, later.1)
  }

  /** Chunk boundaries do not matter: the fold produces exactly the parts and
      the rest of splitting the whole text at once. */
  lemma {:induction false} RunIsOneShot(buffer: string, chunks: seq<string>)
    requires !Contains(buffer, Separator)
    ensures Run(buffer, chunks) == (CompleteParts(buffer + Concat(chunks)), Rest(buffer + Concat(chunks)))
    decreases |chunks|
  {
    if chunks == [] {
      assert buffer + Concat(chunks) == buffer;
      SplitFree(buffer, Separator);
    } else {
      var next := Rest(buffer + chunks[0]);
      SplitFacts(buffer + chunks[0]);
      RunIsOneShot(next, chunks[1..]);
      RunStep(buffer, chunks);
    }
  }

  /** One unfolding of `Run`, combined with what is known of the later chunks. */
  lemma RunStep(buffer: string, chunks: seq<string>)
    requires chunks != []
    requires Run(Rest(buffer + chunks[0]), chunks[1..])
          == (CompleteParts(Rest(buffer + chunks[0]) + Concat(chunks[1..])), Rest(Rest(buffer + chunks[0]) + Concat(chunks[1..])))
    ensures Run(buffer, chunks) == (CompleteParts(buffer + Concat(chunks)), Rest(buffer + Concat(chunks)))
  {
    var c := chunks[0];
    var tail := Concat(chunks[1..]);
    assert Concat(chunks) == c + tail;
    Assoc(buffer, c, tail);
    AppendSteps(buffer + c, tail);
  }

  /** Appending `c` to a text completes the text's own parts, then those of
      its rest followed by `c`. */
  lemma AppendSteps(x: string, c: string)
    ensures CompleteParts(x + c) == CompleteParts(x) + CompleteParts(Rest(x) + c)
    ensures Rest(x + c) == Rest(Rest(x) + c)
  {
    SplitAppend(x, c, Separator);
    var later := Split(Rest(x) + c, Separator);
    var whole := Split(x + c, Separator);
    assert whole == CompleteParts(x) + later;
    assert AllButLast(whole) == CompleteParts(x) + AllButLast(later);
  }

  /** The events a stream text yields once fully read. */
  function StreamEvents<E>(chunks: seq<string>, parse: string -> Option<E>): seq<E>
  {
    PartEvents(Run("", chunks).0, parse)
  }

  /** Two chunkings of the same text deliver the same events: an event cut in
      two by a chunk boundary is delivered once. */
  lemma SameTextSameEvents<E>(c1: seq<string>, c2: seq<string>, parse: string -> Option<E>)
    requires Concat(c1) == Concat(c2)
    ensures StreamEvents(c1, parse) == StreamEvents(c2, parse)
  {
    ShortNotContains("", Separator);
    RunIsOneShot("", c1);
    RunIsOneShot("", c2);
  }

  /** Text without a blank line yields nothing: a final, unterminated
      `data:` line is discarded when the stream ends. */
  lemma UnterminatedSilent<E>(chunks: seq<string>, parse: string -> Option<E>)
    requires !Contains(Concat(chunks), Separator)
    ensures StreamEvents(chunks, parse) == []
  {
    ShortNotContains("", Separator);
    RunIsOneShot("", chunks);
    assert "" + Concat(chunks) == Concat(chunks);
    SplitFree(Concat(chunks), Separator);
  }

  /** A data line followed by a blank line delivers its parsed payload, even
      when it arrives in two chunks. */
  lemma OneFrameDelivered<E>(payload: string, k: nat, parse: string -> Option<E>)
    requires !Contains(DataPrefix + payload, Separator)
    requires payload != [] && !IsJsWhitespace(payload[|payload| - 1])
    requires parse(payload).Some?
    requires k <= |DataPrefix + payload + Separator|
    ensures var text := DataPrefix + payload + Separator;
            StreamEvents([text[..k], text[k..]], parse) == [parse(payload).value]
  {
    var line := DataPrefix + payload;
    var text := line + Separator;
    TwoChunks(text, k);
    SameTextSameEvents([text[..k], text[k..]], [text], parse);
    OneChunk(text, parse);
    FrameParts(line);
    DataLineEvent(payload, parse);
  }

  /** Cutting a text in two chunks loses nothing. */
  lemma TwoChunks(text: string, k: nat)
    requires k <= |text|
    ensures Concat([text[..k], text[k..]]) == Concat([text])
  {
    assert Concat([text[k..]]) == text[k..] + Concat([]);
    assert Concat([text]) == text + Concat([]);
    assert text[..k] + text[k..] == text;
  }

  /** A stream of one chunk yields the events of that chunk's complete parts. */
  lemma OneChunk<E>(text: string, parse: string -> Option<E>)
    ensures StreamEvents([text], parse) == PartEvents(CompleteParts(text), parse)
  {
    ShortNotContains("", Separator);
    RunIsOneShot("", [text]);
    ConcatOne(text);
  }

  lemma ConcatOne(text: string)
    ensures "" + Concat([text]) == text
  {
    assert Concat([text]) == text + Concat([]);
  }

  /** A line without a blank line, followed by one, is one complete part. */
  lemma FrameParts(line: string)
    requires !Contains(line, Separator) && line != [] && line[|line| - 1] != '\n'
    ensures CompleteParts(line + Separator) == [line]
  {
    forall i | 0 <= i < |line|
      ensures !IsPrefix(Separator, (line + Separator + "")[i..])
    {
      NoEarlyCut(line, i);
    }
    assert line + Separator == line + Separator + "";
    SplitAtFirst(line, "", Separator);
  }

  /** A data line whose payload parses is delivered as that one event. */
  lemma DataLineEvent<E>(payload: string, parse: string -> Option<E>)
    requires payload != [] && !IsJsWhitespace(payload[|payload| - 1])
    requires parse(payload).Some?
    ensures PartEvents([DataPrefix + payload], parse) == [parse(payload).value]
  {
    var line := DataPrefix + payload;
    TrimIdentity(line);
    assert line[..6] == DataPrefix;
    assert line[6..] == payload;
    assert PartEvents([line], parse) == PartEvents([], parse) + PartEvent(line, parse);
  }

  /** In `line + "\n\n"`, where `line` has no blank line and does not end in a
      newline, the separator first occurs at the end of `line`. */
  lemma NoEarlyCut(line: string, i: nat)
    requires !Contains(line, Separator) && line != [] && line[|line| - 1] != '\n'
    requires i < |line|
    ensures !IsPrefix(Separator, (line + Separator + "")[i..])
  {
    var s := line + Separator + "";
    if i + 2 <= |line| {
      NotContainsAt(line, i);
      assert s[i..][..2] == line[i..][..2];
    } else {
      assert i == |line| - 1;
      assert s[i] == line[|line| - 1];
    }
  }

  lemma {:induction false} NotContainsAt(s: string, i: nat)
    requires !Contains(s, Separator) && i < |s|
    ensures !IsPrefix(Separator, s[i..])
    decreases i
  {
    if i > 0 {
      assert s[1..][i - 1..] == s[i..];
      NotContainsAt(s[1..], i - 1);
    }
  }

  /** The read loop of `syncAllViews` (lines 199-220): it returns the events
      handed to `onEvent` and the buffer left when the body ends. */
  method ReadStream<E>(chunks: seq<string>, parse: string -> Option<E>) returns (events: seq<E>, buffer: string)
    ensures buffer == Rest(Concat(chunks)) && !Contains(buffer, Separator)
    ensures events == PartEvents(CompleteParts(Concat(chunks)), parse)
    ensures events == StreamEvents(chunks, parse)
  {
    buffer := "";
    events := [];
    var i := 0;
    while i < |chunks|
      invariant 0 <= i <= |chunks|
      invariant buffer == Rest(Concat(chunks[..i]))
      invariant events == PartEvents(CompleteParts(Concat(chunks[..i])), parse)
    {
      LoopStep(chunks, i, parse);
      buffer := buffer + chunks[i];
      var parts := Split(buffer, Separator);
      buffer := Last(parts);
      var emitted := EmitParts(AllButLast(parts), parse);
      events := events + emitted;
      i := i + 1;
    }
    ReadDone(chunks, parse);
  }

  /** After the last chunk, the loop's invariant gives the method's promise. */
  lemma ReadDone<E>(chunks: seq<string>, parse: string -> Option<E>)
    ensures chunks[..|chunks|] == chunks
    ensures !Contains(Rest(Concat(chunks)), Separator)
    ensures PartEvents(CompleteParts(Concat(chunks)), parse) == StreamEvents(chunks, parse)
  {
    assert chunks[..|chunks|] == chunks;
    SplitFacts(Concat(chunks));
    ShortNotContains("", Separator);
    RunIsOneShot("", chunks);
    assert "" + Concat(chunks) == Concat(chunks);
  }

  /** The inner `for` loop (lines 209-219): each part in order, trimmed,
      checked for the "data: " prefix and parsed; malformed payloads are skipped. */
  method EmitParts<E>(parts: seq<string>, parse: string -> Option<E>) returns (events: seq<E>)
    ensures events == PartEvents(parts, parse)
  {
    events := [];
    var j := 0;
    while j < |parts|
      invariant 0 <= j <= |parts|
      invariant events == PartEvents(parts[..j], parse)
    {
      var line := Trim(parts[j]);
      PartEventsSnoc(parts, j, parse);
      OneLine(parts[j], line, parse);
      if StartsWith(line, DataPrefix) {
        match parse(line[6..]) {
          case Some(e) => events := events + [e];
          case None =>
        }
      }
      j := j + 1;
    }
    assert parts[..|parts|] == parts;
  }

  /** What the loop body does with one part is that part's `PartEvent`. */
  lemma OneLine<E>(part: string, line: string, parse: string -> Option<E>)
    requires line == Trim(part)
    ensures !StartsWith(line, DataPrefix) ==> PartEvent(part, parse) == []
    ensures StartsWith(line, DataPrefix) && parse(line[6..]).None? ==> PartEvent(part, parse) == []
    ensures StartsWith(line, DataPrefix) && parse(line[6..]).Some? ==> PartEvent(part, parse) == [parse(line[6..]).value]
  {
  }

  lemma PartEventsSnoc<E>(parts: seq<string>, j: nat, parse: string -> Option<E>)
    requires j < |parts|
    ensures PartEvents(parts[..j + 1], parse) == PartEvents(parts[..j], parse) + PartEvent(parts[j], parse)
  {
    assert parts[..j + 1][..j] == parts[..j];
  }

  /** One pass of the outer read loop keeps its invariant. */
  lemma LoopStep<E>(chunks: seq<string>, i: nat, parse: string -> Option<E>)
    requires i < |chunks|
    ensures var before := Rest(Concat(chunks[..i]));
            var parts := Split(before + chunks[i], Separator);
            Rest(Concat(chunks[..i + 1])) == Last(parts) &&
            PartEvents(CompleteParts(Concat(chunks[..i + 1])), parse)
              == PartEvents(CompleteParts(Concat(chunks[..i])), parse) + PartEvents(AllButLast(parts), parse)
  {
    var done := chunks[..i];
    var c := chunks[i];
    assert chunks[..i + 1] == done + [c];
    ConcatSnoc(done, c);
    AppendSteps(Concat(done), c);
    PartEventsAppend(CompleteParts(Concat(done)), CompleteParts(Rest(Concat(done)) + c), parse);
  }

  /** The message of the error event for a non-OK response (lines 192-193):
      `body.error` when it is a non-empty string, else "API error: <status>". */
  function NotOkMessage(status: int, bodyError: Option<string>): (m: string)
    ensures TruthyString(bodyError) ==> m == bodyError.value
    ensures !TruthyString(bodyError) ==> m == "API error: " + IntToString(status)
  {
    if TruthyString(bodyError) then bodyError.value else "API error: " + IntToString(status)
  }

  /** The `.catch` handler (lines 222-226): an aborted request is silent,
      any other failure becomes one error event. */
  function FailureEvents<E>(f: Failure): (r: seq<Emitted<E>>)
    ensures f.name == "AbortError" ==> r == []
    ensures f.name != "AbortError" ==> r == [ErrorEvent(f.message)]
  {
    if f.name != "AbortError" then [ErrorEvent(f.message)] else []
  }

  function Messages<E>(es: seq<E>): (r: seq<Emitted<E>>)
    ensures |r| == |es|
    ensures forall i :: 0 <= i < |es| ==> r[i] == Message(es[i])
  {
    if es == [] then [] else [Message(es[0])] + Messages(es[1..])
  }

  /** `syncAllViews` from the response to the sequence of `onEvent` calls. */
  method SyncAllViews<E>(response: Response, parse: string -> Option<E>) returns (events: seq<Emitted<E>>)
    ensures response.Rejected? ==> events == FailureEvents(response.failure)
    ensures response.NotOk? ==> events == [ErrorEvent(NotOkMessage(response.status, response.bodyError))]
    ensures response.Streamed? ==>
      events == Messages(StreamEvents(response.chunks, parse))
                + (if response.end.Some? then FailureEvents(response.end.value) else [])
    ensures forall k :: 0 <= k < |events| && events[k].ErrorEvent? ==> k == |events| - 1
  {
    match response {
      case Rejected(f) =>
        events := FailureEvents(f);
      case NotOk(status, bodyError) =>
        events := [ErrorEvent(NotOkMessage(status, bodyError))];
      case Streamed(chunks, end) =>
        var parsed, _ := ReadStream(chunks, parse);
        events := Messages(parsed);
        if end.Some? {
          events := events + FailureEvents(end.value);
        }
    }
  }
}
