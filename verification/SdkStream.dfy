/** `stream_chat_events`: the SDK's parser of the same framing. */
module SdkStream {
  import opened Folds
  import opened Options
  import opened EventStream

  datatype ChatEvent = ChatEvent(kind: string, ts: string, payload: string)

  /** The event name in force, what was yielded, and whether decoding or building an event raised. */
  datatype Outcome = Outcome(event: Option<string>, yielded: seq<ChatEvent>, failed: bool)

  function TypeOr(event: Option<string>): string {
    if event.None? || event.value == "" then "unknown" else event.value
  }

  /** A datum the SDK can turn into an event: `.get` needs an object, and the event checks types. */
  predicate Accepted(parsed: Parsed) {
    parsed.Single? && parsed.payload.isObject && parsed.payload.wellTyped
  }

  function EventFrom(event: Option<string>, p: Payload): ChatEvent {
    ChatEvent(Or(p.kind, TypeOr(event)), Or(p.ts, ""), Or(p.content, p.body))
  }

  function OnSdkLine(parse: string -> Parsed, o: Outcome, line: string): Outcome {
    if o.failed then o
    else if "event: " <= line then o.(event := Some(line[7..]))
    else if "data: " <= line then
      var raw := parse(line[6..]);
      if Accepted(raw) then o.(yielded := o.yielded + [EventFrom(o.event, raw.payload)])
      else o.(failed := true)
    else o
  }

  function SdkStep(parse: string -> Parsed): (Outcome, string) -> Outcome {
    (o, line) => OnSdkLine(parse, o, line)
  }

  function OnSdkLines(parse: string -> Parsed, o: Outcome, lines: seq<string>): Outcome {
    Fold(SdkStep(parse), o, lines)
  }

  lemma SdkAppend(parse: string -> Parsed, o: Outcome, lines: seq<string>, line: string)
    ensures OnSdkLines(parse, o, lines + [line]) == OnSdkLine(parse, OnSdkLines(parse, o, lines), line)
  {
    FoldAppend(SdkStep(parse), o, lines, line);
  }

  function SdkParse(parse: string -> Parsed, text: string): Outcome {
    OnSdkLines(parse, Outcome(None, [], false), Lines(text))
  }

  ghost predicate SdkHandled(parse: string -> Parsed, lines: seq<string>, o: Outcome) {
    o == OnSdkLines(parse, Outcome(None, [], false), lines)
  }

  lemma SdkHandledNext(parse: string -> Parsed, lines: seq<string>, o: Outcome, line: string)
    requires SdkHandled(parse, lines, o)
    ensures SdkHandled(parse, lines + [line], OnSdkLine(parse, o, line))
  {
    SdkAppend(parse, Outcome(None, [], false), lines, line);
  }

  method SdkHandleLine(parse: string -> Parsed, o: Outcome, line: string) returns (next: Outcome)
    requires !o.failed
    ensures next == OnSdkLine(parse, o, line)
  {
    next := o;
    if "event: " <= line {
      next := next.(event := Some(line[7..]));
    } else if "data: " <= line {
      var raw := parse(line[6..]);
      if !Accepted(raw) {
        next := next.(failed := true);
      } else {
        next := next.(yielded := next.yielded + [EventFrom(next.event, raw.payload)]);
      }
    }
  }

  lemma {:induction false} FailedStays(parse: string -> Parsed, o: Outcome, lines: seq<string>)
    requires o.failed
    ensures OnSdkLines(parse, o, lines) == o
  {
    if lines != [] {
      FailedStays(parse, o, lines[..|lines| - 1]);
    }
  }

  lemma OnSdkLinesSplit(parse: string -> Parsed, o: Outcome, a: seq<string>, b: seq<string>)
    ensures OnSdkLines(parse, o, a + b) == OnSdkLines(parse, OnSdkLines(parse, o, a), b)
  {
    FoldSplit(SdkStep(parse), o, a, b);
  }

  /** The SDK, too, yields the same whatever the chunks; it stops at the first datum that
      cannot be turned into an event. */
  method StreamChatEvents(parse: string -> Parsed, chunks: seq<string>) returns (o: Outcome)
    ensures o == SdkParse(parse, Concat(chunks))
  {
    o := Outcome(None, [], false);
    var buffer := "";
    ghost var text := "";
    var k := 0;
    while k < |chunks| && !o.failed
      invariant 0 <= k <= |chunks|
      invariant text == Concat(chunks[..k])
      invariant !o.failed ==> buffer == Tail(text)
      invariant SdkHandled(parse, Lines(text), o)
    {
      LinesOfTwo(text, chunks[k]);
      assert chunks[..k + 1][..k] == chunks[..k];
      ghost var taken := Lines(text);
      text := text + chunks[k];
      buffer := buffer + chunks[k];
      o, buffer := SdkDrain(parse, o, buffer, text, taken);
      k := k + 1;
    }
    ConcatSplit(chunks, k);
    LinesOfTwo(text, Concat(chunks[k..]));
    if o.failed {
      OnSdkLinesSplit(parse, Outcome(None, [], false), Lines(text), Lines(Tail(text) + Concat(chunks[k..])));
      FailedStays(parse, o, Lines(Tail(text) + Concat(chunks[k..])));
    } else {
      assert chunks[..k] == chunks;
    }
  }

  lemma {:induction false} ConcatSplit(chunks: seq<string>, k: nat)
    requires k <= |chunks|
    ensures Concat(chunks) == Concat(chunks[..k]) + Concat(chunks[k..])
    decreases |chunks| - k
  {
    var n := |chunks|;
    if k == n {
      assert chunks[..k] == chunks && chunks[k..] == [];
    } else {
      var init := chunks[..n - 1];
      ConcatSplit(init, k);
      assert init[..k] == chunks[..k] && init[k..] == chunks[k..][..|chunks[k..]| - 1];
    }
  }

  method SdkDrain(parse: string -> Parsed, start: Outcome, pending: string, ghost text: string, ghost taken: seq<string>)
    returns (o: Outcome, buffer: string)
    requires !start.failed && Taken(text, taken, pending) && SdkHandled(parse, taken, start)
    ensures SdkHandled(parse, Lines(text), o)
    ensures !o.failed ==> buffer == Tail(text)
  {
    o, buffer := start, pending;
    ghost var done := taken;
    var i := IndexOf(buffer, '\n');
    while i != -1 && !o.failed
      invariant i == IndexOf(buffer, '\n')
      invariant Taken(text, done, buffer)
      invariant SdkHandled(parse, done, o)
      decreases |buffer|
    {
      TakeLine(text, done, buffer);
      var line := buffer[..i];
      buffer := buffer[i + 1..];
      SdkHandledNext(parse, done, o, line);
      o := SdkHandleLine(parse, o, line);
      done := done + [line];
      i := IndexOf(buffer, '\n');
    }
    if o.failed {
      OnSdkLinesSplit(parse, Outcome(None, [], false), done, Lines(buffer));
      FailedStays(parse, o, Lines(buffer));
    } else {
      OneLine(buffer);
      assert done + [] == done;
    }
  }
}
