/** `readSSEStream`: a line buffer over chunks, the named event in force, and a call to the
    handlers for every data line. */
module EventStream {
  import opened Folds
  import opened Options

  // ------------------------------------------------------------------
  // Text
  // ------------------------------------------------------------------

  /** `s.indexOf(c)` */
  function IndexOf(s: string, c: char): (i: int)
    ensures -1 <= i < |s|
    ensures i >= 0 ==> s[i] == c && forall j | 0 <= j < i :: s[j] != c
    ensures i < 0 ==> c !in s
  {
    if s == [] then -1
    else if s[0] == c then 0
    else
      var rest := IndexOf(s[1..], c);
      assert rest < 0 ==> forall x | x in s :: x == s[0] || x in s[1..];
      if rest < 0 then -1 else rest + 1
  }

  /** White space in the sense of `String.prototype.trim`. */
  predicate IsSpace(c: char) {
    var n := c as int;
    9 <= n <= 13 || n == 32 || n == 160 || n == 0x1680 || 0x2000 <= n <= 0x200a
    || n == 0x2028 || n == 0x2029 || n == 0x202f || n == 0x205f || n == 0x3000 || n == 0xfeff
  }

  function TrimStart(s: string): string {
    if s != [] && IsSpace(s[0]) then TrimStart(s[1..]) else s
  }

  function TrimEnd(s: string): string {
    if s != [] && IsSpace(s[|s| - 1]) then TrimEnd(s[..|s| - 1]) else s
  }

  function Trim(s: string): string {
    TrimEnd(TrimStart(s))
  }

  /** The complete lines of a text, without their newlines. */
  function Lines(text: string): seq<string> {
    if text == "" then []
    else
      var init := text[..|text| - 1];
      if text[|text| - 1] == '\n' then Lines(init) + [Tail(init)] else Lines(init)
  }

  /** What follows the last newline. */
  function Tail(text: string): string {
    if text == "" || text[|text| - 1] == '\n' then "" else Tail(text[..|text| - 1]) + [text[|text| - 1]]
  }

  function Concat(chunks: seq<string>): string {
    if chunks == [] then "" else Concat(chunks[..|chunks| - 1]) + chunks[|chunks| - 1]
  }

  lemma {:induction false} TailOfTwo(a: string, b: string)
    ensures Tail(a + b) == Tail(Tail(a) + b)
    decreases |b|
  {
    if b == "" {
      TailHasNoNewline(a);
      OneLine(Tail(a));
      assert a + b == a && Tail(a) + b == Tail(a);
    } else {
      TailOfTwo(a, b[..|b| - 1]);
      assert (a + b)[..|a + b| - 1] == a + b[..|b| - 1];
      assert (Tail(a) + b)[..|Tail(a) + b| - 1] == Tail(a) + b[..|b| - 1];
    }
  }

  /** Cutting a text anywhere: the part after the last newline waits for the rest. */
  lemma {:induction false} LinesOfTwo(a: string, b: string)
    ensures Lines(a + b) == Lines(a) + Lines(Tail(a) + b)
    ensures Tail(a + b) == Tail(Tail(a) + b)
    decreases |b|
  {
    TailOfTwo(a, b);
    if b == "" {
      TailHasNoNewline(a);
      OneLine(Tail(a));
      assert a + b == a && Tail(a) + b == Tail(a);
    } else {
      LinesOfTwo(a, b[..|b| - 1]);
      assert (a + b)[..|a + b| - 1] == a + b[..|b| - 1];
      assert (Tail(a) + b)[..|Tail(a) + b| - 1] == Tail(a) + b[..|b| - 1];
    }
  }

  lemma {:induction false} OneLine(text: string)
    requires '\n' !in text
    ensures Lines(text) == [] && Tail(text) == text
  {
    if text != "" {
      OneLine(text[..|text| - 1]);
    }
  }

  lemma {:induction false} TailHasNoNewline(text: string)
    ensures '\n' !in Tail(text)
  {
    if text != "" && text[|text| - 1] != '\n' {
      TailHasNoNewline(text[..|text| - 1]);
    }
  }

  /** A text that starts with a complete line. */
  lemma FirstLine(line: string, rest: string)
    requires '\n' !in line
    ensures Lines(line + "\n" + rest) == [line] + Lines(rest)
    ensures Tail(line + "\n" + rest) == Tail(rest)
  {
    OneLine(line);
    var first := line + "\n";
    assert first[..|first| - 1] == line;
    LinesOfTwo(first, rest);
    assert "" + rest == rest;
  }

  // ------------------------------------------------------------------
  // Dispatching
  // ------------------------------------------------------------------

  /** A data line handed over, with the event name in force. */
  datatype Dispatch = Dispatch(event: string, data: string)

  /** What decoding makes of a text.  `kind`, `ts` and `content` are the entries "type", "ts" and
      "payload" when present, `body` is the object without its type; `wellTyped` says that
      these entries have the types the SDK's event asks for. */
  datatype Payload = Payload(
    isObject: bool, wellTyped: bool, kind: Option<string>, ts: Option<string>, content: Option<string>, body: string)
  datatype Parsed = Malformed | Single(payload: Payload) | Several(items: seq<Payload>)

  datatype Call = OnEvent(payload: Payload) | OnError(text: string)

  function Objects(items: seq<Payload>): seq<Call> {
    if items == [] then [] else
      (if items[0].isObject then [OnEvent(items[0])] else []) + Objects(items[1..])
  }

  /** The handler calls one data line causes. */
  function Deliver(parse: string -> Parsed, d: Dispatch): seq<Call> {
    match parse(d.data)
    case Malformed => [OnError(d.data)]
    case Several(items) => Objects(items)
    case Single(p) =>
      if p.isObject && p.kind.None? && d.event != "" then [OnEvent(p.(kind := Some(d.event)))]
      else [OnEvent(p)]
  }

  function Deliveries(parse: string -> Parsed, ds: seq<Dispatch>): seq<Call> {
    if ds == [] then [] else Deliveries(parse, ds[..|ds| - 1]) + Deliver(parse, ds[|ds| - 1])
  }

  // ------------------------------------------------------------------
  // Lines
  // ------------------------------------------------------------------

  function StripReturn(line: string): string {
    if line != "" && line[|line| - 1] == '\r' then line[..|line| - 1] else line
  }

  datatype Progress = Progress(event: string, dispatched: seq<Dispatch>)

  /** The effect of one complete line. */
  function OnLine(p: Progress, raw: string): Progress {
    var line := StripReturn(raw);
    if line == "" then p.(event := "")
    else if ":" <= line then p
    else if "event:" <= line then p.(event := Trim(line[6..]))
    else if "data:" <= line then
      var data := Trim(line[5..]);
      if data == "" then p else p.(dispatched := p.dispatched + [Dispatch(p.event, data)])
    else p
  }

  function OnLines(p: Progress, lines: seq<string>): Progress {
    Fold(OnLine, p, lines)
  }

  /** The unfinished last line counts only if it carries data. */
  function OnTail(p: Progress, tail: string): Progress {
    var text := Trim(tail);
    if "data:" <= text then p.(dispatched := p.dispatched + [Dispatch(p.event, Trim(text[5..]))]) else p
  }

  /** What a whole text dispatches. */
  function ParseText(text: string): seq<Dispatch> {
    OnTail(OnLines(Progress("", []), Lines(text)), Tail(text)).dispatched
  }

  lemma OnLinesAppend(p: Progress, lines: seq<string>, line: string)
    ensures OnLines(p, lines + [line]) == OnLine(OnLines(p, lines), line)
  {
    FoldAppend(OnLine, p, lines, line);
  }

  lemma DeliveriesAppend(parse: string -> Parsed, ds: seq<Dispatch>, d: Dispatch)
    ensures Deliveries(parse, ds + [d]) == Deliveries(parse, ds) + Deliver(parse, d)
  {
    assert (ds + [d])[..|ds|] == ds;
  }

  /** The inner loop has taken `done` of the lines of `text`; `buffer` is the rest. */
  ghost predicate Taken(text: string, done: seq<string>, buffer: string) {
    Lines(text) == done + Lines(buffer) && Tail(text) == Tail(buffer)
  }

  lemma TakeLine(text: string, done: seq<string>, buffer: string)
    requires Taken(text, done, buffer) && IndexOf(buffer, '\n') >= 0
    ensures var i := IndexOf(buffer, '\n');
            Taken(text, done + [buffer[..i]], buffer[i + 1..])
  {
    var i := IndexOf(buffer, '\n');
    FirstLine(buffer[..i], buffer[i + 1..]);
    assert buffer == buffer[..i] + "\n" + buffer[i + 1..];
    assert done + ([buffer[..i]] + Lines(buffer[i + 1..])) == (done + [buffer[..i]]) + Lines(buffer[i + 1..]);
  }

  /** After `lines`, `event` is in force and the handlers have had `calls`. */
  ghost predicate Handled(parse: string -> Parsed, lines: seq<string>, event: string, calls: seq<Call>) {
    var p := OnLines(Progress("", []), lines);
    event == p.event && calls == Deliveries(parse, p.dispatched)
  }

  /** The body of the inner loop: one line. */
  method HandleLine(parse: string -> Parsed, raw: string, event0: string, calls0: seq<Call>, ghost lines: seq<string>)
    returns (event: string, calls: seq<Call>)
    requires Handled(parse, lines, event0, calls0)
    ensures Handled(parse, lines + [raw], event, calls)
  {
    event, calls := event0, calls0;
    OnLinesAppend(Progress("", []), lines, raw);
    var line := StripReturn(raw);
    if line == "" {
      event := "";
    } else if ":" <= line {
    } else if "event:" <= line {
      event := Trim(line[6..]);
    } else if "data:" <= line {
      var dataLine := Trim(line[5..]);
      if dataLine != "" {
        DeliveriesAppend(parse, OnLines(Progress("", []), lines).dispatched, Dispatch(event, dataLine));
        calls := calls + Deliver(parse, Dispatch(event, dataLine));
      }
    }
  }

  /** The inner loop: takes every complete line out of the buffer.  `text` is all that was
      received, `taken` the lines of it already handled. */
  method DrainLines(parse: string -> Parsed, pending: string, event0: string, calls0: seq<Call>,
                    ghost text: string, ghost taken: seq<string>)
    returns (buffer: string, event: string, calls: seq<Call>)
    requires Taken(text, taken, pending) && Handled(parse, taken, event0, calls0)
    ensures buffer == Tail(text) && '\n' !in buffer
    ensures Handled(parse, Lines(text), event, calls)
  {
    buffer, event, calls := pending, event0, calls0;
    ghost var done := taken;
    var nlIndex := IndexOf(buffer, '\n');
    while nlIndex != -1
      invariant nlIndex == IndexOf(buffer, '\n')
      invariant Taken(text, done, buffer)
      invariant Handled(parse, done, event, calls)
      decreases |buffer|
    {
      TakeLine(text, done, buffer);
      var raw := buffer[..nlIndex];
      buffer := buffer[nlIndex + 1..];
      event, calls := HandleLine(parse, raw, event, calls, done);
      done := done + [raw];
      nlIndex := IndexOf(buffer, '\n');
    }
    OneLine(buffer);
    assert done + [] == done;
  }

  /** The handler calls depend on the text alone, not on how it arrives in chunks. */
  method ReadStream(parse: string -> Parsed, chunks: seq<string>) returns (calls: seq<Call>)
    ensures calls == Deliveries(parse, ParseText(Concat(chunks)))
  {
    var buffer, event := "", "";
    calls := [];
    ghost var text := "";
    var k := 0;
    while k < |chunks|
      invariant 0 <= k <= |chunks|
      invariant text == Concat(chunks[..k]) && buffer == Tail(text)
      invariant Handled(parse, Lines(text), event, calls)
    {
      LinesOfTwo(text, chunks[k]);
      assert chunks[..k + 1][..k] == chunks[..k];
      ghost var taken := Lines(text);
      text := text + chunks[k];
      buffer := buffer + chunks[k];
      buffer, event, calls := DrainLines(parse, buffer, event, calls, text, taken);
      k := k + 1;
    }
    assert chunks[..|chunks|] == chunks;
    var tail := Trim(buffer);
    if tail != "" {
      if "data:" <= tail {
        DeliveriesAppend(parse, OnLines(Progress("", []), Lines(text)).dispatched, Dispatch(event, Trim(tail[5..])));
        calls := calls + Deliver(parse, Dispatch(event, Trim(tail[5..])));
      }
    }
  }
}
