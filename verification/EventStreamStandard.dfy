/** Parsing and interpreting an event stream as the WHATWG HTML Living Standard has it,
    sections 9.2.5 and 9.2.6 (after decoding, without a byte order mark). */
module EventStreamStandard {
  import opened Folds
  import opened EventStream

  /** Lines end at CR LF, LF or CR; an unterminated rest cannot complete an event. */
  function StandardLines(text: string): seq<string>
    decreases |text|
  {
    LinesFrom("", text)
  }

  /** `line` is what has been read of the current line. */
  function LinesFrom(line: string, text: string): seq<string>
    decreases |text|
  {
    if text == "" then []
    else if text[0] == '\r' && |text| > 1 && text[1] == '\n' then [line] + LinesFrom("", text[2..])
    else if text[0] == '\r' || text[0] == '\n' then [line] + LinesFrom("", text[1..])
    else LinesFrom(line + [text[0]], text[1..])
  }

  /** The event type buffer, the data buffer, and the events dispatched so far. */
  datatype Buffers = Buffers(kind: string, data: string, events: seq<Dispatch>)

  function DispatchEvent(b: Buffers): Buffers {
    if b.data == "" then Buffers("", "", b.events)
    else
      var data := if b.data[|b.data| - 1] == '\n' then b.data[..|b.data| - 1] else b.data;
      Buffers("", "", b.events + [Dispatch(if b.kind == "" then "message" else b.kind, data)])
  }

  function DropSpace(value: string): string {
    if value != "" && value[0] == ' ' then value[1..] else value
  }

  function ProcessField(b: Buffers, field: string, value: string): Buffers {
    if field == "event" then b.(kind := value)
    else if field == "data" then b.(data := b.data + value + "\n")
    else b
  }

  function ProcessLine(b: Buffers, line: string): Buffers {
    var colon := IndexOf(line, ':');
    if line == "" then DispatchEvent(b)
    else if colon == 0 then b
    else if colon > 0 then ProcessField(b, line[..colon], DropSpace(line[colon + 1..]))
    else ProcessField(b, line, "")
  }

  function ProcessLines(b: Buffers, lines: seq<string>): Buffers {
    Fold(ProcessLine, b, lines)
  }

  function StandardParse(text: string): seq<Dispatch> {
    ProcessLines(Buffers("", "", []), StandardLines(text)).events
  }
}
