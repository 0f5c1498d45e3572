/** Printing frames and reading them back with either parser, and where both agree with the
    standard. */
module EventStreamRoundTrip {
  import opened Folds
  import opened Options
  import opened EventStream
  import opened SdkStream
  import opened EventStreamStandard

  /** What a server writes: a heartbeat comment, a blank line, or a frame of any number of data
      lines; a frame without a name has an empty `kind` and prints no `event` line. */
  datatype Item = KeepAlive | Blank | Frame(kind: string, datas: seq<string>)

  predicate OneLineText(s: string) {
    forall i | 0 <= i < |s| :: s[i] != '\n' && s[i] != '\r'
  }

  /** A non-empty text on one line with no white space at either end. */
  predicate Printable(s: string) {
    s != "" && OneLineText(s) && !IsSpace(s[0]) && !IsSpace(s[|s| - 1])
  }

  /** Names and data on one line each; they may be empty and carry white space at their ends. */
  predicate SingleLineItem(item: Item) {
    item.Frame? ==> OneLineText(item.kind) && forall i | 0 <= i < |item.datas| :: OneLineText(item.datas[i])
  }

  predicate SingleLineItems(items: seq<Item>) {
    forall i | 0 <= i < |items| :: SingleLineItem(items[i])
  }

  predicate PrintableItem(item: Item) {
    item.Frame? ==>
      && (item.kind == "" || Printable(item.kind))
      && forall i | 0 <= i < |item.datas| :: Printable(item.datas[i])
  }

  predicate PrintableItems(items: seq<Item>) {
    forall i | 0 <= i < |items| :: PrintableItem(items[i])
  }

  function DataLines(datas: seq<string>): seq<string> {
    seq(|datas|, i requires 0 <= i < |datas| => "data: " + datas[i])
  }

  function NameLines(kind: string): seq<string> {
    if kind == "" then [] else ["event: " + kind]
  }

  function LinesOfItem(item: Item): seq<string> {
    match item
    case KeepAlive => [": keep-alive"]
    case Blank => [""]
    case Frame(kind, datas) => NameLines(kind) + DataLines(datas) + [""]
  }

  function ItemLines(items: seq<Item>): seq<string> {
    if items == [] then [] else ItemLines(items[..|items| - 1]) + LinesOfItem(items[|items| - 1])
  }

  /** One dispatch for each data line, under the frame's own name. */
  function DispatchesOf(kind: string, datas: seq<string>): seq<Dispatch> {
    seq(|datas|, i requires 0 <= i < |datas| => Dispatch(kind, datas[i]))
  }

  function FrameOf(item: Item): seq<Dispatch> {
    if item.Frame? then DispatchesOf(item.kind, item.datas) else []
  }

  function FramesOf(items: seq<Item>): seq<Dispatch> {
    if items == [] then [] else FramesOf(items[..|items| - 1]) + FrameOf(items[|items| - 1])
  }

  /** What the browser parser hears of the data lines: trimmed, the empty ones dropped. */
  function HeardData(kind: string, datas: seq<string>): seq<Dispatch> {
    if datas == [] then []
    else
      var last := Trim(datas[|datas| - 1]);
      HeardData(kind, datas[..|datas| - 1]) + if last == "" then [] else [Dispatch(kind, last)]
  }

  function HeardFrame(item: Item): seq<Dispatch> {
    if item.Frame? then HeardData(Trim(item.kind), item.datas) else []
  }

  function HeardFrames(items: seq<Item>): seq<Dispatch> {
    if items == [] then [] else HeardFrames(items[..|items| - 1]) + HeardFrame(items[|items| - 1])
  }

  function Join(lines: seq<string>, eol: string): string {
    if lines == [] then "" else Join(lines[..|lines| - 1], eol) + lines[|lines| - 1] + eol
  }

  function Print(items: seq<Item>, eol: string): string {
    Join(ItemLines(items), eol)
  }

  const LF := "\n"
  const CRLF := "\r\n"
  const CR := "\r"

  /** What a line ending leaves on a line that is cut at the newline alone. */
  function EndingOf(eol: string): string {
    if eol == CRLF then "\r" else ""
  }

  function Ended(lines: seq<string>, ending: string): seq<string> {
    seq(|lines|, i requires 0 <= i < |lines| => lines[i] + ending)
  }

  // ------------------------------------------------------------------
  // Text to lines
  // ------------------------------------------------------------------

  lemma AddLine(text: string, line: string)
    requires '\n' !in line && Tail(text) == ""
    ensures Lines(text + line + LF) == Lines(text) + [line] && Tail(text + line + LF) == ""
  {
    var whole := text + line + LF;
    assert whole[|whole| - 1] == '\n' && whole[..|whole| - 1] == text + line;
    assert "" + line == line;
    LinesOfTwo(text, line);
    OneLine(line);
    assert Lines(text) + [] == Lines(text);
  }

  lemma {:induction false} LinesOfJoin(lines: seq<string>)
    requires forall i | 0 <= i < |lines| :: '\n' !in lines[i]
    ensures Lines(Join(lines, LF)) == lines && Tail(Join(lines, LF)) == ""
  {
    if lines != [] {
      var init, line := lines[..|lines| - 1], lines[|lines| - 1];
      LinesOfJoin(init);
      AddLine(Join(init, LF), line);
      assert lines == init + [line];
    }
  }

  lemma {:induction false} JoinWithReturns(lines: seq<string>)
    ensures Join(lines, CRLF) == Join(Ended(lines, "\r"), LF)
  {
    if lines != [] {
      var init, line := lines[..|lines| - 1], lines[|lines| - 1];
      JoinWithReturns(init);
      assert Ended(lines, "\r")[..|lines| - 1] == Ended(init, "\r");
      var text := Join(init, CRLF);
      assert text + line + CRLF == text + (line + "\r") + LF;
    }
  }

  lemma NothingEnded(lines: seq<string>)
    ensures Ended(lines, "") == lines
  {
    assert forall s: string :: s + "" == s;
  }

  lemma LinesOfPrinted(lines: seq<string>, eol: string)
    requires eol == LF || eol == CRLF
    requires forall i | 0 <= i < |lines| :: OneLineText(lines[i])
    ensures Lines(Join(lines, eol)) == Ended(lines, EndingOf(eol)) && Tail(Join(lines, eol)) == ""
  {
    NoNewlines(lines);
    if eol == CRLF {
      JoinWithReturns(lines);
      LinesOfJoin(Ended(lines, "\r"));
    } else {
      LinesOfJoin(lines);
      NothingEnded(lines);
    }
  }

  lemma {:induction false} LinesFromOne(line: string, rest: string, text: string)
    requires OneLineText(rest)
    ensures LinesFrom(line, rest + text) == LinesFrom(line + rest, text)
    decreases |rest|
  {
    if rest == "" {
      assert rest + text == text && line + rest == line;
    } else {
      LinesFromOne(line + [rest[0]], rest[1..], text);
      assert (rest + text)[1..] == rest[1..] + text;
      assert line + [rest[0]] + rest[1..] == line + rest;
    }
  }

  /** Lines joined from the front, as the standard reads them. */
  function JoinFront(lines: seq<string>, eol: string): string {
    if lines == [] then "" else lines[0] + (eol + JoinFront(lines[1..], eol))
  }

  lemma {:induction false} JoinFrontIsJoin(lines: seq<string>, eol: string)
    ensures JoinFront(lines, eol) == Join(lines, eol)
  {
    if lines != [] {
      JoinSplit(lines[..1], lines[1..], eol);
      JoinFrontIsJoin(lines[1..], eol);
      assert lines == lines[..1] + lines[1..];
      assert lines[..1][..0] == [];
      assert Join(lines[..1], eol) == lines[0] + eol;
      assert lines[0] + eol + Join(lines[1..], eol) == lines[0] + (eol + Join(lines[1..], eol));
    }
  }

  lemma {:induction false} JoinSplit(a: seq<string>, b: seq<string>, eol: string)
    ensures Join(a + b, eol) == Join(a, eol) + Join(b, eol)
  {
    if b == [] {
      assert a + b == a;
      assert Join(a, eol) + "" == Join(a, eol);
    } else {
      JoinSplit(a, b[..|b| - 1], eol);
      assert (a + b)[..|a + b| - 1] == a + b[..|b| - 1];
      assert Join(a, eol) + (Join(b[..|b| - 1], eol) + b[|b| - 1] + eol)
             == Join(a, eol) + Join(b[..|b| - 1], eol) + b[|b| - 1] + eol;
    }
  }

  lemma {:induction false} StandardLinesOfJoin(lines: seq<string>, eol: string)
    requires eol == LF || eol == CRLF || eol == CR
    requires forall i | 0 <= i < |lines| :: OneLineText(lines[i])
    ensures LinesFrom("", JoinFront(lines, eol)) == lines
  {
    if lines != [] {
      var rest := JoinFront(lines[1..], eol);
      StandardLinesOfJoin(lines[1..], eol);
      LinesFromOne("", lines[0], eol + rest);
      assert "" + lines[0] == lines[0];
      assert (eol + rest)[|eol|..] == rest;
      assert lines == [lines[0]] + lines[1..];
    }
  }

  lemma LinesOfItemOneLine(item: Item)
    requires SingleLineItem(item)
    ensures forall i | 0 <= i < |LinesOfItem(item)| :: OneLineText(LinesOfItem(item)[i])
  {
    if item.Frame? {
      forall i | 0 <= i < |item.datas|
        ensures OneLineText(DataLines(item.datas)[i])
      {
        assert OneLineText(item.datas[i]);
      }
    }
  }

  lemma {:induction false} ItemLinesOneLine(items: seq<Item>)
    requires SingleLineItems(items)
    ensures forall i | 0 <= i < |ItemLines(items)| :: OneLineText(ItemLines(items)[i])
  {
    if items != [] {
      SingleLineLast(items);
      ItemLinesOneLine(items[..|items| - 1]);
      LinesOfItemOneLine(items[|items| - 1]);
    }
  }

  lemma SingleLineLast(items: seq<Item>)
    requires SingleLineItems(items) && items != []
    ensures SingleLineItems(items[..|items| - 1]) && SingleLineItem(items[|items| - 1])
  {
    var init := items[..|items| - 1];
    forall i | 0 <= i < |init|
      ensures SingleLineItem(init[i])
    {
      assert init[i] == items[i];
    }
  }

  lemma PrintableLast(items: seq<Item>)
    requires PrintableItems(items) && items != []
    ensures PrintableItems(items[..|items| - 1]) && PrintableItem(items[|items| - 1])
  {
    var init := items[..|items| - 1];
    forall i | 0 <= i < |init|
      ensures PrintableItem(init[i])
    {
      assert init[i] == items[i];
    }
  }

  lemma PrintableIsSingleLine(items: seq<Item>)
    requires PrintableItems(items)
    ensures SingleLineItems(items)
  {
    forall i | 0 <= i < |items|
      ensures SingleLineItem(items[i])
    {
      assert PrintableItem(items[i]);
    }
  }

  lemma NoNewlines(lines: seq<string>)
    requires forall i | 0 <= i < |lines| :: OneLineText(lines[i])
    ensures forall i | 0 <= i < |lines| :: '\n' !in lines[i]
  {
    forall i | 0 <= i < |lines|
      ensures '\n' !in lines[i]
    {
      assert OneLineText(lines[i]);
    }
  }

  // ------------------------------------------------------------------
  // The browser parser
  // ------------------------------------------------------------------

  lemma {:induction false} TrimStartIs(s: string)
    requires OneLineText(s)
    ensures OneLineText(TrimStart(s)) && |TrimStart(s)| <= |s| && (|TrimStart(s)| == |s| ==> TrimStart(s) == s)
    ensures TrimStart(s) != "" ==> !IsSpace(TrimStart(s)[0])
  {
    if s != "" && IsSpace(s[0]) {
      TrimStartIs(s[1..]);
    }
  }

  lemma {:induction false} TrimEndIs(s: string)
    requires OneLineText(s)
    ensures OneLineText(TrimEnd(s)) && |TrimEnd(s)| <= |s| && (|TrimEnd(s)| == |s| ==> TrimEnd(s) == s)
    ensures TrimEnd(s) != "" ==> TrimEnd(s)[0] == s[0] && !IsSpace(TrimEnd(s)[|TrimEnd(s)| - 1])
  {
    if s != "" && IsSpace(s[|s| - 1]) {
      TrimEndIs(s[..|s| - 1]);
    }
  }

  lemma TrimLeavesPrintable(s: string)
    requires OneLineText(s)
    ensures Trim(s) == "" || Printable(Trim(s))
  {
    TrimStartIs(s);
    TrimEndIs(TrimStart(s));
  }

  lemma TrimKeepsIff(s: string)
    requires OneLineText(s)
    ensures Trim(s) == s <==> s == "" || Printable(s)
  {
    TrimLeavesPrintable(s);
    if Printable(s) {
      assert TrimStart(s) == s && TrimEnd(s) == s;
    }
  }

  lemma TrimDropsSpace(s: string)
    ensures Trim(" " + s) == Trim(s)
  {
    assert (" " + s)[1..] == s;
  }

  /** Trimming leaves nothing or something printable, and changes nothing printable. */
  lemma TrimIs(s: string)
    requires OneLineText(s)
    ensures Trim(s) == "" || Printable(Trim(s))
    ensures Trim(s) == s <==> s == "" || Printable(s)
    ensures Trim(" " + s) == Trim(s)
  {
    TrimLeavesPrintable(s);
    TrimKeepsIff(s);
    TrimDropsSpace(s);
  }

  lemma OnLinesSplit(p: Progress, a: seq<string>, b: seq<string>)
    ensures OnLines(p, a + b) == OnLines(OnLines(p, a), b)
  {
    FoldSplit(OnLine, p, a, b);
  }

  lemma OnEventLine(p: Progress, kind: string)
    requires OneLineText(kind)
    ensures OnLine(p, "event: " + kind) == p.(event := Trim(kind))
  {
    var line := "event: " + kind;
    TrimIs(kind);
    assert StripReturn(line) == line by {
      assert line[|line| - 1] == if kind == "" then ' ' else kind[|kind| - 1];
    }
    assert line[0] == 'e';
    assert "event:" <= line && line[6..] == " " + kind;
  }

  lemma OnDataLine(p: Progress, data: string)
    requires OneLineText(data)
    ensures OnLine(p, "data: " + data) ==
            if Trim(data) == "" then p else p.(dispatched := p.dispatched + [Dispatch(p.event, Trim(data))])
  {
    var line := "data: " + data;
    TrimIs(data);
    assert StripReturn(line) == line by {
      assert line[|line| - 1] == if data == "" then ' ' else data[|data| - 1];
    }
    assert line[0] == 'd';
    assert "data:" <= line && line[5..] == " " + data;
  }

  lemma OnOneLine(p: Progress, line: string)
    ensures OnLines(p, [line]) == OnLine(p, line)
  {
    assert [line] == [] + [line];
    OnLinesAppend(p, [], line);
  }

  lemma DatasSplit(kind: string, datas: seq<string>)
    requires datas != []
    ensures var init, last := datas[..|datas| - 1], datas[|datas| - 1];
            && DataLines(datas) == DataLines(init) + ["data: " + last]
            && DispatchesOf(kind, datas) == DispatchesOf(kind, init) + [Dispatch(kind, last)]
  {
  }

  lemma Regrouped<T>(a: seq<T>, b: seq<T>, c: seq<T>)
    ensures a + b + c == a + (b + c)
  {
  }

  lemma {:induction false} BrowserReadsData(p: Progress, datas: seq<string>)
    requires forall i | 0 <= i < |datas| :: OneLineText(datas[i])
    ensures OnLines(p, DataLines(datas)) == p.(dispatched := p.dispatched + HeardData(p.event, datas))
  {
    if datas == [] {
      assert DataLines(datas) == [] && p.dispatched + [] == p.dispatched;
    } else {
      var init, last := datas[..|datas| - 1], datas[|datas| - 1];
      BrowserReadsData(p, init);
      DatasSplit(p.event, datas);
      OnLinesAppend(p, DataLines(init), "data: " + last);
      var heard := p.dispatched + HeardData(p.event, init);
      OnDataLine(p.(dispatched := heard), last);
      assert heard + [] == heard;
      Regrouped(p.dispatched, HeardData(p.event, init), if Trim(last) == "" then [] else [Dispatch(p.event, Trim(last))]);
    }
  }

  lemma BrowserReadsName(ds: seq<Dispatch>, kind: string)
    requires OneLineText(kind)
    ensures OnLines(Progress("", ds), NameLines(kind)) == Progress(Trim(kind), ds)
  {
    if kind != "" {
      OnOneLine(Progress("", ds), "event: " + kind);
      OnEventLine(Progress("", ds), kind);
    }
  }

  /** A frame causes one dispatch for each data line that is not blank. */
  lemma BrowserReadsItem(ds: seq<Dispatch>, item: Item)
    requires SingleLineItem(item)
    ensures OnLines(Progress("", ds), LinesOfItem(item)) == Progress("", ds + HeardFrame(item))
  {
    var p := Progress("", ds);
    match item {
      case KeepAlive =>
        OnOneLine(p, ": keep-alive");
        assert ds + [] == ds;
      case Blank =>
        OnOneLine(p, "");
        assert ds + [] == ds;
      case Frame(kind, datas) =>
        OnLinesSplit(p, NameLines(kind), DataLines(datas));
        BrowserReadsName(ds, kind);
        BrowserReadsData(Progress(Trim(kind), ds), datas);
        OnLinesAppend(p, NameLines(kind) + DataLines(datas), "");
    }
  }

  lemma {:induction false} BrowserReadsItems(items: seq<Item>)
    requires SingleLineItems(items)
    ensures OnLines(Progress("", []), ItemLines(items)) == Progress("", HeardFrames(items))
  {
    if items != [] {
      var init, last := items[..|items| - 1], items[|items| - 1];
      SingleLineLast(items);
      BrowserReadsItems(init);
      OnLinesSplit(Progress("", []), ItemLines(init), LinesOfItem(last));
      BrowserReadsItem(HeardFrames(init), last);
    }
  }

  lemma ReturnStripped(p: Progress, line: string, ending: string)
    requires OneLineText(line) && (ending == "" || ending == "\r")
    ensures OnLine(p, line + ending) == OnLine(p, line)
  {
    assert line + "" == line;
    assert StripReturn(line + "\r") == line == StripReturn(line);
  }

  lemma {:induction false} ReturnsStripped(p: Progress, lines: seq<string>, ending: string)
    requires ending == "" || ending == "\r"
    requires forall i | 0 <= i < |lines| :: OneLineText(lines[i])
    ensures OnLines(p, Ended(lines, ending)) == OnLines(p, lines)
  {
    if lines != [] {
      var init, line := lines[..|lines| - 1], lines[|lines| - 1];
      ReturnsStripped(p, init, ending);
      assert Ended(lines, ending) == Ended(init, ending) + [line + ending];
      OnLinesAppend(p, Ended(init, ending), line + ending);
      ReturnStripped(OnLines(p, init), line, ending);
    }
  }

  /** What the browser parser makes of whatever is printed, with either line ending. */
  lemma BrowserHears(items: seq<Item>, eol: string)
    requires SingleLineItems(items) && (eol == LF || eol == CRLF)
    ensures ParseText(Print(items, eol)) == HeardFrames(items)
  {
    var lines := ItemLines(items);
    ItemLinesOneLine(items);
    BrowserReadsItems(items);
    LinesOfPrinted(lines, eol);
    ReturnsStripped(Progress("", []), lines, EndingOf(eol));
    assert Trim("") == "";
  }

  lemma {:induction false} PrintableDataHeard(kind: string, datas: seq<string>)
    requires forall i | 0 <= i < |datas| :: Printable(datas[i])
    ensures HeardData(kind, datas) == DispatchesOf(kind, datas)
  {
    if datas != [] {
      PrintableDataHeard(kind, datas[..|datas| - 1]);
      TrimIs(datas[|datas| - 1]);
      DatasSplit(kind, datas);
    }
  }

  lemma {:induction false} PrintableItemsHeard(items: seq<Item>)
    requires PrintableItems(items)
    ensures HeardFrames(items) == FramesOf(items)
  {
    if items != [] {
      var last := items[|items| - 1];
      PrintableLast(items);
      PrintableItemsHeard(items[..|items| - 1]);
      if last.Frame? {
        TrimIs(last.kind);
        PrintableDataHeard(last.kind, last.datas);
      }
    }
  }

  /** Printing and parsing gives every datum back under its frame's name, with either line ending. */
  lemma BrowserRoundTrip(items: seq<Item>, eol: string)
    requires PrintableItems(items) && (eol == LF || eol == CRLF)
    ensures ParseText(Print(items, eol)) == FramesOf(items)
  {
    PrintableIsSingleLine(items);
    BrowserHears(items, eol);
    PrintableItemsHeard(items);
  }

  /** The same through the handlers: an object without a type of its own takes the frame's. */
  lemma FrameNamesPayload(parse: string -> Parsed, kind: string, data: string, eol: string)
    requires Printable(kind) && Printable(data) && (eol == LF || eol == CRLF)
    requires parse(data).Single? && parse(data).payload.isObject && parse(data).payload.kind.None?
    ensures Deliveries(parse, ParseText(Print([Frame(kind, [data])], eol))) ==
            [OnEvent(parse(data).payload.(kind := Some(kind)))]
  {
    var items := [Frame(kind, [data])];
    assert PrintableItem(items[0]);
    BrowserRoundTrip(items, eol);
    OneFrame(kind, [data]);
    assert FramesOf(items) == [] + [Dispatch(kind, data)];
    DeliveriesAppend(parse, [], Dispatch(kind, data));
  }

  lemma OneFrame(kind: string, datas: seq<string>)
    ensures FramesOf([Frame(kind, datas)]) == DispatchesOf(kind, datas)
    ensures StandardFramesOf([Frame(kind, datas)]) == StandardFrameOf(Frame(kind, datas))
  {
    var items := [Frame(kind, datas)];
    assert items[..0] == [];
    assert [] + DispatchesOf(kind, datas) == DispatchesOf(kind, datas);
    assert [] + StandardFrameOf(items[0]) == StandardFrameOf(items[0]);
  }

  // ------------------------------------------------------------------
  // Any line, and the line the stream ends on
  // ------------------------------------------------------------------

  /** The white space of ECMAScript's `trim`: tab to carriage return, space, no-break space, the
      space separators of Unicode, the two separators and the byte order mark. */
  lemma SpacesAre(c: char)
    ensures IsSpace(c) <==>
              c as int in {0x9, 0xa, 0xb, 0xc, 0xd, 0x20, 0xa0, 0x1680, 0x2000, 0x2001, 0x2002, 0x2003, 0x2004, 0x2005,
                           0x2006, 0x2007, 0x2008, 0x2009, 0x200a, 0x2028, 0x2029, 0x202f, 0x205f, 0x3000, 0xfeff}
  {
  }

  /** What stands before the first colon; a line without one has no field. */
  function FieldOf(line: string): Option<string> {
    var colon := IndexOf(line, ':');
    if colon < 0 then None else Some(line[..colon])
  }

  function ValueAfter(line: string): string
    requires FieldOf(line).Some?
  {
    line[IndexOf(line, ':') + 1..]
  }

  lemma FieldIs(line: string, field: string)
    requires ':' !in field
    ensures FieldOf(line) == Some(field) <==> field + ":" <= line
    ensures FieldOf(line) == Some(field) ==> ValueAfter(line) == line[|field| + 1..]
  {
    if field + ":" <= line {
      assert line == field + ":" + line[|field| + 1..];
      ColonAt(field, line[|field| + 1..]);
      assert line[..|field|] == field;
    }
    if FieldOf(line) == Some(field) {
      assert line[|field|] == ':';
      assert line[..|field| + 1] == line[..|field|] + [line[|field|]] == field + ":";
    }
  }

  /** A line acts by its field: `event` names the frame, `data` that is not blank is dispatched
      under the name in force, an empty line clears the name, and anything else - a comment,
      another field, no field - changes nothing. */
  lemma LineIs(p: Progress, line: string)
    requires OneLineText(line)
    ensures OnLine(p, line) ==
            if line == "" then p.(event := "")
            else match FieldOf(line)
              case Some("event") => p.(event := Trim(ValueAfter(line)))
              case Some("data") =>
                var data := Trim(ValueAfter(line));
                if data == "" then p else p.(dispatched := p.dispatched + [Dispatch(p.event, data)])
              case _ => p
  {
    FieldIs(line, "");
    FieldIs(line, "event");
    FieldIs(line, "data");
    assert "" + ":" == ":" && "event" + ":" == "event:" && "data" + ":" == "data:";
    assert StripReturn(line) == line;
  }

  /** A text that ends in the middle of a line. */
  lemma UnterminatedLine(text: string, tail: string)
    requires Tail(text) == "" && '\n' !in tail
    ensures Lines(text + tail) == Lines(text) && Tail(text + tail) == tail
    ensures !("data:" <= Trim(tail)) ==> ParseText(text + tail) == ParseText(text)
  {
    LinesOfTwo(text, tail);
    OneLine(tail);
    assert "" + tail == tail && Lines(text) + [] == Lines(text);
    assert Trim("") == "";
  }

  lemma BrowserReadsLines(lines: seq<string>, eol: string)
    requires eol == LF || eol == CRLF
    requires forall i | 0 <= i < |lines| :: OneLineText(lines[i])
    ensures Tail(Join(lines, eol)) == ""
    ensures OnLines(Progress("", []), Lines(Join(lines, eol))) == OnLines(Progress("", []), lines)
  {
    LinesOfPrinted(lines, eol);
    ReturnsStripped(Progress("", []), lines, EndingOf(eol));
  }

  lemma PrintedAndOpened(items: seq<Item>, kind: string, eol: string)
    requires PrintableItems(items) && (kind == "" || Printable(kind)) && (eol == LF || eol == CRLF)
    ensures var text := Print(items, eol) + Join(NameLines(kind), eol);
            && Tail(text) == ""
            && OnLines(Progress("", []), Lines(text)) == Progress(kind, FramesOf(items))
  {
    JoinSplit(ItemLines(items), NameLines(kind), eol);
    OpenedLinesOneLine(items, kind);
    assert Print(items, eol) == Join(ItemLines(items), eol);
    BrowserReadsLines(ItemLines(items) + NameLines(kind), eol);
    BrowserReadsOpened(items, kind);
  }

  lemma OpenedLinesOneLine(items: seq<Item>, kind: string)
    requires PrintableItems(items) && (kind == "" || Printable(kind))
    ensures var lines := ItemLines(items) + NameLines(kind);
            forall i | 0 <= i < |lines| :: OneLineText(lines[i])
  {
    PrintableIsSingleLine(items);
    ItemLinesOneLine(items);
    NameLinesOneLine(kind);
    AllOneLine(ItemLines(items), NameLines(kind));
  }

  lemma AllOneLine(a: seq<string>, b: seq<string>)
    requires forall i | 0 <= i < |a| :: OneLineText(a[i])
    requires forall i | 0 <= i < |b| :: OneLineText(b[i])
    ensures forall i | 0 <= i < |a + b| :: OneLineText((a + b)[i])
  {
  }

  lemma NameLinesOneLine(kind: string)
    requires kind == "" || Printable(kind)
    ensures forall i | 0 <= i < |NameLines(kind)| :: OneLineText(NameLines(kind)[i])
  {
    assert OneLineText("event: ");
  }

  lemma BrowserReadsOpened(items: seq<Item>, kind: string)
    requires PrintableItems(items) && (kind == "" || Printable(kind))
    ensures OnLines(Progress("", []), ItemLines(items) + NameLines(kind)) == Progress(kind, FramesOf(items))
  {
    OnLinesSplit(Progress("", []), ItemLines(items), NameLines(kind));
    PrintableIsSingleLine(items);
    BrowserReadsItems(items);
    PrintableItemsHeard(items);
    BrowserReadsName(FramesOf(items), kind);
    TrimIs(kind);
  }

  lemma DataLinePrintable(space: string, data: string)
    requires Printable(data) && (space == "" || space == " ")
    ensures Printable("data:" + space + data)
    ensures "data:" <= "data:" + space + data && ("data:" + space + data)[5..] == space + data
  {
    var line := "data:" + space + data;
    assert line[|line| - 1] == data[|data| - 1] && line[0] == 'd';
    assert OneLineText("data:") && OneLineText(space);
    assert line == "data:" + (space + data);
  }

  lemma TailDatum(p: Progress, space: string, data: string)
    requires Printable(data) && (space == "" || space == " ")
    ensures OnTail(p, "data:" + space + data) == p.(dispatched := p.dispatched + [Dispatch(p.event, data)])
  {
    DataLinePrintable(space, data);
    TrimKeepsIff("data:" + space + data);
    TrimIs(data);
    assert "" + data == data;
  }

  /** A stream may end without a newline: its last data line is still dispatched, under the name
      of the frame it stands in. */
  lemma LastDatumCounts(items: seq<Item>, kind: string, space: string, data: string, eol: string)
    requires PrintableItems(items) && (kind == "" || Printable(kind)) && (eol == LF || eol == CRLF)
    requires Printable(data) && (space == "" || space == " ")
    ensures ParseText(Print(items, eol) + Join(NameLines(kind), eol) + ("data:" + space + data)) ==
            FramesOf(items) + [Dispatch(kind, data)]
  {
    var text, tail := Print(items, eol) + Join(NameLines(kind), eol), "data:" + space + data;
    PrintedAndOpened(items, kind, eol);
    TailDatum(Progress(kind, FramesOf(items)), space, data);
    DataLinePrintable(space, data);
    UnterminatedLine(text, tail);
  }

  /** Any other unterminated line is dropped. */
  lemma LastLineDropped(items: seq<Item>, tail: string, eol: string)
    requires PrintableItems(items) && (eol == LF || eol == CRLF)
    requires '\n' !in tail && !("data:" <= Trim(tail))
    ensures ParseText(Print(items, eol) + tail) == FramesOf(items)
  {
    PrintableIsSingleLine(items);
    ItemLinesOneLine(items);
    LinesOfPrinted(ItemLines(items), eol);
    UnterminatedLine(Print(items, eol), tail);
    BrowserRoundTrip(items, eol);
  }

  /** The SDK drops it in every case. */
  lemma SdkDropsLastLine(parse: string -> Parsed, text: string, tail: string)
    requires Tail(text) == "" && '\n' !in tail
    ensures SdkParse(parse, text + tail) == SdkParse(parse, text)
  {
    UnterminatedLine(text, tail);
  }

  // ------------------------------------------------------------------
  // From data to handler calls
  // ------------------------------------------------------------------

  /** Anything but a nameless object under a name is handed over as it is; what does not decode
      is reported, once. */
  lemma DeliveredAsIs(parse: string -> Parsed, d: Dispatch)
    ensures parse(d.data).Malformed? ==> Deliver(parse, d) == [OnError(d.data)]
    ensures parse(d.data).Single? && (parse(d.data).payload.kind.Some? || !parse(d.data).payload.isObject || d.event == "") ==>
              Deliver(parse, d) == [OnEvent(parse(d.data).payload)]
  {
  }

  lemma {:induction false} ObjectsSplit(a: seq<Payload>, b: seq<Payload>)
    ensures Objects(a + b) == Objects(a) + Objects(b)
  {
    if a == [] {
      assert a + b == b;
    } else {
      ObjectsSplit(a[1..], b);
      assert (a + b)[0] == a[0] && (a + b)[1..] == a[1..] + b;
      Regrouped(if a[0].isObject then [OnEvent(a[0])] else [], Objects(a[1..]), Objects(b));
    }
  }

  /** From a wrapped list every object is handed over, in order and as it is, and nothing else. */
  lemma ListDelivered(parse: string -> Parsed, d: Dispatch, before: seq<Payload>, p: Payload, rest: seq<Payload>)
    requires parse(d.data) == Several(before + [p] + rest)
    ensures Deliver(parse, d) == Objects(before) + (if p.isObject then [OnEvent(p)] else []) + Objects(rest)
    ensures Objects([]) == []
  {
    ObjectsSplit(before + [p], rest);
    ObjectsSplit(before, [p]);
    assert Objects([p]) == if p.isObject then [OnEvent(p)] else [] by {
      assert [p][1..] == [];
    }
  }

  // ------------------------------------------------------------------
  // The standard
  // ------------------------------------------------------------------

  lemma ProcessLinesAppend(b: Buffers, lines: seq<string>, line: string)
    ensures ProcessLines(b, lines + [line]) == ProcessLine(ProcessLines(b, lines), line)
  {
    FoldAppend(ProcessLine, b, lines, line);
  }

  lemma ProcessLinesSplit(b: Buffers, x: seq<string>, y: seq<string>)
    ensures ProcessLines(b, x + y) == ProcessLines(ProcessLines(b, x), y)
  {
    FoldSplit(ProcessLine, b, x, y);
  }

  lemma ColonAt(field: string, rest: string)
    requires ':' !in field
    ensures IndexOf(field + ":" + rest, ':') == |field|
  {
    var line := field + ":" + rest;
    var i := IndexOf(line, ':');
    assert line[|field|] == ':';
    assert ':' in line;
    assert forall j | 0 <= j < |field| :: line[j] == field[j] && field[j] in field;
  }

  lemma ProcessNamedField(b: Buffers, field: string, value: string)
    requires field != "" && ':' !in field
    ensures ProcessLine(b, field + ": " + value) == ProcessField(b, field, value)
  {
    var line := field + ": " + value;
    assert line == field + ":" + (" " + value);
    ColonAt(field, " " + value);
    assert line[..|field|] == field && line[|field| + 1..] == " " + value;
    assert (" " + value)[1..] == value;
  }

  lemma ProcessOne(b: Buffers, line: string)
    ensures ProcessLines(b, [line]) == ProcessLine(b, line)
  {
    assert [line] == [] + [line];
    ProcessLinesAppend(b, [], line);
  }

  lemma StandardEventLine(b: Buffers, kind: string)
    ensures ProcessLine(b, "event: " + kind) == b.(kind := kind)
  {
    ProcessNamedField(b, "event", kind);
    assert "event" + ": " + kind == "event: " + kind;
  }

  lemma StandardDataLine(b: Buffers, data: string)
    ensures ProcessLine(b, "data: " + data) == b.(data := b.data + data + "\n")
  {
    ProcessNamedField(b, "data", data);
    assert "data" + ": " + data == "data: " + data;
    assert "data"[0] != "event"[0];
  }

  lemma StandardBlankLine(kind: string, data: string, events: seq<Dispatch>)
    ensures ProcessLine(Buffers(kind, data + "\n", events), "") ==
            Buffers("", "", events + [Dispatch(if kind == "" then "message" else kind, data)])
  {
    assert (data + "\n")[..|data + "\n"| - 1] == data;
  }

  /** A line as section 9.2.6 has it: a comment and an unknown field do nothing, a line without a
      colon is a field without a value. */
  lemma StandardLineIs(b: Buffers, line: string)
    requires line != ""
    ensures FieldOf(line).None? ==>
              ProcessLine(b, line) ==
              if line == "event" then b.(kind := "") else if line == "data" then b.(data := b.data + "\n") else b
    ensures FieldOf(line).Some? && FieldOf(line).value !in {"event", "data"} ==> ProcessLine(b, line) == b
  {
    if line == "data" {
      assert b.data + "" + "\n" == b.data + "\n";
      assert line[0] != "event"[0];
    }
    if FieldOf(line).Some? {
      assert IndexOf(line, ':') >= 0;
    }
  }

  /** The data lines of one event, joined by newlines. */
  function JoinedData(datas: seq<string>): string {
    if datas == [] then "" else if |datas| == 1 then datas[0]
    else JoinedData(datas[..|datas| - 1]) + "\n" + datas[|datas| - 1]
  }

  /** One event, named "message" without a name, if there are data at all. */
  function StandardFrameOf(item: Item): seq<Dispatch> {
    if item.Frame? && item.datas != []
    then [Dispatch(if item.kind == "" then "message" else item.kind, JoinedData(item.datas))] else []
  }

  function StandardFramesOf(items: seq<Item>): seq<Dispatch> {
    if items == [] then [] else StandardFramesOf(items[..|items| - 1]) + StandardFrameOf(items[|items| - 1])
  }

  /** The data buffer after the data lines: each datum with a newline behind it. */
  lemma {:induction false} JoinedIsJoin(datas: seq<string>)
    requires datas != []
    ensures JoinedData(datas) + "\n" == Join(datas, LF)
  {
    var init, last := datas[..|datas| - 1], datas[|datas| - 1];
    if init == [] {
      assert "" + last == last;
    } else {
      JoinedIsJoin(init);
    }
  }

  lemma {:induction false} StandardReadsData(b: Buffers, datas: seq<string>)
    requires b.data == ""
    ensures ProcessLines(b, DataLines(datas)) == b.(data := Join(datas, LF))
  {
    if datas == [] {
      assert DataLines(datas) == [];
    } else {
      var init, last := datas[..|datas| - 1], datas[|datas| - 1];
      StandardReadsData(b, init);
      DatasSplit("", datas);
      ProcessLinesAppend(b, DataLines(init), "data: " + last);
      StandardDataLine(b.(data := Join(init, LF)), last);
    }
  }

  lemma StandardReadsName(events: seq<Dispatch>, kind: string)
    ensures ProcessLines(Buffers("", "", events), NameLines(kind)) == Buffers(kind, "", events)
  {
    if kind != "" {
      ProcessOne(Buffers("", "", events), "event: " + kind);
      StandardEventLine(Buffers("", "", events), kind);
    }
  }

  /** A frame makes one event of all its data lines. */
  lemma StandardReadsItem(events: seq<Dispatch>, item: Item)
    ensures ProcessLines(Buffers("", "", events), LinesOfItem(item)) == Buffers("", "", events + StandardFrameOf(item))
  {
    var b := Buffers("", "", events);
    assert events + [] == events;
    match item {
      case KeepAlive => ProcessOne(b, ": keep-alive");
      case Blank => ProcessOne(b, "");
      case Frame(kind, datas) =>
        ProcessLinesSplit(b, NameLines(kind), DataLines(datas));
        StandardReadsName(events, kind);
        StandardReadsData(Buffers(kind, "", events), datas);
        ProcessLinesAppend(b, NameLines(kind) + DataLines(datas), "");
        if datas != [] {
          JoinedIsJoin(datas);
          StandardBlankLine(kind, JoinedData(datas), events);
        }
    }
  }

  lemma {:induction false} StandardReadsItems(items: seq<Item>)
    ensures ProcessLines(Buffers("", "", []), ItemLines(items)) == Buffers("", "", StandardFramesOf(items))
  {
    if items != [] {
      var init, last := items[..|items| - 1], items[|items| - 1];
      StandardReadsItems(init);
      ProcessLinesSplit(Buffers("", "", []), ItemLines(init), LinesOfItem(last));
      StandardReadsItem(StandardFramesOf(init), last);
    }
  }

  /** Reading what was printed as the standard has it: one event for each frame with data. */
  lemma StandardRoundTrip(items: seq<Item>, eol: string)
    requires SingleLineItems(items) && (eol == LF || eol == CRLF || eol == CR)
    ensures StandardParse(Print(items, eol)) == StandardFramesOf(items)
  {
    var lines := ItemLines(items);
    ItemLinesOneLine(items);
    JoinFrontIsJoin(lines, eol);
    StandardLinesOfJoin(lines, eol);
    StandardReadsItems(items);
  }

  // ------------------------------------------------------------------
  // Where the browser parser and the standard agree
  // ------------------------------------------------------------------

  /** No data lines, or a single one with a name, neither of them blank or with white space at
      an end. */
  predicate Plain(item: Item) {
    item.Frame? && item.datas != [] ==> |item.datas| == 1 && Printable(item.kind) && Printable(item.datas[0])
  }

  predicate PlainItems(items: seq<Item>) {
    forall i | 0 <= i < |items| :: Plain(items[i])
  }

  lemma PlainLast(items: seq<Item>)
    requires items != []
    ensures PlainItems(items) <==> PlainItems(items[..|items| - 1]) && Plain(items[|items| - 1])
  {
    assert items == items[..|items| - 1] + [items[|items| - 1]];
  }

  predicate PrintableData(ds: seq<Dispatch>) {
    forall i | 0 <= i < |ds| :: Printable(ds[i].data)
  }

  lemma {:induction false} HeardDataPrintable(kind: string, datas: seq<string>)
    requires forall i | 0 <= i < |datas| :: OneLineText(datas[i])
    ensures PrintableData(HeardData(kind, datas))
  {
    if datas != [] {
      HeardDataPrintable(kind, datas[..|datas| - 1]);
      TrimIs(datas[|datas| - 1]);
    }
  }

  lemma {:induction false} HeardFramesPrintable(items: seq<Item>)
    requires SingleLineItems(items)
    ensures PrintableData(HeardFrames(items))
  {
    if items != [] {
      var init, last := items[..|items| - 1], items[|items| - 1];
      SingleLineLast(items);
      HeardFramesPrintable(init);
      if last.Frame? {
        HeardDataPrintable(Trim(last.kind), last.datas);
      }
    }
  }

  lemma JoinedHasNewline(datas: seq<string>)
    requires |datas| >= 2
    ensures !Printable(JoinedData(datas))
  {
    var front := JoinedData(datas[..|datas| - 1]);
    assert JoinedData(datas)[|front|] == '\n';
  }

  lemma OneDatumHeard(kind: string, data: string)
    ensures HeardData(kind, [data]) == if Trim(data) == "" then [] else [Dispatch(kind, Trim(data))]
  {
    assert [data][..0] == [];
    assert HeardData(kind, []) == [];
  }

  /** One frame: the two agree exactly when it is plain; and if the standard's event holds
      printable data at all, the browser parser hears at least as much. */
  lemma PlainIff(item: Item)
    requires SingleLineItem(item)
    ensures HeardFrame(item) == StandardFrameOf(item) <==> Plain(item)
    ensures PrintableData(StandardFrameOf(item)) ==> |StandardFrameOf(item)| <= |HeardFrame(item)|
  {
    if item.Frame? && item.datas != [] {
      var data, event := item.datas[0], StandardFrameOf(item)[0];
      HeardDataPrintable(Trim(item.kind), item.datas);
      if |item.datas| == 1 {
        OneDatumHeard(Trim(item.kind), data);
        assert item.datas == [data];
        TrimIs(data);
        TrimIs(item.kind);
      } else {
        JoinedHasNewline(item.datas);
        assert event.data == JoinedData(item.datas);
      }
    }
  }

  lemma SplitEqual<T>(a: seq<T>, b: seq<T>, x: seq<T>, y: seq<T>)
    requires |x| <= |a| && |y| <= |b|
    ensures a + b == x + y <==> a == x && b == y
  {
    if a + b == x + y {
      assert |a| == |x| && |b| == |y|;
      assert a == (a + b)[..|a|] && x == (x + y)[..|x|];
      assert b == (a + b)[|a|..] && y == (x + y)[|x|..];
    }
  }

  lemma {:induction false} PlainItemsSame(items: seq<Item>)
    requires SingleLineItems(items) && PlainItems(items)
    ensures HeardFrames(items) == StandardFramesOf(items)
  {
    if items != [] {
      var init, last := items[..|items| - 1], items[|items| - 1];
      SingleLineLast(items);
      PlainLast(items);
      PlainItemsSame(init);
      PlainIff(last);
    }
  }

  lemma PrintableSplit(a: seq<Dispatch>, b: seq<Dispatch>)
    requires PrintableData(a + b)
    ensures PrintableData(a) && PrintableData(b)
  {
    assert forall i | 0 <= i < |a| :: (a + b)[i] == a[i];
    assert forall i | 0 <= i < |b| :: (a + b)[|a| + i] == b[i];
  }

  lemma {:induction false} SameItemsPlain(items: seq<Item>)
    requires SingleLineItems(items) && PrintableData(StandardFramesOf(items))
    ensures |StandardFramesOf(items)| <= |HeardFrames(items)|
    ensures HeardFrames(items) == StandardFramesOf(items) ==> PlainItems(items)
  {
    if items != [] {
      var init, last := items[..|items| - 1], items[|items| - 1];
      SingleLineLast(items);
      PrintableSplit(StandardFramesOf(init), StandardFrameOf(last));
      SameItemsPlain(init);
      PlainIff(last);
      SplitEqual(HeardFrames(init), HeardFrame(last), StandardFramesOf(init), StandardFrameOf(last));
      PlainLast(items);
    }
  }

  /** On whatever a server prints line by line, the browser parser does what the standard says
      exactly when every frame with data has one data line and a name, and neither is blank or
      carries white space at an end. */
  lemma BrowserAgreesWithStandardIff(items: seq<Item>, eol: string)
    requires SingleLineItems(items) && (eol == LF || eol == CRLF)
    ensures ParseText(Print(items, eol)) == StandardParse(Print(items, eol)) <==> PlainItems(items)
  {
    BrowserHears(items, eol);
    StandardRoundTrip(items, eol);
    if PlainItems(items) {
      PlainItemsSame(items);
    } else if HeardFrames(items) == StandardFramesOf(items) {
      HeardFramesPrintable(items);
      SameItemsPlain(items);
    }
  }

  lemma JoinedTwo(a: string, b: string)
    ensures JoinedData([a, b]) == a + "\n" + b
  {
    assert [a, b][..1] == [a];
  }

  /** An unnamed event with two data lines, read in both ways. */
  lemma TwoDataLines(items: seq<Item>)
    requires items == [Frame("", ["a", "b"])]
    ensures ParseText(Print(items, LF)) == [Dispatch("", "a"), Dispatch("", "b")]
    ensures StandardParse(Print(items, LF)) == [Dispatch("message", "a\nb")]
  {
    assert PrintableItem(items[0]);
    PrintableIsSingleLine(items);
    OneFrame("", ["a", "b"]);
    assert ParseText(Print(items, LF)) == [Dispatch("", "a"), Dispatch("", "b")] by {
      BrowserRoundTrip(items, LF);
    }
    assert StandardParse(Print(items, LF)) == [Dispatch("message", "a\nb")] by {
      StandardRoundTrip(items, LF);
      JoinedTwo("a", "b");
      assert "a" + "\n" + "b" == "a\nb";
    }
  }

  // ------------------------------------------------------------------
  // The SDK parser
  // ------------------------------------------------------------------

  /** The browser's call and the SDK's event tell their receiver the same. */
  predicate SameEvent(call: Call, e: ChatEvent) {
    && call.OnEvent? && call.payload.kind == Some(e.kind)
    && e.ts == Or(call.payload.ts, "") && e.payload == Or(call.payload.content, call.payload.body)
  }

  predicate SameEvents(calls: seq<Call>, events: seq<ChatEvent>) {
    |calls| == |events| && forall i | 0 <= i < |calls| :: SameEvent(calls[i], events[i])
  }

  /** The SDK reads the text to its end and yields what the browser's handlers are told. */
  predicate SdkAgrees(parse: string -> Parsed, text: string) {
    var o := SdkParse(parse, text);
    !o.failed && SameEvents(Deliveries(parse, ParseText(text)), o.yielded)
  }

  /** The datum becomes an event, with a type both parsers know: its own, or with `ending`
      empty the name of its frame. */
  predicate Carried(parse: string -> Parsed, d: Dispatch, ending: string) {
    Accepted(parse(d.data)) && (parse(d.data).payload.kind.Some? || (ending == "" && d.event != ""))
  }

  predicate Matches(parse: string -> Parsed, d: Dispatch, call: Call, e: ChatEvent, ending: string) {
    Accepted(parse(d.data)) && (SameEvent(call, e) <==> Carried(parse, d, ending))
  }

  /** The SDK stands where the browser parser does after `ds`: it has failed on one of them, or
      it has an event for each, the same one exactly for the data that carry their type. */
  ghost predicate Tracks(parse: string -> Parsed, ds: seq<Dispatch>, o: Outcome, ending: string) {
    if o.failed then exists i | 0 <= i < |ds| :: !Accepted(parse(ds[i].data))
    else
      var calls := Deliveries(parse, ds);
      && |calls| == |o.yielded| == |ds|
      && forall i | 0 <= i < |ds| :: Matches(parse, ds[i], calls[i], o.yielded[i], ending)
  }

  /** A carriage return after a datum is white space to the decoder. */
  ghost predicate IgnoresReturn(parse: string -> Parsed) {
    forall d: string :: parse(d + "\r") == parse(d)
  }

  ghost predicate Tolerates(parse: string -> Parsed, ending: string) {
    ending == "" || (ending == "\r" && IgnoresReturn(parse))
  }

  /** Inside a frame the SDK has the frame's name, with the ending left on it. */
  predicate NameKept(event: Option<string>, kind: string, ending: string) {
    kind != "" ==> event == Some(kind + ending)
  }

  lemma SdkDataLine(parse: string -> Parsed, o: Outcome, data: string, ending: string)
    requires Tolerates(parse, ending) && !o.failed
    ensures OnSdkLine(parse, o, "data: " + data + ending) ==
            if Accepted(parse(data)) then o.(yielded := o.yielded + [EventFrom(o.event, parse(data).payload)])
            else o.(failed := true)
  {
    var line := "data: " + data + ending;
    assert "data: " <= line && line[6..] == data + ending;
    assert line[0] == 'd';
    assert data + "" == data;
  }

  lemma OneDatum(parse: string -> Parsed, d: Dispatch, event: Option<string>, ending: string)
    requires Accepted(parse(d.data)) && NameKept(event, d.event, ending)
    ensures |Deliver(parse, d)| == 1
    ensures Matches(parse, d, Deliver(parse, d)[0], EventFrom(event, parse(d.data).payload), ending)
  {
    var p := parse(d.data).payload;
    if p.kind.None? && d.event != "" {
      assert |TypeOr(event)| == |d.event| + |ending|;
      if ending == "" {
        assert d.event + ending == d.event;
      }
    }
  }

  lemma TracksOneMore(parse: string -> Parsed, ds: seq<Dispatch>, o: Outcome, d: Dispatch, ending: string)
    requires Tracks(parse, ds, o, ending) && !o.failed && Accepted(parse(d.data)) && NameKept(o.event, d.event, ending)
    ensures Tracks(parse, ds + [d], o.(yielded := o.yielded + [EventFrom(o.event, parse(d.data).payload)]), ending)
  {
    var all, e := ds + [d], EventFrom(o.event, parse(d.data).payload);
    DeliveriesAppend(parse, ds, d);
    OneDatum(parse, d, o.event, ending);
    var calls, yielded := Deliveries(parse, ds) + Deliver(parse, d), o.yielded + [e];
    forall i | 0 <= i < |all|
      ensures Matches(parse, all[i], calls[i], yielded[i], ending)
    {
      if i < |ds| {
        assert Matches(parse, ds[i], Deliveries(parse, ds)[i], o.yielded[i], ending);
      }
    }
  }

  /** Unlike the browser parser, the SDK wants the space: without it a line is ignored. */
  lemma SdkNeedsSpace(parse: string -> Parsed, o: Outcome, field: string, value: string)
    requires field in {"event", "data"} && (value == "" || value[0] != ' ')
    ensures OnSdkLine(parse, o, field + ":" + value) == o
  {
    var line := field + ":" + value;
    assert |field| < |line| && line[|field|] == ':';
    assert line[0] == field[0];
    if value != "" {
      assert line[|field| + 1] == value[0];
    }
  }

  lemma TracksNext(parse: string -> Parsed, ds: seq<Dispatch>, o: Outcome, d: Dispatch, ending: string)
    requires Tolerates(parse, ending) && Tracks(parse, ds, o, ending) && NameKept(o.event, d.event, ending)
    ensures var next := OnSdkLine(parse, o, "data: " + d.data + ending);
            Tracks(parse, ds + [d], next, ending) && next.event == o.event
  {
    if o.failed {
      TracksMore(parse, ds, [d], o, ending);
    } else {
      SdkDataLine(parse, o, d.data, ending);
      if Accepted(parse(d.data)) {
        TracksOneMore(parse, ds, o, d, ending);
      } else {
        assert (ds + [d])[|ds|] == d;
      }
    }
  }

  lemma SdkTracksOneMore(parse: string -> Parsed, ds: seq<Dispatch>, o: Outcome, lines: seq<string>, d: Dispatch, ending: string)
    requires Tolerates(parse, ending)
    requires var before := OnSdkLines(parse, o, Ended(lines, ending));
             Tracks(parse, ds, before, ending) && NameKept(before.event, d.event, ending)
    ensures var next := OnSdkLines(parse, o, Ended(lines + ["data: " + d.data], ending));
            Tracks(parse, ds + [d], next, ending) && next.event == OnSdkLines(parse, o, Ended(lines, ending)).event
  {
    var line := "data: " + d.data;
    EndedAppend(lines, [line], ending);
    assert Ended([line], ending) == [line + ending];
    SdkAppend(parse, o, Ended(lines, ending), line + ending);
    TracksNext(parse, ds, OnSdkLines(parse, o, Ended(lines, ending)), d, ending);
  }

  lemma {:induction false} SdkTracksData(parse: string -> Parsed, ds: seq<Dispatch>, o: Outcome, kind: string, datas: seq<string>,
                                         ending: string)
    requires Tolerates(parse, ending) && Tracks(parse, ds, o, ending) && NameKept(o.event, kind, ending)
    ensures var next := OnSdkLines(parse, o, Ended(DataLines(datas), ending));
            Tracks(parse, ds + DispatchesOf(kind, datas), next, ending) && next.event == o.event
  {
    if datas == [] {
      assert Ended(DataLines(datas), ending) == [] && ds + DispatchesOf(kind, datas) == ds;
    } else {
      var init, last := datas[..|datas| - 1], datas[|datas| - 1];
      SdkTracksData(parse, ds, o, kind, init, ending);
      SdkTracksOneMore(parse, ds + DispatchesOf(kind, init), o, DataLines(init), Dispatch(kind, last), ending);
      DatasSplit(kind, datas);
      Regrouped(ds, DispatchesOf(kind, init), [Dispatch(kind, last)]);
    }
  }

  lemma EndedAppend(a: seq<string>, b: seq<string>, ending: string)
    ensures Ended(a + b, ending) == Ended(a, ending) + Ended(b, ending)
  {
  }

  lemma SdkOne(parse: string -> Parsed, o: Outcome, line: string, ending: string)
    ensures OnSdkLines(parse, o, Ended([line], ending)) == OnSdkLine(parse, o, line + ending)
  {
    assert Ended([line], ending) == [] + [line + ending];
    SdkAppend(parse, o, [], line + ending);
  }

  lemma SdkIgnores(parse: string -> Parsed, o: Outcome, line: string)
    requires line == "" || line[0] == ':' || line[0] == '\r'
    ensures OnSdkLine(parse, o, line) == o
  {
  }

  /** Lines that carry neither a name nor a datum. */
  lemma SdkSkips(parse: string -> Parsed, o: Outcome, line: string, ending: string)
    requires line == "" || line == ": keep-alive"
    requires ending == "" || ending == "\r"
    ensures OnSdkLine(parse, o, line + ending) == o
    ensures OnSdkLines(parse, o, Ended([line], ending)) == o
  {
    SdkIgnores(parse, o, line + ending);
    SdkOne(parse, o, line, ending);
  }

  lemma SdkReadsName(parse: string -> Parsed, o: Outcome, kind: string, ending: string)
    requires !o.failed
    ensures OnSdkLines(parse, o, Ended(NameLines(kind), ending)) == if kind == "" then o else o.(event := Some(kind + ending))
  {
    var lines := Ended(NameLines(kind), ending);
    if kind == "" {
      assert lines == [];
    } else {
      var line := "event: " + kind + ending;
      assert lines == [] + [line];
      SdkAppend(parse, o, [], line);
      assert "event: " <= line && line[7..] == kind + ending;
    }
  }

  lemma SdkTracksFrame(parse: string -> Parsed, ds: seq<Dispatch>, o: Outcome, kind: string, datas: seq<string>, ending: string)
    requires Tolerates(parse, ending) && Tracks(parse, ds, o, ending) && !o.failed
    ensures var next := OnSdkLines(parse, o, Ended(LinesOfItem(Frame(kind, datas)), ending));
            && Tracks(parse, ds + DispatchesOf(kind, datas), next, ending)
            && next.event == if kind == "" then o.event else Some(kind + ending)
  {
    var name, data := Ended(NameLines(kind), ending), Ended(DataLines(datas), ending);
    EndedAppend(NameLines(kind), DataLines(datas), ending);
    EndedAppend(NameLines(kind) + DataLines(datas), [""], ending);
    SdkReadsName(parse, o, kind, ending);
    var named := OnSdkLines(parse, o, name);
    SdkTracksData(parse, ds, named, kind, datas, ending);
    OnSdkLinesSplit(parse, o, name, data);
    OnSdkLinesSplit(parse, o, name + data, Ended([""], ending));
    SdkSkips(parse, OnSdkLines(parse, o, name + data), "", ending);
  }

  /** The last name printed; unlike the browser parser the SDK never clears it. */
  function NameAfter(items: seq<Item>, ending: string): Option<string> {
    if items == [] then None
    else
      var last := items[|items| - 1];
      if last.Frame? && last.kind != "" then Some(last.kind + ending) else NameAfter(items[..|items| - 1], ending)
  }

  lemma TracksMore(parse: string -> Parsed, ds: seq<Dispatch>, more: seq<Dispatch>, o: Outcome, ending: string)
    requires Tracks(parse, ds, o, ending) && o.failed
    ensures Tracks(parse, ds + more, o, ending)
  {
    var i :| 0 <= i < |ds| && !Accepted(parse(ds[i].data));
    assert (ds + more)[i] == ds[i];
  }

  lemma SdkReadsItem(parse: string -> Parsed, ds: seq<Dispatch>, o: Outcome, item: Item, ending: string)
    requires Tolerates(parse, ending) && Tracks(parse, ds, o, ending) && !o.failed
    ensures var next := OnSdkLines(parse, o, Ended(LinesOfItem(item), ending));
            && Tracks(parse, ds + FrameOf(item), next, ending)
            && next.event == if item.Frame? && item.kind != "" then Some(item.kind + ending) else o.event
  {
    assert ds + [] == ds;
    match item {
      case KeepAlive => SdkSkips(parse, o, ": keep-alive", ending);
      case Blank => SdkSkips(parse, o, "", ending);
      case Frame(kind, datas) => SdkTracksFrame(parse, ds, o, kind, datas, ending);
    }
  }

  lemma {:induction false} SdkReadsItems(parse: string -> Parsed, items: seq<Item>, ending: string)
    requires Tolerates(parse, ending)
    ensures var o := OnSdkLines(parse, Outcome(None, [], false), Ended(ItemLines(items), ending));
            Tracks(parse, FramesOf(items), o, ending) && (!o.failed ==> o.event == NameAfter(items, ending))
  {
    var start := Outcome(None, [], false);
    if items == [] {
      assert Ended(ItemLines(items), ending) == [];
    } else {
      var init, last := items[..|items| - 1], items[|items| - 1];
      SdkReadsItems(parse, init, ending);
      var before, own := Ended(ItemLines(init), ending), Ended(LinesOfItem(last), ending);
      var o := OnSdkLines(parse, start, before);
      EndedAppend(ItemLines(init), LinesOfItem(last), ending);
      OnSdkLinesSplit(parse, start, before, own);
      if o.failed {
        FailedStays(parse, o, own);
        TracksMore(parse, FramesOf(init), FrameOf(last), o, ending);
      } else {
        SdkReadsItem(parse, FramesOf(init), o, last, ending);
      }
    }
  }

  lemma SdkAgreesIff(parse: string -> Parsed, items: seq<Item>, eol: string)
    requires PrintableItems(items) && (eol == LF || eol == CRLF) && Tolerates(parse, EndingOf(eol))
    ensures SdkAgrees(parse, Print(items, eol)) <==>
              forall i | 0 <= i < |FramesOf(items)| :: Carried(parse, FramesOf(items)[i], EndingOf(eol))
  {
    PrintableIsSingleLine(items);
    ItemLinesOneLine(items);
    LinesOfPrinted(ItemLines(items), eol);
    SdkReadsItems(parse, items, EndingOf(eol));
    BrowserRoundTrip(items, eol);
  }

  /** The datum decodes to one object whose type, time and payload have the types an event asks for. */
  predicate IsEnvelope(parsed: Parsed) {
    parsed.Single? && parsed.payload.isObject && parsed.payload.wellTyped
  }

  /** With bare newlines the SDK yields the events the browser's handlers are told exactly when
      every datum is an envelope and either has its own type or stands in a named frame. */
  lemma SdkAgreesOnLfIff(parse: string -> Parsed, items: seq<Item>)
    requires PrintableItems(items)
    ensures SdkAgrees(parse, Print(items, LF)) <==>
              forall i | 0 <= i < |FramesOf(items)| ::
                && IsEnvelope(parse(FramesOf(items)[i].data))
                && (parse(FramesOf(items)[i].data).payload.kind.Some? || FramesOf(items)[i].event != "")
  {
    SdkAgreesIff(parse, items, LF);
    assert forall i | 0 <= i < |FramesOf(items)| ::
             Carried(parse, FramesOf(items)[i], "") <==>
             IsEnvelope(parse(FramesOf(items)[i].data))
             && (parse(FramesOf(items)[i].data).payload.kind.Some? || FramesOf(items)[i].event != "");
  }

  /** With CR LF a carriage return stays on every event name, so the two agree exactly when
      every datum is an envelope with a type of its own. */
  lemma SdkAgreesOnCrlfIff(parse: string -> Parsed, items: seq<Item>)
    requires PrintableItems(items) && IgnoresReturn(parse)
    ensures SdkAgrees(parse, Print(items, CRLF)) <==>
              forall i | 0 <= i < |FramesOf(items)| ::
                IsEnvelope(parse(FramesOf(items)[i].data)) && parse(FramesOf(items)[i].data).payload.kind.Some?
  {
    SdkAgreesIff(parse, items, CRLF);
    assert forall i | 0 <= i < |FramesOf(items)| ::
             Carried(parse, FramesOf(items)[i], "\r") <==>
             IsEnvelope(parse(FramesOf(items)[i].data)) && parse(FramesOf(items)[i].data).payload.kind.Some?;
  }

  /** A datum without a type in an unnamed frame: the browser's handlers get it without one, the
      SDK yields it under the last name printed before, or as "unknown". */
  lemma UnnamedFrameKeepsName(parse: string -> Parsed, items: seq<Item>, data: string, eol: string)
    requires PrintableItems(items) && Printable(data) && (eol == LF || eol == CRLF) && Tolerates(parse, EndingOf(eol))
    requires !SdkParse(parse, Print(items, eol)).failed
    requires IsEnvelope(parse(data)) && parse(data).payload.kind.None?
    ensures var text, p := Print(items + [Frame("", [data])], eol), parse(data).payload;
            && Deliveries(parse, ParseText(text)) == Deliveries(parse, ParseText(Print(items, eol))) + [OnEvent(p)]
            && SdkParse(parse, text).yielded ==
               SdkParse(parse, Print(items, eol)).yielded +
               [ChatEvent(Or(NameAfter(items, EndingOf(eol)), "unknown"), Or(p.ts, ""), Or(p.content, p.body))]
  {
    BrowserReadsUnnamed(parse, items, data, eol);
    SdkReadsUnnamedFrame(parse, items, data, eol);
  }

  lemma SdkReadsUnnamedFrame(parse: string -> Parsed, items: seq<Item>, data: string, eol: string)
    requires PrintableItems(items) && Printable(data) && (eol == LF || eol == CRLF) && Tolerates(parse, EndingOf(eol))
    requires !SdkParse(parse, Print(items, eol)).failed
    requires IsEnvelope(parse(data)) && parse(data).payload.kind.None?
    ensures var p := parse(data).payload;
            SdkParse(parse, Print(items + [Frame("", [data])], eol)).yielded ==
            SdkParse(parse, Print(items, eol)).yielded +
            [ChatEvent(Or(NameAfter(items, EndingOf(eol)), "unknown"), Or(p.ts, ""), Or(p.content, p.body))]
  {
    SdkReadsOneMore(parse, items, Frame("", [data]), eol);
    SdkReadsPrinted(parse, items, eol);
    SdkReadsItems(parse, items, EndingOf(eol));
    SdkReadsUnnamed(parse, SdkParse(parse, Print(items, eol)), data, EndingOf(eol));
    NameNotEmpty(items, EndingOf(eol));
  }

  lemma {:induction false} NameNotEmpty(items: seq<Item>, ending: string)
    ensures NameAfter(items, ending) != Some("")
  {
    if items != [] {
      NameNotEmpty(items[..|items| - 1], ending);
    }
  }

  lemma PrintableMore(items: seq<Item>, item: Item)
    requires PrintableItems(items) && PrintableItem(item)
    ensures PrintableItems(items + [item]) && (items + [item])[..|items|] == items
  {
  }

  lemma FramesMore(items: seq<Item>, data: string)
    ensures FramesOf(items + [Frame("", [data])]) == FramesOf(items) + [Dispatch("", data)]
  {
    var all := items + [Frame("", [data])];
    assert all[..|items|] == items;
    assert FrameOf(all[|items|]) == [Dispatch("", data)];
  }

  lemma BrowserReadsUnnamed(parse: string -> Parsed, items: seq<Item>, data: string, eol: string)
    requires PrintableItems(items) && Printable(data) && (eol == LF || eol == CRLF)
    requires parse(data).Single? && parse(data).payload.isObject && parse(data).payload.kind.None?
    ensures Deliveries(parse, ParseText(Print(items + [Frame("", [data])], eol))) ==
            Deliveries(parse, ParseText(Print(items, eol))) + [OnEvent(parse(data).payload)]
  {
    PrintableMore(items, Frame("", [data]));
    FramesMore(items, data);
    DeliveriesAppend(parse, FramesOf(items), Dispatch("", data));
    BrowserRoundTrip(items, eol);
    BrowserRoundTrip(items + [Frame("", [data])], eol);
  }

  lemma SdkReadsPrinted(parse: string -> Parsed, items: seq<Item>, eol: string)
    requires PrintableItems(items) && (eol == LF || eol == CRLF)
    ensures SdkParse(parse, Print(items, eol)) ==
            OnSdkLines(parse, Outcome(None, [], false), Ended(ItemLines(items), EndingOf(eol)))
  {
    PrintableIsSingleLine(items);
    ItemLinesOneLine(items);
    LinesOfPrinted(ItemLines(items), eol);
  }

  lemma SdkReadsOneMore(parse: string -> Parsed, items: seq<Item>, item: Item, eol: string)
    requires PrintableItems(items) && PrintableItem(item) && (eol == LF || eol == CRLF)
    ensures SdkParse(parse, Print(items + [item], eol)) ==
            OnSdkLines(parse, SdkParse(parse, Print(items, eol)), Ended(LinesOfItem(item), EndingOf(eol)))
  {
    PrintableMore(items, item);
    SdkReadsPrinted(parse, items, eol);
    SdkReadsPrinted(parse, items + [item], eol);
    EndedAppend(ItemLines(items), LinesOfItem(item), EndingOf(eol));
    OnSdkLinesSplit(parse, Outcome(None, [], false), Ended(ItemLines(items), EndingOf(eol)), Ended(LinesOfItem(item), EndingOf(eol)));
  }

  lemma SdkReadsUnnamed(parse: string -> Parsed, o: Outcome, data: string, ending: string)
    requires Tolerates(parse, ending) && !o.failed && Accepted(parse(data))
    ensures OnSdkLines(parse, o, Ended(LinesOfItem(Frame("", [data])), ending)) ==
            o.(yielded := o.yielded + [EventFrom(o.event, parse(data).payload)])
  {
    assert Ended(LinesOfItem(Frame("", [data])), ending) == ([] + ["data: " + data + ending]) + ["" + ending];
    SdkAppend(parse, o, [], "data: " + data + ending);
    SdkAppend(parse, o, [] + ["data: " + data + ending], "" + ending);
    SdkDataLine(parse, o, data, ending);
    SdkSkips(parse, OnSdkLines(parse, o, ["data: " + data + ending]), "", ending);
  }
}
