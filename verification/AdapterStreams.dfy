/**
 The adapters that translate a native line stream into the closed event set: Codex
 (backend/agent_runtimes/codex_adapter.py) and pi (backend/agent_runtimes/pi_adapter.py), and the
 edge that reports the stream's terminal event (backend/agent_server.py).
 */
module AdapterStreams {
  import opened Common

  datatype Json = Null | Bool(b: bool) | Num(n: real) | Str(s: string) | Arr(items: seq<Json>) | Obj(fields: map<string, Json>)

  /**
   A line of standard output: empty, not JSON, a JSON value, or one that cannot be read at all,
   because it exceeds the stream's buffer or what the JSON reader accepts in depth or digits.
   */
  datatype Line = Blank | NotJson | Native(value: Json) | Unreadable

  datatype ErrorKind = NoKind | SetupError | TimeoutError | RuntimeInvocationError | ProcessExitError | NoEvents | Crashed
                     | DeliveryError | CancelledError

  datatype Event =
    | Started
    | State(state: Json)
    | Text(text: Json)
    | ToolCall(name: Json)
    | ToolResult(name: Json, isError: bool)
    | Done(result: string)
    | Error(message: Json, kind: ErrorKind)

  /** What becomes of one line: nothing, an event, or a Python exception. */
  datatype Translated = Skip | Emit(event: Event) | Raise

  // ----- JSON as the translators see it ----------------------------------------------------------

  predicate Truthy(j: Json) {
    match j
    case Null => false
    case Bool(b) => b
    case Num(n) => n != 0.0
    case Str(s) => s != ""
    case Arr(items) => items != []
    case Obj(fields) => fields != map[]
  }

  /** `dict.get(key, default)`. */
  function FieldOr(fields: map<string, Json>, key: string, missing: Json): Json {
    if key in fields then fields[key] else missing
  }

  function Field(fields: map<string, Json>, key: string): Json {
    FieldOr(fields, key, Null)
  }

  /** Python's `a or b`. */
  function Or(a: Json, b: Json): Json {
    if Truthy(a) then a else b
  }

  /** Only hashable values may be looked up in a set; lists and dicts raise. */
  predicate Hashable(j: Json) {
    !j.Arr? && !j.Obj?
  }

  predicate OneOf(j: Json, names: set<string>) {
    j.Str? && j.s in names
  }

  /** What is put into a dictionary is got out of it, and nothing else is. */
  lemma DictionaryGet(fields: map<string, Json>, key: string, value: Json, missing: Json)
    ensures FieldOr(fields[key := value], key, missing) == value
    ensures key !in fields ==> FieldOr(fields, key, missing) == missing && Field(fields, key) == Null
  {
  }

  /** Python's false values. */
  lemma FalseValues(j: Json)
    ensures !Truthy(j) <==> j in {Null, Bool(false), Num(0.0), Str(""), Arr([]), Obj(map[])}
  {
  }

  function TextOrSkip(j: Json): Translated {
    if j.Str? && j.s != "" then Emit(Text(j)) else Skip
  }

  // ----- Codex -------------------------------------------------------------------------------------

  function CodexItem(native: map<string, Json>, item: map<string, Json>): Translated {
    var nativeType, itemType := Field(native, "type"), Field(item, "type");
    var name := Or(Or(Field(item, "command"), Field(item, "name")), Str("codex_tool"));
    if !Hashable(itemType) then Raise
    else if OneOf(itemType, {"agent_message", "assistant_message", "text"})
    then TextOrSkip(Or(Or(Field(item, "text"), Field(item, "content")), Field(native, "text")))
    else if OneOf(itemType, {"command_execution", "tool_call", "function_call"}) then
      if OneOf(nativeType, {"item.completed", "tool_result", "function_result"})
      then Emit(ToolResult(name, Truthy(Field(item, "is_error"))
                                 || (Field(item, "exit_code") != Null && Field(item, "exit_code") != Num(0.0)
                                     && Field(item, "exit_code") != Bool(false))))
      else Emit(ToolCall(name))
    else if OneOf(nativeType, {"text", "output_text.delta", "response.output_text.delta"})
    then TextOrSkip(Or(Field(native, "text"), Field(native, "delta")))
    else Skip
  }

  function CodexTranslate(native: map<string, Json>): Translated {
    var nativeType := Field(native, "type");
    if !Hashable(nativeType) then Raise
    else if OneOf(nativeType, {"error", "turn.error"})
    then Emit(Error(Or(Or(Field(native, "message"), Field(native, "error")), Str("Codex error")), NoKind))
    else if OneOf(nativeType, {"thread.started", "turn.started", "turn.completed"}) then Emit(State(nativeType))
    else CodexItem(native, if Field(native, "item").Obj? then Field(native, "item").fields else native)
  }

  /** Blank lines, lines that are not JSON and values that are not objects are passed over. */
  function CodexLine(line: Line): Translated {
    if line.Unreadable? then Raise
    else if line.Native? && line.value.Obj? then CodexTranslate(line.value.fields)
    else Skip
  }

  // ----- pi ------------------------------------------------------------------------------------------

  function PiMessage(update: Json): Translated {
    var delta := Or(update, Obj(map[]));
    if !delta.Obj? then Raise
    else if Field(delta.fields, "type") == Str("text_delta")
    then Emit(Text(FieldOr(delta.fields, "delta", Str(""))))
    else Skip
  }

  function PiTranslate(native: map<string, Json>): Translated {
    var nativeType := Field(native, "type");
    if nativeType == Str("response") then
      if Field(native, "success") == Bool(false)
      then Emit(Error(Or(Field(native, "error"), Str("pi command failed")), NoKind)) else Skip
    else if nativeType == Str("message_update") then PiMessage(Field(native, "assistantMessageEvent"))
    else if nativeType == Str("tool_execution_start") then Emit(ToolCall(FieldOr(native, "toolName", Str(""))))
    else if nativeType == Str("tool_execution_end")
    then Emit(ToolResult(FieldOr(native, "toolName", Str("")), Truthy(Field(native, "isError"))))
    else Skip
  }

  /** pi asks any JSON value for its type, so a value that is not an object raises. */
  function PiLine(line: Line): Translated {
    if line.Unreadable? then Raise
    else if !line.Native? then Skip
    else if line.value.Obj? then PiTranslate(line.value.fields)
    else Raise
  }

  // ----- reading a stream ------------------------------------------------------------------------------

  /** Where reading the lines leaves the loop: still reading, at a native error, or in an exception. */
  datatype Progress = Reading(events: seq<Event>) | Failing(events: seq<Event>, message: Json) | Broken(events: seq<Event>)

  function ReadOn(p: Progress, r: Translated): Progress {
    if !p.Reading? then p
    else
      match r
      case Skip => p
      case Raise => Broken(p.events)
      case Emit(e) => if e.Error? then Failing(p.events, e.message) else Reading(p.events + [e])
  }

  function Read(translate: Line -> Translated, lines: seq<Line>): Progress {
    if lines == [] then Reading([])
    else
      ReadOn(Read(translate, lines[..|lines| - 1]), translate(lines[|lines| - 1]))
  }

  /** How the process ends once its output has been read; a timeout may strike after any line. */
  datatype Ending = TimesOut | Exits(code: int)

  datatype Stream = Ended(events: seq<Event>) | Raised(events: seq<Event>)

  /** The texts of the `text` events, in order. */
  function Texts(events: seq<Event>): seq<Json> {
    if events == [] then []
    else Texts(events[..|events| - 1]) + (if events[|events| - 1].Text? then [events[|events| - 1].text] else [])
  }

  /** `"".join(texts)`, which raises unless every element is a string. */
  function Join(texts: seq<Json>): Option<string> {
    if texts == [] then Some("")
    else
      var front := Join(texts[..|texts| - 1]);
      if front.Some? && texts[|texts| - 1].Str? then Some(front.value + texts[|texts| - 1].s) else None
  }

  function Finish(events: seq<Event>, texts: seq<Json>, code: int): Stream {
    if code != 0 then Ended(events + [Error(Str("exited"), ProcessExitError)])
    else
      var text := Join(texts);
      if text.None? then Raised(events) else Ended(events + [Done(text.value)])
  }

  /** The whole stream of an adapter: its opening events, what it reads, and its terminal event. */
  function StreamOf(opening: seq<Event>, translate: Line -> Translated, lines: seq<Line>, ending: Ending): Stream {
    var p := Read(translate, lines);
    match p
    case Broken(es) => Raised(opening + es)
    case Failing(es, message) => Ended(opening + es + [Error(message, RuntimeInvocationError)])
    case Reading(es) =>
      if ending.TimesOut? then Ended(opening + es + [Error(Str("timed out"), TimeoutError)])
      else Finish(opening + es, Texts(es), ending.code)
  }

  // ----- one terminal event, and it is last ---------------------------------------------------------------

  predicate Terminal(e: Event) {
    e.Done? || e.Error?
  }

  predicate Quiet(events: seq<Event>) {
    forall i :: 0 <= i < |events| ==> !Terminal(events[i])
  }

  predicate TerminatedOnce(events: seq<Event>) {
    events != [] && Terminal(events[|events| - 1]) && Quiet(events[..|events| - 1])
  }

  /** A translator emits no `done` of its own. */
  ghost predicate Honest(translate: Line -> Translated) {
    forall line: Line :: translate(line).Emit? ==> !translate(line).event.Done?
  }

  lemma CodexIsHonest()
    ensures Honest(CodexLine)
  {
    forall line: Line | CodexLine(line).Emit? ensures !CodexLine(line).event.Done? {
      CodexEmits(line.value.fields);
    }
  }

  lemma CodexItemEmits(native: map<string, Json>, item: map<string, Json>)
    requires CodexItem(native, item).Emit?
    ensures var e := CodexItem(native, item).event; !e.Done? && !e.Error? && (e.Text? ==> e.text.Str?)
  {
  }

  lemma CodexEmits(native: map<string, Json>)
    requires CodexTranslate(native).Emit?
    ensures var e := CodexTranslate(native).event; !e.Done? && (e.Text? ==> e.text.Str?)
  {
    var item := if Field(native, "item").Obj? then Field(native, "item").fields else native;
    if CodexTranslate(native) == CodexItem(native, item) {
      CodexItemEmits(native, item);
    }
  }

  lemma PiIsHonest()
    ensures Honest(PiLine)
  {
  }

  lemma {:induction false} ReadIsQuiet(translate: Line -> Translated, lines: seq<Line>)
    requires Honest(translate)
    ensures Quiet(Read(translate, lines).events)
  {
    if lines != [] {
      ReadIsQuiet(translate, lines[..|lines| - 1]);
    }
  }

  lemma QuietSnoc(events: seq<Event>, last: Event)
    requires Quiet(events) && Terminal(last)
    ensures TerminatedOnce(events + [last])
  {
    assert (events + [last])[..|events + [last]| - 1] == events;
  }

  lemma {:induction false} TextsAppend(a: seq<Event>, b: seq<Event>)
    ensures Texts(a + b) == Texts(a) + Texts(b)
  {
    if b == [] {
      assert a + b == a;
    } else {
      assert (a + b)[..|a + b| - 1] == a + b[..|b| - 1];
      TextsAppend(a, b[..|b| - 1]);
    }
  }

  /**
   A stream that ends without an exception has exactly one terminal event, and it is its last;
   the text of a `done` is the concatenation of all the `text` events before it.
   */
  lemma StreamEndsOnce(opening: seq<Event>, translate: Line -> Translated, lines: seq<Line>, ending: Ending)
    requires Honest(translate) && Quiet(opening) && Texts(opening) == []
    requires StreamOf(opening, translate, lines, ending).Ended?
    ensures var events := StreamOf(opening, translate, lines, ending).events;
            && TerminatedOnce(events)
            && (events[|events| - 1].Done? ==> Join(Texts(events)) == Some(events[|events| - 1].result))
  {
    ReadIsQuiet(translate, lines);
    var es := Read(translate, lines).events;
    var last := StreamShape(opening, translate, lines, ending);
    QuietSnoc(opening + es, last);
    TextsBeforeTerminal(opening, es, last);
  }

  lemma TextsBeforeTerminal(opening: seq<Event>, es: seq<Event>, last: Event)
    requires Texts(opening) == [] && Terminal(last)
    ensures Texts((opening + es) + [last]) == Texts(es)
  {
    TextsAppend(opening, es);
    assert ((opening + es) + [last])[..|(opening + es) + [last]| - 1] == opening + es;
  }

  /** The events of a stream that ends: the opening, what was read, and the terminal event it decides on. */
  lemma StreamShape(opening: seq<Event>, translate: Line -> Translated, lines: seq<Line>, ending: Ending) returns (last: Event)
    requires StreamOf(opening, translate, lines, ending).Ended?
    ensures var es := Read(translate, lines).events;
            && StreamOf(opening, translate, lines, ending).events == (opening + es) + [last]
            && Terminal(last)
            && (last.Done? ==> Join(Texts(es)) == Some(last.result))
  {
    var p := Read(translate, lines);
    if p.Failing? {
      last := Error(p.message, RuntimeInvocationError);
    } else if ending.TimesOut? {
      last := Error(Str("timed out"), TimeoutError);
    } else if ending.code != 0 {
      last := Error(Str("exited"), ProcessExitError);
    } else {
      last := Done(Join(Texts(p.events)).value);
    }
  }

  const CODEX_OPENING: seq<Event> := [Started, State(Str("codex"))]
  const PI_OPENING: seq<Event> := [Started]

  lemma OpeningsAreQuiet()
    ensures Quiet(CODEX_OPENING) && Texts(CODEX_OPENING) == []
    ensures Quiet(PI_OPENING) && Texts(PI_OPENING) == []
  {
    assert CODEX_OPENING[..1] == [Started] && [Started][..0] == [];
    assert Texts([Started]) == [];
  }

  function CodexStream(lines: seq<Line>, ending: Ending): Stream {
    StreamOf(CODEX_OPENING, CodexLine, lines, ending)
  }

  function PiStream(lines: seq<Line>, ending: Ending): Stream {
    StreamOf(PI_OPENING, PiLine, lines, ending)
  }

  /**
   An invocation is refused before a process exists, or runs one.  Handing the prompt to the process
   may raise: Codex does it before its opening events, pi after them.
   */
  datatype Invocation = Refused(message: Json) | PromptFails | Ran(lines: seq<Line>, ending: Ending)

  function CodexInvoke(call: Invocation): Stream {
    match call
    case Refused(message) => Ended([Error(message, SetupError)])
    case PromptFails => Raised([])
    case Ran(lines, ending) => CodexStream(lines, ending)
  }

  function PiInvoke(call: Invocation): Stream {
    match call
    case Refused(message) => Ended([Error(message, SetupError)])
    case PromptFails => Raised(PI_OPENING)
    case Ran(lines, ending) => PiStream(lines, ending)
  }

  // ----- what a native line means ------------------------------------------------------------------------

  /** A JSON object with this `type`. */
  predicate IsNative(line: Line, name: string) {
    line.Native? && line.value.Obj? && Field(line.value.fields, "type") == Str(name)
  }

  predicate IsAnyOf(line: Line, names: set<string>) {
    line.Native? && line.value.Obj? && Field(line.value.fields, "type").Str? && Field(line.value.fields, "type").s in names
  }

  /** A value that cannot be looked up in a set. */
  predicate IsCollection(j: Json) {
    j.Arr? || j.Obj?
  }

  /** The first of the values that Python takes for true, or else the last one. */
  function FirstTrue(values: seq<Json>): Json
    requires values != []
  {
    if |values| == 1 || Truthy(values[0]) then values[0] else FirstTrue(values[1..])
  }

  lemma FirstTrueOfTwo(a: Json, b: Json)
    ensures FirstTrue([a, b]) == Or(a, b)
  {
    assert [a, b][1..] == [b];
  }

  lemma FirstTrueOfThree(a: Json, b: Json, c: Json)
    ensures FirstTrue([a, b, c]) == Or(Or(a, b), c)
  {
    assert [a, b, c][1..] == [b, c];
    FirstTrueOfTwo(b, c);
  }

  /** pi refused a command. */
  predicate PiFails(line: Line) {
    IsNative(line, "response") && Field(line.value.fields, "success") == Bool(false)
  }

  /** pi reports a piece of the answer. */
  predicate PiIsDelta(line: Line) {
    && IsNative(line, "message_update")
    && var update := Field(line.value.fields, "assistantMessageEvent");
       update.Obj? && Field(update.fields, "type") == Str("text_delta")
  }

  function PiDelta(line: Line): Json
    requires PiIsDelta(line)
  {
    FieldOr(Field(line.value.fields, "assistantMessageEvent").fields, "delta", Str(""))
  }

  /** The line cannot be read, is no object, or carries a message update that is neither empty nor an object. */
  predicate PiBreaks(line: Line) {
    || line.Unreadable?
    || (&& line.Native?
        && (|| !line.value.Obj?
            || (&& IsNative(line, "message_update")
                && Truthy(Field(line.value.fields, "assistantMessageEvent"))
                && !Field(line.value.fields, "assistantMessageEvent").Obj?)))
  }

  /** The event that a pi line reports. */
  predicate PiReports(line: Line, e: Event) {
    match e
    case Text(text) => PiIsDelta(line) && text == PiDelta(line)
    case ToolCall(name) => IsNative(line, "tool_execution_start") && name == FieldOr(line.value.fields, "toolName", Str(""))
    case ToolResult(name, isError) =>
      && IsNative(line, "tool_execution_end") && name == FieldOr(line.value.fields, "toolName", Str(""))
      && (isError <==> Truthy(Field(line.value.fields, "isError")))
    case Error(message, kind) =>
      PiFails(line) && kind.NoKind? && message == FirstTrue([Field(line.value.fields, "error"), Str("pi command failed")])
    case _ => false
  }

  /** A pi line raises exactly when it breaks the reading, and emits exactly the event it reports. */
  lemma PiLineMeans(line: Line, e: Event)
    ensures PiLine(line).Raise? <==> PiBreaks(line)
    ensures PiLine(line) == Emit(e) <==> PiReports(line, e)
  {
    if PiFails(line) {
      FirstTrueOfTwo(Field(line.value.fields, "error"), Str("pi command failed"));
    }
  }

  /** The item a Codex line speaks of: its `item`, or the line itself. */
  function CodexItemOf(line: Line): map<string, Json>
    requires line.Native? && line.value.Obj?
  {
    if Field(line.value.fields, "item").Obj? then Field(line.value.fields, "item").fields else line.value.fields
  }

  predicate CodexFails(line: Line) {
    IsAnyOf(line, {"error", "turn.error"})
  }

  predicate CodexIsState(line: Line) {
    IsAnyOf(line, {"thread.started", "turn.started", "turn.completed"})
  }

  /** A line about an item, of a type that can be looked up. */
  predicate CodexIsItem(line: Line) {
    && line.Native? && line.value.Obj? && !IsCollection(Field(line.value.fields, "type"))
    && !CodexFails(line) && !CodexIsState(line)
    && !IsCollection(Field(CodexItemOf(line), "type"))
  }

  predicate CodexItemIs(line: Line, names: set<string>) {
    CodexIsItem(line) && Field(CodexItemOf(line), "type").Str? && Field(CodexItemOf(line), "type").s in names
  }

  predicate CodexIsMessage(line: Line) {
    CodexItemIs(line, {"agent_message", "assistant_message", "text"})
  }

  predicate CodexIsTool(line: Line) {
    CodexItemIs(line, {"command_execution", "tool_call", "function_call"})
  }

  predicate CodexIsDelta(line: Line) {
    && CodexIsItem(line) && !CodexIsMessage(line) && !CodexIsTool(line)
    && IsAnyOf(line, {"text", "output_text.delta", "response.output_text.delta"})
  }

  /** The text a Codex line carries: of the item, or of the delta; a value that is no text is passed over. */
  function CodexText(line: Line): Option<string> {
    var carried :=
      if CodexIsMessage(line)
      then FirstTrue([Field(CodexItemOf(line), "text"), Field(CodexItemOf(line), "content"), Field(line.value.fields, "text")])
      else if CodexIsDelta(line) then FirstTrue([Field(line.value.fields, "text"), Field(line.value.fields, "delta")])
      else Null;
    if carried.Str? && carried.s != "" then Some(carried.s) else None
  }

  /** The line cannot be read, or a type that is looked at is a list or a dict. */
  predicate CodexBreaks(line: Line) {
    || line.Unreadable?
    || (&& line.Native? && line.value.Obj?
        && (|| IsCollection(Field(line.value.fields, "type"))
            || (!CodexFails(line) && !CodexIsState(line) && IsCollection(Field(CodexItemOf(line), "type")))))
  }

  /** The event that a Codex line reports. */
  predicate CodexReports(line: Line, e: Event) {
    match e
    case Text(text) => text.Str? && CodexText(line) == Some(text.s)
    case State(state) => CodexIsState(line) && state == Field(line.value.fields, "type")
    case ToolCall(name) =>
      && CodexIsTool(line) && !IsAnyOf(line, {"item.completed", "tool_result", "function_result"})
      && name == FirstTrue([Field(CodexItemOf(line), "command"), Field(CodexItemOf(line), "name"), Str("codex_tool")])
    case ToolResult(name, isError) =>
      && CodexIsTool(line) && IsAnyOf(line, {"item.completed", "tool_result", "function_result"})
      && name == FirstTrue([Field(CodexItemOf(line), "command"), Field(CodexItemOf(line), "name"), Str("codex_tool")])
      && (isError <==> || Truthy(Field(CodexItemOf(line), "is_error"))
                       || Field(CodexItemOf(line), "exit_code") !in {Null, Num(0.0), Bool(false)})
    case Error(message, kind) =>
      && CodexFails(line) && kind.NoKind?
      && message == FirstTrue([Field(line.value.fields, "message"), Field(line.value.fields, "error"), Str("Codex error")])
    case _ => false
  }

  /** A Codex line raises exactly when it breaks the reading, and emits exactly the event it reports. */
  lemma CodexLineMeans(line: Line, e: Event)
    ensures CodexLine(line).Raise? <==> CodexBreaks(line)
    ensures CodexLine(line) == Emit(e) <==> CodexReports(line, e)
  {
    if CodexIsItem(line) {
      CodexItemMeans(line, e);
    } else if CodexFails(line) {
      FirstTrueOfThree(Field(line.value.fields, "message"), Field(line.value.fields, "error"), Str("Codex error"));
    }
  }

  lemma CodexItemMeans(line: Line, e: Event)
    requires CodexIsItem(line)
    ensures CodexLine(line) == CodexItem(line.value.fields, CodexItemOf(line))
    ensures !CodexLine(line).Raise? && (CodexLine(line) == Emit(e) <==> CodexReports(line, e))
  {
    var native, item := line.value.fields, CodexItemOf(line);
    FirstTrueOfThree(Field(item, "text"), Field(item, "content"), Field(native, "text"));
    FirstTrueOfThree(Field(item, "command"), Field(item, "name"), Str("codex_tool"));
    FirstTrueOfTwo(Field(native, "text"), Field(native, "delta"));
  }

  // ----- what a stream reports ------------------------------------------------------------------------------

  /** What the lines of a runtime mean: the text they carry, the native error they report, whether they break the reading. */
  datatype Meaning = Meaning(text: Line -> Option<Json>, failure: Line -> Option<Json>, breaks: Line -> bool)

  function PiTextOf(line: Line): Option<Json> {
    if PiIsDelta(line) then Some(PiDelta(line)) else None
  }

  function PiFailureOf(line: Line): Option<Json> {
    if PiFails(line) then Some(FirstTrue([Field(line.value.fields, "error"), Str("pi command failed")])) else None
  }

  function CodexTextOf(line: Line): Option<Json> {
    if CodexText(line).Some? then Some(Str(CodexText(line).value)) else None
  }

  function CodexFailureOf(line: Line): Option<Json> {
    if CodexFails(line)
    then Some(FirstTrue([Field(line.value.fields, "message"), Field(line.value.fields, "error"), Str("Codex error")])) else None
  }

  const PI: Meaning := Meaning(PiTextOf, PiFailureOf, PiBreaks)
  const CODEX: Meaning := Meaning(CodexTextOf, CodexFailureOf, CodexBreaks)

  /** The translator agrees with the meaning of the lines. */
  ghost predicate Means(translate: Line -> Translated, m: Meaning) {
    forall line: Line ::
      && (translate(line).Raise? <==> m.breaks(line))
      && m.text(line) == (if translate(line).Emit? && translate(line).event.Text? then Some(translate(line).event.text) else None)
      && m.failure(line) == (if translate(line).Emit? && translate(line).event.Error? then Some(translate(line).event.message) else None)
  }

  lemma PiMeans()
    ensures Means(PiLine, PI)
  {
    forall line: Line
      ensures PiLine(line).Raise? <==> PiBreaks(line)
      ensures PiTextOf(line) == (if PiLine(line).Emit? && PiLine(line).event.Text? then Some(PiLine(line).event.text) else None)
      ensures PiFailureOf(line) == (if PiLine(line).Emit? && PiLine(line).event.Error? then Some(PiLine(line).event.message) else None)
    {
      PiLineMeans(line, Started);
      if PiLine(line).Emit? { PiLineMeans(line, PiLine(line).event); }
      if PiIsDelta(line) { PiLineMeans(line, Text(PiDelta(line))); }
      if PiFails(line) { PiLineMeans(line, Error(PiFailureOf(line).value, NoKind)); }
    }
  }

  lemma CodexMeans()
    ensures Means(CodexLine, CODEX)
  {
    forall line: Line
      ensures CodexLine(line).Raise? <==> CodexBreaks(line)
      ensures CodexTextOf(line) == (if CodexLine(line).Emit? && CodexLine(line).event.Text? then Some(CodexLine(line).event.text) else None)
      ensures CodexFailureOf(line) == (if CodexLine(line).Emit? && CodexLine(line).event.Error? then Some(CodexLine(line).event.message) else None)
    {
      CodexLineMeans(line, Started);
      if CodexLine(line).Emit? { CodexLineMeans(line, CodexLine(line).event); }
      if CodexText(line).Some? { CodexLineMeans(line, Text(Str(CodexText(line).value))); }
      if CodexFails(line) { CodexLineMeans(line, Error(CodexFailureOf(line).value, NoKind)); }
    }
  }

  predicate Stops(m: Meaning, line: Line) {
    m.breaks(line) || m.failure(line).Some?
  }

  predicate NeverStops(m: Meaning, lines: seq<Line>) {
    forall j :: 0 <= j < |lines| ==> !Stops(m, lines[j])
  }

  /** Line `k` is the first that breaks the reading or reports a native error. */
  predicate StopsAt(m: Meaning, lines: seq<Line>, k: int) {
    0 <= k < |lines| && Stops(m, lines[k]) && NeverStops(m, lines[..k])
  }

  /** The texts that the lines carry, in order. */
  function Carried(text: Line -> Option<Json>, lines: seq<Line>): seq<Json> {
    if lines == [] then []
    else
      var last := text(lines[|lines| - 1]);
      Carried(text, lines[..|lines| - 1]) + (if last.Some? then [last.value] else [])
  }

  /** The events of the lines, in order. */
  function Emitted(translate: Line -> Translated, lines: seq<Line>): seq<Event> {
    if lines == [] then []
    else
      var last := translate(lines[|lines| - 1]);
      Emitted(translate, lines[..|lines| - 1]) + (if last.Emit? then [last.event] else [])
  }

  function Concat(texts: seq<string>): string {
    if texts == [] then "" else texts[0] + Concat(texts[1..])
  }

  lemma {:induction false} ConcatSnoc(texts: seq<string>, last: string)
    ensures Concat(texts + [last]) == Concat(texts) + last
  {
    if texts == [] {
      assert [] + [last] == [last] && [last][1..] == [];
    } else {
      assert (texts + [last])[1..] == texts[1..] + [last];
      ConcatSnoc(texts[1..], last);
    }
  }

  predicate AllStrings(texts: seq<Json>) {
    forall i :: 0 <= i < |texts| ==> texts[i].Str?
  }

  function Strings(texts: seq<Json>): seq<string>
    requires AllStrings(texts)
  {
    seq(|texts|, i requires 0 <= i < |texts| => texts[i].s)
  }

  /** Joining succeeds exactly for strings, and concatenates them in order. */
  lemma {:induction false} JoinConcatenates(texts: seq<Json>)
    ensures Join(texts).Some? <==> AllStrings(texts)
    ensures AllStrings(texts) ==> Join(texts) == Some(Concat(Strings(texts)))
  {
    if texts != [] {
      var front, last := texts[..|texts| - 1], texts[|texts| - 1];
      JoinConcatenates(front);
      if AllStrings(front) && last.Str? {
        ConcatSnoc(Strings(front), last.s);
        assert Strings(texts) == Strings(front) + [last.s];
      }
    }
  }

  /** Lines that do not stop the reading: their events are read, and their texts are those they carry. */
  lemma {:induction false} ReadsOn(translate: Line -> Translated, m: Meaning, lines: seq<Line>)
    requires Means(translate, m) && NeverStops(m, lines)
    ensures Read(translate, lines) == Reading(Emitted(translate, lines))
    ensures Texts(Emitted(translate, lines)) == Carried(m.text, lines)
  {
    if lines != [] {
      var front, r := lines[..|lines| - 1], translate(lines[|lines| - 1]);
      ReadsOn(translate, m, front);
      assert !Stops(m, lines[|lines| - 1]);
      if r.Emit? {
        TextsSnoc(Emitted(translate, front), r.event);
      }
    }
  }

  lemma TextsSnoc(events: seq<Event>, e: Event)
    ensures Texts(events + [e]) == Texts(events) + (if e.Text? then [e.text] else [])
  {
    assert (events + [e])[..|events + [e]| - 1] == events;
  }

  lemma {:induction false} StoppedRead(translate: Line -> Translated, m: Meaning, lines: seq<Line>, k: int)
    requires Means(translate, m) && StopsAt(m, lines, k)
    ensures var es := Emitted(translate, lines[..k]);
            Read(translate, lines) == if m.breaks(lines[k]) then Broken(es) else Failing(es, m.failure(lines[k]).value)
  {
    assert lines[..k + 1][..k] == lines[..k];
    ReadsOn(translate, m, lines[..k]);
    StopsReading(translate, lines, k + 1);
  }

  lemma {:induction false} FirstStop(m: Meaning, lines: seq<Line>) returns (k: int)
    requires !NeverStops(m, lines)
    ensures StopsAt(m, lines, k)
  {
    var n := |lines| - 1;
    if NeverStops(m, lines[..n]) {
      k := n;
      assert forall j :: 0 <= j < n ==> lines[..n][j] == lines[j];
    } else {
      k := FirstStop(m, lines[..n]);
      assert lines[..n][..k] == lines[..k] && lines[..n][k] == lines[k];
    }
  }

  /** The event that ends a stream whose lines never stop the reading; `None` if it raises. */
  function Verdict(texts: seq<Json>, ending: Ending): Option<Event> {
    match ending
    case TimesOut => Some(Error(Str("timed out"), TimeoutError))
    case Exits(code) =>
      if code != 0 then Some(Error(Str("exited"), ProcessExitError))
      else if AllStrings(texts) then Some(Done(Concat(Strings(texts)))) else None
  }

  /** A stream that has sent these events and then ends with this one, or raises. */
  function EndedBy(events: seq<Event>, last: Option<Event>): Stream {
    if last.Some? then Ended(events + [last.value]) else Raised(events)
  }

  /** A stream that is stopped by line `k`: the events before it, and then the exception or the native error. */
  lemma {:induction false} StoppedStream(opening: seq<Event>, translate: Line -> Translated, m: Meaning, lines: seq<Line>, ending: Ending, k: int)
    requires Means(translate, m) && StopsAt(m, lines, k)
    ensures StreamOf(opening, translate, lines, ending)
            == EndedBy(opening + Emitted(translate, lines[..k]),
                       if m.breaks(lines[k]) then None else Some(Error(m.failure(lines[k]).value, RuntimeInvocationError)))
    ensures Texts(Emitted(translate, lines[..k])) == Carried(m.text, lines[..k])
  {
    StoppedRead(translate, m, lines, k);
    ReadsOn(translate, m, lines[..k]);
  }

  /** A stream that is not stopped: all its events, and then the verdict on how the process ends. */
  lemma {:induction false} FullStream(opening: seq<Event>, translate: Line -> Translated, m: Meaning, lines: seq<Line>, ending: Ending)
    requires Means(translate, m) && NeverStops(m, lines)
    ensures StreamOf(opening, translate, lines, ending)
            == EndedBy(opening + Emitted(translate, lines), Verdict(Carried(m.text, lines), ending))
    ensures Texts(Emitted(translate, lines)) == Carried(m.text, lines)
  {
    ReadsOn(translate, m, lines);
    JoinConcatenates(Carried(m.text, lines));
  }

  /**
   What pi's lines make of a stream.  The first line that breaks the reading makes it raise, the
   first that reports a native error makes it end with that error; without such a line a timeout
   or an exit code other than 0 ends it with an error of its own kind, and a run that succeeds ends
   with the concatenation of all the deltas, or raises if one of them is no string.
   */
  lemma PiStreamReports(lines: seq<Line>, ending: Ending)
    ensures forall k :: StopsAt(PI, lines, k) ==>
              PiStream(lines, ending) == EndedBy(PI_OPENING + Emitted(PiLine, lines[..k]),
                if PiBreaks(lines[k]) then None else Some(Error(PiFailureOf(lines[k]).value, RuntimeInvocationError)))
    ensures NeverStops(PI, lines) ==>
              && PiStream(lines, ending) == EndedBy(PI_OPENING + Emitted(PiLine, lines), Verdict(Carried(PiTextOf, lines), ending))
              && Texts(Emitted(PiLine, lines)) == Carried(PiTextOf, lines)
  {
    PiMeans();
    forall k | StopsAt(PI, lines, k)
      ensures PiStream(lines, ending) == EndedBy(PI_OPENING + Emitted(PiLine, lines[..k]),
                if PiBreaks(lines[k]) then None else Some(Error(PiFailureOf(lines[k]).value, RuntimeInvocationError)))
    {
      StoppedStream(PI_OPENING, PiLine, PI, lines, ending, k);
    }
    if NeverStops(PI, lines) {
      FullStream(PI_OPENING, PiLine, PI, lines, ending);
    }
  }

  /** What Codex's lines make of a stream: the same, and a run that succeeds always ends with its text. */
  lemma CodexStreamReports(lines: seq<Line>, ending: Ending)
    ensures forall k :: StopsAt(CODEX, lines, k) ==>
              CodexStream(lines, ending) == EndedBy(CODEX_OPENING + Emitted(CodexLine, lines[..k]),
                if CodexBreaks(lines[k]) then None else Some(Error(CodexFailureOf(lines[k]).value, RuntimeInvocationError)))
    ensures NeverStops(CODEX, lines) ==>
              && AllStrings(Carried(CodexTextOf, lines))
              && CodexStream(lines, ending)
                 == EndedBy(CODEX_OPENING + Emitted(CodexLine, lines), Verdict(Carried(CodexTextOf, lines), ending))
              && Texts(Emitted(CodexLine, lines)) == Carried(CodexTextOf, lines)
  {
    CodexMeans();
    CarriedAreStrings(lines);
    forall k | StopsAt(CODEX, lines, k)
      ensures CodexStream(lines, ending) == EndedBy(CODEX_OPENING + Emitted(CodexLine, lines[..k]),
                if CodexBreaks(lines[k]) then None else Some(Error(CodexFailureOf(lines[k]).value, RuntimeInvocationError)))
    {
      StoppedStream(CODEX_OPENING, CodexLine, CODEX, lines, ending, k);
    }
    if NeverStops(CODEX, lines) {
      FullStream(CODEX_OPENING, CodexLine, CODEX, lines, ending);
    }
  }

  lemma {:induction false} CarriedAreStrings(lines: seq<Line>)
    ensures AllStrings(Carried(CodexTextOf, lines))
  {
    if lines != [] {
      CarriedAreStrings(lines[..|lines| - 1]);
    }
  }

  /** Codex: joining the texts never fails; the stream raises exactly when the first line that stops the reading breaks it. */
  lemma CodexRaisesIff(lines: seq<Line>, ending: Ending)
    ensures CodexStream(lines, ending).Raised? <==> exists k :: StopsAt(CODEX, lines, k) && CodexBreaks(lines[k])
  {
    CodexStreamReports(lines, ending);
    if !NeverStops(CODEX, lines) {
      var k := FirstStop(CODEX, lines);
    }
  }

  /** The texts that lines carry are strings exactly when no line carries another value. */
  lemma {:induction false} CarriedStringsIff(text: Line -> Option<Json>, lines: seq<Line>)
    ensures AllStrings(Carried(text, lines)) <==>
            forall j :: 0 <= j < |lines| && text(lines[j]).Some? ==> text(lines[j]).value.Str?
  {
    if lines != [] {
      var n := |lines| - 1;
      CarriedStringsIff(text, lines[..n]);
      assert forall j :: 0 <= j < n ==> lines[..n][j] == lines[j];
      var front, all := Carried(text, lines[..n]), Carried(text, lines);
      assert forall i :: 0 <= i < |front| ==> all[i] == front[i];
      if text(lines[n]).Some? {
        assert all[|front|] == text(lines[n]).value;
      }
    }
  }

  /**
   pi: the stream raises exactly when the first line that stops the reading breaks it, or, at the
   very end of a run that succeeded, when some delta was not a string.
   */
  lemma PiRaisesIff(lines: seq<Line>, ending: Ending)
    ensures PiStream(lines, ending).Raised? <==>
              || (exists k :: StopsAt(PI, lines, k) && PiBreaks(lines[k]))
              || (&& ending == Exits(0) && NeverStops(PI, lines)
                  && exists j :: 0 <= j < |lines| && PiIsDelta(lines[j]) && !PiDelta(lines[j]).Str?)
  {
    PiStreamReports(lines, ending);
    if NeverStops(PI, lines) {
      CarriedStringsIff(PiTextOf, lines);
    } else {
      var k := FirstStop(PI, lines);
    }
  }

  // ----- the edge reports that event ------------------------------------------------------------------------

  /** What becomes of the delivery: all events arrive, event `at` cannot be sent, or the task is cancelled at event `at`. */
  datatype Delivery = Delivered | FailsAt(at: nat) | CancelledAt(at: nat)

  /** The result the edge sends for a stream. */
  function EdgeResult(s: Stream, d: Delivery): Event {
    if d.FailsAt? && d.at < |s.events| then Error(Str("not delivered"), DeliveryError)
    else if d.CancelledAt? && d.at < |s.events| then
      if Terminal(s.events[d.at]) then s.events[d.at] else Error(Str("stopped"), CancelledError)
    else if s.Raised? then Error(Str("raised"), Crashed)
    else if s.events == [] || !Terminal(s.events[|s.events| - 1]) then Error(Str("no events"), NoEvents)
    else s.events[|s.events| - 1]
  }

  /** The delivery was broken off before the stream's last event had been sent. */
  predicate BrokenOff(s: Stream, d: Delivery) {
    (d.FailsAt? && d.at < |s.events|) || (d.CancelledAt? && d.at < |s.events| - 1)
  }

  /**
   For every native line sequence of either adapter and every delivery, the edge sends one terminal
   event: the stream's own, exactly unless the stream raised or its delivery was broken off; then an
   error that says which.
   */
  lemma EdgeReportsTheTerminal(call: Invocation, s: Stream, d: Delivery)
    requires s == CodexInvoke(call) || s == PiInvoke(call)
    ensures Terminal(EdgeResult(s, d))
    ensures s.Ended? ==> TerminatedOnce(s.events)
    ensures s.Ended? && !BrokenOff(s, d) ==>
              && EdgeResult(s, d) == s.events[|s.events| - 1]
              && (EdgeResult(s, d).Done? ==> Join(Texts(s.events)) == Some(EdgeResult(s, d).result))
    ensures s.Raised? || BrokenOff(s, d) ==>
              && EdgeResult(s, d).Error?
              && EdgeResult(s, d).kind == if !BrokenOff(s, d) && !(d.CancelledAt? && d.at < |s.events|) then Crashed
                                          else if d.FailsAt? then DeliveryError else CancelledError
    ensures call.Refused? && d.Delivered? ==> EdgeResult(s, d) == Error(call.message, SetupError)
    ensures call.PromptFails? && d.Delivered? ==> EdgeResult(s, d).Error? && EdgeResult(s, d).kind.Crashed?
  {
    InvocationShape(call, s);
    EdgeOnShape(s, d);
  }

  /** What every stream of either adapter looks like. */
  ghost predicate Shaped(s: Stream) {
    match s
    case Raised(events) => Quiet(events)
    case Ended(events) =>
      TerminatedOnce(events) && (events[|events| - 1].Done? ==> Join(Texts(events)) == Some(events[|events| - 1].result))
  }

  lemma InvocationShape(call: Invocation, s: Stream)
    requires s == CodexInvoke(call) || s == PiInvoke(call)
    ensures Shaped(s)
  {
    OpeningsAreQuiet();
    if call.Ran? {
      CodexIsHonest();
      PiIsHonest();
      StreamIsShaped(CODEX_OPENING, CodexLine, call.lines, call.ending);
      StreamIsShaped(PI_OPENING, PiLine, call.lines, call.ending);
    }
  }

  lemma StreamIsShaped(opening: seq<Event>, translate: Line -> Translated, lines: seq<Line>, ending: Ending)
    requires Honest(translate) && Quiet(opening) && Texts(opening) == []
    ensures Shaped(StreamOf(opening, translate, lines, ending))
  {
    if StreamOf(opening, translate, lines, ending).Ended? {
      StreamEndsOnce(opening, translate, lines, ending);
    } else {
      StreamIsQuietBeforeItsEnd(opening, translate, lines, ending);
    }
  }

  lemma EdgeOnShape(s: Stream, d: Delivery)
    requires Shaped(s)
    ensures Terminal(EdgeResult(s, d))
    ensures s.Ended? && !BrokenOff(s, d) ==> EdgeResult(s, d) == s.events[|s.events| - 1]
    ensures s.Raised? || BrokenOff(s, d) ==>
              && EdgeResult(s, d).Error?
              && EdgeResult(s, d).kind == if !BrokenOff(s, d) && !(d.CancelledAt? && d.at < |s.events|) then Crashed
                                          else if d.FailsAt? then DeliveryError else CancelledError
  {
    if s.Ended? {
      forall i | 0 <= i < |s.events| - 1 ensures !Terminal(s.events[i]) {
        assert s.events[..|s.events| - 1][i] == s.events[i];
      }
    }
  }

  /** A stream that raises has emitted no terminal event. */
  lemma StreamIsQuietBeforeItsEnd(opening: seq<Event>, translate: Line -> Translated, lines: seq<Line>, ending: Ending)
    requires Honest(translate) && Quiet(opening)
    ensures var s := StreamOf(opening, translate, lines, ending); s.Raised? ==> Quiet(s.events)
  {
    ReadIsQuiet(translate, lines);
  }

  // ----- the loop --------------------------------------------------------------------------------------------

  /** The reading loop with its two mutable variables, as both adapters have it. */
  method Collect(opening: seq<Event>, translate: Line -> Translated, lines: seq<Line>, ending: Ending) returns (s: Stream)
    ensures s == StreamOf(opening, translate, lines, ending)
  {
    var events, texts: seq<Json> := [], [];
    var i := 0;
    while i < |lines|
      invariant 0 <= i <= |lines|
      invariant Read(translate, lines[..i]) == Reading(events) && texts == Texts(events)
    {
      assert lines[..i + 1][..i] == lines[..i];
      match translate(lines[i]) {
        case Skip =>
        case Raise =>
          StopsReading(translate, lines, i + 1);
          return Raised(opening + events);
        case Emit(e) =>
          if e.Error? {
            StopsReading(translate, lines, i + 1);
            return Ended(opening + events + [Error(e.message, RuntimeInvocationError)]);
          }
          assert (events + [e])[..|events + [e]| - 1] == events;
          texts := texts + (if e.Text? then [e.text] else []);
          events := events + [e];
      }
      i := i + 1;
    }
    assert lines[..i] == lines;
    if ending.TimesOut? {
      return Ended(opening + events + [Error(Str("timed out"), TimeoutError)]);
    }
    return Finish(opening + events, texts, ending.code);
  }

  /** Once the loop has stopped, later lines play no part. */
  lemma {:induction false} StopsReading(translate: Line -> Translated, lines: seq<Line>, n: nat)
    requires n <= |lines| && !Read(translate, lines[..n]).Reading?
    ensures Read(translate, lines) == Read(translate, lines[..n])
  {
    if n == |lines| {
      assert lines[..n] == lines;
    } else {
      var prefix := lines[..|lines| - 1];
      assert prefix[..n] == lines[..n];
      StopsReading(translate, prefix, n);
    }
  }
}
