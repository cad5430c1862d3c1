/** The JSON lines of spdlog.cpp: fields, records and jsonl_formatter. */
module JsonLog {
  import opened JsonEscape
  import opened TidPayload
  import opened LogTags
  import opened Words

  // ----- records -----

  datatype Content = Text(text: string) | Number(n: nat)

  datatype Field = Field(name: string, content: Content)

  /** A field name that needs no escaping. */
  ghost predicate Plain(name: string)
  {
    forall i | 0 <= i < |name| :: name[i] >= ' ' && name[i] != '"' && name[i] != '\\'
  }

  function ContentText(c: Content): string
  {
    match c
    case Text(text) => "\"" + Escape(text) + "\""
    case Number(n) => Digits(n)
  }

  function FieldText(f: Field): string
  {
    "\"" + f.name + "\":" + ContentText(f.content)
  }

  /** The fields one after another, with commas before all but the first. */
  function Join(parts: seq<string>, first: bool): string
  {
    if parts == [] then "" else (if first then "" else ",") + parts[0] + Join(parts[1..], false)
  }

  function Texts(fs: seq<Field>): (r: seq<string>)
    ensures |r| == |fs|
  {
    if fs == [] then [] else [FieldText(fs[0])] + Texts(fs[1..])
  }

  function RecordText(fs: seq<Field>): string
  {
    "{" + Join(Texts(fs), true) + "}\n"
  }

  // ----- reading a record -----

  /** The string that s, after an opening quote, starts with, and what follows it. */
  function ReadString(s: string): (r: Option<(string, string)>)
    ensures r.Some? ==> |r.value.1| < |s|
  {
    match StringLength(s)
    case None => None
    case Some(k) => if Unescape(s[..k]).None? then None else Some((Unescape(s[..k]).value, s[k + 1..]))
  }

  function ReadContent(s: string): (r: Option<(Content, string)>)
    ensures r.Some? ==> |r.value.1| < |s|
  {
    if s == "" then None
    else if s[0] == '"' then
      match ReadString(s[1..])
      case None => None
      case Some(t) => Some((Text(t.0), t.1))
    else if Run(s) == 0 then None
    else Some((Number(Decimal(s[..Run(s)])), s[Run(s)..]))
  }

  function ReadField(s: string): (r: Option<(Field, string)>)
    ensures r.Some? ==> |r.value.1| < |s|
  {
    if s == "" || s[0] != '"' then None
    else
      match ReadString(s[1..])
      case None => None
      case Some(t) =>
        if t.1 == "" || t.1[0] != ':' then None
        else
          match ReadContent(t.1[1..])
          case None => None
          case Some(c) => Some((Field(t.0, c.0), c.1))
  }

  /** Fields separated by commas, up to the closing brace and line feed. */
  function ReadFields(s: string): Option<seq<Field>>
    decreases |s|
  {
    match ReadField(s)
    case None => None
    case Some(f) =>
      if f.1 == "}\n" then Some([f.0])
      else if f.1 == "" || f.1[0] != ',' then None
      else
        match ReadFields(f.1[1..])
        case None => None
        case Some(fs) => Some([f.0] + fs)
  }

  function ReadRecord(s: string): Option<seq<Field>>
  {
    if s == "" || s[0] != '{' then None else ReadFields(s[1..])
  }

  // ----- a record reads back -----

  lemma {:induction false} PlainEscapes(name: string)
    requires Plain(name)
    ensures Escape(name) == name
  {
    if name != "" { PlainEscapes(name[1..]); }
  }

  lemma StringReadsBack(text: string, rest: string)
    ensures ReadString(Escape(text) + "\"" + rest) == Some((text, rest))
  {
    var s := Escape(text) + "\"" + rest;
    EscapeDelimits(text, rest);
    EscapeRoundTrip(text);
    assert s[..|Escape(text)|] == Escape(text);
    assert s[|Escape(text)| + 1..] == rest;
  }

  lemma QuotedReads(after: string, text: string, rest: string)
    requires ReadString(after) == Some((text, rest))
    ensures ReadContent("\"" + after) == Some((Text(text), rest))
  {
    assert ("\"" + after)[1..] == after;
  }

  lemma NumberReads(digits: string, rest: string)
    requires |digits| > 0 && AllDigits(digits) && rest != "" && !IsDigit(rest[0])
    ensures ReadContent(digits + rest) == Some((Number(Decimal(digits)), rest))
  {
    RunOf(digits, rest);
    assert (digits + rest)[0] == digits[0];
    assert (digits + rest)[..|digits|] == digits && (digits + rest)[|digits|..] == rest;
  }

  lemma TextReadsBack(text: string, rest: string)
    ensures ReadContent("\"" + Escape(text) + "\"" + rest) == Some((Text(text), rest))
  {
    StringReadsBack(text, rest);
    QuotedReads(Escape(text) + "\"" + rest, text, rest);
    assert "\"" + Escape(text) + "\"" + rest == "\"" + (Escape(text) + "\"" + rest);
  }

  lemma ContentReadsBack(c: Content, rest: string)
    requires rest != "" && !IsDigit(rest[0])
    ensures ReadContent(ContentText(c) + rest) == Some((c, rest))
  {
    match c
    case Text(text) => TextReadsBack(text, rest);
    case Number(n) =>
      DigitsRoundTrip(n);
      NumberReads(Digits(n), rest);
  }

  /** The text of a field reads back, whatever text that does not go on with a
      digit follows. */
  ghost predicate Reads(part: string, f: Field)
  {
    forall rest: string {:trigger ReadField(part + rest)} | rest != "" && !IsDigit(rest[0]) ::
      ReadField(part + rest) == Some((f, rest))
  }

  lemma Regroup(name: string, content: string, rest: string)
    ensures "\"" + name + "\":" + content + rest == "\"" + (name + "\"" + (":" + (content + rest)))
  {
    assert "\":" == "\"" + ":";
    assert "\"" + name + "\":" == "\"" + (name + "\"" + ":");
    assert name + "\"" + ":" + content + rest == name + "\"" + (":" + (content + rest));
  }

  lemma FieldParts(after: string, name: string, tail: string, c: Content, rest: string)
    requires ReadString(after) == Some((name, ":" + tail)) && ReadContent(tail) == Some((c, rest))
    ensures ReadField("\"" + after) == Some((Field(name, c), rest))
  {
    assert ("\"" + after)[1..] == after;
    assert (":" + tail)[1..] == tail;
  }

  lemma NameThenContent(name: string, content: string, c: Content, rest: string)
    requires ReadContent(content + rest) == Some((c, rest)) && Plain(name)
    ensures ReadField("\"" + name + "\":" + content + rest) == Some((Field(name, c), rest))
  {
    PlainEscapes(name);
    StringReadsBack(name, ":" + (content + rest));
    FieldParts(name + "\"" + (":" + (content + rest)), name, content + rest, c, rest);
    Regroup(name, content, rest);
  }

  lemma FieldReadsBack(f: Field)
    requires Plain(f.name)
    ensures Reads(FieldText(f), f)
  {
    forall rest: string | rest != "" && !IsDigit(rest[0]) ensures ReadField(FieldText(f) + rest) == Some((f, rest)) {
      ContentReadsBack(f.content, rest);
      NameThenContent(f.name, ContentText(f.content), f.content, rest);
    }
  }

  ghost predicate PlainNames(fs: seq<Field>)
  {
    forall i | 0 <= i < |fs| :: Plain(fs[i].name)
  }

  lemma {:induction false} TextAt(fs: seq<Field>, i: nat)
    requires i < |fs|
    ensures Texts(fs)[i] == FieldText(fs[i])
  {
    if i > 0 { TextAt(fs[1..], i - 1); }
  }

  lemma CommaFirst(parts: seq<string>)
    requires parts != []
    ensures Join(parts, false) == "," + Join(parts, true)
  {
    assert "" + parts[0] == parts[0];
    assert "," + parts[0] + Join(parts[1..], false) == "," + (parts[0] + Join(parts[1..], false));
  }

  lemma JoinHead(parts: seq<string>)
    requires parts != []
    ensures Join(parts, true) + "}\n" == parts[0] + (Join(parts[1..], false) + "}\n")
  {
    assert "" + parts[0] == parts[0];
    assert parts[0] + Join(parts[1..], false) + "}\n" == parts[0] + (Join(parts[1..], false) + "}\n");
  }

  lemma LastField(part: string, f: Field)
    requires Reads(part, f)
    ensures ReadFields(part + "}\n") == Some([f])
  {}

  lemma NextField(s: string, f: Field, more: string, fs: seq<Field>)
    requires ReadField(s) == Some((f, "," + more)) && ReadFields(more) == Some(fs)
    ensures ReadFields(s) == Some([f] + fs)
  {
    assert ("," + more)[1..] == more;
    assert ("," + more)[0] == ',';
  }

  lemma JoinShape(parts: seq<string>)
    requires |parts| > 1
    ensures Join(parts, true) + "}\n" == parts[0] + ("," + (Join(parts[1..], true) + "}\n"))
  {
    JoinHead(parts);
    CommaFirst(parts[1..]);
    assert "," + Join(parts[1..], true) + "}\n" == "," + (Join(parts[1..], true) + "}\n");
  }

  lemma FieldThenMore(part: string, f: Field, more: string, fs: seq<Field>)
    requires Reads(part, f) && ReadFields(more) == Some(fs)
    ensures ReadFields(part + ("," + more)) == Some([f] + fs)
  {
    assert ReadField(part + ("," + more)) == Some((f, "," + more));
    NextField(part + ("," + more), f, more, fs);
  }

  lemma OnlyField(parts: seq<string>, f: Field)
    requires |parts| == 1 && Reads(parts[0], f)
    ensures ReadFields(Join(parts, true) + "}\n") == Some([f])
  {
    JoinHead(parts);
    assert parts[1..] == [];
    assert Join(parts[1..], false) + "}\n" == "}\n";
    LastField(parts[0], f);
  }

  lemma {:induction false} JoinReadsBack(parts: seq<string>, fs: seq<Field>)
    requires |parts| == |fs| > 0 && forall i | 0 <= i < |fs| :: Reads(parts[i], fs[i])
    ensures ReadFields(Join(parts, true) + "}\n") == Some(fs)
    decreases |fs|
  {
    assert fs == [fs[0]] + fs[1..];
    if |fs| > 1 {
      JoinReadsBack(parts[1..], fs[1..]);
      FieldThenMore(parts[0], fs[0], Join(parts[1..], true) + "}\n", fs[1..]);
      JoinShape(parts);
    } else {
      assert fs == [fs[0]];
      OnlyField(parts, fs[0]);
    }
  }

  /** A record of fields with plain names reads back as those fields. */
  lemma RecordRoundTrip(fs: seq<Field>)
    requires fs != [] && PlainNames(fs)
    ensures ReadRecord(RecordText(fs)) == Some(fs)
  {
    forall i | 0 <= i < |fs| ensures Reads(Texts(fs)[i], fs[i]) {
      TextAt(fs, i);
      FieldReadsBack(fs[i]);
    }
    JoinReadsBack(Texts(fs), fs);
    var inner := Join(Texts(fs), true) + "}\n";
    assert RecordText(fs) == "{" + inner;
    OpenedReads(inner, fs);
  }

  lemma OpenedReads(inner: string, fs: seq<Field>)
    requires ReadFields(inner) == Some(fs)
    ensures ReadRecord("{" + inner) == Some(fs)
  {
    assert ("{" + inner)[1..] == inner;
  }

  lemma ContentPrintable(c: Content)
    ensures Printable(ContentText(c))
  {
    match c
    case Text(text) =>
      EscapePrintable(text);
      PrintableConcat("\"", Escape(text));
      PrintableConcat("\"" + Escape(text), "\"");
    case Number(n) => DigitsRoundTrip(n);
  }

  lemma FieldPrintable(name: string, content: string)
    requires Plain(name) && Printable(content)
    ensures Printable("\"" + name + "\":" + content)
  {
    PrintableConcat("\"", name);
    PrintableConcat("\"" + name, "\":");
    PrintableConcat("\"" + name + "\":", content);
  }

  lemma {:induction false} JoinPrintable(parts: seq<string>, first: bool)
    requires forall i | 0 <= i < |parts| :: Printable(parts[i])
    ensures Printable(Join(parts, first))
    decreases |parts|
  {
    if parts != [] {
      JoinPrintable(parts[1..], false);
      PrintableConcat(if first then "" else ",", parts[0]);
      PrintableConcat((if first then "" else ",") + parts[0], Join(parts[1..], false));
    }
  }

  /** A record is one line: a line feed at its end and no control character before. */
  lemma RecordIsOneLine(fs: seq<Field>)
    requires PlainNames(fs)
    ensures var s := RecordText(fs);
            |s| > 0 && s[|s| - 1] == '\n' && Printable(s[..|s| - 1])
  {
    forall i | 0 <= i < |fs| ensures Printable(Texts(fs)[i]) {
      TextAt(fs, i);
      ContentPrintable(fs[i].content);
      FieldPrintable(fs[i].name, ContentText(fs[i].content));
    }
    JoinPrintable(Texts(fs), true);
    BracedLine(Join(Texts(fs), true));
  }

  lemma BracedLine(inner: string)
    requires Printable(inner)
    ensures var s := "{" + inner + "}\n";
            s[|s| - 1] == '\n' && Printable(s[..|s| - 1])
  {
    var s := "{" + inner + "}\n";
    PrintableConcat("{", inner);
    PrintableConcat("{" + inner, "}");
    assert s[..|s| - 1] == "{" + inner + "}";
  }

  // ----- jsonl_formatter -----

  method AppendJsonField(name: string, value: string, dest: MemoryBuffer, first: bool) returns (first': bool)
    modifies dest
    ensures dest.data == old(dest.data) + (if first then "" else ",") + FieldText(Field(name, Text(value))) && !first'
  {
    if !first {
      dest.PushBack(',');
    }
    first' := false;
    dest.PushBack('"');
    dest.AppendStringView(name);
    dest.AppendStringView("\":\"");
    AppendJsonEscaped(value, dest);
    dest.PushBack('"');
  }

  method AppendJsonNumberField(name: string, value: nat, dest: MemoryBuffer, first: bool) returns (first': bool)
    modifies dest
    ensures dest.data == old(dest.data) + (if first then "" else ",") + FieldText(Field(name, Number(value))) && !first'
  {
    if !first {
      dest.PushBack(',');
    }
    first' := false;
    dest.PushBack('"');
    dest.AppendStringView(name);
    dest.AppendStringView("\":");
    dest.AppendStringView(Digits(value));
  }

  datatype Level = Trace | Debug | Info | Warn | Err | Critical | Off | Other

  /** level_name */
  function LevelName(level: Level): string
  {
    match level
    case Trace => "trace"
    case Debug => "debug"
    case Info => "info"
    case Warn => "warn"
    case Err => "error"
    case Critical => "critical"
    case Off => "off"
    case Other => "unknown"
  }

  /** A null C string counts as empty. */
  function OrEmpty(s: Option<string>): string { if s.Some? then s.value else "" }

  /** What format() reads from the message, its source and the configuration; the
      time stamp is computed elsewhere. */
  datatype LogEntry = LogEntry(
    time: string, level: Level, logger: string, service: string, node: string, runId: string, pid: nat,
    threadId: nat, file: Option<string>, line: nat, funcName: Option<string>, payload: string)

  /** The fields that say where and when the record was made. */
  function OriginFields(e: LogEntry): seq<Field>
  {
    [Field("ts", Text(e.time)), Field("level", Text(LevelName(e.level))), Field("logger", Text(e.logger)),
     Field("service", Text(e.service)), Field("node", Text(e.node)), Field("run_id", Text(e.runId)),
     Field("pid", Number(e.pid))]
  }

  function SourceFields(e: LogEntry, threadId: nat): seq<Field>
  {
    [Field("tid", Number(threadId)), Field("file", Text(OrEmpty(e.file))), Field("line", Number(e.line)),
     Field("function", Text(OrEmpty(e.funcName)))]
  }

  function MessageFields(tags: Tags, message: string): seq<Field>
  {
    [Field("component", Text(tags.component)), Field("action", Text(tags.action)), Field("message", Text(message))]
  }

  /** Thread id and message come from the payload when it carries them, the tags from
      the message. */
  function RecordFields(e: LogEntry): seq<Field>
  {
    match ReadPayload(e.payload)
    case Some(p) => OriginFields(e) + SourceFields(e, p.0) + MessageFields(TagsOf(p.1), p.1)
    case None => OriginFields(e) + SourceFields(e, e.threadId) + MessageFields(TagsOf(e.payload), e.payload)
  }

  lemma {:induction false} JoinSnoc(parts: seq<string>, part: string, first: bool)
    ensures Join(parts + [part], first) == Join(parts, first) + (if first && parts == [] then "" else ",") + part
    decreases |parts|
  {
    if parts == [] {
      assert [part][1..] == [] && Join([part][1..], false) == "";
      assert parts + [part] == [part];
    } else {
      JoinSnoc(parts[1..], part, false);
      assert (parts + [part])[1..] == parts[1..] + [part];
    }
  }

  lemma {:induction false} TextsSnoc(fs: seq<Field>, f: Field)
    ensures Texts(fs + [f]) == Texts(fs) + [FieldText(f)]
    decreases |fs|
  {
    if fs == [] {
      assert fs + [f] == [f] && [f][1..] == [];
    } else {
      TextsSnoc(fs[1..], f);
      assert (fs + [f])[1..] == fs[1..] + [f];
    }
  }

  /** What the buffer holds once the given fields are appended. */
  ghost predicate Appended(data: string, start: string, fs: seq<Field>)
  {
    data == start + Join(Texts(fs), true)
  }

  lemma AppendedOne(data: string, start: string, fs: seq<Field>, f: Field)
    requires Appended(data, start, fs)
    ensures Appended(data + (if fs == [] then "" else ",") + FieldText(f), start, fs + [f])
  {
    TextsSnoc(fs, f);
    JoinSnoc(Texts(fs), FieldText(f), true);
    Reassociate(start, Join(Texts(fs), true), if fs == [] then "" else ",", FieldText(f));
  }

  lemma Reassociate(a: string, b: string, c: string, d: string)
    ensures a + b + c + d == a + (b + c + d)
  {}

  method AppendText(name: string, value: string, dest: MemoryBuffer, first: bool,
      ghost start: string, ghost fs: seq<Field>)
    returns (first': bool, ghost fs': seq<Field>)
    requires Appended(dest.data, start, fs) && first == (fs == [])
    modifies dest
    ensures Appended(dest.data, start, fs') && fs' == fs + [Field(name, Text(value))] && !first'
  {
    AppendedOne(dest.data, start, fs, Field(name, Text(value)));
    first' := AppendJsonField(name, value, dest, first);
    fs' := fs + [Field(name, Text(value))];
  }

  method AppendNumber(name: string, value: nat, dest: MemoryBuffer, first: bool,
      ghost start: string, ghost fs: seq<Field>)
    returns (first': bool, ghost fs': seq<Field>)
    requires Appended(dest.data, start, fs) && first == (fs == [])
    modifies dest
    ensures Appended(dest.data, start, fs') && fs' == fs + [Field(name, Number(value))] && !first'
  {
    AppendedOne(dest.data, start, fs, Field(name, Number(value)));
    first' := AppendJsonNumberField(name, value, dest, first);
    fs' := fs + [Field(name, Number(value))];
  }

  method AppendOrigin(e: LogEntry, dest: MemoryBuffer,
      ghost start: string) returns (first': bool, ghost fs': seq<Field>)
    requires dest.data == start
    modifies dest
    ensures Appended(dest.data, start, fs') && fs' == OriginFields(e) && !first'
  {
    first', fs' := true, [];
    first', fs' := AppendText("ts", e.time, dest, first', start, fs');
    first', fs' := AppendText("level", LevelName(e.level), dest, first', start, fs');
    first', fs' := AppendText("logger", e.logger, dest, first', start, fs');
    first', fs' := AppendText("service", e.service, dest, first', start, fs');
    first', fs' := AppendText("node", e.node, dest, first', start, fs');
    first', fs' := AppendText("run_id", e.runId, dest, first', start, fs');
    first', fs' := AppendNumber("pid", e.pid, dest, first', start, fs');
  }

  method AppendSource(e: LogEntry, threadId: nat, dest: MemoryBuffer, first: bool,
      ghost start: string, ghost fs: seq<Field>)
    returns (first': bool, ghost fs': seq<Field>)
    requires Appended(dest.data, start, fs) && fs != [] && !first
    modifies dest
    ensures Appended(dest.data, start, fs') && fs' == fs + SourceFields(e, threadId) && !first'
  {
    first', fs' := first, fs;
    first', fs' := AppendNumber("tid", threadId, dest, first', start, fs');
    first', fs' := AppendText("file", OrEmpty(e.file), dest, first', start, fs');
    first', fs' := AppendNumber("line", e.line, dest, first', start, fs');
    first', fs' := AppendText("function", OrEmpty(e.funcName), dest, first', start, fs');
  }

  method AppendMessage(tags: Tags, message: string, dest: MemoryBuffer, first: bool,
      ghost start: string, ghost fs: seq<Field>)
    returns (first': bool, ghost fs': seq<Field>)
    requires Appended(dest.data, start, fs) && fs != [] && !first
    modifies dest
    ensures Appended(dest.data, start, fs') && fs' == fs + MessageFields(tags, message)
  {
    first', fs' := first, fs;
    first', fs' := AppendText("component", tags.component, dest, first', start, fs');
    first', fs' := AppendText("action", tags.action, dest, first', start, fs');
    first', fs' := AppendText("message", message, dest, first', start, fs');
  }

  lemma Finished(data: string, before: string, fs: seq<Field>)
    requires Appended(data, before + "{", fs)
    ensures data + ['}'] + ['\n'] == before + RecordText(fs)
  {
    Close(before, Join(Texts(fs), true));
  }

  lemma Close(a: string, b: string)
    ensures a + "{" + b + ['}'] + ['\n'] == a + ("{" + b + "}\n")
  {}

  /** jsonl_formatter::format */
  method Format(e: LogEntry, dest: MemoryBuffer)
    modifies dest
    ensures dest.data == old(dest.data) + RecordText(RecordFields(e))
  {
    var threadId, message := e.threadId, e.payload;
    var tagged := ReadZppTidPayload(e.payload);
    if tagged.Some? {
      threadId, message := tagged.value.0, tagged.value.1;
    }
    var tags := ParseLogTags(message);
    dest.PushBack('{');
    ghost var start, fs := dest.data, [];
    var first: bool;
    first, fs := AppendOrigin(e, dest, start);
    first, fs := AppendSource(e, threadId, dest, first, start, fs);
    first, fs := AppendMessage(tags, message, dest, first, start, fs);
    assert fs == RecordFields(e);
    Finished(dest.data, old(dest.data), fs);
    dest.PushBack('}');
    dest.PushBack('\n');
  }

  lemma RecordNames(e: LogEntry)
    ensures RecordFields(e) != [] && PlainNames(RecordFields(e))
  {
    forall i | 0 <= i < |RecordFields(e)| ensures Plain(RecordFields(e)[i].name) {
      PlainName(RecordFields(e)[i].name);
    }
  }

  lemma PlainName(name: string)
    requires name in {"ts", "level", "logger", "service", "node", "run_id", "pid", "tid", "file", "line", "function",
                      "component", "action", "message"}
    ensures Plain(name)
  {}

  /** Every record written is one line and reads back, with the message and thread
      id that the payload carried. */
  lemma LogRecord(e: LogEntry)
    ensures var s := RecordText(RecordFields(e));
            && |s| > 0 && s[|s| - 1] == '\n' && Printable(s[..|s| - 1])
            && ReadRecord(s) == Some(RecordFields(e))
  {
    RecordNames(e);
    RecordIsOneLine(RecordFields(e));
    RecordRoundTrip(RecordFields(e));
  }

  lemma TaggedFields(e: LogEntry, id: nat, message: string)
    requires ReadPayload(e.payload) == Some((id, message))
    ensures var fs := RecordFields(e);
            && |fs| == 14 && fs[7] == Field("tid", Number(id)) && fs[13] == Field("message", Text(message))
            && fs[11] == Field("component", Text(TagsOf(message).component))
            && fs[12] == Field("action", Text(TagsOf(message).action))
  {}

  /** From the logging thread to the reader of the file: a message that nng2format
      tags and append_zpp_log_payload wraps comes back with its thread id, its tags
      and its text. */
  lemma NngRecord(e: LogEntry, id: nat, component: string, action: string, text: string)
    requires id < WORD && Separable(component, action)
    requires e.payload == Payload(id, NngTag(component, action) + text)
    ensures var r := ReadRecord(RecordText(RecordFields(e)));
            && r.Some? && |r.value| == 14
            && r.value[7] == Field("tid", Number(id))
            && r.value[11] == Field("component", Text("nng." + component))
            && r.value[12] == Field("action", Text(action))
            && r.value[13] == Field("message", Text(NngTag(component, action) + text))
  {
    var message := NngTag(component, action) + text;
    PayloadRoundTrip(id, message);
    NngTagRoundTrip(component, action, text);
    TaggedFields(e, id, message);
    LogRecord(e);
  }

  /** The content of the first field of that name. */
  function LookUp(fs: seq<Field>, name: string): Option<Content>
  {
    if fs == [] then None else if fs[0].name == name then Some(fs[0].content) else LookUp(fs[1..], name)
  }

  /** What the record, read back (LogRecord), holds under a name. */
  function Says(e: LogEntry, name: string): Option<Content> { LookUp(RecordFields(e), name) }

  lemma {:induction false} LookUpAt(fs: seq<Field>, i: nat)
    requires i < |fs| && forall j | 0 <= j < i :: fs[j].name != fs[i].name
    ensures LookUp(fs, fs[i].name) == Some(fs[i].content)
  {
    if i > 0 { LookUpAt(fs[1..], i - 1); }
  }

  const NAMES := ["ts", "level", "logger", "service", "node", "run_id", "pid", "tid", "file", "line", "function",
                  "component", "action", "message"]

  lemma PartNames(e: LogEntry, id: nat, tags: Tags, message: string, i: nat)
    requires i < 14
    ensures var fs := OriginFields(e) + SourceFields(e, id) + MessageFields(tags, message);
            |fs| == 14 && fs[i].name == NAMES[i]
  {}

  /** The fourteen fields, in this order. */
  lemma FieldNames(e: LogEntry, i: nat)
    requires i < 14
    ensures |RecordFields(e)| == 14 && RecordFields(e)[i].name == NAMES[i]
  {
    match ReadPayload(e.payload)
    case Some(p) => PartNames(e, p.0, TagsOf(p.1), p.1, i);
    case None => PartNames(e, e.threadId, TagsOf(e.payload), e.payload, i);
  }

  lemma NamesDiffer(i: nat, j: nat)
    requires i < j < 14
    ensures NAMES[i] != NAMES[j]
  {}

  lemma SaysAt(e: LogEntry, i: nat)
    requires i < 14
    ensures |RecordFields(e)| == 14 && Says(e, NAMES[i]) == Some(RecordFields(e)[i].content)
  {
    FieldNames(e, i);
    forall j | 0 <= j < i ensures RecordFields(e)[j].name != RecordFields(e)[i].name {
      FieldNames(e, j);
      NamesDiffer(j, i);
    }
    LookUpAt(RecordFields(e), i);
  }

  /** What a reader of the record finds under each name that says where and when. */
  lemma RecordSaysOrigin(e: LogEntry)
    ensures Says(e, "ts") == Some(Text(e.time)) && Says(e, "logger") == Some(Text(e.logger))
    ensures Says(e, "service") == Some(Text(e.service)) && Says(e, "node") == Some(Text(e.node))
    ensures Says(e, "run_id") == Some(Text(e.runId)) && Says(e, "pid") == Some(Number(e.pid))
  {
    SaysAt(e, 0);
    SaysAt(e, 2);
    SaysAt(e, 3);
    SaysAt(e, 4);
    SaysAt(e, 5);
    SaysAt(e, 6);
  }

  lemma RecordSaysLevel(e: LogEntry)
    ensures Says(e, "level") == Some(Text(
      match e.level
      case Trace => "trace" case Debug => "debug" case Info => "info" case Warn => "warn"
      case Err => "error" case Critical => "critical" case Off => "off" case Other => "unknown"))
  {
    SaysAt(e, 1);
  }

  /** ... and what happened: the thread and the message of the payload if it carries
      them, otherwise the logger's thread and the payload as it is. */
  lemma RecordSaysEvent(e: LogEntry)
    ensures Says(e, "file") == Some(Text(if e.file.Some? then e.file.value else ""))
    ensures Says(e, "line") == Some(Number(e.line))
    ensures Says(e, "function") == Some(Text(if e.funcName.Some? then e.funcName.value else ""))
    ensures ReadPayload(e.payload).None? ==>
      Says(e, "tid") == Some(Number(e.threadId)) && Says(e, "message") == Some(Text(e.payload))
    ensures ReadPayload(e.payload).Some? ==>
      && Says(e, "tid") == Some(Number(ReadPayload(e.payload).value.0))
      && Says(e, "message") == Some(Text(ReadPayload(e.payload).value.1))
    ensures Says(e, "message").Some? && Says(e, "message").value.Text?
    ensures var tags := TagsOf(Says(e, "message").value.text);
            Says(e, "component") == Some(Text(tags.component)) && Says(e, "action") == Some(Text(tags.action))
  {
    SaysAt(e, 7);
    SaysAt(e, 8);
    SaysAt(e, 9);
    SaysAt(e, 10);
    SaysAt(e, 11);
    SaysAt(e, 12);
    SaysAt(e, 13);
  }
}
