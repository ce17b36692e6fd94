/** How a client reads a stream of server-sent events: sections 9.2.5 and 9.2.6 of the HTML Living
    Standard. */
module EventStream {
  import opened Text

  datatype Event = Event(kind: string, data: string, lastEventId: string)

  datatype Reader = Reader(data: string, kind: string, id: string, retry: Option<nat>, events: seq<Event>)

  const START := Reader("", "", "", None, [])

  function LineEnd(s: string): (r: Option<nat>)
    ensures r.None? ==> '\r' !in s && '\n' !in s
    ensures r.Some? ==> r.value < |s| && (s[r.value] == '\r' || s[r.value] == '\n')
    ensures r.Some? ==> '\r' !in s[..r.value] && '\n' !in s[..r.value]
  {
    if s == [] then None
    else if s[0] == '\r' || s[0] == '\n' then Some(0)
    else match LineEnd(s[1..])
      case None => None
      case Some(i) =>
        assert s[..i + 1] == [s[0]] + s[1..][..i];
        Some(i + 1)
  }

  /** The lines that have ended, by CR LF, by LF or by CR; an unfinished one at the end is dropped. */
  function Lines(s: string): seq<string>
    decreases |s|
  {
    match LineEnd(s)
    case None => []
    case Some(i) =>
      var next := if s[i] == '\r' && i + 1 < |s| && s[i + 1] == '\n' then i + 2 else i + 1;
      [s[..i]] + Lines(s[next..])
  }

  /** Without its last line feed. */
  function Chomp(s: string): string { if s != [] && s[|s| - 1] == '\n' then s[..|s| - 1] else s }

  function Dispatch(r: Reader): Reader {
    if r.data == "" then r.(kind := "")
    else r.(data := "", kind := "",
            events := r.events + [Event(if r.kind == "" then "message" else r.kind, Chomp(r.data), r.id)])
  }

  function Field(r: Reader, name: string, value: string): Reader {
    if name == "event" then r.(kind := value)
    else if name == "data" then r.(data := r.data + value + "\n")
    else if name == "id" then if '\0' in value then r else r.(id := value)
    else if name == "retry" then if value != "" && AllDigits(value) then r.(retry := Some(DecimalValue(value))) else r
    else r
  }

  function OneLine(r: Reader, line: string): Reader {
    if line == "" then Dispatch(r)
    else match Index(line, ':')
      case None => Field(r, line, "")
      case Some(0) => r
      case Some(i) =>
        var value := line[i + 1..];
        Field(r, line[..i], if value != "" && value[0] == ' ' then value[1..] else value)
  }

  function Read(r: Reader, lines: seq<string>): Reader
    decreases |lines|
  {
    if lines == [] then r else Read(OneLine(r, lines[0]), lines[1..])
  }

  /** The events the stream makes the client see. */
  function Parse(s: string): seq<Event> { Read(START, Lines(s)).events }

  lemma {:induction false} ReadAppend(r: Reader, a: seq<string>, b: seq<string>)
    ensures Read(r, a + b) == Read(Read(r, a), b)
    decreases |a|
  {
    if a == [] {
      assert a + b == b;
    } else {
      assert (a + b)[1..] == a[1..] + b;
      ReadAppend(OneLine(r, a[0]), a[1..], b);
    }
  }

  /** A line without line ends of its own. */
  predicate Plain(line: string) { '\r' !in line && '\n' !in line }

  lemma FirstLine(line: string, rest: string)
    requires Plain(line)
    ensures Lines(line + "\n" + rest) == [line] + Lines(rest)
  {
    var s := line + "\n" + rest;
    assert s[|line|] == '\n';
    assert forall j :: 0 <= j < |line| ==> s[j] == line[j] && line[j] in line;
    match LineEnd(s)
    case None =>
    case Some(i) =>
      assert forall j :: 0 <= j < i ==> s[..i][j] == s[j] && s[..i][j] in s[..i];
      assert i == |line|;
      assert s[..|line|] == line && s[|line| + 1..] == rest;
  }
}
