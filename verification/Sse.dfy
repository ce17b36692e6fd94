/** The writer of server-sent events: what it puts on the wire, over a connection that may break at any
    character, and what a client that reads by the standard makes of it. */
module Sse {
  import opened EventStream
  import opened Text

  datatype Call = EventCall(event: string, data: string) | MessageCall(data: string) | Heartbeat

  predicate IsLegal(c: Call) { c.EventCall? ==> Plain(c.event) }

  /** Replaces every occurrence, from left to right. */
  function ReplaceAll(s: string, what: string, with: string): string
    requires what != ""
    decreases |s|
  {
    if |s| < |what| then s
    else if s[..|what|] == what then with + ReplaceAll(s[|what|..], what, with)
    else [s[0]] + ReplaceAll(s[1..], what, with)
  }

  function ToLineFeeds(data: string): string { ReplaceAll(ReplaceAll(data, "\r\n", "\n"), "\r", "\n") }

  /** Each CR LF, CR or LF read as one line feed. */
  function Normalised(s: string): string
    decreases |s|
  {
    if s == "" then ""
    else if |s| >= 2 && s[0] == '\r' && s[1] == '\n' then "\n" + Normalised(s[2..])
    else (if s[0] == '\r' then "\n" else [s[0]]) + Normalised(s[1..])
  }

  lemma ReplaceStep(c: char, rest: string)
    ensures ReplaceAll([c] + rest, "\r", "\n") == (if c == '\r' then "\n" else [c]) + ReplaceAll(rest, "\r", "\n")
  {
    var s := [c] + rest;
    assert s[..1] == [c] && s[1..] == rest && ([c] == "\r" <==> c == '\r');
  }

  /** The two passes of the writer agree with reading the line ends one by one. */
  lemma {:induction false} TwoPasses(s: string)
    ensures ToLineFeeds(s) == Normalised(s)
    decreases |s|
  {
    if s != "" {
      if |s| >= 2 && s[0] == '\r' && s[1] == '\n' {
        assert s[..2] == "\r\n";
        ReplaceStep('\n', ReplaceAll(s[2..], "\r\n", "\n"));
        TwoPasses(s[2..]);
      } else {
        if |s| >= 2 { assert s[..2][0] == s[0] && s[..2][1] == s[1]; }
        if |s| == 1 { assert s[1..] == "" && s == [s[0]] + ""; }
        ReplaceStep(s[0], ReplaceAll(s[1..], "\r\n", "\n"));
        TwoPasses(s[1..]);
      }
    }
  }

  lemma {:induction false} NormalisedHasNoCr(s: string)
    ensures '\r' !in Normalised(s)
    decreases |s|
  {
    if s != "" {
      if |s| >= 2 && s[0] == '\r' && s[1] == '\n' { NormalisedHasNoCr(s[2..]); } else { NormalisedHasNoCr(s[1..]); }
    }
  }

  function DataLine(line: string): string { "data: " + line + "\n" }

  /** A data field for every line. */
  function DataText(lines: seq<string>): string {
    if lines == [] then "" else DataText(lines[..|lines| - 1]) + DataLine(lines[|lines| - 1])
  }

  function DataBlock(data: string): string { DataText(Split(ToLineFeeds(data), '\n')) + "\n" }

  /** What a call puts on the wire when all goes well. */
  function Wire(c: Call): string {
    match c
    case EventCall(event, data) => "event: " + event + "\n" + DataBlock(data)
    case MessageCall(data) => DataBlock(data)
    case Heartbeat => ": ping\n\n"
  }

  function WireAll(cs: seq<Call>): string {
    if cs == [] then "" else WireAll(cs[..|cs| - 1]) + Wire(cs[|cs| - 1])
  }

  // ----- the code

  /** The response: it takes what it is given until it breaks, somewhere in the middle of a write. */
  class Response {
    var out: string
    var broken: bool
    var writes: nat
    const breaks: nat -> Option<nat>   // at its k-th write the connection breaks, after so many characters

    constructor (plan: nat -> Option<nat>)
      ensures out == "" && !broken && breaks == plan
    {
      out, broken, writes, breaks := "", false, 0, plan;
    }

    method Write(s: string) returns (ok: bool, ghost n: nat)
      modifies this
      ensures n <= |s| && out == old(out) + s[..n] && ok == !broken
      ensures ok ==> n == |s| && !old(broken)
      ensures old(broken) ==> n == 0
    {
      if broken { n := 0; return false, 0; }
      writes := writes + 1;
      var b := breaks(writes - 1);
      match b {
        case None =>
          out := out + s;
          return true, |s|;
        case Some(k) =>
          var taken := if k <= |s| then k else |s|;
          out, broken := out + s[..taken], true;
          return false, taken;
      }
    }
  }

  /** A text that breaks off inside one of its pieces. */
  lemma BrokenOff(before: string, piece: string, after: string, n: nat)
    requires n <= |piece|
    ensures (before + piece + after)[..|before| + n] == before + piece[..n]
  {
  }

  /** The text of some lines goes on with that of the next. */
  lemma {:induction false} DataGoesOn(lines: seq<string>, i: nat) returns (after: string)
    requires i < |lines|
    ensures DataText(lines) == DataText(lines[..i]) + DataLine(lines[i]) + after
    ensures DataText(lines[..i + 1]) == DataText(lines[..i]) + DataLine(lines[i])
  {
    var n := |lines| - 1;
    assert lines[..i + 1][..i] == lines[..i];
    if i == n {
      assert lines[..i + 1] == lines;
      after := "";
    } else {
      var rest := DataGoesOn(lines[..n], i);
      assert lines[..n][..i] == lines[..i];
      after := rest + DataLine(lines[n]);
    }
  }

  lemma DataBreaksOff(lines: seq<string>, i: nat, n: nat)
    requires i < |lines| && n <= |DataLine(lines[i])|
    ensures |DataText(lines[..i])| + n <= |DataText(lines)|
    ensures (DataText(lines) + "\n")[..|DataText(lines[..i])| + n] == DataText(lines[..i]) + DataLine(lines[i])[..n]
    ensures DataText(lines[..i + 1]) == DataText(lines[..i]) + DataLine(lines[i])
  {
    var after := DataGoesOn(lines, i);
    hide DataText;
    var before, piece := DataText(lines[..i]), DataLine(lines[i]);
    BrokenOff(before, piece, after + "\n", n);
    assert DataText(lines) + "\n" == before + piece + (after + "\n");
  }

  lemma DataOfNone(lines: seq<string>)
    ensures DataText(lines[..0]) == ""
  {
  }

  lemma BlockBreaksOff(text: string, n: nat)
    requires n <= 1
    ensures (text + "\n")[..|text| + n] == text + "\n"[..n]
  {
  }

  datatype Outcome = Sent | InvalidEventName | WriteFailed

  /** The call that broke, and how much of it got out. */
  datatype Loss = Loss(call: Call, reached: nat)

  /** The stream holds the successful calls and, after them, a part of the one that failed. */
  predicate Carries(out: string, sent: seq<Call>, lost: Option<Loss>) {
    match lost
    case None => out == WireAll(sent)
    case Some(l) => l.reached <= |Wire(l.call)| && out == WireAll(sent) + Wire(l.call)[..l.reached]
  }

  class SSEWriter {
    const writer: Response
    ghost var sent: seq<Call>
    ghost var lost: Option<Loss>

    ghost predicate Valid()
      reads this, writer
    {
      && Carries(writer.out, sent, lost) && (lost.Some? <==> writer.broken)
      && (forall i :: 0 <= i < |sent| ==> IsLegal(sent[i])) && (lost.Some? ==> IsLegal(lost.value.call))
    }

    constructor (w: Response)
      requires w.out == "" && !w.broken
      ensures Valid() && writer == w && sent == [] && lost == None
    {
      writer, sent, lost := w, [], None;
    }

    /** One data line per line of the data, then an empty line. */
    method WriteDataLines(data: string) returns (ok: bool, ghost n: nat)
      modifies writer
      ensures n <= |DataBlock(data)| && writer.out == old(writer.out) + DataBlock(data)[..n] && ok == !writer.broken
      ensures ok ==> n == |DataBlock(data)| && !old(writer.broken)
      ensures old(writer.broken) ==> n == 0
    {
      hide DataText, DataLine, ToLineFeeds;
      var lines := Split(ToLineFeeds(data), '\n');
      DataOfNone(lines);
      for i := 0 to |lines|
        invariant i > 0 ==> !old(writer.broken)
        invariant writer.broken == old(writer.broken)
        invariant writer.out == old(writer.out) + DataText(lines[..i])
      {
        ok, n := writer.Write(DataLine(lines[i]));
        DataBreaksOff(lines, i, n);
        if !ok {
          n := |DataText(lines[..i])| + n;
          return;
        }
      }
      assert lines[..|lines|] == lines;
      ok, n := writer.Write("\n");
      BlockBreaksOff(DataText(lines), n);
      n := |DataText(lines)| + n;
    }

    /** Books the call: as sent, or as the one that broke; a call on a broken connection changes nothing. */
    ghost method Book(c: Call, ok: bool, n: nat, before: string, wasBroken: bool)
      requires Carries(before, sent, lost) && (lost.Some? <==> wasBroken)
      requires (forall i :: 0 <= i < |sent| ==> IsLegal(sent[i])) && (lost.Some? ==> IsLegal(lost.value.call))
      requires IsLegal(c) && n <= |Wire(c)| && writer.out == before + Wire(c)[..n] && ok == !writer.broken
      requires (ok ==> n == |Wire(c)| && !wasBroken) && (wasBroken ==> n == 0)
      modifies `sent, `lost
      ensures Valid()
      ensures sent == if ok then old(sent) + [c] else old(sent)
      ensures lost == if ok || wasBroken then old(lost) else Some(Loss(c, n))
    {
      if ok {
        assert (sent + [c])[..|sent|] == sent;
        sent := sent + [c];
      } else if !wasBroken {
        lost := Some(Loss(c, n));
      }
    }

    method WriteEvent(event: string, data: string) returns (r: Outcome)
      requires Valid()
      modifies this, writer
      ensures Valid() && (r == InvalidEventName <==> !Plain(event))
      ensures r == InvalidEventName ==> writer.out == old(writer.out) && sent == old(sent) && lost == old(lost)
      ensures r == Sent ==> !old(writer.broken) && sent == old(sent) + [EventCall(event, data)] && lost == None
      ensures r == WriteFailed ==> sent == old(sent) && lost.Some?
      ensures r == WriteFailed && !old(writer.broken) ==> lost.value.call == EventCall(event, data)
      ensures old(lost).Some? ==> lost == old(lost) && writer.out == old(writer.out)
    {
      hide DataBlock, WireAll;
      if '\r' in event || '\n' in event { return InvalidEventName; }
      var head := "event: " + event + "\n";
      var ok, n := writer.Write(head);
      if !ok {
        BrokenOff("", head, DataBlock(data), n);
        assert "" + head + DataBlock(data) == Wire(EventCall(event, data)) && "" + head[..n] == head[..n];
        Book(EventCall(event, data), ok, n, old(writer.out), old(writer.broken));
        return WriteFailed;
      }
      ok, n := WriteDataLines(data);
      BrokenOff(head, DataBlock(data), "", n);
      assert head + DataBlock(data) + "" == Wire(EventCall(event, data));
      Book(EventCall(event, data), ok, |head| + n, old(writer.out), old(writer.broken));
      r := if ok then Sent else WriteFailed;
    }

    method WriteMessage(data: string) returns (r: Outcome)
      requires Valid()
      modifies this, writer
      ensures Valid() && r != InvalidEventName
      ensures r == Sent ==> !old(writer.broken) && sent == old(sent) + [MessageCall(data)] && lost == None
      ensures r == WriteFailed ==> sent == old(sent) && lost.Some?
      ensures r == WriteFailed && !old(writer.broken) ==> lost.value.call == MessageCall(data)
      ensures old(lost).Some? ==> lost == old(lost) && writer.out == old(writer.out)
    {
      hide DataBlock, WireAll;
      var ok, n := WriteDataLines(data);
      Book(MessageCall(data), ok, n, old(writer.out), old(writer.broken));
      r := if ok then Sent else WriteFailed;
    }

    method KeepAlive() returns (r: Outcome)
      requires Valid()
      modifies this, writer
      ensures Valid() && r != InvalidEventName
      ensures r == Sent ==> !old(writer.broken) && sent == old(sent) + [Heartbeat] && lost == None
      ensures r == WriteFailed ==> sent == old(sent) && lost.Some?
      ensures r == WriteFailed && !old(writer.broken) ==> lost.value.call == Heartbeat
      ensures old(lost).Some? ==> lost == old(lost) && writer.out == old(writer.out)
    {
      hide WireAll;
      var ok, n := writer.Write(": ping\n\n");
      Book(Heartbeat, ok, n, old(writer.out), old(writer.broken));
      r := if ok then Sent else WriteFailed;
    }
  }
}
