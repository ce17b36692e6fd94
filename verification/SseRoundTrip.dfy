/** What the writer writes is what the client reads. */
module SseRoundTrip {
  import opened EventStream
  import opened Sse
  import opened Text

  function Then(line: string, tail: string): string { line + "\n" + tail }

  function Unlines(lines: seq<string>): string {
    if lines == [] then "" else Then(lines[0], Unlines(lines[1..]))
  }

  predicate AllPlain(lines: seq<string>) { forall i :: 0 <= i < |lines| ==> Plain(lines[i]) }

  lemma {:induction false} UnlinesAppend(a: seq<string>, b: seq<string>)
    ensures Unlines(a + b) == Unlines(a) + Unlines(b)
  {
    if a == [] {
      assert a + b == b;
    } else {
      assert (a + b)[1..] == a[1..] + b && (a + b)[0] == a[0];
      UnlinesAppend(a[1..], b);
    }
  }

  lemma Associate(a: string, b: string, c: string)
    ensures (a + b) + c == a + (b + c)
  {
  }

  lemma {:induction false} LinesOfUnlines(lines: seq<string>, rest: string)
    requires AllPlain(lines)
    ensures Lines(Unlines(lines) + rest) == lines + Lines(rest)
  {
    hide Lines;
    if lines == [] {
      assert "" + rest == rest && [] + Lines(rest) == Lines(rest);
    } else {
      var tail := Unlines(lines[1..]);
      Associate(lines[0] + "\n", tail, rest);
      FirstLine(lines[0], tail + rest);
      LinesOfUnlines(lines[1..], rest);
      assert lines == [lines[0]] + lines[1..];
      assert lines + Lines(rest) == [lines[0]] + (lines[1..] + Lines(rest));
    }
  }

  /** Of a text that breaks off, whole lines are read, from the first on. */
  lemma {:induction false} LinesOfPart(lines: seq<string>, n: nat) returns (k: nat)
    requires AllPlain(lines) && n <= |Unlines(lines)|
    ensures k <= |lines| && Lines(Unlines(lines)[..n]) == lines[..k]
    ensures k == |lines| <==> n == |Unlines(lines)|
  {
    if lines == [] {
      k := 0;
    } else {
      LengthOfFirst(lines);
      hide Lines, Unlines, Plain;
      if n <= |lines[0]| {
        k := 0;
        PartOfFirst(lines, n);
      } else {
        var m := n - |lines[0]| - 1;
        var l := LinesOfPart(lines[1..], m);
        k := l + 1;
        FirstAndPart(lines, m, l);
      }
    }
  }

  lemma LengthOfFirst(lines: seq<string>)
    requires lines != []
    ensures |Unlines(lines)| == |lines[0]| + 1 + |Unlines(lines[1..])|
  {
  }

  /** Part of a line is no line. */
  lemma PartOfFirst(lines: seq<string>, n: nat)
    requires lines != [] && Plain(lines[0]) && n <= |lines[0]| && n <= |Unlines(lines)|
    ensures Lines(Unlines(lines)[..n]) == [] == lines[..0]
  {
    var part := Unlines(lines)[..n];
    assert forall j :: 0 <= j < n ==> part[j] == lines[0][j] && lines[0][j] in lines[0];
    assert Plain(part);
  }

  lemma FirstAndPart(lines: seq<string>, m: nat, l: nat)
    requires lines != [] && Plain(lines[0]) && m <= |Unlines(lines[1..])| && l < |lines|
    requires Lines(Unlines(lines[1..])[..m]) == lines[1..][..l]
    requires |lines[0]| + 1 + m <= |Unlines(lines)|
    ensures Lines(Unlines(lines)[..|lines[0]| + 1 + m]) == lines[..l + 1]
  {
    hide Lines;
    var tail := Unlines(lines[1..]);
    FirstLine(lines[0], tail[..m]);
    assert Unlines(lines)[..|lines[0]| + 1 + m] == lines[0] + "\n" + tail[..m];
    FirstAnd(lines, l);
  }

  lemma FirstAnd(lines: seq<string>, l: nat)
    requires l < |lines|
    ensures lines[..l + 1] == [lines[0]] + lines[1..][..l]
  {
  }

  function DataFields(lines: seq<string>): seq<string> {
    seq(|lines|, i requires 0 <= i < |lines| => "data: " + lines[i])
  }

  function BlockLines(data: string): seq<string> { DataFields(Split(ToLineFeeds(data), '\n')) + [""] }

  function WireLines(c: Call): seq<string> {
    match c
    case EventCall(event, data) => ["event: " + event] + BlockLines(data)
    case MessageCall(data) => BlockLines(data)
    case Heartbeat => [": ping", ""]
  }

  lemma {:induction false} DataTextIsLines(lines: seq<string>)
    ensures DataText(lines) == Unlines(DataFields(lines))
  {
    if lines != [] {
      var n := |lines| - 1;
      DataTextIsLines(lines[..n]);
      assert DataFields(lines) == DataFields(lines[..n]) + ["data: " + lines[n]];
      UnlinesAppend(DataFields(lines[..n]), ["data: " + lines[n]]);
    }
  }

  lemma BlockIsLines(data: string)
    ensures DataBlock(data) == Unlines(BlockLines(data)) && AllPlain(BlockLines(data))
  {
    var lines := Split(ToLineFeeds(data), '\n');
    DataTextIsLines(lines);
    UnlinesAppend(DataFields(lines), [""]);
    TwoPasses(data);
    NormalisedHasNoCr(data);
    SplitKeeps(ToLineFeeds(data), '\n', '\r');
  }

  lemma {:induction false} SplitKeeps(s: string, c: char, d: char)
    requires d !in s
    ensures forall i :: 0 <= i < |Split(s, c)| ==> d !in Split(s, c)[i]
    decreases |s|
  {
    match Index(s, c)
    case None =>
    case Some(i) =>
      assert d !in s[i + 1..];
      SplitKeeps(s[i + 1..], c, d);
  }

  lemma WireIsLines(c: Call)
    requires IsLegal(c)
    ensures Wire(c) == Unlines(WireLines(c)) && AllPlain(WireLines(c))
  {
    match c
    case EventCall(event, data) =>
      BlockIsLines(data);
      HeadIsLine("event: " + event, BlockLines(data));
    case MessageCall(data) => BlockIsLines(data);
    case Heartbeat =>
      assert WireLines(c)[1..] == [""] && Unlines([""]) == "\n";
  }

  lemma HeadIsLine(head: string, lines: seq<string>)
    requires Plain(head) && AllPlain(lines)
    ensures Unlines([head] + lines) == head + "\n" + Unlines(lines) && AllPlain([head] + lines)
  {
    assert ([head] + lines)[1..] == lines;
  }

  // ----- reading

  /** What the client should see of a call. */
  function Seen(c: Call): seq<Event> {
    match c
    case EventCall(event, data) => [Event(if event == "" then "message" else event, Normalised(data), "")]
    case MessageCall(data) => [Event("message", Normalised(data), "")]
    case Heartbeat => []
  }

  function SeenAll(cs: seq<Call>): seq<Event> {
    if cs == [] then [] else SeenAll(cs[..|cs| - 1]) + Seen(cs[|cs| - 1])
  }

  lemma {:induction false} IndexAt(a: string, c: char, b: string)
    requires c !in a
    ensures Index(a + [c] + b, c) == Some(|a|)
  {
    var s := a + [c] + b;
    if a == [] {
      assert s[0] == c;
    } else {
      assert s[1..] == a[1..] + [c] + b && s[0] == a[0] && a[0] in a;
      IndexAt(a[1..], c, b);
    }
  }

  /** A named field. */
  lemma OneField(r: Reader, name: string, value: string)
    requires name != "" && ':' !in name
    ensures OneLine(r, name + ": " + value) == Field(r, name, value)
  {
    var line := name + ": " + value;
    assert line == name + [':'] + (" " + value);
    IndexAt(name, ':', " " + value);
    assert line[|name| + 1..] == " " + value && (" " + value)[1..] == value && line[..|name|] == name;
  }

  lemma DataField(r: Reader, value: string)
    ensures OneLine(r, "data: " + value) == r.(data := r.data + value + "\n")
  {
    assert "data: " == "data" + ": ";
    OneField(r, "data", value);
    hide OneLine;
  }

  lemma EventField(r: Reader, value: string)
    ensures OneLine(r, "event: " + value) == r.(kind := value)
  {
    assert "event: " == "event" + ": ";
    OneField(r, "event", value);
    hide OneLine;
  }

  lemma ReadOne(r: Reader, line: string)
    ensures Read(r, [line]) == OneLine(r, line)
  {
    assert [line][1..] == [];
  }

  lemma UnlinesSnoc(init: seq<string>, last: string)
    ensures Unlines(init + [last]) == Unlines(init) + (last + "\n")
  {
    UnlinesAppend(init, [last]);
    assert Unlines([last]) == last + "\n";
  }

  lemma {:induction false} ReadData(r: Reader, lines: seq<string>)
    ensures Read(r, DataFields(lines)) == r.(data := r.data + Unlines(lines))
  {
    if lines == [] {
      assert r.data + "" == r.data;
    } else {
      var init, last := lines[..|lines| - 1], lines[|lines| - 1];
      ReadData(r, init);
      assert DataFields(lines) == DataFields(init) + ["data: " + last];
      UnlinesSnoc(init, last);
      assert lines == init + [last];
      hide OneLine, DataFields, Read, Unlines;
      var before := Read(r, DataFields(init));
      ReadAppend(r, DataFields(init), ["data: " + last]);
      ReadOne(before, "data: " + last);
      DataField(before, last);
      Associate(r.data, Unlines(init), last + "\n");
      Associate(r.data + Unlines(init), last, "\n");
    }
  }

  lemma {:induction false} UnlinesIsJoin(lines: seq<string>)
    requires lines != []
    ensures Unlines(lines) == Join(lines, '\n') + "\n"
  {
    if |lines| > 1 {
      UnlinesIsJoin(lines[1..]);
    } else {
      assert Unlines(lines[1..]) == "";
    }
  }

  predicate AtBoundary(r: Reader) { r.data == "" && r.kind == "" && r.id == "" }

  lemma ReadBlock(r: Reader, data: string)
    requires r.data == "" && r.id == ""
    ensures Read(r, BlockLines(data)) == r.(kind := "",
      events := r.events + [Event(if r.kind == "" then "message" else r.kind, Normalised(data), "")])
  {
    var lines := Split(ToLineFeeds(data), '\n');
    ReadData(r, lines);
    ReadAppend(r, DataFields(lines), [""]);
    UnlinesIsJoin(lines);
    JoinSplit(ToLineFeeds(data), '\n');
    TwoPasses(data);
    var text := Normalised(data) + "\n";
    assert r.data + Unlines(lines) == text;
    assert text[|text| - 1] == '\n' && text[..|text| - 1] == Normalised(data);
    assert Chomp(text) == Normalised(data);
  }

  /** A whole call makes the client see its event, and is over. */
  lemma ReadCall(r: Reader, c: Call)
    requires AtBoundary(r)
    ensures Read(r, WireLines(c)) == r.(events := r.events + Seen(c))
  {
    match c
    case EventCall(event, data) => ReadEvent(r, event, data);
    case MessageCall(data) => ReadBlock(r, data);
    case Heartbeat => ReadHeartbeat(r);
  }

  lemma ReadEvent(r: Reader, event: string, data: string)
    requires AtBoundary(r)
    ensures Read(r, WireLines(EventCall(event, data))) == r.(events := r.events + Seen(EventCall(event, data)))
  {
    ReadOne(r, "event: " + event);
    EventField(r, event);
    hide OneLine, BlockLines, Read, Normalised;
    ReadAppend(r, ["event: " + event], BlockLines(data));
    ReadBlock(r.(kind := event), data);
  }

  lemma ReadHeartbeat(r: Reader)
    requires AtBoundary(r)
    ensures Read(r, WireLines(Heartbeat)) == r.(events := r.events + Seen(Heartbeat))
  {
    assert r.events + [] == r.events;
    ReadOne(r, ": ping");
    ReadOne(r, "");
    assert [": ping", ""] == [": ping"] + [""];
    ReadAppend(r, [": ping"], [""]);
  }

  lemma {:induction false} ReadPart(r: Reader, lines: seq<string>)
    requires forall i :: 0 <= i < |lines| ==> lines[i] != ""
    ensures Read(r, lines).events == r.events
    decreases |lines|
  {
    if lines != [] { ReadPart(OneLine(r, lines[0]), lines[1..]); }
  }

  /** Of a call that broke off the client sees all or nothing. */
  lemma ReadBroken(r: Reader, c: Call, k: nat)
    requires AtBoundary(r) && k <= |WireLines(c)|
    ensures Read(r, WireLines(c)[..k]).events == if k < |WireLines(c)| then r.events else r.events + Seen(c)
  {
    if k == |WireLines(c)| {
      assert WireLines(c)[..k] == WireLines(c);
      ReadCall(r, c);
    } else {
      ReadPart(r, WireLines(c)[..k]);
    }
  }

  /** The reader between calls, having seen all of them. */
  function Between(cs: seq<Call>): Reader { START.(events := SeenAll(cs)) }

  lemma {:induction false} ReadAll(cs: seq<Call>, rest: string)
    requires forall i :: 0 <= i < |cs| ==> IsLegal(cs[i])
    ensures Read(START, Lines(WireAll(cs) + rest)) == Read(Between(cs), Lines(rest))
  {
    if cs == [] {
      assert "" + rest == rest;
    } else {
      hide Lines, Read, Wire, WireLines, Seen;
      var init, last := cs[..|cs| - 1], cs[|cs| - 1];
      ReadAll(init, Wire(last) + rest);
      Associate(WireAll(init), Wire(last), rest);
      ReadNext(init, last, rest);
    }
  }

  lemma ReadNext(init: seq<Call>, last: Call, rest: string)
    requires IsLegal(last)
    ensures Read(Between(init), Lines(Wire(last) + rest)) == Read(Between(init + [last]), Lines(rest))
  {
    hide Lines, Read, Wire, WireLines, Seen;
    WireIsLines(last);
    LinesOfUnlines(WireLines(last), rest);
    ReadAppend(Between(init), WireLines(last), Lines(rest));
    ReadCall(Between(init), last);
    assert (init + [last])[..|init|] == init;
  }

  predicate IsWhole(l: Loss) { l.reached == |Wire(l.call)| }

  /** The stream of any calls, read by the standard, is exactly their events, in order: the empty type
      reads as "message", each CR LF, CR and LF of the data as one LF, heartbeats as nothing.  If the
      connection broke in a call, that call's event is there, whole, exactly if all of it got out. */
  lemma ClientSees(out: string, sent: seq<Call>, lost: Option<Loss>)
    requires Carries(out, sent, lost)
    requires (forall i :: 0 <= i < |sent| ==> IsLegal(sent[i])) && (lost.Some? ==> IsLegal(lost.value.call))
    ensures lost.None? ==> Parse(out) == SeenAll(sent)
    ensures lost.Some? ==>
      Parse(out) == SeenAll(sent) + (if IsWhole(lost.value) then Seen(lost.value.call) else [])
  {
    match lost
    case None =>
      assert out == WireAll(sent) + "";
      ReadAll(sent, "");
    case Some(l) =>
      var part := Wire(l.call)[..l.reached];
      ReadAll(sent, part);
      WireIsLines(l.call);
      var k := LinesOfPart(WireLines(l.call), l.reached);
      ReadBroken(Between(sent), l.call, k);
      assert SeenAll(sent) + [] == SeenAll(sent);
  }
}
