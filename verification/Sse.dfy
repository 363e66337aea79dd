/** The incremental Server-Sent-Events parser (`packages/chat/src/sse.ts`): a text buffer is cut at
    the leftmost blank line while chunks keep arriving, and each block becomes an event. */
module Sse {
  import opened Text

  // ---------------------------------------------------------------- framing

  /** The four texts that `\r?\n\r?\n` matches. */
  predicate IsSeparator(t: string) {
    t == "\n\n" || t == "\r\n\n" || t == "\n\r\n" || t == "\r\n\r\n"
  }

  /** Length of the match of `\r?\n\r?\n` that starts at `i`, or 0 when there is none. A `\r` at an
      optional place must be taken, since a line feed has to follow, so there is at most one match. */
  function SeparatorAt(s: string, i: nat): (n: nat)
    requires i <= |s|
    ensures n > 0 ==> 2 <= n <= 4 && i + n <= |s|
  {
    var a := if i < |s| && s[i] == '\r' then i + 1 else i;
    if a < |s| && s[a] == '\n' then
      var b := if a + 1 < |s| && s[a + 1] == '\r' then a + 2 else a + 1;
      if b < |s| && s[b] == '\n' then b + 1 - i else 0
    else 0
  }

  /** The match is exactly one of the four separators. */
  lemma SeparatorAtMeaning(s: string, i: nat, n: nat)
    requires i + n <= |s| && n > 0
    ensures SeparatorAt(s, i) == n <==> IsSeparator(s[i..i + n])
  {
    var t := s[i..i + n];
    assert t[0] == s[i];
    assert n > 1 ==> t[1] == s[i + 1];
    assert n > 2 ==> t[2] == s[i + 2];
    assert n > 3 ==> t[3] == s[i + 3];
    if n == 2 { assert t == [t[0], t[1]]; }
    if n == 3 { assert t == [t[0], t[1], t[2]]; }
    if n == 4 { assert t == [t[0], t[1], t[2], t[3]]; }
  }

  /** `buffer.search(/\r?\n\r?\n/)`, from position `i` on. */
  function SearchFrom(s: string, i: nat): (b: int)
    requires i <= |s|
    ensures b == -1 || (i <= b < |s| && SeparatorAt(s, b) > 0)
    decreases |s| - i
  {
    if SeparatorAt(s, i) > 0 then i
    else if i == |s| then -1
    else SearchFrom(s, i + 1)
  }

  function Search(s: string): (b: int)
    ensures b == -1 || (0 <= b < |s| && SeparatorAt(s, b) > 0)
  {
    SearchFrom(s, 0)
  }

  predicate NoBoundary(s: string, lo: nat, hi: nat)
    requires hi <= |s| + 1
  {
    forall j :: lo <= j < hi ==> SeparatorAt(s, j) == 0
  }

  /** The search finds the leftmost boundary, and nothing else. */
  lemma {:induction false} SearchFromIs(s: string, i: nat, b: int)
    requires i <= |s|
    requires b == -1 || i <= b < |s|
    ensures SearchFrom(s, i) == b <==>
            if b == -1 then NoBoundary(s, i, |s| + 1) else SeparatorAt(s, b) > 0 && NoBoundary(s, i, b)
    decreases |s| - i
  {
    if SeparatorAt(s, i) == 0 && i < |s| {
      if b == i {
        assert SearchFrom(s, i) == SearchFrom(s, i + 1);
      } else {
        SearchFromIs(s, i + 1, b);
      }
    }
  }

  lemma SearchIs(s: string, b: int)
    requires b == -1 || 0 <= b < |s|
    ensures Search(s) == b <==>
            if b == -1 then NoBoundary(s, 0, |s| + 1) else SeparatorAt(s, b) > 0 && NoBoundary(s, 0, b)
  {
    SearchFromIs(s, 0, b);
  }

  /** The blocks of a text that are complete, and the tail that waits for more input. */
  datatype Framed = Framed(blocks: seq<string>, rest: string)

  /** Parsing a whole text in one go: cut at the leftmost boundary until none is left. */
  function Frames(s: string): Framed
    decreases |s|
  {
    var b := Search(s);
    if b == -1 then Framed([], s)
    else
      var later := Frames(s[b + SeparatorAt(s, b)..]);
      Framed([s[..b]] + later.blocks, later.rest)
  }

  /** A leftmost boundary of a prefix is the leftmost boundary of every extension, with the same
      separator: text that arrives later can neither move it nor lengthen it. */
  lemma BoundaryIsStable(s: string, more: string)
    requires Search(s) != -1
    ensures Search(s + more) == Search(s)
    ensures SeparatorAt(s + more, Search(s)) == SeparatorAt(s, Search(s))
  {
    var t := s + more;
    var b := Search(s);
    SearchIs(s, b);
    assert forall k :: 0 <= k < |s| ==> t[k] == s[k];
    forall j | 0 <= j < b
      ensures SeparatorAt(t, j) == 0
    {
      // Only a four-character match one place to the left of `b` could reach beyond `s`, and its
      // second and third characters differ.
      assert SeparatorAt(s, j) == 0;
    }
    SearchIs(t, b);
  }

  lemma FramesStep(s: string)
    ensures var b := Search(s);
            Frames(s) == if b == -1 then Framed([], s)
                         else var later := Frames(s[b + SeparatorAt(s, b)..]);
                              Framed([s[..b]] + later.blocks, later.rest)
  {}

  /** Framing commutes with the arrival of more text. */
  lemma {:induction false} FramesExtend(s: string, more: string)
    ensures var f := Frames(s); var g := Frames(f.rest + more);
            Frames(s + more) == Framed(f.blocks + g.blocks, g.rest)
    decreases |s|
  {
    hide SeparatorAt, Search, Frames;
    var b := Search(s);
    FramesStep(s);
    FramesStep(s + more);
    if b != -1 {
      BoundaryIsStable(s, more);
      var cut := b + SeparatorAt(s, b);
      assert (s + more)[cut..] == s[cut..] + more;
      assert (s + more)[..b] == s[..b];
      FramesExtend(s[cut..], more);
      var f := Frames(s[cut..]);
      var g := Frames(f.rest + more);
      assert [s[..b]] + (f.blocks + g.blocks) == ([s[..b]] + f.blocks) + g.blocks;
    }
  }

  lemma {:induction false} RestHasNoBoundary(s: string)
    ensures Search(Frames(s).rest) == -1
    decreases |s|
  {
    hide SeparatorAt, Search;
    var b := Search(s);
    if b != -1 {
      RestHasNoBoundary(s[b + SeparatorAt(s, b)..]);
    }
  }

  /** One `read()` of the stream: append the chunk, then cut off every complete block. */
  function Feed(f: Framed, chunk: string): Framed {
    var g := Frames(f.rest + chunk);
    Framed(f.blocks + g.blocks, g.rest)
  }

  function FeedAll(chunks: seq<string>): Framed {
    if chunks == [] then Framed([], "")
    else Feed(FeedAll(chunks[..|chunks| - 1]), chunks[|chunks| - 1])
  }

  /** Every way of cutting a text into chunks gives the blocks of the whole text, and between two
      chunks the buffer never holds a boundary. */
  lemma {:induction false} ChunkingIsIrrelevant(chunks: seq<string>)
    ensures FeedAll(chunks) == Frames(Flatten(chunks))
    ensures Search(FeedAll(chunks).rest) == -1
  {
    hide SeparatorAt, Search;
    if chunks == [] {
      SearchIs("", -1);
    } else {
      var n := |chunks| - 1;
      ChunkingIsIrrelevant(chunks[..n]);
      FlattenAppend(chunks[..n], chunks[n]);
      assert chunks[..n] + [chunks[n]] == chunks;
      FramesExtend(Flatten(chunks[..n]), chunks[n]);
      RestHasNoBoundary(Flatten(chunks));
    }
  }

  /** A declarative reading of framing: the text is the blocks, each followed by a separator, and a
      tail; no boundary starts inside a block or anywhere in the tail. */
  ghost predicate IsFraming(s: string, blocks: seq<string>, separators: seq<string>, rest: string)
    requires |separators| == |blocks|
    decreases |blocks|
  {
    if blocks == [] then s == rest && NoBoundary(s, 0, |s| + 1)
    else
      var cut := |blocks[0]| + |separators[0]|;
      && cut <= |s|
      && s[..cut] == blocks[0] + separators[0]
      && IsSeparator(separators[0])
      && NoBoundary(s, 0, |blocks[0]|)
      && IsFraming(s[cut..], blocks[1..], separators[1..], rest)
  }

  /** `Frames` finds a framing, and it is the only one. */
  lemma {:induction false} FramingExists(s: string) returns (separators: seq<string>)
    ensures |separators| == |Frames(s).blocks|
    ensures IsFraming(s, Frames(s).blocks, separators, Frames(s).rest)
    decreases |s|
  {
    hide SeparatorAt, Search, Frames, NoBoundary;
    var b := Search(s);
    FramesStep(s);
    SearchIs(s, b);
    if b == -1 {
      separators := [];
    } else {
      var n := SeparatorAt(s, b);
      SeparatorAtMeaning(s, b, n);
      var later := FramingExists(s[b + n..]);
      separators := [s[b..b + n]] + later;
      assert s[..b + n] == s[..b] + s[b..b + n];
      assert Frames(s).blocks[1..] == Frames(s[b + n..]).blocks;
      assert separators[1..] == later;
    }
  }

  lemma {:induction false} FramingIsUnique(s: string, blocks: seq<string>, separators: seq<string>, rest: string)
    requires |separators| == |blocks| && IsFraming(s, blocks, separators, rest)
    ensures Frames(s) == Framed(blocks, rest)
    decreases |blocks|
  {
    hide SeparatorAt, Search, NoBoundary;
    if blocks == [] {
      SearchIs(s, -1);
    } else {
      var b, n := |blocks[0]|, |separators[0]|;
      assert s[b..b + n] == s[..b + n][b..] == separators[0];
      SeparatorAtMeaning(s, b, n);
      SearchIs(s, b);
      assert s[..b] == s[..b + n][..b] == blocks[0];
      FramingIsUnique(s[b + n..], blocks[1..], separators[1..], rest);
    }
  }

  // ---------------------------------------------------------------- events

  /** A block of decoded fields. The payload is JSON when it parses and the joined text otherwise. */
  datatype Payload<J> = Parsed(json: J) | Raw(text: string)
  datatype Event<J> = Event(event: string, data: Payload<J>, id: Option<string>)

  function DropReturn(line: string): string {
    if line != "" && line[|line| - 1] == '\r' then line[..|line| - 1] else line
  }

  /** `raw.split(/\r?\n/)`: a line ends at a line feed, together with one carriage return before it. */
  function SplitLines(s: string): (lines: seq<string>)
    ensures |lines| >= 1
  {
    var i := IndexOf(s, '\n');
    if i == |s| then [s] else [DropReturn(s[..i])] + SplitLines(s[i + 1..])
  }

  /** The trimmed value of the last line that carries `field`. */
  function LastField(lines: seq<string>, field: string): Option<string> {
    if lines == [] then None
    else
      var n := |lines| - 1;
      if StartsWith(lines[n], field) then Some(Trim(lines[n][|field|..]))
      else LastField(lines[..n], field)
  }

  function DataLines(lines: seq<string>): seq<string> {
    if lines == [] then []
    else
      var n := |lines| - 1;
      DataLines(lines[..n]) +
      if StartsWith(lines[n], "data:") then [TrimStart(lines[n][5..])] else []
  }

  function OrElse(o: Option<string>, default: string): string {
    match o case Some(v) => v case None => default
  }

  function Decode<J>(text: string, json: string -> Option<J>): Payload<J> {
    if text == "" then Raw(text)
    else match json(text) case Some(j) => Parsed(j) case None => Raw(text)
  }

  /** What a block means: the last `event:` and `id:` fields and all `data:` fields, in order. An
      empty id is dropped; a blank block means nothing. */
  function EventOf<J>(raw: string, json: string -> Option<J>): Option<Event<J>> {
    if Trim(raw) == "" then None
    else
      var lines := SplitLines(raw);
      var id := LastField(lines, "id:");
      Some(Event(OrElse(LastField(lines, "event:"), "message"),
                 Decode(Join(DataLines(lines), "\n"), json),
                 if id == Some("") then None else id))
  }

  function EventsOf<J>(blocks: seq<string>, json: string -> Option<J>): seq<Event<J>> {
    if blocks == [] then []
    else
      var n := |blocks| - 1;
      EventsOf(blocks[..n], json) +
      match EventOf(blocks[n], json) case Some(e) => [e] case None => []
  }

  lemma {:induction false} EventsOfConcat<J>(xs: seq<string>, ys: seq<string>, json: string -> Option<J>)
    ensures EventsOf(xs + ys, json) == EventsOf(xs, json) + EventsOf(ys, json)
  {
    if ys == [] {
      assert xs + ys == xs;
    } else {
      var n := |ys| - 1;
      assert (xs + ys)[..|xs + ys| - 1] == xs + ys[..n];
      EventsOfConcat(xs, ys[..n], json);
    }
  }

  // ---------------------------------------------------------------- what an event is

  /** The payload for a data text: the parsed value where the text is not empty and parses, and the text
      itself in every other case. */
  predicate IsData<J(==)>(d: Payload<J>, text: string, json: string -> Option<J>) {
    match d
    case Parsed(j) => text != "" && json(text) == Some(j)
    case Raw(t) => t == text && (text == "" || json(text) == None)
  }

  /** Line `k` is the last one with this field. */
  predicate IsLast(lines: seq<string>, field: string, k: nat) {
    && k < |lines| && StartsWith(lines[k], field)
    && forall j :: k < j < |lines| ==> !StartsWith(lines[j], field)
  }

  predicate Lacks(lines: seq<string>, field: string) {
    forall j :: 0 <= j < |lines| ==> !StartsWith(lines[j], field)
  }

  function IsDataLine(lines: seq<string>): nat -> bool {
    (k: nat) => k < |lines| && StartsWith(lines[k], "data:")
  }

  /** `data` are the contents of all data lines, in order, without their leading blanks. */
  ghost predicate AreData(data: seq<string>, lines: seq<string>) {
    exists idx: seq<nat> :: Picks(idx, |lines|, IsDataLine(lines)) && AreDataAt(data, lines, idx)
  }

  predicate AreDataAt(data: seq<string>, lines: seq<string>, idx: seq<nat>) {
    && |data| == |idx|
    && forall j :: 0 <= j < |idx| ==>
         idx[j] < |lines| && |lines[idx[j]]| >= 5 && data[j] == TrimStart(lines[idx[j]][5..])
  }

  /** The event of a block, line by line: the last `event:` and `id:` lines count, an empty id is none, and
      the contents of all data lines are joined by line feeds. */
  ghost predicate IsEvent<J>(e: Event<J>, lines: seq<string>, json: string -> Option<J>) {
    && (forall k: nat :: IsLast(lines, "event:", k) ==> e.event == Trim(lines[k][6..]))
    && (Lacks(lines, "event:") ==> e.event == "message")
    && (forall k: nat :: IsLast(lines, "id:", k) ==>
          var id := Trim(lines[k][3..]); e.id == if id == "" then None else Some(id))
    && (Lacks(lines, "id:") ==> e.id == None)
    && (forall data :: AreData(data, lines) ==> IsData(e.data, Join(data, "\n"), json))
    && exists data :: AreData(data, lines)
  }

  lemma {:induction false} LastFieldIs(lines: seq<string>, field: string)
    ensures forall k: nat :: IsLast(lines, field, k) ==> LastField(lines, field) == Some(Trim(lines[k][|field|..]))
    ensures Lacks(lines, field) ==> LastField(lines, field) == None
  {
    hide Trim;
    if lines != [] {
      var n := |lines| - 1;
      LastFieldIs(lines[..n], field);
      forall k: nat | IsLast(lines, field, k)
        ensures LastField(lines, field) == Some(Trim(lines[k][|field|..]))
      {
        if k < n { assert IsLast(lines[..n], field, k); }
      }
    }
  }

  lemma {:induction false} DataLinesAre(lines: seq<string>) returns (idx: seq<nat>)
    ensures Picks(idx, |lines|, IsDataLine(lines)) && AreDataAt(DataLines(lines), lines, idx)
  {
    hide TrimStart, Picks, AreDataAt;
    if lines == [] {
      idx := [];
      PicksNone(IsDataLine(lines));
      assert AreDataAt([], lines, []) by { NoDataAt(lines); }
    } else {
      var n := |lines| - 1;
      idx := DataLinesAre(lines[..n]);
      PicksMore(idx, n, IsDataLine(lines[..n]), IsDataLine(lines));
      var data := DataLines(lines[..n]);
      MoreDataAt(data, lines, idx);
      assert data + [] == data;
      idx := if IsDataLine(lines)(n) then idx + [n] else idx;
    }
  }

  lemma NoDataAt(lines: seq<string>)
    ensures AreDataAt([], lines, [])
  {}

  lemma MoreDataAt(data: seq<string>, lines: seq<string>, idx: seq<nat>)
    requires lines != [] && AreDataAt(data, lines[..|lines| - 1], idx)
    ensures AreDataAt(data, lines, idx)
    ensures var n := |lines| - 1;
            StartsWith(lines[n], "data:") ==> AreDataAt(data + [TrimStart(lines[n][5..])], lines, idx + [n])
  {
    hide TrimStart;
  }

  lemma {:induction false} DataIsUnique(lines: seq<string>, data: seq<string>)
    requires AreData(data, lines)
    ensures data == DataLines(lines)
  {
    var idx: seq<nat> :| Picks(idx, |lines|, IsDataLine(lines)) && AreDataAt(data, lines, idx);
    var jdx := DataLinesAre(lines);
    PicksAreUnique(idx, jdx, |lines|, IsDataLine(lines));
  }

  /** The parser's reading of a block is that event. */
  lemma EventMeaning<J>(raw: string, json: string -> Option<J>)
    ensures EventOf(raw, json).None? <==> AllSpace(raw)
    ensures EventOf(raw, json).Some? ==> IsEvent(EventOf(raw, json).value, SplitLines(raw), json)
  {
    hide Trim, TrimStart, SplitLines, AreData, IsLast, Lacks, LastField, DataLines, AllSpace, Join;
    TrimOfBlank(raw);
    var lines := SplitLines(raw);
    LastFieldIs(lines, "event:");
    LastFieldIs(lines, "id:");
    SomeData(lines);
    forall data | AreData(data, lines) ensures data == DataLines(lines) { DataIsUnique(lines, data); }
  }

  lemma SomeData(lines: seq<string>)
    ensures AreData(DataLines(lines), lines)
  {
    var idx := DataLinesAre(lines);
  }

  // ---------------------------------------------------------------- the two loops of the source

  method ParseSseEvent<J>(raw: string, json: string -> Option<J>) returns (result: Option<Event<J>>)
    ensures result == EventOf(raw, json)
    ensures result.None? <==> AllSpace(raw)
    ensures result.Some? ==> IsEvent(result.value, SplitLines(raw), json)
  {
    EventMeaning(raw, json);
    hide Trim, TrimStart, SplitLines, IsEvent, AllSpace;
    if Trim(raw) == "" { return None; }
    var event, id, dataLines := "message", None, [];
    var lines := SplitLines(raw);
    for k := 0 to |lines|
      invariant event == OrElse(LastField(lines[..k], "event:"), "message")
      invariant id == LastField(lines[..k], "id:")
      invariant dataLines == DataLines(lines[..k])
    {
      var line := lines[k];
      assert lines[..k + 1][..k] == lines[..k] && lines[..k + 1][k] == line;
      assert StartsWith(line, ":") ==> line[0] == ':';
      assert StartsWith(line, "event:") ==> line[0] == 'e';
      assert StartsWith(line, "id:") ==> line[0] == 'i';
      assert StartsWith(line, "data:") ==> line[0] == 'd';
      if StartsWith(line, ":") { continue; }
      if StartsWith(line, "event:") { event := Trim(line[6..]); }
      if StartsWith(line, "id:") { id := Some(Trim(line[3..])); }
      if StartsWith(line, "data:") { dataLines := dataLines + [TrimStart(line[5..])]; }
    }
    assert lines[..|lines|] == lines;
    var text := Join(dataLines, "\n");
    var data := Raw(text);
    if text != "" {
      match json(text)
      case Some(j) => data := Parsed(j);
      case None =>
    }
    result := Some(Event(event, data, if id == Some("") then None else id));
  }

  /** The inner loop: every complete block of the buffer becomes an event. */
  method CutBlocks<J>(text: string, json: string -> Option<J>) returns (buffer: string, events: seq<Event<J>>)
    ensures events == EventsOf(Frames(text).blocks, json) && buffer == Frames(text).rest
  {
    hide SeparatorAt, Search, EventOf, Frames;
    buffer, events := text, [];
    ghost var done: seq<string> := [];
    assert done + Frames(text).blocks == Frames(text).blocks;
    var boundary := Search(buffer);
    while boundary != -1
      invariant boundary == Search(buffer)
      invariant Frames(text) == Framed(done + Frames(buffer).blocks, Frames(buffer).rest)
      invariant events == EventsOf(done, json)
      decreases |buffer|
    {
      var raw := buffer[..boundary];
      FramesStep(buffer);
      ghost var unread := Frames(buffer);
      buffer := buffer[boundary + SeparatorAt(buffer, boundary)..];
      assert done + unread.blocks == done + [raw] + Frames(buffer).blocks;
      assert (done + [raw])[..|done|] == done;
      done := done + [raw];
      var event := ParseSseEvent(raw, json);
      if event.Some? { events := events + [event.value]; }
      boundary := Search(buffer);
    }
    FramesStep(buffer);
    assert done + [] == done;
  }

  /** `parseSseStream`: whatever the chunks are, the events are those of the whole text. */
  method ParseSseStream<J>(chunks: seq<string>, json: string -> Option<J>) returns (events: seq<Event<J>>)
    ensures events == EventsOf(Frames(Flatten(chunks)).blocks, json)
  {
    hide EventsOf, Flatten, Frames;
    var buffer := "";
    events := [];
    NoEvents(json);
    for k := 0 to |chunks|
      invariant events == EventsOf(FeedAll(chunks[..k]).blocks, json)
      invariant buffer == FeedAll(chunks[..k]).rest
    {
      ghost var before := FeedAll(chunks[..k]);
      assert chunks[..k + 1][..k] == chunks[..k];
      ghost var text := buffer + chunks[k];
      buffer := buffer + chunks[k];
      var found;
      buffer, found := CutBlocks(buffer, json);
      EventsOfConcat(before.blocks, Frames(text).blocks, json);
      events := events + found;
    }
    assert chunks[..|chunks|] == chunks;
    ChunkingIsIrrelevant(chunks);
  }

  lemma NoEvents<J>(json: string -> Option<J>)
    ensures EventsOf([], json) == []
  {}

  // ---------------------------------------------------------------- round trip

  /** An event as a server writes it. */
  datatype Wire = Wire(event: string, id: Option<string>, data: seq<string>)

  predicate OneLine(s: string) {
    '\n' !in s && (s != "" ==> s[|s| - 1] != '\r')
  }

  predicate NoIndent(s: string) {
    s != "" ==> !IsSpace(s[0])
  }

  /** Every field fits on a line. */
  predicate Sendable(w: Wire) {
    && OneLine(w.event) && (w.id.Some? ==> OneLine(w.id.value))
    && forall k :: 0 <= k < |w.data| ==> OneLine(w.data[k])
  }

  function TrimStarts(data: seq<string>): (r: seq<string>)
    ensures |r| == |data| && forall k :: 0 <= k < |data| ==> r[k] == TrimStart(data[k])
  {
    if data == [] then [] else TrimStarts(data[..|data| - 1]) + [TrimStart(data[|data| - 1])]
  }

  /** What arrives of an event: the name and the id are trimmed, an empty id is none, and every data
      line loses its leading blanks. */
  function Received(w: Wire): Wire {
    Wire(Trim(w.event), if w.id.Some? && Trim(w.id.value) != "" then Some(Trim(w.id.value)) else None,
         TrimStarts(w.data))
  }

  function AllReceived(ws: seq<Wire>): seq<Wire> {
    if ws == [] then [] else [Received(ws[0])] + AllReceived(ws[1..])
  }

  /** No field has blanks that the reader drops. */
  predicate Exact(w: Wire) {
    && Trimmed(w.event)
    && (w.id.Some? ==> w.id.value != "" && Trimmed(w.id.value))
    && forall k :: 0 <= k < |w.data| ==> NoIndent(w.data[k])
  }

  function DataFields(data: seq<string>): (r: seq<string>)
    ensures |r| == |data| && forall k :: 0 <= k < |data| ==> r[k] == "data: " + data[k]
  {
    if data == [] then [] else DataFields(data[..|data| - 1]) + ["data: " + data[|data| - 1]]
  }

  function WireLines(w: Wire): seq<string> {
    ["event: " + w.event] + (if w.id.Some? then ["id: " + w.id.value] else []) + DataFields(w.data)
  }

  /** The stream text of a list of events, with either line ending. */
  function Encode(ws: seq<Wire>, nl: string): string {
    if ws == [] then "" else Join(WireLines(ws[0]), nl) + nl + nl + Encode(ws[1..], nl)
  }

  function Meaning<J>(w: Wire, json: string -> Option<J>): Event<J> {
    Event(w.event, Decode(Join(w.data, "\n"), json), w.id)
  }

  function Meanings<J>(ws: seq<Wire>, json: string -> Option<J>): seq<Event<J>> {
    if ws == [] then [] else [Meaning(ws[0], json)] + Meanings(ws[1..], json)
  }

  /** An event that carries name, id and data of a wire event. */
  predicate Delivers<J(==)>(e: Event<J>, w: Wire, json: string -> Option<J>) {
    e.event == w.event && e.id == w.id && IsData(e.data, Join(w.data, "\n"), json)
  }

  ghost predicate AllDelivered<J>(es: seq<Event<J>>, ws: seq<Wire>, json: string -> Option<J>) {
    |es| == |ws| && forall k :: 0 <= k < |ws| ==> Delivers(es[k], ws[k], json)
  }

  lemma {:induction false} DeliveredIsMeant<J>(es: seq<Event<J>>, ws: seq<Wire>, json: string -> Option<J>)
    ensures AllDelivered(es, ws, json) <==> es == Meanings(ws, json)
  {
    hide Join;
    if ws != [] && es != [] {
      DeliveredIsMeant(es[1..], ws[1..], json);
      assert es == [es[0]] + es[1..] && ws == [ws[0]] + ws[1..];
      assert Delivers(es[0], ws[0], json) <==> es[0] == Meaning(ws[0], json);
      var meant := Meanings(ws, json);
      assert meant[0] == Meaning(ws[0], json) && meant[1..] == Meanings(ws[1..], json);
      assert AllDelivered(es, ws, json) <==> Delivers(es[0], ws[0], json) && AllDelivered(es[1..], ws[1..], json) by {
        if AllDelivered(es, ws, json) { assert Delivers(es[0], ws[0], json); }
      }
      assert es == meant <==> es[0] == meant[0] && es[1..] == meant[1..];
    }
  }

  predicate IsNewline(nl: string) {
    nl == "\n" || nl == "\r\n"
  }

  /** A line that can stand anywhere in a block. */
  predicate FieldLine(line: string) {
    line != "" && OneLine(line) && line[0] != '\r'
  }

  predicate FieldLines(lines: seq<string>) {
    forall k :: 0 <= k < |lines| ==> FieldLine(lines[k])
  }

  lemma WireLinesAreFields(w: Wire)
    requires Sendable(w)
    ensures FieldLines(WireLines(w))
  {}

  lemma DropReturnIs(line: string)
    requires OneLine(line)
    ensures DropReturn(line) == line && DropReturn(line + ['\r']) == line
  {}

  lemma SplitHead(line: string, nl: string, rest: string)
    requires OneLine(line) && IsNewline(nl)
    ensures SplitLines(line + nl + rest) == [line] + SplitLines(rest)
  {
    var s := line + nl + rest;
    var i := |line| + |nl| - 1;
    var head := if nl == "\n" then line else line + ['\r'];
    DropReturnIs(line);
    assert s == head + ['\n'] + rest;
    assert s[..i] == head && s[i] == '\n' && s[i + 1..] == rest;
    assert '\n' !in head;
    IndexOfIs(s, '\n', i);
  }

  lemma {:induction false} SplitOfJoin(lines: seq<string>, nl: string)
    requires lines != [] && FieldLines(lines) && IsNewline(nl)
    ensures SplitLines(Join(lines, nl)) == lines
  {
    hide SplitLines, OneLine;
    assert FieldLine(lines[0]);
    if |lines| == 1 {
      SplitOneLine(lines[0]);
    } else {
      SplitHead(lines[0], nl, Join(lines[1..], nl));
      SplitOfJoin(lines[1..], nl);
    }
  }

  lemma SplitOneLine(line: string)
    requires OneLine(line)
    ensures SplitLines(line) == [line]
  {}

  lemma LineHasNoBoundary(line: string, tail: string)
    requires OneLine(line)
    ensures NoBoundary(line + tail, 0, |line|)
  {}

  lemma NewlineHasNoBoundary(line: string, nl: string, tail: string)
    requires IsNewline(nl) && tail != "" && tail[0] != '\n' && tail[0] != '\r'
    ensures NoBoundary(line + nl + tail, |line|, |line + nl|)
  {}

  /** No boundary starts inside a block of field lines, whatever follows it. */
  lemma {:induction false} NoBoundaryInBlock(lines: seq<string>, nl: string, tail: string)
    requires lines != [] && FieldLines(lines) && IsNewline(nl)
    ensures var s := Join(lines, nl) + nl + nl + tail; NoBoundary(s, 0, |Join(lines, nl)|)
  {
    hide SeparatorAt, IsNewline, OneLine;
    var line := lines[0];
    assert FieldLine(line);
    var block := Join(lines, nl);
    var s := block + nl + nl + tail;
    if |lines| == 1 {
      LineHasNoBoundary(line, nl + nl + tail);
      assert s == line + (nl + nl + tail);
    } else {
      var rest := Join(lines[1..], nl);
      var t := rest + nl + nl + tail;
      NoBoundaryInBlock(lines[1..], nl, tail);
      assert FieldLine(lines[1]);
      assert t[0] == rest[0] == lines[1][0] && lines[1][0] in lines[1];
      assert s == line + nl + t && s == line + (nl + t);
      LineHasNoBoundary(line, nl + t);
      assert t[0] != '\n' && t[0] != '\r' by { FieldLineStart(lines[1]); }
      NewlineHasNoBoundary(line, nl, t);
      var d := |line + nl|;
      forall j | d <= j < |block|
        ensures SeparatorAt(s, j) == 0
      {
        SeparatorShift(line + nl, t, j - d);
      }
    }
  }

  lemma FieldLineStart(line: string)
    requires FieldLine(line)
    ensures line[0] != '\n' && line[0] != '\r'
  {}

  lemma SeparatorShift(pre: string, s: string, j: nat)
    requires j <= |s|
    ensures SeparatorAt(pre + s, |pre| + j) == SeparatorAt(s, j)
  {}

  lemma FrameOfBlock(block: string, nl: string, tail: string)
    requires IsNewline(nl)
    requires NoBoundary(block + nl + nl + tail, 0, |block|) && block != ""
    ensures Frames(block + nl + nl + tail) == Framed([block] + Frames(tail).blocks, Frames(tail).rest)
  {
    hide SeparatorAt, Search, NoBoundary;
    var s := block + nl + nl + tail;
    var b, n := |block|, 2 * |nl|;
    assert s[b..b + n] == nl + nl;
    SeparatorAtMeaning(s, b, n);
    SearchIs(s, b);
    assert s[..b] == block && s[b + n..] == tail;
  }

  function WireBlocks(ws: seq<Wire>, nl: string): seq<string> {
    if ws == [] then [] else [Join(WireLines(ws[0]), nl)] + WireBlocks(ws[1..], nl)
  }

  lemma {:induction false} FramesOfEncode(ws: seq<Wire>, nl: string)
    requires IsNewline(nl) && forall k :: 0 <= k < |ws| ==> Sendable(ws[k])
    ensures Frames(Encode(ws, nl)) == Framed(WireBlocks(ws, nl), "")
  {
    hide SeparatorAt, Search, Sendable, FieldLine;
    if ws == [] {
      SearchIs("", -1);
    } else {
      var lines := WireLines(ws[0]);
      WireLinesAreFields(ws[0]);
      NoBoundaryInBlock(lines, nl, Encode(ws[1..], nl));
      FramesOfEncode(ws[1..], nl);
      FrameOfBlock(Join(lines, nl), nl, Encode(ws[1..], nl));
    }
  }

  lemma BlankIsDropped(s: string)
    ensures TrimStart(" " + s) == TrimStart(s) && Trim(" " + s) == Trim(s)
  {
    assert (" " + s)[1..] == s;
  }

  lemma DataFieldIs(value: string)
    ensures var line := "data: " + value;
            && StartsWith(line, "data:") && TrimStart(line[5..]) == TrimStart(value)
            && !StartsWith(line, "event:") && !StartsWith(line, "id:")
  {
    hide IsSpace, TrimStart;
    var line := "data: " + value;
    assert line[0] == 'd' && line[5..] == " " + value;
    assert line[..5] == "data:";
    BlankIsDropped(value);
  }

  lemma {:induction false} FieldsOfData(pre: seq<string>, data: seq<string>, field: string)
    requires field == "event:" || field == "id:"
    ensures LastField(pre + DataFields(data), field) == LastField(pre, field)
    ensures DataLines(pre + DataFields(data)) == DataLines(pre) + TrimStarts(data)
  {
    hide IsSpace, TrimStart, Trim, StartsWith;
    if data == [] {
      assert pre + DataFields(data) == pre;
    } else {
      var n := |data| - 1;
      var all := pre + DataFields(data);
      FieldsOfData(pre, data[..n], field);
      assert all[..|all| - 1] == pre + DataFields(data[..n]);
      var last := all[|all| - 1];
      assert last == "data: " + data[n];
      DataFieldIs(data[n]);
      assert data == data[..n] + [data[n]];
    }
  }

  lemma EventOfWire<J>(w: Wire, nl: string, json: string -> Option<J>)
    requires Sendable(w) && IsNewline(nl)
    ensures EventOf(Join(WireLines(w), nl), json) == Some(Meaning(Received(w), json))
  {
    hide IsSpace, Trim, TrimStart, SplitLines, FieldLine, LastField, DataLines, IsNewline, OneLine, Join;
    var lines := WireLines(w);
    WireLinesAreFields(w);
    SplitOfJoin(lines, nl);
    BlockIsNotBlank(w, nl);
    var pre := ["event: " + w.event] + if w.id.Some? then ["id: " + w.id.value] else [];
    FieldsOfData(pre, w.data, "event:");
    FieldsOfData(pre, w.data, "id:");
    HeaderFields(w, pre);
    assert DataLines(lines) == TrimStarts(w.data);
  }

  lemma BlockIsNotBlank(w: Wire, nl: string)
    ensures Trim(Join(WireLines(w), nl)) != ""
  {
    hide Trim;
    var raw := Join(WireLines(w), nl);
    assert WireLines(w)[0][0] == 'e';
    assert raw[0] == 'e';
    assert !AllSpace(raw);
    TrimOfBlank(raw);
  }

  lemma HeaderFields(w: Wire, pre: seq<string>)
    requires pre == ["event: " + w.event] + if w.id.Some? then ["id: " + w.id.value] else []
    ensures LastField(pre, "event:") == Some(Trim(w.event)) && DataLines(pre) == []
    ensures LastField(pre, "id:") == if w.id.Some? then Some(Trim(w.id.value)) else None
  {
    hide IsSpace, Trim, TrimStart, OneLine;
    var e := "event: " + w.event;
    assert e[0] == 'e' && e[6..] == " " + w.event;
    BlankIsDropped(w.event);
    assert LastField([e], "event:") == Some(Trim(w.event));
    assert LastField([e], "id:") == LastField([e][..0], "id:") == None;
    assert DataLines([e]) == DataLines([e][..0]) == [];
    if w.id.Some? {
      var i := "id: " + w.id.value;
      assert i[0] == 'i' && i[3..] == " " + w.id.value;
      BlankIsDropped(w.id.value);
      assert pre[..1] == [e] && pre[1] == i;
    } else {
      assert pre == [e];
    }
  }

  lemma {:induction false} EventsOfWires<J>(ws: seq<Wire>, nl: string, json: string -> Option<J>)
    requires IsNewline(nl) && forall k :: 0 <= k < |ws| ==> Sendable(ws[k])
    ensures EventsOf(WireBlocks(ws, nl), json) == Meanings(AllReceived(ws), json)
  {
    hide EventOf, Sendable;
    if ws != [] {
      var block := Join(WireLines(ws[0]), nl);
      EventOfWire(ws[0], nl, json);
      EventsOfWires(ws[1..], nl, json);
      EventsOfConcat([block], WireBlocks(ws[1..], nl), json);
      assert [block][..0] == [] && EventsOf([block], json) == [Meaning(Received(ws[0]), json)];
    }
  }

  /** A comment line, anywhere in a block, has no effect on its fields. */
  lemma {:induction false} CommentsChangeNoField(pre: seq<string>, comment: string, post: seq<string>, field: string)
    requires field == "event:" || field == "id:"
    ensures LastField(pre + [":" + comment] + post, field) == LastField(pre + post, field)
    ensures DataLines(pre + [":" + comment] + post) == DataLines(pre + post)
  {
    hide Trim, TrimStart;
    var line := ":" + comment;
    var all := pre + [line] + post;
    if post == [] {
      assert line[0] == ':';
      assert all[..|all| - 1] == pre && all[|all| - 1] == line && pre + post == pre;
    } else {
      var n := |post| - 1;
      CommentsChangeNoField(pre, comment, post[..n], field);
      assert all[..|all| - 1] == pre + [line] + post[..n];
      assert (pre + post)[..|pre + post| - 1] == pre + post[..n];
    }
  }

  lemma {:induction false} LinesAreParts(s: string, k: nat, c: char)
    requires k < |SplitLines(s)| && c in SplitLines(s)[k]
    ensures c in s
  {
    var i := IndexOf(s, '\n');
    if i < |s| {
      if k == 0 {
        assert c in s[..i];
      } else {
        LinesAreParts(s[i + 1..], k - 1, c);
      }
    }
  }

  /** A block with a comment line is never blank. */
  lemma CommentIsNotBlank(raw: string, pre: seq<string>, comment: string, post: seq<string>)
    requires SplitLines(raw) == pre + [":" + comment] + post
    ensures Trim(raw) != ""
  {
    hide Trim, SplitLines;
    var line := SplitLines(raw)[|pre|];
    assert line[0] == ':';
    LinesAreParts(raw, |pre|, ':');
    var i :| 0 <= i < |raw| && raw[i] == ':';
    ColonIsNoSpace();
    TrimOfBlank(raw);
  }

  lemma ColonIsNoSpace()
    ensures !IsSpace(':')
  {}

  /** Leaving out a comment line leaves the event as it is, exactly when something is left of the block:
      a comment turns a blank block into an event. */
  lemma CommentsAreInvisibleExactly<J>(raw: string, bare: string, pre: seq<string>, comment: string,
      post: seq<string>, json: string -> Option<J>)
    requires SplitLines(raw) == pre + [":" + comment] + post && SplitLines(bare) == pre + post
    ensures EventOf(raw, json) == EventOf(bare, json) <==> Trim(bare) != ""
  {
    hide Trim, SplitLines, LastField, DataLines, Decode;
    CommentIsNotBlank(raw, pre, comment, post);
    CommentsChangeNoField(pre, comment, post, "event:");
    CommentsChangeNoField(pre, comment, post, "id:");
  }

  predicate AllComments(lines: seq<string>) {
    forall k :: 0 <= k < |lines| ==> StartsWith(lines[k], ":")
  }

  lemma {:induction false} CommentsHaveNoFields(lines: seq<string>, field: string)
    requires AllComments(lines) && (field == "event:" || field == "id:")
    ensures LastField(lines, field) == None && DataLines(lines) == []
  {
    hide Trim, TrimStart;
    if lines != [] {
      var n := |lines| - 1;
      assert StartsWith(lines[n], ":") && lines[n][0] == ':';
      CommentsHaveNoFields(lines[..n], field);
    }
  }

  /** A block of comments only is delivered as an empty `message`. */
  lemma CommentBlocksAreMessages<J>(raw: string, json: string -> Option<J>)
    requires AllComments(SplitLines(raw))
    ensures EventOf(raw, json) == Some(Event("message", Raw(""), None))
  {
    hide Trim, SplitLines, LastField, DataLines;
    var lines := SplitLines(raw);
    var line := lines[0];
    assert line == ":" + line[1..];
    assert lines == [] + [":" + line[1..]] + lines[1..];
    CommentIsNotBlank(raw, [], line[1..], lines[1..]);
    CommentsHaveNoFields(lines, "event:");
    CommentsHaveNoFields(lines, "id:");
  }

  /** A keep-alive of comment lines reaches the caller as an event, with either line ending and wherever
      the stream is cut. */
  lemma KeepAlivesAreDelivered<J>(lines: seq<string>, nl: string, chunks: seq<string>, json: string -> Option<J>)
    requires lines != [] && FieldLines(lines) && AllComments(lines) && IsNewline(nl)
    requires Flatten(chunks) == Join(lines, nl) + nl + nl
    ensures EventsOf(FeedAll(chunks).blocks, json) == [Event("message", Raw(""), None)]
  {
    hide SeparatorAt, Search, NoBoundary, SplitLines, EventOf;
    var block := Join(lines, nl);
    ChunkingIsIrrelevant(chunks);
    NoBoundaryInBlock(lines, nl, "");
    assert block + nl + nl + "" == block + nl + nl;
    assert FieldLine(lines[0]) && block[0] == lines[0][0];
    FrameOfBlock(block, nl, "");
    SearchIs("", -1);
    SplitOfJoin(lines, nl);
    CommentBlocksAreMessages(block, json);
    assert [block][..0] == [] && Frames("").blocks == [] && [block] + [] == [block];
  }

  /** The keep-alive `: ping`. */
  lemma PingIsDelivered<J>(json: string -> Option<J>)
    ensures EventsOf(Frames(": ping\n\n").blocks, json) == [Event("message", Raw(""), None)]
  {
    hide EventsOf, Frames;
    var chunks := [": ping\n\n"];
    assert chunks[1..] == [];
    assert Flatten(chunks) == ": ping\n\n" + Flatten([]) == ": ping\n\n" == ": ping" + "\n" + "\n";
    ChunkingIsIrrelevant(chunks);
    assert FieldLine(": ping") && StartsWith(": ping", ":");
    assert Join([": ping"], "\n") == ": ping";
    KeepAlivesAreDelivered([": ping"], "\n", chunks, json);
  }

  /** A list of events, written with LF or CRLF line ends and cut into chunks anywhere, is read back
      as the same events up to the blanks of `Received`, and nothing is left in the buffer. */
  lemma RoundTrip<J>(ws: seq<Wire>, nl: string, chunks: seq<string>, json: string -> Option<J>)
    requires IsNewline(nl) && forall k :: 0 <= k < |ws| ==> Sendable(ws[k])
    requires Flatten(chunks) == Encode(ws, nl)
    ensures AllDelivered(EventsOf(FeedAll(chunks).blocks, json), AllReceived(ws), json)
    ensures FeedAll(chunks).rest == ""
  {
    hide AllDelivered;
    ChunkingIsIrrelevant(chunks);
    FramesOfEncode(ws, nl);
    EventsOfWires(ws, nl, json);
    DeliveredIsMeant(EventsOf(FeedAll(chunks).blocks, json), AllReceived(ws), json);
  }

  lemma TrimmedIsFixed(s: string)
    ensures Trim(s) == s <==> Trimmed(s)
    ensures TrimStart(s) == s <==> NoIndent(s)
  {
    hide IsSpace, Trim, TrimStart;
    var pre, post := TrimCuts(s);
    TrimStartCuts(s);
    assert AllSpace("") && "" + s == s && "" + s + "" == s;
    if Trimmed(s) { TrimIs("", s, ""); }
    if NoIndent(s) { TrimStartIs("", s); }
  }

  /** The events that arrive as they were sent are exactly those without such blanks. */
  lemma ReceivedIsSent(w: Wire)
    ensures Received(w) == w <==> Exact(w)
  {
    hide Trim, TrimStart, Trimmed, NoIndent;
    TrimmedIsFixed(w.event);
    if w.id.Some? { TrimmedIsFixed(w.id.value); }
    forall k | 0 <= k < |w.data| ensures TrimStarts(w.data)[k] == w.data[k] <==> NoIndent(w.data[k]) {
      TrimmedIsFixed(w.data[k]);
    }
    assert TrimStarts(w.data) == w.data <==> forall k :: 0 <= k < |w.data| ==> TrimStarts(w.data)[k] == w.data[k];
  }

  /** An indented data line loses its indentation. */
  lemma IndentIsLost(w: Wire)
    requires w == Wire("m", None, ["  x"])
    ensures Sendable(w) && !Exact(w) && Received(w).data == ["x"]
  {
    assert AllSpace("  ") && "  " + "x" == "  x";
    TrimStartIs("  ", "x");
    assert !NoIndent(w.data[0]);
  }

  /** Dropping blanks shortens the joined text unless there are none to drop. */
  lemma {:induction false} JoinShrinks(s: seq<string>, t: seq<string>)
    requires |s| == |t| && forall k :: 0 <= k < |s| ==> s[k] == TrimStart(t[k])
    ensures |Join(s, "\n")| <= |Join(t, "\n")|
    ensures Join(s, "\n") == Join(t, "\n") ==> s == t
  {
    hide TrimStart;
    if s != [] {
      TrimStartCuts(t[0]);
      JoinShrinks(s[1..], t[1..]);
      assert s == [s[0]] + s[1..] && t == [t[0]] + t[1..];
      if |s| == 1 {
        assert Join(s, "\n") == s[0] && Join(t, "\n") == t[0];
      } else if Join(s, "\n") == Join(t, "\n") {
        assert |s[0]| == |t[0]|;
        assert s[0] == t[0];
        assert Join(s[1..], "\n") == Join(s, "\n")[|s[0]| + 1..] == Join(t, "\n")[|t[0]| + 1..] == Join(t[1..], "\n");
      }
    }
  }

  lemma MeaningIsKept<J>(w: Wire, json: string -> Option<J>)
    requires forall s :: json(s) == None
    ensures Meaning(Received(w), json) == Meaning(w, json) <==> Exact(w)
  {
    hide Exact, Trim, TrimStart, Join;
    ReceivedIsSent(w);
    JoinShrinks(TrimStarts(w.data), w.data);
    assert Meaning(w, json).data == Raw(Join(w.data, "\n"));
    assert Meaning(Received(w), json).data == Raw(Join(TrimStarts(w.data), "\n"));
  }

  lemma {:induction false} MeaningsAreKept<J>(ws: seq<Wire>, json: string -> Option<J>)
    requires forall s :: json(s) == None
    ensures Meanings(AllReceived(ws), json) == Meanings(ws, json) <==> forall k :: 0 <= k < |ws| ==> Exact(ws[k])
  {
    hide Exact, Received, Meaning;
    if ws != [] {
      MeaningIsKept(ws[0], json);
      MeaningsAreKept(ws[1..], json);
      var sent, arrived := Meanings(ws, json), Meanings(AllReceived(ws), json);
      assert AllReceived(ws)[0] == Received(ws[0]) && AllReceived(ws)[1..] == AllReceived(ws[1..]);
      assert sent[0] == Meaning(ws[0], json) && sent[1..] == Meanings(ws[1..], json);
      assert arrived[0] == Meaning(Received(ws[0]), json) && arrived[1..] == Meanings(AllReceived(ws[1..]), json);
      assert sent == [sent[0]] + sent[1..] && arrived == [arrived[0]] + arrived[1..];
      assert ws == [ws[0]] + ws[1..];
    }
  }

  lemma {:induction false} ExactIsReceived(ws: seq<Wire>)
    requires forall k :: 0 <= k < |ws| ==> Exact(ws[k])
    ensures AllReceived(ws) == ws
  {
    hide Exact, Received;
    if ws != [] {
      ReceivedIsSent(ws[0]);
      ExactIsReceived(ws[1..]);
      assert ws == [ws[0]] + ws[1..];
    }
  }

  /** Whatever the JSON parser accepts, what was sent arrives when no field has blanks that the reader
      drops; where data stays text, only then. */
  lemma RoundTripIsExact<J>(ws: seq<Wire>, nl: string, chunks: seq<string>, json: string -> Option<J>)
    requires IsNewline(nl) && forall k :: 0 <= k < |ws| ==> Sendable(ws[k])
    requires Flatten(chunks) == Encode(ws, nl)
    ensures var arrived := EventsOf(FeedAll(chunks).blocks, json);
            var exact := forall k :: 0 <= k < |ws| ==> Exact(ws[k]);
            && (exact ==> AllDelivered(arrived, ws, json))
            && ((forall s :: json(s) == None) ==> (AllDelivered(arrived, ws, json) <==> exact))
  {
    hide Exact, Sendable, Meanings, AllDelivered;
    RoundTrip(ws, nl, chunks, json);
    DeliveredIsMeant(EventsOf(FeedAll(chunks).blocks, json), AllReceived(ws), json);
    DeliveredIsMeant(EventsOf(FeedAll(chunks).blocks, json), ws, json);
    if forall k :: 0 <= k < |ws| ==> Exact(ws[k]) { ExactIsReceived(ws); }
    if forall s :: json(s) == None { MeaningsAreKept(ws, json); }
  }
}
