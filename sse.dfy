/** The server-sent-events reader of src/gateway/sse.ts.

    The response body arrives as already-decoded text chunks. Each chunk is
    appended to a buffer; every complete frame (text up to the first "\n\n")
    is cut off the front of the buffer; a frame starting with ':' is a
    comment; any other frame is read line by line into an event record
    whose `data`, `event` and `id` fields come from `data:`, `event:` and
    `id:` lines; the record is handed to `onMessage` only when its data is
    not empty. Text after the last "\n\n" stays in the buffer and is never
    delivered. */
module Sse {
  import opened Wrappers
  import opened Text

  /** The frame delimiter the reader searches for. */
  const Boundary: string := "\n\n"

  /** The record built for one frame; `event` and `id` stay undefined
      unless a matching line sets them. */
  datatype SseEvent = SseEvent(event: Option<string>, data: string, id: Option<string>)

  /** `{data: ''}`, the record each frame starts from. */
  const EmptyEvent: SseEvent := SseEvent(None, "", None)

  /* ---------------------------------------------------------------------- */
  /* Frames                                                                  */
  /* ---------------------------------------------------------------------- */

  /** "\n\n" starts at index `k` of `s`. */
  predicate BoundaryAt(s: string, k: int)
  {
    0 <= k && k + 1 < |s| && s[k] == '\n' && s[k + 1] == '\n'
  }

  /** `s.indexOf('\n\n', k)`. */
  function BoundaryIndexFrom(s: string, k: nat): (r: int)
    requires k <= |s|
    ensures r == -1 || (k <= r && r + 2 <= |s|)
    decreases |s| - k
  {
    if k + 2 > |s| then -1
    else if s[k] == '\n' && s[k + 1] == '\n' then k
    else BoundaryIndexFrom(s, k + 1)
  }

  /** `s.indexOf('\n\n')`. */
  function BoundaryIndex(s: string): (r: int)
    ensures r == -1 || (0 <= r && r + 2 <= |s|)
  {
    BoundaryIndexFrom(s, 0)
  }

  lemma {:induction false} BoundaryIndexFromSpec(s: string, k: nat)
    requires k <= |s|
    ensures var r := BoundaryIndexFrom(s, k);
      && (r == -1 || BoundaryAt(s, r))
      && (forall j :: k <= j && (r == -1 || j < r) ==> !BoundaryAt(s, j))
    decreases |s| - k
  {
    if k + 2 <= |s| && !(s[k] == '\n' && s[k + 1] == '\n') {
      BoundaryIndexFromSpec(s, k + 1);
    }
  }

  /** The search finds the first "\n\n", and gives -1 exactly when there
      is none. */
  lemma BoundaryIndexSpec(s: string)
    ensures BoundaryIndex(s) == -1 <==> forall j :: !BoundaryAt(s, j)
    ensures BoundaryIndex(s) != -1 ==>
      BoundaryAt(s, BoundaryIndex(s)) && forall j :: 0 <= j < BoundaryIndex(s) ==> !BoundaryAt(s, j)
  {
    BoundaryIndexFromSpec(s, 0);
  }

  /** The complete frames of `s`, in order: the text before each "\n\n"
      that the extraction loop finds. */
  function Frames(s: string): seq<string>
    decreases |s|
  {
    var i := BoundaryIndex(s);
    if i == -1 then [] else [s[..i]] + Frames(s[i + 2..])
  }

  /** What stays in the buffer once every complete frame of `s` is cut off. */
  function Remainder(s: string): string
    decreases |s|
  {
    var i := BoundaryIndex(s);
    if i == -1 then s else Remainder(s[i + 2..])
  }

  /** One step of extraction: the first frame, then the frames of the rest. */
  lemma FramesStep(s: string)
    requires BoundaryIndex(s) != -1
    ensures Frames(s) == [s[..BoundaryIndex(s)]] + Frames(s[BoundaryIndex(s) + 2..])
    ensures Remainder(s) == Remainder(s[BoundaryIndex(s) + 2..])
  {
  }

  /** With no "\n\n" left there is no frame and everything stays buffered. */
  lemma FramesDone(s: string)
    requires BoundaryIndex(s) == -1
    ensures Frames(s) == [] && Remainder(s) == s
  {
  }

  /** The frames, each followed by its "\n\n". */
  function Delimited(frames: seq<string>): string
  {
    if frames == [] then "" else frames[0] + Boundary + Delimited(frames[1..])
  }

  /** Extraction loses and invents nothing: the frames with their delimiters,
      followed by the remainder, are exactly the text that was buffered. */
  lemma {:induction false} FramesReassemble(s: string)
    ensures Delimited(Frames(s)) + Remainder(s) == s
    decreases |s|
  {
    var i := BoundaryIndex(s);
    if i != -1 {
      var rest := s[i + 2..];
      FramesReassemble(rest);
      DelimitedStep(s);
      FramesStep(s);
      SplitAtBoundary(s);
      Rejoin(s[..i] + Boundary, Delimited(Frames(rest)), Remainder(rest), rest, s);
    } else {
      assert "" + s == s;
    }
  }

  /** The delimited frames of `s` start with its first frame and "\n\n". */
  lemma DelimitedStep(s: string)
    requires BoundaryIndex(s) != -1
    ensures Delimited(Frames(s)) == (s[..BoundaryIndex(s)] + Boundary) + Delimited(Frames(s[BoundaryIndex(s) + 2..]))
  {
    var i := BoundaryIndex(s);
    var fs := Frames(s[i + 2..]);
    FramesStep(s);
    assert ([s[..i]] + fs)[1..] == fs;
  }

  /** Putting a head back in front of a text that was split in two. */
  lemma Rejoin(head: string, d: string, r: string, rest: string, s: string)
    requires d + r == rest
    requires s == head + rest
    ensures (head + d) + r == s
  {
    Text.AppendAssoc(head, d, r);
  }

  /** The text is its first frame, the delimiter and the rest. */
  lemma SplitAtBoundary(s: string)
    requires BoundaryIndex(s) != -1
    ensures s == (s[..BoundaryIndex(s)] + Boundary) + s[BoundaryIndex(s) + 2..]
  {
    var i := BoundaryIndex(s);
    BoundaryIndexSpec(s);
    assert s[i..i + 2] == Boundary;
    assert s == s[..i] + s[i..i + 2] + s[i + 2..];
  }

  /** No frame contains "\n\n", and neither does what stays buffered. */
  lemma {:induction false} NoBoundaryLeft(s: string)
    ensures BoundaryIndex(Remainder(s)) == -1
    ensures forall k :: 0 <= k < |Frames(s)| ==> BoundaryIndex(Frames(s)[k]) == -1
    decreases |s|
  {
    var i := BoundaryIndex(s);
    BoundaryIndexSpec(s);
    if i != -1 {
      NoBoundaryLeft(s[i + 2..]);
      var f := s[..i];
      BoundaryIndexSpec(f);
      forall j | 0 <= j < |f| ensures !BoundaryAt(f, j) {
        assert !BoundaryAt(s, j);
      }
    }
  }

  /** A first "\n\n" in `s` stays the first when text is appended. */
  lemma BoundaryIndexAppend(s: string, t: string)
    requires BoundaryIndex(s) != -1
    ensures BoundaryIndex(s + t) == BoundaryIndex(s)
  {
    var i := BoundaryIndex(s);
    BoundaryIndexSpec(s);
    BoundaryIndexSpec(s + t);
    assert BoundaryAt(s + t, i);
    forall j | 0 <= j < i ensures !BoundaryAt(s + t, j) {
      assert !BoundaryAt(s, j);
    }
  }

  /** Where chunk boundaries fall does not matter: the frames of `s + t`
      are the frames of `s` followed by the frames of what `s` leaves
      buffered with `t` appended. */
  lemma {:induction false} FramesAppend(s: string, t: string)
    ensures Frames(s + t) == Frames(s) + Frames(Remainder(s) + t)
    ensures Remainder(s + t) == Remainder(Remainder(s) + t)
    decreases |s|
  {
    var i := BoundaryIndex(s);
    if i != -1 {
      BoundaryIndexAppend(s, t);
      assert (s + t)[..i] == s[..i];
      assert (s + t)[i + 2..] == s[i + 2..] + t;
      FramesAppend(s[i + 2..], t);
    }
  }

  /* ---------------------------------------------------------------------- */
  /* One frame                                                               */
  /* ---------------------------------------------------------------------- */

  predicate IsDataLine(line: string) { "data:" <= line }
  predicate IsEventLine(line: string) { "event:" <= line }
  predicate IsIdLine(line: string) { "id:" <= line }

  /** The effect of one line of a frame on the record being built: a `data:`
      line appends its trimmed value (after a "\n" once data is non-empty),
      an `event:` or `id:` line overwrites that field with its trimmed value,
      and any other line changes nothing. */
  function ApplyLine(ev: SseEvent, line: string): SseEvent
  {
    if IsDataLine(line) then
      var value := Trim(line[5..]);
      ev.(data := (if ev.data != "" then ev.data + "\n" else ev.data) + value)
    else if IsEventLine(line) then ev.(event := Some(Trim(line[6..])))
    else if IsIdLine(line) then ev.(id := Some(Trim(line[3..])))
    else ev
  }

  /** The three prefixes exclude each other, so each line touches at most
      one field. */
  lemma ApplyLineFields(ev: SseEvent, line: string)
    ensures ApplyLine(ev, line).event == if IsEventLine(line) then Some(Trim(line[6..])) else ev.event
    ensures ApplyLine(ev, line).id == if IsIdLine(line) then Some(Trim(line[3..])) else ev.id
    ensures !(IsDataLine(line)) ==> ApplyLine(ev, line).data == ev.data
  {
    if IsDataLine(line) {
      assert line[0] == 'd';
    } else if IsEventLine(line) {
      assert line[0] == 'e';
    }
  }

  /** The record after the lines have been read in order. */
  function ReadLines(lines: seq<string>): SseEvent
    decreases |lines|
  {
    if lines == [] then EmptyEvent
    else ApplyLine(ReadLines(lines[..|lines| - 1]), lines[|lines| - 1])
  }

  /** The record built from a frame's lines. */
  function FrameRecord(frame: string): SseEvent
  {
    ReadLines(Split(frame, '\n'))
  }

  /** What a frame hands to `onMessage`: nothing for a comment frame,
      otherwise its record when the record's data is non-empty. */
  function FrameEvent(frame: string): (r: Option<SseEvent>)
    ensures ":" <= frame ==> r == None
    ensures r.Some? ==> r.value.data != "" && r.value == FrameRecord(frame)
    ensures !(":" <= frame) && FrameRecord(frame).data != "" ==> r.Some?
  {
    if ":" <= frame then None
    else
      var ev := FrameRecord(frame);
      if ev.data != "" then Some(ev) else None
  }

  /** What `onMessage` receives for one frame: its event, or nothing. */
  function Delivered(frame: string): seq<SseEvent>
  {
    if FrameEvent(frame).Some? then [FrameEvent(frame).value] else []
  }

  /** The events delivered for a sequence of frames, in frame order: those
      of all frames but the last, then the last frame's. */
  function EventsOf(frames: seq<string>): seq<SseEvent>
  {
    if frames == [] then [] else EventsOf(frames[..|frames| - 1]) + Delivered(frames[|frames| - 1])
  }

  /** Dispatching one more frame extends the delivered events by that
      frame's delivery. */
  lemma EventsOfSnoc(frames: seq<string>, frame: string)
    ensures EventsOf(frames + [frame]) == EventsOf(frames) + Delivered(frame)
  {
    assert (frames + [frame])[..|frames|] == frames;
  }

  /** One frame contributes its own delivery. */
  lemma EventsOfOne(frame: string)
    ensures EventsOf([frame]) == Delivered(frame)
  {
    EventsOfSnoc([], frame);
    assert [] + [frame] == [frame];
  }

  lemma {:induction false} EventsOfAppend(a: seq<string>, b: seq<string>)
    ensures EventsOf(a + b) == EventsOf(a) + EventsOf(b)
    decreases |b|
  {
    if b == [] {
      assert a + b == a;
    } else {
      var c, f := b[..|b| - 1], b[|b| - 1];
      assert b == c + [f];
      assert a + b == (a + c) + [f];
      EventsOfSnoc(a + c, f);
      EventsOfSnoc(c, f);
      EventsOfAppend(a, c);
    }
  }

  /** Each delivered event belongs to a distinct frame, so there are never
      more events than frames, and every delivered event has non-empty data. */
  lemma {:induction false} EventsOfBounds(frames: seq<string>)
    ensures |EventsOf(frames)| <= |frames|
    ensures forall k :: 0 <= k < |EventsOf(frames)| ==> EventsOf(frames)[k].data != ""
    decreases |frames|
  {
    if frames != [] {
      EventsOfBounds(frames[..|frames| - 1]);
    }
  }

  /* ---------------------------------------------------------------------- */
  /* What the record holds, stated without the line-by-line loop              */
  /* ---------------------------------------------------------------------- */

  /** The trimmed values of the `data:` lines, in order. */
  function DataValues(lines: seq<string>): seq<string>
    decreases |lines|
  {
    if lines == [] then []
    else
      var last := lines[|lines| - 1];
      DataValues(lines[..|lines| - 1]) + (if IsDataLine(last) then [Trim(last[5..])] else [])
  }

  /** The values with their leading empty ones dropped. */
  function DropLeadingEmpty(values: seq<string>): (r: seq<string>)
    ensures r == [] || r[0] != ""
    decreases |values|
  {
    if values == [] then []
    else if values[0] == "" then DropLeadingEmpty(values[1..])
    else values
  }

  lemma {:induction false} DropLeadingEmptyAppend(values: seq<string>, v: string)
    ensures DropLeadingEmpty(values + [v])
      == if DropLeadingEmpty(values) == [] then (if v == "" then [] else [v])
         else DropLeadingEmpty(values) + [v]
    decreases |values|
  {
    if values != [] {
      assert (values + [v])[1..] == values[1..] + [v];
      if values[0] == "" {
        DropLeadingEmptyAppend(values[1..], v);
      }
    }
  }

  lemma JoinAppend(parts: seq<string>, v: string, sep: string)
    requires parts != []
    ensures Join(parts + [v], sep) == Join(parts, sep) + sep + v
    decreases |parts|
  {
    if |parts| > 1 {
      assert (parts + [v])[1..] == parts[1..] + [v];
      JoinAppend(parts[1..], v, sep);
    } else {
      assert (parts + [v])[1..] == [v];
    }
  }

  lemma JoinNonEmpty(parts: seq<string>, sep: string)
    requires parts != [] && parts[0] != ""
    ensures Join(parts, sep) != ""
  {
    if |parts| > 1 {
      assert Join(parts, sep)[0] == parts[0][0];
    }
  }

  /** The data of a record is the `data:` values joined with "\n", except
      that no separator is written while the data is still empty: empty
      values before the first non-empty one leave no trace. */
  lemma {:induction false} DataIsJoinedValues(lines: seq<string>)
    ensures ReadLines(lines).data == Join(DropLeadingEmpty(DataValues(lines)), "\n")
    decreases |lines|
  {
    if lines != [] {
      var init := lines[..|lines| - 1];
      var last := lines[|lines| - 1];
      DataIsJoinedValues(init);
      var d := DropLeadingEmpty(DataValues(init));
      var acc := ReadLines(init).data;
      assert ReadLines(lines) == ApplyLine(ReadLines(init), last);
      if IsDataLine(last) {
        var v := Trim(last[5..]);
        assert DataValues(lines) == DataValues(init) + [v];
        assert ReadLines(lines).data == (if acc != "" then acc + "\n" else acc) + v;
        DropLeadingEmptyAppend(DataValues(init), v);
        if d != [] {
          JoinNonEmpty(d, "\n");
          JoinAppend(d, v, "\n");
        } else {
          assert acc == "";
        }
      } else {
        ApplyLineFields(ReadLines(init), last);
        assert DataValues(lines) == DataValues(init) + [];
        assert DataValues(init) + [] == DataValues(init);
      }
    }
  }

  /** `event` is the trimmed value of the last `event:` line, and stays
      undefined when there is none; `i` is that line's index or -1. */
  lemma {:induction false} EventIsLastEventLine(lines: seq<string>) returns (i: int)
    ensures -1 <= i < |lines|
    ensures i == -1 ==> ReadLines(lines).event == None
    ensures i == -1 ==> forall k :: 0 <= k < |lines| ==> !IsEventLine(lines[k])
    ensures i >= 0 ==> IsEventLine(lines[i]) && ReadLines(lines).event == Some(Trim(lines[i][6..]))
    ensures i >= 0 ==> forall k :: i < k < |lines| ==> !IsEventLine(lines[k])
    decreases |lines|
  {
    if lines == [] {
      i := -1;
    } else {
      var init := lines[..|lines| - 1];
      var last := lines[|lines| - 1];
      if IsEventLine(last) {
        i := |lines| - 1;
      } else {
        i := EventIsLastEventLine(init);
        assert forall k :: 0 <= k < |init| ==> init[k] == lines[k];
      }
      ApplyLineFields(ReadLines(init), last);
      if i == -1 {
        assert forall k :: 0 <= k < |lines| ==> k == |lines| - 1 || lines[k] == init[k];
      }
    }
  }

  /** `id` is the trimmed value of the last `id:` line, and stays undefined
      when there is none; `i` is that line's index or -1. */
  lemma {:induction false} IdIsLastIdLine(lines: seq<string>) returns (i: int)
    ensures -1 <= i < |lines|
    ensures i == -1 ==> ReadLines(lines).id == None
    ensures i == -1 ==> forall k :: 0 <= k < |lines| ==> !IsIdLine(lines[k])
    ensures i >= 0 ==> IsIdLine(lines[i]) && ReadLines(lines).id == Some(Trim(lines[i][3..]))
    ensures i >= 0 ==> forall k :: i < k < |lines| ==> !IsIdLine(lines[k])
    decreases |lines|
  {
    if lines == [] {
      i := -1;
    } else {
      var init := lines[..|lines| - 1];
      var last := lines[|lines| - 1];
      if IsIdLine(last) {
        i := |lines| - 1;
      } else {
        i := IdIsLastIdLine(init);
        assert forall k :: 0 <= k < |init| ==> init[k] == lines[k];
      }
      ApplyLineFields(ReadLines(init), last);
      if i == -1 {
        assert forall k :: 0 <= k < |lines| ==> k == |lines| - 1 || lines[k] == init[k];
      }
    }
  }

  /** A line that starts with one of `data:`, `event:`, `id:`. */
  predicate IsFieldLine(line: string)
  {
    IsDataLine(line) || IsEventLine(line) || IsIdLine(line)
  }

  function FieldLines(lines: seq<string>): seq<string>
    decreases |lines|
  {
    if lines == [] then []
    else
      var last := lines[|lines| - 1];
      FieldLines(lines[..|lines| - 1]) + (if IsFieldLine(last) then [last] else [])
  }

  /** Lines with any other prefix (`retry:`, blank lines, comments inside a
      frame) are ignored: dropping them yields the same record. */
  lemma {:induction false} OtherLinesIgnored(lines: seq<string>)
    ensures ReadLines(FieldLines(lines)) == ReadLines(lines)
    decreases |lines|
  {
    if lines != [] {
      var init := lines[..|lines| - 1];
      var last := lines[|lines| - 1];
      OtherLinesIgnored(init);
      if IsFieldLine(last) {
        var f := FieldLines(init) + [last];
        assert f[..|f| - 1] == FieldLines(init);
        assert f[|f| - 1] == last;
      } else {
        assert FieldLines(lines) == FieldLines(init) + [];
        assert FieldLines(init) + [] == FieldLines(init);
      }
    }
  }

  /* ---------------------------------------------------------------------- */
  /* The reader                                                              */
  /* ---------------------------------------------------------------------- */

  /** The `for (const line of lines)` loop: reads a non-comment frame into
      its record, field by field. */
  method ReadFrame(message: string) returns (ev: SseEvent)
    ensures ev == FrameRecord(message)
  {
    var lines := Split(message, '\n');
    ev := SseEvent(None, "", None);
    for i := 0 to |lines|
      invariant ev == ReadLines(lines[..i])
    {
      var line := lines[i];
      assert lines[..i + 1][..i] == lines[..i];
      if IsDataLine(line) {
        if ev.data != "" {
          ev := ev.(data := ev.data + "\n");
        }
        ev := ev.(data := ev.data + Trim(line[5..]));
      } else if IsEventLine(line) {
        ev := ev.(event := Some(Trim(line[6..])));
      } else if IsIdLine(line) {
        ev := ev.(id := Some(Trim(line[3..])));
      }
    }
    assert lines[..|lines|] == lines;
  }

  /** Concatenation of chunks, in arrival order. */
  function Concat(chunks: seq<string>): string
  {
    if chunks == [] then "" else Concat(chunks[..|chunks| - 1]) + chunks[|chunks| - 1]
  }

  /** Cutting the first frame off the buffer moves it to the frames read
      so far; the frames and remainder still to come are the rest's. */
  lemma CutStep(input: string, done: seq<string>, buffer: string)
    requires BoundaryIndex(buffer) != -1
    requires Frames(input) == done + Frames(buffer)
    requires Remainder(input) == Remainder(buffer)
    ensures var i := BoundaryIndex(buffer);
      && Frames(input) == (done + [buffer[..i]]) + Frames(buffer[i + 2..])
      && Remainder(input) == Remainder(buffer[i + 2..])
  {
    var i := BoundaryIndex(buffer);
    FramesStep(buffer);
    var f, rest := [buffer[..i]], Frames(buffer[i + 2..]);
    assert done + (f + rest) == (done + f) + rest;
  }

  /** Delivering one more frame's events after those of `done`. */
  lemma DeliverStep(d0: seq<SseEvent>, done: seq<string>, message: string)
    ensures (d0 + EventsOf(done)) + Delivered(message) == d0 + EventsOf(done + [message])
  {
    EventsOfSnoc(done, message);
    var e, m := EventsOf(done), Delivered(message);
    assert (d0 + e) + m == d0 + (e + m);
  }

  /** Reading chunk `k` after the text `seen` read so far: the text grows
      by the chunk, and the frames and events of the longer text are those
      of `seen` followed by those of its remainder with the chunk. */
  lemma ReadStep(start: string, chunks: seq<string>, k: nat, d0: seq<SseEvent>)
    requires k < |chunks|
    ensures start + Concat(chunks[..k + 1]) == (start + Concat(chunks[..k])) + chunks[k]
    ensures var seen := start + Concat(chunks[..k]);
      && Remainder(seen + chunks[k]) == Remainder(Remainder(seen) + chunks[k])
      && d0 + EventsOf(Frames(seen + chunks[k]))
         == (d0 + EventsOf(Frames(seen))) + EventsOf(Frames(Remainder(seen) + chunks[k]))
  {
    var c := Concat(chunks[..k]);
    assert chunks[..k + 1][..k] == chunks[..k];
    assert Concat(chunks[..k + 1]) == c + chunks[k];
    assert start + (c + chunks[k]) == (start + c) + chunks[k];
    var seen := start + c;
    FramesAppend(seen, chunks[k]);
    var a, b := Frames(seen), Frames(Remainder(seen) + chunks[k]);
    EventsOfAppend(a, b);
    assert d0 + (EventsOf(a) + EventsOf(b)) == (d0 + EventsOf(a)) + EventsOf(b);
  }

  /** The state `processStream` keeps across reads: the text buffer and the
      events handed to `onMessage` so far. */
  class SseReader {
    var buffer: string
    var delivered: seq<SseEvent>

    /** Between reads the buffer holds no complete frame. */
    ghost predicate Valid()
      reads this
    {
      BoundaryIndex(buffer) == -1
    }

    constructor ()
      ensures Valid() && buffer == "" && delivered == []
    {
      buffer := "";
      delivered := [];
    }

    /** One read: append the chunk, then cut off and dispatch every complete
        frame. Afterwards the buffer holds exactly what the buffered text
        leaves after its complete frames, and the new events are those
        frames' events in order. */
    method Feed(chunk: string)
      modifies this
      ensures buffer == Remainder(old(buffer) + chunk)
      ensures delivered == old(delivered) + EventsOf(Frames(old(buffer) + chunk))
      ensures Valid()
    {
      buffer := buffer + chunk;
      ghost var input := buffer;
      ghost var done: seq<string> := [];
      while BoundaryIndex(buffer) >= 0
        invariant Frames(input) == done + Frames(buffer)
        invariant Remainder(input) == Remainder(buffer)
        invariant delivered == old(delivered) + EventsOf(done)
        decreases |buffer|
      {
        var boundaryIndex := BoundaryIndex(buffer);
        var message := buffer[..boundaryIndex];
        CutStep(input, done, buffer);
        DeliverStep(old(delivered), done, message);
        buffer := buffer[boundaryIndex + 2..];
        Dispatch(message);
        done := done + [message];
      }
      FramesDone(buffer);
      assert done + [] == done;
    }

    /** The body of the extraction loop for one frame: a comment frame is
        skipped; otherwise the frame's record goes to `onMessage` when its
        data is non-empty. */
    method Dispatch(message: string)
      modifies this`delivered
      ensures delivered == old(delivered) + Delivered(message)
    {
      if ":" <= message {
        return;
      }
      var ev := ReadFrame(message);
      if ev.data != "" {
        delivered := delivered + [ev];
      }
    }

    /** The outer read loop: feeds every chunk until the stream is done. The
        events delivered are those of the complete frames of everything read,
        whatever the chunk boundaries, and the trailing fragment stays in the
        buffer undelivered. */
    method ProcessStream(chunks: seq<string>)
      requires Valid()
      modifies this
      ensures Valid()
      ensures buffer == Remainder(old(buffer) + Concat(chunks))
      ensures delivered == old(delivered) + EventsOf(Frames(old(buffer) + Concat(chunks)))
    {
      var k := 0;
      ghost var seen := old(buffer);
      assert Concat(chunks[..0]) == "";
      while k < |chunks|
        invariant 0 <= k <= |chunks|
        invariant seen == old(buffer) + Concat(chunks[..k])
        invariant Valid()
        invariant buffer == Remainder(seen)
        invariant delivered == old(delivered) + EventsOf(Frames(seen))
      {
        ReadStep(old(buffer), chunks, k, old(delivered));
        Feed(chunks[k]);
        seen := seen + chunks[k];
        k := k + 1;
      }
      assert chunks[..k] == chunks;
    }
  }

  /* ---------------------------------------------------------------------- */
  /* fetchSse                                                                */
  /* ---------------------------------------------------------------------- */

  /** What `fetch` resolved to: a status, whether it is ok, and the body as
      decoded chunks (None for a null body). */
  datatype HttpResponse = HttpResponse(ok: bool, status: nat, body: Option<seq<string>>)

  /** Where an error ends up: nowhere, in `onError`, or on the console when
      no `onError` was given. */
  datatype ErrorRoute = NoError | ToOnError(message: string) | ToConsole(message: string)

  datatype FetchOutcome = FetchOutcome(delivered: seq<SseEvent>, error: ErrorRoute)

  function HttpErrorMessage(status: nat): string
  {
    "HTTP error! status: " + NatToString(status)
  }

  const NullBodyMessage: string := "Response body is null"

  /** `fetchSse`: `fetched` is what `fetch` gave (Err with the rejection's
      message on a network failure). A failed fetch, a non-ok status or a
      null body delivers nothing and routes the error to `onError` when one
      is given; otherwise the events are those of the complete frames of
      the whole body. */
  method FetchSse(fetched: Result<HttpResponse, string>, hasOnError: bool) returns (outcome: FetchOutcome)
    ensures fetched.Ok? && fetched.value.ok && fetched.value.body.Some? ==>
      outcome == FetchOutcome(EventsOf(Frames(Concat(fetched.value.body.value))), NoError)
    ensures fetched.Err? || !fetched.value.ok || fetched.value.body.None? ==>
      outcome.delivered == [] && outcome.error != NoError && (outcome.error.ToOnError? <==> hasOnError)
    ensures fetched.Ok? && !fetched.value.ok ==>
      outcome.error.message == HttpErrorMessage(fetched.value.status)
    ensures fetched.Ok? && fetched.value.ok && fetched.value.body.None? ==>
      outcome.error.message == NullBodyMessage
    ensures fetched.Err? ==> outcome.error.message == fetched.error
  {
    var failure: Option<string> := None;
    if fetched.Err? {
      failure := Some(fetched.error);
    } else if !fetched.value.ok {
      failure := Some(HttpErrorMessage(fetched.value.status));
    } else if fetched.value.body.None? {
      failure := Some(NullBodyMessage);
    }
    if failure.Some? {
      var route := if hasOnError then ToOnError(failure.value) else ToConsole(failure.value);
      return FetchOutcome([], route);
    }
    var reader := new SseReader();
    reader.ProcessStream(fetched.value.body.value);
    assert "" + Concat(fetched.value.body.value) == Concat(fetched.value.body.value);
    return FetchOutcome(reader.delivered, NoError);
  }

  /** The fragment after the last "\n\n" is never delivered: a stream whose
      text has no "\n\n" at all delivers no event. */
  lemma NoBoundaryNoEvents(s: string)
    requires BoundaryIndex(s) == -1
    ensures EventsOf(Frames(s)) == [] && Remainder(s) == s
  {
  }
}
