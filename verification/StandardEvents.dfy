/** The event-stream grammar of section 9.2.5 of the WHATWG HTML Living Standard, for streams
    whose lines end in line feeds only, as a reference for the Hue adapter's parser. */
module StandardEvents {
  import opened Common
  import opened Text
  import opened EventStream

  /** The ended lines of a text; an unended last line never completes an event. */
  function EndedLines(text: string): seq<string>
    decreases |text|
  {
    var i := NewlineAt(text);
    if i.None? then [] else [text[..i.value]] + EndedLines(text[i.value + 1..])
  }

  /** Is the line a field named `data`? */
  predicate IsData(l: string) {
    l == "data" || "data:" <= l
  }

  /** The field's value: what follows the colon, less one leading space. */
  function Value(l: string): string {
    if "data: " <= l then l[6..] else if "data:" <= l then l[5..] else ""
  }

  /** The data lines of each dispatched event, and those of the event being read. */
  datatype Parse = Parse(events: seq<seq<string>>, pending: seq<string>)

  /** A blank line dispatches the pending event unless it has no data; other fields and
      comments leave the data alone. */
  function ParseLine(p: Parse, l: string): Parse {
    if l == "" then (if p.pending == [] then p else Parse(p.events + [p.pending], []))
    else if IsData(l) then p.(pending := p.pending + [Value(l)])
    else p
  }

  function ParseLines(lines: seq<string>): Parse {
    if lines == [] then Parse([], []) else ParseLine(ParseLines(lines[..|lines| - 1]), lines[|lines| - 1])
  }

  /** The events of a whole stream; an event the stream ends in is discarded. */
  function Events(text: string): seq<seq<string>> {
    ParseLines(EndedLines(text)).events
  }

  function Flatten(events: seq<seq<string>>): seq<string> {
    if events == [] then [] else Flatten(events[..|events| - 1]) + events[|events| - 1]
  }

  /** An event's data: its data lines joined by line feeds. */
  function Joined(data: seq<string>): string {
    if data == [] then ""
    else if |data| == 1 then data[0]
    else Joined(data[..|data| - 1]) + "\n" + data[|data| - 1]
  }

  function Messages(events: seq<seq<string>>): seq<string> {
    seq(|events|, i requires 0 <= i < |events| => Joined(events[i]))
  }

  /** Every data field is written with the one space the adapter looks for. */
  ghost predicate Spelled(lines: seq<string>) {
    forall l :: l in lines && IsData(l) ==> DATA <= l
  }

  // ----- Lines -----

  predicate Ended(s: string) {
    s == "" || s[|s| - 1] == '\n'
  }

  lemma {:induction false} EndedLinesConcat(a: string, b: string)
    requires Ended(a)
    ensures EndedLines(a + b) == EndedLines(a) + EndedLines(b)
    decreases |a|
  {
    if a == "" {
      assert a + b == b;
      assert [] + EndedLines(b) == EndedLines(b);
    } else {
      assert '\n' in a;
      var i := NewlineAt(a).value;
      assert (a + b)[..i] == a[..i] && (a + b)[i + 1..] == a[i + 1..] + b;
      NewlineFirst(a + b, i);
      EndedLinesConcat(a[i + 1..], b);
      Associative([a[..i]], EndedLines(a[i + 1..]), EndedLines(b));
    }
  }

  lemma LinesStep(s: string, i: nat)
    requires NewlineAt(s) == Some(i)
    ensures i < |s| && Lines(s) == [WithoutCr(s[..i])] + Lines(s[i + 1..])
    ensures EndedLines(s) == [s[..i]] + EndedLines(s[i + 1..])
  {
    hide NewlineAt, WithoutCr;
  }

  lemma CrFreeParts(s: string, i: nat)
    requires i < |s| && '\r' !in s
    ensures WithoutCr(s[..i]) == s[..i] && '\r' !in s[i + 1..]
  {
    if i > 0 {
      assert s[i - 1] in s;
    }
  }

  /** Without carriage returns the adapter's lines are the standard's. */
  lemma {:induction false} LinesAreEndedLines(s: string)
    requires Ended(s) && '\r' !in s
    ensures Lines(s) == EndedLines(s)
    decreases |s|
  {
    if s == "" {
    } else {
      assert s[|s| - 1] == '\n';
      hide Lines, EndedLines, WithoutCr;
      var i := NewlineAt(s).value;
      hide NewlineAt;
      LinesStep(s, i);
      CrFreeParts(s, i);
      LinesAreEndedLines(s[i + 1..]);
    }
  }

  /** A text without separator has no blank line but possibly its first. */
  lemma {:induction false} NoBlankLines(s: string)
    requires FindSeparator(s).None?
    ensures forall n :: 1 <= n < |EndedLines(s)| ==> EndedLines(s)[n] != ""
    ensures EndedLines(s) != [] && EndedLines(s)[0] == "" ==> s != "" && s[0] == '\n'
    decreases |s|
  {
    hide FindSeparator;
    var i := NewlineAt(s);
    if i.None? {
    } else {
      var t := s[i.value + 1..];
      if FindSeparator(t).Some? {
        var j := FindSeparator(t).value;
        assert SeparatorAt(s, i.value + 1 + j);
        SeparatorFound(s, i.value + 1 + j);
      }
      NoBlankLines(t);
      if t != "" && t[0] == '\n' {
        assert SeparatorAt(s, i.value);
        SeparatorFound(s, i.value);
      }
    }
  }

  // ----- The adapter's payloads are the standard's data lines -----

  lemma PayloadsSnoc(lines: seq<string>, l: string)
    ensures PayloadsOf(lines + [l]) == PayloadsOf(lines) + Payload(l)
  {
    assert (lines + [l])[..|lines|] == lines;
  }

  lemma {:induction false} PayloadsConcat(a: seq<string>, b: seq<string>)
    ensures PayloadsOf(a + b) == PayloadsOf(a) + PayloadsOf(b)
    decreases |b|
  {
    if b == [] {
      assert a + b == a;
    } else {
      hide PayloadsOf, Payload;
      var init, last := b[..|b| - 1], b[|b| - 1];
      ConcatSnoc(a, b);
      PayloadsConcat(a, init);
      PayloadsSnoc(a + init, last);
      PayloadsSnoc(init, last);
      Associative(PayloadsOf(a), PayloadsOf(init), Payload(last));
    }
  }

  /** Cutting the stream into blocks is not observable: the payloads are those of the lines. */
  lemma {:induction false} BlocksAreTransparent(blocks: seq<string>)
    requires forall b :: b in blocks ==> Ended(b) && '\r' !in b
    ensures Ended(Concat(blocks)) && BlockPayloads(blocks) == PayloadsOf(EndedLines(Concat(blocks)))
    decreases |blocks|
  {
    if blocks == [] {
    } else {
      var init, last := blocks[..|blocks| - 1], blocks[|blocks| - 1];
      assert last in blocks && forall b :: b in init ==> b in blocks;
      BlocksAreTransparent(init);
      LinesAreEndedLines(last);
      EndedLinesConcat(Concat(init), last);
      PayloadsConcat(EndedLines(Concat(init)), EndedLines(last));
      hide EndedLines, Lines, PayloadsOf;
    }
  }

  /** The values of all data fields, in order. */
  function DataValues(lines: seq<string>): seq<string> {
    if lines == [] then []
    else DataValues(lines[..|lines| - 1]) + (if IsData(lines[|lines| - 1]) then [Value(lines[|lines| - 1])] else [])
  }

  /** Every data field is in a dispatched event or pending, in order. */
  lemma {:induction false} DataIsConserved(lines: seq<string>)
    ensures Flatten(ParseLines(lines).events) + ParseLines(lines).pending == DataValues(lines)
    decreases |lines|
  {
    if lines == [] {
    } else {
      hide Value;
      var init, l := lines[..|lines| - 1], lines[|lines| - 1];
      DataIsConserved(init);
      var p := ParseLines(init);
      if l == "" {
        assert (p.events + [p.pending])[..|p.events|] == p.events;
        assert DataValues(lines) == DataValues(init);
      } else if IsData(l) {
        Associative(Flatten(p.events), p.pending, [Value(l)]);
      } else {
        assert DataValues(lines) == DataValues(init);
      }
    }
  }

  lemma SpelledValue(l: string)
    ensures DATA <= l ==> IsData(l) && Payload(l) == [Value(l)]
    ensures !(DATA <= l) ==> Payload(l) == []
  {
  }

  /** The adapter's payloads are among the data values; none is missing exactly when every
      data field is spelled with the space. */
  lemma {:induction false} PayloadsAreValues(lines: seq<string>)
    ensures |PayloadsOf(lines)| <= |DataValues(lines)|
    ensures PayloadsOf(lines) == DataValues(lines) <==> Spelled(lines)
    ensures |PayloadsOf(lines)| == |DataValues(lines)| ==> Spelled(lines)
    decreases |lines|
  {
    if lines == [] {
    } else {
      hide Value, Payload, IsData;
      var init, l := lines[..|lines| - 1], lines[|lines| - 1];
      assert lines == init + [l];
      PayloadsAreValues(init);
      SpelledValue(l);
      SpelledSnoc(init, l);
    }
  }

  lemma SpelledSnoc(lines: seq<string>, l: string)
    ensures Spelled(lines + [l]) <==> Spelled(lines) && (IsData(l) ==> DATA <= l)
  {
    hide IsData;
    assert l in lines + [l];
    assert forall x :: x in lines ==> x in lines + [l];
  }

  lemma {:induction false} NothingDispatched(a: seq<string>, b: seq<string>)
    requires ParseLines(a).pending == []
    requires forall n :: 1 <= n < |b| ==> b[n] != ""
    ensures ParseLines(a + b).events == ParseLines(a).events
    ensures |b| <= 1 && (b == [] || b[0] == "") ==> ParseLines(a + b).pending == []
    decreases |b|
  {
    if b == [] {
      assert a + b == a;
    } else {
      assert (a + b)[..|a + b| - 1] == a + b[..|b| - 1];
      NothingDispatched(a, b[..|b| - 1]);
    }
  }

  lemma LastLineBlank(s: string)
    requires |s| >= 2 && s[|s| - 2] == '\n' && s[|s| - 1] == '\n'
    ensures EndedLines(s) != [] && EndedLines(s)[|EndedLines(s)| - 1] == ""
  {
    var init := s[..|s| - 1];
    assert s == init + "\n";
    EndedLinesConcat(init, "\n");
    OneBlankLine();
    hide EndedLines;
  }

  lemma OneBlankLine()
    ensures EndedLines("\n") == [""]
  {
    NewlineFirst("\n", 0);
    LinesStep("\n", 0);
    assert "\n"[1..] == "";
  }

  lemma ConsumedEndsBlank(blocks: seq<string>)
    requires AllBlocks(blocks)
    ensures ParseLines(EndedLines(Concat(blocks))).pending == []
  {
    if blocks != [] {
      var last := blocks[|blocks| - 1];
      assert IsBlock(last) && SeparatorAt(last, |last| - 2);
      var s := Concat(blocks);
      assert s[|s| - 1] == last[|last| - 1] && s[|s| - 2] == last[|last| - 2];
      LastLineBlank(s);
    }
  }

  lemma {:induction false} CharsOfBlocks(blocks: seq<string>, c: char)
    ensures c in Concat(blocks) <==> exists b :: b in blocks && c in b
    decreases |blocks|
  {
    if blocks == [] {
    } else {
      var init, last := blocks[..|blocks| - 1], blocks[|blocks| - 1];
      CharsOfBlocks(init, c);
      assert blocks == init + [last];
    }
  }

  lemma BlocksAreEnded(blocks: seq<string>)
    requires AllBlocks(blocks) && '\r' !in Concat(blocks)
    ensures forall b :: b in blocks ==> Ended(b) && '\r' !in b
  {
    hide Concat;
    CharsOfBlocks(blocks, '\r');
    forall b | b in blocks ensures Ended(b) && '\r' !in b {
      assert IsBlock(b) && SeparatorAt(b, |b| - 2);
    }
  }

  /** The lines of the blocks drained so far. */
  function ConsumedLines(text: string): seq<string> {
    EndedLines(Concat(Drain(text).blocks))
  }

  /** On a stream without carriage returns, the adapter has consumed the lines of exactly the
      events the standard dispatches: its payloads are those lines' payloads, and the events'
      data are those lines' data values, none early, none twice, none lost. */
  lemma ConsumedIsDispatched(text: string)
    requires '\r' !in text
    ensures BlockPayloads(Drain(text).blocks) == PayloadsOf(ConsumedLines(text))
    ensures Flatten(Events(text)) == DataValues(ConsumedLines(text))
    ensures Events(text) == ParseLines(ConsumedLines(text)).events
  {
    hide Drain, EndedLines, ParseLines, PayloadsOf, DataValues, BlockPayloads, Concat, Flatten, FindSeparator, IsBlock;
    var c := Drain(text);
    DrainCuts(text);
    var consumed := Concat(c.blocks);
    assert text == consumed + c.rest;
    BlocksAreEnded(c.blocks);
    BlocksAreTransparent(c.blocks);
    EndedLinesConcat(consumed, c.rest);
    ConsumedEndsBlank(c.blocks);
    NoBlankLines(c.rest);
    NothingDispatched(EndedLines(consumed), EndedLines(c.rest));
    DataIsConserved(EndedLines(consumed));
  }

  /** The payloads emitted so far are exactly the data lines of the events the standard
      dispatches, if and only if every data field consumed is written with the one space the
      adapter looks for: it skips `data:x` and a bare `data`, which the standard reads. */
  lemma StreamedIsStandardExactly(text: string)
    requires '\r' !in text
    ensures BlockPayloads(Drain(text).blocks) == Flatten(Events(text)) <==> Spelled(ConsumedLines(text))
  {
    hide PayloadsOf, DataValues, Spelled, ConsumedLines, BlockPayloads, Flatten, Events, Drain;
    ConsumedIsDispatched(text);
    PayloadsAreValues(ConsumedLines(text));
  }

  // ----- Messages -----

  lemma {:induction false} EventsHaveData(lines: seq<string>)
    ensures forall e :: e in ParseLines(lines).events ==> e != []
    decreases |lines|
  {
    if lines == [] {
    } else {
      EventsHaveData(lines[..|lines| - 1]);
    }
  }

  lemma {:induction false} FlattenLength(events: seq<seq<string>>)
    requires forall e :: e in events ==> e != []
    ensures |Flatten(events)| >= |events|
    ensures |Flatten(events)| == |events| <==> forall e :: e in events ==> |e| == 1
    ensures |Flatten(events)| == |events| ==> Flatten(events) == Messages(events)
    decreases |events|
  {
    if events == [] {
    } else {
      var init, last := events[..|events| - 1], events[|events| - 1];
      assert events == init + [last];
      assert last in events && forall e :: e in init ==> e in events;
      FlattenLength(init);
      if |Flatten(events)| == |events| {
        assert last == [last[0]];
        assert Messages(events) == Messages(init) + [Joined(last)];
      }
    }
  }

  // A line holds no line feed, the data of an event of several lines does.

  lemma {:induction false} LinesHoldNoNewline(s: string)
    ensures forall l :: l in EndedLines(s) ==> '\n' !in l
    decreases |s|
  {
    var i := NewlineAt(s);
    if i.None? {
    } else {
      LinesHoldNoNewline(s[i.value + 1..]);
    }
  }

  lemma {:induction false} PayloadsHoldNoNewline(lines: seq<string>)
    requires forall l :: l in lines ==> '\n' !in l
    ensures forall x :: x in PayloadsOf(lines) ==> '\n' !in x
    decreases |lines|
  {
    if lines == [] {
    } else {
      var init, l := lines[..|lines| - 1], lines[|lines| - 1];
      assert l in lines && forall x :: x in init ==> x in lines;
      PayloadsHoldNoNewline(init);
    }
  }

  lemma JoinedHoldsNewline(data: seq<string>)
    requires |data| >= 2
    ensures '\n' in Joined(data)
  {
    var head := Joined(data[..|data| - 1]);
    assert Joined(data)[|head|] == '\n';
  }

  /** If the adapter's payloads are the standard's messages, no event has several lines. */
  lemma MessagesNeedSingles(text: string)
    requires '\r' !in text && PayloadsOf(ConsumedLines(text)) == Messages(Events(text))
    ensures forall e :: e in Events(text) ==> |e| == 1
  {
    EventsHaveData(EndedLines(text));
    LinesHoldNoNewline(Concat(Drain(text).blocks));
    PayloadsHoldNoNewline(ConsumedLines(text));
    hide PayloadsOf, ConsumedLines, Joined, Events;
    forall e | e in Events(text) ensures |e| == 1 {
      var i :| 0 <= i < |Events(text)| && Events(text)[i] == e;
      assert Messages(Events(text))[i] == Joined(e);
      assert Messages(Events(text))[i] in PayloadsOf(ConsumedLines(text));
      if |e| >= 2 {
        JoinedHoldsNewline(e);
      }
    }
  }

  /** The adapter reads every data line as a message of its own where the standard joins the
      data lines of an event. The two give the same messages if and only if every data field
      is spelled with the space and every event has one data line. */
  lemma MessagesAgreeExactly(text: string)
    requires '\r' !in text
    ensures BlockPayloads(Drain(text).blocks) == Messages(Events(text)) <==>
            Spelled(ConsumedLines(text)) && forall e :: e in Events(text) ==> |e| == 1
  {
    ConsumedIsDispatched(text);
    PayloadsAreValues(ConsumedLines(text));
    EventsHaveData(EndedLines(text));
    FlattenLength(Events(text));
    hide PayloadsOf, DataValues, Spelled, ConsumedLines, BlockPayloads, Flatten, Events, Drain, Messages;
    if PayloadsOf(ConsumedLines(text)) == Messages(Events(text)) {
      MessagesNeedSingles(text);
    }
  }
}
