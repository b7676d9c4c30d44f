/** The Hue bridge's event stream: text arrives in arbitrary chunks, blocks end at a blank
    line, and every `data: ` line of a block carries a payload. Decoding bytes to text and
    reading the payloads as JSON are not modelled. */
module EventStream {
  import opened Common
  import opened Text

  /** A line feed followed by another one. */
  predicate SeparatorAt(s: string, j: int) {
    0 <= j && j + 1 < |s| && s[j] == '\n' && s[j + 1] == '\n'
  }

  /** The position of the first separator. */
  function FindSeparator(s: string): (i: Option<nat>)
    ensures i.Some? ==> SeparatorAt(s, i.value)
  {
    if |s| < 2 then None
    else if SeparatorAt(s, 0) then Some(0)
    else
      var i := FindSeparator(s[1..]);
      if i.Some? then Some(i.value + 1) else None
  }

  lemma {:induction false} SeparatorFound(s: string, j: nat)
    requires SeparatorAt(s, j)
    ensures FindSeparator(s).Some? && FindSeparator(s).value <= j
    decreases j
  {
    if SeparatorAt(s, 0) {
    } else {
      assert SeparatorAt(s[1..], j - 1);
      SeparatorFound(s[1..], j - 1);
    }
  }

  /** The complete blocks of a text, and what is left in the buffer. */
  datatype Cut = Cut(blocks: seq<string>, rest: string)

  function Drain(text: string): Cut
    decreases |text|
  {
    var i := FindSeparator(text);
    if i.None? then Cut([], text)
    else
      var c := Drain(text[i.value + 2..]);
      Cut([text[..i.value + 2]] + c.blocks, c.rest)
  }

  const DATA := "data: "

  function Payload(l: string): seq<string> {
    if DATA <= l then [l[|DATA|..]] else []
  }

  function PayloadsOf(lines: seq<string>): seq<string> {
    if lines == [] then [] else PayloadsOf(lines[..|lines| - 1]) + Payload(lines[|lines| - 1])
  }

  function BlockPayloads(blocks: seq<string>): seq<string> {
    if blocks == [] then []
    else BlockPayloads(blocks[..|blocks| - 1]) + PayloadsOf(Lines(blocks[|blocks| - 1]))
  }

  function Concat(parts: seq<string>): string {
    if parts == [] then "" else Concat(parts[..|parts| - 1]) + parts[|parts| - 1]
  }

  method EmitBlock(block: string, sent: seq<string>) returns (payloads: seq<string>)
    ensures payloads == sent + PayloadsOf(Lines(block))
  {
    payloads := sent;
    var lines := Lines(block);
    for l := 0 to |lines|
      invariant payloads == sent + PayloadsOf(lines[..l])
    {
      assert lines[..l + 1][..l] == lines[..l];
      if DATA <= lines[l] {
        payloads := payloads + [lines[l][|DATA|..]];
      }
    }
    assert lines[..|lines|] == lines;
  }

  /** The drain loop: emit and remove every complete block of the buffer. */
  method DrainBuffer(buffer: string, sent: seq<string>) returns (payloads: seq<string>, buf: string)
    ensures payloads == sent + BlockPayloads(Drain(buffer).blocks)
    ensures buf == Drain(buffer).rest
  {
    hide BlockPayloads, Drain, PayloadsOf, Lines, FindSeparator;
    payloads, buf := sent, buffer;
    ghost var done := [];
    NoBlocks();
    assert done + Drain(buf).blocks == Drain(buf).blocks;
    while FindSeparator(buf).Some?
      invariant Drain(buffer) == Cut(done + Drain(buf).blocks, Drain(buf).rest)
      invariant payloads == sent + BlockPayloads(done)
      decreases |buf|
    {
      var idx := FindSeparator(buf).value;
      var block := buf[..idx + 2];
      DrainStep(buf, done);
      BlockPayloadsSnoc(done, block);
      Associative(sent, BlockPayloads(done), PayloadsOf(Lines(block)));
      buf := buf[idx + 2..];
      payloads := EmitBlock(block, payloads);
      done := done + [block];
    }
    DrainNothing(buf);
    assert done + [] == done;
  }

  lemma NoBlocks()
    ensures BlockPayloads([]) == []
  {
  }

  lemma DrainNothing(buf: string)
    requires FindSeparator(buf).None?
    ensures Drain(buf) == Cut([], buf)
  {
  }

  lemma DrainStep(buf: string, done: seq<string>)
    requires FindSeparator(buf).Some?
    ensures var i := FindSeparator(buf).value;
            var c := Drain(buf[i + 2..]);
            Drain(buf).rest == c.rest && done + Drain(buf).blocks == (done + [buf[..i + 2]]) + c.blocks
  {
    hide FindSeparator;
    var i := FindSeparator(buf).value;
    var c := Drain(buf[i + 2..]);
    assert Drain(buf) == Cut([buf[..i + 2]] + c.blocks, c.rest);
    hide Drain;
    Associative(done, [buf[..i + 2]], c.blocks);
  }

  lemma BlockPayloadsSnoc(blocks: seq<string>, block: string)
    ensures BlockPayloads(blocks + [block]) == BlockPayloads(blocks) + PayloadsOf(Lines(block))
  {
    assert (blocks + [block])[..|blocks|] == blocks;
  }

  lemma {:induction false} BlockPayloadsConcat(a: seq<string>, b: seq<string>)
    ensures BlockPayloads(a + b) == BlockPayloads(a) + BlockPayloads(b)
    decreases |b|
  {
    if b == [] {
      assert a + b == a;
      assert BlockPayloads(b) == [];
    } else {
      hide BlockPayloads, PayloadsOf, Lines;
      var init, last := b[..|b| - 1], b[|b| - 1];
      ConcatSnoc(a, b);
      BlockPayloadsConcat(a, init);
      BlockPayloadsSnoc(a + init, last);
      BlockPayloadsSnoc(init, last);
      Associative(BlockPayloads(a), BlockPayloads(init), PayloadsOf(Lines(last)));
    }
  }

  /** `stream_once`: append each chunk to the buffer and drain its complete blocks. The result
      depends on the text alone, not on the chunks it came in. */
  method StreamOnce(chunks: seq<string>) returns (payloads: seq<string>, buf: string)
    ensures payloads == BlockPayloads(Drain(Concat(chunks)).blocks)
    ensures buf == Drain(Concat(chunks)).rest
  {
    payloads, buf := [], "";
    for n := 0 to |chunks|
      invariant payloads == BlockPayloads(Drain(Concat(chunks[..n])).blocks)
      invariant buf == Drain(Concat(chunks[..n])).rest
    {
      hide Drain, BlockPayloads;
      DrainAppend(Concat(chunks[..n]), chunks[n]);
      BlockPayloadsConcat(Drain(Concat(chunks[..n])).blocks, Drain(buf + chunks[n]).blocks);
      buf := buf + chunks[n];
      payloads, buf := DrainBuffer(buf, payloads);
      assert chunks[..n + 1][..n] == chunks[..n];
    }
    assert chunks[..|chunks|] == chunks;
  }

  // ----- Chunking -----

  lemma SeparatorAppend(a: string, b: string)
    requires FindSeparator(a).Some?
    ensures FindSeparator(a + b) == FindSeparator(a)
  {
    hide FindSeparator;
    var i := FindSeparator(a).value;
    assert SeparatorAt(a + b, i);
    SeparatorFound(a + b, i);
    var j := FindSeparator(a + b).value;
    assert SeparatorAt(a, j);
    SeparatorFound(a, j);
  }

  /** Draining early loses nothing and adds nothing: cutting a text and then continuing from
      the buffer gives the blocks and the buffer of cutting the whole text at once. */
  lemma {:induction false} DrainAppend(a: string, b: string)
    ensures Drain(a + b) == Cut(Drain(a).blocks + Drain(Drain(a).rest + b).blocks, Drain(Drain(a).rest + b).rest)
    decreases |a|
  {
    hide FindSeparator;
    if FindSeparator(a).None? {
      assert Drain(a) == Cut([], a);
      assert [] + Drain(a + b).blocks == Drain(a + b).blocks;
    } else {
      var i := FindSeparator(a).value;
      SeparatorAppend(a, b);
      var first, more := a[..i + 2], a[i + 2..];
      assert (a + b)[..i + 2] == first && (a + b)[i + 2..] == more + b;
      DrainAppend(more, b);
      var later := Drain(Drain(more).rest + b).blocks;
      assert ([first] + Drain(more).blocks) + later == [first] + (Drain(more).blocks + later);
    }
  }

  // ----- What a cut is -----

  /** A block ends at its only separator. */
  predicate IsBlock(s: string) {
    |s| >= 2 && FindSeparator(s) == Some(|s| - 2)
  }

  predicate AllBlocks(blocks: seq<string>) {
    forall b :: b in blocks ==> IsBlock(b)
  }

  lemma AllBlocksCons(first: string, more: seq<string>)
    requires IsBlock(first) && AllBlocks(more)
    ensures AllBlocks([first] + more)
  {
    hide IsBlock;
  }

  lemma SeparatorOfPrefix(text: string, i: nat)
    requires FindSeparator(text) == Some(i)
    ensures IsBlock(text[..i + 2])
  {
    hide FindSeparator;
    var b := text[..i + 2];
    assert SeparatorAt(b, i);
    SeparatorFound(b, i);
    SeparatorFound(text, FindSeparator(b).value);
  }

  lemma ConcatCons(first: string, parts: seq<string>)
    ensures Concat([first] + parts) == first + Concat(parts)
    decreases |parts|
  {
    if parts == [] {
      assert ([first] + parts)[..0] == [];
      assert "" + first == first + "";
    } else {
      var n := |parts| - 1;
      assert ([first] + parts)[..|parts|] == [first] + parts[..n];
      ConcatCons(first, parts[..n]);
    }
  }

  /** The cut is the only way to write a text as blocks followed by a rest without separator:
      every character is in exactly one block or in the rest, in order. */
  lemma CutIsUnique(text: string, c: Cut)
    ensures c == Drain(text) <==>
              && AllBlocks(c.blocks)
              && FindSeparator(c.rest).None?
              && Concat(c.blocks) + c.rest == text
  {
    DrainCuts(text);
    if AllBlocks(c.blocks) && FindSeparator(c.rest).None? && Concat(c.blocks) + c.rest == text {
      CutDrains(c);
    }
  }

  lemma {:induction false} DrainCuts(text: string)
    ensures AllBlocks(Drain(text).blocks)
    ensures FindSeparator(Drain(text).rest).None?
    ensures Concat(Drain(text).blocks) + Drain(text).rest == text
    decreases |text|
  {
    hide FindSeparator, IsBlock;
    if FindSeparator(text).None? {
      assert "" + text == text;
    } else {
      var i := FindSeparator(text).value;
      var first, more := text[..i + 2], text[i + 2..];
      var c := Drain(more);
      assert Drain(text) == Cut([first] + c.blocks, c.rest);
      assert text == first + more;
      SeparatorOfPrefix(text, i);
      hide Drain, Concat, AllBlocks;
      DrainCuts(more);
      AllBlocksCons(first, c.blocks);
      ConcatCons(first, c.blocks);
      Associative(first, Concat(c.blocks), c.rest);
    }
  }

  lemma {:induction false} CutDrains(c: Cut)
    requires AllBlocks(c.blocks) && FindSeparator(c.rest).None?
    ensures Drain(Concat(c.blocks) + c.rest) == c
    decreases |c.blocks|
  {
    hide FindSeparator;
    if c.blocks == [] {
      assert "" + c.rest == c.rest;
    } else {
      var b, more := c.blocks[0], c.blocks[1..];
      assert c.blocks == [b] + more;
      assert IsBlock(b);
      ConcatCons(b, more);
      var tail := Concat(more) + c.rest;
      var text := Concat(c.blocks) + c.rest;
      assert text == b + tail;
      SeparatorAppend(b, tail);
      assert text[..|b|] == b && text[|b|..] == tail;
      CutDrains(Cut(more, c.rest));
    }
  }
}
