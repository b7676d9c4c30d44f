/** Scrolling text: the wide canvas composed from the 5x7 font, and the 9x9 frames cut from it
    by the iOS and the desktop renderer. The font is any table of 5x7 patterns. */
module Scroll {
  import opened Common
  import opened Bits
  import opened Led

  const CHAR_WIDTH := 5
  const CHAR_HEIGHT := 7
  const GAP := 1
  const ROW_OFFSET := 1   // (LED_ROWS - CHAR_HEIGHT) / 2

  type Pattern = p: seq<string> | |p| == CHAR_HEIGHT && forall r :: 0 <= r < |p| ==> |p[r]| == CHAR_WIDTH
    witness [".....", ".....", ".....", ".....", ".....", ".....", "....."]

  type Font = map<char, Pattern>

  /** The characters of a text the font has. */
  function Supported(font: Font, text: string): string {
    if text == "" then ""
    else Supported(font, text[..|text| - 1]) + (if text[|text| - 1] in font then [text[|text| - 1]] else [])
  }

  /** The characters kept are exactly those that the font has, each where it was. */
  lemma {:induction false} SupportedExactly(font: Font, before: string, ch: char, after: string)
    ensures Supported(font, before + [ch] + after)
            == Supported(font, before) + (if ch in font then [ch] else []) + Supported(font, after)
    decreases |after|
  {
    var kept := if ch in font then [ch] else [];
    var text := before + [ch] + after;
    if after == "" {
      assert text[..|text| - 1] == before;
      assert Supported(font, before) + kept + "" == Supported(font, before) + kept;
    } else {
      var n := |after| - 1;
      assert text[..|text| - 1] == before + [ch] + after[..n];
      SupportedExactly(font, before, ch, after[..n]);
      Associative(Supported(font, before) + kept, Supported(font, after[..n]), if after[n] in font then [after[n]] else []);
    }
  }

  predicate Star(p: Pattern, r: nat, c: nat)
    requires r < CHAR_HEIGHT && c < CHAR_WIDTH
  {
    p[r][c] == '*'
  }

  /** Row `r` and column `c` of a cell whose left edge is column `at`. */
  predicate InCell(p: Pattern, at: nat, r: nat, c: nat) {
    ROW_OFFSET <= r < ROW_OFFSET + CHAR_HEIGHT && at <= c < at + CHAR_WIDTH && Star(p, r - ROW_OFFSET, c - at)
  }

  /** The left edge of the `i`-th character. */
  function CellAt(i: nat): nat {
    LED_COLS + (CHAR_WIDTH + GAP) * i
  }

  /** The canvas in closed form: a pixel is lit when its column lies in a character's cell, not
      in the gap behind it, and that character's pattern has a star there. */
  predicate Ink(font: Font, chars: string, r: nat, c: nat) {
    && c >= LED_COLS
    && var i := (c - LED_COLS) / (CHAR_WIDTH + GAP);
       i < |chars| && chars[i] in font && InCell(font[chars[i]], CellAt(i), r, c)
  }

  function TotalCols(n: nat): nat
    requires n > 0
  {
    LED_COLS + (n * (CHAR_WIDTH + GAP) - GAP) + LED_COLS
  }

  /** `char_bits`: a pattern as packed rows. */
  method CharBits(font: Font, ch: char) returns (bits: Option<seq<bv16>>)
    ensures bits.Some? <==> ch in font
    ensures bits.Some? ==>
              && |bits.value| == CHAR_HEIGHT
              && forall r, c :: 0 <= r < CHAR_HEIGHT && 0 <= c < CHAR_WIDTH ==> (Bit(bits.value[r], c) <==> Star(font[ch], r, c))
  {
    hide Bit;
    if ch !in font {
      return None;
    }
    var pattern := font[ch];
    var rows: seq<bv16> := [];
    for r := 0 to CHAR_HEIGHT
      invariant |rows| == r
      invariant forall i, c :: 0 <= i < r && 0 <= c < CHAR_WIDTH ==> (Bit(rows[i], c) <==> pattern[i][c] == '*')
    {
      var row := RowFromLine(pattern[r]);
      rows := rows + [row];
    }
    return Some(rows);
  }

  /** The innermost loops of `from_text`: draw one character with its left edge at `cursor`. */
  method Stamp(rows: array2<bool>, cursor: nat, pattern: Pattern, bits: seq<bv16>)
    requires rows.Length0 == LED_ROWS && cursor + CHAR_WIDTH <= rows.Length1 && |bits| == CHAR_HEIGHT
    requires forall r, c :: 0 <= r < CHAR_HEIGHT && 0 <= c < CHAR_WIDTH ==> (Bit(bits[r], c) <==> Star(pattern, r, c))
    modifies rows
    ensures forall r, c :: 0 <= r < LED_ROWS && 0 <= c < rows.Length1 ==>
              (rows[r, c] <==> old(rows[r, c]) || InCell(pattern, cursor, r, c))
  {
    hide Bit;
    for n := 0 to CHAR_HEIGHT
      invariant forall r, c :: 0 <= r < LED_ROWS && 0 <= c < rows.Length1 ==>
        (rows[r, c] <==> old(rows[r, c]) || (r < ROW_OFFSET + n && InCell(pattern, cursor, r, c)))
    {
      var target := ROW_OFFSET + n;
      for col := 0 to CHAR_WIDTH
        invariant forall r, c :: 0 <= r < LED_ROWS && 0 <= c < rows.Length1 ==>
          (rows[r, c] <==> old(rows[r, c]) || (InCell(pattern, cursor, r, c) && (r < target || (r == target && c < cursor + col))))
      {
        var lit := TestBit(bits[n], col);
        if lit {
          rows[target, cursor + col] := true;
        }
      }
    }
  }

  lemma InkOfNext(font: Font, chars: string, k: nat, r: nat, c: nat)
    requires k < |chars| && forall ch :: ch in chars ==> ch in font
    ensures Ink(font, chars[..k + 1], r, c) <==> Ink(font, chars[..k], r, c) || InCell(font[chars[k]], CellAt(k), r, c)
  {
    hide Star;
    if c >= LED_COLS {
      var i := (c - LED_COLS) / (CHAR_WIDTH + GAP);
      if InCell(font[chars[k]], CellAt(k), r, c) {
        assert i == k;
      }
    }
  }

  /** `ScrollCanvas::from_text`: nothing when the font has none of the characters. */
  method FromText(font: Font, text: string) returns (canvas: Option<array2<bool>>)
    ensures canvas.None? <==> Supported(font, text) == ""
    ensures canvas.Some? ==>
              && fresh(canvas.value)
              && IsCanvas(canvas.value, font, Supported(font, text))
  {
    var chars := "";
    for i := 0 to |text|
      invariant chars == Supported(font, text[..i])
      invariant forall ch :: ch in chars ==> ch in font
    {
      assert text[..i + 1][..i] == text[..i];
      if text[i] in font {
        chars := chars + [text[i]];
      }
    }
    assert text[..|text|] == text;
    if chars == "" {
      return None;
    }
    var rows := Compose(font, chars);
    return Some(rows);
  }

  ghost predicate IsCanvas(rows: array2<bool>, font: Font, chars: string)
    reads rows
  {
    && chars != ""
    && rows.Length0 == LED_ROWS && rows.Length1 == TotalCols(|chars|)
    && forall r, c :: 0 <= r < LED_ROWS && 0 <= c < rows.Length1 ==> (rows[r, c] <==> Ink(font, chars, r, c))
  }

  method Compose(font: Font, chars: string) returns (rows: array2<bool>)
    requires chars != "" && forall ch :: ch in chars ==> ch in font
    ensures fresh(rows) && IsCanvas(rows, font, chars)
  {
    rows := new bool[LED_ROWS, TotalCols(|chars|)]((r, c) => false);
    var cursor := LED_COLS;
    hide Ink, InCell, Bit;
    assert forall r, c :: 0 <= r < LED_ROWS && 0 <= c < rows.Length1 ==> !Ink(font, chars[..0], r, c) by {
      NoInk(font);
    }
    for k := 0 to |chars|
      invariant cursor == CellAt(k)
      invariant forall r, c :: 0 <= r < LED_ROWS && 0 <= c < rows.Length1 ==> (rows[r, c] <==> Ink(font, chars[..k], r, c))
    {
      var bits := CharBits(font, chars[k]);
      if bits.Some? {
        Stamp(rows, cursor, font[chars[k]], bits.value);
      }
      forall r, c | 0 <= r < LED_ROWS && 0 <= c < rows.Length1
        ensures Ink(font, chars[..k + 1], r, c) <==> Ink(font, chars[..k], r, c) || InCell(font[chars[k]], CellAt(k), r, c)
      {
        InkOfNext(font, chars, k, r, c);
      }
      cursor := cursor + CHAR_WIDTH + GAP;
    }
    assert chars[..|chars|] == chars;
  }

  lemma NoInk(font: Font)
    ensures forall chars, r, c :: chars == "" ==> !Ink(font, chars, r, c)
  {
  }

  // ----- Frames -----

  /** Row `r` of the window that starts at column `k`, as a line of stars and dots. */
  function WindowLine(font: Font, chars: string, k: nat, r: nat): string {
    seq(LED_COLS, c requires 0 <= c < LED_COLS => if Ink(font, chars, r, k + c) then '*' else '.')
  }

  /** Frame `k` in closed form. */
  function FrameOf(font: Font, chars: string, k: nat): Glyph {
    Glyph(seq(LED_ROWS, r requires 0 <= r < LED_ROWS => PackRow(WindowLine(font, chars, k, r), LED_COLS)))
  }

  lemma FrameBits(font: Font, chars: string, k: nat)
    ensures Clean(FrameOf(font, chars, k))
    ensures forall r, c :: 0 <= r < LED_ROWS && 0 <= c < LED_COLS ==>
              (Lit(FrameOf(font, chars, k), r, c) <==> Ink(font, chars, r, k + c))
  {
    hide Bit, PackRow, Ink;
    var g := FrameOf(font, chars, k);
    forall r | 0 <= r < LED_ROWS
      ensures g.rows[r] & ROW_MASK == g.rows[r]
      ensures forall c :: 0 <= c < LED_COLS ==> (Bit(g.rows[r], c) <==> Ink(font, chars, r, k + c))
    {
      PackRowBits(WindowLine(font, chars, k, r), LED_COLS);
    }
  }

  /** All ink lies between the two paddings. */
  lemma InkInside(font: Font, chars: string, r: nat, c: nat)
    requires Ink(font, chars, r, c)
    ensures chars != "" && ROW_OFFSET <= r < ROW_OFFSET + CHAR_HEIGHT && LED_COLS <= c < TotalCols(|chars|) - LED_COLS
  {
    hide Star;
  }

  lemma SameFrame(g: Glyph, font: Font, chars: string, k: nat)
    requires Clean(g)
    requires forall r, c :: 0 <= r < LED_ROWS && 0 <= c < LED_COLS ==> (Lit(g, r, c) <==> Ink(font, chars, r, k + c))
    ensures g == FrameOf(font, chars, k)
  {
    hide Ink, Bit, FrameOf;
    var f := FrameOf(font, chars, k);
    FrameBits(font, chars, k);
    SamePixelsSameRows(g, f);
    CleanIsMasked(g);
    CleanIsMasked(f);
  }

  /** One row of the iOS frame. */
  method PackWindow(rows: array2<bool>, r: nat, start: nat) returns (bits: bv16)
    requires r < rows.Length0
    ensures forall c :: 0 <= c < LED_COLS ==> (Bit(bits, c) <==> start + c < rows.Length1 && rows[r, start + c])
    ensures bits & ROW_MASK == bits
  {
    hide Bit, SetIf;
    bits := 0;
    forall c | 0 <= c < LED_COLS ensures !Bit(bits, c) {
      BitsOfZero(c);
    }
    for col := 0 to LED_COLS
      invariant forall c :: 0 <= c < LED_COLS ==> (Bit(bits, c) <==> c < col && start + c < rows.Length1 && rows[r, start + c])
      invariant bits & ROW_MASK == bits
    {
      if start + col < rows.Length1 && rows[r, start + col] {
        forall c | 0 <= c < LED_COLS ensures Bit(SetIf(bits, col, true), c) <==> c == col || Bit(bits, c) {
          SetIfOn(bits, col, c);
        }
        SetIfKeepsMask(bits, col);
        bits := WithBit(bits, col);
      }
    }
  }

  /** The iOS `ScrollCanvas::frame`. */
  method Frame(rows: array2<bool>, start: nat, ghost font: Font, ghost chars: string) returns (g: Glyph)
    requires IsCanvas(rows, font, chars)
    ensures g == FrameOf(font, chars, start)
  {
    hide Bit, Ink, FrameOf;
    var out: seq<bv16> := [];
    for r := 0 to LED_ROWS
      invariant |out| == r
      invariant forall i :: 0 <= i < r ==> out[i] & ROW_MASK == out[i]
      invariant forall i, c :: 0 <= i < r && 0 <= c < LED_COLS ==> (Bit(out[i], c) <==> start + c < rows.Length1 && rows[i, start + c])
    {
      var bits := PackWindow(rows, r, start);
      out := out + [bits];
    }
    g := Glyph(out);
    forall r, c | 0 <= r < LED_ROWS && 0 <= c < LED_COLS ensures Lit(g, r, c) <==> Ink(font, chars, r, start + c) {
      if Ink(font, chars, r, start + c) {
        InkInside(font, chars, r, start + c);
      }
    }
    SameFrame(g, font, chars, start);
  }

  method AppendWindow(s: string, rows: array2<bool>, r: nat, start: nat, ghost line: string) returns (s': string)
    requires r < rows.Length0 && |line| == LED_COLS
    requires forall c :: 0 <= c < LED_COLS ==> line[c] == if start + c < rows.Length1 && rows[r, start + c] then '*' else '.'
    ensures s' == s + line
  {
    s' := s;
    for c := 0 to LED_COLS
      invariant s' == s + line[..c]
    {
      var column := start + c;
      var lit := column < rows.Length1 && rows[r, column];
      s' := s' + [if lit then '*' else '.'];
    }
    assert line[..LED_COLS] == line;
  }

  lemma WindowLineIsRow(font: Font, chars: string, k: nat, r: nat)
    requires r < LED_ROWS
    ensures RowText(FrameOf(font, chars, k).rows[r]) == WindowLine(font, chars, k, r)
  {
    hide Bit, Ink, FrameOf;
    FrameBits(font, chars, k);
    var row, line := FrameOf(font, chars, k).rows[r], WindowLine(font, chars, k, r);
    forall c | 0 <= c < LED_COLS ensures RowText(row)[c] == line[c] {
      assert Lit(FrameOf(font, chars, k), r, c) <==> Ink(font, chars, r, k + c);
    }
  }

  /** The desktop `ScrollCanvas::frame`: the window as an ASCII grid, read back as a glyph. The
      two renderers draw the same frames. */
  method DesktopFrame(rows: array2<bool>, start: nat, ghost font: Font, ghost chars: string) returns (g: Glyph)
    requires IsCanvas(rows, font, chars)
    ensures g == FrameOf(font, chars, start)
  {
    hide Bit, Ink, FrameOf, RowText, Render, Parse;
    var s := "";
    ghost var f := FrameOf(font, chars, start);
    assert f.rows[0..] == f.rows;
    for r := 0 to LED_ROWS
      invariant s + Render(f.rows[r..]) == Render(f.rows)
    {
      RenderStep(f.rows[r..]);
      assert f.rows[r..][1..] == f.rows[r + 1..];
      WindowLineIsRow(font, chars, start, r);
      ghost var line := WindowLine(font, chars, start, r);
      forall c | 0 <= c < LED_COLS
        ensures line[c] == if start + c < rows.Length1 && rows[r, start + c] then '*' else '.'
      {
        if Ink(font, chars, r, start + c) {
          InkInside(font, chars, r, start + c);
        }
      }
      ghost var before := s;
      s := AppendWindow(s, rows, r, start, line);
      if r + 1 < LED_ROWS {
        s := s + "\n";
      }
      assert s + Render(f.rows[r + 1..]) == before + Render(f.rows[r..]);
    }
    assert f.rows[LED_ROWS..] == [];
    RenderNothing();
    assert s == s + Render([]) == Render(f.rows);
    g := FromAscii(s);
    AsciiRoundTrip(f);
    FrameBits(font, chars, start);
  }

  lemma RenderNothing()
    ensures Render([]) == ""
  {
  }
}
