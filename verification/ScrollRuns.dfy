/** Whole scroll animations: what the frames show, and what they tell apart. */
module ScrollRuns {
  import opened Bits
  import opened Bytes
  import opened Led
  import opened LedPayload
  import opened Scroll

  const COL_OFFSET := 2   // (LED_COLS - CHAR_WIDTH) / 2

  /** A character centred on the display. */
  ghost predicate IsCharGlyph(g: Glyph, p: Pattern) {
    Clean(g) && forall r, c :: 0 <= r < LED_ROWS && 0 <= c < LED_COLS ==> (Lit(g, r, c) <==> InCell(p, COL_OFFSET, r, c))
  }

  /** `char_glyph`: characters the font lacks show as a question mark, which it must have. */
  method CharGlyph(font: Font, ch: char) returns (g: Glyph)
    requires '?' in font
    ensures IsCharGlyph(g, if ch in font then font[ch] else font['?'])
  {
    hide Bit, Mask;
    var pattern := if ch in font then font[ch] else font['?'];
    var rows := new bv16[LED_ROWS](_ => 0);
    forall r, c | 0 <= r < LED_ROWS && 0 <= c < LED_COLS ensures !Bit(rows[r], c) {
      BitsOfZero(c);
    }
    for n := 0 to CHAR_HEIGHT
      invariant forall r :: 0 <= r < LED_ROWS ==> rows[r] & ROW_MASK == rows[r]
      invariant forall r, c :: 0 <= r < LED_ROWS && 0 <= c < LED_COLS ==>
        (Bit(rows[r], c) <==> r < ROW_OFFSET + n && InCell(pattern, COL_OFFSET, r, c))
    {
      var line := ".." + pattern[n];
      var bits := RowFromLine(line);
      rows[ROW_OFFSET + n] := bits;
    }
    g := Glyph(rows[..]);
  }

  /** One frame per window, from the text about to enter to the text just gone. */
  function FrameCount(n: nat): nat
    requires n > 0
  {
    TotalCols(n) - LED_COLS + 1
  }

  const FRAME_OPTIONS := DisplayOptions(1.0, 250, Immediate)
  const FALLBACK_OPTIONS := DisplayOptions(1.0, 2000, CrossFade)

  /** `run_scroll_animation`: the payloads written for a text. */
  method Animate(font: Font, text: string) returns (payloads: seq<seq<Byte>>)
    requires '?' in font
    ensures var chars := Supported(font, text);
            if chars == "" then
              |payloads| == 1 && exists g :: IsCharGlyph(g, font['?']) && IsPayload(payloads[0], g, FALLBACK_OPTIONS)
            else
              && |payloads| == FrameCount(|chars|)
              && forall k :: 0 <= k < |payloads| ==> IsPayload(payloads[k], FrameOf(font, chars, k), FRAME_OPTIONS)
  {
    hide IsPayload, FrameOf, Ink, IsCharGlyph;
    var canvas := FromText(font, text);
    if canvas.None? {
      var glyph := CharGlyph(font, '?');
      var payload := BuildLedPayload(glyph, FALLBACK_OPTIONS);
      return [payload];
    }
    ghost var chars := Supported(font, text);
    payloads := [];
    var total := canvas.value.Length1 - LED_COLS + 1;
    for k := 0 to total
      invariant |payloads| == k
      invariant IsCanvas(canvas.value, font, chars)
      invariant forall i :: 0 <= i < k ==> IsPayload(payloads[i], FrameOf(font, chars, i), FRAME_OPTIONS)
    {
      var glyph := Frame(canvas.value, k, font, chars);
      var payload := BuildLedPayload(glyph, FRAME_OPTIONS);
      payloads := payloads + [payload];
    }
  }

  /** On the wire: a scroll frame is shown at full brightness at once for up to a quarter of a
      second, the fallback fades in for two seconds. */
  lemma AnimationBytes(p: seq<Byte>, g: Glyph)
    ensures IsPayload(p, g, FRAME_OPTIONS) ==> |p| == 13 && p[11] == 255 && p[12] == 2 && BitAt(BitmapOf(p), 84)
    ensures IsPayload(p, g, FALLBACK_OPTIONS) ==> |p| == 13 && p[11] == 255 && p[12] == 20 && !BitAt(BitmapOf(p), 84)
  {
    hide IsPayload, BitAt, BitmapOf;
    if IsPayload(p, g, FRAME_OPTIONS) {
      PayloadExactly(p, g, FRAME_OPTIONS);
      assert BitAt(BitmapOf(p), 84) <==> FRAME_OPTIONS.transition == Immediate;
    }
    if IsPayload(p, g, FALLBACK_OPTIONS) {
      PayloadExactly(p, g, FALLBACK_OPTIONS);
      assert BitAt(BitmapOf(p), 84) <==> FALLBACK_OPTIONS.transition == Immediate;
    }
  }

  /** A single character stands in rows 1 to 7 and columns 2 to 6. */
  lemma CharGlyphExactly(g: Glyph, p: Pattern, r: nat, c: nat)
    requires IsCharGlyph(g, p) && r < 9 && c < 9
    ensures Lit(g, r, c) <==> 1 <= r <= 7 && 2 <= c <= 6 && p[r - 1][c - 2] == '*'
  {
    hide Bit;
  }

  // ----- What the frames show -----

  /** Each frame is the one before it moved left by one column. */
  lemma FrameShifts(font: Font, chars: string, k: nat, r: nat, c: nat)
    requires r < LED_ROWS && c + 1 < LED_COLS
    ensures Lit(FrameOf(font, chars, k + 1), r, c) <==> Lit(FrameOf(font, chars, k), r, c + 1)
  {
    hide Bit, Ink, FrameOf;
    FrameBits(font, chars, k);
    FrameBits(font, chars, k + 1);
    assert k + 1 + c == k + (c + 1);
  }

  /** The animation starts and ends with a dark display. */
  lemma EndsAreBlank(font: Font, chars: string, r: nat, c: nat)
    requires chars != "" && r < LED_ROWS && c < LED_COLS
    ensures !Lit(FrameOf(font, chars, 0), r, c)
    ensures !Lit(FrameOf(font, chars, FrameCount(|chars|) - 1), r, c)
  {
    hide Bit, Ink, FrameOf;
    var last := FrameCount(|chars|) - 1;
    FrameBits(font, chars, 0);
    FrameBits(font, chars, last);
    if Ink(font, chars, r, c) {
      InkInside(font, chars, r, c);
    }
    if Ink(font, chars, r, last + c) {
      InkInside(font, chars, r, last + c);
    }
  }

  /** Every star of the text crosses the whole display: it is shown in each of the nine
      columns, by one frame of the animation each. */
  lemma EveryStarCrosses(font: Font, chars: string, r: nat, column: nat, c: nat)
    requires c < LED_COLS && Ink(font, chars, r, column)
    ensures chars != "" && 0 <= column - c < FrameCount(|chars|) && r < LED_ROWS
    ensures Lit(FrameOf(font, chars, column - c), r, c)
  {
    InkInside(font, chars, r, column);
    FrameBits(font, chars, column - c);
  }

  /** The star of character `i` at row `r`, column `c` of its pattern. */
  lemma InkOfStar(font: Font, chars: string, i: nat, r: nat, c: nat)
    requires i < |chars| && chars[i] in font && r < CHAR_HEIGHT && c < CHAR_WIDTH
    ensures Ink(font, chars, ROW_OFFSET + r, CellAt(i) + c) <==> Star(font[chars[i]], r, c)
    ensures ROW_OFFSET + r == 1 + r && CellAt(i) + c == 9 + 6 * i + c
  {
    hide Star;
    assert (CellAt(i) + c - LED_COLS) / (CHAR_WIDTH + GAP) == i;
  }

  /** The characters look alike, position by position. */
  ghost predicate LookAlike(font: Font, a: string, b: string)
    requires (forall ch :: ch in a ==> ch in font) && (forall ch :: ch in b ==> ch in font)
  {
    && |a| == |b|
    && forall i, r, c :: 0 <= i < |a| && 0 <= r < CHAR_HEIGHT && 0 <= c < CHAR_WIDTH ==>
         (Star(font[a[i]], r, c) <==> Star(font[b[i]], r, c))
  }

  function Frames(font: Font, chars: string): seq<Glyph>
    requires chars != ""
  {
    seq(FrameCount(|chars|), k requires 0 <= k < FrameCount(|chars|) => FrameOf(font, chars, k))
  }

  /** Two texts give the same animation if and only if their supported characters look alike:
      the scroll shows the whole text, and nothing else influences it. */
  lemma AnimationShowsTextExactly(font: Font, a: string, b: string)
    requires a != "" && b != ""
    requires (forall ch :: ch in a ==> ch in font) && (forall ch :: ch in b ==> ch in font)
    ensures Frames(font, a) == Frames(font, b) <==> LookAlike(font, a, b)
  {
    hide Star, Bit, FrameOf, Ink;
    if Frames(font, a) == Frames(font, b) {
      assert FrameCount(|a|) == FrameCount(|b|);
      forall i, r, c | 0 <= i < |a| && 0 <= r < CHAR_HEIGHT && 0 <= c < CHAR_WIDTH
        ensures Star(font[a[i]], r, c) <==> Star(font[b[i]], r, c)
      {
        SameFramesSameStar(font, a, b, i, r, c);
      }
    }
    if LookAlike(font, a, b) {
      forall k | 0 <= k < FrameCount(|a|) ensures FrameOf(font, a, k) == FrameOf(font, b, k) {
        LookAlikeSameFrame(font, a, b, k);
      }
    }
  }

  lemma SameFramesSameStar(font: Font, a: string, b: string, i: nat, r: nat, c: nat)
    requires a != "" && |a| == |b| && Frames(font, a) == Frames(font, b)
    requires i < |a| && a[i] in font && b[i] in font && r < CHAR_HEIGHT && c < CHAR_WIDTH
    ensures Star(font[a[i]], r, c) <==> Star(font[b[i]], r, c)
  {
    hide Star, Bit, FrameOf, Ink;
    var column := CellAt(i) + c;
    InkOfStar(font, a, i, r, c);
    InkOfStar(font, b, i, r, c);
    FrameBits(font, a, column);
    FrameBits(font, b, column);
    assert Frames(font, a)[column] == FrameOf(font, a, column) && Frames(font, b)[column] == FrameOf(font, b, column);
    assert Lit(FrameOf(font, a, column), ROW_OFFSET + r, 0) <==> Ink(font, a, ROW_OFFSET + r, column + 0);
    assert Lit(FrameOf(font, b, column), ROW_OFFSET + r, 0) <==> Ink(font, b, ROW_OFFSET + r, column + 0);
  }

  lemma LookAlikeSameInk(font: Font, a: string, b: string, r: nat, c: nat)
    requires (forall ch :: ch in a ==> ch in font) && (forall ch :: ch in b ==> ch in font)
    requires LookAlike(font, a, b)
    ensures Ink(font, a, r, c) <==> Ink(font, b, r, c)
  {
    hide Star;
  }

  lemma LookAlikeSameFrame(font: Font, a: string, b: string, k: nat)
    requires (forall ch :: ch in a ==> ch in font) && (forall ch :: ch in b ==> ch in font)
    requires LookAlike(font, a, b)
    ensures FrameOf(font, a, k) == FrameOf(font, b, k)
  {
    hide LookAlike, Ink, Bit, FrameOf;
    FrameBits(font, a, k);
    forall r, c | 0 <= r < LED_ROWS && 0 <= c < LED_COLS
      ensures Lit(FrameOf(font, a, k), r, c) <==> Ink(font, b, r, k + c)
    {
      LookAlikeSameInk(font, a, b, r, k + c);
    }
    SameFrame(FrameOf(font, a, k), font, b, k);
  }

  /** The animation of `n` characters has 6 n + 9 frames. Frame `k` shows the star of character
      `i` in row `r` and column `c` of its pattern at row r + 1 and column 9 + 6 i + c - k, when
      that is on the display. */
  lemma FramesExactly(font: Font, chars: string, i: nat, r: nat, c: nat, k: nat)
    requires i < |chars| && chars[i] in font && r < 7 && c < 5 && k <= 9 + 6 * i + c < k + 9
    ensures Lit(FrameOf(font, chars, k), r + 1, 9 + 6 * i + c - k) <==> font[chars[i]][r][c] == '*'
    ensures FrameCount(|chars|) == 6 * |chars| + 9
  {
    hide Bit, Ink, FrameOf;
    FrameBits(font, chars, k);
    InkOfStar(font, chars, i, r, c);
    assert k + (9 + 6 * i + c - k) == 9 + 6 * i + c;
  }

  /** ... and nothing else: a lit pixel of frame `k` is some character's star there. */
  lemma LitIsStar(font: Font, chars: string, k: nat, r: nat, c: nat) returns (i: nat)
    requires r < 9 && c < 9 && Lit(FrameOf(font, chars, k), r, c)
    ensures i < |chars| && chars[i] in font
    ensures 1 <= r <= 7 && 9 + 6 * i <= k + c < 9 + 6 * i + 5
    ensures font[chars[i]][r - 1][k + c - 9 - 6 * i] == '*'
  {
    hide Bit, FrameOf;
    FrameBits(font, chars, k);
    i := (k + c - 9) / 6;
  }
}
