/** The LED matrix: 9x9 glyphs, their ASCII form, and the 13-byte payload of the display. */
module Led {
  import opened Text
  import opened Bits

  const LED_ROWS := 9
  const LED_COLS := 9
  const LED_BITMAP_BYTES := 11
  const LED_DISPLAY_BYTES := 13
  const LED_FADE_FLAG: bv8 := 16

  type Rows = rows: seq<bv16> | |rows| == LED_ROWS witness [0, 0, 0, 0, 0, 0, 0, 0, 0]

  /** Bit 0 of a row is its leftmost pixel. Only nine bits are pixels, but a row has sixteen. */
  datatype Glyph = Glyph(rows: Rows)

  predicate Lit(g: Glyph, r: nat, c: nat)
    requires r < LED_ROWS && c < LED_COLS
  {
    Bit(g.rows[r], c)
  }

  /** No row uses more than its nine pixels. */
  predicate Clean(g: Glyph) {
    forall r :: 0 <= r < LED_ROWS ==> g.rows[r] & ROW_MASK == g.rows[r]
  }

  function Masked(g: Glyph): Glyph {
    Glyph(seq(LED_ROWS, r requires 0 <= r < LED_ROWS => g.rows[r] & ROW_MASK))
  }

  ghost predicate SamePixels(g: Glyph, h: Glyph) {
    forall r, c :: 0 <= r < LED_ROWS && 0 <= c < LED_COLS ==> (Lit(g, r, c) <==> Lit(h, r, c))
  }

  lemma SamePixelsSameRows(g: Glyph, h: Glyph)
    ensures SamePixels(g, h) <==> Masked(g) == Masked(h)
  {
    if SamePixels(g, h) {
      forall r | 0 <= r < LED_ROWS ensures Masked(g).rows[r] == Masked(h).rows[r] {
        forall c | 0 <= c < LED_COLS ensures Bit(g.rows[r], c) <==> Bit(h.rows[r], c) {
          assert Lit(g, r, c) == Lit(h, r, c);
        }
        RowFromBits(g.rows[r], h.rows[r]);
      }
      assert Masked(g).rows == Masked(h).rows;
    }
    if Masked(g) == Masked(h) {
      forall r, c | 0 <= r < LED_ROWS && 0 <= c < LED_COLS ensures Lit(g, r, c) <==> Lit(h, r, c) {
        assert Masked(g).rows[r] == Masked(h).rows[r];
        MaskedBits(g.rows[r], c);
        MaskedBits(h.rows[r], c);
      }
    }
  }

  lemma CleanIsMasked(g: Glyph)
    ensures Clean(g) <==> Masked(g) == g
    ensures Clean(Masked(g)) && SamePixels(Masked(g), g)
  {
    if Clean(g) {
      assert Masked(g).rows == g.rows;
    }
    if Masked(g) == g {
      forall r | 0 <= r < LED_ROWS ensures g.rows[r] & ROW_MASK == g.rows[r] {
        assert Masked(g).rows[r] == g.rows[r] & ROW_MASK;
      }
    }
    forall r | 0 <= r < LED_ROWS ensures Masked(g).rows[r] & ROW_MASK == Masked(g).rows[r] {
      MaskTwice(g.rows[r]);
    }
    forall r, c | 0 <= r < LED_ROWS && 0 <= c < LED_COLS ensures Lit(Masked(g), r, c) <==> Lit(g, r, c) {
      MaskedBits(g.rows[r], c);
    }
  }

  lemma MaskTwice(row: bv16)
    ensures (row & ROW_MASK) & ROW_MASK == row & ROW_MASK
  {
  }

  // ----- ASCII -----

  /** Does the grid `s` show a star at row `r`, column `c`? */
  predicate Starred(s: string, r: nat, c: nat) {
    var lines := Lines(s);
    r < |lines| && c < |lines[r]| && lines[r][c] == '*'
  }

  /** One line of a grid as a row: excess columns are dropped. */
  method RowFromLine(line: string) returns (val: bv16)
    ensures forall c :: 0 <= c < LED_COLS ==> (Bit(val, c) <==> c < |line| && line[c] == '*')
    ensures val & ROW_MASK == val
  {
    hide Bit, SetIf;
    val := 0;
    forall c | 0 <= c < LED_COLS ensures !Bit(val, c) {
      BitsOfZero(c);
    }
    var col := 0;
    while col < |line| && col < LED_COLS
      invariant 0 <= col <= |line| && col <= LED_COLS
      invariant forall c :: 0 <= c < LED_COLS ==> (Bit(val, c) <==> c < col && line[c] == '*')
      invariant val & ROW_MASK == val
    {
      if line[col] == '*' {
        forall c | 0 <= c < LED_COLS ensures Bit(SetIf(val, col, true), c) <==> c == col || Bit(val, c) {
          SetIfOn(val, col, c);
        }
        SetIfKeepsMask(val, col);
        val := WithBit(val, col);
      }
      col := col + 1;
    }
  }

  /** The glyph `g` is what parsing `s` must give: it has the stars of the grid as pixels, the
      first nine lines and columns of them, and nothing else. */
  ghost predicate Depicts(g: Glyph, s: string) {
    Clean(g) && forall r, c :: 0 <= r < LED_ROWS && 0 <= c < LED_COLS ==> (Lit(g, r, c) <==> Starred(s, r, c))
  }

  /** The first `n` columns of a line, packed. */
  function PackRow(line: string, n: nat): bv16
    requires n <= LED_COLS
  {
    if n == 0 then 0
    else SetIf(PackRow(line, n - 1), n - 1, n - 1 < |line| && line[n - 1] == '*')
  }

  function Parse(s: string): Glyph {
    var lines := Lines(s);
    Glyph(seq(LED_ROWS, r => if 0 <= r < |lines| then PackRow(lines[r], LED_COLS) else 0))
  }

  lemma {:induction false} PackRowBit(line: string, n: nat, c: nat)
    requires n <= LED_COLS && c < LED_COLS
    ensures Bit(PackRow(line, n), c) <==> c < n && c < |line| && line[c] == '*'
    ensures PackRow(line, n) & ROW_MASK == PackRow(line, n)
    decreases n
  {
    hide Bit, SetIf;
    if n == 0 {
      BitsOfZero(c);
    } else {
      PackRowBit(line, n - 1, c);
      SetIfBits(PackRow(line, n - 1), n - 1, n - 1 < |line| && line[n - 1] == '*', c);
    }
  }

  lemma PackRowBits(line: string, n: nat)
    requires n <= LED_COLS
    ensures forall c :: 0 <= c < LED_COLS ==> (Bit(PackRow(line, n), c) <==> c < n && c < |line| && line[c] == '*')
    ensures PackRow(line, n) & ROW_MASK == PackRow(line, n)
  {
    hide Bit, PackRow;
    PackRowBit(line, n, 0);
    forall c | 0 <= c < LED_COLS ensures Bit(PackRow(line, n), c) <==> c < n && c < |line| && line[c] == '*' {
      PackRowBit(line, n, c);
    }
  }

  lemma ParseDepicts(s: string)
    ensures Depicts(Parse(s), s)
  {
    hide Bit, Mask, PackRow;
    var lines := Lines(s);
    forall r | 0 <= r < LED_ROWS
      ensures Parse(s).rows[r] & ROW_MASK == Parse(s).rows[r]
      ensures forall c :: 0 <= c < LED_COLS ==> (Bit(Parse(s).rows[r], c) <==> Starred(s, r, c))
    {
      if r < |lines| {
        PackRowBits(lines[r], LED_COLS);
      } else {
        forall c | 0 <= c < LED_COLS ensures !Bit(0, c) {
          BitsOfZero(c);
        }
      }
    }
  }

  /** `Glyph::from_ascii`. */
  method FromAscii(s: string) returns (g: Glyph)
    ensures g == Parse(s) && Depicts(g, s)
  {
    hide Bit, Mask, Parse;
    var rows := new bv16[LED_ROWS](_ => 0);
    forall r, c | 0 <= r < LED_ROWS && 0 <= c < LED_COLS ensures !Bit(rows[r], c) {
      BitsOfZero(c);
    }
    var lines := Lines(s);
    var row := 0;
    while row < |lines| && row < LED_ROWS
      invariant 0 <= row <= |lines| && row <= LED_ROWS
      invariant forall r, c :: 0 <= r < LED_ROWS && 0 <= c < LED_COLS ==>
        (Bit(rows[r], c) <==> r < row && c < |lines[r]| && lines[r][c] == '*')
      invariant forall r :: 0 <= r < LED_ROWS ==> rows[r] & ROW_MASK == rows[r]
    {
      var val := RowFromLine(lines[row]);
      rows[row] := val;
      row := row + 1;
    }
    g := Glyph(rows[..]);
    ParseDepicts(s);
    DepictsUnique(g, Parse(s), s);
  }

  lemma DepictsUnique(g: Glyph, h: Glyph, s: string)
    requires Depicts(g, s) && Depicts(h, s)
    ensures g == h
  {
    SamePixelsSameRows(g, h);
    CleanIsMasked(g);
    CleanIsMasked(h);
  }

  function Pixel(row: bv16, c: nat): char
    requires c < LED_COLS
  {
    if Bit(row, c) then '*' else '.'
  }

  function RowText(row: bv16): string {
    seq(LED_COLS, c requires 0 <= c < LED_COLS => Pixel(row, c))
  }

  /** Rows as lines, with a line feed between them but none at the end. */
  function Render(rows: seq<bv16>): string {
    if rows == [] then ""
    else if |rows| == 1 then RowText(rows[0])
    else RowText(rows[0]) + "\n" + Render(rows[1..])
  }

  method AppendRow(s: string, row: bv16) returns (s': string)
    ensures s' == s + RowText(row)
  {
    hide Bit;
    s' := s;
    for col := 0 to LED_COLS
      invariant s' == s + RowText(row)[..col]
    {
      var lit := TestBit(row, col);
      s' := s' + [if lit then '*' else '.'];
    }
    assert RowText(row)[..LED_COLS] == RowText(row);
  }

  /** `Glyph::to_ascii`. */
  method ToAscii(g: Glyph) returns (s: string)
    ensures s == Render(g.rows)
  {
    hide RowText;
    s := "";
    assert g.rows[0..] == g.rows;
    for r := 0 to LED_ROWS
      invariant s + Render(g.rows[r..]) == Render(g.rows)
    {
      RenderStep(g.rows[r..]);
      assert g.rows[r..][1..] == g.rows[r + 1..];
      ghost var before := s;
      s := AppendRow(s, g.rows[r]);
      if r + 1 < LED_ROWS {
        s := s + "\n";
      }
      assert s + Render(g.rows[r + 1..]) == before + Render(g.rows[r..]);
    }
    assert g.rows[LED_ROWS..] == [];
  }

  lemma RenderStep(rows: seq<bv16>)
    requires rows != []
    ensures Render(rows) == RowText(rows[0]) + (if |rows| > 1 then "\n" else "") + Render(rows[1..])
  {
    if |rows| == 1 {
      assert rows[1..] == [];
    }
  }

  lemma RowTextPlain(row: bv16)
    ensures '\n' !in RowText(row) && WithoutCr(RowText(row)) == RowText(row)
  {
    hide Bit;
    assert RowText(row)[LED_COLS - 1] == Pixel(row, LED_COLS - 1);
  }

  lemma {:induction false} LinesOfRender(rows: seq<bv16>)
    requires rows != []
    ensures Lines(Render(rows)) == seq(|rows|, r requires 0 <= r < |rows| => RowText(rows[r]))
    decreases |rows|
  {
    var t := RowText(rows[0]);
    RowTextPlain(rows[0]);
    hide RowText;
    assert |t| == LED_COLS by {
      RowTextLength(rows[0]);
    }
    if |rows| == 1 {
    } else {
      var s := Render(rows);
      assert s == t + "\n" + Render(rows[1..]);
      assert s[..LED_COLS] == t && s[LED_COLS + 1..] == Render(rows[1..]);
      NewlineFirst(s, LED_COLS);
      LinesOfRender(rows[1..]);
    }
  }

  lemma RowTextLength(row: bv16)
    ensures |RowText(row)| == LED_COLS
  {
  }

  /** Parsing what `to_ascii` writes gives the glyph back, less the bits that are no pixels:
      exactly the glyph when it has none. */
  lemma AsciiRoundTrip(g: Glyph)
    ensures Parse(Render(g.rows)) == Masked(g)
    ensures Parse(Render(g.rows)) == g <==> Clean(g)
  {
    var s := Render(g.rows);
    LinesOfRender(g.rows);
    ParseDepicts(s);
    hide Parse, Render;
    CleanIsMasked(g);
    forall r, c | 0 <= r < LED_ROWS && 0 <= c < LED_COLS ensures Lit(Masked(g), r, c) <==> Starred(s, r, c) {
      assert Lines(s)[r] == RowText(g.rows[r]);
      assert Lit(Masked(g), r, c) <==> Lit(g, r, c);
    }
    DepictsUnique(Masked(g), Parse(s), s);
  }

  // ----- The normal form of a grid -----

  function Normal(s: string): string {
    Render(Parse(s).rows)
  }

  /** Nine lines of nine stars and dots, separated by line feeds. */
  predicate IsGrid(s: string) {
    |s| == 89 && forall i :: 0 <= i < 89 ==> if i % 10 == 9 then s[i] == '\n' else s[i] == '*' || s[i] == '.'
  }

  lemma {:induction false} RenderAt(rows: seq<bv16>)
    requires rows != []
    ensures |Render(rows)| == 10 * |rows| - 1
    ensures forall r, c :: 0 <= r < |rows| && 0 <= c < LED_COLS ==> Render(rows)[10 * r + c] == Pixel(rows[r], c)
    ensures forall r :: 0 <= r < |rows| - 1 ==> Render(rows)[10 * r + 9] == '\n'
    decreases |rows|
  {
    hide Bit, Pixel;
    var t := RowText(rows[0]);
    assert forall c :: 0 <= c < LED_COLS ==> t[c] == Pixel(rows[0], c);
    hide RowText;
    if |rows| == 1 {
    } else {
      var rest := Render(rows[1..]);
      RenderAt(rows[1..]);
      var s := Render(rows);
      assert s == t + "\n" + rest;
      forall r, c | 0 <= r < |rows| && 0 <= c < LED_COLS ensures s[10 * r + c] == Pixel(rows[r], c) {
        if r > 0 {
          assert s[10 * r + c] == rest[10 * (r - 1) + c];
        }
      }
      forall r | 0 <= r < |rows| - 1 ensures s[10 * r + 9] == '\n' {
        if r > 0 {
          assert s[10 * r + 9] == rest[10 * (r - 1) + 9];
        }
      }
    }
  }

  lemma RenderIsGrid(g: Glyph)
    ensures IsGrid(Render(g.rows))
  {
    RenderAt(g.rows);
    hide Render;
    var s := Render(g.rows);
    forall i | 0 <= i < 89 ensures if i % 10 == 9 then s[i] == '\n' else s[i] == '*' || s[i] == '.' {
      var r, c := i / 10, i % 10;
      assert i == 10 * r + c;
      if c < 9 {
        assert s[10 * r + c] == Pixel(g.rows[r], c);
      } else {
        assert s[10 * r + 9] == '\n';
      }
    }
  }

  function GridRow(s: string, r: nat): bv16
    requires IsGrid(s) && r < LED_ROWS
  {
    PackRow(s[10 * r..10 * r + 9], LED_COLS)
  }

  lemma GridRowBits(s: string, r: nat, c: nat)
    requires IsGrid(s) && r < LED_ROWS && c < LED_COLS
    ensures GridRow(s, r) & ROW_MASK == GridRow(s, r)
    ensures Pixel(GridRow(s, r), c) == s[10 * r + c]
  {
    hide Bit, PackRow;
    var line := s[10 * r..10 * r + 9];
    PackRowBits(line, LED_COLS);
    assert line[c] == s[10 * r + c];
    assert (10 * r + c) % 10 == c;
  }

  lemma GridIsRendered(s: string) returns (g: Glyph)
    requires IsGrid(s)
    ensures Clean(g) && Render(g.rows) == s
  {
    hide Bit, PackRow, Render, GridRow, Pixel;
    g := Glyph(seq(LED_ROWS, r requires 0 <= r < LED_ROWS => GridRow(s, r)));
    forall r | 0 <= r < LED_ROWS ensures g.rows[r] & ROW_MASK == g.rows[r] {
      GridRowBits(s, r, 0);
    }
    RenderAt(g.rows);
    var t := Render(g.rows);
    forall i | 0 <= i < 89 ensures t[i] == s[i] {
      var r, c := i / 10, i % 10;
      assert i == 10 * r + c;
      if c < 9 {
        GridRowBits(s, r, c);
        assert t[10 * r + c] == Pixel(g.rows[r], c);
      } else {
        assert t[10 * r + 9] == '\n';
      }
    }
  }

  /** Parsing and printing any text gives a normal form: a grid that shows the same stars,
      reached in one pass, and equal to the text if and only if the text was a grid already. */
  lemma NormalForm(s: string)
    ensures IsGrid(Normal(s))
    ensures Normal(Normal(s)) == Normal(s)
    ensures Normal(s) == s <==> IsGrid(s)
    ensures forall r, c :: 0 <= r < LED_ROWS && 0 <= c < LED_COLS ==> (Starred(Normal(s), r, c) <==> Starred(s, r, c))
  {
    var g := Parse(s);
    ParseDepicts(s);
    ParseDepicts(Normal(s));
    AsciiRoundTrip(g);
    RenderIsGrid(g);
    if IsGrid(s) {
      var h := GridIsRendered(s);
      AsciiRoundTrip(h);
    }
    hide Parse, Render, IsGrid, Starred, Bit;
    forall r, c | 0 <= r < LED_ROWS && 0 <= c < LED_COLS ensures Starred(Normal(s), r, c) <==> Starred(s, r, c) {
      assert Lit(g, r, c) <==> Starred(s, r, c);
      assert Lit(Parse(Normal(s)), r, c) <==> Starred(Normal(s), r, c);
    }
  }
}
