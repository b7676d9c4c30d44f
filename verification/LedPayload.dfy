/** The 13-byte payload of the LED characteristic: 81 pixels packed lowest bit first, a fade
    flag above them, a brightness byte and a timeout byte. */
module LedPayload {
  import opened Bits
  import opened Bytes
  import opened Led

  datatype Transition = CrossFade | Immediate

  /** Brightness is a real: f64 rounding and NaN are not modelled. */
  datatype DisplayOptions = DisplayOptions(brightness: real, timeoutMs: nat, transition: Transition)

  const FADE_BIT := 84

  /** Bit `i` of a bitmap, lowest bit of the first byte first. */
  predicate BitAt(buf: seq<bv8>, i: nat)
    requires i < 8 * |buf|
  {
    Bit8(buf[i / 8], i % 8)
  }

  /** Pixel `i`, row by row from the top left. */
  predicate PixelAt(g: Glyph, i: nat)
    requires i < LED_ROWS * LED_COLS
  {
    Lit(g, i / 9, i % 9)
  }

  /** The bitmap holds the glyph's pixels and nothing above them. */
  ghost predicate Packs(buf: seq<bv8>, g: Glyph) {
    && |buf| == LED_BITMAP_BYTES
    && forall i :: 0 <= i < 88 ==> (BitAt(buf, i) <==> i < 81 && PixelAt(g, i))
  }

  lemma SetBitAt(buf: seq<bv8>, pos: nat, i: nat)
    requires pos < 8 * |buf| && i < 8 * |buf|
    ensures BitAt(buf[pos / 8 := buf[pos / 8] | Mask8(pos % 8)], i) <==> i == pos || BitAt(buf, i)
  {
    hide Bit8, Mask8;
    if i / 8 == pos / 8 {
      SetBit8(buf[i / 8], pos % 8, i % 8);
    }
  }

  /** `Glyph::to_bitmap`. */
  method ToBitmap(g: Glyph) returns (bitmap: seq<bv8>)
    ensures Packs(bitmap, g)
  {
    hide Bit8, Mask8, Bit;
    var buf := new bv8[LED_BITMAP_BYTES](_ => 0);
    var pos := 0;
    forall i | 0 <= i < 88 ensures !BitAt(buf[..], i) {
      NoBits8(i % 8);
    }
    for r := 0 to LED_ROWS
      invariant pos == 9 * r
      invariant forall i :: 0 <= i < 88 ==> (BitAt(buf[..], i) <==> i < pos && PixelAt(g, i))
    {
      for col := 0 to LED_COLS
        invariant pos == 9 * r + col
        invariant forall i :: 0 <= i < 88 ==> (BitAt(buf[..], i) <==> i < pos && PixelAt(g, i))
      {
        assert pos / 9 == r && pos % 9 == col;
        var lit := TestBit(g.rows[r], col);
        if lit {
          ghost var before := buf[..];
          buf[pos / 8] := WithBit8(buf[pos / 8], pos % 8);
          assert buf[..] == before[pos / 8 := before[pos / 8] | Mask8(pos % 8)];
          forall i | 0 <= i < 88 ensures BitAt(buf[..], i) <==> i == pos || BitAt(before, i) {
            SetBitAt(before, pos, i);
          }
        }
        pos := pos + 1;
      }
    }
    bitmap := buf[..];
  }

  lemma NoBits8(j: nat)
    requires j < 8
    ensures !Bit8(0, j)
  {
  }

  function BrightnessByte(brightness: real): Byte {
    var b := if brightness < 0.0 then 0.0 else if brightness > 1.0 then 1.0 else brightness;
    (b * 255.0).Floor
  }

  function TimeoutByte(timeoutMs: nat): Byte {
    (if timeoutMs < 25500 then timeoutMs else 25500) / 100
  }

  /** The bitmap part of a payload. */
  function BitmapOf(p: seq<Byte>): seq<bv8>
    requires |p| == LED_DISPLAY_BYTES
  {
    Patterns(p[..LED_BITMAP_BYTES])
  }

  /** What a payload means: bit 84 asks for an immediate change, the bits below 81 are the
      pixels, no other bit of the bitmap is set. */
  ghost predicate IsPayload(p: seq<Byte>, g: Glyph, o: DisplayOptions) {
    && |p| == LED_DISPLAY_BYTES
    && (forall i :: 0 <= i < 88 ==>
          (BitAt(BitmapOf(p), i) <==> if i < 81 then PixelAt(g, i) else i == FADE_BIT && o.transition == Immediate))
    && p == Wire(BitmapOf(p)) + [BrightnessByte(o.brightness), TimeoutByte(o.timeoutMs)]
  }

  /** `build_led_payload`. The fade flag is toggled, which sets it because no pixel uses it. */
  method BuildLedPayload(g: Glyph, o: DisplayOptions) returns (p: seq<Byte>)
    ensures IsPayload(p, g, o)
  {
    hide Bit8, PixelAt;
    var bitmap := ToBitmap(g);
    ghost var plain := bitmap;
    if o.transition == Immediate {
      assert LED_FADE_FLAG == Mask8(4);
      bitmap := bitmap[10 := bitmap[10] ^ LED_FADE_FLAG];
      forall i | 0 <= i < 88 ensures BitAt(bitmap, i) <==> (if i == FADE_BIT then !BitAt(plain, i) else BitAt(plain, i)) {
        if i / 8 == 10 {
          FlipBit8(plain[10], 4, i % 8);
        }
      }
    }
    WireRoundTrip(bitmap);
    hide BrightnessByte, TimeoutByte, Wire, Patterns;
    assert |Wire(bitmap)| == LED_BITMAP_BYTES;
    p := Wire(bitmap) + [BrightnessByte(o.brightness), TimeoutByte(o.timeoutMs)];
    assert p[..LED_BITMAP_BYTES] == Wire(bitmap);
  }

  lemma PixelsOf(g: Glyph, h: Glyph)
    ensures SamePixels(g, h) <==> forall i :: 0 <= i < 81 ==> (PixelAt(g, i) <==> PixelAt(h, i))
  {
    hide Bit;
    if forall i :: 0 <= i < 81 ==> (PixelAt(g, i) <==> PixelAt(h, i)) {
      forall r, c | 0 <= r < LED_ROWS && 0 <= c < LED_COLS ensures Lit(g, r, c) <==> Lit(h, r, c) {
        var i := 9 * r + c;
        assert i / 9 == r && i % 9 == c;
        assert PixelAt(g, i) <==> PixelAt(h, i);
      }
    }
  }

  lemma SameBits(p: seq<bv8>, q: seq<bv8>)
    requires |p| == LED_BITMAP_BYTES && |q| == LED_BITMAP_BYTES
    requires forall i :: 0 <= i < 88 ==> (BitAt(p, i) <==> BitAt(q, i))
    ensures p == q
  {
    hide Bit8;
    forall n | 0 <= n < LED_BITMAP_BYTES ensures p[n] == q[n] {
      forall j | 0 <= j < 8 ensures Bit8(p[n], j) <==> Bit8(q[n], j) {
        var i := 8 * n + j;
        assert i / 8 == n && i % 8 == j;
        assert BitAt(p, i) <==> BitAt(q, i);
      }
      ByteFromBits(p[n], q[n]);
    }
  }

  /** Two payloads are equal exactly when they show the same pixels with the same transition,
      brightness byte and timeout byte: the display can tell all four apart. */
  lemma PayloadsEqualExactly(p: seq<Byte>, g: Glyph, o: DisplayOptions, q: seq<Byte>, h: Glyph, u: DisplayOptions)
    requires IsPayload(p, g, o) && IsPayload(q, h, u)
    ensures p == q <==>
              && Masked(g) == Masked(h)
              && o.transition == u.transition
              && BrightnessByte(o.brightness) == BrightnessByte(u.brightness)
              && TimeoutByte(o.timeoutMs) == TimeoutByte(u.timeoutMs)
  {
    hide PixelAt, Bit8, BrightnessByte, TimeoutByte;
    SamePixelsSameRows(g, h);
    PixelsOf(g, h);
    hide Masked, SamePixels;
    if p == q {
      forall i | 0 <= i < 81 ensures PixelAt(g, i) <==> PixelAt(h, i) {
        assert BitAt(BitmapOf(p), i) <==> BitAt(BitmapOf(q), i);
      }
      assert BitAt(BitmapOf(p), FADE_BIT) <==> BitAt(BitmapOf(q), FADE_BIT);
      assert p[LED_BITMAP_BYTES] == q[LED_BITMAP_BYTES] && p[LED_BITMAP_BYTES + 1] == q[LED_BITMAP_BYTES + 1];
    }
    if SamePixels(g, h) && o.transition == u.transition && BrightnessByte(o.brightness) == BrightnessByte(u.brightness)
       && TimeoutByte(o.timeoutMs) == TimeoutByte(u.timeoutMs) {
      SameBits(BitmapOf(p), BitmapOf(q));
    }
  }

  /** What the display shows of a payload, as text. */
  function Screen(p: seq<Byte>): string
    requires |p| == LED_DISPLAY_BYTES
  {
    seq(89, i requires 0 <= i < 89 => if i % 10 == 9 then '\n' else if BitAt(BitmapOf(p), 9 * (i / 10) + i % 10) then '*' else '.')
  }

  lemma ScreenPixel(p: seq<Byte>, g: Glyph, o: DisplayOptions, r: nat, c: nat)
    requires IsPayload(p, g, o) && r < LED_ROWS && c < LED_COLS
    ensures Screen(p)[10 * r + c] == Pixel(g.rows[r], c)
  {
    hide Bit, Bit8, BrightnessByte, TimeoutByte, BitmapOf;
    var n := 9 * r + c;
    assert n / 9 == r && n % 9 == c && (10 * r + c) / 10 == r && (10 * r + c) % 10 == c;
    assert BitAt(BitmapOf(p), n) <==> PixelAt(g, n);
  }

  /** The display shows what `to_ascii` prints, and so a text grid sent to the display comes
      back from its payload in normal form. */
  lemma ScreenShowsGlyph(p: seq<Byte>, g: Glyph, o: DisplayOptions)
    requires |p| == LED_DISPLAY_BYTES && IsPayload(p, g, o)
    ensures Screen(p) == Render(g.rows)
    ensures forall s :: g == Parse(s) ==> Screen(p) == Normal(s)
  {
    hide IsPayload, Render, BitAt, Pixel, Parse;
    RenderAt(g.rows);
    var s := Render(g.rows);
    forall i | 0 <= i < 89 ensures Screen(p)[i] == s[i] {
      var r, c := i / 10, i % 10;
      assert i == 10 * r + c;
      if c < 9 {
        ScreenPixel(p, g, o, r, c);
        assert s[10 * r + c] == Pixel(g.rows[r], c);
      } else {
        assert s[10 * r + 9] == '\n';
      }
    }
  }

  // ----- The bytes, one by one -----

  /** The brightness in steps of 1/255, rounded down and clamped to the byte. */
  lemma BrightnessExactly(b: real)
    ensures b <= 0.0 ==> BrightnessByte(b) == 0
    ensures b >= 1.0 ==> BrightnessByte(b) == 255
    ensures 0.0 <= b <= 1.0 ==> BrightnessByte(b) as real <= b * 255.0 < BrightnessByte(b) as real + 1.0
  {
  }

  /** The timeout in tenths of a second, rounded down, at most 25.5 seconds. */
  lemma TimeoutExactly(t: nat)
    ensures t >= 25500 ==> TimeoutByte(t) == 255
    ensures t < 25500 ==> 100 * TimeoutByte(t) <= t < 100 * TimeoutByte(t) + 100
  {
  }

  /** Thirteen bytes: pixel (r, c) is bit 9 r + c, lowest bit of the first byte first; bit 84
      asks for an immediate change, no other bit of the first eleven bytes is set; brightness
      and timeout follow. */
  lemma PayloadExactly(p: seq<Byte>, g: Glyph, o: DisplayOptions)
    requires IsPayload(p, g, o)
    ensures |p| == 13 && |BitmapOf(p)| == 11
    ensures forall r, c :: 0 <= r < 9 && 0 <= c < 9 ==> (BitAt(BitmapOf(p), 9 * r + c) <==> Lit(g, r, c))
    ensures forall i :: 81 <= i < 88 ==> (BitAt(BitmapOf(p), i) <==> i == 84 && o.transition == Immediate)
    ensures p[11] == BrightnessByte(o.brightness) && p[12] == TimeoutByte(o.timeoutMs)
  {
    hide Bit8, Bit, BrightnessByte, TimeoutByte;
    forall r, c | 0 <= r < 9 && 0 <= c < 9 ensures BitAt(BitmapOf(p), 9 * r + c) <==> Lit(g, r, c) {
      var i := 9 * r + c;
      assert i / 9 == r && i % 9 == c;
      assert BitAt(BitmapOf(p), i) <==> PixelAt(g, i);
    }
  }
}
