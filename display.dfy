/** The 64x32 framebuffer and the sprite drawing of Dxyn
    (src/chip8.cpp:342-371). A pixel is a `uint32_t` that is either 0 (off)
    or 0xFFFFFFFF (on). Drawing XORs each set sprite bit onto the screen at
    the linear index `(y + row) * 64 + (x + col)`, so a column past the
    right edge lands at the start of the next row; an index past the last
    pixel is outside `video` and is not drawn. The collision flag records
    that some pixel went from on to off. */
module Display {
  import opened Word

  const DISPLAY_WIDTH: nat := 64
  const DISPLAY_HEIGHT: nat := 32
  const VIDEO_SIZE: nat := DISPLAY_WIDTH * DISPLAY_HEIGHT
  const PIXEL_ON: u32 := 0xFFFF_FFFF

  /** Every pixel is fully off or fully on. */
  predicate IsBinary(video: seq<u32>) {
    forall p :: 0 <= p < |video| ==> video[p] == 0 || video[p] == PIXEL_ON
  }

  /** The cleared screen (`memset(video, 0, sizeof(video))`). */
  function Blank(): (video: seq<u32>)
    ensures |video| == VIDEO_SIZE && IsBinary(video)
    ensures forall p :: 0 <= p < VIDEO_SIZE ==> video[p] == 0
  {
    seq(VIDEO_SIZE, _ => 0)
  }

  /** `*screenPixel ^= 0xFFFFFFFF`: XOR with all ones is the complement. */
  function Toggle(pixel: u32): u32 {
    PIXEL_ON - pixel
  }

  /** `spriteByte & (0x80u >> col)` is nonzero: column 0 is the top bit. */
  function SpriteBit(b: u8, col: nat): bool
    requires col < 8
  {
    (b as bv8) & ((0x80 as bv8) >> col) != 0
  }

  /** The index `(yPos + row) * DISPLAY_Width + (xPos + col)` lies inside
      `video`. */
  predicate InFrame(x0: nat, y0: nat, row: nat, col: nat) {
    (y0 + row) * DISPLAY_WIDTH + x0 + col < VIDEO_SIZE
  }

  /** `(yPos + row) * DISPLAY_Width + (xPos + col)` */
  function PixelIndex(x0: nat, y0: nat, row: nat, col: nat): (p: nat)
    requires InFrame(x0, y0, row, col)
    ensures p < VIDEO_SIZE && p == (y0 * DISPLAY_WIDTH + x0) + (row * DISPLAY_WIDTH + col)
  {
    (y0 + row) * DISPLAY_WIDTH + x0 + col
  }

  /** The screen and the collision flag while a sprite is being drawn. */
  datatype Canvas = Canvas(video: seq<u32>, collided: bool)

  /** The first k passes of Dxyn's inner loop body: pass j draws column
      j % 8 of sprite row j / 8 at (x0, y0). */
  function DrawSteps(video: seq<u32>, sprite: seq<u8>, x0: nat, y0: nat, k: nat): (c: Canvas)
    requires |video| == VIDEO_SIZE && k <= 8 * |sprite|
    ensures |c.video| == VIDEO_SIZE
    decreases k
  {
    if k == 0 then Canvas(video, false)
    else
      var c := DrawSteps(video, sprite, x0, y0, k - 1);
      var row, col := (k - 1) / 8, (k - 1) % 8;
      if SpriteBit(sprite[row], col) && InFrame(x0, y0, row, col) then
        var p := PixelIndex(x0, y0, row, col);
        Canvas(c.video[p := Toggle(c.video[p])], c.collided || c.video[p] == PIXEL_ON)
      else c
  }

  /** Drawing a whole sprite: all 8 columns of every row. */
  function DrawSprite(video: seq<u32>, sprite: seq<u8>, x0: nat, y0: nat): (c: Canvas)
    requires |video| == VIDEO_SIZE
    ensures |c.video| == VIDEO_SIZE
  {
    DrawSteps(video, sprite, x0, y0, 8 * |sprite|)
  }

  /** The offset (row, col) is the offset row * 64 + col, for col < 8. */
  lemma OffsetParts(row: nat, col: nat)
    requires col < 8
    ensures (row * DISPLAY_WIDTH + col) / DISPLAY_WIDTH == row
    ensures (row * DISPLAY_WIDTH + col) % DISPLAY_WIDTH == col
  {
  }

  /** Pixel p lies under a set bit of the sprite drawn at (x0, y0): its
      offset from pixel (x0, y0) is row * 64 + col for a set bit (row, col). */
  predicate Covers(sprite: seq<u8>, x0: nat, y0: nat, p: nat) {
    var base := y0 * DISPLAY_WIDTH + x0;
    base <= p &&
    var row, col := (p - base) / DISPLAY_WIDTH, (p - base) % DISPLAY_WIDTH;
    row < |sprite| && col < 8 && SpriteBit(sprite[row], col)
  }

  /** Pixel p is covered, by a pass numbered below k. */
  predicate CoveredBefore(sprite: seq<u8>, x0: nat, y0: nat, p: nat, k: nat) {
    var base := y0 * DISPLAY_WIDTH + x0;
    Covers(sprite, x0, y0, p) && ((p - base) / DISPLAY_WIDTH) * 8 + (p - base) % DISPLAY_WIDTH < k
  }

  /** The pixel drawn by pass (row, col) is the only one that pass covers. */
  lemma PassCell(sprite: seq<u8>, x0: nat, y0: nat, k: nat, p: nat)
    requires 0 < k <= 8 * |sprite| && p < VIDEO_SIZE
    ensures var row, col := (k - 1) / 8, (k - 1) % 8;
      CoveredBefore(sprite, x0, y0, p, k) <==>
        CoveredBefore(sprite, x0, y0, p, k - 1) ||
        (SpriteBit(sprite[row], col) && InFrame(x0, y0, row, col) && p == PixelIndex(x0, y0, row, col))
  {
    var row, col := (k - 1) / 8, (k - 1) % 8;
    var base := y0 * DISPLAY_WIDTH + x0;
    if Covers(sprite, x0, y0, p) {
      var r, c := (p - base) / DISPLAY_WIDTH, (p - base) % DISPLAY_WIDTH;
      if r * 8 + c == k - 1 {
        assert r == row && c == col;
        assert p == base + (r * DISPLAY_WIDTH + c);
      }
    }
    if SpriteBit(sprite[row], col) && InFrame(x0, y0, row, col) && p == PixelIndex(x0, y0, row, col) {
      OffsetParts(row, col);
    }
  }

  /** Pass k - 1 keeps pixel p in step with the passes that cover it. */
  lemma PassVideo(video: seq<u32>, sprite: seq<u8>, x0: nat, y0: nat, k: nat, p: nat)
    requires |video| == VIDEO_SIZE && 0 < k <= 8 * |sprite| && p < VIDEO_SIZE
    requires DrawSteps(video, sprite, x0, y0, k - 1).video[p] ==
      if CoveredBefore(sprite, x0, y0, p, k - 1) then Toggle(video[p]) else video[p]
    ensures DrawSteps(video, sprite, x0, y0, k).video[p] ==
      if CoveredBefore(sprite, x0, y0, p, k) then Toggle(video[p]) else video[p]
  {
    var prev := DrawSteps(video, sprite, x0, y0, k - 1);
    var row, col := (k - 1) / 8, (k - 1) % 8;
    if SpriteBit(sprite[row], col) && InFrame(x0, y0, row, col) {
      var q := PixelIndex(x0, y0, row, col);
      assert DrawSteps(video, sprite, x0, y0, k).video == prev.video[q := Toggle(prev.video[q])];
      if p == q {
        PassPixel(sprite, x0, y0, k);
      } else {
        PassCell(sprite, x0, y0, k, p);
      }
    } else {
      assert DrawSteps(video, sprite, x0, y0, k) == prev;
      PassCell(sprite, x0, y0, k, p);
    }
  }

  /** After k passes, exactly the pixels covered by those passes are
      toggled. */
  lemma {:induction false} DrawStepsVideo(video: seq<u32>, sprite: seq<u8>, x0: nat, y0: nat, k: nat)
    requires |video| == VIDEO_SIZE && k <= 8 * |sprite|
    ensures var c := DrawSteps(video, sprite, x0, y0, k);
      forall p :: 0 <= p < VIDEO_SIZE ==>
        c.video[p] == if CoveredBefore(sprite, x0, y0, p, k) then Toggle(video[p]) else video[p]
    decreases k
  {
    if k > 0 {
      DrawStepsVideo(video, sprite, x0, y0, k - 1);
      forall p | 0 <= p < VIDEO_SIZE
        ensures DrawSteps(video, sprite, x0, y0, k).video[p] ==
          if CoveredBefore(sprite, x0, y0, p, k) then Toggle(video[p]) else video[p]
      {
        PassVideo(video, sprite, x0, y0, k, p);
      }
    }
  }

  /** The pixel that pass k - 1 draws is covered by it and by no earlier pass. */
  lemma PassPixel(sprite: seq<u8>, x0: nat, y0: nat, k: nat)
    requires 0 < k <= 8 * |sprite|
    requires SpriteBit(sprite[(k - 1) / 8], (k - 1) % 8) && InFrame(x0, y0, (k - 1) / 8, (k - 1) % 8)
    ensures var q := PixelIndex(x0, y0, (k - 1) / 8, (k - 1) % 8);
      CoveredBefore(sprite, x0, y0, q, k) && !CoveredBefore(sprite, x0, y0, q, k - 1)
  {
    var row, col := (k - 1) / 8, (k - 1) % 8;
    OffsetParts(row, col);
    assert row * 8 + col == k - 1;
  }

  /** Pass k - 1 reaches a pixel inside the framebuffer under a set bit that is still on. */
  predicate PassHits(video: seq<u32>, sprite: seq<u8>, x0: nat, y0: nat, k: nat)
    requires |video| == VIDEO_SIZE && 0 < k <= 8 * |sprite|
  {
    var row, col := (k - 1) / 8, (k - 1) % 8;
    SpriteBit(sprite[row], col) && InFrame(x0, y0, row, col) &&
    video[PixelIndex(x0, y0, row, col)] == PIXEL_ON
  }

  /** Some pixel covered by the passes before k was on. */
  predicate SomeLitCovered(video: seq<u32>, sprite: seq<u8>, x0: nat, y0: nat, k: nat)
    requires |video| == VIDEO_SIZE
  {
    exists p :: 0 <= p < VIDEO_SIZE && CoveredBefore(sprite, x0, y0, p, k) && video[p] == PIXEL_ON
  }

  /** One more pass sets the flag exactly when its pixel was on at the start. */
  lemma PassCollision(video: seq<u32>, sprite: seq<u8>, x0: nat, y0: nat, k: nat)
    requires |video| == VIDEO_SIZE && 0 < k <= 8 * |sprite|
    ensures DrawSteps(video, sprite, x0, y0, k).collided ==
      (DrawSteps(video, sprite, x0, y0, k - 1).collided || PassHits(video, sprite, x0, y0, k))
  {
    var row, col := (k - 1) / 8, (k - 1) % 8;
    if SpriteBit(sprite[row], col) && InFrame(x0, y0, row, col) {
      var q := PixelIndex(x0, y0, row, col);
      PassPixel(sprite, x0, y0, k);
      var prev := DrawSteps(video, sprite, x0, y0, k - 1);
      DrawStepsVideo(video, sprite, x0, y0, k - 1);
      assert prev.video[q] == video[q];
      assert DrawSteps(video, sprite, x0, y0, k).collided == (prev.collided || prev.video[q] == PIXEL_ON);
    } else {
      assert DrawSteps(video, sprite, x0, y0, k) == DrawSteps(video, sprite, x0, y0, k - 1);
    }
  }

  /** The lit covered pixels after pass k - 1 are those before it and the
      pixel of that pass. */
  lemma PassLitCovered(video: seq<u32>, sprite: seq<u8>, x0: nat, y0: nat, k: nat)
    requires |video| == VIDEO_SIZE && 0 < k <= 8 * |sprite|
    ensures SomeLitCovered(video, sprite, x0, y0, k) ==
      (SomeLitCovered(video, sprite, x0, y0, k - 1) || PassHits(video, sprite, x0, y0, k))
  {
    if SomeLitCovered(video, sprite, x0, y0, k) {
      var p :| 0 <= p < VIDEO_SIZE && CoveredBefore(sprite, x0, y0, p, k) && video[p] == PIXEL_ON;
      PassCell(sprite, x0, y0, k, p);
    }
    if SomeLitCovered(video, sprite, x0, y0, k - 1) {
      var p :| 0 <= p < VIDEO_SIZE && CoveredBefore(sprite, x0, y0, p, k - 1) && video[p] == PIXEL_ON;
      PassCell(sprite, x0, y0, k, p);
    }
    if PassHits(video, sprite, x0, y0, k) {
      PassPixel(sprite, x0, y0, k);
      var q := PixelIndex(x0, y0, (k - 1) / 8, (k - 1) % 8);
      assert CoveredBefore(sprite, x0, y0, q, k) && video[q] == PIXEL_ON;
    }
  }

  /** After k passes, the flag says that a pixel covered by those passes
      was on beforehand. */
  lemma {:induction false} DrawStepsCollision(video: seq<u32>, sprite: seq<u8>, x0: nat, y0: nat, k: nat)
    requires |video| == VIDEO_SIZE && k <= 8 * |sprite|
    ensures DrawSteps(video, sprite, x0, y0, k).collided == SomeLitCovered(video, sprite, x0, y0, k)
    decreases k
  {
    if k > 0 {
      DrawStepsCollision(video, sprite, x0, y0, k - 1);
      PassCollision(video, sprite, x0, y0, k);
      PassLitCovered(video, sprite, x0, y0, k);
    }
  }

  /** The whole sprite: covered pixels are toggled, all others unchanged,
      and the flag is set exactly when a covered pixel was on. */
  lemma DrawSpritePixels(video: seq<u32>, sprite: seq<u8>, x0: nat, y0: nat)
    requires |video| == VIDEO_SIZE
    ensures var c := DrawSprite(video, sprite, x0, y0);
      forall p :: 0 <= p < VIDEO_SIZE ==>
        c.video[p] == if Covers(sprite, x0, y0, p) then Toggle(video[p]) else video[p]
    ensures DrawSprite(video, sprite, x0, y0).collided <==>
      exists p :: 0 <= p < VIDEO_SIZE && Covers(sprite, x0, y0, p) && video[p] == PIXEL_ON
  {
    DrawStepsVideo(video, sprite, x0, y0, 8 * |sprite|);
    DrawStepsCollision(video, sprite, x0, y0, 8 * |sprite|);
    forall p | 0 <= p < VIDEO_SIZE
      ensures CoveredBefore(sprite, x0, y0, p, 8 * |sprite|) == Covers(sprite, x0, y0, p)
    {
    }
  }

  /** A pixel on which a set sprite bit lands while it is lit goes off. */
  lemma DrawClearsCollisions(video: seq<u32>, sprite: seq<u8>, x0: nat, y0: nat, p: nat)
    requires |video| == VIDEO_SIZE && p < VIDEO_SIZE
    requires Covers(sprite, x0, y0, p) && video[p] == PIXEL_ON
    ensures DrawSprite(video, sprite, x0, y0).video[p] == 0
    ensures DrawSprite(video, sprite, x0, y0).collided
  {
    DrawSpritePixels(video, sprite, x0, y0);
  }

  /** Drawing keeps every pixel fully off or fully on. */
  lemma DrawKeepsBinary(video: seq<u32>, sprite: seq<u8>, x0: nat, y0: nat)
    requires |video| == VIDEO_SIZE && IsBinary(video)
    ensures IsBinary(DrawSprite(video, sprite, x0, y0).video)
  {
    DrawSpritePixels(video, sprite, x0, y0);
  }

  /** Drawing the same sprite at the same place twice restores the screen. */
  lemma DrawTwiceRestores(video: seq<u32>, sprite: seq<u8>, x0: nat, y0: nat)
    requires |video| == VIDEO_SIZE
    ensures DrawSprite(DrawSprite(video, sprite, x0, y0).video, sprite, x0, y0).video == video
  {
    var once := DrawSprite(video, sprite, x0, y0).video;
    DrawSpritePixels(video, sprite, x0, y0);
    DrawSpritePixels(once, sprite, x0, y0);
    assert forall p :: 0 <= p < VIDEO_SIZE ==>
      DrawSprite(once, sprite, x0, y0).video[p] == video[p];
  }

  /** On a blank screen the first draw lights exactly the covered pixels and
      reports no collision; drawing it again reports a collision exactly
      when some set bit of the sprite lands inside the framebuffer. */
  lemma DrawOnBlank(sprite: seq<u8>, x0: nat, y0: nat)
    ensures var c := DrawSprite(Blank(), sprite, x0, y0);
      !c.collided &&
      forall p :: 0 <= p < VIDEO_SIZE ==> c.video[p] == if Covers(sprite, x0, y0, p) then PIXEL_ON else 0
    ensures var c := DrawSprite(Blank(), sprite, x0, y0);
      DrawSprite(c.video, sprite, x0, y0).collided <==>
        exists p :: 0 <= p < VIDEO_SIZE && Covers(sprite, x0, y0, p)
  {
    var c := DrawSprite(Blank(), sprite, x0, y0);
    DrawSpritePixels(Blank(), sprite, x0, y0);
    DrawSpritePixels(c.video, sprite, x0, y0);
  }

  /** A set bit past the right edge lands at the start of the next row:
      the last bit of byte 0x01 drawn at (60, 0) lights pixel (3, 1). */
  lemma RightEdgeWraps()
    ensures DrawSprite(Blank(), [0x01], 60, 0).video[DISPLAY_WIDTH + 3] == PIXEL_ON
  {
    DrawOnBlank([0x01], 60, 0);
    assert Covers([0x01], 60, 0, DISPLAY_WIDTH + 3);
  }

  /** A row past the bottom edge is not drawn: two rows of 0x80 at (0, 31)
      light only pixel (0, 31). */
  lemma BottomRowsDropped()
    ensures var c := DrawSprite(Blank(), [0x80, 0x80], 0, 31);
      forall p :: 0 <= p < VIDEO_SIZE ==> c.video[p] == if p == 31 * DISPLAY_WIDTH then PIXEL_ON else 0
  {
    var sprite: seq<u8> := [0x80, 0x80];
    DrawOnBlank(sprite, 0, 31);
    forall p | 0 <= p < VIDEO_SIZE
      ensures Covers(sprite, 0, 31, p) <==> p == 31 * DISPLAY_WIDTH
    {
      if p >= 31 * DISPLAY_WIDTH {
        var d := p - 31 * DISPLAY_WIDTH;
        assert d / DISPLAY_WIDTH == 0 && d % DISPLAY_WIDTH == d;
        assert SpriteBit(0x80, 0);
        assert forall col :: 0 < col < 8 ==> !SpriteBit(0x80, col);
      }
    }
  }

  /** Dxyn as written: the XOR sits inside the collision test
      (src/chip8.cpp:362-367), so only pixels that are already on are
      toggled. Indices past the framebuffer are skipped as in `DrawSteps`. */
  function DrawStepsAsWritten(video: seq<u32>, sprite: seq<u8>, x0: nat, y0: nat, k: nat): (c: Canvas)
    requires |video| == VIDEO_SIZE && k <= 8 * |sprite|
    ensures |c.video| == VIDEO_SIZE
    decreases k
  {
    if k == 0 then Canvas(video, false)
    else
      var c := DrawStepsAsWritten(video, sprite, x0, y0, k - 1);
      var row, col := (k - 1) / 8, (k - 1) % 8;
      if SpriteBit(sprite[row], col) && InFrame(x0, y0, row, col) then
        var p := PixelIndex(x0, y0, row, col);
        if c.video[p] == PIXEL_ON then Canvas(c.video[p := Toggle(c.video[p])], true)
        else c
      else c
  }

  /** As written, drawing never turns a pixel on. */
  lemma {:induction false} AsWrittenNeverLights(video: seq<u32>, sprite: seq<u8>, x0: nat, y0: nat, k: nat)
    requires |video| == VIDEO_SIZE && k <= 8 * |sprite|
    ensures forall p :: 0 <= p < VIDEO_SIZE && DrawStepsAsWritten(video, sprite, x0, y0, k).video[p] == PIXEL_ON ==>
      video[p] == PIXEL_ON
    decreases k
  {
    if k > 0 {
      AsWrittenNeverLights(video, sprite, x0, y0, k - 1);
    }
  }

  /** A one-pixel sprite (0x80) drawn at (0, 0) on a blank screen: as written
      the screen stays blank; the corrected drawing lights pixel 0. */
  lemma AsWrittenCounterexample()
    ensures DrawStepsAsWritten(Blank(), [0x80], 0, 0, 8).video[0] == 0
    ensures DrawSprite(Blank(), [0x80], 0, 0).video[0] == PIXEL_ON
  {
    AsWrittenNeverLights(Blank(), [0x80], 0, 0, 8);
    DrawOnBlank([0x80], 0, 0);
    assert Covers([0x80], 0, 0, 0);
  }
}
