/** The one computation of `put_target` and `put_bang`: the side of the square the
    target (or hit-marker) sprite is resized to, so that its ring matches the hit box. */
module Overlay {
  import opened Numeric

  /** The sprite images are 480 pixels square and their ring is 410 pixels across
      (utils/game_utils.py:96-99). */
  const SpriteCanvas := 480.0
  const SpriteRing := 410.0

  /** `int(size*2*480/410)`: the ring of diameter `2 * size` scaled up to the whole sprite,
      truncated to whole pixels. */
  function SpriteSize(size: real): (r: int)
    ensures 0.0 <= size ==> 0 <= r
    ensures size < 0.0 ==> r <= 0
  {
    Trunc(size * 2.0 * SpriteCanvas / SpriteRing)
  }

  /** For a radius `>= 0`, the ring inside the resized sprite is at most the hit box's
      diameter `2 * size` across, and less than one sprite pixel's worth of ring smaller. */
  lemma SpriteRingMatchesHitBox(size: real)
    requires 0.0 <= size
    ensures 0 <= SpriteSize(size)
    ensures SpriteSize(size) as real * SpriteRing / SpriteCanvas <= 2.0 * size
    ensures 2.0 * size < (SpriteSize(size) + 1) as real * SpriteRing / SpriteCanvas
  {
    var s := SpriteSize(size) as real;
    var scaled := size * 2.0 * SpriteCanvas / SpriteRing;
    assert s <= scaled < s + 1.0;
    assert scaled * SpriteRing / SpriteCanvas == 2.0 * size;
  }

  /** A larger radius never gives a smaller sprite. */
  lemma SpriteSizeMonotone(size: real, larger: real)
    requires size <= larger
    ensures SpriteSize(size) <= SpriteSize(larger)
  {
    var a := size * 2.0 * SpriteCanvas / SpriteRing;
    var b := larger * 2.0 * SpriteCanvas / SpriteRing;
    assert a <= b;
  }

  /** A target of radius 100 is drawn 234 pixels square. */
  lemma SpriteSizeOfHundred()
    ensures SpriteSize(100.0) == 234
  {
  }
}
