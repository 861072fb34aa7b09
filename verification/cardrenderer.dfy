/**
 * One card face on its canvas, from src/components/cardRenderer.tsx: the layer
 * rules of `CardRenderer` and the generated-bleed pass `drawCardBleed`, which
 * extends the card's outermost pixels outward across the bleed band.
 *
 * The canvas is a pixel buffer `buf[y, x]`: `Length0` rows, `Length1` columns, one
 * `int` per pixel. `getImageData` and `putImageData` are the copying reads and
 * writes below.
 */
module CardRenderer {
  import opened Wrappers
  import opened Types

  /** The coordinate in `[lo, hi]` nearest to `v`. */
  function Nearest(v: int, lo: int, hi: int): (r: int)
    requires lo <= hi
    ensures lo <= r <= hi
    ensures lo <= v <= hi ==> r == v
  {
    if v < lo then lo else if v > hi then hi else v
  }

  /** `getImageData(x, y, n, 1)`: a copy of `n` pixels of row `y`, from column `x`. */
  method GetRow(buf: array2<int>, x: nat, y: nat, n: nat) returns (row: seq<int>)
    requires y < buf.Length0 && x + n <= buf.Length1
    ensures |row| == n
    ensures forall k :: 0 <= k < n ==> row[k] == buf[y, x + k]
  {
    row := [];
    for k := 0 to n
      invariant |row| == k
      invariant forall j :: 0 <= j < k ==> row[j] == buf[y, x + j]
    {
      row := row + [buf[y, x + k]];
    }
  }

  /** `getImageData(x, y, 1, n)`: a copy of `n` pixels of column `x`, from row `y`. */
  method GetColumn(buf: array2<int>, x: nat, y: nat, n: nat) returns (col: seq<int>)
    requires y + n <= buf.Length0 && x < buf.Length1
    ensures |col| == n
    ensures forall k :: 0 <= k < n ==> col[k] == buf[y + k, x]
  {
    col := [];
    for k := 0 to n
      invariant |col| == k
      invariant forall j :: 0 <= j < k ==> col[j] == buf[y + j, x]
    {
      col := col + [buf[y + k, x]];
    }
  }

  /** `putImageData` of a one-row image at `(x, y)`. */
  method PutRow(buf: array2<int>, row: seq<int>, x: nat, y: nat)
    requires y < buf.Length0 && x + |row| <= buf.Length1
    modifies buf
    ensures forall r, c :: 0 <= r < buf.Length0 && 0 <= c < buf.Length1 ==>
      buf[r, c] == if r == y && x <= c < x + |row| then row[c - x] else old(buf[r, c])
  {
    for k := 0 to |row|
      invariant forall r, c :: 0 <= r < buf.Length0 && 0 <= c < buf.Length1 ==>
        buf[r, c] == if r == y && x <= c < x + k then row[c - x] else old(buf[r, c])
    {
      buf[y, x + k] := row[k];
    }
  }

  /** `putImageData` of a one-column image at `(x, y)`. */
  method PutColumn(buf: array2<int>, col: seq<int>, x: nat, y: nat)
    requires y + |col| <= buf.Length0 && x < buf.Length1
    modifies buf
    ensures forall r, c :: 0 <= r < buf.Length0 && 0 <= c < buf.Length1 ==>
      buf[r, c] == if c == x && y <= r < y + |col| then col[r - y] else old(buf[r, c])
  {
    for k := 0 to |col|
      invariant forall r, c :: 0 <= r < buf.Length0 && 0 <= c < buf.Length1 ==>
        buf[r, c] == if c == x && y <= r < y + k then col[r - y] else old(buf[r, c])
    {
      buf[y + k, x] := col[k];
    }
  }

  /**
   * `fillCorner`: every pixel of the `width` x `height` rectangle at `(startX, startY)`
   * becomes `pixel`; the canvas clips what falls outside it, and nothing else changes.
   */
  method FillCorner(buf: array2<int>, startX: nat, startY: nat, width: nat, height: nat, pixel: int)
    modifies buf
    ensures forall r, c :: 0 <= r < buf.Length0 && 0 <= c < buf.Length1 ==>
      buf[r, c] == if startX <= c < startX + width && startY <= r < startY + height then pixel else old(buf[r, c])
  {
    for x := 0 to width
      invariant forall r, c :: 0 <= r < buf.Length0 && 0 <= c < buf.Length1 ==>
        buf[r, c] == if startX <= c < startX + x && startY <= r < startY + height then pixel else old(buf[r, c])
    {
      for y := 0 to height
        invariant forall r, c :: 0 <= r < buf.Length0 && 0 <= c < buf.Length1 ==>
          buf[r, c] ==
            if (startX <= c < startX + x && startY <= r < startY + height) || (c == startX + x && startY <= r < startY + y)
            then pixel else old(buf[r, c])
      {
        if startY + y < buf.Length0 && startX + x < buf.Length1 {
          buf[startY + y, startX + x] := pixel;
        }
      }
    }
  }

  /** Whether pixel `(r, c)` lies in the box of the card plus its bleed on every side. */
  predicate InBox(r: int, c: int, bleed: nat, cardWidth: nat, cardHeight: nat)
  {
    0 <= r < cardHeight + 2 * bleed && 0 <= c < cardWidth + 2 * bleed
  }

  /** Whether pixel `(r, c)` lies in one of the four corner squares of the bleed box. */
  predicate InCorner(r: int, c: int, bleed: nat, cardWidth: nat, cardHeight: nat)
  {
    InBox(r, c, bleed, cardWidth, cardHeight) &&
    (r < bleed || r >= bleed + cardHeight) && (c < bleed || c >= bleed + cardWidth)
  }

  /**
   * The card pixel that pixel `(r, c)` of the bleed box shows after `drawCardBleed`:
   * the nearest point of the card area `[bleed, bleed + cardHeight) x [bleed, bleed + cardWidth)`.
   */
  function BleedSource(r: int, c: int, bleed: nat, cardWidth: nat, cardHeight: nat): (p: (int, int))
    requires cardWidth >= 1 && cardHeight >= 1
    ensures bleed <= p.0 < bleed + cardHeight && bleed <= p.1 < bleed + cardWidth
    ensures bleed <= r < bleed + cardHeight && bleed <= c < bleed + cardWidth ==> p == (r, c)
  {
    (Nearest(r, bleed, bleed + cardHeight - 1), Nearest(c, bleed, bleed + cardWidth - 1))
  }

  /**
   * What the nearest-point rule means band by band: the top and bottom bands repeat the
   * card's first and last rows, the left and right bands its first and last columns,
   * each corner square the card's corner pixel, and the card shows itself.
   */
  lemma BleedSourceRegions(r: int, c: int, bleed: nat, cardWidth: nat, cardHeight: nat)
    requires cardWidth >= 1 && cardHeight >= 1 && InBox(r, c, bleed, cardWidth, cardHeight)
    ensures r < bleed && bleed <= c < bleed + cardWidth ==>
      BleedSource(r, c, bleed, cardWidth, cardHeight) == (bleed, c)
    ensures r >= bleed + cardHeight && bleed <= c < bleed + cardWidth ==>
      BleedSource(r, c, bleed, cardWidth, cardHeight) == (bleed + cardHeight - 1, c)
    ensures bleed <= r < bleed + cardHeight && c < bleed ==>
      BleedSource(r, c, bleed, cardWidth, cardHeight) == (r, bleed)
    ensures bleed <= r < bleed + cardHeight && c >= bleed + cardWidth ==>
      BleedSource(r, c, bleed, cardWidth, cardHeight) == (r, bleed + cardWidth - 1)
    ensures r < bleed && c < bleed ==>
      BleedSource(r, c, bleed, cardWidth, cardHeight) == (bleed, bleed)
    ensures r < bleed && c >= bleed + cardWidth ==>
      BleedSource(r, c, bleed, cardWidth, cardHeight) == (bleed, bleed + cardWidth - 1)
    ensures r >= bleed + cardHeight && c < bleed ==>
      BleedSource(r, c, bleed, cardWidth, cardHeight) == (bleed + cardHeight - 1, bleed)
    ensures r >= bleed + cardHeight && c >= bleed + cardWidth ==>
      BleedSource(r, c, bleed, cardWidth, cardHeight) == (bleed + cardHeight - 1, bleed + cardWidth - 1)
  {
  }

  /**
   * The two loops of `drawCardBleed`: the card's outermost rows and columns are copied
   * and repeated across the four bands. Every band pixel shows its nearest card pixel;
   * the corner squares, the card and the rest of the canvas are untouched.
   */
  method ExtendEdges(buf: array2<int>, bleed: nat, cardWidth: nat, cardHeight: nat)
    requires cardWidth >= 1 && cardHeight >= 1
    requires buf.Length0 >= cardHeight + 2 * bleed && buf.Length1 >= cardWidth + 2 * bleed
    modifies buf
    ensures forall r, c :: 0 <= r < buf.Length0 && 0 <= c < buf.Length1 ==>
      buf[r, c] ==
        if InBox(r, c, bleed, cardWidth, cardHeight) && !InCorner(r, c, bleed, cardWidth, cardHeight)
        then old(buf[BleedSource(r, c, bleed, cardWidth, cardHeight).0, BleedSource(r, c, bleed, cardWidth, cardHeight).1])
        else old(buf[r, c])
  {
    var top := GetRow(buf, bleed, bleed, cardWidth);
    var bottom := GetRow(buf, bleed, cardHeight + bleed - 1, cardWidth);
    var left := GetColumn(buf, bleed, bleed, cardHeight);
    var right := GetColumn(buf, cardWidth + bleed - 1, bleed, cardHeight);

    // extend the top and bottom edges
    for i := 0 to bleed
      invariant forall r, c :: 0 <= r < buf.Length0 && 0 <= c < buf.Length1 ==>
        buf[r, c] ==
          if bleed <= c < bleed + cardWidth && r < i then old(buf[bleed, c])
          else if bleed <= c < bleed + cardWidth && cardHeight + bleed <= r < cardHeight + bleed + i
          then old(buf[cardHeight + bleed - 1, c])
          else old(buf[r, c])
    {
      PutRow(buf, top, bleed, i);
      PutRow(buf, bottom, bleed, cardHeight + bleed + i);
    }

    // extend the left and right edges
    for i := 0 to bleed
      invariant forall r, c :: 0 <= r < buf.Length0 && 0 <= c < buf.Length1 ==>
        buf[r, c] ==
          if bleed <= c < bleed + cardWidth && r < bleed then old(buf[bleed, c])
          else if bleed <= c < bleed + cardWidth && cardHeight + bleed <= r < cardHeight + 2 * bleed
          then old(buf[cardHeight + bleed - 1, c])
          else if bleed <= r < bleed + cardHeight && c < i then old(buf[r, bleed])
          else if bleed <= r < bleed + cardHeight && cardWidth + bleed <= c < cardWidth + bleed + i
          then old(buf[r, cardWidth + bleed - 1])
          else old(buf[r, c])
    {
      PutColumn(buf, left, i, bleed);
      PutColumn(buf, right, cardWidth + bleed + i, bleed);
    }
  }

  /**
   * The four `fillCorner` calls of `drawCardBleed`: each corner square takes the card's
   * corner pixel next to it, and nothing outside the corner squares changes.
   */
  method FillCorners(buf: array2<int>, bleed: nat, cardWidth: nat, cardHeight: nat)
    requires cardWidth >= 1 && cardHeight >= 1
    requires buf.Length0 >= cardHeight + 2 * bleed && buf.Length1 >= cardWidth + 2 * bleed
    modifies buf
    ensures forall r, c :: 0 <= r < buf.Length0 && 0 <= c < buf.Length1 ==>
      buf[r, c] ==
        if InCorner(r, c, bleed, cardWidth, cardHeight)
        then old(buf[BleedSource(r, c, bleed, cardWidth, cardHeight).0, BleedSource(r, c, bleed, cardWidth, cardHeight).1])
        else old(buf[r, c])
  {
    var bottom, right := cardHeight + bleed - 1, cardWidth + bleed - 1;
    FillCorner(buf, 0, 0, bleed, bleed, buf[bleed, bleed]);
    FillCorner(buf, cardWidth + bleed, 0, bleed, bleed, buf[bleed, right]);
    FillCorner(buf, 0, cardHeight + bleed, bleed, bleed, buf[bottom, bleed]);
    FillCorner(buf, cardWidth + bleed, cardHeight + bleed, bleed, bleed, buf[bottom, right]);
  }

  /**
   * `drawCardBleed`: the card occupies `[bleed, bleed + cardWidth)` x `[bleed, bleed + cardHeight)`
   * of a canvas at least `cardWidth + 2 * bleed` by `cardHeight + 2 * bleed` pixels. Every pixel of
   * that box becomes the pixel the card had at the nearest point of its own area (see
   * `BleedSourceRegions` for what that is band by band), so the card itself is unchanged;
   * the canvas outside the box is untouched.
   */
  method DrawCardBleed(buf: array2<int>, bleed: nat, cardWidth: nat, cardHeight: nat)
    requires cardWidth >= 1 && cardHeight >= 1
    requires buf.Length0 >= cardHeight + 2 * bleed && buf.Length1 >= cardWidth + 2 * bleed
    modifies buf
    ensures forall r, c :: 0 <= r < buf.Length0 && 0 <= c < buf.Length1 ==>
      buf[r, c] ==
        if InBox(r, c, bleed, cardWidth, cardHeight)
        then old(buf[BleedSource(r, c, bleed, cardWidth, cardHeight).0, BleedSource(r, c, bleed, cardWidth, cardHeight).1])
        else old(buf[r, c])
  {
    ExtendEdges(buf, bleed, cardWidth, cardHeight);
    FillCorners(buf, bleed, cardWidth, cardHeight);
  }

  /** The properties `CardRenderer` is given (`flip` defaults to 1, `bleed` to 0). */
  datatype RendererProps = RendererProps(
    width: real,
    height: real,
    ppi: real,
    imageWidth: real,
    imageHeight: real,
    cardPosX: int,
    cardPosY: int,
    flip: int,
    bleed: real,
    bleedType: BleedType,
    bleedColor: Option<string>)

  /** The colour the first layer fills the canvas with: `bleedColor || "white"`; an empty colour counts as none. */
  function BackgroundColor(bleedColor: Option<string>): (color: string)
    ensures color != ""
    ensures bleedColor.Some? && bleedColor.value != "" ==> color == bleedColor.value
    ensures bleedColor.None? || bleedColor.value == "" ==> color == "white"
  {
    if bleedColor.Some? && bleedColor.value != "" then bleedColor.value else "white"
  }

  /** Where the card's cell starts in the atlas: the cell size times the cell coordinates. */
  function SpriteOrigin(p: RendererProps): (o: (real, real))
    ensures p.cardPosX == 0 ==> o.0 == 0.0
    ensures p.cardPosY == 0 ==> o.1 == 0.0
  {
    (p.imageWidth * (p.cardPosX as real), p.imageHeight * (p.cardPosY as real))
  }

  /**
   * The sprite starts a whole number of cells from the sheet's corner: dividing the origin
   * by the cell size gives back the cell coordinates, and a cell with non-negative coordinates
   * starts at non-negative offsets.
   */
  lemma SpriteOriginIsCellCorner(p: RendererProps)
    ensures var o := SpriteOrigin(p);
            && (p.imageWidth > 0.0 ==> o.0 / p.imageWidth == p.cardPosX as real)
            && (p.imageHeight > 0.0 ==> o.1 / p.imageHeight == p.cardPosY as real)
            && (p.cardPosX >= 0 && p.imageWidth >= 0.0 ==> o.0 >= 0.0)
            && (p.cardPosY >= 0 && p.imageHeight >= 0.0 ==> o.1 >= 0.0)
  {
  }

  /** The second layer extends the edges only when the bleed is non-zero and the bleed type is "gen". */
  predicate GeneratesBleed(bleed: real, bleedType: BleedType): (g: bool)
    ensures bleed == 0.0 || bleedType != Gen ==> !g
    ensures bleed != 0.0 && bleedType == Gen ==> g
  {
    bleed != 0.0 && bleedType == Gen
  }

  /**
   * The second layer. `bleedPx`, `widthPx` and `heightPx` are the pixel counts of
   * `bleed * ppi`, `width * ppi` and `height * ppi`. Without generated bleed the canvas
   * after this layer is the canvas after the first one.
   */
  method BleedLayer(buf: array2<int>, bleed: real, bleedType: BleedType, bleedPx: nat, widthPx: nat, heightPx: nat)
    requires GeneratesBleed(bleed, bleedType) ==> widthPx >= 1 && heightPx >= 1
    requires GeneratesBleed(bleed, bleedType) ==>
      buf.Length0 >= heightPx + 2 * bleedPx && buf.Length1 >= widthPx + 2 * bleedPx
    modifies buf
    ensures !GeneratesBleed(bleed, bleedType) ==> unchanged(buf)
    ensures GeneratesBleed(bleed, bleedType) ==>
      forall r, c :: 0 <= r < buf.Length0 && 0 <= c < buf.Length1 ==>
        buf[r, c] ==
          if InBox(r, c, bleedPx, widthPx, heightPx)
          then old(buf[BleedSource(r, c, bleedPx, widthPx, heightPx).0, BleedSource(r, c, bleedPx, widthPx, heightPx).1])
          else old(buf[r, c])
  {
    if GeneratesBleed(bleed, bleedType) {
      DrawCardBleed(buf, bleedPx, widthPx, heightPx);
    }
  }
}
