/**
 * One printed card, from src/components/CardRow.tsx: the front and the back side by side,
 * each in a container rotated a quarter turn, with the atlas cell it shows and the four
 * crop marks at its trim box. Only the geometry is modelled, not the markup.
 */
module CardRow {
  import opened Wrappers
  import opened Types
  import CardRenderer
  import Doodler
  import DeckImages

  /** JavaScript's `%` for a positive divisor: the remainder has the sign of the dividend. */
  function JsRem(a: int, n: int): (r: int)
    requires n > 0
    ensures a >= 0 ==> 0 <= r < n
    ensures a < 0 ==> -n < r <= 0
    ensures -n < a < n ==> r == a
    ensures (a - r) % n == 0
  {
    if -n < a < n then
      MultipleRem(0, n);
      a
    else if a >= 0 then
      RemainderLeavesMultiple(a, n);
      a % n
    else
      RemainderLeavesMultiple(-a, n);
      NegatedMultiple(-a - (-a) % n, n);
      -((-a) % n)
  }

  /** Taking away the remainder leaves a multiple. */
  lemma RemainderLeavesMultiple(a: int, n: int)
    requires n > 0
    ensures (a - a % n) % n == 0
  {
    assert a - a % n == (a / n) * n;
    MultipleRem(a / n, n);
  }

  /** The negation of a multiple is a multiple. */
  lemma NegatedMultiple(m: int, n: int)
    requires n > 0 && m % n == 0
    ensures (-m) % n == 0
  {
    assert m == (m / n) * n;
    assert -m == (-(m / n)) * n;
    MultipleRem(-(m / n), n);
  }

  /** A multiple of n leaves no remainder. */
  lemma MultipleRem(q: int, n: int)
    requires n > 0
    ensures (q * n) % n == 0
  {
    var r := (q * n) % n;
    var d := (q * n) / n;
    assert q * n == d * n + r;
    assert (q - d) * n == q * n - d * n;
    SmallMultipleIsZero(q - d, n);
  }

  /** The only multiple of n in [0, n) is 0. */
  lemma SmallMultipleIsZero(k: int, n: int)
    requires n > 0 && 0 <= k * n < n
    ensures k == 0
  {
    if k > 0 {
      AtLeastOneMultiple(k, n);
    } else if k < 0 {
      AtLeastOneMultiple(-k, n);
    }
  }

  /** A positive multiple of n is at least n. */
  lemma AtLeastOneMultiple(k: int, n: int)
    requires k >= 1 && n > 0
    ensures k * n >= n
  {
    assert k * n == (k - 1) * n + n;
    assert (k - 1) * n >= 0;
  }

  /** A back sheet shared by all cards: `!image.uniqueBack && image.type === "back"`. */
  predicate SharedBack(img: ImageInfo)
  {
    img.uniqueBack != Some(true) && img.faceType == Back
  }

  /** A sheet whose cell is computed from the card index needs a grid with at least one column. */
  predicate HasColumns(img: ImageInfo)
  {
    SharedBack(img) || img.numWidth > 0
  }

  /** `cardPosX`: the column of the card's cell, `idx % 100 % numWidth`; 0 for a shared back. */
  function CardPosX(idx: int, img: ImageInfo): (x: int)
    requires HasColumns(img)
    ensures SharedBack(img) ==> x == 0
    ensures !SharedBack(img) && idx >= 0 ==> 0 <= x < img.numWidth
    ensures !SharedBack(img) && idx < 0 ==> -(img.numWidth as int) < x <= 0
  {
    if SharedBack(img) then 0
    else
      var pos := JsRem(idx, 100);
      JsRem(pos, img.numWidth)
  }

  /** `cardPosY`: the row of the card's cell, `Math.floor(idx % 100 / numWidth)`; 0 for a shared back. */
  function CardPosY(idx: int, img: ImageInfo): (y: int)
    requires HasColumns(img)
    ensures SharedBack(img) ==> y == 0
    ensures !SharedBack(img) && idx >= 0 ==> 0 <= y
  {
    if SharedBack(img) then 0 else JsRem(idx, 100) / img.numWidth
  }

  /**
   * For a non-negative index the cell is the grid position of the index's last two
   * digits, read row by row: the cell gives back `idx % 100`.
   */
  lemma CellRoundTrip(idx: int, img: ImageInfo)
    requires idx >= 0 && !SharedBack(img) && img.numWidth > 0
    ensures CardPosY(idx, img) * img.numWidth + CardPosX(idx, img) == idx % 100
  {
    var pos := idx % 100;
    var nw := img.numWidth;
    assert JsRem(idx, 100) == pos;
    assert CardPosX(idx, img) == pos % nw;
    assert CardPosY(idx, img) == pos / nw;
    assert pos == (pos / nw) * nw + pos % nw;
  }

  /** Two non-negative indices share a cell exactly when their last two digits agree. */
  lemma SameCellIffSamePosition(idx1: int, idx2: int, img: ImageInfo)
    requires idx1 >= 0 && idx2 >= 0 && !SharedBack(img) && img.numWidth > 0
    ensures (CardPosX(idx1, img), CardPosY(idx1, img)) == (CardPosX(idx2, img), CardPosY(idx2, img))
            <==> idx1 % 100 == idx2 % 100
  {
    CellRoundTrip(idx1, img);
    CellRoundTrip(idx2, img);
  }

  /**
   * On a sheet cut into an `numWidth` x `numHeight` grid, the resolved cell lies inside the
   * image: the sprite origin plus one cell stays within it, as long as the index's
   * position is one of the grid's cells.
   */
  lemma GridCellInsideImage(idx: int, info: ImageInfo)
    requires idx >= 0 && !SharedBack(info) && info.numWidth > 0 && info.numHeight > 0
    requires idx % 100 < info.numWidth * info.numHeight
    requires info.cardWidth >= 0.0 && info.cardWidth * (info.numWidth as real) == info.image.naturalWidth as real
    requires info.cardHeight >= 0.0 && info.cardHeight * (info.numHeight as real) == info.image.naturalHeight as real
    ensures CellInsideImage(info, CardPosX(idx, info), CardPosY(idx, info))
  {
    var x := CardPosX(idx, info);
    var y := CardPosY(idx, info);
    CellRoundTrip(idx, info);
    RowWithinGrid(x, y, info.numWidth, info.numHeight, idx % 100);
    CellWithinSheet(info.cardWidth, x, info.numWidth, info.image.naturalWidth as real);
    CellWithinSheet(info.cardHeight, y, info.numHeight, info.image.naturalHeight as real);
  }

  /** The cell a face sheet resolves lies inside the sheet. */
  lemma FrontCellInsideAtlas(idx: int, key: string, deck: Deck, bmp: Bitmap)
    requires GridDeck(deck) && idx >= 0 && idx % 100 < deck.numWidth * deck.numHeight
    ensures var info := DeckImages.FrontInfo(key, deck, bmp);
            CellInsideImage(info, CardPosX(idx, info), CardPosY(idx, info))
  {
    var info := DeckImages.FrontInfo(key, deck, bmp);
    assert info.cardWidth >= 0.0 && info.cardHeight >= 0.0;
    GridCellInsideImage(idx, info);
  }

  /**
   * The cell a back sheet resolves lies inside the sheet: a sheet with a back per card
   * is cut like a face sheet; a shared back resolves to cell (0, 0), the whole image.
   */
  lemma BackCellInsideAtlas(idx: int, key: string, deck: Deck, bmp: Bitmap)
    requires GridDeck(deck) && idx >= 0
    requires deck.uniqueBack ==> idx % 100 < deck.numWidth * deck.numHeight
    ensures var info := DeckImages.BackInfo(key, deck, bmp);
            CellInsideImage(info, CardPosX(idx, info), CardPosY(idx, info))
  {
    var info := DeckImages.BackInfo(key, deck, bmp);
    if deck.uniqueBack {
      assert info.cardWidth >= 0.0 && info.cardHeight >= 0.0;
      GridCellInsideImage(idx, info);
    } else {
      assert CellInsideImage(info, 0, 0);
    }
  }

  /** The cell at column `x`, row `y` of the sheet of `info` (its sprite origin plus one cell) lies inside the image. */
  predicate CellInsideImage(info: ImageInfo, x: int, y: int)
  {
    && 0.0 <= info.cardWidth * (x as real)
    && info.cardWidth * (x as real) + info.cardWidth <= info.image.naturalWidth as real
    && 0.0 <= info.cardHeight * (y as real)
    && info.cardHeight * (y as real) + info.cardHeight <= info.image.naturalHeight as real
  }

  /** A row index whose cells come before position `pos` of an `nw` x `nh` grid is a row of the grid. */
  lemma RowWithinGrid(x: int, y: int, nw: nat, nh: nat, pos: int)
    requires 0 <= x && 0 <= y && y * nw + x == pos && pos < nw * nh
    ensures y < nh
  {
  }

  /** Cell `i` of `n` cells of size `cell` ends within a sheet of size `cell * n`. */
  lemma CellWithinSheet(cell: real, i: int, n: nat, size: real)
    requires 0 <= i < n && cell >= 0.0 && cell * (n as real) == size
    ensures 0.0 <= cell * (i as real) && cell * (i as real) + cell <= size
  {
    assert cell * (i as real) + cell == cell * ((i + 1) as real);
    assert (i + 1) as real <= n as real;
  }

  /** The corner of the container a crop mark is anchored to. */
  datatype Corner = BottomLeft | BottomRight | TopRight | TopLeft

  /** A crop mark: its corner, how far in from both sides it is anchored, and whether it is stacked behind the image. */
  datatype CropMark = CropMark(corner: Corner, inset: real, behindImage: bool)

  /** The anchor of a crop mark in a `width` x `height` container, measured from its top-left corner. */
  function Anchor(m: CropMark, width: real, height: real): (p: (real, real))
  {
    var x := if m.corner == BottomLeft || m.corner == TopLeft then m.inset else width - m.inset;
    var y := if m.corner == TopLeft || m.corner == TopRight then m.inset else height - m.inset;
    (x, y)
  }

  /** The properties of one `Card`. */
  datatype CardProps = CardProps(
    cardHeight: real,
    bleed: real,
    cardWidth: real,
    image: Option<ImageInfo>,
    ppi: real,
    idx: int,
    bleedType: BleedType,
    bleedColor: string,
    flip: int,
    cropLayerBehind: bool,
    cropMarkColor: string)

  /** What one `Card` produces: its container size in inches, the crop-mark colour, the renderer (if any) and the marks. */
  datatype CardView = CardView(
    width: real,
    height: real,
    cropColor: string,
    renderer: Option<CardRenderer.RendererProps>,
    cropMarks: seq<CropMark>)

  /** A card whose image, if any, can resolve its cell. */
  predicate Resolvable(p: CardProps)
  {
    p.image.Some? ==> HasColumns(p.image.value)
  }

  /**
   * `Card`: the container is the card plus bleed on each side with width and height
   * swapped, since the card is drawn a quarter turn round; a renderer only when there
   * is an image; always four crop marks.
   */
  function Card(p: CardProps): (v: CardView)
    requires Resolvable(p)
    ensures v.width == p.cardHeight + 2.0 * p.bleed && v.height == p.cardWidth + 2.0 * p.bleed
    ensures v.cropColor == if p.cropMarkColor == "" then "black" else p.cropMarkColor
    ensures v.renderer.Some? <==> p.image.Some?
    ensures v.renderer.Some? ==>
      var r := v.renderer.value;
      var img := p.image.value;
      && r.width == p.cardHeight && r.height == p.cardWidth && r.ppi == p.ppi && r.bleed == p.bleed
      && r.imageWidth == img.cardWidth && r.imageHeight == img.cardHeight
      && r.cardPosX == CardPosX(p.idx, img) && r.cardPosY == CardPosY(p.idx, img)
      && r.flip == p.flip && r.bleedType == p.bleedType
      && r.bleedColor == (if p.bleedType == Solid then Some(p.bleedColor) else None)
    ensures |v.cropMarks| == 4
    ensures forall m :: m in v.cropMarks ==> m.inset == p.bleed && m.behindImage == p.cropLayerBehind
    ensures (set m | m in v.cropMarks :: m.corner) == {BottomLeft, BottomRight, TopRight, TopLeft}
  {
    var renderer :=
      if p.image.None? then None
      else
        var img := p.image.value;
        Some(CardRenderer.RendererProps(
          p.cardHeight, p.cardWidth, p.ppi, img.cardWidth, img.cardHeight,
          CardPosX(p.idx, img), CardPosY(p.idx, img), p.flip, p.bleed, p.bleedType,
          if p.bleedType == Solid then Some(p.bleedColor) else None));
    var marks := [
      CropMark(BottomLeft, p.bleed, p.cropLayerBehind),
      CropMark(BottomRight, p.bleed, p.cropLayerBehind),
      CropMark(TopRight, p.bleed, p.cropLayerBehind),
      CropMark(TopLeft, p.bleed, p.cropLayerBehind)];
    CardView(
      p.cardHeight + 2.0 * p.bleed,
      p.cardWidth + 2.0 * p.bleed,
      if p.cropMarkColor == "" then "black" else p.cropMarkColor,
      renderer,
      marks)
  }

  /**
   * The crop marks sit at the four corners of the trim box: the rotated card,
   * `cardHeight` wide and `cardWidth` tall, inset by `bleed` in its container.
   */
  lemma CropMarksAtTrimCorners(p: CardProps)
    requires Resolvable(p)
    ensures var v := Card(p);
            var trimCorners := {
              (p.bleed, p.bleed), (p.bleed + p.cardHeight, p.bleed),
              (p.bleed, p.bleed + p.cardWidth), (p.bleed + p.cardHeight, p.bleed + p.cardWidth)};
            (set m | m in v.cropMarks :: Anchor(m, v.width, v.height)) == trimCorners
  {
    var v := Card(p);
    var anchors := set m | m in v.cropMarks :: Anchor(m, v.width, v.height);
    assert Anchor(v.cropMarks[0], v.width, v.height) == (p.bleed, p.bleed + p.cardWidth);
    assert Anchor(v.cropMarks[1], v.width, v.height) == (p.bleed + p.cardHeight, p.bleed + p.cardWidth);
    assert Anchor(v.cropMarks[2], v.width, v.height) == (p.bleed + p.cardHeight, p.bleed);
    assert Anchor(v.cropMarks[3], v.width, v.height) == (p.bleed, p.bleed);
  }

  /**
   * The renderer of a card with an image is given the card's cell: its sprite starts at
   * the cell size times the cell coordinates, and when the cell lies inside the sheet so
   * does a whole cell from there.
   */
  lemma SpriteIsCell(p: CardProps)
    requires Resolvable(p) && p.image.Some?
    ensures var img := p.image.value;
            var r := Card(p).renderer.value;
            var o := CardRenderer.SpriteOrigin(r);
            && r.imageWidth == img.cardWidth && r.imageHeight == img.cardHeight
            && o.0 == img.cardWidth * (CardPosX(p.idx, img) as real)
            && o.1 == img.cardHeight * (CardPosY(p.idx, img) as real)
            && (CellInsideImage(img, CardPosX(p.idx, img), CardPosY(p.idx, img)) ==>
                  0.0 <= o.0 && o.0 + r.imageWidth <= img.image.naturalWidth as real
                  && 0.0 <= o.1 && o.1 + r.imageHeight <= img.image.naturalHeight as real)
  {
    var img := p.image.value;
    var r := Card(p).renderer.value;
    assert r.imageWidth == img.cardWidth && r.imageHeight == img.cardHeight;
    assert r.cardPosX == CardPosX(p.idx, img) && r.cardPosY == CardPosY(p.idx, img);
    SpriteOfCell(r, img, CardPosX(p.idx, img), CardPosY(p.idx, img));
  }

  /** A renderer given the cell size of a sheet and a cell's coordinates starts its sprite at that cell. */
  lemma SpriteOfCell(r: CardRenderer.RendererProps, img: ImageInfo, x: int, y: int)
    requires r.imageWidth == img.cardWidth && r.imageHeight == img.cardHeight
    requires r.cardPosX == x && r.cardPosY == y
    ensures var o := CardRenderer.SpriteOrigin(r);
            && o.0 == img.cardWidth * (x as real) && o.1 == img.cardHeight * (y as real)
            && (CellInsideImage(img, x, y) ==>
                  0.0 <= o.0 && o.0 + r.imageWidth <= img.image.naturalWidth as real
                  && 0.0 <= o.1 && o.1 + r.imageHeight <= img.image.naturalHeight as real)
  {
  }

  /** The sprite of a card on a loaded face or back sheet lies inside that sheet. */
  lemma SpriteInsideAtlas(p: CardProps, key: string, deck: Deck, bmp: Bitmap, front: bool)
    requires GridDeck(deck) && p.idx >= 0
    requires p.image == Some(if front then DeckImages.FrontInfo(key, deck, bmp) else DeckImages.BackInfo(key, deck, bmp))
    requires front || deck.uniqueBack ==> p.idx % 100 < deck.numWidth * deck.numHeight
    ensures Resolvable(p)
    ensures var r := Card(p).renderer.value;
            var o := CardRenderer.SpriteOrigin(r);
            && 0.0 <= o.0 && o.0 + r.imageWidth <= bmp.naturalWidth as real
            && 0.0 <= o.1 && o.1 + r.imageHeight <= bmp.naturalHeight as real
  {
    if front {
      FrontCellInsideAtlas(p.idx, key, deck, bmp);
    } else {
      BackCellInsideAtlas(p.idx, key, deck, bmp);
    }
    assert p.image.value.image == bmp;
    SpriteIsCell(p);
  }

  /** The renderer's canvas, sized by `useDoodler`, is the container scaled to pixels. */
  lemma CanvasMatchesContainer(p: CardProps)
    requires Resolvable(p) && p.image.Some?
    ensures var v := Card(p);
            var r := v.renderer.value;
            var cfg := RendererConfig(r.ppi, r.width, r.height, r.bleed);
            Doodler.TargetWidth(cfg) == v.width * p.ppi && Doodler.TargetHeight(cfg) == v.height * p.ppi
  {
  }

  /** The properties of one `CardRow`. */
  datatype RowProps = RowProps(
    idx: int,
    cropLayerBehind: bool,
    cardHeight: real,
    bleed: real,
    cardWidth: real,
    frontImage: Option<ImageInfo>,
    ppi: real,
    frontBleedType: BleedType,
    frontBleedColor: string,
    backImage: Option<ImageInfo>,
    backBleedType: BleedType,
    backBleedColor: string,
    cropMarkColor: string)

  /** The `Card` properties of the front (`flip` 1) and of the back (`flip` -1) of a row. */
  function RowCards(p: RowProps): (cards: (CardProps, CardProps))
    ensures cards.0.flip == 1 && cards.1.flip == -1
    ensures cards.0.idx == p.idx && cards.1.idx == p.idx
    ensures cards.0.image == p.frontImage && cards.1.image == p.backImage
    ensures cards.0.bleedType == p.frontBleedType && cards.1.bleedType == p.backBleedType
    ensures cards.0.bleedColor == p.frontBleedColor && cards.1.bleedColor == p.backBleedColor
    ensures cards.0.cardHeight == p.cardHeight && cards.0.cardWidth == p.cardWidth
    ensures cards.0.bleed == p.bleed && cards.0.ppi == p.ppi
    ensures cards.0.cropLayerBehind == p.cropLayerBehind && cards.0.cropMarkColor == p.cropMarkColor
    ensures cards.0.(flip := -1, image := p.backImage, bleedType := p.backBleedType,
                         bleedColor := p.backBleedColor) == cards.1
  {
    (CardProps(p.cardHeight, p.bleed, p.cardWidth, p.frontImage, p.ppi, p.idx, p.frontBleedType,
               p.frontBleedColor, 1, p.cropLayerBehind, p.cropMarkColor),
     CardProps(p.cardHeight, p.bleed, p.cardWidth, p.backImage, p.ppi, p.idx, p.backBleedType,
               p.backBleedColor, -1, p.cropLayerBehind, p.cropMarkColor))
  }
}
