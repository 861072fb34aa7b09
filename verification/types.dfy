/**
 * The records the layout engine works on, as declared in src/types.d.ts.
 * Presentation-only fields (Name, Description, Transform, Type, BackIsHidden) are not kept.
 */
module Types {
  import opened Wrappers

  /** Size and resolution of one rendered face, in inches and pixels per inch. */
  datatype RendererConfig = RendererConfig(ppi: real, width: real, height: real, bleed: real)

  /** One card of a deck object: its Tabletop Simulator id and its nickname. */
  datatype Card = Card(cardId: int, nickname: string)

  /** One atlas entry of `CustomDeck`: face and back sheet URLs and the grid of the face sheet. */
  datatype Deck = Deck(faceUrl: string, backUrl: string, numWidth: nat, numHeight: nat, uniqueBack: bool)

  /** A deck object of the save file. */
  datatype ObjectState = ObjectState(
    nickname: string,
    deckIds: seq<int>,
    containedObjects: seq<Card>,
    customDeck: map<string, Deck>)

  /** The bleed a face is printed with: a flat colour or one generated from the card's edges. */
  datatype BleedType = Solid | Gen

  datatype FaceType = Front | Back

  /** A decoded atlas image: only its natural size matters to the layout. */
  datatype Bitmap = Bitmap(url: string, naturalWidth: nat, naturalHeight: nat)

  /** A loaded atlas face together with the size of one grid cell in image pixels. */
  datatype ImageInfo = ImageInfo(
    image: Bitmap,
    cardHeight: real,
    cardWidth: real,
    faceType: FaceType,
    deckIndex: string,
    numWidth: nat,
    numHeight: nat,
    uniqueBack: Option<bool>)

  /** A deck whose grid has at least one column and one row (every Tabletop Simulator deck). */
  predicate GridDeck(d: Deck)
  {
    d.numWidth > 0 && d.numHeight > 0
  }
}
