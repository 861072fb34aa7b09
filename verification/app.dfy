/**
 * The page logic of src/App.tsx: page count and per-page slices of the deck object's
 * cards, the atlas lookup of each card, which pages are rendered, the navigation
 * buttons, and the card-size fields linked by a locked aspect ratio.
 */
module App {
  import opened Wrappers
  import opened Types

  // ----- pagination -----

  /** `Math.ceil(a / b)` for whole numbers. */
  function CeilDiv(a: nat, b: nat): (q: nat)
    requires b > 0
    ensures a <= q * b < a + b
    decreases a
  {
    if a == 0 then 0 else if a <= b then 1 else 1 + CeilDiv(a - b, b)
  }

  /** `pageCount`: 0 without a deck object, otherwise the fewest pages of `perPage` cards that hold every deck id. */
  function PageCount(deck: Option<ObjectState>, perPage: nat): (n: nat)
    requires perPage > 0
    ensures deck.None? ==> n == 0
    ensures deck.Some? ==> |deck.value.deckIds| <= n * perPage < |deck.value.deckIds| + perPage
  {
    if deck.None? then 0 else CeilDiv(|deck.value.deckIds|, perPage)
  }

  function Min(a: int, b: int): int
  {
    if a <= b then a else b
  }

  /**
   * Page `p`: `ContainedObjects.slice(p * perPage, p * perPage + perPage)`, clipped at the end
   * of the list. It holds the cards from position `p * perPage` on, `perPage` of them
   * unless the list ends first.
   */
  function PageCards(objects: seq<Card>, p: nat, perPage: nat): (cards: seq<Card>)
    ensures |cards| == if p * perPage >= |objects| then 0 else Min(perPage, |objects| - p * perPage)
    ensures forall k :: 0 <= k < |cards| ==> cards[k] == objects[p * perPage + k]
  {
    var start := Min(p * perPage, |objects|);
    var end := Min(p * perPage + perPage, |objects|);
    objects[start..end]
  }

  /** The cards of pages `0 .. k - 1`, one page after the other. */
  function PagesUpTo(objects: seq<Card>, k: nat, perPage: nat): seq<Card>
  {
    if k == 0 then [] else PagesUpTo(objects, k - 1, perPage) + PageCards(objects, k - 1, perPage)
  }

  /**
   * Consecutive pages are adjacent and disjoint: the first `k` pages together are
   * exactly the first `k * perPage` cards (or all of them).
   */
  lemma {:induction false} PagesArePrefix(objects: seq<Card>, k: nat, perPage: nat)
    ensures PagesUpTo(objects, k, perPage) == objects[..Min(k * perPage, |objects|)]
  {
    if k > 0 {
      PagesArePrefix(objects, k - 1, perPage);
      var start := (k - 1) * perPage;
      NextPageStart(k, perPage);
      var lo, hi := Min(start, |objects|), Min(start + perPage, |objects|);
      assert PageCards(objects, k - 1, perPage) == objects[lo..hi];
      assert objects[..lo] + objects[lo..hi] == objects[..hi];
    }
  }

  /** Page `k - 1` ends where page `k` starts. */
  lemma NextPageStart(k: nat, perPage: nat)
    requires k > 0
    ensures k * perPage == (k - 1) * perPage + perPage
  {
  }

  /** When the deck ids and the contained objects are as many, the pages together show every card once, in order. */
  lemma AllPagesCoverDeck(os: ObjectState, perPage: nat)
    requires perPage > 0 && |os.deckIds| == |os.containedObjects|
    ensures PagesUpTo(os.containedObjects, PageCount(Some(os), perPage), perPage) == os.containedObjects
  {
    PagesArePrefix(os.containedObjects, PageCount(Some(os), perPage), perPage);
  }

  // ----- rendered pages -----

  /** `naturalsUntil(n)`: 0, 1, ..., n - 1. */
  function NaturalsUntil(n: nat): (ps: seq<nat>)
    ensures |ps| == n && forall i :: 0 <= i < n ==> ps[i] == i
  {
    seq(n, i => i)
  }

  /** The filter `p === pageIndex || printMode`, keeping the order. */
  function KeepRendered(ps: seq<nat>, pageIndex: int, printMode: bool): (kept: seq<nat>)
    ensures printMode ==> kept == ps
    ensures forall x :: x in kept <==> x in ps && (x == pageIndex || printMode)
    ensures !printMode ==> forall i :: 0 <= i < |kept| ==> kept[i] == pageIndex
    ensures !printMode && pageIndex !in ps ==> kept == []
    ensures |kept| <= |ps|
  {
    if ps == [] then []
    else if ps[0] == pageIndex || printMode then [ps[0]] + KeepRendered(ps[1..], pageIndex, printMode)
    else KeepRendered(ps[1..], pageIndex, printMode)
  }

  /** A page number occurs at most once among 0 .. n - 1, so the filter keeps it at most once. */
  lemma {:induction false} KeptAtMostOnce(ps: seq<nat>, pageIndex: int)
    requires forall i, j :: 0 <= i < j < |ps| ==> ps[i] != ps[j]
    ensures |KeepRendered(ps, pageIndex, false)| <= 1
  {
    if ps != [] {
      KeptAtMostOnce(ps[1..], pageIndex);
      if ps[0] == pageIndex {
        assert pageIndex !in ps[1..];
      }
    }
  }

  /** Outside print mode the filter over 0 .. n - 1 keeps `pageIndex` alone, or nothing when it is not a page. */
  lemma {:induction false} KeptFromNaturals(n: nat, pageIndex: int)
    ensures KeepRendered(NaturalsUntil(n), pageIndex, false) == if 0 <= pageIndex < n then [pageIndex] else []
  {
    var all := NaturalsUntil(n);
    var kept := KeepRendered(all, pageIndex, false);
    KeptAtMostOnce(all, pageIndex);
    if 0 <= pageIndex < n {
      assert all[pageIndex] == pageIndex;
      assert pageIndex in kept;
      assert kept == [kept[0]];
    } else {
      assert pageIndex !in all;
    }
  }

  /** The pages drawn: only `pageIndex`, or every page `0 .. pageCount - 1` in print mode. */
  function RenderedPages(pageCount: nat, pageIndex: int, printMode: bool): (ps: seq<nat>)
    ensures printMode ==> ps == NaturalsUntil(pageCount)
    ensures !printMode ==> ps == if 0 <= pageIndex < pageCount then [pageIndex] else []
  {
    KeptFromNaturals(pageCount, pageIndex);
    KeepRendered(NaturalsUntil(pageCount), pageIndex, printMode)
  }

  // ----- atlas lookup -----

  function Digit(d: nat): (c: char)
    requires d < 10
  {
    "0123456789"[d]
  }

  /** The decimal digits of a whole number, as `toString` writes them. */
  function DecimalDigits(n: nat): (s: string)
    ensures |s| >= 1
    decreases n
  {
    if n < 10 then [Digit(n)] else DecimalDigits(n / 10) + [Digit(n % 10)]
  }

  /** `n.toString()` for an integer. */
  function DecimalString(n: int): (s: string)
    ensures |s| >= 1
  {
    if n < 0 then "-" + DecimalDigits(-n) else DecimalDigits(n)
  }

  /** Different numbers are written differently. */
  lemma {:induction false} DecimalDigitsInjective(a: nat, b: nat)
    requires DecimalDigits(a) == DecimalDigits(b)
    ensures a == b
    decreases a
  {
    var sa, sb := DecimalDigits(a), DecimalDigits(b);
    if a < 10 && b < 10 {
      assert sa[0] == sb[0];
    } else if a >= 10 && b >= 10 {
      assert sa[..|sa| - 1] == DecimalDigits(a / 10);
      assert sb[..|sb| - 1] == DecimalDigits(b / 10);
      DecimalDigitsInjective(a / 10, b / 10);
      assert sa[|sa| - 1] == sb[|sb| - 1];
    }
  }

  /** `CardID.toString().charAt(0)`: the atlas key as written, the first character of the id. */
  function DeckKeyAsWritten(cardId: int): (key: string)
    ensures |key| == 1 && key[0] == DecimalString(cardId)[0]
  {
    [DecimalString(cardId)[0]]
  }

  /**
   * The atlas key the id encodes: a Tabletop Simulator card id is the atlas index
   * times 100 plus the card's position in the atlas, so the key is the id without its last two digits.
   */
  function DeckKey(cardId: int): (key: string)
    ensures |key| >= 1
    ensures 0 <= cardId < 100 ==> key == "0"
    ensures 100 <= cardId < 200 ==> key == "1"
  {
    DecimalString(cardId / 100)
  }

  /** The key of a card is its atlas index, and cards of different atlases get different keys. */
  lemma DeckKeyRoundTrip(deckIndex: nat, position: nat, deckIndex': nat, position': nat)
    requires position < 100 && position' < 100
    ensures DeckKey(deckIndex * 100 + position) == DecimalString(deckIndex)
    ensures DeckKey(deckIndex * 100 + position) == DeckKey(deckIndex' * 100 + position') <==> deckIndex == deckIndex'
  {
    assert (deckIndex * 100 + position) / 100 == deckIndex;
    assert (deckIndex' * 100 + position') / 100 == deckIndex';
    if DecimalDigits(deckIndex) == DecimalDigits(deckIndex') {
      DecimalDigitsInjective(deckIndex, deckIndex');
    }
  }

  /** For atlas indices 1 to 9 the key as written is the intended one. */
  lemma {:induction false} DeckKeyAsWrittenAgreesBelowTen(deckIndex: nat, position: nat)
    requires 1 <= deckIndex <= 9 && position < 100
    ensures DeckKeyAsWritten(deckIndex * 100 + position) == DeckKey(deckIndex * 100 + position)
  {
    var id := deckIndex * 100 + position;
    assert id / 10 >= 10 && id / 10 / 10 == deckIndex;
    assert DecimalDigits(id)[0] == DecimalDigits(id / 10)[0];
    assert DecimalDigits(id / 10)[0] == DecimalDigits(deckIndex)[0];
    assert id / 100 == deckIndex;
  }

  /** As written, the first card of atlas 10 is looked up in atlas "1", and card 1205 of atlas 12 as well. */
  lemma DeckKeyAsWrittenConfusesAtlases()
    ensures DeckKeyAsWritten(1000) == DeckKeyAsWritten(100) == "1"
    ensures DeckKeyAsWritten(1205) == "1"
    ensures DeckKey(1000) == "10" && DeckKey(100) == "1" && DeckKey(1205) == "12"
  {
    assert DecimalDigits(1000) == DecimalDigits(100) + "0";
    assert DecimalDigits(100) == DecimalDigits(10) + "0";
    assert DecimalDigits(10) == "10";
    assert DecimalDigits(1205) == DecimalDigits(120) + "5";
    assert DecimalDigits(120) == DecimalDigits(12) + "0";
    assert DecimalDigits(12) == "12";
  }

  /** Whether an image is the `face` sheet of atlas `key`. */
  predicate IsImageFor(info: ImageInfo, key: string, face: FaceType)
  {
    info.deckIndex == key && info.faceType == face
  }

  /** `images.find(...)` from position `from` on: the position of the first matching image. */
  function FindFrom(images: seq<ImageInfo>, key: string, face: FaceType, from: nat): (r: Option<nat>)
    requires from <= |images|
    ensures r.Some? ==> from <= r.value < |images| && IsImageFor(images[r.value], key, face)
    ensures r.Some? ==> forall j :: from <= j < r.value ==> !IsImageFor(images[j], key, face)
    ensures r.None? ==> forall j :: from <= j < |images| ==> !IsImageFor(images[j], key, face)
    decreases |images| - from
  {
    if from == |images| then None
    else if IsImageFor(images[from], key, face) then Some(from)
    else FindFrom(images, key, face, from + 1)
  }

  /** The first registry entry for the atlas and face, if any. */
  function FindImage(images: seq<ImageInfo>, key: string, face: FaceType): (r: Option<ImageInfo>)
  {
    match FindFrom(images, key, face, 0)
    case Some(i) => Some(images[i])
    case None => None
  }

  /** A card of the page with the face and back sheets it is drawn from. */
  datatype CardEntry = CardEntry(card: Card, frontImage: Option<ImageInfo>, backImage: Option<ImageInfo>)

  /** Each card with the first face and back entries registered under the key `keyOf` gives its atlas. */
  function EntriesUnder(cards: seq<Card>, images: seq<ImageInfo>, keyOf: int -> string): (rows: seq<CardEntry>)
    ensures |rows| == |cards|
    ensures forall k :: 0 <= k < |rows| ==>
      rows[k] == CardEntry(cards[k], FindImage(images, keyOf(cards[k].cardId), Front),
                           FindImage(images, keyOf(cards[k].cardId), Back))
  {
    seq(|cards|, k requires 0 <= k < |cards| =>
      CardEntry(cards[k], FindImage(images, keyOf(cards[k].cardId), Front),
                FindImage(images, keyOf(cards[k].cardId), Back)))
  }

  /**
   * The rows of page `p` as written: nothing while no image has loaded; otherwise each
   * card of the page with the first face and back entries registered under the first
   * digit of its id.
   */
  function PageEntries(objects: seq<Card>, images: seq<ImageInfo>, p: nat, perPage: nat): (rows: seq<CardEntry>)
    ensures images == [] ==> rows == []
    ensures images != [] ==> |rows| == |PageCards(objects, p, perPage)|
    ensures forall k :: 0 <= k < |rows| ==>
      && rows[k].card == objects[p * perPage + k]
      && rows[k].frontImage == FindImage(images, DeckKeyAsWritten(rows[k].card.cardId), Front)
      && rows[k].backImage == FindImage(images, DeckKeyAsWritten(rows[k].card.cardId), Back)
  {
    if images == [] then [] else EntriesUnder(PageCards(objects, p, perPage), images, DeckKeyAsWritten)
  }

  /** The rows of page `p` with each card looked up under its whole atlas number. */
  function PageEntriesCorrected(objects: seq<Card>, images: seq<ImageInfo>, p: nat, perPage: nat): (rows: seq<CardEntry>)
    ensures images == [] ==> rows == []
    ensures images != [] ==> |rows| == |PageCards(objects, p, perPage)|
    ensures forall k :: 0 <= k < |rows| ==>
      && rows[k].card == objects[p * perPage + k]
      && rows[k].frontImage == FindImage(images, DeckKey(rows[k].card.cardId), Front)
      && rows[k].backImage == FindImage(images, DeckKey(rows[k].card.cardId), Back)
  {
    if images == [] then [] else EntriesUnder(PageCards(objects, p, perPage), images, DeckKey)
  }

  /** The face sheet of atlas 1, 10 cells of 1 x 1. */
  const AtlasOneFace := ImageInfo(Bitmap("face", 10, 1), 1.0, 1.0, Front, "1", 10, 1, None)

  /**
   * Card 1000 is in atlas 10, yet with only atlas 1 loaded the page as written draws it
   * from atlas 1's face sheet; looked up under its whole atlas number it has no face yet.
   */
  lemma PageEntriesUseWrongAtlas()
    ensures PageEntries([Card(1000, "")], [AtlasOneFace], 0, 1)[0].frontImage == Some(AtlasOneFace)
    ensures PageEntriesCorrected([Card(1000, "")], [AtlasOneFace], 0, 1)[0].frontImage == None
  {
    DeckKeyAsWrittenConfusesAtlases();
  }

  // ----- navigation -----

  /** The four navigation buttons: "|<", "Prev", "Next" and ">|". */
  datatype Button = FirstPage | PrevPage | NextPage | LastPage

  /** The `disabled` rules, negated. */
  predicate Enabled(b: Button, pageIndex: int, pageCount: int): (e: bool)
    ensures b == FirstPage ==> (e <==> pageIndex > 0)
    ensures b == PrevPage ==> (e <==> pageIndex != 0)
    ensures b == NextPage ==> (e <==> pageIndex != pageCount - 1)
    ensures b == LastPage ==> (e <==> pageIndex < pageCount - 2)
  {
    match b
    case FirstPage => !(pageIndex <= 0)
    case PrevPage => pageIndex != 0
    case NextPage => pageIndex != pageCount - 1
    case LastPage => !(pageIndex >= pageCount - 2)
  }

  /**
   * The page index after a click: "|<" goes to 0, "Prev" and "Next" step by one, ">|" goes
   * to the last page; a disabled button does nothing. From a page of a non-empty deck
   * no click leaves the pages.
   */
  function Click(b: Button, pageIndex: int, pageCount: int): (next: int)
    ensures !Enabled(b, pageIndex, pageCount) ==> next == pageIndex
    ensures 1 <= pageCount && 0 <= pageIndex < pageCount ==> 0 <= next < pageCount
    ensures Enabled(b, pageIndex, pageCount) && b == FirstPage ==> next == 0
    ensures Enabled(b, pageIndex, pageCount) && b == PrevPage ==> next == pageIndex - 1
    ensures Enabled(b, pageIndex, pageCount) && b == NextPage ==> next == pageIndex + 1
    ensures Enabled(b, pageIndex, pageCount) && b == LastPage ==> next == pageCount - 1
  {
    if !Enabled(b, pageIndex, pageCount) then pageIndex
    else match b
      case FirstPage => 0
      case PrevPage => pageIndex - 1
      case NextPage => pageIndex + 1
      case LastPage => pageCount - 1
  }

  /**
   * On a page of the deck, "|<" and "Prev" are enabled exactly off the first page and
   * "Next" exactly off the last one, while ">|" is already disabled on the page before
   * the last.
   */
  lemma EnabledOnAPage(pageIndex: int, pageCount: int)
    requires 0 <= pageIndex < pageCount
    ensures Enabled(FirstPage, pageIndex, pageCount) <==> pageIndex > 0
    ensures Enabled(PrevPage, pageIndex, pageCount) <==> pageIndex > 0
    ensures Enabled(NextPage, pageIndex, pageCount) <==> pageIndex < pageCount - 1
    ensures Enabled(LastPage, pageIndex, pageCount) <==> pageIndex < pageCount - 2
  {
  }

  /** With no cards there are no pages, yet "Next" stays enabled and moves past them. */
  lemma NextLeavesEmptyDeck()
    ensures Enabled(NextPage, 0, 0) && Click(NextPage, 0, 0) == 1
  {
  }

  // ----- card size and aspect ratio -----

  /** The height the height effect sets: `cardWidth / aspectRatio`. */
  function CorrectedHeight(width: real, aspectRatio: real): (h: real)
    requires aspectRatio != 0.0
    ensures h * aspectRatio == width
  {
    width / aspectRatio
  }

  /** The width the width effect sets: `cardHeight * aspectRatio`. */
  function CorrectedWidth(height: real, aspectRatio: real): (w: real)
    ensures aspectRatio != 0.0 ==> w / aspectRatio == height
  {
    height * aspectRatio
  }

  /**
   * What the two lock effects of one commit see: the lock inputs of the render being
   * committed, and those of the previous commit, which decide whether an effect is due.
   */
  datatype LockState = LockState(
    width: real, height: real, ratio: real, preserve: bool,
    seenWidth: real, seenHeight: real, seenRatio: real, seenPreserve: bool)

  /** The height effect depends on the width, the ratio and the lock switch. */
  predicate HeightEffectDue(s: LockState)
  {
    s.width != s.seenWidth || s.ratio != s.seenRatio || s.preserve != s.seenPreserve
  }

  /** The width effect depends on the height, the ratio and the lock switch. */
  predicate WidthEffectDue(s: LockState)
  {
    s.height != s.seenHeight || s.ratio != s.seenRatio || s.preserve != s.seenPreserve
  }

  /**
   * One commit as written: with the lock on, each due effect sets its field from the
   * values of the same render, so when both are due the width and the height are both
   * replaced at once; the inputs of this render become the ones seen.
   */
  function LockCommitAsWritten(s: LockState): (s': LockState)
    requires s.ratio != 0.0
    ensures s'.ratio == s.ratio && s'.preserve == s.preserve
    ensures s'.seenWidth == s.width && s'.seenHeight == s.height
    ensures s'.seenRatio == s.ratio && s'.seenPreserve == s.preserve
    ensures s.preserve && HeightEffectDue(s) ==> s'.height * s.ratio == s.width
    ensures !(s.preserve && HeightEffectDue(s)) ==> s'.height == s.height
    ensures s.preserve && WidthEffectDue(s) ==> s'.width == s.height * s.ratio
    ensures !(s.preserve && WidthEffectDue(s)) ==> s'.width == s.width
  {
    var h := if s.preserve && HeightEffectDue(s) then CorrectedHeight(s.width, s.ratio) else s.height;
    var w := if s.preserve && WidthEffectDue(s) then CorrectedWidth(s.height, s.ratio) else s.width;
    LockState(w, h, s.ratio, s.preserve, s.width, s.height, s.ratio, s.preserve)
  }

  /**
   * Switching the lock on when the size does not have the ratio makes both effects due:
   * the width and the height trade places every commit, and the size never settles.
   */
  lemma LockOscillates(s: LockState)
    requires s.ratio != 0.0 && s.preserve && !s.seenPreserve
    requires s.width != s.height * s.ratio
    ensures var s1 := LockCommitAsWritten(s);
      && s1.width != s.width && s1.height != s.height
      && LockCommitAsWritten(s1).width == s.width && LockCommitAsWritten(s1).height == s.height
      && LockCommitAsWritten(LockCommitAsWritten(s1)) == s1
  {
    var r := s.ratio;
    var s1 := LockCommitAsWritten(s);
    assert s1.height * r == s.width;
    assert s1.height != s.height;
    var s2 := LockCommitAsWritten(s1);
    assert s2.width == s1.height * r == s.width;
    assert s2.height * r == s1.width == s.height * r;
    assert s2.height == s.height;
  }

  /**
   * When only the width changes in a locked, settled state, the height follows it and
   * the state settles after two commits with the typed width kept.
   */
  lemma TypedWidthSettles(s: LockState)
    requires s.ratio != 0.0 && s.preserve && s.seenPreserve && s.ratio == s.seenRatio
    requires s.width != s.seenWidth && s.height == s.seenHeight
    ensures var s2 := LockCommitAsWritten(LockCommitAsWritten(s));
      && LockCommitAsWritten(s2) == s2
      && s2.width == s.width && s2.height * s.ratio == s.width
  {
    var s1 := LockCommitAsWritten(s);
    var s2 := LockCommitAsWritten(s1);
    assert s1.width == s.width && s1.height * s.ratio == s.width;
    assert s2.height == s1.height;
    assert s2.width == s.width by {
      if WidthEffectDue(s1) {
        assert s2.width == s1.height * s.ratio;
      }
    }
  }

  /**
   * One commit of the intended lock: when both effects are due the height follows the
   * width and the width effect waits, so the two never act on the same render.
   */
  function LockCommit(s: LockState): (s': LockState)
    requires s.ratio != 0.0
    ensures s'.ratio == s.ratio && s'.preserve == s.preserve
    ensures s'.seenWidth == s.width && s'.seenHeight == s.height
    ensures s'.seenRatio == s.ratio && s'.seenPreserve == s.preserve
    ensures s.preserve && HeightEffectDue(s) ==> s'.height * s.ratio == s.width && s'.width == s.width
    ensures s.preserve && !HeightEffectDue(s) && WidthEffectDue(s) ==>
      s'.width == s.height * s.ratio && s'.height == s.height
    ensures !s.preserve || !(HeightEffectDue(s) || WidthEffectDue(s)) ==>
      s'.width == s.width && s'.height == s.height
  {
    if s.preserve && HeightEffectDue(s) then
      LockState(s.width, CorrectedHeight(s.width, s.ratio), s.ratio, s.preserve, s.width, s.height, s.ratio, s.preserve)
    else if s.preserve && WidthEffectDue(s) then
      LockState(CorrectedWidth(s.height, s.ratio), s.height, s.ratio, s.preserve, s.width, s.height, s.ratio, s.preserve)
    else
      LockState(s.width, s.height, s.ratio, s.preserve, s.width, s.height, s.ratio, s.preserve)
  }

  /**
   * With the lock on, the intended lock settles within two commits of any state, and
   * once an effect was due the settled size has the ratio.
   */
  lemma LockCommitSettles(s: LockState)
    requires s.ratio != 0.0 && s.preserve
    ensures var s2 := LockCommit(LockCommit(s));
      && LockCommit(s2) == s2
      && (HeightEffectDue(s) || WidthEffectDue(s) ==> s2.width == s2.height * s.ratio)
  {
    var r := s.ratio;
    var s1 := LockCommit(s);
    var s2 := LockCommit(s1);
    if HeightEffectDue(s) {
      assert s1.width == s.width && s1.height * r == s.width;
      assert !HeightEffectDue(s1);
      if WidthEffectDue(s1) {
        assert s2.width == s1.height * r == s1.width;
      }
      assert s2.width == s1.width && s2.height == s1.height;
    } else if WidthEffectDue(s) {
      assert s1.width == s.height * r && s1.height == s.height;
      if HeightEffectDue(s1) {
        assert s2.height * r == s1.width == s1.height * r;
      }
      assert s2.width == s1.width && s2.height == s1.height;
    }
  }

  /** A 2.5 x 3.5 ratio and a width of 5 give a height of 7. */
  lemma LockExample()
    ensures CorrectedHeight(5.0, 2.5 / 3.5) == 7.0
  {
  }

  /** Entries whose cells have a positive size, as every decoded image has. */
  predicate Decoded(images: seq<ImageInfo>)
  {
    forall i :: 0 <= i < |images| ==> images[i].cardWidth > 0.0 && images[i].cardHeight > 0.0
  }

  /** The first entry of a face, whatever its atlas. */
  function FirstOfFace(images: seq<ImageInfo>, face: FaceType): (r: Option<nat>)
    ensures r.Some? ==> r.value < |images| && images[r.value].faceType == face
    ensures r.Some? ==> forall j :: 0 <= j < r.value ==> images[j].faceType != face
    ensures r.None? ==> forall j :: 0 <= j < |images| ==> images[j].faceType != face
  {
    if images == [] then None
    else if images[0].faceType == face then Some(0)
    else match FirstOfFace(images[1..], face)
      case Some(i) => Some(i + 1)
      case None => None
  }

  /**
   * The ratio the derive effect takes: the cell width over the cell height of the first
   * face entry, or of the first back entry when no face has loaded; none without either.
   */
  function DerivedAspectRatio(images: seq<ImageInfo>): (r: Option<real>)
    requires Decoded(images)
    ensures r.Some? ==> r.value > 0.0
    ensures r.None? <==> FirstOfFace(images, Front).None? && FirstOfFace(images, Back).None?
    ensures FirstOfFace(images, Front).Some? ==>
      var f := images[FirstOfFace(images, Front).value];
      r == Some(f.cardWidth / f.cardHeight)
    ensures FirstOfFace(images, Front).None? && FirstOfFace(images, Back).Some? ==>
      var b := images[FirstOfFace(images, Back).value];
      r == Some(b.cardWidth / b.cardHeight)
  {
    match FirstOfFace(images, Front)
    case Some(i) => Some(images[i].cardWidth / images[i].cardHeight)
    case None =>
      match FirstOfFace(images, Back)
      case Some(i) => Some(images[i].cardWidth / images[i].cardHeight)
      case None => None
  }

  // ----- the application state -----

  /** The state `App` keeps between renders. */
  class Viewer {
    var deck: Option<ObjectState>
    var perPage: nat
    var pageCount: nat
    var pageIndex: int
    var printMode: bool
    var cardWidth: real
    var cardHeight: real
    var aspectRatio: real
    var preserveAspectRatio: bool
    var deriveAspectRatio: bool
    // the lock inputs as of the last commit
    var seenWidth: real
    var seenHeight: real
    var seenRatio: real
    var seenPreserve: bool

    /** At least one card per page and a positive ratio. */
    ghost predicate Valid()
      reads this
    {
      perPage > 0 && aspectRatio > 0.0
    }

    /** The page count matches the deck object and the cards per page. */
    ghost predicate CountCurrent()
      reads this
    {
      perPage > 0 && pageCount == PageCount(deck, perPage)
    }

    /** What the lock effects see at the next commit. */
    function Lock(): LockState
      reads this
    {
      LockState(cardWidth, cardHeight, aspectRatio, preserveAspectRatio, seenWidth, seenHeight, seenRatio, seenPreserve)
    }

    /** The pages drawn for the current state. */
    function Pages(): seq<nat>
      reads this
    {
      RenderedPages(pageCount, pageIndex, printMode)
    }

    /** The initial state: no deck object, page 0 of 0, 4 cards per page, a 2.5 x 3.5 card. */
    constructor ()
      ensures Valid() && CountCurrent()
      ensures deck.None? && pageIndex == 0 && pageCount == 0 && perPage == 4 && !printMode
      ensures cardWidth == 2.5 && cardHeight == 3.5 && aspectRatio == 2.5 / 3.5
      ensures !preserveAspectRatio && !deriveAspectRatio
      ensures !HeightEffectDue(Lock()) && !WidthEffectDue(Lock())
    {
      deck := None;
      perPage := 4;
      pageCount := 0;
      pageIndex := 0;
      printMode := false;
      cardWidth := 2.5;
      cardHeight := 3.5;
      aspectRatio := 2.5 / 3.5;
      preserveAspectRatio := false;
      deriveAspectRatio := false;
      seenWidth := 2.5;
      seenHeight := 3.5;
      seenRatio := 2.5 / 3.5;
      seenPreserve := false;
    }

    /** `changeDeck` and the page-count effect: the page count follows the new deck object; the page index is kept. */
    method ChangeDeck(d: Option<ObjectState>)
      requires Valid()
      modifies this`deck, this`pageCount
      ensures Valid() && CountCurrent()
      ensures deck == d && pageCount == PageCount(d, perPage)
    {
      deck := d;
      pageCount := PageCount(d, perPage);
    }

    /** A new cards-per-page value as written: the page-count effect does not depend on it, so the count stays. */
    method SetPerPageAsWritten(p: nat)
      requires Valid() && p > 0
      modifies this`perPage
      ensures Valid()
      ensures perPage == p && pageCount == old(pageCount)
    {
      perPage := p;
    }

    /** A new cards-per-page value with the page count recomputed for it. */
    method SetPerPage(p: nat)
      requires Valid() && p > 0
      modifies this`perPage, this`pageCount
      ensures Valid() && CountCurrent()
      ensures perPage == p && pageCount == PageCount(deck, p)
    {
      perPage := p;
      pageCount := PageCount(deck, p);
    }

    /** A click on a navigation button. */
    method Press(b: Button)
      modifies this`pageIndex
      ensures pageIndex == Click(b, old(pageIndex), pageCount)
    {
      pageIndex := Click(b, pageIndex, pageCount);
    }

    /** `save`: print mode draws every page; it is switched off again after printing. */
    method SetPrintMode(on: bool)
      modifies this`printMode
      ensures printMode == on
      ensures on ==> Pages() == NaturalsUntil(pageCount)
    {
      printMode := on;
    }

    method SetCardWidth(w: real)
      modifies this`cardWidth
      ensures cardWidth == w
    {
      cardWidth := w;
    }

    method SetCardHeight(h: real)
      modifies this`cardHeight
      ensures cardHeight == h
    {
      cardHeight := h;
    }

    method SetPreserveAspectRatio(on: bool)
      modifies this`preserveAspectRatio
      ensures preserveAspectRatio == on
    {
      preserveAspectRatio := on;
    }

    method SetDeriveAspectRatio(on: bool)
      modifies this`deriveAspectRatio
      ensures deriveAspectRatio == on
    {
      deriveAspectRatio := on;
    }

    /** The two lock effects of a commit, as written. */
    method CommitLockAsWritten()
      requires Valid()
      modifies this`cardWidth, this`cardHeight, this`seenWidth, this`seenHeight, this`seenRatio, this`seenPreserve
      ensures Valid()
      ensures Lock() == LockCommitAsWritten(old(Lock()))
    {
      var w, h := cardWidth, cardHeight;
      if preserveAspectRatio && HeightEffectDue(Lock()) {
        var corrected := CorrectedHeight(w, aspectRatio);
        if cardHeight != corrected {
          cardHeight := corrected;
        }
      }
      if preserveAspectRatio && WidthEffectDue(LockState(w, h, aspectRatio, preserveAspectRatio, seenWidth, seenHeight, seenRatio, seenPreserve)) {
        var corrected := CorrectedWidth(h, aspectRatio);
        if cardWidth != corrected {
          cardWidth := corrected;
        }
      }
      seenWidth, seenHeight, seenRatio, seenPreserve := w, h, aspectRatio, preserveAspectRatio;
    }

    /** The two lock effects of a commit, with the width effect waiting while the height one runs. */
    method CommitLock()
      requires Valid()
      modifies this`cardWidth, this`cardHeight, this`seenWidth, this`seenHeight, this`seenRatio, this`seenPreserve
      ensures Valid()
      ensures Lock() == LockCommit(old(Lock()))
    {
      var w, h := cardWidth, cardHeight;
      if preserveAspectRatio && HeightEffectDue(Lock()) {
        cardHeight := CorrectedHeight(w, aspectRatio);
      } else if preserveAspectRatio && WidthEffectDue(Lock()) {
        cardWidth := CorrectedWidth(h, aspectRatio);
      }
      seenWidth, seenHeight, seenRatio, seenPreserve := w, h, aspectRatio, preserveAspectRatio;
    }

    /**
     * The derive effect: when asked to, the ratio becomes that of the first face entry,
     * or of the first back entry; with neither, or when not asked, it stays.
     */
    method DeriveAspectRatio(images: seq<ImageInfo>)
      requires Valid() && Decoded(images)
      modifies this`aspectRatio
      ensures Valid()
      ensures deriveAspectRatio && DerivedAspectRatio(images).Some? ==> aspectRatio == DerivedAspectRatio(images).value
      ensures !deriveAspectRatio || DerivedAspectRatio(images).None? ==> aspectRatio == old(aspectRatio)
    {
      if deriveAspectRatio {
        var r := DerivedAspectRatio(images);
        if r.Some? {
          aspectRatio := r.value;
        }
      }
    }
  }

  /** Ten cards of one atlas, ids 100 to 109. */
  const TenCards := ObjectState(
    "ten",
    [100, 101, 102, 103, 104, 105, 106, 107, 108, 109],
    seq(10, i requires 0 <= i < 10 => Card(100 + i, "")),
    map["1" := Deck("face", "back", 10, 1, false)])

  /** Ten cards at four per page make three pages of 4, 4 and 2 cards. */
  lemma TenCardsFourPerPage()
    ensures PageCount(Some(TenCards), 4) == 3
    ensures |PageCards(TenCards.containedObjects, 0, 4)| == 4
    ensures |PageCards(TenCards.containedObjects, 1, 4)| == 4
    ensures |PageCards(TenCards.containedObjects, 2, 4)| == 2
  {
  }

  /**
   * As written, going from four to two cards per page after choosing the deck object
   * keeps the page count at 3: pages 0 to 2 show cards 0 to 5 only, and cards 6 to 9
   * are on no page, in print mode either.
   */
  lemma StalePageCountHidesCards()
    ensures PageCount(Some(TenCards), 4) == 3
    ensures PagesUpTo(TenCards.containedObjects, 3, 2) == TenCards.containedObjects[..6]
    ensures TenCards.containedObjects[9] !in PagesUpTo(TenCards.containedObjects, 3, 2)
    ensures PageCount(Some(TenCards), 2) == 5
  {
    PagesArePrefix(TenCards.containedObjects, 3, 2);
    var cards := TenCards.containedObjects;
    assert cards[9].cardId == 109;
    assert forall i :: 0 <= i < 6 ==> cards[..6][i].cardId < 106;
  }
}
