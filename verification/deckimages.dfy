/**
 * The image registry of src/hooks/useDeckImages.ts. For every `CustomDeck` entry the
 * effect starts loading the face sheet and the back sheet; each completed load
 * appends one `ImageInfo` to the list, which the effect empties when the deck object changes.
 * Image decoding is not modelled: a load is an event carrying the decoded bitmap.
 */
module DeckImages {
  import opened Wrappers
  import opened Types

  /** The cell size of a face sheet: the image divided by the deck's grid. */
  function FrontInfo(key: string, deck: Deck, bmp: Bitmap): (info: ImageInfo)
    requires GridDeck(deck)
    ensures info.cardWidth * (deck.numWidth as real) == bmp.naturalWidth as real
    ensures info.cardHeight * (deck.numHeight as real) == bmp.naturalHeight as real
    ensures info.faceType == Front && info.deckIndex == key && info.image == bmp
    ensures info.numWidth == deck.numWidth && info.numHeight == deck.numHeight
    ensures info.uniqueBack.None?
  {
    ImageInfo(
      bmp,
      (bmp.naturalHeight as real) / (deck.numHeight as real),
      (bmp.naturalWidth as real) / (deck.numWidth as real),
      Front, key, deck.numWidth, deck.numHeight, None)
  }

  /** The cell size of a back sheet: divided by the grid when every card has its own back, the whole image otherwise. */
  function BackInfo(key: string, deck: Deck, bmp: Bitmap): (info: ImageInfo)
    requires GridDeck(deck)
    ensures deck.uniqueBack ==> info.cardWidth * (deck.numWidth as real) == bmp.naturalWidth as real
    ensures deck.uniqueBack ==> info.cardHeight * (deck.numHeight as real) == bmp.naturalHeight as real
    ensures !deck.uniqueBack ==> info.cardWidth == bmp.naturalWidth as real
    ensures !deck.uniqueBack ==> info.cardHeight == bmp.naturalHeight as real
    ensures info.faceType == Back && info.deckIndex == key && info.image == bmp
    ensures info.numWidth == deck.numWidth && info.numHeight == deck.numHeight
    ensures info.uniqueBack == Some(deck.uniqueBack)
  {
    var w := if deck.uniqueBack then deck.numWidth else 1;
    var h := if deck.uniqueBack then deck.numHeight else 1;
    ImageInfo(
      bmp,
      (bmp.naturalHeight as real) / (h as real),
      (bmp.naturalWidth as real) / (w as real),
      Back, key, deck.numWidth, deck.numHeight, Some(deck.uniqueBack))
  }

  /** A load listener the effect installed: which atlas entry and which face it is for. */
  datatype Listener = Listener(key: string, face: FaceType, deck: Deck)

  /** The entry a listener appends when its image has loaded. */
  function InfoFor(l: Listener, bmp: Bitmap): (info: ImageInfo)
    requires GridDeck(l.deck)
    ensures info.deckIndex == l.key && info.faceType == l.face
    ensures l.face == Front ==> info == FrontInfo(l.key, l.deck, bmp)
    ensures l.face == Back ==> info == BackInfo(l.key, l.deck, bmp)
  {
    if l.face == Front then FrontInfo(l.key, l.deck, bmp) else BackInfo(l.key, l.deck, bmp)
  }

  /** A deck object whose atlas entries all have a grid. */
  predicate GridObject(os: ObjectState)
  {
    forall k :: k in os.customDeck ==> GridDeck(os.customDeck[k])
  }

  /** The listeners one run of the effect installs: a face and a back listener per `CustomDeck` entry. */
  function ListenersFor(os: ObjectState): (ls: set<Listener>)
    ensures forall l :: l in ls <==> l.key in os.customDeck && l.deck == os.customDeck[l.key]
  {
    var ls := (set k | k in os.customDeck :: Listener(k, Front, os.customDeck[k])) +
              (set k | k in os.customDeck :: Listener(k, Back, os.customDeck[k]));
    assert forall l: Listener | l.key in os.customDeck && l.deck == os.customDeck[l.key] ::
      if l.face == Front then l == Listener(l.key, Front, os.customDeck[l.key])
      else l == Listener(l.key, Back, os.customDeck[l.key]);
    ls
  }

  /** Each atlas entry gets exactly one listener per face. */
  lemma OneListenerPerFace(os: ObjectState, l1: Listener, l2: Listener)
    requires l1 in ListenersFor(os) && l2 in ListenersFor(os)
    requires l1.key == l2.key && l1.face == l2.face
    ensures l1 == l2
  {
  }

  /**
   * The hook's state: the list of loaded images and the listeners whose image has not
   * loaded yet, each as often as it was installed.
   */
  datatype Registry = Registry(images: seq<ImageInfo>, listening: multiset<Listener>)

  /**
   * A completed load of a listener that is still installed appends its entry and
   * keeps the earlier ones in order; one installed copy of the listener has fired.
   */
  function Loaded(r: Registry, l: Listener, bmp: Bitmap): (r': Registry)
    requires GridDeck(l.deck)
    ensures l in r.listening ==> r'.images == r.images + [InfoFor(l, bmp)]
    ensures l in r.listening ==> r'.listening + multiset{l} == r.listening
    ensures l !in r.listening ==> r' == r
  {
    if l in r.listening then Registry(r.images + [InfoFor(l, bmp)], r.listening - multiset{l}) else r
  }

  /**
   * The effect as written: the list is emptied and the new listeners are added,
   * but the listeners of earlier runs are never removed: a listener installed again
   * while an earlier copy is pending is pending twice.
   */
  function ObjectStateChangedAsWritten(r: Registry, os: ObjectState): (r': Registry)
    ensures r'.images == []
    ensures r'.listening == r.listening + multiset(ListenersFor(os))
  {
    Registry([], r.listening + multiset(ListenersFor(os)))
  }

  /** The effect with a cleanup: the list is emptied and only the new deck object's listeners remain. */
  function ObjectStateChanged(r: Registry, os: ObjectState): (r': Registry)
    ensures r'.images == []
    ensures forall l :: r'.listening[l] == if l in ListenersFor(os) then 1 else 0
  {
    Registry([], multiset(ListenersFor(os)))
  }

  /**
   * The effect as the app calls it: the argument is the selected deck object, absent
   * until one is chosen, and its `CustomDeck` is read without a check, so with no deck
   * object the effect throws (`None` here).
   */
  function EffectAsWritten(r: Registry, os: Option<ObjectState>): (r': Option<Registry>)
    ensures r'.None? <==> os.None?
    ensures os.Some? ==> r' == Some(ObjectStateChangedAsWritten(r, os.value))
  {
    match os
    case None => None
    case Some(o) => Some(ObjectStateChangedAsWritten(r, o))
  }

  /** On the first render no deck object is selected, so the effect throws at once. */
  lemma FirstRenderThrows()
    ensures EffectAsWritten(Registry([], multiset{}), None).None?
  {
  }

  /** The guarded effect: without a deck object the list is emptied and no listener remains. */
  function Effect(r: Registry, os: Option<ObjectState>): (r': Registry)
    ensures r'.images == []
    ensures os.None? ==> r'.listening == multiset{}
    ensures os.Some? ==> r' == ObjectStateChanged(r, os.value)
  {
    match os
    case None => Registry([], multiset{})
    case Some(o) => ObjectStateChanged(r, o)
  }

  /** With no deck object selected, no load, however late, adds an image. */
  lemma {:induction false} NoDeckObjectNoImages(r: Registry, ls: seq<Listener>, bmps: seq<Bitmap>)
    requires |ls| == |bmps| && forall i :: 0 <= i < |ls| ==> GridDeck(ls[i].deck)
    ensures LoadAll(Effect(r, None), ls, bmps) == Effect(r, None)
  {
    if ls != [] {
      var r0 := Effect(r, None);
      assert Loaded(r0, ls[0], bmps[0]) == r0;
      assert LoadAll(r0, ls, bmps) == LoadAll(r0, ls[1..], bmps[1..]);
      NoDeckObjectNoImages(r, ls[1..], bmps[1..]);
    }
  }

  /** A run of completed loads, in order. */
  function LoadAll(r: Registry, ls: seq<Listener>, bmps: seq<Bitmap>): Registry
    requires |ls| == |bmps| && forall i :: 0 <= i < |ls| ==> GridDeck(ls[i].deck)
    decreases |ls|
  {
    if ls == [] then r else LoadAll(Loaded(r, ls[0], bmps[0]), ls[1..], bmps[1..])
  }

  /** Which atlas entry and face an image is for. */
  function Tag(info: ImageInfo): (string, FaceType)
  {
    (info.deckIndex, info.faceType)
  }

  /**
   * The registry belongs to `os`: every listener is
   * pending at most once and is one of its listeners, every image is for one of its
   * atlas entries and for a face whose listener has already fired, and no atlas face
   * appears twice.
   */
  ghost predicate Consistent(r: Registry, os: ObjectState)
  {
    && (forall l :: l in r.listening ==>
          l.key in os.customDeck && l.deck == os.customDeck[l.key] && r.listening[l] == 1)
    && (forall i :: 0 <= i < |r.images| ==>
          r.images[i].deckIndex in os.customDeck &&
          forall l :: l in r.listening ==> (l.key, l.face) != Tag(r.images[i]))
    && (forall i, j :: 0 <= i < j < |r.images| ==> Tag(r.images[i]) != Tag(r.images[j]))
  }

  /** After a deck change (with cleanup) the registry belongs to the new deck object. */
  lemma ChangeEstablishesConsistency(r: Registry, os: ObjectState)
    ensures Consistent(ObjectStateChanged(r, os), os)
  {
  }

  /** Every load keeps the registry consistent with its deck object. */
  lemma {:induction false} LoadPreservesConsistency(r: Registry, os: ObjectState, l: Listener, bmp: Bitmap)
    requires GridObject(os) && GridDeck(l.deck)
    requires Consistent(r, os)
    ensures Consistent(Loaded(r, l, bmp), os)
  {
    if l in r.listening {
      var r' := Loaded(r, l, bmp);
      var n := |r.images|;
      assert r'.images[n] == InfoFor(l, bmp);
      assert r'.listening[l] == 0;
      forall l' | l' in r'.listening
        ensures l' in r.listening && l' != l
        ensures l'.key in os.customDeck && l'.deck == os.customDeck[l'.key] && r'.listening[l'] == 1
        ensures (l'.key, l'.face) != Tag(r'.images[n])
      {
      }
      forall i | 0 <= i < n
        ensures r'.images[i].deckIndex in os.customDeck
        ensures forall l' :: l' in r'.listening ==> (l'.key, l'.face) != Tag(r'.images[i])
        ensures Tag(r'.images[i]) != Tag(r'.images[n])
      {
        assert r'.images[i] == r.images[i];
      }
    }
  }

  /** A consistent registry holds at most one face entry and one back entry per atlas entry. */
  lemma AtMostOneEntryPerFace(r: Registry, os: ObjectState, i: nat, j: nat)
    requires Consistent(r, os)
    requires i < |r.images| && j < |r.images|
    requires r.images[i].deckIndex == r.images[j].deckIndex && r.images[i].faceType == r.images[j].faceType
    ensures i == j
  {
  }

  /** Two pending listeners, or two pending copies of one, fire in turn and append their entries in that order. */
  lemma TwoPendingLoads(r: Registry, l1: Listener, l2: Listener, bmp1: Bitmap, bmp2: Bitmap)
    requires GridDeck(l1.deck) && GridDeck(l2.deck)
    requires multiset{l1, l2} <= r.listening
    ensures Loaded(Loaded(r, l1, bmp1), l2, bmp2).images == r.images + [InfoFor(l1, bmp1), InfoFor(l2, bmp2)]
  {
    var r1 := Loaded(r, l1, bmp1);
    assert r1.listening + multiset{l1} == r.listening;
    assert l2 in r1.listening by {
      assert r.listening[l2] >= multiset{l1, l2}[l2];
    }
  }

  /** Two entries for the same atlas face make a registry inconsistent with any deck object. */
  lemma RepeatedFaceInconsistent(r: Registry, os: ObjectState, i: nat, j: nat)
    requires i < j < |r.images| && Tag(r.images[i]) == Tag(r.images[j])
    ensures !Consistent(r, os)
  {
  }

  /** Two deck objects that both use the atlas key "1", with different face sheets. */
  const DeckA := Deck("a-face", "a-back", 10, 7, false)
  const DeckB := Deck("b-face", "b-back", 5, 2, false)
  const ObjectA := ObjectState("A", [100], [Card(100, "a")], map["1" := DeckA])
  const ObjectB := ObjectState("B", [100], [Card(100, "b")], map["1" := DeckB])

  /** As written, after switching from A to B the face listeners of both are pending. */
  lemma SwitchLeavesBothFacesPending()
    ensures multiset{Listener("1", Front, DeckA), Listener("1", Front, DeckB)} <=
      ObjectStateChangedAsWritten(ObjectStateChangedAsWritten(Registry([], multiset{}), ObjectA), ObjectB).listening
  {
    assert Listener("1", Front, DeckA) in ListenersFor(ObjectA);
    assert Listener("1", Front, DeckB) in ListenersFor(ObjectB);
  }

  /** As written, after selecting A, B and A again the face listener of A is pending twice. */
  lemma ReselectionLeavesFacePendingTwice()
    ensures ObjectStateChangedAsWritten(ObjectStateChangedAsWritten(
      ObjectStateChangedAsWritten(Registry([], multiset{}), ObjectA), ObjectB), ObjectA).listening[Listener("1", Front, DeckA)] == 2
  {
    assert Listener("1", Front, DeckA) in ListenersFor(ObjectA);
    assert Listener("1", Front, DeckA) !in ListenersFor(ObjectB);
  }

  /**
   * As written, a face sheet of the previous deck object that finishes loading after
   * the switch lands in the new list: switching from A to B and then loading A's and
   * B's face sheets leaves two face entries for atlas "1", A's first.
   */
  lemma StaleLoadLeaksIntoNewDeck(bmpA: Bitmap, bmpB: Bitmap)
    ensures var r0 := ObjectStateChangedAsWritten(ObjectStateChangedAsWritten(Registry([], multiset{}), ObjectA), ObjectB);
            var r2 := Loaded(Loaded(r0, Listener("1", Front, DeckA), bmpA), Listener("1", Front, DeckB), bmpB);
            && r2.images == [FrontInfo("1", DeckA, bmpA), FrontInfo("1", DeckB, bmpB)]
            && Tag(r2.images[0]) == Tag(r2.images[1])
            && !Consistent(r2, ObjectB)
  {
    var lA, lB := Listener("1", Front, DeckA), Listener("1", Front, DeckB);
    var r0 := ObjectStateChangedAsWritten(ObjectStateChangedAsWritten(Registry([], multiset{}), ObjectA), ObjectB);
    SwitchLeavesBothFacesPending();
    TwoPendingLoads(r0, lA, lB, bmpA, bmpB);
    var r2 := Loaded(Loaded(r0, lA, bmpA), lB, bmpB);
    RepeatedFaceInconsistent(r2, ObjectB, 0, 1);
  }

  /**
   * As written, selecting A, then B, then A again before A's first face sheet has
   * loaded leaves A's face listener installed twice: both copies fire and atlas "1" gets
   * two face entries of A.
   */
  lemma ReselectionDuplicatesEntry(bmp1: Bitmap, bmp2: Bitmap)
    ensures var r0 := ObjectStateChangedAsWritten(ObjectStateChangedAsWritten(
              ObjectStateChangedAsWritten(Registry([], multiset{}), ObjectA), ObjectB), ObjectA);
            var l := Listener("1", Front, DeckA);
            var r2 := Loaded(Loaded(r0, l, bmp1), l, bmp2);
            && r0.listening[l] == 2
            && r2.images == [FrontInfo("1", DeckA, bmp1), FrontInfo("1", DeckA, bmp2)]
            && !Consistent(r2, ObjectA)
  {
    var l := Listener("1", Front, DeckA);
    var r0 := ObjectStateChangedAsWritten(ObjectStateChangedAsWritten(
      ObjectStateChangedAsWritten(Registry([], multiset{}), ObjectA), ObjectB), ObjectA);
    ReselectionLeavesFacePendingTwice();
    TwoPendingLoads(r0, l, l, bmp1, bmp2);
    var r2 := Loaded(Loaded(r0, l, bmp1), l, bmp2);
    RepeatedFaceInconsistent(r2, ObjectA, 0, 1);
  }

  /** The loop over the deck object's `CustomDeck`: a face and a back listener per entry. */
  method InstallListeners(os: ObjectState) returns (installed: set<Listener>)
    ensures installed == ListenersFor(os)
  {
    installed := {};
    var deck := os.customDeck;
    var keys := deck.Keys;
    while keys != {}
      invariant keys <= deck.Keys
      invariant forall l :: l in installed <==> l.key in deck - keys && l.deck == deck[l.key]
      decreases keys
    {
      var k :| k in keys;
      assert forall l: Listener | l.key == k && l.deck == deck[k] ::
        if l.face == Front then l == Listener(k, Front, deck[k])
        else l == Listener(k, Back, deck[k]);
      installed := installed + {Listener(k, Front, deck[k]), Listener(k, Back, deck[k])};
      keys := keys - {k};
    }
  }

  /** The hook's state as mutable fields. */
  class DeckImageRegistry {
    var images: seq<ImageInfo>
    var listening: multiset<Listener>

    function State(): Registry
      reads this
    {
      Registry(images, listening)
    }

    /** `useState<ImageInfo[]>([])`: no images, no listener. */
    constructor ()
      ensures images == [] && listening == multiset{}
    {
      images := [];
      listening := multiset{};
    }

    /**
     * The effect for a new selection as written: `setImages([])`, then a face and a back
     * listener per `CustomDeck` entry, installed beside those of earlier runs.
     */
    method ObjectStateChangeAsWritten(os: ObjectState)
      modifies this
      ensures State() == ObjectStateChangedAsWritten(old(State()), os)
    {
      images := [];
      var installed := InstallListeners(os);
      listening := listening + multiset(installed);
    }

    /**
     * The effect with a cleanup and a guard: the listeners of the previous deck object
     * are dropped, and with no deck object none is installed.
     */
    method ObjectStateChange(os: Option<ObjectState>)
      modifies this
      ensures State() == Effect(old(State()), os)
    {
      images := [];
      var installed: set<Listener> := {};
      if os.Some? {
        installed := InstallListeners(os.value);
      }
      listening := multiset(installed);
    }

    /** A load listener fires: `addImage` appends the entry it builds. */
    method ImageLoad(l: Listener, bmp: Bitmap)
      requires GridDeck(l.deck)
      modifies this
      ensures State() == Loaded(old(State()), l, bmp)
    {
      if l in listening {
        images := images + [InfoFor(l, bmp)];
        listening := listening - multiset{l};
      }
    }
  }
}
