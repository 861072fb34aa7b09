# cardrelay, modelled in Dafny

cardrelay turns a Tabletop Simulator deck object into printable gutter-fold sheets.
Each row of a sheet holds a card's front and its back side by side. Both are drawn a
quarter turn round, so the row can be folded down the middle. This project models the
page logic and the card geometry of the application in Dafny and proves properties of it.

- `App` (app.dfy) covers the page logic of `App`:
  - the page count and the cards of each page;
  - which pages are rendered, including in print mode;
  - the atlas lookup of each card by its deck key;
  - the four navigation buttons;
  - the card-size fields linked by a locked or derived aspect ratio.

  The `Viewer` class holds the state the component keeps between renders.
- `CardRow` (cardrow.dfy) covers `CardRow` and `Card`:
  - the rotated container and its crop marks;
  - the atlas cell a card index resolves to;
  - the properties handed to the renderer.
- `CardRenderer` (cardrenderer.dfy) covers the layer rules of `CardRenderer` and the
  generated-bleed pass `drawCardBleed`/`fillCorner`. The latter works in place on a
  pixel buffer (`array2<int>`). Its contract says that every pixel of the bleed box
  becomes the card's pixel at the nearest point of the card area.
- `DeckImages` (deckimages.dfy) covers the image registry of `useDeckImages`: the
  per-atlas load listeners and the list of loaded sheets.
- `Doodler` (doodler.dfy) covers the canvas rule of `useDoodler`: keep, create or
  recreate the drawing surface.
- `Debounce` (debounce.dfy) covers `useDebouncedState`.
- `Input` (input.dfy) covers the reducer and the clamping change handler of `useInput`.
- `Clamping` (clamp.dfy) covers `clamp`, over numbers that may be infinite.
- `Types` and `Wrappers` (types.dfy, wrappers.dfy) hold the records of `types.d.ts`
  and an `Option` type for `undefined`.

React state and effects are modelled as classes whose methods are the state updates.
Each method is specified by a pure function, and the lemmas are stated about those
functions. Timers, image decoding, the drawing library and the browser are parameters
or events:
- a load is a call carrying the decoded bitmap;
- the debounce timer firing is the `Fire` step;
- a drawing surface is a record with a size.

The model follows the code. Where the code is evidently wrong (see "## Findings") the
model has both a member as written and a corrected one, named in the Findings table:
- The page lookup as written is `App.PageEntries`; `App.PageEntriesCorrected` uses the
  whole atlas number as the key.
- The registry effect as written is `DeckImages.ObjectStateChangedAsWritten` (method
  `ObjectStateChangeAsWritten`); `DeckImages.Effect` (method `ObjectStateChange`) adds the
  missing cleanup and the guard for no deck object.
- The aspect-ratio lock as written is `App.LockCommitAsWritten` (method
  `CommitLockAsWritten`); `App.LockCommit` (method `CommitLock`) lets one effect run per commit.
- The page count as written is `App.Viewer.SetPerPageAsWritten`; `App.Viewer.SetPerPage`
  recomputes it.

Where the code and its description differ, the model follows the code:
- Choosing a new deck object does not reset the page index (`App.Viewer.ChangeDeck`).
- Nothing clamps the page index to the page count.
- The second layer sets a blur filter before writing the generated bleed. The bleed is
  written with `putImageData`, which ignores canvas filters. So the bleed is a sharp
  extension of the edge pixels, and the model has no blur step.
- The `reset` action keeps the current value. It does not restore the initial one.
- An input attribute `min="0"` or `max="0"` counts as no bound, because `0` is falsy.

## Model

| member | source | states |
|---|---|---|
| Clamping.Min | src/util/clamp.ts:2 | `Math.min` is at most both arguments and is one of them |
| Clamping.Max | src/util/clamp.ts:2 | `Math.max` is at least both arguments and is one of them |
| Clamping.Clamp | src/util/clamp.ts:1-3 | the result lies between `min` and `max` when `min <= max`; a value within the bounds is returned unchanged; above `max` gives `max`; below `min` gives `min`; inverted bounds give `min`; the result is always one of the three arguments |
| Clamping.ClampIdempotent | src/util/clamp.ts:1-3 | clamping twice equals clamping once |
| Input.InputReducer | src/hooks/useInput.ts:13-22 | `set` replaces the state with its value; `reset` leaves the state as it is |
| Input.UpperBound | src/hooks/useInput.ts:39 | the upper bound is infinite exactly when the attribute is absent or 0, and otherwise the attribute's value |
| Input.LowerBound | src/hooks/useInput.ts:40 | the lower bound is minus infinity exactly when the attribute is absent or 0, and otherwise the attribute's value |
| Input.ClampedNumber | src/hooks/useInput.ts:37-41 | the stored number is the finite clamp of the typed value; with no effective bound it is the value; with only a minimum it is raised to the minimum; with both bounds (`min <= max`) it lies between them |
| Input.OnInputValue | src/hooks/useInput.ts:33-44 | a number input stores its clamped value; any other input stores its text unchanged |
| Input.ZeroMinimumIsNotEnforced | src/hooks/useInput.ts:40 | with `min` 0, a negative entry is stored as typed |
| Input.NonZeroMinimumIsEnforced | src/hooks/useInput.ts:37-41 | a non-zero `min` is a lower bound on every stored value, whatever the `max` attribute |
| Input.InputHook.constructor | src/hooks/useInput.ts:27 | the hook starts holding its initial value |
| Input.InputHook.Dispatch | src/hooks/useInput.ts:27 | the new held value is the reducer applied to the old one |
| Input.InputHook.SetValue | src/hooks/useInput.ts:29 | the held value becomes exactly the given one |
| Input.InputHook.ResetValue | src/hooks/useInput.ts:47-49 | the held value does not change |
| Input.InputHook.OnInput | src/hooks/useInput.ts:33-44 | the handler stores the clamped number, or the text of a non-number input |
| Debounce.Applied | src/hooks/useDebounce.ts:29-33 | a function update is applied to the previous value; a plain value replaces it |
| Debounce.Init | src/hooks/useDebounce.ts:16-17 | the hook starts with its initial value and no running timer |
| Debounce.Set | src/hooks/useDebounce.ts:20-38 | the setter cancels any pending update and schedules the new one; the value does not change yet |
| Debounce.Fired | src/hooks/useDebounce.ts:26-35 | firing applies the pending update to the held value and clears the timer; with no timer nothing changes |
| Debounce.Unmounted | src/hooks/useDebounce.ts:41-47 | unmounting clears the timer and keeps the value |
| Debounce.BurstThenFire | src/hooks/useDebounce.ts:20-35 | after any burst of setter calls the value is unchanged and only the last call is pending; firing then applies the last update alone |
| Debounce.FiringAfterUnmountIsNoOp | src/hooks/useDebounce.ts:41-47 | after unmounting, firing changes nothing |
| Debounce.DebouncedState.constructor | src/hooks/useDebounce.ts:16-17 | the fields start as the initial state |
| Debounce.DebouncedState.SetDebouncedValue | src/hooks/useDebounce.ts:20-38 | the new state is `Set` of the old one, and the value is unchanged |
| Debounce.DebouncedState.Fire | src/hooks/useDebounce.ts:26-35 | the new state is `Fired` of the old one |
| Debounce.DebouncedState.Unmount | src/hooks/useDebounce.ts:41-47 | the new state is `Unmounted` of the old one |
| Doodler.CreateSurface | src/hooks/useDoodler.ts:25-36 | a surface is created exactly when the canvas is mounted, and it is sized `(size + 2 * bleed) * ppi` |
| Doodler.NextSurface | src/hooks/useDoodler.ts:11-37 | a surface that fits is kept; a missing or wrongly sized surface is replaced by a new one; any result fits the configuration; there is none exactly when no surface fits and no canvas is mounted |
| Doodler.NextSurfaceSettles | src/hooks/useDoodler.ts:17-23 | running the rule again with the same configuration keeps the surface |
| Doodler.ConfigChanged | src/hooks/useDoodler.ts:11-39 | a configuration change keeps the current surface and schedules the rule; when the timer fires the surface becomes the one the rule gives for the new configuration |
| Doodler.SurfaceFollowsLastConfig | src/hooks/useDoodler.ts:9-39 | after any run of configuration changes and one firing, the surface exists and is sized for the last configuration |
| DeckImages.FrontInfo | src/hooks/useDeckImages.ts:16-29 | a face sheet's cell is the image divided by the grid, and the entry carries its atlas key, face, grid and no `uniqueBack` |
| DeckImages.BackInfo | src/hooks/useDeckImages.ts:33-49 | a back sheet's cell is the image divided by the grid when backs are unique, otherwise the whole image; the entry carries `uniqueBack` |
| DeckImages.InfoFor | src/hooks/useDeckImages.ts:16-49 | the entry a listener appends has the listener's atlas key and face; a face listener appends `FrontInfo` (a grid cell) and a back listener `BackInfo` (a grid cell or the whole image, with `uniqueBack`) |
| DeckImages.ListenersFor | src/hooks/useDeckImages.ts:12-49 | the effect installs a listener for exactly each atlas entry and each face |
| DeckImages.InstallListeners | src/hooks/useDeckImages.ts:12-49 | the loop over `CustomDeck` installs exactly the listeners `ListenersFor` names |
| DeckImages.OneListenerPerFace | src/hooks/useDeckImages.ts:12-49 | no atlas entry gets two listeners for one face |
| DeckImages.Loaded | src/hooks/useDeckImages.ts:6-8 | a pending listener's load appends its entry after the earlier ones and retires one installed copy of the listener; any other load changes nothing |
| DeckImages.ObjectStateChangedAsWritten | src/hooks/useDeckImages.ts:10-51 | as written, the list is emptied and the new listeners are added to the pending ones, so a listener installed again is pending twice |
| DeckImages.ObjectStateChanged | src/hooks/useDeckImages.ts:10-51 | with a cleanup, the list is emptied and only the new deck object's listeners remain |
| DeckImages.EffectAsWritten | src/hooks/useDeckImages.ts:10-12 | as written, the effect throws exactly when no deck object is selected |
| DeckImages.FirstRenderThrows | src/App.tsx:44 | on the first render no deck object is selected, so the effect throws |
| DeckImages.Effect | src/hooks/useDeckImages.ts:10-12 | the guarded effect always empties the list; with no deck object it leaves no listener; otherwise it is the cleaned-up change |
| DeckImages.NoDeckObjectNoImages | src/hooks/useDeckImages.ts:6-8 | with no deck object selected, no sequence of loads adds an image |
| DeckImages.ChangeEstablishesConsistency | src/hooks/useDeckImages.ts:10-51 | after a cleaned-up change the registry belongs to the new deck object |
| DeckImages.LoadPreservesConsistency | src/hooks/useDeckImages.ts:6-8 | every load keeps the registry consistent: images only for the deck object's atlas entries, and no atlas face twice |
| DeckImages.AtMostOneEntryPerFace | src/hooks/useDeckImages.ts:12-49 | a consistent registry holds at most one entry per atlas entry and face |
| DeckImages.TwoPendingLoads | src/hooks/useDeckImages.ts:6-8 | two pending listeners, or two pending copies of one, append their two entries in the order they load |
| DeckImages.RepeatedFaceInconsistent | src/hooks/useDeckImages.ts:6-8 | a list with two entries for one atlas face belongs to no deck object |
| DeckImages.SwitchLeavesBothFacesPending | src/hooks/useDeckImages.ts:10-51 | as written, after switching from A to B the face listeners of both are pending |
| DeckImages.ReselectionLeavesFacePendingTwice | src/hooks/useDeckImages.ts:10-51 | as written, after selecting A, B and A again the face listener of A is pending twice |
| DeckImages.StaleLoadLeaksIntoNewDeck | src/hooks/useDeckImages.ts:10-51 | as written, switching deck objects and then loading the old face sheet leaves two face entries for one atlas key, the stale one first |
| DeckImages.ReselectionDuplicatesEntry | src/hooks/useDeckImages.ts:10-51 | as written, selecting A, B and A again and then loading A's face sheet twice gives two face entries of A for atlas "1", so the list belongs to no deck object |
| DeckImages.DeckImageRegistry.constructor | src/hooks/useDeckImages.ts:4 | no images and no listeners at first |
| DeckImages.DeckImageRegistry.ObjectStateChangeAsWritten | src/hooks/useDeckImages.ts:10-51 | as written, the new state is `ObjectStateChangedAsWritten` of the old one |
| DeckImages.DeckImageRegistry.ObjectStateChange | src/hooks/useDeckImages.ts:10-51 | corrected: with a cleanup and a guard, the new state is `Effect` of the old one |
| DeckImages.DeckImageRegistry.ImageLoad | src/hooks/useDeckImages.ts:6-8 | the new state is `Loaded` of the old one |
| CardRenderer.GetRow | src/components/cardRenderer.tsx:131-137 | the copy holds exactly the `n` pixels of the row from the given column |
| CardRenderer.GetColumn | src/components/cardRenderer.tsx:138-144 | the copy holds exactly the `n` pixels of the column from the given row |
| CardRenderer.PutRow | src/components/cardRenderer.tsx:150-151 | the row segment is overwritten with the copy and every other pixel is unchanged |
| CardRenderer.PutColumn | src/components/cardRenderer.tsx:156-157 | the column segment is overwritten with the copy and every other pixel is unchanged |
| CardRenderer.FillCorner | src/components/cardRenderer.tsx:189-202 | every pixel of the rectangle (clipped to the canvas) becomes the corner pixel and nothing else changes |
| CardRenderer.BleedSource | src/components/cardRenderer.tsx:124-187 | the card pixel a bleed-box pixel shows lies inside the card area, and a card pixel shows itself |
| CardRenderer.BleedSourceRegions | src/components/cardRenderer.tsx:148-186 | the top and bottom bands repeat the card's first and last rows, the side bands its first and last columns, and each corner square its corner pixel |
| CardRenderer.ExtendEdges | src/components/cardRenderer.tsx:130-158 | after both loops every band pixel shows its nearest card pixel, and the corner squares, the card and the rest of the canvas are unchanged |
| CardRenderer.FillCorners | src/components/cardRenderer.tsx:160-186 | every corner-square pixel becomes the adjacent card corner pixel, and nothing outside the corner squares changes |
| CardRenderer.DrawCardBleed | src/components/cardRenderer.tsx:124-187 | every pixel of the bleed box becomes the card's pixel at the nearest point of the card area, so the card itself is unchanged; everything outside the box is unchanged |
| CardRenderer.BackgroundColor | src/components/cardRenderer.tsx:41 | the fill colour is the bleed colour when it is non-empty, otherwise "white" |
| CardRenderer.SpriteOrigin | src/components/cardRenderer.tsx:50 | a card in column 0 or row 0 starts its sprite at that edge of the sheet |
| CardRenderer.SpriteOriginIsCellCorner | src/components/cardRenderer.tsx:50 | the sprite origin divided by the cell size gives back the cell coordinates, and a cell with non-negative coordinates starts at non-negative offsets |
| CardRenderer.GeneratesBleed | src/components/cardRenderer.tsx:71 | the edges are extended exactly when the bleed is non-zero and the bleed type is "gen" |
| CardRenderer.BleedLayer | src/components/cardRenderer.tsx:68-80 | without a non-zero bleed of type "gen" the canvas is unchanged; with one, the edges are extended as by `DrawCardBleed` |
| CardRow.JsRem | src/components/CardRow.tsx:121 | JavaScript `%` takes the sign of the dividend and stays below the divisor in size, and the dividend minus the result is a multiple of the divisor, so the result is the truncating remainder; a small dividend is returned as is |
| CardRow.CardPosX | src/components/CardRow.tsx:119-121 | a shared back uses column 0; otherwise the column is within the grid for a non-negative index |
| CardRow.CardPosY | src/components/CardRow.tsx:122-124 | a shared back uses row 0; otherwise the row is non-negative for a non-negative index (its place in the grid is stated by `CellRoundTrip`) |
| CardRow.CellRoundTrip | src/components/CardRow.tsx:119-124 | reading the cell row by row gives back the index's last two digits |
| CardRow.SameCellIffSamePosition | src/components/CardRow.tsx:119-124 | two indices share a cell exactly when their last two digits agree |
| CardRow.GridCellInsideImage | src/components/CardRow.tsx:117-124 | on a sheet cut into a grid, the cell of an index that lies within the grid is inside the image |
| CardRow.FrontCellInsideAtlas | src/components/CardRow.tsx:117-124 | the cell a face sheet resolves lies inside the sheet |
| CardRow.BackCellInsideAtlas | src/components/CardRow.tsx:117-124 | the cell a back sheet resolves lies inside the sheet; a shared back is the whole image |
| CardRow.SpriteOfCell | src/components/cardRenderer.tsx:50 | the sprite starts at the cell size times the cell coordinates, and when that cell lies inside the sheet a whole cell from the origin does too |
| CardRow.SpriteIsCell | src/components/CardRow.tsx:117-124 | the renderer of a card with an image cuts its sprite at the card's cell of that image, and inside the sheet when the cell is |
| CardRow.SpriteInsideAtlas | src/components/cardRenderer.tsx:50 | the sprite a card cuts from a loaded face or back sheet lies inside that sheet |
| CardRow.Card | src/components/CardRow.tsx:85-190 | the container is the card plus bleed with width and height swapped; the crop colour defaults to black; there is a renderer exactly when there is an image, with swapped size, the resolved cell and the bleed colour only for solid bleed; there are four crop marks, one per corner, inset by the bleed |
| CardRow.CropMarksAtTrimCorners | src/components/CardRow.tsx:132-187 | the four marks are anchored exactly at the corners of the rotated trim box |
| CardRow.CanvasMatchesContainer | src/components/CardRow.tsx:105-118 | the canvas `useDoodler` sizes for the renderer is the container scaled by the resolution |
| CardRow.RowCards | src/components/CardRow.tsx:20-69 | a row's front has `flip` 1 and its back `flip` -1; both have the same index; both carry the row's card height, card width, bleed, ppi, crop-layer order and crop-mark colour; they differ only in image, bleed type and colour |
| App.CeilDiv | src/App.tsx:72 | the quotient rounded up: the fewest pages that hold all the cards |
| App.PageCount | src/App.tsx:69-74 | no deck object gives 0 pages; otherwise the fewest pages of `perPage` that hold every deck id |
| App.PageCards | src/App.tsx:369-372 | page `p` holds the cards from position `p * perPage` on: `perPage` of them, or fewer at the end, or none past the end |
| App.PagesArePrefix | src/App.tsx:354-372 | the first `k` pages together are exactly the first `k * perPage` cards, so pages are adjacent and disjoint |
| App.AllPagesCoverDeck | src/App.tsx:69-74 | when the deck ids and cards are as many, the pages up to the page count show every card once, in order |
| App.NaturalsUntil | src/App.tsx:354 | the page numbers 0 to n - 1 in order |
| App.KeepRendered | src/App.tsx:354-356 | the filter keeps exactly the current page, or everything in print mode, in order |
| App.KeptAtMostOnce | src/App.tsx:354-356 | among distinct page numbers the current page is kept at most once |
| App.KeptFromNaturals | src/App.tsx:354-356 | outside print mode only the current page is kept, or nothing when it is not a page |
| App.RenderedPages | src/App.tsx:354-356 | print mode renders every page; otherwise only the current page when it exists, else none |
| App.DecimalDigits | src/App.tsx:373 | a number's decimal text is never empty |
| App.DecimalString | src/App.tsx:373 | the text of an integer is never empty |
| App.DecimalDigitsInjective | src/App.tsx:373 | different numbers have different decimal texts |
| App.DeckKey | src/App.tsx:373 | corrected: the key is never empty, ids 0 to 99 get key "0" and ids 100 to 199 key "1"; `DeckKeyRoundTrip` shows it is exactly the atlas number |
| App.DeckKeyAsWritten | src/App.tsx:373 | as written, the key is the first character of the card id |
| App.DeckKeyRoundTrip | src/App.tsx:373 | the corrected key of atlas `d`, position `p` is the text of `d`, and two cards get the same key exactly when they come from the same atlas |
| App.DeckKeyAsWrittenAgreesBelowTen | src/App.tsx:373 | for atlases 1 to 9 the key as written is the corrected one |
| App.DeckKeyAsWrittenConfusesAtlases | src/App.tsx:373 | as written, the cards 100, 1000 and 1205 of atlases 1, 10 and 12 all get key "1" |
| App.FindFrom | src/App.tsx:374-379 | the lookup returns the first entry for the atlas key and face, or none when there is none |
| App.EntriesUnder | src/App.tsx:373-379 | one row per card, each with the first front and back entries under the card's key |
| App.PageEntries | src/App.tsx:369-379 | as written: no rows before any image has loaded; otherwise one row per card of the page, with the first front and back entries under the first digit of its id |
| App.PageEntriesCorrected | src/App.tsx:369-379 | corrected: as `PageEntries`, with each card looked up under its whole atlas number |
| App.PageEntriesUseWrongAtlas | src/App.tsx:373 | with only atlas 1 loaded, the page as written draws card 1000 from atlas 1's face sheet; the corrected page has no face for it |
| App.Click | src/App.tsx:322-351 | a disabled button keeps the page; "\|<" goes to 0, "Prev" one page back, "Next" one page on and ">\|" to the last page; from a page of a non-empty deck, no click leaves the pages |
| App.Enabled | src/App.tsx:324-347 | "\|<" is enabled exactly when the page index is positive, "Prev" when it is not 0, "Next" when it is not the last page, and ">\|" when it is below the second-to-last page |
| App.EnabledOnAPage | src/App.tsx:322-351 | on a page of the deck, "\|<" and "Prev" are enabled exactly off the first page and "Next" exactly off the last, while ">\|" is already disabled on the page before the last |
| App.NextLeavesEmptyDeck | src/App.tsx:340-341 | with no pages, "Next" is enabled and moves to page 1 |
| App.CorrectedHeight | src/App.tsx:95-102 | the locked height times the ratio gives back the width |
| App.CorrectedWidth | src/App.tsx:103-110 | the locked width divided by the ratio gives back the height |
| App.LockCommitAsWritten | src/App.tsx:95-110 | as written, with the lock on each due effect sets its field from the same render, so when both are due width and height are both replaced; the inputs of the render become the ones seen |
| App.LockOscillates | src/App.tsx:95-110 | as written, switching the lock on when the size lacks the ratio swaps width and height every commit, so they never settle |
| App.TypedWidthSettles | src/App.tsx:95-110 | as written, a width typed into a locked, settled state is kept and the height follows it within two commits |
| App.LockCommit | src/App.tsx:95-110 | corrected: when both effects are due the height follows the width and the width effect waits; otherwise as written |
| App.LockCommitSettles | src/App.tsx:95-110 | corrected: with the lock on, two commits reach a state the next commit keeps, and it has the ratio once an effect was due |
| App.LockExample | src/App.tsx:95-102 | a 2.5 x 3.5 ratio turns a width of 5 into a height of 7 |
| App.FirstOfFace | src/App.tsx:87-88 | the first entry with the face, or none when there is none |
| App.DerivedAspectRatio | src/App.tsx:85-93 | the ratio is positive; it is that of the first face entry when one exists, otherwise that of the first back entry; there is none exactly when neither exists |
| App.Viewer.constructor | src/App.tsx:23-110 | no deck object, page 0 of 0, 4 cards per page, a 2.5 x 3.5 card and ratio, both ratio switches off, and no lock effect due |
| App.Viewer.ChangeDeck | src/App.tsx:29-34 | the page count follows the new deck object, so it is current again |
| App.Viewer.SetPerPageAsWritten | src/App.tsx:69-74 | as written, the page count stays when the cards per page change |
| App.Viewer.SetPerPage | src/App.tsx:69-74 | corrected: the page count is recomputed for the new cards per page, so it is current |
| App.Viewer.Press | src/App.tsx:322-351 | the page index moves as `Click` says |
| App.Viewer.SetPrintMode | src/App.tsx:114-124 | in print mode every page is rendered |
| App.Viewer.SetCardWidth | src/App.tsx:76 | the card width becomes the given one |
| App.Viewer.SetCardHeight | src/App.tsx:77-79 | the card height becomes the given one |
| App.Viewer.SetPreserveAspectRatio | src/App.tsx:82 | the lock switch becomes the given one |
| App.Viewer.SetDeriveAspectRatio | src/App.tsx:83 | the derive switch becomes the given one |
| App.Viewer.CommitLockAsWritten | src/App.tsx:95-110 | as written, the two lock effects of a commit leave the state `LockCommitAsWritten` gives |
| App.Viewer.CommitLock | src/App.tsx:95-110 | corrected: the two lock effects of a commit leave the state `LockCommit` gives |
| App.Viewer.DeriveAspectRatio | src/App.tsx:85-93 | when asked to and an entry exists, the ratio becomes the derived one; otherwise it stays |
| App.TenCardsFourPerPage | src/App.tsx:69-74 | ten cards at four per page make pages of 4, 4 and 2 |
| App.StalePageCountHidesCards | src/App.tsx:69-74 | as written, going from four to two per page keeps 3 pages, so cards 6 to 9 are on no page |

## Left out

- NaN is not modelled. Numbers are reals, or reals with the two infinities in `Clamping`.
  `Number` of a non-numeric input and a division by a zero grid size are left out.
- Floating-point rounding is left out. Even in exact arithmetic the lock as written need
  not settle (`App.LockOscillates`); with JavaScript floats `w / r * r` may also differ from `w`.
- App.Viewer.CommitLockAsWritten reads `setCardHeight(f)` and `setCardWidth(f)` as React
  functional updates that store `f(previous)`. The setter of `useInput`
  (src/hooks/useInput.ts:29) dispatches `set` with its argument, and the reducer
  (src/hooks/useInput.ts:15-16) stores it, so by the text the function itself would be stored.
  src/App.tsx:12 also imports a `useCheckbox` that src/hooks/useInput.ts does not export,
  so that file and App are out of step. The model follows App's evident reading.
- App.Viewer.CommitLock and App.Viewer.CommitLockAsWritten run both lock effects of one commit
  at once. The order of effects within a commit and React's batching of their updates into
  the next render are not modelled beyond that.
- Drawing the sprite is left out: `drawSprite`, the quarter-turn rotation, `fillCanvas` and
  the Doodler layer system. Only the fill colour, the sprite origin and the generated-bleed
  pass are modelled.
- The blur filter set in the second layer has no effect on `putImageData`, so the model has no blur.
- CardRenderer.DrawCardBleed requires a canvas that holds the whole bleed box and a card of at
  least one pixel, which is what `useDoodler` sizes. Clipped reads at the canvas edge are not
  modelled. `FillCorner` does clip its writes.
- CardRenderer.BleedLayer takes the pixel counts of `bleed * ppi`, `width * ppi` and
  `height * ppi` as whole numbers. Fractional pixel coordinates are not modelled.
- The `imageWidth - bleed` and `imageHeight - bleed` source crop of the sprite
  (src/components/cardRenderer.tsx:51-52) is left out, along with the rest of the sprite drawing.
- CardRow.CardPosX and CardRow.CardPosY require a grid with at least one column unless the back
  is shared. The atlas entries of a Tabletop Simulator deck always have one.
- App.PageCount models a whole-number `perPage` of at least 1. A fractional or zero entry from
  the input field is not modelled.
- App.Viewer.DeriveAspectRatio requires decoded entries with positive cell sizes.
- App.Viewer.SetPerPageAsWritten leaves the page count stale; `Valid` then still holds but
  `CountCurrent` need not, until the next `ChangeDeck`.
- Reading the save file, choosing it, and the upload component (`TTSUploader`) are left out.
  So is `Number(e.target.value)` indexing into the file's `ObjectStates`: `ChangeDeck` takes
  the selected deck object, or none.
- The status context, `window.print` and the timer delays of print mode and of the debounce are
  left out. Print mode is switched on and off by `SetPrintMode`, and a timer firing is a `Fire` step.
- The markup, CSS classes and crop-mark stacking are modelled only as the crop-mark records.
  App passes no `cropLayerBehind` or `cropMarkColor` to `CardRow`, so at run time these are
  `undefined`. The model takes them as ordinary properties.
- `src/util/generator` is not part of this model. `NaturalsUntil` assumes it yields 0 to n - 1.
- The page size, margin and ppi inputs only feed the markup and the renderer configuration.
  They are modelled as plain values.

## Findings

| source | as written | input that shows it | evidently intended | confidence | as-written member | corrected member |
|---|---|---|---|---|---|---|
| src/App.tsx:69-74 | the page-count effect depends on the deck object only, so changing the cards per page keeps the old page count | 10 cards at 4 per page (3 pages), then 2 per page: pages 0 to 2 show cards 0 to 5, and cards 6 to 9 are on no page, in print mode either | the page count follows `perPage` as well | not executed; high | App.Viewer.SetPerPageAsWritten, App.StalePageCountHidesCards | App.Viewer.SetPerPage, App.AllPagesCoverDeck |
| src/App.tsx:373 | the atlas key is the first character of the card id | card 1205 (atlas 12) and card 1000 (atlas 10) both look up atlas "1" | the key is the id without its last two digits | not executed; high | App.DeckKeyAsWritten, App.PageEntries, App.DeckKeyAsWrittenConfusesAtlases, App.PageEntriesUseWrongAtlas | App.DeckKey, App.PageEntriesCorrected, App.DeckKeyRoundTrip |
| src/hooks/useDeckImages.ts:10-51 | the effect has no cleanup, so load listeners of the previous deck object stay installed and append to the new list | switch from deck object A to B (both with atlas "1"), then A's face sheet loads: the list holds A's and B's face entries for "1", A's first, and lookups take A's; selecting A, B and A again installs A's face listener twice, and both copies append | only the current deck object's loads reach the list | not executed; medium | DeckImages.ObjectStateChangedAsWritten, DeckImages.DeckImageRegistry.ObjectStateChangeAsWritten, DeckImages.StaleLoadLeaksIntoNewDeck, DeckImages.ReselectionDuplicatesEntry | DeckImages.ObjectStateChanged, DeckImages.DeckImageRegistry.ObjectStateChange, DeckImages.ChangeEstablishesConsistency, DeckImages.LoadPreservesConsistency |
| src/hooks/useDeckImages.ts:10-12 | the effect reads `CustomDeck` of its argument without a check, and the app passes its selected deck object, which is `undefined` until one is chosen (src/App.tsx:27, 44) | the first render, with no deck object selected | with no deck object, the list stays empty and no listener is installed | not executed; medium | DeckImages.EffectAsWritten, DeckImages.FirstRenderThrows | DeckImages.Effect, DeckImages.DeckImageRegistry.ObjectStateChange, DeckImages.NoDeckObjectNoImages |
| src/App.tsx:95-110 | the height effect and the width effect both run in the commit after the lock is switched on, each from the same render's width and height, so they swap the two; the next commit swaps them back (the app warns of this at src/App.tsx:261-265) | a 3 x 3.5 card with ratio 2.5 / 3.5, then the lock switched on: the size alternates between 2.5 x 4.2 and 3 x 3.5 | when both are due, one follows the other and the size settles with the ratio | not executed; high | App.LockCommitAsWritten, App.Viewer.CommitLockAsWritten, App.LockOscillates | App.LockCommit, App.Viewer.CommitLock, App.LockCommitSettles |
