# Stack carousel: swipe state machine, stack rotation and card layering

A model of the core of the `StackCarousel` Jetpack Compose widget: a stack
of cards where the front card follows a horizontal drag and, when released
beyond a threshold, flies off and goes to the back of the stack while a page
indicator advances.

The model has four modules.

- `Rotation` (`rotation.dfy`): `swapFirstToLast`, the in-place move of the
  first list element to the end, as a method on an `array` proved against the
  value-level `RotateLeft`. It also holds the lemmas relating repeated moves
  to reading the list around from a position, and the full-cycle property.
- `Paging` (`paging.dfy`): the indicator step `(currentIndicator + 1) %
  totalPage` and what repeated steps do.
- `Layering` (`layering.dfy`): the render loop that visits indices from the
  back to the front and classifies each one as current, next or background.
  The class fixes the card's base alpha (1, 0.8, 0.5) and its vertical offset
  tier (0, 8, 14 dp, negated when the stack fans out above).
- `Carousel` (`carousel.dfy`): `CarouselState` and the widget's state as a
  class. Its methods are the drag handler, the release handler and the effect
  that publishes the indicator as the current page. A committing release is
  two steps, because the widget suspends for a 150 ms fly-off between them:
  `Release` advances the indicator (line 131) and `FinishCommit` rotates the
  stack (lines 140-143). The class invariant says the stack is always a
  rotation of the supplied items and the indicator is always a valid page.
  A separate predicate, `InStep`, says indicator and stack agree. Whole
  commits keep it. A drag during the fly-off cancels the second step and
  breaks it: each cut commit leaves the indicator one more position ahead of
  the stack, so right after one cut the indicator names the card behind the
  front one. When the page count equals the item count, `InStep` holds and
  no fly-off is pending, the front card is the indicated item. `ThreeSwipes` walks through three commits and
  one snap-back; `CutShortSwipe` shows a commit cut short.

`Arith` (`arith.dfy`) holds three lemmas the indicator proofs use: a bound on
multiples and two facts about `%`.

Notes on the code as written:

- `swapFirstToLast` returns without change on lists shorter than two. Its
  doc comment says so too (line 411), but its `@throws` tag (line 417)
  says it throws; the model follows the code.
- The widget's copy of the items is remembered without a key, so a new item
  list passed on recomposition does not replace it. The model keeps the list
  given when the widget was first composed.
- `currentPage` is documented (lines 398-403) as something a host may set
  to change the displayed page. The widget never reads it: it only writes
  the indicator into it (lines 157-159), and only when the indicator
  changes. A value the host writes is not shown and stays until the next
  commit.
- `initialPage` is never read by the widget. The indicator starts at 0, and
  the effect on the indicator writes 0 into `currentPage`.
- `currentIndex` is only ever set to 0, so the current card is always the
  front of the stack.
- The indicator counts modulo `totalPage` while the stack rotates modulo the
  number of items. The two agree only when the counts are equal
  (`PageCountMismatchDiverges`).
- Kotlin's `%` truncates toward zero. Every operand here is non-negative, so
  Dafny's `%` gives the same result.

## Model

| member | source | states |
|---|---|---|
| Rotation.SwapFirstToLast | JbaStackCarousel/src/main/java/com/jaber/jbastackcarousel/StackCarousel.kt:419-431 | the array afterwards is RotateLeft of the array before: every element moves one slot towards the front, the first element lands in the last slot, arrays shorter than two are untouched, and the contents are a permutation of the old contents |
| Rotation.RotateLeftAt | JbaStackCarousel/src/main/java/com/jaber/jbastackcarousel/StackCarousel.kt:424-430 | element by element, a rotation of two or more elements puts s[i + 1] at i and s[0] last |
| Rotation.RotateLeftPermutes | JbaStackCarousel/src/main/java/com/jaber/jbastackcarousel/StackCarousel.kt:424-430 | moving the front element to the back keeps every element with its multiplicity |
| Rotation.RotateRoundTrip | JbaStackCarousel/src/main/java/com/jaber/jbastackcarousel/StackCarousel.kt:419-431 | moving the front to the back is undone by moving the back to the front, and the other way round |
| Rotation.RotateFromPermutes | JbaStackCarousel/src/main/java/com/jaber/jbastackcarousel/StackCarousel.kt:419-431 | reading the list around from any position is a permutation of it |
| Rotation.RotateLeftOfRotateFrom | JbaStackCarousel/src/main/java/com/jaber/jbastackcarousel/StackCarousel.kt:419-431 | one more move on a list read from position m gives the list read from m + 1, wrapping to 0 after the last position |
| Rotation.RotateFromSecond | JbaStackCarousel/src/main/java/com/jaber/jbastackcarousel/StackCarousel.kt:174 | the card behind the front of a list read from position m is the item at the next position, wrapping at the end |
| Rotation.RotateTimesFrom | JbaStackCarousel/src/main/java/com/jaber/jbastackcarousel/StackCarousel.kt:419-431 | k successive moves, for k up to the length, give the list read around from position k |
| Rotation.FullCycle | JbaStackCarousel/src/main/java/com/jaber/jbastackcarousel/StackCarousel.kt:419-431 | as many moves as the list has elements restore the original order |
| Paging.Advance | JbaStackCarousel/src/main/java/com/jaber/jbastackcarousel/StackCarousel.kt:131 | the advanced indicator is always a page number in 0 until totalPage, and from a valid page it is the following page, wrapping from the last page to page 0 |
| Paging.AdvanceTimesMod | JbaStackCarousel/src/main/java/com/jaber/jbastackcarousel/StackCarousel.kt:131 | k successive advances from a valid page land on (indicator + k) % totalPage |
| Paging.FullCycle | JbaStackCarousel/src/main/java/com/jaber/jbastackcarousel/StackCarousel.kt:131 | totalPage successive advances bring the indicator back to where it started |
| Layering.NextIndex | JbaStackCarousel/src/main/java/com/jaber/jbastackcarousel/StackCarousel.kt:174 | the next index is a page number below totalPage and is currentIndex + 1 whenever that is below totalPage |
| Layering.Classify | JbaStackCarousel/src/main/java/com/jaber/jbastackcarousel/StackCarousel.kt:172-174 | an index is current exactly when it equals currentIndex, next exactly when it is not current and equals (currentIndex + 1) % totalPage, and background exactly otherwise |
| Layering.Alpha | JbaStackCarousel/src/main/java/com/jaber/jbastackcarousel/StackCarousel.kt:185-192 | the base opacity lies between 0.5 and 1, and is 1 exactly for the current card |
| Layering.TranslationY | JbaStackCarousel/src/main/java/com/jaber/jbastackcarousel/StackCarousel.kt:175-182 | the vertical tier is zero exactly for the current card, non-positive for a stack fanning out above and non-negative for one below |
| Layering.DeeperIsFainterAndFurther | JbaStackCarousel/src/main/java/com/jaber/jbastackcarousel/StackCarousel.kt:175-192 | a deeper class is strictly fainter and strictly further from the current card, in the direction of the stack type |
| Layering.Plan | JbaStackCarousel/src/main/java/com/jaber/jbastackcarousel/StackCarousel.kt:171-174 | the render pass visits every index of the list exactly once, from size - 1 down to 0 in strictly descending order, each with its class |
| Layering.OneCurrentCard | JbaStackCarousel/src/main/java/com/jaber/jbastackcarousel/StackCarousel.kt:171-172 | a render pass has exactly one current card when currentIndex is inside the list, none otherwise |
| Layering.OneNextCard | JbaStackCarousel/src/main/java/com/jaber/jbastackcarousel/StackCarousel.kt:171-174 | a render pass has exactly one next card when the next index is inside the list and differs from the current one, none otherwise |
| Layering.NextIsNotCurrent | JbaStackCarousel/src/main/java/com/jaber/jbastackcarousel/StackCarousel.kt:174 | with two or more pages the next index never equals the current one |
| Layering.ClassifyStack | JbaStackCarousel/src/main/java/com/jaber/jbastackcarousel/StackCarousel.kt:171-192 | the render loop produces exactly the render pass Plan describes |
| Carousel.RotationKeepsInvariant | JbaStackCarousel/src/main/java/com/jaber/jbastackcarousel/StackCarousel.kt:140-143 | the second step of a commit keeps the stack a rotation of the supplied items and the indicator a valid page, and turns a pending alignment into a settled one |
| Carousel.AdvanceKeepsAlignment | JbaStackCarousel/src/main/java/com/jaber/jbastackcarousel/StackCarousel.kt:131 | the first step of a commit leaves the indicator naming the position the pending rotation will bring to the front |
| Carousel.CutCommitMisreportsFront | JbaStackCarousel/src/main/java/com/jaber/jbastackcarousel/StackCarousel.kt:131-143 | when a commit stops after advancing the indicator (a drag cancelled the fly-off), the indicator names the card behind the front one, so with distinct items the published page is not the front item and indicator and stack no longer agree |
| Carousel.FrontIsIndicatedItem | JbaStackCarousel/src/main/java/com/jaber/jbastackcarousel/StackCarousel.kt:131-141 | when the page count equals the number of items and indicator and stack agree with no fly-off pending, the front card is the item whose position the indicator names |
| Carousel.CarouselState.constructor | JbaStackCarousel/src/main/java/com/jaber/jbastackcarousel/StackCarousel.kt:394-405 | the page count is fixed at construction and the current page starts at the given initial page |
| Carousel.StackCarousel.constructor | JbaStackCarousel/src/main/java/com/jaber/jbastackcarousel/StackCarousel.kt:67-107 | the widget starts with a copy of the items in their order, offset 0, current index 0, indicator 0 and next-card alpha 0.8 |
| Carousel.StackCarousel.GesturesEnabled | JbaStackCarousel/src/main/java/com/jaber/jbastackcarousel/StackCarousel.kt:127 | drag and release handlers are active only for lists of two or more items |
| Carousel.StackCarousel.Drag | JbaStackCarousel/src/main/java/com/jaber/jbastackcarousel/StackCarousel.kt:148-152 | a drag adds exactly the dragged amount to the offset when gestures are enabled and changes neither indicator, index, alpha nor stack; it cancels a pending fly-off, which breaks the agreement of indicator and stack, and otherwise keeps it |
| Carousel.StackCarousel.Release | JbaStackCarousel/src/main/java/com/jaber/jbastackcarousel/StackCarousel.kt:127-147 | a release commits exactly when gestures are enabled and the offset is strictly beyond 100 either way; a commit advances the indicator modulo the page count and starts the fly-off, leaving the stack as it was; otherwise only the offset returns to 0; agreement of indicator and stack is kept |
| Carousel.StackCarousel.FinishCommit | JbaStackCarousel/src/main/java/com/jaber/jbastackcarousel/StackCarousel.kt:140-143 | once the fly-off completes, the front card moves to the back, current index is 0, alpha is 0.8 and the offset is 0, the indicator is untouched, and indicator and stack agree again |
| Carousel.StackCarousel.SyncPage | JbaStackCarousel/src/main/java/com/jaber/jbastackcarousel/StackCarousel.kt:157-159 | the host-visible current page becomes the indicator, and is therefore a valid page |
| Carousel.StackCarousel.FrontMatchesIndicator | JbaStackCarousel/src/main/java/com/jaber/jbastackcarousel/StackCarousel.kt:130-143 | in every state reached by whole commits (no fly-off cut short by a drag) with as many pages as items, the front card is the supplied item at the indicated page |
| Carousel.NextBecomesFront | JbaStackCarousel/src/main/java/com/jaber/jbastackcarousel/StackCarousel.kt:140-174 | the card the render pass marks as next before a commit is the card the rotation brings to the front, and with two or more pages that card exists (index 1) |
| Carousel.PageCountMismatchDiverges | JbaStackCarousel/src/main/java/com/jaber/jbastackcarousel/StackCarousel.kt:73-131 | with three items and two pages, two commits bring the indicator back to page 0 while the third item is at the front |

## Left out

- Animation: `Animatable`, `animateTo`, tweens, springs, the fly-off to the
  screen width and the scale animation. The offset is a `real`. The only
  trace of the fly-off is the pending state between the two steps of a
  commit.
- Coroutines and the ordering of launched callbacks, beyond the one
  suspension of a commit: each drag, each release step and the publishing
  effect runs to completion before the next.
- The drifting next-card alpha and translation (`nextAlpha` and
  `translationYa`, lines 81-122). Their per-frame changes of 0.01 and 0.5 are
  not modelled. The next card is drawn with these animated values instead of
  the base ones (lines 232-244). At rest, a background card uses
  `translationYa` plus a 6 dp padding (line 264). `Layering.Alpha` and
  `Layering.TranslationY` give the base values the render loop chooses. The
  reset of `alphaValue` to 0.8 on commit is modelled.
- The `dp`-to-pixel conversion: tiers are in dp.
- Horizontal scale, clipping, shadows and the `graphicsLayer` modifiers: pure
  visuals with no effect on state.
- The `content` lambda that draws one item: it is the host's code.
- The sample application and the `rememberCarouselState` helper.
- `Carousel.StackCarousel.constructor`: requires `totalPage >= 1`. With at
  least one item the widget divides by `totalPage` while rendering (line 174)
  and would throw for 0 pages. With no items the render loop runs zero
  times and no gesture handler is installed, so 0 pages never reaches a
  division. The requirement also rules out negative page counts, which the
  code accepts: Kotlin's `%` takes the sign of the dividend, so with
  `totalPage = -3` line 131 cycles the indicator through 0, 1, 2 and line
  158 publishes pages outside 0 until `totalPage`. The model covers
  positive page counts only, as the page count of a carousel is meant to be.
- `Carousel.StackCarousel.Release`: requires that no fly-off is pending. The
  gesture detector delivers at least one drag event before a gesture ends,
  and the first one cancels the fly-off (`Drag`). A second commit running
  alongside a pending one is not modelled.
- `Carousel.StackCarousel.Drag`: during a fly-off the card's animated
  position is not modelled. A drag that cancels it continues from the
  offset at release, not from the interrupted animation value. That a drag
  cancels a running fly-off comes from the animation library's mutual
  exclusion between `snapTo` and `animateTo`. That library is not part of
  this model.
- `Carousel.StackCarousel.Release`: does not model 32-bit overflow of the
  indicator. It stays below `totalPage`, so `+ 1` cannot wrap.
- Recomposition with a new item list: the remembered copy is kept, as above.
