/**
 * The swipe state machine of the stack carousel widget and the state holder
 * it reports the current page to.
 *
 * A drag moves the front card by the accumulated horizontal offset. When the
 * finger is lifted, an offset beyond the threshold commits the swipe (the
 * front card goes to the back and the page indicator advances); any other
 * offset snaps the card back. The drag offset is a float animation value in
 * the widget; here it is a `real`.
 *
 * A committing release is two steps, because the widget suspends between
 * them for the 150 ms fly-off animation: first the indicator advances, then,
 * when the animation completes, the stack rotates. A drag in between cancels
 * the animation, so the second step never runs.
 */
module Carousel {

  import Rotation
  import Paging
  import Layering

  /** A release commits only when the offset is strictly beyond this distance, either way. */
  const Threshold: real := 100.0

  /** The opacity the next card's fade restarts from after a committed swipe. */
  const RestartAlpha: real := 0.8

  /**
   * The invariant of the widget's stack and indicator, on values: the stack is
   * the supplied items read around from position `shift`, and the indicator is
   * a page number.
   */
  ghost predicate StackInvariant<T>(items: seq<T>, stack: seq<T>, shift: nat, indicator: int, totalPage: int)
  {
    && totalPage >= 1
    && 0 <= indicator < totalPage
    && (shift < |items| || shift == 0)
    && stack == Rotation.RotateFrom(items, shift)
  }

  /**
   * Indicator and stack agree: when the page count equals the number of items,
   * the indicator is the front position, or, while a commit's fly-off is still
   * pending, the position that will be at the front once it completes.
   */
  predicate Aligned(count: nat, shift: nat, indicator: int, totalPage: int, flying: bool)
  {
    totalPage == count ==> indicator == if flying then Rotation.NextPosition(shift, count) else shift
  }

  /** The second step of a commit, the rotation, keeps the stack invariant and completes the alignment. */
  lemma RotationKeepsInvariant<T>(items: seq<T>, stack: seq<T>, shift: nat, indicator: int, totalPage: int)
    requires |items| >= 2
    requires StackInvariant(items, stack, shift, indicator, totalPage)
    requires Aligned(|items|, shift, indicator, totalPage, true)
    ensures StackInvariant(items, Rotation.RotateLeft(stack), Rotation.NextPosition(shift, |items|), indicator, totalPage)
    ensures Aligned(|items|, Rotation.NextPosition(shift, |items|), indicator, totalPage, false)
  {
    Rotation.RotateLeftOfRotateFrom(items, shift);
  }

  /** The first step of a commit, the indicator advance, keeps the indicator ahead by exactly the pending rotation. */
  lemma AdvanceKeepsAlignment(count: nat, shift: nat, indicator: int, totalPage: int)
    requires 0 <= indicator < totalPage && shift < count
    requires Aligned(count, shift, indicator, totalPage, false)
    ensures Aligned(count, shift, Paging.Advance(indicator, totalPage), totalPage, true)
  {
  }

  /** When the page count matches the number of items, a settled stack shows the indicated item at the front. */
  lemma FrontIsIndicatedItem<T>(items: seq<T>, stack: seq<T>, shift: nat, indicator: int, totalPage: int)
    requires StackInvariant(items, stack, shift, indicator, totalPage)
    requires Aligned(|items|, shift, indicator, totalPage, false)
    requires totalPage == |items|
    ensures stack[0] == items[indicator]
  {
  }

  /**
   * A commit cut short by a new drag leaves the indicator naming the card
   * behind the front one: with distinct items, the page the widget publishes
   * is not the item on top of the stack.
   */
  lemma CutCommitMisreportsFront<T>(items: seq<T>, stack: seq<T>, shift: nat, indicator: int)
    requires |items| >= 2
    requires forall i, j :: 0 <= i < j < |items| ==> items[i] != items[j]
    requires StackInvariant(items, stack, shift, indicator, |items|)
    requires Aligned(|items|, shift, indicator, |items|, true)
    ensures stack[1] == items[indicator]
    ensures stack[0] != items[indicator]
    ensures !Aligned(|items|, shift, indicator, |items|, false)
  {
    Rotation.RotateFromSecond(items, shift);
  }

  /** The host-visible carousel state: a fixed page count and the current page. */
  class CarouselState {
    const totalPage: int
    var currentPage: int

    constructor (totalPage: int, initialPage: int := 0)
      ensures this.totalPage == totalPage && currentPage == initialPage
    {
      this.totalPage := totalPage;
      currentPage := initialPage;
    }
  }

  /** The widget's own remembered state. */
  class StackCarousel<T> {
    /** The state holder supplied by the host. */
    const state: CarouselState
    /** The widget's mutable copy of the items, in stack order (index 0 is the front). */
    const images: array<T>
    /** The size of the item list the gesture handler was installed for. */
    const itemCount: nat
    /** The items as the host supplied them. */
    ghost const items: seq<T>

    var offset: real
    var currentIndex: int
    var currentIndicator: int
    var alphaValue: real
    /** A committing release is suspended in its fly-off animation; its second step is still to run. */
    var flying: bool
    /** The position of the supplied list that is now at the front. */
    ghost var shift: nat

    /** The object invariant: the stack invariant on the fields, and the current card is always the front one. */
    ghost predicate Valid()
      reads this, images
    {
      && images.Length == itemCount == |items|
      && currentIndex == 0
      && StackInvariant(items, images[..], shift, currentIndicator, state.totalPage)
      && (flying ==> GesturesEnabled())
    }

    /** Indicator and stack agree, as whole commits keep them. */
    ghost predicate InStep()
      reads this
    {
      Aligned(itemCount, shift, currentIndicator, state.totalPage, flying)
    }

    /** The widget as first composed: a copy of the items, nothing dragged, indicator at 0. */
    constructor (state: CarouselState, items: seq<T>)
      requires state.totalPage >= 1
      ensures Valid() && InStep() && fresh(images)
      ensures this.state == state && this.items == items && itemCount == |items|
      ensures images[..] == items
      ensures offset == 0.0 && currentIndex == 0 && currentIndicator == 0 && alphaValue == RestartAlpha && !flying
    {
      this.state := state;
      this.items := items;
      itemCount := |items|;
      images := new T[|items|](i requires 0 <= i < |items| => items[i]);
      offset := 0.0;
      currentIndex := 0;
      currentIndicator := 0;
      alphaValue := RestartAlpha;
      flying := false;
      shift := 0;
      new;
      Rotation.RotateFromEnds(items);
    }

    /** The drag handlers are installed only for lists of two or more items. */
    predicate GesturesEnabled()
      reads this
    {
      itemCount >= 2
    }

    /**
     * One horizontal drag event: the offset grows by exactly the dragged
     * amount, and a pending fly-off is cancelled, so its rotation never happens.
     * Only a drag during a fly-off breaks the agreement of indicator and stack.
     */
    method Drag(dragAmount: real)
      requires Valid()
      modifies this
      ensures Valid() && !flying
      ensures offset == if GesturesEnabled() then old(offset) + dragAmount else old(offset)
      ensures currentIndex == old(currentIndex) && currentIndicator == old(currentIndicator)
      ensures alphaValue == old(alphaValue) && shift == old(shift)
      ensures !old(flying) && old(InStep()) ==> InStep()
      ensures old(flying) && state.totalPage == itemCount && old(InStep()) ==> !InStep()
    {
      if GesturesEnabled() {
        offset := offset + dragAmount;
        flying := false;
      }
    }

    /**
     * The end of a drag. Beyond the threshold the swipe commits: the indicator
     * advances and the fly-off starts (`FinishCommit` is its second step).
     * Otherwise the offset returns to 0. A gesture delivers at least one drag
     * event before it ends, so no fly-off is pending here.
     */
    method Release() returns (committed: bool)
      requires Valid() && !flying
      modifies this
      ensures Valid()
      ensures committed <==> GesturesEnabled() && (old(offset) > Threshold || old(offset) < -Threshold)
      ensures flying == committed
      ensures committed ==> currentIndicator == Paging.Advance(old(currentIndicator), state.totalPage) && offset == old(offset)
      ensures !committed ==> currentIndicator == old(currentIndicator)
      ensures !committed && GesturesEnabled() ==> offset == 0.0
      ensures !GesturesEnabled() ==> offset == old(offset)
      ensures currentIndex == old(currentIndex) && alphaValue == old(alphaValue) && shift == old(shift)
      ensures old(InStep()) ==> InStep()
    {
      if !GesturesEnabled() {
        return false;
      }
      committed := offset > Threshold || offset < -Threshold;
      if committed {
        if InStep() {
          AdvanceKeepsAlignment(itemCount, shift, currentIndicator, state.totalPage);
        }
        currentIndicator := Paging.Advance(currentIndicator, state.totalPage);
        flying := true;
      } else {
        offset := 0.0;
      }
    }

    /**
     * The second step of a commit, once the fly-off completes: the current
     * index is the front again, the front card moves to the back, the next
     * card's fade restarts and the offset returns to 0.
     */
    method FinishCommit()
      requires Valid() && flying
      modifies this, images
      ensures Valid() && !flying
      ensures currentIndicator == old(currentIndicator)
      ensures currentIndex == 0
      ensures images[..] == Rotation.RotateLeft(old(images[..]))
      ensures alphaValue == RestartAlpha && offset == 0.0
      ensures old(InStep()) ==> InStep()
    {
      ghost var stack := Rotation.RotateLeft(images[..]);
      ghost var front := Rotation.NextPosition(shift, itemCount);
      ghost var wasInStep := InStep();
      if wasInStep {
        RotationKeepsInvariant(items, images[..], shift, currentIndicator, state.totalPage);
      } else {
        Rotation.RotateLeftOfRotateFrom(items, shift);
      }
      Rotation.SwapFirstToLast(images);
      currentIndex, alphaValue, offset, flying, shift := 0, RestartAlpha, 0.0, false, front;
      assert images[..] == stack;
    }

    /** Publishes the indicator to the host-visible state, overwriting whatever page it held. */
    method SyncPage()
      requires Valid()
      modifies state
      ensures state.currentPage == currentIndicator
      ensures 0 <= state.currentPage < state.totalPage
    {
      state.currentPage := currentIndicator;
    }

    /**
     * When the page count equals the number of items and indicator and stack
     * agree with no fly-off pending, the card at the front of the stack is the
     * supplied item the indicator names.
     */
    lemma FrontMatchesIndicator()
      requires Valid() && InStep() && !flying && state.totalPage == itemCount
      ensures images[0] == items[currentIndicator]
    {
      FrontIsIndicatedItem(items, images[..], shift, currentIndicator, state.totalPage);
      assert images[0] == images[..][0];
    }
  }

  /**
   * Before a commit, the render pass marks as next exactly the card that the
   * rotation brings to the front (the widget's current index is always 0).
   */
  lemma NextBecomesFront<T>(stack: seq<T>, totalPage: int)
    requires |stack| >= 2 && totalPage >= 2
    ensures var cards := Layering.Plan(|stack|, 0, totalPage);
      forall k :: 0 <= k < |cards| && cards[k].layer == Layering.Next ==> Rotation.RotateLeft(stack)[0] == stack[cards[k].index]
    ensures Layering.Plan(|stack|, 0, totalPage)[|stack| - 2] == Layering.Card(1, Layering.Next)
  {
    var cards := Layering.Plan(|stack|, 0, totalPage);
    assert Layering.NextIndex(0, totalPage) == 1;
    assert cards[|stack| - 2].index == 1;
  }

  /**
   * When the page count differs from the number of items, the indicator and
   * the stack drift apart: three items and two pages, after two swipes the
   * indicator is back at page 0 while the third item is at the front.
   */
  lemma PageCountMismatchDiverges()
    ensures Paging.Advance(Paging.Advance(0, 2), 2) == 0
    ensures Rotation.RotateLeft(Rotation.RotateLeft([10, 20, 30]))[0] == 30
  {
    var once := Rotation.RotateLeft([10, 20, 30]);
    Rotation.RotateLeftAt([10, 20, 30]);
    Rotation.RotateLeftAt(once);
  }

  /** Three items, three pages, three committed swipes: pages 1, 2, 0 and the original order again. */
  method ThreeSwipes()
  {
    var state := new CarouselState(3);
    var carousel := new StackCarousel(state, ['A', 'B', 'C']);
    carousel.Drag(150.0);
    var committed := carousel.Release();
    carousel.FinishCommit();
    assert committed && carousel.currentIndicator == 1;
    assert carousel.images[..] == ['B', 'C', 'A'];
    carousel.SyncPage();
    assert state.currentPage == 1;
    carousel.Drag(-40.0);
    committed := carousel.Release();
    assert !committed && carousel.currentIndicator == 1;
    carousel.Drag(-101.0);
    committed := carousel.Release();
    carousel.FinishCommit();
    assert committed && carousel.images[..] == ['C', 'A', 'B'];
    carousel.Drag(120.0);
    committed := carousel.Release();
    carousel.FinishCommit();
    assert committed && carousel.currentIndicator == 0;
    assert carousel.images[..] == ['A', 'B', 'C'];
  }

  /** A drag during the fly-off: the indicator has moved on to page 1 while 'A' stays on top. */
  method CutShortSwipe()
  {
    var state := new CarouselState(3, 0);
    var carousel := new StackCarousel(state, ['A', 'B', 'C']);
    carousel.Drag(150.0);
    var committed := carousel.Release();
    carousel.Drag(5.0);
    carousel.SyncPage();
    assert committed && state.currentPage == 1;
    assert carousel.images[..] == ['A', 'B', 'C'];
    assert !carousel.InStep();
  }
}
