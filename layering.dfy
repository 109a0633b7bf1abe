/**
 * How the carousel draws its stack: every index of the item list is visited
 * from the back of the stack to the front and classified as the current card,
 * the next card, or a background card; the class fixes the card's base alpha
 * and its vertical offset tier.
 */
module Layering {

  /** The three visual roles a card can have. */
  datatype Layer = Current | Next | Background

  /** Whether the stack fans out above (Top) or below (Bottom) the current card. */
  datatype StackType = Bottom | Top

  /** One visited index together with its class. */
  datatype Card = Card(index: int, layer: Layer)

  /** The index that becomes current after the next committed swipe, (currentIndex + 1) % totalPage. */
  function NextIndex(currentIndex: int, totalPage: int): (r: int)
    requires currentIndex >= 0 && totalPage >= 1
    ensures 0 <= r < totalPage
    ensures currentIndex + 1 < totalPage ==> r == currentIndex + 1
  {
    (currentIndex + 1) % totalPage
  }

  /** The class of one index: current first, then next, everything else background. */
  function Classify(index: int, currentIndex: int, totalPage: int): (l: Layer)
    requires currentIndex >= 0 && totalPage >= 1
    ensures l == Current <==> index == currentIndex
    ensures l == Next <==> index != currentIndex && index == NextIndex(currentIndex, totalPage)
    ensures l == Background <==> index != currentIndex && index != NextIndex(currentIndex, totalPage)
  {
    if index == currentIndex then Current
    else if index == NextIndex(currentIndex, totalPage) then Next
    else Background
  }

  /** How far back in the stack a class sits. */
  function Depth(l: Layer): nat
  {
    match l
    case Current => 0
    case Next => 1
    case Background => 2
  }

  /** Base opacity of a class; only the current card is fully opaque. */
  function Alpha(l: Layer): (r: real)
    ensures 0.5 <= r <= 1.0
    ensures r == 1.0 <==> l == Current
  {
    match l
    case Current => 1.0
    case Next => 0.8
    case Background => 0.5
  }

  /** Vertical offset tier of a class, in dp: negative when the stack fans out above. */
  function TranslationY(l: Layer, stackType: StackType): (r: real)
    ensures r == 0.0 <==> l == Current
    ensures stackType == Top ==> r <= 0.0
    ensures stackType == Bottom ==> r >= 0.0
  {
    var magnitude := match l
      case Current => 0.0
      case Next => 8.0
      case Background => 14.0;
    if stackType == Top then -magnitude else magnitude
  }

  /** A card deeper in the stack is more transparent and further from the current card. */
  lemma DeeperIsFainterAndFurther(a: Layer, b: Layer, stackType: StackType)
    requires Depth(a) < Depth(b)
    ensures Alpha(a) > Alpha(b)
    ensures stackType == Bottom ==> TranslationY(a, stackType) < TranslationY(b, stackType)
    ensures stackType == Top ==> TranslationY(a, stackType) > TranslationY(b, stackType)
  {
  }

  /**
   * The render pass over a list of `size` items: indices from size - 1 down to
   * 0, strictly descending so that the back of the stack is drawn first, each
   * with its class.
   */
  function Plan(size: nat, currentIndex: int, totalPage: int): (cards: seq<Card>)
    requires currentIndex >= 0 && totalPage >= 1
    ensures |cards| == size
    ensures forall k :: 0 <= k < size ==> cards[k].index == size - 1 - k
    ensures forall i, j :: 0 <= i < j < size ==> cards[i].index > cards[j].index
    ensures forall k :: 0 <= k < size ==> cards[k].layer == Classify(cards[k].index, currentIndex, totalPage)
  {
    if size == 0 then []
    else [Card(size - 1, Classify(size - 1, currentIndex, totalPage))] + Plan(size - 1, currentIndex, totalPage)
  }

  /** How many cards of a render pass have class l. */
  function CountLayer(cards: seq<Card>, l: Layer): nat
  {
    if cards == [] then 0
    else (if cards[0].layer == l then 1 else 0) + CountLayer(cards[1..], l)
  }

  /** A render pass draws exactly one current card when currentIndex is a valid index, and none otherwise. */
  lemma {:induction false} OneCurrentCard(size: nat, currentIndex: int, totalPage: int)
    requires currentIndex >= 0 && totalPage >= 1
    ensures CountLayer(Plan(size, currentIndex, totalPage), Current) == if currentIndex < size then 1 else 0
  {
    if size > 0 {
      var cards := Plan(size, currentIndex, totalPage);
      assert cards[1..] == Plan(size - 1, currentIndex, totalPage);
      OneCurrentCard(size - 1, currentIndex, totalPage);
    }
  }

  /** A render pass draws at most one next card: exactly one when the next index is in range and not the current one. */
  lemma {:induction false} OneNextCard(size: nat, currentIndex: int, totalPage: int)
    requires currentIndex >= 0 && totalPage >= 1
    ensures CountLayer(Plan(size, currentIndex, totalPage), Next) ==
      var n := NextIndex(currentIndex, totalPage);
      if n != currentIndex && n < size then 1 else 0
  {
    if size > 0 {
      var cards := Plan(size, currentIndex, totalPage);
      assert cards[1..] == Plan(size - 1, currentIndex, totalPage);
      OneNextCard(size - 1, currentIndex, totalPage);
    }
  }

  /** With at least two pages, the next card is never the current card. */
  lemma NextIsNotCurrent(currentIndex: int, totalPage: int)
    requires currentIndex >= 0 && totalPage >= 2
    ensures NextIndex(currentIndex, totalPage) != currentIndex
  {
    if currentIndex + 1 == totalPage {
      assert NextIndex(currentIndex, totalPage) == 0;
    }
  }

  /**
   * Visits the indices from size - 1 down to 0 and classifies each, as the
   * widget's render loop does.
   */
  method ClassifyStack(size: nat, currentIndex: int, totalPage: int) returns (cards: seq<Card>)
    requires currentIndex >= 0 && totalPage >= 1
    ensures cards == Plan(size, currentIndex, totalPage)
  {
    cards := [];
    var index: int := size - 1;
    while index >= 0
      invariant -1 <= index < size
      invariant |cards| == size - 1 - index
      invariant forall k :: 0 <= k < |cards| ==> cards[k] == Card(size - 1 - k, Classify(size - 1 - k, currentIndex, totalPage))
    {
      cards := cards + [Card(index, Classify(index, currentIndex, totalPage))];
      index := index - 1;
    }
  }
}
