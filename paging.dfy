/**
 * The page indicator of the carousel: a counter modulo the page count that
 * moves one step per committed swipe.
 */
module Paging {

  import Arith

  /**
   * The indicator after one committed swipe. The widget computes
   * (indicator + 1) % totalPage with Kotlin's Int remainder, which agrees with
   * Dafny's % because both operands are non-negative here.
   */
  function Advance(indicator: int, totalPage: int): (r: int)
    requires totalPage >= 1 && indicator >= 0
    ensures 0 <= r < totalPage
    ensures indicator < totalPage ==> r == if indicator == totalPage - 1 then 0 else indicator + 1
  {
    Arith.ModSucc(indicator, totalPage);
    (indicator + 1) % totalPage
  }

  /** The indicator after k committed swipes. */
  function AdvanceTimes(indicator: int, totalPage: int, k: nat): (r: int)
    requires 0 <= indicator < totalPage
    ensures 0 <= r < totalPage
  {
    if k == 0 then indicator else Advance(AdvanceTimes(indicator, totalPage, k - 1), totalPage)
  }

  /** Advancing a reduced swipe count gives the reduced successor count. */
  lemma AdvanceReduced(swipes: nat, totalPage: int)
    requires totalPage >= 1
    ensures Advance(swipes % totalPage, totalPage) == (swipes + 1) % totalPage
  {
    Arith.ModSucc(swipes, totalPage);
  }

  /** k committed swipes from an in-range indicator land on (indicator + k) % totalPage. */
  lemma {:induction false} AdvanceTimesMod(indicator: int, totalPage: int, k: nat)
    requires 0 <= indicator < totalPage
    ensures AdvanceTimes(indicator, totalPage, k) == (indicator + k) % totalPage
  {
    if k > 0 {
      AdvanceTimesMod(indicator, totalPage, k - 1);
      AdvanceReduced(indicator + k - 1, totalPage);
    } else {
      Arith.ModUnique(indicator, totalPage, 0, indicator);
    }
  }

  /** After totalPage committed swipes the indicator is back where it started. */
  lemma FullCycle(indicator: int, totalPage: int)
    requires 0 <= indicator < totalPage
    ensures AdvanceTimes(indicator, totalPage, totalPage) == indicator
  {
    AdvanceTimesMod(indicator, totalPage, totalPage);
    Arith.ModUnique(indicator + totalPage, totalPage, 1, indicator);
  }
}
