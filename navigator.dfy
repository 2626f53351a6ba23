/** The list-page navigator: returning the list to a given page after a reset
    by jumping over ten-page groups and clicking the page's button, and the
    bounded modal clean-up.  What the browser shows is an oracle. */
module Navigator {

  /** Pages are shown in groups of ten: 1-10, 11-20, ... */
  const GroupSize := 10

  /** The first page of the group holding page `n` (`((n - 1) // 10) * 10 + 1`). */
  function TargetGroupStart(n: int): (s: int)
    requires n >= 1
    ensures s % GroupSize == 1 && s <= n < s + GroupSize
  {
    ((n - 1) / GroupSize) * GroupSize + 1
  }

  /** The "next group" jumps needed from page 1 to reach page `n`'s group. */
  function GroupJumps(n: int): nat
    requires n >= 1
  {
    (n - 1) / GroupSize
  }

  /** What the browser offers during a restore: whether the `j`-th click on the
      next-group button finds the button, whether a blocking modal is up before
      the `j`-th click (`blockedAt(GroupJumps(n))` is the final page click),
      and whether page `n`'s button is found by its id or by its text. */
  datatype PagerOracle = PagerOracle(
    nextGroupFound: nat -> bool,
    blockedAt: nat -> bool,
    pageButtonById: int -> bool,
    pageButtonByText: int -> bool)

  /** The browser actions `restore_pagination` takes, in order. */
  datatype Action = CloseModals | NextGroup | ClickPage(page: int, byId: bool)

  datatype RestoreError = NextGroupMissing | PageButtonMissing

  /** How `restore_pagination` ends: restored, nothing to do for page 1, or the error it raises. */
  datatype RestoreOutcome = Restored | NothingToDo | RestoreFailed(error: RestoreError)

  /** All of the first `k` next-group clicks find the button. */
  predicate JumpsSucceed(oracle: PagerOracle, k: nat) {
    forall j :: 0 <= j < k ==> oracle.nextGroupFound(j)
  }

  function CountNextGroup(actions: seq<Action>): nat {
    if actions == [] then 0
    else CountNextGroup(actions[..|actions| - 1]) + (if actions[|actions| - 1] == NextGroup then 1 else 0)
  }

  predicate NoPageClick(actions: seq<Action>) {
    forall i :: 0 <= i < |actions| ==> !actions[i].ClickPage?
  }

  lemma CountNextGroupAppend(actions: seq<Action>, a: Action)
    ensures CountNextGroup(actions + [a]) == CountNextGroup(actions) + (if a == NextGroup then 1 else 0)
  {
    assert (actions + [a])[..|actions|] == actions;
  }

  /** `restore_pagination(n)`: nothing for `n <= 1`; otherwise close modals, jump
      group by group from page 1, then click page `n` by id, else by text.
      Every failure is raised to the caller. */
  method RestorePagination(n: int, oracle: PagerOracle) returns (outcome: RestoreOutcome, actions: seq<Action>)
    ensures n <= 1 <==> outcome == NothingToDo
    ensures n <= 1 ==> actions == []
    ensures n > 1 ==> actions != [] && actions[0] == CloseModals
    ensures n > 1 && !JumpsSucceed(oracle, GroupJumps(n)) ==> outcome == RestoreFailed(NextGroupMissing)
    ensures n > 1 && JumpsSucceed(oracle, GroupJumps(n)) ==>
              outcome == (if oracle.pageButtonById(n) || oracle.pageButtonByText(n) then Restored
                          else RestoreFailed(PageButtonMissing))
    ensures outcome == RestoreFailed(NextGroupMissing) ==> NoPageClick(actions)
    ensures outcome == Restored ==>
              CountNextGroup(actions) == GroupJumps(n)
              && actions[|actions| - 1] == ClickPage(n, oracle.pageButtonById(n))
              && NoPageClick(actions[..|actions| - 1])
  {
    actions := [];
    if n <= 1 {
      return NothingToDo, actions;
    }
    actions := [CloseModals];
    var currentGroupStart := 1;
    var targetGroupStart := TargetGroupStart(n);
    assert targetGroupStart == 10 * GroupJumps(n) + 1;
    var jumps := 0;
    while currentGroupStart < targetGroupStart
      invariant currentGroupStart == 10 * jumps + 1
      invariant targetGroupStart == 10 * GroupJumps(n) + 1
      invariant currentGroupStart <= targetGroupStart
      invariant JumpsSucceed(oracle, jumps)
      invariant actions != [] && actions[0] == CloseModals
      invariant CountNextGroup(actions) == jumps
      invariant NoPageClick(actions)
      decreases targetGroupStart - currentGroupStart
    {
      if oracle.blockedAt(jumps) {
        CountNextGroupAppend(actions, CloseModals);
        actions := actions + [CloseModals];
      }
      if oracle.nextGroupFound(jumps) {
        CountNextGroupAppend(actions, NextGroup);
        actions := actions + [NextGroup];
        currentGroupStart := currentGroupStart + 10;
        jumps := jumps + 1;
      } else {
        assert jumps < GroupJumps(n);
        return RestoreFailed(NextGroupMissing), actions;
      }
    }
    assert jumps == GroupJumps(n);
    if oracle.blockedAt(jumps) {
      CountNextGroupAppend(actions, CloseModals);
      actions := actions + [CloseModals];
    }
    if oracle.pageButtonById(n) {
      CountNextGroupAppend(actions, ClickPage(n, true));
      actions := actions + [ClickPage(n, true)];
      return Restored, actions;
    }
    if oracle.pageButtonByText(n) {
      CountNextGroupAppend(actions, ClickPage(n, false));
      actions := actions + [ClickPage(n, false)];
      return Restored, actions;
    }
    return RestoreFailed(PageButtonMissing), actions;
  }

  /** Page 23 lies in the group starting at 21, two jumps from page 1. */
  lemma Page23TakesTwoJumps()
    ensures TargetGroupStart(23) == 21 && GroupJumps(23) == 2
  {
  }

  /** The number of clean-up rounds `close_modals` performs. */
  const MaxCleanupRounds := 3

  /** `close_modals`: up to three rounds; a round is spent only while a modal,
      an overlay or an extra tab is still open (`openAt(i)` tells whether one
      is seen at the start of round `i`). */
  method CloseModalRounds(openAt: nat -> bool) returns (rounds: nat)
    ensures rounds <= MaxCleanupRounds
    ensures forall i :: 0 <= i < rounds ==> openAt(i)
    ensures rounds < MaxCleanupRounds ==> !openAt(rounds)
  {
    rounds := 0;
    for i := 0 to MaxCleanupRounds
      invariant rounds == i
      invariant forall k :: 0 <= k < rounds ==> openAt(k)
    {
      if !openAt(i) {
        return;
      }
      rounds := rounds + 1;
    }
  }
}
