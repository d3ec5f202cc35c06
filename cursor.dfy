/** The wrap-around cursor over a result list of `n` URLs that the Previous
    and Next buttons move. */
module Cursor {

  /** Where Next moves the cursor. */
  function Successor(i: int, n: nat): int
    requires n > 0
  {
    (i + 1) % n
  }

  /** Where Previous moves the cursor. */
  function Predecessor(i: int, n: nat): int
    requires n > 0
  {
    (i - 1 + n) % n
  }

  /** Next keeps a cursor in range and wraps the last position to the first. */
  lemma SuccessorInRange(i: int, n: nat)
    requires 0 <= i < n
    ensures 0 <= Successor(i, n) < n
    ensures Successor(i, n) == if i == n - 1 then 0 else i + 1
  {
  }

  /** Previous keeps a cursor in range and wraps the first position to the last. */
  lemma PredecessorInRange(i: int, n: nat)
    requires 0 <= i < n
    ensures 0 <= Predecessor(i, n) < n
    ensures Predecessor(i, n) == if i == 0 then n - 1 else i - 1
  {
  }

  /** Previous undoes Next, and Next undoes Previous. */
  lemma PredecessorSuccessor(i: int, n: nat)
    requires 0 <= i < n
    ensures Predecessor(Successor(i, n), n) == i
    ensures Successor(Predecessor(i, n), n) == i
  {
    SuccessorInRange(i, n);
    PredecessorInRange(i, n);
  }

  /** The cursor after `k` presses of Next. */
  function NextTimes(i: int, n: nat, k: nat): int
    requires n > 0
  {
    if k == 0 then i else Successor(NextTimes(i, n, k - 1), n)
  }

  /** While the cursor does not pass the end, `k` presses of Next move it `k`
      places forward. */
  lemma {:induction false} NextTimesForward(i: int, n: nat, k: nat)
    requires 0 <= i && i + k < n
    ensures NextTimes(i, n, k) == i + k
  {
    if k > 0 {
      NextTimesForward(i, n, k - 1);
      SuccessorInRange(i + k - 1, n);
    }
  }

  /** Pressing Next `a + b` times is pressing it `a` times, then `b` times. */
  lemma {:induction false} NextTimesAdd(i: int, n: nat, a: nat, b: nat)
    requires n > 0
    ensures NextTimes(i, n, a + b) == NextTimes(NextTimes(i, n, a), n, b)
  {
    if b > 0 {
      NextTimesAdd(i, n, a, b - 1);
    }
  }

  /** `n` presses of Next bring the cursor back to where it started. */
  lemma NextFullCircle(i: int, n: nat)
    requires 0 <= i < n
    ensures NextTimes(i, n, n) == i
  {
    var a := n - 1 - i;
    NextTimesForward(i, n, a);
    NextTimesAdd(i, n, a, 1);
    SuccessorInRange(n - 1, n);
    assert NextTimes(i, n, a + 1) == 0;
    NextTimesAdd(i, n, a + 1, i);
    NextTimesForward(0, n, i);
  }

  datatype Press = Prev | Next

  /** The cursor after a sequence of button presses, applied left to right. */
  function Navigate(i: int, n: nat, presses: seq<Press>): int
    requires n > 0
  {
    if presses == [] then i
    else
      var j := Navigate(i, n, presses[..|presses| - 1]);
      match presses[|presses| - 1]
      case Prev => Predecessor(j, n)
      case Next => Successor(j, n)
  }

  /** Any sequence of presses keeps the cursor in range. */
  lemma {:induction false} NavigateInRange(i: int, n: nat, presses: seq<Press>)
    requires 0 <= i < n
    ensures 0 <= Navigate(i, n, presses) < n
  {
    if presses != [] {
      var j := Navigate(i, n, presses[..|presses| - 1]);
      NavigateInRange(i, n, presses[..|presses| - 1]);
      SuccessorInRange(j, n);
      PredecessorInRange(j, n);
    }
  }

  /** The presses that undo `presses`: each one mirrored, in reverse order. */
  function Undo(presses: seq<Press>): (r: seq<Press>)
    ensures |r| == |presses|
  {
    if presses == [] then []
    else [if presses[|presses| - 1] == Next then Prev else Next] + Undo(presses[..|presses| - 1])
  }

  /** Pressing the buttons in one order and then undoing them returns the
      cursor to where it started. */
  lemma {:induction false} NavigateUndo(i: int, n: nat, presses: seq<Press>)
    requires 0 <= i < n
    ensures Navigate(i, n, presses + Undo(presses)) == i
  {
    if presses != [] {
      var init := presses[..|presses| - 1];
      var p := presses[|presses| - 1];
      var q := if p == Next then Prev else Next;
      NavigateInRange(i, n, init);
      var j := Navigate(i, n, init);
      PredecessorSuccessor(j, n);
      NavigateUndo(i, n, init);
      // presses + Undo(presses) == init + [p] + [q] + Undo(init)
      assert presses + Undo(presses) == (init + [p, q]) + Undo(init);
      NavigateAppend(i, n, init + [p, q], Undo(init));
      NavigateAppend(i, n, init, Undo(init));
      assert (init + [p, q])[..|init| + 1] == init + [p];
      assert (init + [p])[..|init|] == init;
      assert Navigate(i, n, init + [p, q]) == j;
    }
  }

  /** Presses compose: the cursor after `a + b` is the cursor after `b`
      started from the cursor after `a`. */
  lemma {:induction false} NavigateAppend(i: int, n: nat, a: seq<Press>, b: seq<Press>)
    requires n > 0
    ensures Navigate(i, n, a + b) == Navigate(Navigate(i, n, a), n, b)
  {
    if b == [] {
      assert a + b == a;
    } else {
      assert (a + b)[..|a + b| - 1] == a + b[..|b| - 1];
      NavigateAppend(i, n, a, b[..|b| - 1]);
    }
  }
}
