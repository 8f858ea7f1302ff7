/** The turn arithmetic of `moveToNextPick` (hsappsoccer/DraftBoardView.swift),
    stated on values: a draft's round counter, within-round pick counter, team
    index and visitation order. */
module Schedule {

  /** Teams per round; `moveToNextPick` hard-codes 12. */
  const TeamCount: int := 12

  /** The visitation order a new mock draft starts with: `Array(1...12)`. */
  const InitialOrder: seq<int> := [1, 2, 3, 4, 5, 6, 7, 8, 9, 10, 11, 12]

  /** The scheduling fields of a `Draft`. */
  datatype Turn = Turn(round: int, pick: int, teamIndex: int, order: seq<int>)

  /** The state `createMockDraft` starts from: round 1, pick 1, team index 0. */
  const Initial: Turn := Turn(1, 1, 0, InitialOrder)

  /** Swift's `a % 12` on `Int`: the quotient truncates toward zero, so the
      remainder takes the sign of the dividend (Dafny's `%` never is negative). */
  function SwiftRemainder(a: int): (r: int)
    ensures (a - r) % TeamCount == 0
    ensures a >= 0 ==> 0 <= r < TeamCount
    ensures a < 0 ==> -TeamCount < r <= 0
  {
    if a >= 0 then a % TeamCount else -((-a) % TeamCount)
  }

  /** `Array.reverse()`. */
  function Reverse<T>(s: seq<T>): (r: seq<T>)
    ensures |r| == |s|
  {
    seq(|s|, i requires 0 <= i < |s| => s[|s| - 1 - i])
  }

  /** Reversing a non-empty sequence puts its head last. */
  lemma ReverseCons<T>(s: seq<T>)
    requires |s| > 0
    ensures Reverse(s) == Reverse(s[1..]) + [s[0]]
  {
    var r := Reverse(s);
    var r' := Reverse(s[1..]) + [s[0]];
    forall i | 0 <= i < |s|
      ensures r[i] == r'[i]
    {
      if i < |s| - 1 {
        assert r'[i] == Reverse(s[1..])[i] == s[1..][|s| - 2 - i];
      }
    }
  }

  /** Reversal keeps the same elements: the order stays a permutation. */
  lemma {:induction false} ReversePermutes<T>(s: seq<T>)
    ensures multiset(Reverse(s)) == multiset(s)
  {
    if |s| > 0 {
      ReversePermutes(s[1..]);
      ReverseCons(s);
      assert s == [s[0]] + s[1..];
    }
  }

  /** Element `i` of the reversal is element `|s| - 1 - i` of the original. */
  lemma ReverseAt<T>(s: seq<T>, i: int)
    requires 0 <= i < |s|
    ensures Reverse(s)[i] == s[|s| - 1 - i]
  {
  }

  lemma ReverseInvolutive<T>(s: seq<T>)
    ensures Reverse(Reverse(s)) == s
  {
    var r := Reverse(s);
    var rr := Reverse(r);
    forall i | 0 <= i < |s|
      ensures rr[i] == s[i]
    {
      ReverseAt(r, i);
      ReverseAt(s, |s| - 1 - i);
    }
  }

  /** A turn whose counters are in the ranges a draft started by
      `createMockDraft` keeps them in. */
  predicate InRange(t: Turn) {
    t.round >= 1 && 1 <= t.pick <= TeamCount && 0 <= t.teamIndex < TeamCount
  }

  /** Number of picks completed before `t` when the counters are in range. */
  function Slot(t: Turn): int {
    (t.round - 1) * TeamCount + (t.pick - 1)
  }

  /** One call of `moveToNextPick`: the pick counter goes up; past 12 the round
      goes up, the pick counter restarts at 1 and the order is reversed; the team
      index independently moves to `(index + 1) % 12`. */
  function Advance(t: Turn): Turn {
    var index := SwiftRemainder(t.teamIndex + 1);
    if t.pick + 1 > TeamCount then
      Turn(t.round + 1, 1, index, Reverse(t.order))
    else
      Turn(t.round, t.pick + 1, index, t.order)
  }

  /** What one step does: the round stays or goes up by one, and goes up
      exactly when the pick counter passes 12; the order is reversed exactly
      then; the team index always changes and a non-negative one stays in
      0..11; in-range counters stay in range and move one pick on. */
  lemma AdvanceSpec(t: Turn)
    ensures var r := Advance(t);
      && (r.round == t.round || r.round == t.round + 1)
      && (r.round == t.round + 1 <==> t.pick + 1 > TeamCount)
      && r.order == (if r.round == t.round then t.order else Reverse(t.order))
      && r.teamIndex != t.teamIndex
      && (t.teamIndex >= 0 ==> 0 <= r.teamIndex < TeamCount)
      && (InRange(t) ==> InRange(r) && Slot(r) == Slot(t) + 1)
  {
  }

  /** Starting from a pick counter in 1..12, the counter stays in 1..12,
      whatever the round and team index are. */
  lemma AdvanceKeepsPickInRange(t: Turn)
    requires 1 <= t.pick <= TeamCount
    ensures 1 <= Advance(t).pick <= TeamCount
  {
  }

  /** The visitation order `moveToNextPick` leaves is a permutation of the one
      it found. */
  lemma AdvancePermutesOrder(t: Turn)
    ensures multiset(Advance(t).order) == multiset(t.order)
  {
    ReversePermutes(t.order);
  }

  /** `n` successive calls of `moveToNextPick`. */
  function AdvanceN(t: Turn, n: nat): Turn {
    if n == 0 then t else Advance(AdvanceN(t, n - 1))
  }

  /** The order after `k` round boundaries, by parity. */
  function OrderAfter<T>(s: seq<T>, k: nat): seq<T> {
    if k % 2 == 0 then s else Reverse(s)
  }

  /** One more boundary reverses the order once more. */
  lemma ReverseOrderAfter<T>(s: seq<T>, k: nat)
    ensures Reverse(OrderAfter(s, k)) == OrderAfter(s, k + 1)
  {
    if k % 2 == 1 {
      ReverseInvolutive(s);
    }
  }

  /** The turn reached after `m` completed picks counted from pick 1 of round
      `round0`, with the team counter at `j` and the order starting as
      `order0`. */
  function TurnFrom(round0: int, order0: seq<int>, m: nat, j: nat): Turn {
    Turn(round0 + m / TeamCount, m % TeamCount + 1, j % TeamCount, OrderAfter(order0, m / TeamCount))
  }

  /** Closed form of `n` advances from a turn whose counters are in range:
      the pick counter and round follow the number of completed picks, the
      team index just counts modulo 12, and the order has been reversed once
      per round boundary crossed. */
  lemma {:induction false} AdvanceNClosedForm(t: Turn, n: nat)
    requires InRange(t)
    ensures AdvanceN(t, n) == TurnFrom(t.round, t.order, t.pick - 1 + n, t.teamIndex + n)
  {
    if n > 0 {
      AdvanceNClosedForm(t, n - 1);
      AdvanceFromSlot(t.round, t.order, t.pick - 1 + (n - 1), t.teamIndex + (n - 1), t.pick - 1 + n, t.teamIndex + n);
    } else {
      TurnFromStart(t);
    }
  }

  /** Zero completed picks from an in-range turn is that turn. */
  lemma TurnFromStart(t: Turn)
    requires InRange(t)
    ensures TurnFrom(t.round, t.order, t.pick - 1, t.teamIndex) == t
  {
  }

  /** One advance from the turn reached after `m` picks (team counter at `j`)
      gives the turn reached after `m + 1` picks. */
  lemma AdvanceFromSlot(round0: int, order0: seq<int>, m: nat, j: nat, m': nat, j': nat)
    requires m' == m + 1 && j' == j + 1
    ensures Advance(TurnFrom(round0, order0, m, j)) == TurnFrom(round0, order0, m', j')
  {
    StepDivMod(m);
    StepDivMod(j);
    ReverseOrderAfter(order0, m / TeamCount);
  }

  /** How one more completed pick moves the quotient and remainder by 12. */
  lemma StepDivMod(m: nat)
    ensures m % TeamCount == TeamCount - 1 ==> (m + 1) / TeamCount == m / TeamCount + 1 && (m + 1) % TeamCount == 0
    ensures m % TeamCount < TeamCount - 1 ==> (m + 1) / TeamCount == m / TeamCount && (m + 1) % TeamCount == m % TeamCount + 1
  {
  }

  /** Shifting by whole rounds moves the quotient and keeps the remainder. */
  lemma {:induction false} DivModShift(a: nat, k: nat)
    ensures (a + k * TeamCount) / TeamCount == a / TeamCount + k
    ensures (a + k * TeamCount) % TeamCount == a % TeamCount
  {
    if k > 0 {
      DivModShift(a, k - 1);
      assert a + k * TeamCount == (a + (k - 1) * TeamCount) + TeamCount;
    }
  }

  /** `k` whole rounds of picks from any in-range turn: the same pick counter
      and team index, `k` rounds later, and the order after `k` boundaries
      (in particular the team index is back where it started after 12 picks). */
  lemma WholeRounds(t: Turn, k: nat, n: nat)
    requires InRange(t) && n == k * TeamCount
    ensures AdvanceN(t, n) == t.(round := t.round + k, order := OrderAfter(t.order, k))
  {
    AdvanceNClosedForm(t, n);
    TurnFromWholeRounds(t, k, n);
  }

  /** `k` rounds of completed picks move only the round and the order. */
  lemma TurnFromWholeRounds(t: Turn, k: nat, n: nat)
    requires InRange(t) && n == k * TeamCount
    ensures TurnFrom(t.round, t.order, t.pick - 1 + n, t.teamIndex + n)
         == t.(round := t.round + k, order := OrderAfter(t.order, k))
  {
    var a: nat, j: nat := t.pick - 1, t.teamIndex;
    DivModShift(a, k);
    DivModShift(j, k);
    assert a / TeamCount == 0 && a % TeamCount == a;
    assert j % TeamCount == j;
  }

  /** Every two round boundaries restore the visitation order. */
  lemma EvenRoundsRestoreOrder(t: Turn, k: nat, n: nat)
    requires InRange(t) && n == 2 * k * TeamCount
    ensures AdvanceN(t, n) == t.(round := t.round + 2 * k)
  {
    WholeRounds(t, 2 * k, n);
  }

  /** The turn after `n` completed picks of a draft begun from `Initial`. */
  function TurnAt(n: nat): (t: Turn)
    ensures InRange(t) && Slot(t) == n
    ensures t.teamIndex == t.pick - 1
  {
    Turn(n / TeamCount + 1, n % TeamCount + 1, n % TeamCount, OrderAfter(InitialOrder, n / TeamCount))
  }

  /** `TurnAt` is exactly what repeated `moveToNextPick` produces from the
      initial state. */
  lemma ReachedTurn(n: nat)
    ensures AdvanceN(Initial, n) == TurnAt(n)
  {
    var t := Initial;
    assert t.round == 1 && t.pick == 1 && t.teamIndex == 0 && t.order == InitialOrder;
    AdvanceNClosedForm(t, n);
    assert t.pick - 1 + n == n && t.teamIndex + n == n;
  }

  lemma AdvanceTurnAt(n: nat)
    ensures Advance(TurnAt(n)) == TurnAt(n + 1)
  {
    ReachedTurn(n);
    ReachedTurn(n + 1);
  }

  /** In odd rounds the order is `[1..12]`, in even rounds its reversal. */
  lemma TurnAtOrder(n: nat)
    ensures TurnAt(n).order == if TurnAt(n).round % 2 == 1 then InitialOrder else Reverse(InitialOrder)
  {
    var q := n / TeamCount;
    assert q % 2 == 0 <==> (q + 1) % 2 == 1;
  }

  /** Turns are not snaked: the team index depends only on the pick within
      the round, so the same index is on the clock at the same pick of every
      round, while the (unread) order is reversed. */
  lemma TeamIndexIgnoresRound(n: nat)
    ensures TurnAt(n + TeamCount).teamIndex == TurnAt(n).teamIndex
    ensures TurnAt(n + TeamCount).pick == TurnAt(n).pick
    ensures TurnAt(n + TeamCount).round == TurnAt(n).round + 1
    ensures TurnAt(n + TeamCount).order == Reverse(TurnAt(n).order)
  {
    DivModShift(n, 1);
    ReverseOrderAfter(InitialOrder, n / TeamCount);
  }
}
