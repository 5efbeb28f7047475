/**
 * The reward/debt ledger: the pair of balances the dashboard caches from the
 * profile document, and the arithmetic behind the values a reward request or
 * an overage deduction writes back.
 */
module Ledger {

  /** Minutes one honoured reward request is worth. */
  const DAILY_REWARD: int := 30

  /** Flex time (minutes, may be negative) and screen-time debt (minutes). */
  datatype Balances = Balances(flex: int, debt: int)

  /** The balances a new profile document is created with. */
  const INITIAL: Balances := Balances(60, 0)

  /** Debt never negative: the invariant the reward and deduction arithmetic keep. */
  predicate DebtNonNegative(b: Balances) {
    b.debt >= 0
  }

  function Min(x: int, y: int): int {
    if x <= y then x else y
  }

  /** The profile values a granted reward writes, and the debt it cleared. */
  datatype Award = Award(newFlex: int, newDebt: int, debtCleared: int)

  /**
   * A granted reward offsets debt first and pays the rest out as flex time:
   * the result keeps debt non-negative, never lowers flex, and the flex gained
   * plus the debt cleared is exactly the daily reward; either all debt is
   * gone or none of the reward reached flex.
   */
  function Reward(b: Balances): (a: Award)
    ensures a.newDebt >= 0
    ensures DebtNonNegative(b) ==> a.newDebt <= b.debt
    ensures a.newFlex >= b.flex
    ensures (a.newFlex - b.flex) + (b.debt - a.newDebt) == DAILY_REWARD
    ensures a.debtCleared == b.debt - a.newDebt
    ensures a.newDebt == 0 || a.newFlex == b.flex
  {
    var debtCleared := Min(DAILY_REWARD, b.debt);
    var netReward := DAILY_REWARD - debtCleared;
    Award(b.flex + netReward, b.debt - debtCleared, debtCleared)
  }

  /**
   * The properties in Reward's contract single its result out: any pair of
   * new balances that has them is the one Reward computes.
   */
  lemma RewardDetermined(b: Balances, newFlex: int, newDebt: int)
    requires newDebt >= 0 && newFlex >= b.flex
    requires (newFlex - b.flex) + (b.debt - newDebt) == DAILY_REWARD
    requires newDebt == 0 || newFlex == b.flex
    ensures newFlex == Reward(b).newFlex && newDebt == Reward(b).newDebt
  {
  }

  /**
   * An overage moves `minutes` from flex time to debt: the total is
   * unchanged, flex is not clamped, and a non-negative deduction keeps
   * debt non-negative.
   */
  function Deduct(b: Balances, minutes: int): (r: Balances)
    ensures r.flex + r.debt == b.flex + b.debt
    ensures r.debt - b.debt == minutes
    ensures minutes >= 0 && DebtNonNegative(b) ==> DebtNonNegative(r)
  {
    Balances(b.flex - minutes, b.debt + minutes)
  }

  /** Flex time is not clamped: a deduction larger than the balance leaves it negative. */
  lemma DeductCanOverdraw(b: Balances, minutes: int)
    requires minutes > b.flex
    ensures Deduct(b, minutes).flex < 0
  {
  }

  // ---------------------------------------------------------------------
  // Sequences of ledger writes

  /** A ledger write: a granted reward, or an overage of some minutes. */
  datatype Entry = Granted | Overage(minutes: int)

  function Apply(b: Balances, e: Entry): Balances {
    match e
    case Granted => var a := Reward(b); Balances(a.newFlex, a.newDebt)
    case Overage(m) => Deduct(b, m)
  }

  /**
   * The balances after each entry's write has been stored and read back by
   * the profile snapshot before the next action computes from them.
   */
  function Replay(b: Balances, es: seq<Entry>): Balances
    decreases |es|
  {
    if es == [] then b else Replay(Apply(b, es[0]), es[1..])
  }

  function GrantCount(es: seq<Entry>): nat {
    if es == [] then 0 else (if es[0].Granted? then 1 else 0) + GrantCount(es[1..])
  }

  predicate NoNegativeOverage(es: seq<Entry>) {
    forall i :: 0 <= i < |es| && es[i].Overage? ==> es[i].minutes >= 0
  }

  /** Starting from a non-negative debt, rewards and non-negative overages never make debt negative. */
  lemma {:induction false} ReplayKeepsDebtNonNegative(b: Balances, es: seq<Entry>)
    requires DebtNonNegative(b) && NoNegativeOverage(es)
    ensures DebtNonNegative(Replay(b, es))
    decreases |es|
  {
    if es != [] {
      assert NoNegativeOverage(es[1..]) by {
        forall i | 0 <= i < |es[1..]| && es[1..][i].Overage? ensures es[1..][i].minutes >= 0 {
          assert es[1..][i] == es[i + 1];
        }
      }
      ReplayKeepsDebtNonNegative(Apply(b, es[0]), es[1..]);
    }
  }

  /** Total minutes of all overages in `es`. */
  function OverageMinutes(es: seq<Entry>): int {
    if es == [] then 0 else (if es[0].Overage? then es[0].minutes else 0) + OverageMinutes(es[1..])
  }

  /** Net standing: flex time minus debt. */
  function Net(b: Balances): int {
    b.flex - b.debt
  }

  /**
   * Over any sequence of writes, each granted request raises the net standing
   * (flex minus debt) by exactly the daily reward, whatever debt it cleared,
   * and each overage of m minutes lowers it by 2m, since it both takes m from
   * flex and adds m to debt.
   */
  lemma {:induction false} ReplayNet(b: Balances, es: seq<Entry>)
    ensures Net(Replay(b, es)) == Net(b) + DAILY_REWARD * GrantCount(es) - 2 * OverageMinutes(es)
    decreases |es|
  {
    if es != [] {
      ReplayNet(Apply(b, es[0]), es[1..]);
    }
  }
}
