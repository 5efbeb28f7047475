/**
 * The values the dashboard shows beside the task list: the progress bar's
 * width, label and colour, and the colours of the flex-time and debt
 * read-outs.
 */
module Display {
  import opened Tasks
  import opened Text
  import opened Ledger

  datatype Colour = Green | Red | Blue

  /** The flex read-out is green while the balance is not negative. */
  function FlexColour(flex: int): (c: Colour)
    ensures c != Blue
    ensures c == Red <==> flex < 0
  {
    if flex >= 0 then Green else Red
  }

  /** The debt read-out is red while any debt is owed. */
  function DebtColour(debt: int): (c: Colour)
    ensures c != Blue
    ensures c == Green <==> debt <= 0
  {
    if debt > 0 then Red else Green
  }

  /**
   * `(completed / total * 100).toFixed(0)`, and 0 with no tasks: the whole
   * percentage nearest to completed/total, a half rounded up.
   */
  function Percent(completed: nat, total: nat): (p: nat)
    requires completed <= total
    ensures p <= 100
    ensures total == 0 ==> p == 0
    ensures total > 0 ==> 2 * total * p <= 200 * completed + total < 2 * total * p + 2 * total
  {
    if total == 0 then 0
    else
      var n, d := 200 * completed + total, 2 * total;
      var p := n / d;
      DivBounds(n, d);
      assert n < d * 101;
      CancelFactor(d, p, 101);
      p
  }

  /** Euclidean division of a non-negative numerator leaves a quotient within one divisor of it. */
  lemma DivBounds(n: nat, d: nat)
    requires d > 0
    ensures d * (n / d) <= n < d * (n / d) + d
  {
  }

  /** A positive factor can be cancelled from a strict inequality. */
  lemma CancelFactor(a: int, p: int, b: int)
    requires a > 0 && a * p < a * b
    ensures p < b
  {
  }

  /** `${completed}/${total} Tasks Completed`. */
  function ProgressLabel(completed: nat, total: nat): (l: string)
    ensures var c, t := Decimal(completed), Decimal(total);
      && |l| == |c| + 1 + |t| + |" Tasks Completed"|
      && l[..|c|] == c
      && l[|c|] == '/'
      && l[|c| + 1..|c| + 1 + |t|] == t
      && l[|c| + 1 + |t|..] == " Tasks Completed"
  {
    Decimal(completed) + "/" + Decimal(total) + " Tasks Completed"
  }

  /** The progress bar: width in percent, label and colour. */
  datatype Progress = Progress(percent: nat, text: string, bar: Colour)

  /**
   * The progress bar for a task list: its width lies in 0..100, its label
   * counts the completed and all tasks, and it turns blue exactly when
   * there is at least one task and every task is completed.
   */
  function UpdateProgress(tasks: seq<Task>): (v: Progress)
    ensures v.percent == Percent(|Completed(tasks)|, |tasks|)
    ensures v.percent <= 100
    ensures tasks == [] ==> v.percent == 0
    ensures v.text == ProgressLabel(|Completed(tasks)|, |tasks|)
    ensures v.bar == Blue <==> tasks != [] && forall i :: 0 <= i < |tasks| ==> tasks[i].completed
    ensures v.bar != Red
  {
    CompletedAll(tasks);
    var total := |tasks|;
    var completed := |Completed(tasks)|;
    Progress(
      Percent(completed, total),
      ProgressLabel(completed, total),
      if completed == total && total > 0 then Blue else Green)
  }

  /** A full bar needs every task completed unless the list is long: rounding reaches 100 at 199 of 200. */
  lemma FullBarWithoutAllDone()
    ensures Percent(199, 200) == 100
  {
  }

  /** The label tells the counts apart: different counts never share a label. */
  lemma {:induction false} ProgressLabelInjective(c1: nat, t1: nat, c2: nat, t2: nat)
    requires ProgressLabel(c1, t1) == ProgressLabel(c2, t2)
    ensures c1 == c2 && t1 == t2
  {
    var l := ProgressLabel(c1, t1);
    var a1, a2 := Decimal(c1), Decimal(c2);
    assert l[|a1|] == '/';
    assert ProgressLabel(c2, t2)[|a2|] == '/';
    assert a1 == l[..|a1|] && a2 == l[..|a2|];
    DecimalInjective(c1, c2);
    var b1, b2 := Decimal(t1), Decimal(t2);
    assert |b1| == |b2|;
    assert b1 == l[|a1| + 1..|a1| + 1 + |b1|];
    assert b2 == l[|a2| + 1..|a2| + 1 + |b2|];
    DecimalInjective(t1, t2);
  }

  /** A reward never turns a green flex read-out red. */
  lemma RewardKeepsFlexGreen(b: Balances)
    requires FlexColour(b.flex) == Green
    ensures FlexColour(Reward(b).newFlex) == Green
  {
  }

  /** After a reward the debt read-out is green exactly when the debt did not exceed the reward. */
  lemma RewardClearsDebtColour(b: Balances)
    ensures DebtColour(Reward(b).newDebt) == Green <==> b.debt <= DAILY_REWARD
  {
  }

  /** Any positive overage on non-negative debt turns the debt read-out red. */
  lemma OverageTurnsDebtRed(b: Balances, minutes: int)
    requires DebtNonNegative(b) && minutes > 0
    ensures DebtColour(Deduct(b, minutes).debt) == Red
  {
  }
}
