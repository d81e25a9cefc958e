/** The settlement of a golden drawing, `evaluateGoldenSettlement` of
    scripts/megapot-golden-reconciliation.ts: the winnings are split evenly over the frozen
    beneficiaries, with the remainder to the first ones, and every credit is either paid in
    full or held. Amounts are whole atomic units. */
module GoldenSettlement {
  import opened Outcomes
  import opened GoldenAdmission

  datatype Beneficiary = Beneficiary(ordinal: nat, who: Who)

  datatype Claim = Unclaimed | Accepted | SubjectConflict

  datatype Credit = Credit(
    who: Who,
    ordinal: nat,
    amount: nat,
    paid: nat,
    reserved: nat,
    sent: bool,
    receiptConfirmed: bool,
    claim: Claim)

  datatype Plan = Plan(scope: Scope, participants: seq<Participant>, funding: nat, maxTicketPrice: nat)

  datatype Observation = Observation(
    observedAt: int,
    admission: Admission,
    status: string,
    funded: nat,
    spent: nat,
    refunded: nat,
    reserved: nat,
    netWinnings: nat,
    ticketCount: nat,
    purchaseReceiptCount: nat,
    unresolvedEffects: nat,
    otherUnresolvedDrawings: nat,
    refundReceipt: nat,
    claimReceipt: nat,
    beneficiaries: seq<Beneficiary>,
    credits: seq<Credit>)

  datatype Settlement = ReconciliationPending | NoWin | Win(paid: nat, held: nat)

  // ---- The split --------------------------------------------------------------------

  /** The part of the winnings for one ordinal: the quotient, and one unit of the remainder
      for the first ones. */
  function Share(net: nat, count: nat, ordinal: nat): nat
    requires count >= 1
  {
    net / count + (if ordinal < net % count then 1 else 0)
  }

  function SharesUpTo(net: nat, count: nat, k: nat): nat
    requires count >= 1
  {
    if k == 0 then 0 else SharesUpTo(net, count, k - 1) + Share(net, count, k - 1)
  }

  lemma {:induction false} SharesSoFar(net: nat, count: nat, k: nat)
    requires count >= 1
    ensures SharesUpTo(net, count, k) == k * (net / count) + (if k < net % count then k else net % count)
  {
    if k > 0 {
      SharesSoFar(net, count, k - 1);
      Multiples(k - 1, net / count);
    }
  }

  lemma Multiples(k: nat, q: nat)
    ensures (k + 1) * q == k * q + q
  {
  }

  /** The shares add up to the winnings, differ by at most one unit, and never grow with the
      ordinal. */
  lemma SharesSplitEvenly(net: nat, count: nat)
    requires count >= 1
    ensures SharesUpTo(net, count, count) == net
    ensures forall i: nat, j: nat :: i <= j ==> Share(net, count, j) <= Share(net, count, i) <= Share(net, count, j) + 1
  {
    SharesSoFar(net, count, count);
  }

  // ---- The checks before the loop ---------------------------------------------------

  predicate Matches(c: Credit, b: Beneficiary) {
    c.ordinal == b.ordinal && c.who == b.who
  }

  /** The first credit of a beneficiary. */
  function CreditOf(credits: seq<Credit>, b: Beneficiary): Option<Credit> {
    if credits == [] then None
    else if Matches(credits[0], b) then Some(credits[0])
    else CreditOf(credits[1..], b)
  }

  predicate EconomicBoundsHold(plan: Plan, o: Observation) {
    o.ticketCount <= 1 && o.funded == plan.funding && o.spent <= plan.maxTicketPrice
  }

  predicate Settled(o: Observation) {
    && (o.status == "no_win" || o.status == "credited")
    && o.ticketCount == 1 && o.purchaseReceiptCount == 1
    && o.unresolvedEffects == 0 && o.otherUnresolvedDrawings == 0
    && o.reserved == 0
    && o.refunded + o.spent == o.funded
    && o.refundReceipt == o.refunded
  }

  function BeneficiaryWhos(bs: seq<Beneficiary>): seq<Who> {
    Each(bs, (b: Beneficiary) => b.who)
  }

  predicate BeneficiariesFrozen(plan: Plan, o: Observation) {
    && |o.beneficiaries| == |plan.participants|
    && (forall i | 0 <= i < |o.beneficiaries| :: o.beneficiaries[i].ordinal == i)
    && (forall p | p in plan.participants :: Times(BeneficiaryWhos(o.beneficiaries), p.who) == 1)
  }

  // ---- The loop over the beneficiaries ----------------------------------------------

  /** What one beneficiary's credit does to the totals: a failure stands for a throw,
      nothing for a credit still on its way. */
  function CreditStep(o: Observation, count: nat, k: nat, paid: nat, held: nat): Result<Option<(nat, nat)>>
    requires count >= 1 && k < |o.beneficiaries|
  {
    var b := o.beneficiaries[k];
    var credit := CreditOf(o.credits, b);
    var expected := Share(o.netWinnings, count, b.ordinal);
    if credit.None? || credit.value.amount != expected then Failure("Allocation split mismatch.")
    else if !credit.value.claim.Accepted? then
      if credit.value.paid != 0 || credit.value.receiptConfirmed then Failure("Unclaimed credit was paid.")
      else if credit.value.reserved != 0 then Success(None)
      else Success(Some((paid, held + expected)))
    else if !credit.value.sent || !credit.value.receiptConfirmed || credit.value.reserved != 0
      || credit.value.paid != expected
      then Success(None)
    else Success(Some((paid + credit.value.paid, held)))
  }

  /** The totals over the beneficiaries from the k-th on. */
  function CreditsFrom(o: Observation, count: nat, k: nat, paid: nat, held: nat): Result<Option<(nat, nat)>>
    requires count >= 1 && k <= |o.beneficiaries|
    decreases |o.beneficiaries| - k
  {
    if k == |o.beneficiaries| then Success(Some((paid, held)))
    else
      var step :- CreditStep(o, count, k, paid, held);
      if step.None? then Success(None) else CreditsFrom(o, count, k + 1, step.value.0, step.value.1)
  }

  /** The outcome once the beneficiaries are known to match. */
  function SettleWin(o: Observation, count: nat): Result<Settlement>
    requires count >= 1
  {
    var totals :- CreditsFrom(o, count, 0, 0, 0);
    if totals.None? then Success(ReconciliationPending)
    else if totals.value.0 + totals.value.1 != o.netWinnings then Failure("Payout conservation mismatch.")
    else Success(Win(totals.value.0, totals.value.1))
  }

  /** The whole evaluation; a plan has participants (scripts/megapot-golden-multi-input.ts). */
  function Settle(plan: Plan, o: Observation, now: int): Result<Settlement>
    requires plan.participants != []
  {
    if o.observedAt > now || now - o.observedAt > 60000 then Failure("Settlement observation is not fresh.")
    else if !Asserts(plan.scope, plan.participants, o.admission) then
      Failure("Admission does not match the exact participant expectations.")
    else if !EconomicBoundsHold(plan, o) then Failure("Rehearsal economic bounds exceeded.")
    else if !Settled(o) then Success(ReconciliationPending)
    else if !BeneficiariesFrozen(plan, o) then Failure("Frozen beneficiaries do not match admitted participants.")
    else if o.status == "no_win" then
      if o.netWinnings != 0 || o.credits != [] || o.claimReceipt != 0
      then Failure("Losing drawing has unexpected winning liabilities.")
      else Success(NoWin)
    else if o.netWinnings < 1 || |o.credits| != |plan.participants| || o.claimReceipt != o.netWinnings
      then Success(ReconciliationPending)
    else SettleWin(o, |plan.participants|)
  }

  /** The loop of `evaluateGoldenSettlement` over the beneficiaries. */
  method PayOut(o: Observation, count: nat) returns (r: Result<Settlement>)
    requires count >= 1
    ensures r == SettleWin(o, count)
  {
    var net := o.netWinnings;
    var paid: nat, held: nat := 0, 0;
    for k := 0 to |o.beneficiaries|
      invariant CreditsFrom(o, count, 0, 0, 0) == CreditsFrom(o, count, k, paid, held)
    {
      var beneficiary := o.beneficiaries[k];
      var credit := CreditOf(o.credits, beneficiary);
      var expected := net / count + (if beneficiary.ordinal < net % count then 1 else 0);
      if credit.None? || credit.value.amount != expected {
        return Failure("Allocation split mismatch.");
      }
      if !credit.value.claim.Accepted? {
        if credit.value.paid != 0 || credit.value.receiptConfirmed {
          return Failure("Unclaimed credit was paid.");
        }
        if credit.value.reserved != 0 {
          return Success(ReconciliationPending);
        }
        held := held + expected;
        continue;
      }
      if !credit.value.sent || !credit.value.receiptConfirmed || credit.value.reserved != 0
        || credit.value.paid != expected {
        return Success(ReconciliationPending);
      }
      paid := paid + credit.value.paid;
    }
    if paid + held != net {
      return Failure("Payout conservation mismatch.");
    }
    r := Success(Win(paid, held));
  }

  /** `evaluateGoldenSettlement`. */
  method EvaluateGoldenSettlement(plan: Plan, o: Observation, now: int) returns (r: Result<Settlement>)
    requires plan.participants != []
    ensures r == Settle(plan, o, now)
  {
    if o.observedAt > now || now - o.observedAt > 60000 {
      return Failure("Settlement observation is not fresh.");
    }
    if !Asserts(plan.scope, plan.participants, o.admission) {
      return Failure("Admission does not match the exact participant expectations.");
    }
    if o.ticketCount > 1 || o.funded != plan.funding || o.spent > plan.maxTicketPrice {
      return Failure("Rehearsal economic bounds exceeded.");
    }
    if !Settled(o) {
      return Success(ReconciliationPending);
    }
    if !BeneficiariesFrozen(plan, o) {
      return Failure("Frozen beneficiaries do not match admitted participants.");
    }
    var net := o.netWinnings;
    if o.status == "no_win" {
      if net != 0 || o.credits != [] || o.claimReceipt != 0 {
        return Failure("Losing drawing has unexpected winning liabilities.");
      }
      return Success(NoWin);
    }
    if net < 1 || |o.credits| != |plan.participants| || o.claimReceipt != net {
      return Success(ReconciliationPending);
    }
    r := PayOut(o, |plan.participants|);
  }

  // ---- Conservation -----------------------------------------------------------------

  /** The totals the loop ends with are the winnings: every beneficiary's share went to one
      of them. */
  lemma {:induction false} TotalsAreShares(o: Observation, count: nat, k: nat, paid: nat, held: nat)
    requires count >= 1 && k <= |o.beneficiaries|
    requires forall i :: 0 <= i < |o.beneficiaries| ==> o.beneficiaries[i].ordinal == i
    requires CreditsFrom(o, count, k, paid, held).Success? && CreditsFrom(o, count, k, paid, held).value.Some?
    ensures var totals := CreditsFrom(o, count, k, paid, held).value.value;
            totals.0 + totals.1 + SharesUpTo(o.netWinnings, count, k)
            == paid + held + SharesUpTo(o.netWinnings, count, |o.beneficiaries|)
    decreases |o.beneficiaries| - k
  {
    if k < |o.beneficiaries| {
      var step := CreditStep(o, count, k, paid, held).value.value;
      assert step.0 + step.1 == paid + held + Share(o.netWinnings, count, k);
      TotalsAreShares(o, count, k + 1, step.0, step.1);
    }
  }

  /** The conservation check never fails: it guards nothing the other checks let through. */
  lemma ConservationNeverFails(plan: Plan, o: Observation)
    requires plan.participants != [] && BeneficiariesFrozen(plan, o)
    ensures SettleWin(o, |plan.participants|) != Failure("Payout conservation mismatch.")
    ensures SettleWin(o, |plan.participants|).Success? && SettleWin(o, |plan.participants|).value.Win? ==>
              SettleWin(o, |plan.participants|).value.paid + SettleWin(o, |plan.participants|).value.held
                == o.netWinnings
  {
    var count := |plan.participants|;
    var totals := CreditsFrom(o, count, 0, 0, 0);
    OtherFailures(o, count, 0, 0, 0);
    if totals.Success? && totals.value.Some? {
      TotalsAreShares(o, count, 0, 0, 0);
      SharesSplitEvenly(o.netWinnings, count);
    }
  }

  lemma {:induction false} OtherFailures(o: Observation, count: nat, k: nat, paid: nat, held: nat)
    requires count >= 1 && k <= |o.beneficiaries|
    ensures CreditsFrom(o, count, k, paid, held) != Failure("Payout conservation mismatch.")
    decreases |o.beneficiaries| - k
  {
    var a, b, c := "Allocation split mismatch.", "Unclaimed credit was paid.", "Payout conservation mismatch.";
    assert a[0] != c[0] && b[0] != c[0];
    if k < |o.beneficiaries| {
      var step := CreditStep(o, count, k, paid, held);
      if step.Success? && step.value.Some? {
        OtherFailures(o, count, k + 1, step.value.value.0, step.value.value.1);
      }
    }
  }

  // ---- Who is paid ------------------------------------------------------------------

  /** The loop went through every beneficiary's credit. */
  predicate Credited(o: Observation, count: nat, k: nat)
    requires count >= 1 && k < |o.beneficiaries|
  {
    var credit := CreditOf(o.credits, o.beneficiaries[k]);
    credit.Some? && credit.value.amount == Share(o.netWinnings, count, o.beneficiaries[k].ordinal)
  }

  lemma {:induction false} WinMeansCredited(o: Observation, count: nat, k: nat, paid: nat, held: nat, i: nat)
    requires count >= 1 && k <= i < |o.beneficiaries|
    requires CreditsFrom(o, count, k, paid, held).Success? && CreditsFrom(o, count, k, paid, held).value.Some?
    ensures Credited(o, count, i)
    decreases i - k
  {
    if k < i {
      var step := CreditStep(o, count, k, paid, held).value.value;
      WinMeansCredited(o, count, k + 1, step.0, step.1, i);
    }
  }

  function Ordinals(credits: seq<Credit>): (r: seq<nat>)
    ensures |r| == |credits|
    ensures forall i :: 0 <= i < |credits| ==> r[i] == credits[i].ordinal
  {
    seq(|credits|, i requires 0 <= i < |credits| => credits[i].ordinal)
  }

  lemma {:induction false} CreditIsThere(credits: seq<Credit>, b: Beneficiary) returns (j: nat)
    requires CreditOf(credits, b).Some?
    ensures j < |credits| && credits[j] == CreditOf(credits, b).value && Matches(credits[j], b)
  {
    if Matches(credits[0], b) {
      j := 0;
    } else {
      j := CreditIsThere(credits[1..], b);
      j := j + 1;
    }
  }

  function Upto(n: nat): (r: seq<nat>)
    ensures |r| == n && forall i :: 0 <= i < n ==> r[i] == i
  {
    seq(n, i requires 0 <= i < n => i)
  }

  lemma {:induction false} FullMeansDifferent<T(!new)>(items: seq<T>)
    requires |Members(items)| == |items|
    ensures AllDiffer(items)
  {
    if items != [] {
      var n := |items| - 1;
      SplitLast(items);
      assert Members(items) == Members(items[..n]) + {items[n]};
      MembersOfDifferent(items[..n]);
      FullMeansDifferent(items[..n]);
      forall i | 0 <= i < n ensures items[i] != items[n] {
        assert items[i] in Members(items[..n]);
      }
    }
  }

  /** Every ordinal has exactly one credit. */
  lemma OrdinalsAreComplete(o: Observation, count: nat)
    requires count >= 1 && |o.beneficiaries| == |o.credits| == count
    requires forall i :: 0 <= i < count ==> o.beneficiaries[i].ordinal == i && Credited(o, count, i)
    ensures AllDiffer(Ordinals(o.credits)) && Members(Ordinals(o.credits)) == Members(Upto(count))
  {
    var ordinals := Ordinals(o.credits);
    forall i | 0 <= i < count ensures Upto(count)[i] in Members(ordinals) {
      assert Credited(o, count, i);
      var j := CreditIsThere(o.credits, o.beneficiaries[i]);
      assert ordinals[j] == i;
    }
    Pigeonhole(Upto(count), ordinals);
    MembersOfDifferent(Upto(count));
    FullMeansDifferent(ordinals);
  }

  /** A credit belongs to the beneficiary of its ordinal, with that ordinal's share. */
  predicate Belongs(o: Observation, count: nat, c: Credit)
    requires count >= 1
  {
    && c.ordinal < |o.beneficiaries|
    && Matches(c, o.beneficiaries[c.ordinal])
    && c.amount == Share(o.netWinnings, count, c.ordinal)
  }

  lemma EveryCreditBelongs(o: Observation, count: nat, j: nat)
    requires count >= 1 && |o.beneficiaries| == |o.credits| == count && j < count
    requires forall i :: 0 <= i < count ==> o.beneficiaries[i].ordinal == i && Credited(o, count, i)
    ensures Belongs(o, count, o.credits[j])
  {
    OrdinalsAreComplete(o, count);
    var ordinals := Ordinals(o.credits);
    assert ordinals[j] in Members(ordinals);
    var i := o.credits[j].ordinal;
    var k := CreditIsThere(o.credits, o.beneficiaries[i]);
    assert ordinals[k] == ordinals[j];
  }

  function AmountsUpTo(credits: seq<Credit>): nat {
    if credits == [] then 0 else AmountsUpTo(credits[..|credits| - 1]) + credits[|credits| - 1].amount
  }

  function ShareSum(net: nat, count: nat, ordinals: seq<nat>): nat
    requires count >= 1
  {
    if ordinals == [] then 0
    else ShareSum(net, count, ordinals[..|ordinals| - 1]) + Share(net, count, ordinals[|ordinals| - 1])
  }

  lemma {:induction false} AmountsAreShares(o: Observation, count: nat, credits: seq<Credit>)
    requires count >= 1 && forall j :: 0 <= j < |credits| ==> Belongs(o, count, credits[j])
    ensures AmountsUpTo(credits) == ShareSum(o.netWinnings, count, Ordinals(credits))
  {
    if credits != [] {
      var n := |credits| - 1;
      AmountsAreShares(o, count, credits[..n]);
      assert Ordinals(credits)[..n] == Ordinals(credits[..n]);
    }
  }

  lemma {:induction false} SumWithout(net: nat, count: nat, ordinals: seq<nat>, j: nat)
    requires count >= 1 && j < |ordinals|
    ensures ShareSum(net, count, ordinals)
              == ShareSum(net, count, ordinals[..j] + ordinals[j + 1..]) + Share(net, count, ordinals[j])
  {
    var n := |ordinals| - 1;
    var rest := ordinals[..j] + ordinals[j + 1..];
    if j < n {
      SumWithout(net, count, ordinals[..n], j);
      assert rest[..|rest| - 1] == ordinals[..n][..j] + ordinals[..n][j + 1..];
    } else {
      assert rest == ordinals[..n];
    }
  }

  ghost predicate AllBelow(ordinals: seq<nat>, n: nat) {
    forall i :: 0 <= i < |ordinals| ==> ordinals[i] < n
  }

  lemma TopOrdinal(ordinals: seq<nat>, n: nat) returns (j: nat)
    requires AllDiffer(ordinals) && AllBelow(ordinals, n) && |ordinals| == n > 0
    ensures j < n && ordinals[j] == n - 1
  {
    forall i | 0 <= i < n ensures ordinals[i] in Members(Upto(n)) {
      assert Upto(n)[ordinals[i]] == ordinals[i];
    }
    Pigeonhole(ordinals, Upto(n));
    assert Upto(n)[n - 1] in Members(ordinals);
    j :| 0 <= j < n && ordinals[j] == n - 1;
  }

  lemma RestIsBelow(ordinals: seq<nat>, n: nat, j: nat)
    requires AllDiffer(ordinals) && AllBelow(ordinals, n) && j < |ordinals| && ordinals[j] == n - 1
    ensures AllDiffer(ordinals[..j] + ordinals[j + 1..]) && AllBelow(ordinals[..j] + ordinals[j + 1..], n - 1)
  {
    var rest := ordinals[..j] + ordinals[j + 1..];
    assert forall i :: 0 <= i < |rest| ==> rest[i] == ordinals[if i < j then i else i + 1];
  }

  /** Over different ordinals that are all below `n`, in whatever order, the shares sum up as
      over all below `n`. */
  lemma {:induction false} SumOfAllOrdinals(net: nat, count: nat, ordinals: seq<nat>, n: nat)
    requires count >= 1 && AllDiffer(ordinals) && |ordinals| == n && AllBelow(ordinals, n)
    ensures ShareSum(net, count, ordinals) == SharesUpTo(net, count, n)
    decreases n
  {
    if n > 0 {
      var j := TopOrdinal(ordinals, n);
      SumWithout(net, count, ordinals, j);
      RestIsBelow(ordinals, n, j);
      SumOfAllOrdinals(net, count, ordinals[..j] + ordinals[j + 1..], n - 1);
    }
  }

  /** A participant and a beneficiary are of one another, exactly one of each. */
  ghost predicate PairedWithParticipants(plan: Plan, o: Observation) {
    && (forall p :: p in plan.participants ==> Times(BeneficiaryWhos(o.beneficiaries), p.who) == 1)
    && (forall i :: 0 <= i < |o.beneficiaries| ==> Times(Whos(plan.participants), o.beneficiaries[i].who) == 1)
  }

  lemma FrozenArePaired(plan: Plan, o: Observation)
    requires ValidPlan(plan.participants) && BeneficiariesFrozen(plan, o)
    ensures PairedWithParticipants(plan, o)
  {
    var whos := BeneficiaryWhos(o.beneficiaries);
    forall i | 0 <= i < |o.beneficiaries| ensures Times(Whos(plan.participants), o.beneficiaries[i].who) == 1 {
      assert whos[i] in whos;
      PlanFillsShares(plan.participants, whos, whos[i]);
    }
  }

  lemma AmountsTotalNet(o: Observation, count: nat)
    requires count >= 1 && |o.beneficiaries| == |o.credits| == count
    requires forall i :: 0 <= i < count ==> o.beneficiaries[i].ordinal == i && Credited(o, count, i)
    ensures AmountsUpTo(o.credits) == o.netWinnings
  {
    forall j | 0 <= j < count ensures Belongs(o, count, o.credits[j]) {
      EveryCreditBelongs(o, count, j);
    }
    AmountsAreShares(o, count, o.credits);
    OrdinalsAreComplete(o, count);
    SumOfAllOrdinals(o.netWinnings, count, Ordinals(o.credits), count);
    SharesSplitEvenly(o.netWinnings, count);
  }

  /** On a reconciled win every credit belongs to the beneficiary of its ordinal, no two to
      the same one, and the beneficiaries are the participants; the amounts of the credits
      total the winnings, which are paid or held to the last unit; and what was funded was
      spent or refunded. */
  lemma WinIsConserved(plan: Plan, o: Observation, now: int)
    requires ValidPlan(plan.participants) && Settle(plan, o, now).Success? && Settle(plan, o, now).value.Win?
    ensures var count, win := |plan.participants|, Settle(plan, o, now).value;
            && |o.credits| == |o.beneficiaries| == count
            && (forall j :: 0 <= j < count ==> Belongs(o, count, o.credits[j]))
            && AllDiffer(Ordinals(o.credits))
            && PairedWithParticipants(plan, o)
            && AmountsUpTo(o.credits) == win.paid + win.held == o.netWinnings
            && o.funded == o.spent + o.refunded
  {
    var count := |plan.participants|;
    forall i | 0 <= i < count ensures o.beneficiaries[i].ordinal == i && Credited(o, count, i) {
      WinMeansCredited(o, count, 0, 0, 0, i);
    }
    forall j | 0 <= j < count ensures Belongs(o, count, o.credits[j]) {
      EveryCreditBelongs(o, count, j);
    }
    OrdinalsAreComplete(o, count);
    FrozenArePaired(plan, o);
    AmountsTotalNet(o, count);
    ConservationNeverFails(plan, o);
  }

  // ---- Waiting ----------------------------------------------------------------------

  datatype Outcome = Terminal(settlement: Settlement, seen: Observation) | Required

  /** What the ports deliver: an observation with its leg and drawing for each poll, and two
      readings of the clock, before the poll and after its observation. */
  datatype Ports = Ports(observe: nat -> (string, string, Observation), before: nat -> int, after: nat -> int)

  /** The polls from one on. */
  function Polls(plan: Plan, leg: string, drawing: string, deadline: int, maxPolls: nat, ports: Ports,
                 poll: nat): Result<Outcome>
    requires plan.participants != []
    decreases maxPolls - poll
  {
    if poll >= maxPolls || ports.before(poll) >= deadline then Success(Required)
    else
      var (seenLeg, seenDrawing, o) := ports.observe(poll);
      if seenLeg != leg || seenDrawing != drawing then Failure("Settlement scope changed.")
      else
        var result :- Settle(plan, o, ports.after(poll));
        if result == ReconciliationPending then Polls(plan, leg, drawing, deadline, maxPolls, ports, poll + 1)
        else Success(Terminal(result, o))
  }

  /** `waitForGoldenSettlement`: polls until an observation settles, the polls or the time run
      out, or a check throws. */
  method WaitForSettlement(plan: Plan, leg: string, drawing: string, deadline: int, maxPolls: nat, ports: Ports)
    returns (r: Result<Outcome>)
    requires plan.participants != []
    ensures r == Polls(plan, leg, drawing, deadline, maxPolls, ports, 0)
    ensures r.Success? && r.value.Terminal? ==>
              exists poll :: 0 <= poll < maxPolls && ports.observe(poll) == (leg, drawing, r.value.seen)
                             && Settle(plan, r.value.seen, ports.after(poll)) == Success(r.value.settlement)
                             && r.value.settlement != ReconciliationPending && ports.before(poll) < deadline
  {
    var poll := 0;
    while poll < maxPolls && ports.before(poll) < deadline
      invariant Polls(plan, leg, drawing, deadline, maxPolls, ports, 0)
             == Polls(plan, leg, drawing, deadline, maxPolls, ports, poll)
    {
      var (seenLeg, seenDrawing, o) := ports.observe(poll);
      if seenLeg != leg || seenDrawing != drawing {
        return Failure("Settlement scope changed.");
      }
      var result := EvaluateGoldenSettlement(plan, o, ports.after(poll));
      if result.Failure? {
        return Failure(result.error);
      }
      if result.value != ReconciliationPending {
        return Success(Terminal(result.value, o));
      }
      poll := poll + 1;
    }
    r := Success(Required);
  }
}
