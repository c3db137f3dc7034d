/** Planning a payment: size estimates, dust limits and coin selection (internal/wallet/spend.go). */
module Spends {
  import opened Basics
  import opened Sorting
  import opened Transactions
  import opened Wallets

  // -------------------------------------------------------------------- sizes

  /** Weights: of what every transaction has besides inputs and outputs, and of a
      P2WPKH input whose signature has 72 bytes. */
  const TX_OVERHEAD_WEIGHT := (4 + 4 + 1 + 1) * 4 + 2
  const P2WPKH_INPUT_WEIGHT := (32 + 4 + 1 + 4) * 4 + 1 + 1 + 72 + 1 + 33

  /** Bytes of a variable length integer. */
  function VarIntSize(n: nat): nat {
    if n < 0xfd then 1 else if n <= 0xffff then 3 else if n <= 0xffff_ffff then 5 else 9
  }

  function OutputSize(script: Script): nat { 8 + VarIntSize(|script|) + |script| }

  function OutputsSize(outputs: seq<Script>): nat {
    if outputs == [] then 0 else OutputsSize(outputs[..|outputs| - 1]) + OutputSize(outputs[|outputs| - 1])
  }

  /** The estimate in closed form: every input is 68 vbytes. */
  function VSize(inputs: nat, outputs: seq<Script>): nat {
    11 + 68 * inputs + OutputsSize(outputs)
  }

  method EstimateVSize(inputs: nat, outputs: seq<Script>) returns (size: int)
    ensures size == VSize(inputs, outputs)
  {
    var weight := TX_OVERHEAD_WEIGHT + inputs * P2WPKH_INPUT_WEIGHT;
    for n := 0 to |outputs|
      invariant weight == TX_OVERHEAD_WEIGHT + inputs * P2WPKH_INPUT_WEIGHT + 4 * OutputsSize(outputs[..n])
    {
      assert outputs[..n + 1][..n] == outputs[..n];
      weight := weight + OutputSize(outputs[n]) * 4;
    }
    assert outputs[..|outputs|] == outputs;
    size := (weight + 3) / 4;
  }

  /** Witness bytes of P2WPKH inputs with signatures of the given lengths: a
      count, the signature and the public key for each. */
  function WitnessSize(sigs: seq<nat>): nat {
    if sigs == [] then 0 else WitnessSize(sigs[..|sigs| - 1]) + 1 + 1 + sigs[|sigs| - 1] + 1 + 33
  }

  /** The weight of the signed transaction (BIP 141, section "Transaction size calculations"). */
  function TxWeight(sigs: seq<nat>, outputs: seq<Script>): nat {
    var stripped := 4 + VarIntSize(|sigs|) + 41 * |sigs| + VarIntSize(|outputs|) + OutputsSize(outputs) + 4;
    4 * stripped + 2 + WitnessSize(sigs)
  }

  function TxVSize(sigs: seq<nat>, outputs: seq<Script>): nat { (TxWeight(sigs, outputs) + 3) / 4 }

  predicate WorstCase(sigs: seq<nat>) {
    forall i :: 0 <= i < |sigs| ==> sigs[i] <= 72
  }

  lemma {:induction false} WitnessAtMost(sigs: seq<nat>)
    requires WorstCase(sigs)
    ensures WitnessSize(sigs) <= 108 * |sigs|
    ensures (forall i :: 0 <= i < |sigs| ==> sigs[i] == 72) ==> WitnessSize(sigs) == 108 * |sigs|
  {
    if sigs != [] {
      WitnessAtMost(sigs[..|sigs| - 1]);
    }
  }

  /** The estimate never falls short of the signed transaction, whatever the
      signature lengths, exactly when there are at most 252 inputs and outputs:
      beyond, the counts take three bytes where the estimate has one. */
  lemma NeverUnderestimates(inputs: nat, outputs: seq<Script>)
    ensures (forall sigs: seq<nat> :: |sigs| == inputs && WorstCase(sigs) ==> TxVSize(sigs, outputs) <= VSize(inputs, outputs)) <==>
            inputs <= 252 && |outputs| <= 252
  {
    forall sigs: seq<nat> | |sigs| == inputs && WorstCase(sigs)
      ensures inputs <= 252 && |outputs| <= 252 ==> TxVSize(sigs, outputs) <= VSize(inputs, outputs)
    {
      WitnessAtMost(sigs);
    }
    var worst := seq(inputs, _ => 72);
    WitnessAtMost(worst);
    assert !(inputs <= 252 && |outputs| <= 252) ==> TxVSize(worst, outputs) > VSize(inputs, outputs);
  }

  /** With up to 252 inputs and outputs it is the size of the transaction whose
      signatures all have 72 bytes. */
  lemma EstimateIsWorst(sigs: seq<nat>, outputs: seq<Script>)
    requires |sigs| <= 252 && |outputs| <= 252 && forall i :: 0 <= i < |sigs| ==> sigs[i] == 72
    ensures VSize(|sigs|, outputs) == TxVSize(sigs, outputs)
  {
    WitnessAtMost(sigs);
  }

  /** A witness program: a version opcode and one push of 2 to 40 bytes (BIP 141). */
  predicate IsWitnessProgram(script: Script) {
    && 4 <= |script| <= 42
    && (script[0] == 0x00 || 0x51 <= script[0] <= 0x60)
    && script[1] == |script| - 2
  }

  /** The smallest output value relayed for the script. */
  function DustLimit(script: Script): (limit: nat)
    ensures limit > 0
  {
    var spend := if IsWitnessProgram(script) then 32 + 4 + 1 + 107 / 4 + 4 else 32 + 4 + 1 + 107 + 4;
    (OutputSize(script) + spend) * 3
  }

  /** The limits Bitcoin Core documents for the common scripts. */
  lemma KnownDustLimits(p2wpkh: Script, p2wsh: Script, p2pkh: Script)
    requires |p2wpkh| == 22 && p2wpkh[0] == 0x00 && p2wpkh[1] == 20
    requires |p2wsh| == 34 && p2wsh[0] == 0x00 && p2wsh[1] == 32
    requires |p2pkh| == 25 && p2pkh[0] == 0x76
    ensures DustLimit(p2wpkh) == 294 && DustLimit(p2wsh) == 330 && DustLimit(p2pkh) == 546
  {
  }

  /** Three times the size of the output and of the input spending it, which is
      67 vbytes for a witness program and 148 for any other script. */
  lemma DustLimitIs(script: Script)
    ensures var program := 4 <= |script| <= 42 && (script[0] == 0 || 0x51 <= script[0] <= 0x60) && script[1] == |script| - 2;
            && (|script| <= 252 ==> DustLimit(script) == 3 * (9 + |script| + if program then 67 else 148))
            && (252 < |script| <= 0xffff ==> DustLimit(script) == 3 * (11 + |script| + 148))
            && (0xffff < |script| <= 0xffff_ffff ==> DustLimit(script) == 3 * (13 + |script| + 148))
            && (|script| > 0xffff_ffff ==> DustLimit(script) == 3 * (17 + |script| + 148))
  {
  }

  // ----------------------------------------------------------------- the plan

  /** The order coins are tried in: confirmed ones first, then the largest. */
  predicate TriedBefore(a: Coin, b: Coin) {
    if a.confirmed != b.confirmed then a.confirmed else a.value >= b.value
  }

  datatype Spend = Spend(inputs: seq<Coin>, amount: int, fee: int, change: int)

  datatype SpendError = BelowDust | LowFeeRate | InsufficientFunds

  /** What is to be paid: to which script, how much, at which fee rate, and where change goes. */
  datatype Payment = Payment(dest: Script, amount: int, feeRate: int, change: Script)

  function FeeFor(inputs: nat, outputs: seq<Script>, feeRate: int): int { VSize(inputs, outputs) * feeRate }

  /** The coins cover the amount and the fee of a transaction without change. */
  ghost predicate Funds(inputs: seq<Coin>, p: Payment) {
    SumValues(inputs) - p.amount >= FeeFor(|inputs|, [p.dest], p.feeRate)
  }

  /** The plan the coins allow: with change unless it would be dust. */
  ghost function SpendOf(inputs: seq<Coin>, p: Payment): Option<Spend> {
    var withChange := FeeFor(|inputs|, [p.dest, p.change], p.feeRate);
    var rest := SumValues(inputs) - p.amount - withChange;
    if rest >= DustLimit(p.change) then Some(Spend(inputs, p.amount, withChange, rest))
    else if Funds(inputs, p) then Some(Spend(inputs, p.amount, SumValues(inputs) - p.amount, 0))
    else None
  }

  /** The plan of the shortest prefix, of n coins or more, that allows one. */
  ghost function PrefixPlan(candidates: seq<Coin>, n: nat, p: Payment): Option<Spend>
    decreases |candidates| - n
  {
    if n > |candidates| then None
    else if SpendOf(candidates[..n], p).Some? then SpendOf(candidates[..n], p)
    else PrefixPlan(candidates, n + 1, p)
  }

  function Candidates(coins: seq<Coin>, useAll: bool): seq<Coin> {
    if useAll then coins else Sort(TriedBefore, coins)
  }

  ghost function Plan(coins: seq<Coin>, useAll: bool, p: Payment): Result<Spend, SpendError> {
    if p.amount < DustLimit(p.dest) then Err(BelowDust)
    else if p.feeRate < 1 then Err(LowFeeRate)
    else
      var planned := PrefixPlan(Candidates(coins, useAll), if useAll then |coins| else 1, p);
      if planned.Some? then Ok(planned.value) else Err(InsufficientFunds)
  }

  method PlanSpend(coins: seq<Coin>, useAll: bool, p: Payment) returns (result: Result<Spend, SpendError>)
    ensures result == Plan(coins, useAll, p)
  {
    if p.amount < DustLimit(p.dest) {
      return Err(BelowDust);
    }
    if p.feeRate < 1 {
      return Err(LowFeeRate);
    }
    var candidates := Candidates(coins, useAll);
    var start := if useAll then |candidates| else 1;
    var n := start;
    while n <= |candidates|
      invariant n >= start
      invariant PrefixPlan(candidates, start, p) == PrefixPlan(candidates, n, p)
    {
      var inputs := candidates[..n];
      var sum := SumOf(inputs);
      var size := EstimateVSize(n, [p.dest, p.change]);
      var withChange := size * p.feeRate;
      var rest := sum - p.amount - withChange;
      if rest >= DustLimit(p.change) {
        return Ok(Spend(inputs, p.amount, withChange, rest));
      }
      size := EstimateVSize(n, [p.dest]);
      var noChange := size * p.feeRate;
      if sum - p.amount >= noChange {
        return Ok(Spend(inputs, p.amount, sum - p.amount, 0));
      }
      n := n + 1;
    }
    return Err(InsufficientFunds);
  }

  method SumOf(coins: seq<Coin>) returns (sum: int)
    ensures sum == SumValues(coins)
  {
    sum := 0;
    for n := 0 to |coins|
      invariant sum == SumValues(coins[..n])
    {
      assert coins[..n + 1][..n] == coins[..n];
      sum := sum + coins[n].value;
    }
    assert coins[..|coins|] == coins;
  }

  /** What is refused, and for what: dust first, then a fee rate below one, then
      too little money, which for all coins is too little of them together. */
  lemma RefusedFor(coins: seq<Coin>, useAll: bool, p: Payment)
    ensures Plan(coins, useAll, p) == Err(BelowDust) <==> p.amount < DustLimit(p.dest)
    ensures Plan(coins, useAll, p) == Err(LowFeeRate) <==> p.amount >= DustLimit(p.dest) && p.feeRate < 1
    ensures p.amount >= DustLimit(p.dest) && p.feeRate >= 1 && useAll ==>
              (Plan(coins, useAll, p) == Err(InsufficientFunds) <==> !Funds(coins, p))
  {
    if p.feeRate >= 1 {
      assert coins[..|coins|] == coins;
      var k := PrefixPlanned(coins, |coins|, p);
    }
  }

  // ------------------------------------------------------ what every plan keeps

  lemma OutputsOfTwo(a: Script, b: Script)
    ensures OutputsSize([a]) == OutputSize(a) && OutputsSize([a, b]) == OutputSize(a) + OutputSize(b)
  {
    assert [a][..0] == [] && [a, b][..1] == [a];
  }

  lemma RateMonotone(a: nat, b: nat, rate: int)
    requires a <= b && rate >= 0
    ensures a * rate <= b * rate
  {
  }

  /** Where a plan with change is possible, one without would be funded too. */
  lemma FundedIffPlanned(inputs: seq<Coin>, p: Payment)
    requires p.feeRate >= 1
    ensures SpendOf(inputs, p).Some? <==> Funds(inputs, p)
  {
    OutputsOfTwo(p.dest, p.change);
    RateMonotone(VSize(|inputs|, [p.dest]), VSize(|inputs|, [p.dest, p.change]), p.feeRate);
  }

  /** The length of the prefix that is planned: the shortest that is funded. */
  lemma {:induction false} PrefixPlanned(candidates: seq<Coin>, n: nat, p: Payment) returns (k: nat)
    requires p.feeRate >= 1
    ensures PrefixPlan(candidates, n, p).Some? <==> k <= |candidates|
    ensures k <= |candidates| ==> n <= k && PrefixPlan(candidates, n, p) == SpendOf(candidates[..k], p) && Funds(candidates[..k], p)
    ensures forall j :: n <= j < k && j <= |candidates| ==> !Funds(candidates[..j], p)
    decreases |candidates| - n
  {
    if n > |candidates| {
      k := n;
    } else {
      FundedIffPlanned(candidates[..n], p);
      if Funds(candidates[..n], p) {
        k := n;
      } else {
        k := PrefixPlanned(candidates, n + 1, p);
      }
    }
  }

  /** A change output adds its bytes to the fee. */
  lemma ChangeCosts(n: nat, dest: Script, change: Script, rate: int)
    ensures FeeFor(n, [dest, change], rate) == FeeFor(n, [dest], rate) + OutputSize(change) * rate
  {
    OutputsOfTwo(dest, change);
    hide OutputSize, OutputsSize;
    var base := VSize(n, [dest]);
    assert VSize(n, [dest, change]) == base + OutputSize(change);
    Distribute(base, OutputSize(change), rate);
  }

  lemma Distribute(a: int, b: int, c: int)
    ensures (a + b) * c == a * c + b * c
  {
  }

  /** The money of one plan: value is conserved, change is nothing or above
      dust, and the fee is that of the transaction's size; without change it
      stays below what a change output and its dust limit would add. */
  ghost predicate Sane(s: Spend, p: Payment) {
    var n := |s.inputs|;
    && SumValues(s.inputs) == s.amount + s.fee + s.change && s.amount == p.amount
    && (s.change == 0 || s.change >= DustLimit(p.change))
    && (s.change > 0 ==> s.fee == FeeFor(n, [p.dest, p.change], p.feeRate))
    && (s.change == 0 ==>
          FeeFor(n, [p.dest], p.feeRate) <= s.fee < FeeFor(n, [p.dest], p.feeRate) + OutputSize(p.change) * p.feeRate + DustLimit(p.change))
  }

  lemma SpendIsSane(inputs: seq<Coin>, p: Payment)
    requires SpendOf(inputs, p).Some?
    ensures Sane(SpendOf(inputs, p).value, p)
  {
    ChangeCosts(|inputs|, p.dest, p.change, p.feeRate);
    hide FeeFor, OutputSize;
  }

  /** A plan spends given coins, each once, or all of them if so asked, and its money adds up. */
  lemma PlanConserves(coins: seq<Coin>, useAll: bool, p: Payment)
    requires Plan(coins, useAll, p).Ok?
    ensures var s := Plan(coins, useAll, p).value;
            Sane(s, p) && multiset(s.inputs) <= multiset(coins) && (useAll ==> s.inputs == coins)
  {
    hide SpendOf, FeeFor, Sane, DustLimit;
    var candidates := Candidates(coins, useAll);
    var k := PrefixPlanned(candidates, if useAll then |coins| else 1, p);
    SpendInputs(candidates[..k], p);
    SpendIsSane(candidates[..k], p);
    assert candidates == candidates[..k] + candidates[k..];
    assert multiset(candidates) == multiset(coins);
  }

  /** A plan of up to 252 inputs pays the fee rate for the size of the signed
      transaction, its signatures having 72 bytes: exactly with change, and
      without it less than change would add. */
  lemma PlanPaysRate(coins: seq<Coin>, useAll: bool, p: Payment, sigs: seq<nat>)
    requires Plan(coins, useAll, p).Ok?
    requires |sigs| == |Plan(coins, useAll, p).value.inputs| <= 252 && forall i :: 0 <= i < |sigs| ==> sigs[i] == 72
    ensures var s := Plan(coins, useAll, p).value;
            && (s.change > 0 ==> s.fee == TxVSize(sigs, [p.dest, p.change]) * p.feeRate)
            && (s.change == 0 ==>
                  TxVSize(sigs, [p.dest]) * p.feeRate <= s.fee < TxVSize(sigs, [p.dest, p.change]) * p.feeRate + DustLimit(p.change))
  {
    PlanConserves(coins, useAll, p);
    EstimateIsWorst(sigs, [p.dest]);
    EstimateIsWorst(sigs, [p.dest, p.change]);
    ChangeCosts(|sigs|, p.dest, p.change, p.feeRate);
    hide Plan, VSize, TxVSize, DustLimit, OutputSize;
  }

  lemma SpendInputs(inputs: seq<Coin>, p: Payment)
    requires SpendOf(inputs, p).Some?
    ensures SpendOf(inputs, p).value.inputs == inputs
  {
  }

  // ------------------------------------------------------ the most one can pay

  ghost function MostPayable(coins: seq<Coin>, dest: Script, feeRate: int): int {
    var amount := SumValues(coins) - FeeFor(|coins|, [dest], feeRate);
    if amount < DustLimit(dest) then 0 else amount
  }

  method MaxAmount(coins: seq<Coin>, dest: Script, feeRate: int) returns (amount: int)
    ensures amount == MostPayable(coins, dest, feeRate)
  {
    var sum := SumOf(coins);
    var size := EstimateVSize(|coins|, [dest]);
    amount := sum - size * feeRate;
    if amount < DustLimit(dest) {
      amount := 0;
    }
  }

  /** Spending all coins pays an amount exactly when it is not dust and at most
      the maximum; the maximum itself is paid without change. */
  lemma MaxAmountIsExact(coins: seq<Coin>, p: Payment)
    requires p.feeRate >= 1
    ensures Plan(coins, true, p).Ok? <==> DustLimit(p.dest) <= p.amount <= MostPayable(coins, p.dest, p.feeRate)
    ensures Plan(coins, true, p).Ok? && p.amount == MostPayable(coins, p.dest, p.feeRate) ==>
              Plan(coins, true, p).value.change == 0 && Plan(coins, true, p).value.fee == FeeFor(|coins|, [p.dest], p.feeRate)
  {
    var k := PrefixPlanned(coins, |coins|, p);
    assert coins[..|coins|] == coins;
    OutputsOfTwo(p.dest, p.change);
    RateMonotone(VSize(|coins|, [p.dest]), VSize(|coins|, [p.dest, p.change]), p.feeRate);
  }

  // ---------------------------------------------- which coins are good enough

  ghost predicate PartOf(s: seq<Coin>, coins: seq<Coin>) {
    multiset(s) <= multiset(coins)
  }

  ghost predicate AllConfirmed(s: seq<Coin>) {
    forall i :: 0 <= i < |s| ==> s[i].confirmed
  }

  /** Every confirmed coin is among the selected ones. */
  ghost predicate HoldsConfirmed(s: seq<Coin>, coins: seq<Coin>) {
    forall c: Coin :: c.confirmed ==> multiset(s)[c] == multiset(coins)[c]
  }

  ghost predicate LargestFirst(s: seq<Coin>) {
    forall i, j :: 0 <= i < j < |s| ==> s[i].value >= s[j].value
  }

  lemma {:induction false} SumAppend(a: seq<Coin>, b: seq<Coin>)
    ensures SumValues(a + b) == SumValues(a) + SumValues(b)
  {
    if b == [] {
      assert a + b == a;
    } else {
      assert (a + b)[..|a + b| - 1] == a + b[..|b| - 1];
      SumAppend(a, b[..|b| - 1]);
    }
  }

  lemma SumOne(c: Coin)
    ensures SumValues([c]) == c.value
  {
    assert [c][..0] == [];
  }

  /** Takes one occurrence of a coin out of a selection. */
  lemma TakeOut(s: seq<Coin>, c: Coin) returns (rest: seq<Coin>)
    requires c in s
    ensures |rest| == |s| - 1 && multiset(rest) + multiset{c} == multiset(s)
    ensures SumValues(s) == SumValues(rest) + c.value
  {
    var i :| 0 <= i < |s| && s[i] == c;
    rest := s[..i] + s[i + 1..];
    assert s == s[..i] + [c] + s[i + 1..];
    SumAppend(s[..i], s[i + 1..]);
    SumAppend(s[..i] + [c], s[i + 1..]);
    SumAppend(s[..i], [c]);
    SumOne(c);
  }

  lemma SumHead(s: seq<Coin>)
    requires s != []
    ensures SumValues(s) == s[0].value + SumValues(s[1..])
  {
    assert s == [s[0]] + s[1..];
    SumAppend([s[0]], s[1..]);
    SumOne(s[0]);
  }

  lemma HeadOf(s: seq<Coin>)
    requires s != []
    ensures multiset(s[1..]) + multiset{s[0]} == multiset(s)
  {
    assert s == [s[0]] + s[1..];
  }

  /** What is left of a selection is one of what is left of the coins. */
  lemma PartOfRest(rest: seq<Coin>, s: seq<Coin>, tail: seq<Coin>, coins: seq<Coin>, c: Coin)
    requires multiset(rest) + multiset{c} == multiset(s) && multiset(tail) + multiset{c} == multiset(coins)
    ensures PartOf(s, coins) <==> PartOf(rest, tail)
  {
    if PartOf(s, coins) {
      forall x
        ensures multiset(rest)[x] <= multiset(tail)[x]
      {
        assert multiset(s)[x] <= multiset(coins)[x];
      }
    }
  }

  lemma PartOfTail(s: seq<Coin>, tail: seq<Coin>, coins: seq<Coin>, c: Coin)
    requires PartOf(s, coins) && c !in s && multiset(tail) + multiset{c} == multiset(coins)
    ensures PartOf(s, tail)
  {
    forall x
      ensures multiset(s)[x] <= multiset(tail)[x]
    {
      assert multiset(s)[x] <= multiset(coins)[x];
      assert multiset(s)[c] == 0;
    }
  }

  /** Of the selections of a size none is worth more than the largest coins. */
  lemma {:induction false} TopIsMost(coins: seq<Coin>, s: seq<Coin>)
    requires LargestFirst(coins) && PartOf(s, coins)
    ensures |s| <= |coins| && SumValues(s) <= SumValues(coins[..|s|])
  {
    hide PartOf, SumValues;
    SizeOfPart(s, coins);
    if s == [] {
      assert coins[..0] == s;
    } else {
      HeadOf(coins);
      var tail := coins[1..];
      if coins[0] in s {
        var rest := TakeOut(s, coins[0]);
        PartOfRest(rest, s, tail, coins, coins[0]);
        TopIsMost(tail, rest);
        SumHead(coins[..|s|]);
        assert coins[..|s|][1..] == tail[..|rest|];
      } else {
        PartOfTail(s, tail, coins, coins[0]);
        TopIsMost(tail, s);
        Slide(coins, |s|);
      }
    }
  }

  lemma SizeOfPart(s: seq<Coin>, coins: seq<Coin>)
    requires PartOf(s, coins)
    ensures |s| <= |coins|
  {
    var left := multiset(coins) - multiset(s);
    assert multiset(coins) == multiset(s) + left;
    assert |multiset(s)| == |s| && |multiset(coins)| == |coins|;
  }

  lemma Slide(coins: seq<Coin>, n: nat)
    requires LargestFirst(coins) && 0 < n < |coins|
    ensures SumValues(coins[1..][..n]) <= SumValues(coins[..n])
  {
    assert coins[1..][..n] == coins[1..n] + [coins[n]];
    SumAppend(coins[1..n], [coins[n]]);
    SumOne(coins[n]);
    SumHead(coins[..n]);
    assert coins[..n][1..] == coins[1..n];
  }

  /** The same among the selections that hold the first m coins. */
  lemma {:induction false} TopHolding(coins: seq<Coin>, m: nat, s: seq<Coin>)
    requires m <= |coins| && LargestFirst(coins[m..])
    requires PartOf(coins[..m], s) && PartOf(s, coins)
    ensures m <= |s| <= |coins| && SumValues(s) <= SumValues(coins[..|s|])
  {
    hide PartOf, SumValues, LargestFirst;
    SizeOfPart(s, coins);
    SizeOfPart(coins[..m], s);
    if m == 0 {
      assert coins[0..] == coins;
      TopIsMost(coins, s);
    } else {
      var tail := coins[1..];
      var first := coins[..m];
      HeadOf(coins);
      HeadOf(first);
      HeldHead(first, s);
      var rest := TakeOut(s, coins[0]);
      PartOfRest(rest, s, tail, coins, coins[0]);
      PartOfRest(first[1..], first, rest, s, coins[0]);
      assert first[1..] == tail[..m - 1];
      assert tail[m - 1..] == coins[m..];
      TopHolding(tail, m - 1, rest);
      SumHead(coins[..|s|]);
      assert coins[..|s|][1..] == tail[..|rest|];
    }
  }

  lemma HeldHead(first: seq<Coin>, s: seq<Coin>)
    requires first != [] && PartOf(first, s)
    ensures first[0] in s
  {
    assert first[0] in multiset(first);
    assert first[0] in multiset(s);
  }

  lemma {:induction false} ConfirmedUpTo(c: seq<Coin>) returns (m: nat)
    ensures m <= |c| && AllConfirmed(c[..m]) && (m < |c| ==> !c[m].confirmed)
  {
    if c == [] || !c[0].confirmed {
      m := 0;
    } else {
      var k := ConfirmedUpTo(c[1..]);
      m := k + 1;
      assert forall i :: 0 < i < m ==> c[i] == c[1..][..k][i - 1];
    }
  }

  /** In the order they are tried, the confirmed coins come first, and the coins
      of either kind with the largest first. */
  lemma TriedInOrder(coins: seq<Coin>) returns (m: nat)
    ensures var c := Sort(TriedBefore, coins);
            && m <= |c| && AllConfirmed(c[..m]) && (forall i :: m <= i < |c| ==> !c[i].confirmed)
            && LargestFirst(c[..m]) && LargestFirst(c[m..])
  {
    hide Sort;
    var c := Sort(TriedBefore, coins);
    SortSorted(TriedBefore, coins);
    m := ConfirmedUpTo(c);
    forall i | m <= i < |c|
      ensures !c[i].confirmed
    {
      assert i > m ==> TriedBefore(c[m], c[i]);
    }
    forall i, j | 0 <= i < j < |c| && (j < m || m <= i)
      ensures c[i].value >= c[j].value
    {
      assert TriedBefore(c[i], c[j]);
    }
  }

  /** A selection the order of trying respects: no unconfirmed coin, or every confirmed one. */
  ghost predicate Eligible(s: seq<Coin>, coins: seq<Coin>) {
    PartOf(s, coins) && (AllConfirmed(s) || HoldsConfirmed(s, coins))
  }

  lemma ConfirmedInFirst(first: seq<Coin>, last: seq<Coin>, coins: seq<Coin>, s: seq<Coin>)
    requires multiset(first) + multiset(last) == multiset(coins)
    requires forall i :: 0 <= i < |last| ==> !last[i].confirmed
    ensures PartOf(s, coins) && AllConfirmed(s) ==> PartOf(s, first)
    ensures AllConfirmed(first) && HoldsConfirmed(s, coins) ==> PartOf(first, s)
    ensures PartOf(first, s) ==> HoldsConfirmed(s, coins) || !PartOf(s, coins)
  {
    forall x | x in multiset(last)
      ensures !x.confirmed
    {
    }
    if PartOf(s, coins) && AllConfirmed(s) {
      forall x
        ensures multiset(s)[x] <= multiset(first)[x]
      {
        assert multiset(s)[x] <= multiset(coins)[x];
        assert x in multiset(s) ==> x in s;
      }
    }
    if AllConfirmed(first) && HoldsConfirmed(s, coins) {
      forall x
        ensures multiset(first)[x] <= multiset(s)[x]
      {
        assert multiset(first)[x] <= multiset(coins)[x];
        assert x in multiset(first) ==> x in first;
      }
    }
    if PartOf(first, s) && PartOf(s, coins) {
      forall x: Coin | x.confirmed
        ensures multiset(s)[x] == multiset(coins)[x]
      {
        assert multiset(first)[x] <= multiset(s)[x] <= multiset(coins)[x];
      }
    }
  }

  /** The first coins tried are worth at least any eligible selection of their number. */
  lemma FirstAreBest(coins: seq<Coin>, s: seq<Coin>)
    requires Eligible(s, coins)
    ensures var c := Sort(TriedBefore, coins);
            && |s| <= |c| && SumValues(s) <= SumValues(c[..|s|])
            && (AllConfirmed(s) ==> AllConfirmed(c[..|s|]))
  {
    var c := Sort(TriedBefore, coins);
    var m := TriedInOrder(coins);
    hide PartOf, HoldsConfirmed, SumValues, LargestFirst, Sort;
    assert c == c[..m] + c[m..];
    ConfirmedInFirst(c[..m], c[m..], coins, s);
    PartOfSorted(s, coins);
    if AllConfirmed(s) {
      TopIsMost(c[..m], s);
      assert c[..m][..|s|] == c[..|s|];
    } else {
      TopHolding(c, m, s);
    }
  }

  lemma PartOfSorted(s: seq<Coin>, coins: seq<Coin>)
    ensures PartOf(s, coins) <==> PartOf(s, Sort(TriedBefore, coins))
  {
  }

  lemma PrefixIsPart(c: seq<Coin>, m: nat, k: nat)
    requires m <= k <= |c|
    ensures PartOf(c[..m], c[..k]) && PartOf(c[..k], c)
  {
    assert c[..k] == c[..m] + c[m..k];
    assert c == c[..k] + c[k..];
  }

  lemma PrefixEligible(coins: seq<Coin>, k: nat)
    requires k <= |coins|
    ensures Eligible(Sort(TriedBefore, coins)[..k], coins)
  {
    var c := Sort(TriedBefore, coins);
    var m := TriedInOrder(coins);
    hide PartOf, HoldsConfirmed, AllConfirmed, LargestFirst, Sort;
    PrefixIsPart(c, k, k);
    PartOfSorted(c[..k], coins);
    if k > m {
      assert c == c[..m] + c[m..];
      PrefixIsPart(c, m, k);
      ConfirmedInFirst(c[..m], c[m..], coins, c[..k]);
    } else {
      ConfirmedPrefix(c, k, m);
    }
  }

  lemma NothingFundsNothing(s: seq<Coin>, p: Payment)
    requires p.feeRate >= 1 && p.amount > 0 && Funds(s, p)
    ensures s != []
  {
    RateMonotone(0, VSize(0, [p.dest]), p.feeRate);
  }

  /** Planning succeeds exactly when some selection without unconfirmed coins,
      or with all the confirmed ones, covers the amount and its fee; it takes
      the fewest coins such a selection can have, and no unconfirmed coin if
      confirmed ones suffice. */
  lemma PlanIsBest(coins: seq<Coin>, p: Payment)
    requires p.feeRate >= 1 && p.amount >= DustLimit(p.dest)
    ensures Plan(coins, false, p).Ok? <==> exists s :: Eligible(s, coins) && Funds(s, p)
    ensures Plan(coins, false, p).Ok? ==>
              var inputs := Plan(coins, false, p).value.inputs;
              && Eligible(inputs, coins) && Funds(inputs, p)
              && (forall s :: Eligible(s, coins) && Funds(s, p) ==> |inputs| <= |s|)
              && ((exists s :: Eligible(s, coins) && Funds(s, p) && AllConfirmed(s)) ==> AllConfirmed(inputs))
  {
    var c := Sort(TriedBefore, coins);
    var k := PrefixPlanned(c, 1, p);
    hide Eligible, AllConfirmed, SpendOf, Sort, SumValues, DustLimit, PrefixPlan;
    forall s | Eligible(s, coins) && Funds(s, p)
      ensures k <= |c| && k <= |s|
      ensures AllConfirmed(s) ==> AllConfirmed(c[..k])
    {
      FirstAreBest(coins, s);
      assert Funds(c[..|s|], p);
      NothingFundsNothing(s, p);
      ConfirmedPrefix(c, k, |s|);
    }
    if k <= |c| {
      PrefixEligible(coins, k);
      SpendInputs(c[..k], p);
    }
  }

  lemma ConfirmedPrefix(c: seq<Coin>, k: nat, n: nat)
    requires n <= |c|
    ensures k <= n && AllConfirmed(c[..n]) ==> AllConfirmed(c[..k])
  {
    if k <= n && AllConfirmed(c[..n]) {
      assert forall i :: 0 <= i < k ==> c[..k][i] == c[..n][i];
    }
  }

  ghost predicate SameState(coins: seq<Coin>) {
    forall i, j :: 0 <= i < j < |coins| ==> coins[i].confirmed == coins[j].confirmed
  }

  lemma AllEligible(coins: seq<Coin>, s: seq<Coin>)
    requires SameState(coins) && PartOf(s, coins)
    ensures Eligible(s, coins)
  {
    forall x | x in multiset(s)
      ensures x in coins
    {
      assert multiset(s)[x] <= multiset(coins)[x];
    }
    forall i | 0 <= i < |s|
      ensures s[i] in coins
    {
      assert s[i] in multiset(s);
    }
    if coins != [] && !coins[0].confirmed {
      forall x: Coin | x.confirmed
        ensures multiset(s)[x] == multiset(coins)[x]
      {
        assert x !in coins && x !in s;
      }
    }
  }

  /** When all coins are confirmed, or none is, planning fails only if no
      selection at all covers the amount, and takes the fewest coins any does. */
  lemma PlanIsCompleteAndMinimal(coins: seq<Coin>, p: Payment)
    requires p.feeRate >= 1 && p.amount >= DustLimit(p.dest) && SameState(coins)
    ensures Plan(coins, false, p).Ok? <==> exists s :: PartOf(s, coins) && Funds(s, p)
    ensures Plan(coins, false, p).Ok? ==> forall s :: PartOf(s, coins) && Funds(s, p) ==> |Plan(coins, false, p).value.inputs| <= |s|
  {
    PlanIsBest(coins, p);
    hide Plan, Funds, PartOf;
    forall s | PartOf(s, coins)
      ensures Eligible(s, coins)
    {
      AllEligible(coins, s);
    }
    forall s | Eligible(s, coins)
      ensures PartOf(s, coins)
    {
    }
  }

  // ------------------------------------------------------ mixed confirmations

  /** What the coins are worth beyond the fees of their inputs. */
  ghost function Gain(s: seq<Coin>, feeRate: int): int {
    SumValues(s) - 68 * |s| * feeRate
  }

  /** The coins worth at least the fee of their input. */
  function Worthy(coins: seq<Coin>, feeRate: int): seq<Coin> {
    if coins == [] then []
    else (if coins[0].value >= 68 * feeRate then [coins[0]] else []) + Worthy(coins[1..], feeRate)
  }

  function WithState(coins: seq<Coin>, confirmed: bool): seq<Coin> {
    if coins == [] then []
    else (if coins[0].confirmed == confirmed then [coins[0]] else []) + WithState(coins[1..], confirmed)
  }

  /** A selection suffices when its gain covers the amount and the fee of a
      transaction without inputs. */
  lemma FundsByGain(s: seq<Coin>, p: Payment)
    ensures Funds(s, p) <==> Gain(s, p.feeRate) >= p.amount + FeeFor(0, [p.dest], p.feeRate)
  {
    assert VSize(|s|, [p.dest]) == VSize(0, [p.dest]) + 68 * |s|;
    Distribute(VSize(0, [p.dest]), 68 * |s|, p.feeRate);
  }

  lemma GainAppend(a: seq<Coin>, b: seq<Coin>, feeRate: int)
    ensures Gain(a + b, feeRate) == Gain(a, feeRate) + Gain(b, feeRate)
  {
    SumAppend(a, b);
    Distribute(68 * |a|, 68 * |b|, feeRate);
  }

  lemma GainOne(c: Coin, feeRate: int)
    ensures Gain([c], feeRate) == c.value - 68 * feeRate
    ensures Gain([], feeRate) == 0
  {
    SumOne(c);
  }

  lemma GainHead(s: seq<Coin>, feeRate: int)
    requires s != []
    ensures Gain(s, feeRate) == s[0].value - 68 * feeRate + Gain(s[1..], feeRate)
  {
    GainAppend([s[0]], s[1..], feeRate);
    GainOne(s[0], feeRate);
    assert s == [s[0]] + s[1..];
  }

  lemma TakeOutGain(s: seq<Coin>, c: Coin, feeRate: int) returns (rest: seq<Coin>)
    requires c in s
    ensures |rest| == |s| - 1 && multiset(rest) + multiset{c} == multiset(s)
    ensures Gain(s, feeRate) == Gain(rest, feeRate) + c.value - 68 * feeRate
  {
    rest := TakeOut(s, c);
    Distribute(68 * |rest|, 68, feeRate);
  }

  /** No selection gains more than the coins worth their fee do together. */
  lemma {:induction false} WorthyGainMost(coins: seq<Coin>, s: seq<Coin>, feeRate: int)
    requires PartOf(s, coins)
    ensures Gain(s, feeRate) <= Gain(Worthy(coins, feeRate), feeRate)
  {
    hide PartOf, Gain;
    SizeOfPart(s, coins);
    if coins == [] {
      assert s == [];
    } else {
      var c, tail := coins[0], coins[1..];
      HeadOf(coins);
      GainAppend(if c.value >= 68 * feeRate then [c] else [], Worthy(tail, feeRate), feeRate);
      GainOne(c, feeRate);
      if c in s {
        var rest := TakeOutGain(s, c, feeRate);
        PartOfRest(rest, s, tail, coins, c);
        WorthyGainMost(tail, rest, feeRate);
      } else {
        PartOfTail(s, tail, coins, c);
        WorthyGainMost(tail, s, feeRate);
      }
    }
  }

  lemma {:induction false} WorthyIsPart(coins: seq<Coin>, feeRate: int)
    ensures PartOf(Worthy(coins, feeRate), coins)
    ensures forall c :: c in Worthy(coins, feeRate) ==> c in coins
  {
    if coins != [] {
      WorthyIsPart(coins[1..], feeRate);
      HeadOf(coins);
    }
  }

  /** Some selection suffices exactly when the coins worth their fee do. */
  lemma SomeSuffice(coins: seq<Coin>, p: Payment)
    ensures (exists s :: PartOf(s, coins) && Funds(s, p)) <==> Funds(Worthy(coins, p.feeRate), p)
  {
    hide Funds, Gain, PartOf;
    WorthyIsPart(coins, p.feeRate);
    FundsByGain(Worthy(coins, p.feeRate), p);
    forall s | PartOf(s, coins) && Funds(s, p)
      ensures Funds(Worthy(coins, p.feeRate), p)
    {
      FundsByGain(s, p);
      WorthyGainMost(coins, s, p.feeRate);
    }
  }

  lemma StateHead(coins: seq<Coin>)
    requires coins != []
    ensures var c, tail := coins[0], coins[1..];
            && multiset(WithState(coins, c.confirmed)) == multiset{c} + multiset(WithState(tail, c.confirmed))
            && WithState(coins, !c.confirmed) == WithState(tail, !c.confirmed)
  {
    var c, tail := coins[0], coins[1..];
    assert WithState(coins, c.confirmed) == [c] + WithState(tail, c.confirmed);
    assert WithState(coins, !c.confirmed) == [] + WithState(tail, !c.confirmed);
  }

  lemma {:induction false} OfState(coins: seq<Coin>, confirmed: bool)
    ensures forall c :: c in WithState(coins, confirmed) ==> c.confirmed == confirmed
  {
    if coins != [] {
      OfState(coins[1..], confirmed);
    }
  }

  lemma {:induction false} StatesAddUp(coins: seq<Coin>)
    ensures multiset(WithState(coins, true)) + multiset(WithState(coins, false)) == multiset(coins)
  {
    if coins != [] {
      StatesAddUp(coins[1..]);
      HeadOf(coins);
      StateHead(coins);
    }
  }

  lemma StatesSplit(coins: seq<Coin>)
    ensures multiset(WithState(coins, true)) + multiset(WithState(coins, false)) == multiset(coins)
    ensures AllConfirmed(WithState(coins, true))
    ensures forall i :: 0 <= i < |WithState(coins, false)| ==> !WithState(coins, false)[i].confirmed
  {
    hide WithState;
    StatesAddUp(coins);
    OfState(coins, true);
    OfState(coins, false);
  }

  /** What a selection holds beyond a part of it. */
  lemma {:induction false} TakeAll(s: seq<Coin>, part: seq<Coin>, feeRate: int) returns (rest: seq<Coin>)
    requires PartOf(part, s)
    ensures multiset(rest) + multiset(part) == multiset(s)
    ensures Gain(s, feeRate) == Gain(rest, feeRate) + Gain(part, feeRate)
    decreases |part|
  {
    hide PartOf, Gain;
    if part == [] {
      rest := s;
      GainOne(Coin(OutPoint(0, 0), 0, [], "", "", true, 0), feeRate);
    } else {
      HeldHead(part, s);
      var one := TakeOutGain(s, part[0], feeRate);
      HeadOf(part);
      PartOfRest(part[1..], part, one, s, part[0]);
      rest := TakeAll(one, part[1..], feeRate);
      GainHead(part, feeRate);
    }
  }

  lemma RestIsPart(rest: seq<Coin>, s: seq<Coin>, first: seq<Coin>, last: seq<Coin>, coins: seq<Coin>)
    requires multiset(rest) + multiset(first) == multiset(s) && multiset(first) + multiset(last) == multiset(coins)
    ensures PartOf(s, coins) <==> PartOf(rest, last)
  {
    if PartOf(s, coins) {
      forall x
        ensures multiset(rest)[x] <= multiset(last)[x]
      {
        assert multiset(s)[x] <= multiset(coins)[x];
      }
    }
  }

  /** Planning succeeds exactly when the confirmed coins worth their fee
      suffice, or all the confirmed ones with the unconfirmed ones worth theirs. */
  lemma PlanSucceedsIff(coins: seq<Coin>, p: Payment)
    requires p.feeRate >= 1 && p.amount >= DustLimit(p.dest)
    ensures var confirmed, unconfirmed := WithState(coins, true), WithState(coins, false);
            Plan(coins, false, p).Ok? <==>
            Funds(Worthy(confirmed, p.feeRate), p) || Funds(confirmed + Worthy(unconfirmed, p.feeRate), p)
  {
    var confirmed, unconfirmed := WithState(coins, true), WithState(coins, false);
    PlanIsBest(coins, p);
    StatesSplit(coins);
    hide Plan, Funds, PartOf, HoldsConfirmed, AllConfirmed, WithState, DustLimit;
    forall s | Eligible(s, coins) && Funds(s, p)
      ensures Funds(Worthy(confirmed, p.feeRate), p) || Funds(confirmed + Worthy(unconfirmed, p.feeRate), p)
    {
      EligibleGain(coins, confirmed, unconfirmed, s, p);
    }
    WorthyEligible(coins, confirmed, unconfirmed, p.feeRate);
  }

  lemma EligibleGain(coins: seq<Coin>, confirmed: seq<Coin>, unconfirmed: seq<Coin>, s: seq<Coin>, p: Payment)
    requires multiset(confirmed) + multiset(unconfirmed) == multiset(coins) && AllConfirmed(confirmed)
    requires forall i :: 0 <= i < |unconfirmed| ==> !unconfirmed[i].confirmed
    requires Eligible(s, coins) && Funds(s, p)
    ensures Funds(Worthy(confirmed, p.feeRate), p) || Funds(confirmed + Worthy(unconfirmed, p.feeRate), p)
  {
    ConfirmedInFirst(confirmed, unconfirmed, coins, s);
    hide Funds, PartOf, HoldsConfirmed, AllConfirmed, Gain;
    FundsByGain(s, p);
    if AllConfirmed(s) {
      WorthyGainMost(confirmed, s, p.feeRate);
      FundsByGain(Worthy(confirmed, p.feeRate), p);
    } else {
      var rest := TakeAll(s, confirmed, p.feeRate);
      RestIsPart(rest, s, confirmed, unconfirmed, coins);
      WorthyGainMost(unconfirmed, rest, p.feeRate);
      GainAppend(confirmed, Worthy(unconfirmed, p.feeRate), p.feeRate);
      FundsByGain(confirmed + Worthy(unconfirmed, p.feeRate), p);
    }
  }

  lemma WorthyEligible(coins: seq<Coin>, confirmed: seq<Coin>, unconfirmed: seq<Coin>, feeRate: int)
    requires multiset(confirmed) + multiset(unconfirmed) == multiset(coins) && AllConfirmed(confirmed)
    requires forall i :: 0 <= i < |unconfirmed| ==> !unconfirmed[i].confirmed
    ensures Eligible(Worthy(confirmed, feeRate), coins) && Eligible(confirmed + Worthy(unconfirmed, feeRate), coins)
  {
    var some, all := Worthy(confirmed, feeRate), confirmed + Worthy(unconfirmed, feeRate);
    WorthyIsPart(confirmed, feeRate);
    WorthyIsPart(unconfirmed, feeRate);
    ConfirmedInFirst(confirmed, unconfirmed, coins, all);
    assert PartOf(some, coins) && PartOf(all, coins) && PartOf(confirmed, all);
    assert forall i :: 0 <= i < |some| ==> some[i] in some;
    assert forall c :: c in confirmed ==> c.confirmed;
  }

  /** Planning is complete, failing only if no selection suffices, exactly
      unless the coins worth their fee suffice while neither the confirmed ones
      among them do nor the unconfirmed ones with every confirmed coin. */
  lemma PlanIsCompleteIff(coins: seq<Coin>, p: Payment)
    requires p.feeRate >= 1 && p.amount >= DustLimit(p.dest)
    ensures var confirmed, unconfirmed := WithState(coins, true), WithState(coins, false);
            (Plan(coins, false, p).Ok? <==> exists s :: PartOf(s, coins) && Funds(s, p)) <==>
            (Funds(Worthy(coins, p.feeRate), p) ==>
               Funds(Worthy(confirmed, p.feeRate), p) || Funds(confirmed + Worthy(unconfirmed, p.feeRate), p))
  {
    PlanSucceedsIff(coins, p);
    SomeSuffice(coins, p);
    PlanIsBest(coins, p);
    hide Plan, Funds, PartOf, WithState, DustLimit, HoldsConfirmed, AllConfirmed;
    if s :| Eligible(s, coins) && Funds(s, p) {
      assert PartOf(s, coins);
    }
  }

  /** No confirmed coin is worth less than the fee of its input. */
  ghost predicate WorthSpending(coins: seq<Coin>, feeRate: int) {
    forall i :: 0 <= i < |coins| && coins[i].confirmed ==> coins[i].value >= 68 * feeRate
  }

  lemma {:induction false} WorthyWithConfirmed(coins: seq<Coin>, feeRate: int)
    requires WorthSpending(coins, feeRate)
    ensures Gain(Worthy(coins, feeRate), feeRate) ==
            Gain(WithState(coins, true), feeRate) + Gain(Worthy(WithState(coins, false), feeRate), feeRate)
  {
    hide Gain;
    GainOne(Coin(OutPoint(0, 0), 0, [], "", "", true, 0), feeRate);
    if coins != [] {
      var c, tail := coins[0], coins[1..];
      var sure, others := WithState(tail, true), WithState(tail, false);
      assert forall i :: 0 <= i < |tail| ==> tail[i] == coins[i + 1];
      WorthyWithConfirmed(tail, feeRate);
      HeadGains(c, Worthy(tail, feeRate), feeRate);
      if c.confirmed {
        HeadGains(c, sure, feeRate);
        assert WithState(coins, false) == [] + others == others;
      } else {
        HeadGains(c, Worthy(others, feeRate), feeRate);
        assert WithState(coins, true) == [] + sure == sure;
        assert ([c] + others)[1..] == others;
        assert Worthy([c] + others, feeRate) == (if c.value >= 68 * feeRate then [c] else []) + Worthy(others, feeRate);
      }
    }
  }

  lemma HeadGains(c: Coin, s: seq<Coin>, feeRate: int)
    ensures Gain([c] + s, feeRate) == c.value - 68 * feeRate + Gain(s, feeRate) && [] + s == s
  {
    GainAppend([c], s, feeRate);
    GainOne(c, feeRate);
  }

  /** So planning is complete as long as every confirmed coin is worth its input's fee. */
  lemma PlanIsCompleteWhenWorth(coins: seq<Coin>, p: Payment)
    requires p.feeRate >= 1 && p.amount >= DustLimit(p.dest) && WorthSpending(coins, p.feeRate)
    ensures Plan(coins, false, p).Ok? <==> exists s :: PartOf(s, coins) && Funds(s, p)
  {
    hide Plan, Funds, PartOf, WorthSpending, Gain, WithState, Worthy, DustLimit;
    PlanIsCompleteIff(coins, p);
    WorthyWithConfirmed(coins, p.feeRate);
    FundsByGain(Worthy(coins, p.feeRate), p);
    GainAppend(WithState(coins, true), Worthy(WithState(coins, false), p.feeRate), p.feeRate);
    FundsByGain(WithState(coins, true) + Worthy(WithState(coins, false), p.feeRate), p);
  }

  /** Otherwise it may not be: an unconfirmed coin alone pays the amount, but the
      confirmed one, worth less than its fee, has to come with it. */
  lemma WorthlessCoinExample(small: Coin, large: Coin, p: Payment)
    requires p.feeRate >= 1 && p.amount >= DustLimit(p.dest)
    requires small.confirmed && 0 <= small.value < 68 * p.feeRate
    requires !large.confirmed && large.value == p.amount + FeeFor(1, [p.dest], p.feeRate)
    ensures PartOf([large], [small, large]) && Funds([large], p)
    ensures Plan([small, large], false, p) == Err(InsufficientFunds)
  {
    hide SumValues, PrefixPlan, Funds, Sort, FeeFor;
    var coins := [small, large];
    InThatOrder(small, large);
    NoPrefixFunds(small, large, p);
    var k := PrefixPlanned(coins, 1, p);
    assert coins[..1] == [small] && coins[..2] == coins;
  }

  lemma InThatOrder(small: Coin, large: Coin)
    requires small.confirmed && !large.confirmed
    ensures Sort(TriedBefore, [small, large]) == [small, large]
  {
    assert [small, large][1..] == [large];
    assert Sort(TriedBefore, [large]) == [large];
  }

  lemma NoPrefixFunds(small: Coin, large: Coin, p: Payment)
    requires p.feeRate >= 1 && p.amount >= 0
    requires small.value < 68 * p.feeRate && large.value == p.amount + FeeFor(1, [p.dest], p.feeRate)
    ensures Funds([large], p) && !Funds([small], p) && !Funds([small, large], p)
    ensures PartOf([large], [small, large])
  {
    hide OutputsSize;
    SumOne(large);
    SumOne(small);
    SumAppend([small], [large]);
    assert [small, large] == [small] + [large];
    Distribute(VSize(1, [p.dest]), 68, p.feeRate);
    assert VSize(2, [p.dest]) == VSize(1, [p.dest]) + 68;
    Positive(VSize(1, [p.dest]), p.feeRate);
  }

  lemma Positive(a: nat, rate: int)
    requires a >= 68 && rate >= 1
    ensures a * rate >= 68 * rate
  {
  }
}
