/** Fee escalation when a pending transaction is resubmitted. */
module Fees {

  function Min(a: nat, b: nat): nat {
    if a <= b then a else b
  }

  function Max(a: nat, b: nat): nat {
    if a >= b then a else b
  }

  /** The escalation settings: multiply by `num / den`, never above the price limits. */
  datatype Escalation = Escalation(num: nat, den: nat, maxGasPrice: nat, maxBlobGasPrice: nat)

  ghost predicate ValidEscalation(e: Escalation) {
    e.num > e.den > 0
  }

  function Escalated(e: Escalation, x: nat): nat
    requires e.den > 0
  {
    x * e.num / e.den
  }

  /** One more than the price when the price did not move. */
  function Nudged(original: nat, adjusted: nat): nat {
    if original == adjusted then adjusted + 1 else adjusted
  }

  lemma {:induction false} EscalatedGrows(e: Escalation, x: nat)
    requires ValidEscalation(e)
    ensures Escalated(e, x) >= x
  {
    var d := e.num - e.den;
    assert x * e.num == x * e.den + x * d;
    assert x * d >= 0;
    DivAtLeast(x * e.num, e.den, x);
  }

  lemma {:induction false} DivAtLeast(a: nat, d: nat, q: nat)
    requires d > 0 && a >= q * d
    ensures a / d >= q
  {
    var r := a / d;
    assert a < r * d + d == (r + 1) * d;
    if r < q {
      MulMonotone(r + 1, q, d);
    }
  }

  lemma {:induction false} MulMonotone(x: nat, y: nat, d: nat)
    requires x <= y
    ensures x * d <= y * d
    decreases y
  {
    if x < y {
      MulMonotone(x, y - 1, d);
      assert y * d == (y - 1) * d + d;
    }
  }

  // ---------- Dynamic-fee transactions ----------

  datatype Caps = Caps(tip: nat, fee: nat)

  /** The resubmitted caps: escalated, at least the current need of the base fee, capped, and nudged. */
  function Bump(e: Escalation, c: Caps, baseFee: nat): Caps
    requires e.den > 0
  {
    var fee := Min(e.maxGasPrice, Max(Escalated(e, c.fee), 2 * baseFee + Escalated(e, c.tip)));
    var tip := Min(Escalated(e, c.tip), fee);
    Caps(Nudged(c.tip, tip), Nudged(c.fee, fee))
  }

  method ResubmitDynamicFee(e: Escalation, original: Caps, baseFee: nat) returns (caps: Caps)
    requires e.den > 0
    ensures caps == Bump(e, original, baseFee)
  {
    var gasTipCap := Escalated(e, original.tip);
    var gasFeeCap := Escalated(e, original.fee);
    var currentGasFeeCap := baseFee * 2 + gasTipCap;
    if gasFeeCap < currentGasFeeCap {
      gasFeeCap := currentGasFeeCap;
    }
    if gasFeeCap > e.maxGasPrice {
      gasFeeCap := e.maxGasPrice;
    }
    if gasTipCap > gasFeeCap {
      gasTipCap := gasFeeCap;
    }
    if original.tip == gasTipCap {
      gasTipCap := gasTipCap + 1;
    }
    if original.fee == gasFeeCap {
      gasFeeCap := gasFeeCap + 1;
    }
    return Caps(gasTipCap, gasFeeCap);
  }

  /** Each cap is raised exactly when it was within the price limit; the limit is exceeded by at most one;
      and the tip stays within the fee except from a fee beyond the limit with the tip at the limit. */
  lemma {:induction false} BumpRaises(e: Escalation, c: Caps, baseFee: nat)
    requires ValidEscalation(e) && c.tip <= c.fee
    ensures Bump(e, c, baseFee).fee > c.fee <==> c.fee <= e.maxGasPrice
    ensures Bump(e, c, baseFee).tip > c.tip <==> c.tip <= e.maxGasPrice
    ensures Bump(e, c, baseFee).fee <= e.maxGasPrice + 1
    ensures Bump(e, c, baseFee).tip <= Bump(e, c, baseFee).fee <==> !(c.fee > e.maxGasPrice && c.tip == e.maxGasPrice)
    ensures c.fee < e.maxGasPrice ==> Bump(e, c, baseFee).fee <= e.maxGasPrice
  {
    hide Escalated;
    EscalatedGrows(e, c.tip);
    EscalatedGrows(e, c.fee);
  }

  /** From the fee limit plus one, with the tip at the limit, the next tip passes the next fee. */
  lemma {:induction false} TipPassesFee(e: Escalation, baseFee: nat)
    requires ValidEscalation(e)
    ensures var c := Caps(e.maxGasPrice, e.maxGasPrice + 1);
      c.tip <= c.fee && Bump(e, c, baseFee) == Caps(e.maxGasPrice + 1, e.maxGasPrice)
  {
    hide Escalated;
    EscalatedGrows(e, e.maxGasPrice);
    EscalatedGrows(e, e.maxGasPrice + 1);
  }

  /** These caps are reached from within the limit: with the fee at the limit, and a tip below it that escalates to the
      limit, two resubmissions end with the tip above the fee, whatever the base fees. */
  lemma {:induction false} TipPassesFeeReached(e: Escalation, t: nat, baseFees: seq<nat>)
    requires ValidEscalation(e) && t < e.maxGasPrice <= Escalated(e, t) && |baseFees| == 2
    ensures BumpAll(e, Caps(t, e.maxGasPrice), baseFees) == Caps(e.maxGasPrice + 1, e.maxGasPrice)
  {
    hide Escalated;
    EscalatedGrows(e, e.maxGasPrice);
    assert baseFees[..1][..0] == [] && baseFees[..1][0] == baseFees[0];
    assert Bump(e, Caps(t, e.maxGasPrice), baseFees[0]) == Caps(e.maxGasPrice, e.maxGasPrice + 1);
    assert BumpAll(e, Caps(t, e.maxGasPrice), baseFees[..1]) == Caps(e.maxGasPrice, e.maxGasPrice + 1);
    TipPassesFee(e, baseFees[1]);
  }

  /** The caps after resubmissions at the given base fees. */
  function BumpAll(e: Escalation, c: Caps, baseFees: seq<nat>): Caps
    requires e.den > 0
  {
    if baseFees == [] then c else Bump(e, BumpAll(e, c, baseFees[..|baseFees| - 1]), baseFees[|baseFees| - 1])
  }

  /** Whatever the base fees, every resubmission before the limit raises the fee by at least one and keeps the
      tip within the fee, so the fee reaches the limit within as many resubmissions as it is below it. */
  lemma {:induction false} LimitReached(e: Escalation, c: Caps, baseFees: seq<nat>, k: nat)
    requires ValidEscalation(e) && c.tip <= c.fee <= e.maxGasPrice
    requires k <= |baseFees| && k <= e.maxGasPrice - c.fee
    ensures exists i :: 0 <= i <= k && AtOrAbove(e, BumpAll(e, c, baseFees[..i]), c.fee + k)
    decreases k
  {
    hide Bump;
    if k == 0 {
      assert baseFees[..0] == [];
      assert AtOrAbove(e, BumpAll(e, c, baseFees[..0]), c.fee);
    } else {
      LimitReached(e, c, baseFees, k - 1);
      var i :| 0 <= i <= k - 1 && AtOrAbove(e, BumpAll(e, c, baseFees[..i]), c.fee + k - 1);
      var d := BumpAll(e, c, baseFees[..i]);
      if d.fee >= c.fee + k {
        assert AtOrAbove(e, BumpAll(e, c, baseFees[..i]), c.fee + k);
      } else {
        assert baseFees[..i + 1][..i] == baseFees[..i];
        BumpRaises(e, d, baseFees[i]);
        assert AtOrAbove(e, BumpAll(e, c, baseFees[..i + 1]), c.fee + k);
      }
    }
  }

  ghost predicate AtOrAbove(e: Escalation, c: Caps, fee: nat) {
    c.tip <= c.fee && fee <= c.fee <= e.maxGasPrice
  }

  // ---------- Legacy transactions ----------

  method ResubmitLegacy(e: Escalation, originalGasPrice: nat) returns (gasPrice: nat)
    requires e.den > 0
    ensures gasPrice == Nudged(originalGasPrice, Min(e.maxGasPrice, Escalated(e, originalGasPrice)))
    ensures ValidEscalation(e) ==> (gasPrice > originalGasPrice <==> originalGasPrice <= e.maxGasPrice)
    ensures gasPrice <= e.maxGasPrice + 1
  {
    hide Escalated;
    if ValidEscalation(e) {
      EscalatedGrows(e, originalGasPrice);
    }
    gasPrice := Escalated(e, originalGasPrice);
    if gasPrice > e.maxGasPrice {
      gasPrice := e.maxGasPrice;
    }
    if originalGasPrice == gasPrice {
      gasPrice := gasPrice + 1;
    }
  }

  // ---------- Blob transactions ----------

  /** Caps are doubled, and there is no nudge: a cap grows exactly when it is below its limit and
      something is there to double or a base fee to follow. */
  method ResubmitBlob(e: Escalation, original: Caps, originalBlobFee: nat, baseFee: nat, blobBaseFee: nat)
    returns (caps: Caps, blobFee: nat)
    ensures caps.fee == Min(e.maxGasPrice, Max(2 * original.fee, 2 * baseFee + 2 * original.tip))
    ensures caps.tip == Min(2 * original.tip, caps.fee)
    ensures blobFee == Min(e.maxBlobGasPrice, Max(2 * originalBlobFee, 2 * blobBaseFee))
    ensures original.tip <= original.fee ==>
      (caps.fee > original.fee <==> original.fee < e.maxGasPrice && (original.fee > 0 || baseFee > 0))
    ensures caps.tip > original.tip <==> 0 < original.tip < e.maxGasPrice
    ensures blobFee > originalBlobFee <==>
      originalBlobFee < e.maxBlobGasPrice && (originalBlobFee > 0 || blobBaseFee > 0)
    ensures caps.tip <= caps.fee <= e.maxGasPrice && blobFee <= e.maxBlobGasPrice
  {
    var gasTipCap := original.tip * 2;
    var gasFeeCap := original.fee * 2;
    blobFee := originalBlobFee * 2;
    var currentGasFeeCap := baseFee * 2 + gasTipCap;
    if gasFeeCap < currentGasFeeCap {
      gasFeeCap := currentGasFeeCap;
    }
    if gasFeeCap > e.maxGasPrice {
      gasFeeCap := e.maxGasPrice;
    }
    if gasTipCap > gasFeeCap {
      gasTipCap := gasFeeCap;
    }
    var currentBlobGasFeeCap := blobBaseFee * 2;
    if blobFee < currentBlobGasFeeCap {
      blobFee := currentBlobGasFeeCap;
    }
    if blobFee > e.maxBlobGasPrice {
      blobFee := e.maxBlobGasPrice;
    }
    caps := Caps(gasTipCap, gasFeeCap);
  }
}
