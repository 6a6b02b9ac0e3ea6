/**
 The fee of a transaction: from the wallet field, from prevout values, or by
 looking up the previous transactions. Amounts are whole sats.
 */
module TxFees {
  import opened Domain
  import opened Sums

  // `prevout` is the value of the spent output when the node reports it; a
  // coinbase input has no previous transaction id.
  datatype Vin = Vin(txId: Option<TxId>, vout: Option<nat>, prevout: Option<nat>)

  datatype Vout = Vout(n: nat, value: nat)

  datatype TxInfo = TxInfo(fee: Option<int>, vin: seq<Vin>, vout: seq<Vout>)

  function SumOuts(outs: seq<Vout>): nat {
    if outs == [] then 0 else SumOuts(outs[..|outs| - 1]) + outs[|outs| - 1].value
  }

  // ---------- the prevout pass ----------

  // None as soon as an input names a previous transaction but no prevout.
  function PrevoutTotal(vin: seq<Vin>): Option<nat> {
    if vin == [] then Some(0)
    else
      var rest, v := PrevoutTotal(vin[..|vin| - 1]), vin[|vin| - 1];
      if rest.None? then None
      else if v.prevout.Some? then Some(rest.value + v.prevout.value)
      else if v.txId.Some? then None
      else rest
  }

  // ---------- the lookup pass ----------

  function FindOut(outs: seq<Vout>, n: nat): Option<nat> {
    if outs == [] then None
    else if outs[0].n == n then Some(outs[0].value)
    else FindOut(outs[1..], n)
  }

  function SpentValue(txs: map<TxId, TxInfo>, txId: TxId, n: nat): Option<nat> {
    if txId in txs then FindOut(txs[txId].vout, n) else None
  }

  function LookupTotal(txs: map<TxId, TxInfo>, vin: seq<Vin>): Option<nat> {
    if vin == [] then Some(0)
    else
      var rest, v := LookupTotal(txs, vin[..|vin| - 1]), vin[|vin| - 1];
      if rest.None? then None
      else if v.txId.Some? && v.vout.Some? then
        var value := SpentValue(txs, v.txId.value, v.vout.value);
        if value.Some? then Some(rest.value + value.value) else None
      else rest
  }

  function FeeFrom(inputs: nat, outputs: nat): Option<nat> {
    if inputs >= outputs then Some(inputs - outputs) else None
  }

  // What the call returns, pass by pass.
  function FeeOf(txs: map<TxId, TxInfo>, txId: TxId): Option<nat> {
    if txId !in txs then None
    else
      var tx := txs[txId];
      if tx.fee.Some? then Some(Abs(tx.fee.value))
      else
        var direct := PrevoutTotal(tx.vin);
        var inputs := if direct.Some? then direct else LookupTotal(txs, tx.vin);
        if inputs.Some? then FeeFrom(inputs.value, SumOuts(tx.vout)) else None
  }

  function Abs(n: int): nat {
    if n < 0 then -n else n
  }

  method SumPrevouts(vin: seq<Vin>) returns (inputTotal: Option<nat>)
    ensures inputTotal == PrevoutTotal(vin)
  {
    var total: nat, i := 0, 0;
    while i < |vin|
      invariant 0 <= i <= |vin|
      invariant PrevoutTotal(vin[..i]) == Some(total)
    {
      assert vin[..i + 1][..i] == vin[..i];
      if vin[i].prevout.Some? {
        total := total + vin[i].prevout.value;
      } else if vin[i].txId.Some? {
        PrevoutStops(vin, i + 1);
        return None;
      }
      i := i + 1;
    }
    assert vin[..|vin|] == vin;
    return Some(total);
  }

  method SumPreviousOutputs(txs: map<TxId, TxInfo>, vin: seq<Vin>) returns (inputTotal: Option<nat>)
    ensures inputTotal == LookupTotal(txs, vin)
  {
    var total: nat, i := 0, 0;
    while i < |vin|
      invariant 0 <= i <= |vin|
      invariant LookupTotal(txs, vin[..i]) == Some(total)
    {
      assert vin[..i + 1][..i] == vin[..i];
      if vin[i].txId.Some? && vin[i].vout.Some? {
        var value := SpentValue(txs, vin[i].txId.value, vin[i].vout.value);
        if value.None? {
          LookupStops(txs, vin, i + 1);
          return None;
        }
        total := total + value.value;
      }
      i := i + 1;
    }
    assert vin[..|vin|] == vin;
    return Some(total);
  }

  // The wallet fee if there is one, else the prevout loop, else the lookup loop.
  method GetTxFeeSats(txs: map<TxId, TxInfo>, txId: TxId) returns (fee: Option<nat>)
    ensures fee == FeeOf(txs, txId)
  {
    if txId !in txs {
      return None;
    }
    var tx := txs[txId];
    if tx.fee.Some? {
      return Some(Abs(tx.fee.value));
    }
    var inputTotal := SumPrevouts(tx.vin);
    if inputTotal.None? {
      inputTotal := SumPreviousOutputs(txs, tx.vin);
    }
    if inputTotal.None? {
      return None;
    }
    return FeeFrom(inputTotal.value, SumOuts(tx.vout));
  }

  lemma {:induction false} PrevoutStops(vin: seq<Vin>, i: nat)
    requires i <= |vin| && PrevoutTotal(vin[..i]).None?
    ensures PrevoutTotal(vin).None?
    decreases |vin| - i
  {
    if i < |vin| {
      assert vin[..i + 1][..i] == vin[..i];
      PrevoutStops(vin, i + 1);
    } else {
      assert vin[..i] == vin;
    }
  }

  lemma {:induction false} LookupStops(txs: map<TxId, TxInfo>, vin: seq<Vin>, i: nat)
    requires i <= |vin| && LookupTotal(txs, vin[..i]).None?
    ensures LookupTotal(txs, vin).None?
    decreases |vin| - i
  {
    if i < |vin| {
      assert vin[..i + 1][..i] == vin[..i];
      LookupStops(txs, vin, i + 1);
    } else {
      assert vin[..i] == vin;
    }
  }

  // The reported prevouts are those of the previous transactions.
  ghost predicate PrevoutsMatch(txs: map<TxId, TxInfo>, vin: seq<Vin>) {
    forall i :: 0 <= i < |vin| ==>
      var v := vin[i];
      && (v.txId.Some? <==> v.vout.Some?)
      && (v.prevout.Some? ==> v.txId.Some?)
      && (v.txId.Some? && v.prevout.Some? ==> SpentValue(txs, v.txId.value, v.vout.value) == v.prevout)
  }

  // Both passes agree whenever the node reports every prevout.
  lemma {:induction false} PassesAgree(txs: map<TxId, TxInfo>, vin: seq<Vin>)
    requires PrevoutsMatch(txs, vin) && PrevoutTotal(vin).Some?
    ensures LookupTotal(txs, vin) == PrevoutTotal(vin)
  {
    if vin != [] {
      var rest := vin[..|vin| - 1];
      assert vin[|vin| - 1] == vin[|vin| - 1] && forall i :: 0 <= i < |rest| ==> rest[i] == vin[i];
      PassesAgree(txs, rest);
    }
  }

  // Without a wallet fee, a reported fee is inputs minus outputs, whichever
  // pass produced the inputs.
  lemma FeeBalances(txs: map<TxId, TxInfo>, txId: TxId)
    requires txId in txs && txs[txId].fee.None? && PrevoutsMatch(txs, txs[txId].vin)
    ensures FeeOf(txs, txId).Some? <==>
      LookupTotal(txs, txs[txId].vin).Some? && LookupTotal(txs, txs[txId].vin).value >= SumOuts(txs[txId].vout)
    ensures FeeOf(txs, txId).Some? ==>
      LookupTotal(txs, txs[txId].vin).value == SumOuts(txs[txId].vout) + FeeOf(txs, txId).value
  {
    if PrevoutTotal(txs[txId].vin).Some? { PassesAgree(txs, txs[txId].vin); }
  }

  // ---------- index by index ----------

  function OutValues(outs: seq<Vout>): seq<int> {
    seq(|outs|, i requires 0 <= i < |outs| => outs[i].value)
  }

  lemma {:induction false} SumOutsIs(outs: seq<Vout>)
    ensures SumOuts(outs) == Total(OutValues(outs))
  {
    if outs != [] {
      SumOutsIs(outs[..|outs| - 1]);
      assert OutValues(outs)[..|outs| - 1] == OutValues(outs[..|outs| - 1]);
    }
  }

  // The first output with the index, if there is one.
  lemma {:induction false} FindOutIs(outs: seq<Vout>, n: nat, i: nat)
    ensures FindOut(outs, n).None? <==> forall k :: 0 <= k < |outs| ==> outs[k].n != n
    ensures i < |outs| && outs[i].n == n && (forall k :: 0 <= k < i ==> outs[k].n != n) ==>
      FindOut(outs, n) == Some(outs[i].value)
  {
    if outs != [] {
      var rest := outs[1..];
      FindOutIs(rest, n, if i > 0 then i - 1 else 0);
      forall k | 0 <= k < |rest| ensures rest[k] == outs[k + 1] {
      }
      if FindOut(outs, n).None? {
        forall k | 0 <= k < |outs| ensures outs[k].n != n {
          if k > 0 { assert outs[k] == rest[k - 1]; }
        }
      }
    }
  }

  // Every input that names a previous transaction comes with its value.
  ghost predicate PrevoutsGiven(vin: seq<Vin>) {
    forall i :: 0 <= i < |vin| ==> vin[i].prevout.Some? || vin[i].txId.None?
  }

  function Prevouts(vin: seq<Vin>): seq<int> {
    seq(|vin|, i requires 0 <= i < |vin| => vin[i].prevout.GetOr(0))
  }

  lemma {:induction false} PrevoutTotalIs(vin: seq<Vin>)
    ensures PrevoutTotal(vin).Some? <==> PrevoutsGiven(vin)
    ensures PrevoutsGiven(vin) ==> PrevoutTotal(vin).value == Total(Prevouts(vin))
  {
    if vin != [] {
      var rest := vin[..|vin| - 1];
      PrevoutTotalIs(rest);
      assert Prevouts(vin)[..|vin| - 1] == Prevouts(rest);
      forall i | 0 <= i < |rest| ensures rest[i] == vin[i] {
      }
    }
  }

  // The output that input i spends, as the previous transaction has it.
  function Spent(txs: map<TxId, TxInfo>, v: Vin): Option<nat> {
    if v.txId.Some? && v.vout.Some? && v.txId.value in txs
      then FindOut(txs[v.txId.value].vout, v.vout.value) else None
  }

  ghost predicate SpentKnown(txs: map<TxId, TxInfo>, vin: seq<Vin>) {
    forall i :: 0 <= i < |vin| && vin[i].txId.Some? && vin[i].vout.Some? ==> Spent(txs, vin[i]).Some?
  }

  function SpentValues(txs: map<TxId, TxInfo>, vin: seq<Vin>): seq<int> {
    seq(|vin|, i requires 0 <= i < |vin| => Spent(txs, vin[i]).GetOr(0))
  }

  lemma {:induction false} LookupTotalIs(txs: map<TxId, TxInfo>, vin: seq<Vin>)
    ensures LookupTotal(txs, vin).Some? <==> SpentKnown(txs, vin)
    ensures SpentKnown(txs, vin) ==> LookupTotal(txs, vin).value == Total(SpentValues(txs, vin))
  {
    if vin != [] {
      var rest := vin[..|vin| - 1];
      LookupTotalIs(txs, rest);
      assert SpentValues(txs, vin)[..|vin| - 1] == SpentValues(txs, rest);
      forall i | 0 <= i < |rest| ensures rest[i] == vin[i] {
      }
    }
  }

  // The call reports the wallet fee without its sign; without one, the given or
  // else the looked-up input values less the output values, if the inputs are
  // known and cover the outputs.
  lemma FeeIs(txs: map<TxId, TxInfo>, txId: TxId)
    ensures
      if txId !in txs then FeeOf(txs, txId) == None
      else
        var tx := txs[txId];
        var outputs := Total(OutValues(tx.vout));
        if tx.fee.Some? then
          FeeOf(txs, txId).Some? && (FeeOf(txs, txId).value == tx.fee.value || FeeOf(txs, txId).value == -tx.fee.value)
        else if PrevoutsGiven(tx.vin) || SpentKnown(txs, tx.vin) then
          var inputs := if PrevoutsGiven(tx.vin) then Total(Prevouts(tx.vin)) else Total(SpentValues(txs, tx.vin));
          if inputs >= outputs then FeeOf(txs, txId).Some? && inputs == outputs + FeeOf(txs, txId).value
          else FeeOf(txs, txId) == None
        else FeeOf(txs, txId) == None
  {
    if txId in txs {
      SumOutsIs(txs[txId].vout);
      PrevoutTotalIs(txs[txId].vin);
      LookupTotalIs(txs, txs[txId].vin);
    }
  }
}
