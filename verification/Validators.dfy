/**
 The four PSBT validators. They inspect a transaction and change nothing; an
 index past the end is `Panicked`.
 */
module Validators {
  import opened Domain

  // ---------- shared checks ----------

  function GetInput0Value(input0: TxIn): Result<nat> {
    if input0.witnessUtxo.Some? then Success(input0.witnessUtxo.value)
    else if input0.nonWitnessUtxo.Some? then
      var outs, vout := input0.nonWitnessUtxo.value, input0.outpoint.vout;
      if vout < |outs| then Success(outs[vout].value) else Failure(Panicked)
    else Failure(BadRequest)
  }

  function ValidateInput0Output0Value(input0: TxIn, output0: TxOut): Result<()> {
    var value :- GetInput0Value(input0);
    Need(output0.value == value, BadRequest)
  }

  function ValidateOutput0Address(output0: TxOut, address: Address): Result<()> {
    Need(output0.address == Some(address), BadRequest)
  }

  function ValidateInput0Utxo(input0: TxIn, listing: Listing): Result<()> {
    Need(input0.outpoint == OutPoint(listing.txId, 0), BadRequest)
  }

  function ValidatePayTo(output: TxOut, payee: Address, sats: nat): Result<()> {
    Need(output.address == Some(payee) && output.value == sats, BadRequest)
  }

  // Every input from index `from` on carries a signature.
  function AllSigned(inputs: seq<TxIn>, from: nat): Result<()> {
    Need(forall i :: from <= i < |inputs| ==> inputs[i].signed, BadRequest)
  }

  function First<T>(s: seq<T>): Result<T> {
    if s == [] then Failure(Panicked) else Success(s[0])
  }

  function At<T>(s: seq<T>, i: nat): Result<T> {
    if i < |s| then Success(s[i]) else Failure(Panicked)
  }

  // ---------- the validators ----------

  function ValidateList(psbt: Psbt, pool: Address): Result<()> {
    var _ :- AllSigned(psbt.inputs, 0);
    var output0 :- First(psbt.outputs);
    var _ :- ValidateOutput0Address(output0, pool);
    var input0 :- First(psbt.inputs);
    ValidateInput0Output0Value(input0, output0)
  }

  function ValidateDelist(psbt: Psbt, listing: Listing): Result<()> {
    var _ :- AllSigned(psbt.inputs, 1);
    var output0 :- First(psbt.outputs);
    var _ :- ValidateOutput0Address(output0, listing.seller);
    var input0 :- First(psbt.inputs);
    var _ :- ValidateInput0Output0Value(input0, output0);
    ValidateInput0Utxo(input0, listing)
  }

  function ValidateBuyAndRelist(
    psbt: Psbt, pool: Address, listing: Listing, payment: nat, fee: nat, collector: Address
  ): Result<()>
  {
    var _ :- Need(|psbt.outputs| >= 2, BadRequest);
    var _ :- AllSigned(psbt.inputs, 1);
    var _ :- ValidateOutput0Address(psbt.outputs[0], pool);
    ValidateSpendAndPay(psbt, listing, payment, fee, collector)
  }

  function ValidateBuyAndDelist(
    psbt: Psbt, buyer: Address, listing: Listing, payment: nat, fee: nat, collector: Address
  ): Result<()>
  {
    var _ :- AllSigned(psbt.inputs, 1);
    var output0 :- First(psbt.outputs);
    var _ :- ValidateOutput0Address(output0, buyer);
    ValidateSpendAndPay(psbt, listing, payment, fee, collector)
  }

  // Common tail of the two buys: spend the listed output, pay seller and collector.
  function ValidateSpendAndPay(
    psbt: Psbt, listing: Listing, payment: nat, fee: nat, collector: Address
  ): Result<()>
  {
    var output0 :- First(psbt.outputs);
    var input0 :- First(psbt.inputs);
    var _ :- ValidateInput0Output0Value(input0, output0);
    var _ :- ValidateInput0Utxo(input0, listing);
    var output1 :- At(psbt.outputs, 1);
    var _ :- ValidatePayTo(output1, listing.seller, payment);
    var output2 :- At(psbt.outputs, 2);
    ValidatePayTo(output2, collector, fee)
  }

  // ---------- what acceptance means ----------

  // The input says what it spends: the witness field decides, and without one
  // the output that the full previous transaction has at that index.
  ghost predicate Claims(input: TxIn, value: nat) {
    if input.witnessUtxo.Some? then input.witnessUtxo == Some(value)
    else
      && input.nonWitnessUtxo.Some? && input.outpoint.vout < |input.nonWitnessUtxo.value|
      && input.nonWitnessUtxo.value[input.outpoint.vout].value == value
  }

  lemma ClaimsIff(input: TxIn, value: nat)
    ensures GetInput0Value(input) == Success(value) <==> Claims(input, value)
  {
  }

  // The inscription input keeps its value: input 0 is spent whole into output 0.
  ghost predicate CarriesInput0(psbt: Psbt) {
    && psbt.inputs != [] && psbt.outputs != []
    && Claims(psbt.inputs[0], psbt.outputs[0].value)
  }

  ghost predicate Spends(psbt: Psbt, listing: Listing) {
    psbt.inputs != [] && psbt.inputs[0].outpoint == OutPoint(listing.txId, 0)
  }

  ghost predicate Pays(psbt: Psbt, index: nat, payee: Address, sats: nat) {
    index < |psbt.outputs| && psbt.outputs[index] == TxOut(Some(payee), sats)
  }

  ghost predicate SignedFrom(psbt: Psbt, from: nat) {
    forall i :: from <= i < |psbt.inputs| ==> psbt.inputs[i].signed
  }

  // ---------- exactly what each validator lets through ----------

  lemma ListValidatorIff(psbt: Psbt, pool: Address)
    ensures ValidateList(psbt, pool).Success? <==>
      SignedFrom(psbt, 0) && CarriesInput0(psbt) && psbt.outputs[0].address == Some(pool)
  {
  }

  lemma DelistValidatorIff(psbt: Psbt, listing: Listing)
    ensures ValidateDelist(psbt, listing).Success? <==>
      && SignedFrom(psbt, 1) && CarriesInput0(psbt) && Spends(psbt, listing)
      && psbt.outputs[0].address == Some(listing.seller)
  {
  }

  // The two buys differ only in who receives output 0: the length check of
  // buy_and_relist is implied by the payments.
  ghost predicate Settles(
    psbt: Psbt, receiver: Address, listing: Listing, payment: nat, fee: nat, collector: Address)
  {
    && SignedFrom(psbt, 1) && CarriesInput0(psbt) && Spends(psbt, listing)
    && psbt.outputs[0].address == Some(receiver)
    && Pays(psbt, 1, listing.seller, payment)
    && Pays(psbt, 2, collector, fee)
  }

  lemma BuyAndRelistValidatorIff(
    psbt: Psbt, pool: Address, listing: Listing, payment: nat, fee: nat, collector: Address)
    ensures ValidateBuyAndRelist(psbt, pool, listing, payment, fee, collector).Success? <==>
      Settles(psbt, pool, listing, payment, fee, collector)
  {
  }

  lemma BuyAndDelistValidatorIff(
    psbt: Psbt, buyer: Address, listing: Listing, payment: nat, fee: nat, collector: Address)
    ensures ValidateBuyAndDelist(psbt, buyer, listing, payment, fee, collector).Success? <==>
      Settles(psbt, buyer, listing, payment, fee, collector)
  {
  }
}
