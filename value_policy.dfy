/** `ValuePolicy` (signing_bot/src/policy/valuepolicy.rs): approves a
    transaction when the value it sends to scripts the wallet does not own is
    at most `max_spend_per_tx`. */
module ValuePolicy {
  import opened Results
  import opened Strings
  import opened PolicyTypes

  datatype ValuePolicy = ValuePolicy(wallet: Wallet, maxSpendPerTx: u64)

  /** `ValuePolicy::new`: the limit is copied from the configuration. */
  function New(config: PolicyConfig, wallet: Wallet): (p: ValuePolicy)
    ensures p.maxSpendPerTx == config.maxSpendPerTx && p.wallet == wallet
  {
    ValuePolicy(wallet, config.maxSpendPerTx)
  }

  /** The `filter`: the outputs `is_mine` rejects, in order. */
  function ExternalOutputs(outputs: seq<TxOut>, wallet: Wallet): (r: seq<TxOut>)
    ensures |r| <= |outputs|
    ensures forall i :: 0 <= i < |r| ==> !wallet.IsMine(r[i].scriptPubkey)
  {
    if outputs == [] then []
    else
      (if wallet.IsMine(outputs[0].scriptPubkey) then [] else [outputs[0]])
      + ExternalOutputs(outputs[1..], wallet)
  }

  /** The `fold(0, |acc, txout| acc + txout.value)`, without the `u64` bound. */
  function FoldValues(acc: nat, outputs: seq<TxOut>): nat
    decreases |outputs|
  {
    if outputs == [] then acc else FoldValues(acc + outputs[0].value as nat, outputs[1..])
  }

  /** `total_spend`: the value leaving the wallet. */
  function TotalSpend(outputs: seq<TxOut>, wallet: Wallet): nat
  {
    FoldValues(0, ExternalOutputs(outputs, wallet))
  }

  lemma {:induction false} FoldValuesAppend(acc: nat, a: seq<TxOut>, b: seq<TxOut>)
    ensures FoldValues(acc, a + b) == FoldValues(FoldValues(acc, a), b)
    decreases |a|
  {
    if a == [] {
      assert a + b == b;
    } else {
      assert (a + b)[1..] == a[1..] + b;
      FoldValuesAppend(acc + a[0].value as nat, a[1..], b);
    }
  }

  lemma {:induction false} FoldValuesShift(acc: nat, outputs: seq<TxOut>)
    ensures FoldValues(acc, outputs) == acc + FoldValues(0, outputs)
    decreases |outputs|
  {
    if outputs != [] {
      FoldValuesShift(acc + outputs[0].value as nat, outputs[1..]);
      FoldValuesShift(outputs[0].value as nat, outputs[1..]);
    }
  }

  lemma {:induction false} ExternalOutputsAppend(a: seq<TxOut>, b: seq<TxOut>, wallet: Wallet)
    ensures ExternalOutputs(a + b, wallet) == ExternalOutputs(a, wallet) + ExternalOutputs(b, wallet)
  {
    if a == [] {
      assert a + b == b;
    } else {
      assert (a + b)[1..] == a[1..] + b;
      ExternalOutputsAppend(a[1..], b, wallet);
    }
  }

  /** The total spend of an output: its value if the wallet does not own it,
      0 if it does. */
  function OutputSpend(output: TxOut, wallet: Wallet): nat
  {
    if wallet.IsMine(output.scriptPubkey) then 0 else output.value as nat
  }

  /** The total spend adds up over the outputs: together with `TotalSpendSingle`
      it says the total is the sum of the values of the non-owned outputs. */
  lemma TotalSpendAppend(a: seq<TxOut>, b: seq<TxOut>, wallet: Wallet)
    ensures TotalSpend(a + b, wallet) == TotalSpend(a, wallet) + TotalSpend(b, wallet)
  {
    var ea, eb := ExternalOutputs(a, wallet), ExternalOutputs(b, wallet);
    ExternalOutputsAppend(a, b, wallet);
    FoldValuesAppend(0, ea, eb);
    FoldValuesShift(FoldValues(0, ea), eb);
  }

  lemma TotalSpendSingle(output: TxOut, wallet: Wallet)
    ensures TotalSpend([output], wallet) == OutputSpend(output, wallet)
  {
    assert [output][1..] == [];
    assert ExternalOutputs([output], wallet) == if wallet.IsMine(output.scriptPubkey) then [] else [output];
    assert FoldValues(0, [output]) == FoldValues(output.value as nat, []);
  }

  /** Outputs the wallet owns never count, whatever their value and place. */
  lemma OwnedOutputIgnored(before: seq<TxOut>, output: TxOut, after: seq<TxOut>, wallet: Wallet)
    requires wallet.IsMine(output.scriptPubkey)
    ensures TotalSpend(before + [output] + after, wallet) == TotalSpend(before + after, wallet)
  {
    TotalSpendAppend(before + [output], after, wallet);
    TotalSpendAppend(before, [output], wallet);
    TotalSpendSingle(output, wallet);
    TotalSpendAppend(before, after, wallet);
  }

  /** A transaction that pays only the wallet itself spends nothing. */
  lemma {:induction false} NoExternalOutputsNoSpend(outputs: seq<TxOut>, wallet: Wallet)
    requires forall i :: 0 <= i < |outputs| ==> wallet.IsMine(outputs[i].scriptPubkey)
    ensures ExternalOutputs(outputs, wallet) == []
    ensures TotalSpend(outputs, wallet) == 0
  {
    if outputs != [] {
      NoExternalOutputsNoSpend(outputs[1..], wallet);
    }
  }

  const SpendPrefix := "Transaction spend total of "
  const SpendSuffix := " exceeds policy limit."

  /** `format!("Transaction spend total of {} exceeds policy limit.", total_spend)` */
  function SpendExceededMessage(total: nat): string
  {
    SpendPrefix + DecimalString(total) + SpendSuffix
  }

  /** The rejection names the computed total: the text between the fixed
      prefix and suffix reads back as that total. */
  lemma SpendExceededMessageNamesTotal(total: nat)
    ensures var m := SpendExceededMessage(total);
      |m| > |SpendPrefix| + |SpendSuffix|
      && HasPrefix(m, SpendPrefix)
      && m[|m| - |SpendSuffix|..] == SpendSuffix
      && (forall i :: |SpendPrefix| <= i < |m| - |SpendSuffix| ==> IsDigit(m[i]))
      && DecimalValue(m[|SpendPrefix|..|m| - |SpendSuffix|]) == total
  {
    var m := SpendExceededMessage(total);
    var d := DecimalString(total);
    assert m[|SpendPrefix|..|m| - |SpendSuffix|] == d;
    assert m[..|SpendPrefix|] == SpendPrefix;
    assert m[|m| - |SpendSuffix|..] == SpendSuffix;
    DecimalRoundTrip(total);
  }

  /** Two rejections with the same text report the same total. */
  lemma SpendExceededMessageInjective(a: nat, b: nat)
    requires SpendExceededMessage(a) == SpendExceededMessage(b)
    ensures a == b
  {
    SpendExceededMessageNamesTotal(a);
    SpendExceededMessageNamesTotal(b);
  }

  /** `check_transaction`: `Ok` exactly when the limit is at least the total
      spend (the boundary is allowed); otherwise the error names the total. */
  function CheckTransaction(p: ValuePolicy, psbt: Psbt): (r: Result<string>)
    ensures r.Ok? <==> TotalSpend(psbt.outputs, p.wallet) <= p.maxSpendPerTx as nat
    ensures r.Err? ==> r.error == SpendExceededMessage(TotalSpend(psbt.outputs, p.wallet))
  {
    var totalSpend := TotalSpend(psbt.outputs, p.wallet);
    if p.maxSpendPerTx as nat >= totalSpend then Ok else Err(SpendExceededMessage(totalSpend))
  }

  /** Raising the limit never turns an approval into a rejection. */
  lemma ApprovalMonotoneInLimit(wallet: Wallet, limit: u64, limit': u64, psbt: Psbt)
    requires limit <= limit'
    requires CheckTransaction(ValuePolicy(wallet, limit), psbt).Ok?
    ensures CheckTransaction(ValuePolicy(wallet, limit'), psbt).Ok?
  {
  }

  /** Adding an output the wallet owns never changes the verdict. */
  lemma OwnedOutputKeepsVerdict(p: ValuePolicy, before: seq<TxOut>, output: TxOut, after: seq<TxOut>, sigs: seq<seq<bv8>>)
    requires p.wallet.IsMine(output.scriptPubkey)
    ensures CheckTransaction(p, Psbt(before + [output] + after, sigs))
         == CheckTransaction(p, Psbt(before + after, sigs))
  {
    OwnedOutputIgnored(before, output, after, p.wallet);
  }

  /** A transaction whose every output is the wallet's own is approved under
      any limit, 0 included. */
  lemma SelfTransferApproved(p: ValuePolicy, psbt: Psbt)
    requires forall i :: 0 <= i < |psbt.outputs| ==> p.wallet.IsMine(psbt.outputs[i].scriptPubkey)
    ensures CheckTransaction(p, psbt).Ok?
  {
    NoExternalOutputsNoSpend(psbt.outputs, p.wallet);
  }

  /** The two unit tests: 20 000 sent to another wallet, with change back to
      the spender, passes a 50 000 limit and fails a 10 000 limit. */
  lemma PaymentOf20000(wallet: Wallet, recipient: Script, changeScript: Script, change: u64, sigs: seq<seq<bv8>>)
    requires !wallet.IsMine(recipient) && wallet.IsMine(changeScript)
    ensures var psbt := Psbt([TxOut(recipient, 20_000), TxOut(changeScript, change)], sigs);
      TotalSpend(psbt.outputs, wallet) == 20_000
      && CheckTransaction(ValuePolicy(wallet, 50_000), psbt).Ok?
      && CheckTransaction(ValuePolicy(wallet, 10_000), psbt).Err?
  {
    var pay, back := TxOut(recipient, 20_000), TxOut(changeScript, change);
    assert [pay, back] == [pay] + [back];
    TotalSpendAppend([pay], [back], wallet);
    TotalSpendSingle(pay, wallet);
    TotalSpendSingle(back, wallet);
  }
}
