/** The policy engine of signing_bot/src/policy/mod.rs: the `Policy` trait as
    a tagged datatype over its two implementations, and `PolicySet`, which
    runs every policy and collects every error. */
module Policies {
  import opened Results
  import opened PolicyTypes
  import ValuePolicy
  import AndonPolicy

  /** A boxed `dyn Policy`. The set only ever calls `check_transaction(&self)`
      on its members, so an andon policy inside a set keeps the flag it was
      built with; the variant records that flag. */
  datatype Policy =
    | Value(value: ValuePolicy.ValuePolicy)
    | Andon(allTxHalted: bool)

  /** `Policy::check_transaction`, dispatched on the variant. */
  function CheckPolicy(p: Policy, psbt: Psbt): Result<string>
  {
    match p
    case Value(v) => ValuePolicy.CheckTransaction(v, psbt)
    case Andon(halted) => AndonPolicy.Verdict(halted)
  }

  datatype PolicySet = PolicySet(policies: seq<Policy>)

  /** The configuration `PolicySet::new` builds: a limit of 500 000 satoshis,
      not halted. The wallet name comes from bdk's `wallet_name_from_descriptor`. */
  function DefaultConfig(walletName: string): (config: PolicyConfig)
    ensures config.maxSpendPerTx == 500_000 && !config.allTxHalted
  {
    PolicyConfig(walletName, 500_000, false)
  }

  /** The set `PolicySet::new` builds from `config`: a value policy, then an
      andon policy. */
  function StandardPolicies(wallet: Wallet, config: PolicyConfig): PolicySet
  {
    PolicySet([Value(ValuePolicy.New(config, wallet)), Andon(config.allTxHalted)])
  }

  /** The body of `PolicySet::new` with the configuration as a parameter: two
      pushes, in this order. */
  method NewWithConfig(wallet: Wallet, config: PolicyConfig) returns (policySet: PolicySet)
    ensures policySet == StandardPolicies(wallet, config)
    ensures |policySet.policies| == 2 && policySet.policies[0].Value? && policySet.policies[1].Andon?
  {
    var v: seq<Policy> := [];
    v := v + [Value(ValuePolicy.New(config, wallet))];
    var andon := new AndonPolicy.AndonPolicy(config);
    v := v + [Andon(andon.allTxHalted)];
    policySet := PolicySet(v);
  }

  /** `PolicySet::new(wallet)`, with its hard-coded configuration. */
  method New(wallet: Wallet, walletName: string) returns (policySet: PolicySet)
    ensures policySet == StandardPolicies(wallet, DefaultConfig(walletName))
  {
    policySet := NewWithConfig(wallet, DefaultConfig(walletName));
  }

  /** The `map` / `filter(is_err)` / `map(unwrap_err)` pipeline: the error of
      every failing policy, in policy order. */
  function Errors(policies: seq<Policy>, psbt: Psbt): (errors: seq<string>)
    ensures |errors| <= |policies|
  {
    if policies == [] then [] else ErrorOf(policies[0], psbt) + Errors(policies[1..], psbt)
  }

  /** The error of one policy, if it fails. */
  function ErrorOf(p: Policy, psbt: Psbt): seq<string>
  {
    if CheckPolicy(p, psbt).Err? then [CheckPolicy(p, psbt).error] else []
  }

  /** No short-circuit: the errors of a concatenation of policy lists are the
      errors of the first list followed by those of the second. */
  lemma {:induction false} ErrorsAppend(a: seq<Policy>, b: seq<Policy>, psbt: Psbt)
    ensures Errors(a + b, psbt) == Errors(a, psbt) + Errors(b, psbt)
  {
    if a == [] {
      assert a + b == b;
    } else {
      var head := ErrorOf(a[0], psbt);
      assert (a + b)[0] == a[0];
      assert (a + b)[1..] == a[1..] + b;
      assert Errors(a + b, psbt) == head + Errors(a[1..] + b, psbt);
      assert Errors(a, psbt) == head + Errors(a[1..], psbt);
      ErrorsAppend(a[1..], b, psbt);
    }
  }

  /** The error list is empty exactly when every policy passes. */
  lemma {:induction false} ErrorsEmptyIffAllPass(policies: seq<Policy>, psbt: Psbt)
    ensures Errors(policies, psbt) == [] <==> forall i :: 0 <= i < |policies| ==> CheckPolicy(policies[i], psbt).Ok?
  {
    if policies != [] {
      ErrorsEmptyIffAllPass(policies[1..], psbt);
      assert forall i :: 1 <= i < |policies| ==> policies[i] == policies[1..][i - 1];
    }
  }

  /** A single policy contributes its own error if it fails, nothing otherwise. */
  lemma ErrorsSingle(p: Policy, psbt: Psbt)
    ensures Errors([p], psbt) == if CheckPolicy(p, psbt).Err? then [CheckPolicy(p, psbt).error] else []
  {
    assert [p][1..] == [];
  }

  /** `check_policies`: `Ok` exactly when every policy passes; otherwise the
      non-empty list of the failing policies' errors. */
  function CheckPolicies(policySet: PolicySet, psbt: Psbt): (r: Result<seq<string>>)
    ensures r.Ok? <==> forall i :: 0 <= i < |policySet.policies| ==> CheckPolicy(policySet.policies[i], psbt).Ok?
    ensures r.Err? ==> r.error != [] && r.error == Errors(policySet.policies, psbt)
  {
    var errors := Errors(policySet.policies, psbt);
    ErrorsEmptyIffAllPass(policySet.policies, psbt);
    if errors == [] then Ok else Err(errors)
  }

  /** The verdict of the standard set, in the configuration's terms: an
      approval needs the spend within the limit and the cord not pulled; a
      rejection lists the value error, then the andon error, each exactly
      when it applies. */
  lemma StandardPoliciesVerdict(wallet: Wallet, config: PolicyConfig, psbt: Psbt)
    ensures var total := ValuePolicy.TotalSpend(psbt.outputs, wallet);
      var valueErrors := if total <= config.maxSpendPerTx as nat then [] else [ValuePolicy.SpendExceededMessage(total)];
      var andonErrors := if config.allTxHalted then [AndonPolicy.HaltedMessage] else [];
      CheckPolicies(StandardPolicies(wallet, config), psbt)
        == if valueErrors + andonErrors == [] then Ok else Err(valueErrors + andonErrors)
  {
    var ps := StandardPolicies(wallet, config).policies;
    assert ps == [ps[0]] + [ps[1]];
    ErrorsAppend([ps[0]], [ps[1]], psbt);
    ErrorsSingle(ps[0], psbt);
    ErrorsSingle(ps[1], psbt);
  }

  /** Both policies failing yields both errors, value first: two reasons. */
  lemma BothPoliciesFail(wallet: Wallet, config: PolicyConfig, psbt: Psbt)
    requires config.allTxHalted
    requires ValuePolicy.TotalSpend(psbt.outputs, wallet) > config.maxSpendPerTx as nat
    ensures var r := CheckPolicies(StandardPolicies(wallet, config), psbt);
      r.Err? && |r.error| == 2
      && r.error == [ValuePolicy.SpendExceededMessage(ValuePolicy.TotalSpend(psbt.outputs, wallet)), AndonPolicy.HaltedMessage]
  {
    StandardPoliciesVerdict(wallet, config, psbt);
  }

  /** With the hard-coded configuration of `PolicySet::new`, a transaction is
      approved exactly when it sends at most 500 000 satoshis out of the wallet. */
  lemma DefaultPoliciesApproveUpTo500000(wallet: Wallet, walletName: string, psbt: Psbt)
    ensures CheckPolicies(StandardPolicies(wallet, DefaultConfig(walletName)), psbt).Ok?
        <==> ValuePolicy.TotalSpend(psbt.outputs, wallet) <= 500_000
  {
    StandardPoliciesVerdict(wallet, DefaultConfig(walletName), psbt);
  }
}
