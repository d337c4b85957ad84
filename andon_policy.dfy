/** `AndonPolicy` (signing_bot/src/policy/andonpolicy.rs): a flag that, once
    pulled, refuses every transaction until it is reset. */
module AndonPolicy {
  import opened Results
  import opened PolicyTypes

  const HaltedMessage := "All transactions have been halted"

  /** The verdict of an andon cord in state `halted`, for any transaction. */
  function Verdict(halted: bool): (r: Result<string>)
    ensures r.Err? <==> halted
    ensures r.Err? ==> r.error == HaltedMessage
  {
    if halted then Err(HaltedMessage) else Ok
  }

  class AndonPolicy {
    var allTxHalted: bool

    /** `AndonPolicy::new`: the flag starts as configured. */
    constructor (config: PolicyConfig)
      ensures allTxHalted == config.allTxHalted
    {
      allTxHalted := config.allTxHalted;
    }

    /** `halt_all`: pull the cord. */
    method HaltAll()
      modifies this
      ensures allTxHalted
    {
      allTxHalted := true;
    }

    /** `reset`: release the cord. */
    method Reset()
      modifies this
      ensures !allTxHalted
    {
      allTxHalted := false;
    }

    /** `check_transaction`: reads the flag only; the transaction plays no part. */
    function CheckTransaction(psbt: Psbt): (r: Result<string>)
      reads this
      ensures r.Err? <==> allTxHalted
      ensures r.Err? ==> r.error == HaltedMessage
    {
      Verdict(allTxHalted)
    }
  }

  /** The unit test: a fresh cord passes, `halt_all` makes the check fail,
      `reset` makes it pass again. */
  method AndonPolicyStopsSpends(psbt: Psbt) returns (before: Result<string>, halted: Result<string>, after: Result<string>)
    ensures before == Ok
    ensures halted == Err(HaltedMessage)
    ensures after == Ok
  {
    var policy := new AndonPolicy(PolicyConfig("", 0, false));
    before := policy.CheckTransaction(psbt);
    policy.HaltAll();
    halted := policy.CheckTransaction(psbt);
    policy.Reset();
    after := policy.CheckTransaction(psbt);
  }
}
