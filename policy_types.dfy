/** The values the policies of signing_bot/src/policy/ work on: the policy
    configuration of mod.rs, and abstractions of the bdk types they consult
    (the PSBT, its outputs and the wallet's `is_mine`). */
module PolicyTypes {

  /** Rust's `u64`. */
  newtype u64 = x: int | 0 <= x < 0x1_0000_0000_0000_0000

  /** An output script (`script_pubkey`), as raw bytes. */
  type Script = seq<bv8>

  /** A transaction output (`TxOut`): where it pays and how many satoshis. */
  datatype TxOut = TxOut(scriptPubkey: Script, value: u64)

  /** A partially signed transaction: the outputs of its unsigned transaction
      (all that `extract_tx` is used for) and the signatures gathered so far. */
  datatype Psbt = Psbt(outputs: seq<TxOut>, partialSigs: seq<seq<bv8>>)

  /** The wallet as the policies see it: the scripts it has derived and
      cached, which `is_mine` looks up. */
  datatype Wallet = Wallet(ownedScripts: set<Script>)
  {
    predicate IsMine(script: Script)
    {
      script in ownedScripts
    }
  }

  /** `PolicyConfig` (signing_bot/src/policy/mod.rs). */
  datatype PolicyConfig = PolicyConfig(walletName: string, maxSpendPerTx: u64, allTxHalted: bool)
}
