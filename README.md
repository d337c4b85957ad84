# Signing service core, modelled in Dafny

The signing service keeps one cosigner key of a BlueWallet multisig wallet
and signs partially signed Bitcoin transactions (PSBTs) for that wallet, but
only when its spending policies allow it. This project models its core:

- **Descriptor assembly** (`signing_bot/src/main.rs`):
  - the line-oriented parser of a BlueWallet multisig setup file (`DescriptorComponents::from_bluewallet_export`);
  - the renderer of the `wsh(sortedmulti(...))` output descriptor for the receive branch `0` and the change branch `1`;
  - the substitution, in `create_new_wallet`, of the service's saved private key for its cosigner's public key.
- **The sign gate of `sign_psbt`**: build the policy set, check it, sign only on approval, and answer one fixed failure body otherwise.
- **The policies** (`signing_bot/src/policy/`):
  - the value policy: the sum of the outputs that do not pay the wallet itself must not exceed the limit;
  - the andon cord: a flag that, once pulled, refuses every transaction;
  - the policy set, which runs every policy without short-circuiting and collects every error.

Modules:

- `Results`: the Option and Result types.
- `Strings`: string helpers, including Rust's `str::lines`, ASCII lower-casing and decimal rendering.
- `Descriptors`: the components, the parser, the renderer and the key substitution.
- `PolicyTypes`: `u64`, transaction outputs, the PSBT, the wallet's `is_mine`, and `PolicyConfig`.
- `ValuePolicy`, `AndonPolicy` and `Policies`: the three policy files.
- `SigningBot`: the two request handlers and the unit test `can_parse_bluewallet_file`.

How the model is built:

- **Parser.** `from_bluewallet_export` is a loop that updates a record. It is the method `Descriptors.FromBluewalletExport`, proved equal to the function `ParseLines`.
- **Parser properties.** Lemmas state what `ParseLines` computes, field by field:
  - the last matching line wins;
  - every key line is kept, in order;
  - comment and unrecognised lines have no effect.
- **Renderer.** `into_descriptor_str` is the method `Descriptors.IntoDescriptorStr`, proved equal to `DescriptorStr`. Lemmas state two properties:
  - one key origin `[...]` appears per key;
  - the main and the change descriptor differ only in the branch digit.
- **Andon cord.** `AndonPolicy` mutates its flag, so it is a class.
- **Policy set.** The set stores `Box<dyn Policy>` and only ever calls `check_transaction(&self)`. An andon policy inside the set therefore keeps the flag it was built with, so the set is modelled as a sequence of a tagged `Policy` datatype.

Three behaviours of the code worth knowing:

- A cosigner line whose fingerprint is not the saved key's keeps its key, with its fingerprint lower-cased; it is not an error.
- `sign_psbt` drops the list of policy errors and answers `"Transaction failed policy checks"` for every rejection.
- `PolicySet::new` in `policy/mod.rs` takes only the wallet and hard-codes the configuration: a limit of 500 000 satoshis, not halted. `sign_psbt` passes a configuration read from storage. Both are modelled:
  - `Policies.NewWithConfig` takes the configuration as a parameter;
  - `Policies.New` uses the hard-coded one.

A Rust `unwrap` that would panic becomes a precondition. This covers:

- `Renderable`: the threshold is present, and so is an `m/` derivation once there is a key;
- the `unwrap`s on decoding, which are parameters here.

## Model

| member | source | states |
|---|---|---|
| `Strings.Lines` | signing_bot/src/main.rs:337 | `str::lines`: no produced line contains a line feed |
| `Strings.LinesOfJoined` | signing_bot/src/main.rs:337 | splitting newline-terminated lines (no `\n`, no trailing `\r`) gives back exactly those lines |
| `Strings.ToLower` | signing_bot/src/main.rs:194 | lower-casing keeps the length and maps each character by ASCII lower-casing |
| `Strings.ToLowerIdempotent` | signing_bot/src/main.rs:194 | lower-casing twice is lower-casing once |
| `Strings.DecimalString` | signing_bot/src/policy/valuepolicy.rs:40 | the `{}` rendering of a number is non-empty, all digits, with no leading zero |
| `Strings.DecimalRoundTrip` | signing_bot/src/policy/valuepolicy.rs:40 | reading the rendering back as a decimal number gives the number |
| `Descriptors.RestCapture` | signing_bot/src/main.rs:333-335 | the greedy group `(.+)` captures a non-empty prefix of the rest of the line that holds no line feed and stops only at the end or at a line feed; it fails only on an empty rest |
| `Descriptors.PolicyCapture` | signing_bot/src/main.rs:332 | `^Policy: (\d) of \d` captures exactly one digit |
| `Descriptors.KeyCapture` | signing_bot/src/main.rs:336 | `^([A-F0-9]{8}): (.+)` captures a fingerprint of exactly eight upper-case hex digits |
| `Descriptors.CommentCapturesNothing` | signing_bot/src/main.rs:329-338 | a `#` line matches none of the four field shapes, so filtering comments out hides no field |
| `Descriptors.FromBluewalletExport` | signing_bot/src/main.rs:322-354 | the parsing loop over `lines()` computes `ParseLines` of the text's lines |
| `Descriptors.ParseLineFields` | signing_bot/src/main.rs:339-351 | one line: each scalar field is overwritten exactly when its shape matches, and the line's key entry, if any, is appended |
| `Descriptors.ParseLinesFields` | signing_bot/src/main.rs:337-352 | derivation, threshold and format are the capture of the last line of their shape; keys are all key lines in input order |
| `Descriptors.LastCaptureIsLastMatch` | signing_bot/src/main.rs:340-348 | the last matching line decides the field, whatever earlier lines said |
| `Descriptors.LastCaptureNone` | signing_bot/src/main.rs:323-327 | a field stays `None` exactly when no line matches its shape |
| `Descriptors.KeysOfAppend` | signing_bot/src/main.rs:349-350 | key entries of a concatenation are those of each part, in order; none is dropped or reordered |
| `Descriptors.IgnoredLineHasNoEffect` | signing_bot/src/main.rs:337-352 | inserting a comment or unrecognised line anywhere leaves the parsed components unchanged |
| `Descriptors.TwoDigitThresholdIgnored` | signing_bot/src/main.rs:332 | any `Policy: ` line whose threshold has a second digit (a digit as tenth character, as in `Policy: 10 of 15`) does not match and sets no threshold |
| `Descriptors.ParseKeyLine` | signing_bot/src/main.rs:349-350 | a cosigner line appends its fingerprint and the whole rest of the line as key, and changes no other field |
| `Descriptors.ParseDerivationLine` | signing_bot/src/main.rs:343-345 | a derivation line sets the derivation to the whole rest of the line, and changes no other field |
| `Descriptors.ParseFormatLine` | signing_bot/src/main.rs:346-348 | a format line sets the format to the whole rest of the line, and changes no other field |
| `Descriptors.DescriptorStr` | signing_bot/src/main.rs:312-320 | the descriptor starts with `wsh(sortedmulti(` and the threshold and ends with `))` |
| `Descriptors.IntoDescriptorStr` | signing_bot/src/main.rs:312-320 | the string-building loop computes `DescriptorStr` for the given branch |
| `Descriptors.IntoMainDescriptor` | signing_bot/src/main.rs:308-310 | the main descriptor is rendered on branch `0` |
| `Descriptors.IntoChangeDescriptor` | signing_bot/src/main.rs:304-306 | the change descriptor is rendered on branch `1` |
| `Descriptors.SegmentsAppend` | signing_bot/src/main.rs:315-317 | the fold renders one key segment per key, in key order: segments of a concatenation concatenate |
| `Descriptors.KeySegmentBracketCount` | signing_bot/src/main.rs:316 | one key expression `,[fp/path]key/branch/*` holds exactly one `[` when its parts hold none |
| `Descriptors.SegmentsBracketCount` | signing_bot/src/main.rs:315-317 | the folded key list holds exactly as many `[` as there are keys |
| `Descriptors.KeyOriginCount` | signing_bot/src/main.rs:312-320 | the rendered descriptor holds exactly one key origin per parsed key |
| `Descriptors.SegmentsOnlyBranchDiffers` | signing_bot/src/main.rs:315-317 | the key lists of branch `0` and `1` have the same length and differ only where one has `0` and the other `1` |
| `Descriptors.SegmentsEndWithBranch` | signing_bot/src/main.rs:316 | the last key segment carries the branch digit just before `/*` |
| `Descriptors.MainAndChangeDifferOnlyInBranch` | signing_bot/src/main.rs:304-320 | main and change descriptors differ only in branch digits, and differ when there is a key |
| `Descriptors.TrimXprv` | signing_bot/src/main.rs:198 | the trimmed key holds no `]` and no `/` |
| `Descriptors.TrimXprvOfKeyExpression` | signing_bot/src/main.rs:197-198 | on a key expression `[origin]key/suffix` or `[origin]key`, trimming leaves exactly `key` |
| `Descriptors.TrimXprvIdempotent` | signing_bot/src/main.rs:198 | trimming an already trimmed key changes nothing |
| `Descriptors.SubstituteKeys` | signing_bot/src/main.rs:193-203 | same number of entries; every fingerprint lower-cased; the key replaced by the trimmed xprv exactly where the lower-cased fingerprint is the saved one, kept otherwise |
| `Descriptors.SubstituteSavedKey` | signing_bot/src/main.rs:204 | only the key list changes; a renderable record stays renderable |
| `Descriptors.SubstituteKeysIdempotent` | signing_bot/src/main.rs:193-204 | substituting the same saved key twice is substituting it once |
| `Descriptors.SubstituteKeysCommute` | signing_bot/src/main.rs:193-204 | substitutions for two different saved fingerprints commute |
| `ValuePolicy.New` | signing_bot/src/policy/valuepolicy.rs:16-21 | the policy keeps the wallet and copies the configured limit |
| `ValuePolicy.ExternalOutputs` | signing_bot/src/policy/valuepolicy.rs:32-33 | the filter keeps no more outputs than given, and only ones the wallet does not own |
| `ValuePolicy.ExternalOutputsAppend` | signing_bot/src/policy/valuepolicy.rs:32-33 | filtering a concatenation filters each part, order kept |
| `ValuePolicy.FoldValuesAppend` | signing_bot/src/policy/valuepolicy.rs:34 | folding a concatenation folds the second part from the first part's total |
| `ValuePolicy.FoldValuesShift` | signing_bot/src/policy/valuepolicy.rs:34 | the fold from `acc` is `acc` plus the fold from 0 |
| `ValuePolicy.TotalSpendAppend` | signing_bot/src/policy/valuepolicy.rs:32-34 | the total spend of a concatenation is the sum of the parts' totals |
| `ValuePolicy.TotalSpendSingle` | signing_bot/src/policy/valuepolicy.rs:32-34 | one output spends its value if the wallet does not own it, 0 if it does |
| `ValuePolicy.OwnedOutputIgnored` | signing_bot/src/policy/valuepolicy.rs:32-34 | an owned output anywhere in the list never changes the total spend |
| `ValuePolicy.NoExternalOutputsNoSpend` | signing_bot/src/policy/valuepolicy.rs:32-34 | when the wallet owns every output the filter is empty and the total is 0 |
| `ValuePolicy.SpendExceededMessageNamesTotal` | signing_bot/src/policy/valuepolicy.rs:40 | the rejection text is the fixed prefix, the decimal total, then the fixed suffix, and the middle reads back as the total |
| `ValuePolicy.SpendExceededMessageInjective` | signing_bot/src/policy/valuepolicy.rs:40 | two rejections with the same text report the same total |
| `ValuePolicy.CheckTransaction` | signing_bot/src/policy/valuepolicy.rs:27-42 | `Ok` exactly when the total spend is at most the limit (boundary allowed); otherwise the error is the message naming the total |
| `ValuePolicy.ApprovalMonotoneInLimit` | signing_bot/src/policy/valuepolicy.rs:36-37 | raising the limit never turns an approval into a rejection |
| `ValuePolicy.OwnedOutputKeepsVerdict` | signing_bot/src/policy/valuepolicy.rs:32-37 | adding an output the wallet owns never changes the verdict |
| `ValuePolicy.SelfTransferApproved` | signing_bot/src/policy/valuepolicy.rs:32-37 | a transaction paying only the wallet itself passes any limit, 0 included |
| `ValuePolicy.PaymentOf20000` | signing_bot/src/policy/valuepolicy.rs:53-85 | 20 000 to another wallet plus change back spends 20 000: it passes a 50 000 limit and fails a 10 000 limit |
| `AndonPolicy.Verdict` | signing_bot/src/policy/andonpolicy.rs:30-37 | an error exactly when halted, and the error is `All transactions have been halted` |
| `AndonPolicy.AndonPolicy.constructor` | signing_bot/src/policy/andonpolicy.rs:14-18 | the flag starts as configured |
| `AndonPolicy.AndonPolicy.HaltAll` | signing_bot/src/policy/andonpolicy.rs:20-22 | after `halt_all` the flag is set |
| `AndonPolicy.AndonPolicy.Reset` | signing_bot/src/policy/andonpolicy.rs:24-26 | after `reset` the flag is clear |
| `AndonPolicy.AndonPolicy.CheckTransaction` | signing_bot/src/policy/andonpolicy.rs:29-38 | the check fails exactly when the flag is set, with the halted message; the transaction plays no part |
| `AndonPolicy.AndonPolicyStopsSpends` | signing_bot/src/policy/andonpolicy.rs:49-72 | a fresh cord passes, a pulled cord fails with the halted message, a reset cord passes again |
| `Policies.DefaultConfig` | signing_bot/src/policy/mod.rs:32-38 | the hard-coded configuration has a 500 000 limit and is not halted |
| `Policies.NewWithConfig` | signing_bot/src/policy/mod.rs:40-45 | the set holds two policies: the value policy first, then the andon policy |
| `Policies.New` | signing_bot/src/policy/mod.rs:29-46 | `PolicySet::new` builds the standard set from the hard-coded configuration |
| `Policies.Errors` | signing_bot/src/policy/mod.rs:49-53 | there are never more errors than policies |
| `Policies.ErrorsAppend` | signing_bot/src/policy/mod.rs:49-53 | no short-circuit: errors of a concatenation are those of the first part, then those of the second |
| `Policies.ErrorsSingle` | signing_bot/src/policy/mod.rs:50-52 | one policy contributes its error if it fails and nothing otherwise |
| `Policies.ErrorsEmptyIffAllPass` | signing_bot/src/policy/mod.rs:49-54 | the error list is empty exactly when every policy passes |
| `Policies.CheckPolicies` | signing_bot/src/policy/mod.rs:48-59 | `Ok` exactly when every policy passes; otherwise a non-empty list of the failing policies' errors in policy order |
| `Policies.StandardPoliciesVerdict` | signing_bot/src/policy/mod.rs:40-59 | the standard set approves exactly when the spend is within the limit and the cord is not pulled; a rejection lists the value error, then the andon error, each exactly when it applies |
| `Policies.BothPoliciesFail` | signing_bot/src/policy/mod.rs:48-59 | over the limit and halted: exactly two errors, the value error then the halted message |
| `Policies.DefaultPoliciesApproveUpTo500000` | signing_bot/src/policy/mod.rs:29-59 | with the hard-coded configuration a transaction passes exactly when it sends at most 500 000 satoshis out of the wallet |
| `SigningBot.AssembleWalletDescriptors` | signing_bot/src/main.rs:178-207 | the descriptors are the parsed setup file, with the saved key substituted, rendered on branches `0` and `1`; they differ only in the branch digits |
| `SigningBot.SignPsbt` | signing_bot/src/main.rs:154-167 | signs exactly when the policy set approves, that is when the spend is within the limit and the cord is not pulled; the signed PSBT is the signer's output; every rejection has the fixed failure body |
| `SigningBot.HaltedWalletNeverSigns` | signing_bot/src/main.rs:154-167 | with the cord pulled the check fails whatever the transaction, and the halted message is among the errors |
| `SigningBot.SetupFileLinesPlain` | signing_bot/src/main.rs:363-378 | splitting the test file's text with `lines()` gives back its fifteen lines |
| `SigningBot.ParseCosigners` | signing_bot/src/main.rs:349-350 | after any prefix, a run of cosigner lines, each followed by an empty line, appends its cosigners in order |
| `SigningBot.ParseSetupFile` | signing_bot/src/main.rs:363-379 | the test file parses to derivation `m/48'/0'/0'/2'`, threshold `2`, format `P2WSH` and the three cosigners in file order |
| `SigningBot.RenderThreeKeys` | signing_bot/src/main.rs:312-320 | a three-key descriptor is the threshold and the three key expressions, in order, inside `wsh(sortedmulti(...))` |
| `SigningBot.RenderTestComponents` | signing_bot/src/main.rs:379-380 | the test's components render on branch `0` to the descriptor the test expects |
| `SigningBot.CanParseBluewalletFile` | signing_bot/src/main.rs:361-381 | parsing the test file and rendering its main descriptor yields the expected descriptor |

## Left out

- The request plumbing of `main.rs` is not modelled:
  - HTTP routing and the Lambda runtime;
  - the S3, KMS and DynamoDB calls;
  - `get_policy_config_from_ddb`, whose configuration is a parameter of `SigningBot.SignPsbt`;
  - logging and `println!`.
- Base64 and UTF-8 decoding of the uploaded setup file, and JSON decoding of the saved key, are not modelled: `SigningBot.AssembleWalletDescriptors` takes the decoded text and the decoded `SavedKey`.
- The bdk library is not modelled:
  - `Wallet::new_offline`, address derivation, `WalletExport` and the wallet's own signing (`wallet.sign`), which is the parameter `sign` of `SigningBot.SignPsbt`;
  - PSBT decoding and its `to_string` in the response;
  - `wallet_name_from_descriptor`, whose name is a parameter of `Policies.New`.
- `is_mine` is not derived from the descriptor's scripts: the wallet is modelled as the set of output scripts it owns.
- Key creation (`create_new_keypair`: mnemonic, BIP 32 derivation, fingerprints) is not modelled: it is cryptography.
- `SigningBot.CanParseBluewalletFile` takes the test's three xpub strings as parameters; it proves the result for any three non-empty keys without line breaks.
- `Strings.ToLower`: ASCII lower-casing only, which is enough for hex fingerprints but not Unicode `to_lowercase`.
- `Descriptors.PolicyCapture`: `\d` matches only ASCII digits here, whereas the Rust regex crate's `\d` also matches other Unicode decimal digits.
- `Strings.Lines`: follows current Rust `str::lines`, which removes one `\r` only before a `\n`-terminated line break and keeps a lone trailing `\r` on a final unterminated line as it is.
- `ValuePolicy.TotalSpend`: the fold is summed as an unbounded natural number; the `u64` overflow of `acc + txout.value` (a panic in debug builds, wrap-around in release builds) is not modelled.
- A panicking `unwrap` is modelled as a precondition, not as an error path. This covers:
  - `Descriptors.DescriptorStr`, `Descriptors.IntoDescriptorStr` and `SigningBot.AssembleWalletDescriptors` require `Renderable`;
  - the `unwrap` of `is_mine` is not modelled: a lookup in the owned-script set cannot fail.
- When debug-level logging is enabled, the `debug!` line at `main.rs:179` renders the main descriptor before the substitution. The model renders it unconditionally but does not log it. The `Renderable` precondition is the same either way: `main.rs:206` unwraps the same threshold and derivation, which the substitution leaves unchanged.
