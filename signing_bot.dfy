/** The two request handlers of signing_bot/src/main.rs that use the core:
    descriptor assembly in `create_new_wallet` and the policy gate in
    `sign_psbt`. Storage, decoding, wallet construction and signing are
    parameters. */
module SigningBot {
  import opened Results
  import opened Strings
  import opened Descriptors
  import opened PolicyTypes
  import ValuePolicy
  import AndonPolicy
  import Policies

  /** `create_new_wallet` from the decoded setup file to the two descriptors:
      parse, lowercase every fingerprint and put the trimmed saved xprv in
      place of the saved key's xpub, then render both branches. */
  method AssembleWalletDescriptors(setupFile: string, saved: SavedKey) returns (descriptor: string, change: string)
    requires Renderable(ParseLines(Lines(setupFile)))
    ensures var dc := SubstituteSavedKey(ParseLines(Lines(setupFile)), saved);
      descriptor == DescriptorStr(dc, "0") && change == DescriptorStr(dc, "1")
    ensures OnlyBranchDiffers(descriptor, change)
  {
    var dc := FromBluewalletExport(setupFile);
    var logged := IntoMainDescriptor(dc);
    dc := dc.(keys := SubstituteKeys(dc.keys, saved));
    descriptor := IntoMainDescriptor(dc);
    change := IntoChangeDescriptor(dc);
    MainAndChangeDifferOnlyInBranch(dc);
  }

  /** What `sign_psbt` answers. */
  datatype SignResponse = Signed(psbt: Psbt) | Failure(body: string)

  const PolicyFailureBody := "Transaction failed policy checks"

  /** The gate of `sign_psbt`: build the value and andon policies from the
      wallet's configuration, check them all, and call `sign` only on `Ok`.
      The error list is not passed on: every rejection has the same body. */
  method SignPsbt(wallet: Wallet, config: PolicyConfig, psbt: Psbt, sign: Psbt -> Psbt) returns (response: SignResponse)
    ensures response.Signed? <==> Policies.CheckPolicies(Policies.StandardPolicies(wallet, config), psbt).Ok?
    ensures response.Signed? <==>
      ValuePolicy.TotalSpend(psbt.outputs, wallet) <= config.maxSpendPerTx as nat && !config.allTxHalted
    ensures response.Signed? ==> response.psbt == sign(psbt)
    ensures response.Failure? ==> response.body == PolicyFailureBody
  {
    var policies := Policies.NewWithConfig(wallet, config);
    Policies.StandardPoliciesVerdict(wallet, config, psbt);
    var verdict := Policies.CheckPolicies(policies, psbt);
    match verdict {
      case Ok =>
        response := Signed(sign(psbt));
      case Err(_) =>
        response := Failure(PolicyFailureBody);
    }
  }

  /** A halted wallet signs nothing, not even a transaction that spends 0. */
  lemma HaltedWalletNeverSigns(wallet: Wallet, config: PolicyConfig, psbt: Psbt)
    requires config.allTxHalted
    ensures Policies.CheckPolicies(Policies.StandardPolicies(wallet, config), psbt)
         .Err?
    ensures AndonPolicy.HaltedMessage in Policies.CheckPolicies(Policies.StandardPolicies(wallet, config), psbt).error
  {
    Policies.StandardPoliciesVerdict(wallet, config, psbt);
  }

  // ---- the unit test `can_parse_bluewallet_file` ----

  const Path := "m/48'/0'/0'/2'"

  /** The four comment lines that open the setup file of the test. */
  const SetupFileComments: seq<string> := [
    "# BlueWallet Multisig setup file",
    "# this file contains only " + "public keys and is safe to",
    "# distribute among cosigners",
    "#" ]

  /** The name, policy, derivation and format lines, then an empty line. */
  const SetupFileFields: seq<string> := [
    "Name: test5678",
    "Policy: 2 of 3",
    "Derivation: " + Path,
    "Format: " + "P2WSH",
    "" ]

  /** The three cosigner lines of the setup file, each followed by an empty
      line. */
  function SetupFileKeyLines(x1: string, x2: string, x3: string): seq<string>
  {
    ["EAB239AA" + ": " + x1, "", "F843467D" + ": " + x2, "", "16EFEC75" + ": " + x3, ""]
  }

  /** The lines of the setup file of the test, with its three xpubs as
      parameters. */
  function SetupFileLines(x1: string, x2: string, x3: string): seq<string>
  {
    SetupFileComments + SetupFileFields + SetupFileKeyLines(x1, x2, x3)
  }

  /** The descriptor the test expects, one key expression at a time. */
  function ExpectedDescriptor(x1: string, x2: string, x3: string): string
  {
    "wsh(sortedmulti(2"
    + ",[EAB239AA/48'/0'/0'/2']" + x1 + "/0/*"
    + ",[F843467D/48'/0'/0'/2']" + x2 + "/0/*"
    + ",[16EFEC75/48'/0'/0'/2']" + x3 + "/0/*"
    + "))"
  }

  // -- parsing the setup file

  lemma ParseLinesSnoc(prefix: seq<string>, line: string)
    ensures ParseLines(prefix + [line]) == ParseLine(ParseLines(prefix), line)
  {
    assert (prefix + [line])[..|prefix|] == prefix;
  }

  /** After any prefix, a run of comment lines changes nothing. */
  lemma {:induction false} ParseCommentBlock(prefix: seq<string>, comments: seq<string>)
    requires forall i :: 0 <= i < |comments| ==> IsComment(comments[i])
    ensures ParseLines(prefix + comments) == ParseLines(prefix)
  {
    if comments == [] {
      assert prefix + comments == prefix;
    } else {
      var n := |comments| - 1;
      ParseCommentBlock(prefix, comments[..n]);
      assert prefix + comments == prefix + comments[..n] + [comments[n]];
      ParseLinesSnoc(prefix + comments[..n], comments[n]);
    }
  }

  lemma SetupFileCommentsAreComments()
    ensures forall i :: 0 <= i < |SetupFileComments| ==> IsComment(SetupFileComments[i])
  {
  }

  lemma ParseNameLine(c: DescriptorComponents)
    ensures ParseLine(c, "Name: test5678") == c
  {
    var line := "Name: test5678";
    assert line[..8] != "Policy: " by { assert line[0] == 'N'; }
    assert !HasPrefix(line, "Derivation" + ": ") by { assert line[0] == 'N'; }
    assert !HasPrefix(line, "Format" + ": ") by { assert line[0] == 'N'; }
    assert !IsUpperHex(line[1]);
  }

  lemma ParsePolicyLine(c: DescriptorComponents)
    ensures ParseLine(c, "Policy: 2 of 3") == c.(threshold := Some("2"))
  {
    var line := "Policy: 2 of 3";
    assert line[..8] == "Policy: " && line[9..13] == " of ";
    assert !HasPrefix(line, "Derivation" + ": ") by { assert line[0] == 'P'; }
    assert !HasPrefix(line, "Format" + ": ") by { assert line[0] == 'P'; }
    assert !IsUpperHex(line[1]);
  }

  lemma ParseEmptyLine(c: DescriptorComponents)
    ensures ParseLine(c, "") == c
  {
  }

  lemma PathHasNoBreak()
    ensures Path != [] && '\n' !in Path && DerivationOk(Some(Path))
    ensures OriginPath(Some(Path)) == "48'/0'/0'/2'"
  {
  }

  /** After any prefix, the name line is skipped and the policy line sets
      the threshold. */
  lemma ParseNamePolicyBlock(prefix: seq<string>)
    ensures ParseLines(prefix + ["Name: test5678", "Policy: 2 of 3"])
         == ParseLines(prefix).(threshold := Some("2"))
  {
    var c := ParseLines(prefix);
    ParseLinesSnoc(prefix, "Name: test5678");
    ParseNameLine(c);
    ParseLinesSnoc(prefix + ["Name: test5678"], "Policy: 2 of 3");
    ParsePolicyLine(c);
    assert prefix + ["Name: test5678", "Policy: 2 of 3"] == prefix + ["Name: test5678"] + ["Policy: 2 of 3"];
  }

  /** After any prefix, the derivation line sets the derivation. */
  lemma ParseDerivationBlock(prefix: seq<string>)
    ensures ParseLines(prefix + ["Derivation: " + Path]) == ParseLines(prefix).(derivation := Some(Path))
  {
    ParseLinesSnoc(prefix, "Derivation: " + Path);
    PathHasNoBreak();
    ParseDerivationLine(ParseLines(prefix), Path);
  }

  /** After any prefix, the format line sets the format and the empty line
      after it changes nothing. */
  lemma ParseFormatBlock(prefix: seq<string>)
    ensures ParseLines(prefix + ["Format: " + "P2WSH", ""]) == ParseLines(prefix).(format := Some("P2WSH"))
  {
    var format := "Format: " + "P2WSH";
    var c := ParseLines(prefix);
    ParseLinesSnoc(prefix, format);
    ParseFormatLine(c, "P2WSH");
    ParseLinesSnoc(prefix + [format], "");
    ParseEmptyLine(c.(format := Some("P2WSH")));
    assert prefix + [format, ""] == prefix + [format] + [""];
  }

  /** After any prefix, the field lines set the threshold, the derivation
      and the format, and leave the keys alone. */
  lemma ParseFieldBlock(prefix: seq<string>)
    ensures ParseLines(prefix + SetupFileFields)
         == ParseLines(prefix).(threshold := Some("2"), derivation := Some(Path), format := Some("P2WSH"))
  {
    var first, second, third := ["Name: test5678", "Policy: 2 of 3"], ["Derivation: " + Path], ["Format: " + "P2WSH", ""];
    ParseNamePolicyBlock(prefix);
    ParseDerivationBlock(prefix + first);
    ParseFormatBlock(prefix + first + second);
    assert SetupFileFields == first + second + third;
    AppendThree(prefix, first, second, third);
  }

  /** After any prefix, a cosigner line and the empty line after it append
      that cosigner. */
  lemma ParseCosignerBlock(prefix: seq<string>, fingerprint: string, key: string)
    requires |fingerprint| == 8 && forall i :: 0 <= i < 8 ==> IsUpperHex(fingerprint[i])
    requires key != [] && '\n' !in key
    ensures ParseLines(prefix + [fingerprint + ": " + key, ""])
         == ParseLines(prefix).(keys := ParseLines(prefix).keys + [(fingerprint, key)])
  {
    var line := fingerprint + ": " + key;
    var c := ParseLines(prefix);
    ParseLinesSnoc(prefix, line);
    ParseKeyLine(c, fingerprint, key);
    ParseLinesSnoc(prefix + [line], "");
    ParseEmptyLine(c.(keys := c.keys + [(fingerprint, key)]));
    assert prefix + [line, ""] == prefix + [line] + [""];
  }

  lemma TestFingerprintsHex()
    ensures forall i :: 0 <= i < 8 ==> IsUpperHex("EAB239AA"[i])
    ensures forall i :: 0 <= i < 8 ==> IsUpperHex("F843467D"[i])
    ensures forall i :: 0 <= i < 8 ==> IsUpperHex("16EFEC75"[i])
  {
  }

  lemma AppendAssoc<T>(p: seq<T>, a: seq<T>, b: seq<T>)
    ensures p + (a + b) == p + a + b
  {
  }

  lemma AppendThree<T>(p: seq<T>, a: seq<T>, b: seq<T>, c: seq<T>)
    ensures p + (a + b + c) == p + a + b + c
  {
  }

  /** The lines of a run of cosigners, each followed by an empty line. */
  function CosignerLines(entries: seq<KeyEntry>): seq<string>
  {
    if entries == [] then []
    else
      var e := entries[|entries| - 1];
      CosignerLines(entries[..|entries| - 1]) + [e.0 + ": " + e.1, ""]
  }

  /** A fingerprint and a key that a cosigner line carries whole. */
  predicate CosignerEntry(e: KeyEntry)
  {
    |e.0| == 8 && (forall i :: 0 <= i < 8 ==> IsUpperHex(e.0[i])) && e.1 != [] && '\n' !in e.1
  }

  /** After any prefix, a run of cosigner blocks appends its cosigners in order. */
  lemma {:induction false} ParseCosigners(prefix: seq<string>, entries: seq<KeyEntry>)
    requires forall i :: 0 <= i < |entries| ==> CosignerEntry(entries[i])
    ensures ParseLines(prefix + CosignerLines(entries))
         == ParseLines(prefix).(keys := ParseLines(prefix).keys + entries)
  {
    if entries == [] {
      assert prefix + [] == prefix;
      assert ParseLines(prefix).keys + [] == ParseLines(prefix).keys;
    } else {
      var init, e := entries[..|entries| - 1], entries[|entries| - 1];
      var before := prefix + CosignerLines(init);
      ParseCosigners(prefix, init);
      assert CosignerEntry(e);
      ParseCosignerBlock(before, e.0, e.1);
      assert CosignerLines(entries) == CosignerLines(init) + [e.0 + ": " + e.1, ""];
      AppendAssoc(prefix, CosignerLines(init), [e.0 + ": " + e.1, ""]);
      assert init + [e] == entries;
      AppendAssoc(ParseLines(prefix).keys, init, [e]);
    }
  }

  /** The key block of the test file is the run of its three cosigners. */
  lemma TestCosignerLines(x1: string, x2: string, x3: string)
    ensures SetupFileKeyLines(x1, x2, x3) == CosignerLines([("EAB239AA", x1), ("F843467D", x2), ("16EFEC75", x3)])
  {
    var entries := [("EAB239AA", x1), ("F843467D", x2), ("16EFEC75", x3)];
    assert entries[..2][..1] == entries[..1] && entries[..1][..0] == [];
    assert CosignerLines(entries[..1]) == [] + ["EAB239AA" + ": " + x1, ""];
  }

  /** After any prefix, the key block of the test file appends its three
      cosigners in order. */
  lemma ParseKeyBlock(prefix: seq<string>, x1: string, x2: string, x3: string)
    requires x1 != [] && '\n' !in x1
    requires x2 != [] && '\n' !in x2
    requires x3 != [] && '\n' !in x3
    ensures ParseLines(prefix + SetupFileKeyLines(x1, x2, x3))
         == ParseLines(prefix).(keys := ParseLines(prefix).keys + [("EAB239AA", x1), ("F843467D", x2), ("16EFEC75", x3)])
  {
    var entries := [("EAB239AA", x1), ("F843467D", x2), ("16EFEC75", x3)];
    TestFingerprintsHex();
    assert forall i :: 0 <= i < 3 ==> CosignerEntry(entries[i]);
    TestCosignerLines(x1, x2, x3);
    ParseCosigners(prefix, entries);
  }

  /** The components the parser builds from the test's setup file, for any
      three xpubs that hold no line break. */
  lemma ParseSetupFile(x1: string, x2: string, x3: string)
    requires x1 != [] && '\n' !in x1
    requires x2 != [] && '\n' !in x2
    requires x3 != [] && '\n' !in x3
    ensures ParseLines(SetupFileLines(x1, x2, x3)) == DescriptorComponents(
      Some(Path), Some("2"), Some("P2WSH"),
      [("EAB239AA", x1), ("F843467D", x2), ("16EFEC75", x3)])
  {
    var comments := SetupFileComments;
    SetupFileCommentsAreComments();
    ParseCommentBlock([], comments);
    assert [] + comments == comments;
    assert ParseLines([]) == NoComponents;
    ParseFieldBlock(comments);
    ParseKeyBlock(comments + SetupFileFields, x1, x2, x3);
  }

  // -- splitting the text of the setup file into its lines

  lemma PlainIfNoBreaks(line: string)
    requires '\n' !in line && '\r' !in line
    ensures PlainLine(line)
  {
    if |line| > 0 {
      assert line[|line| - 1] in line;
    }
  }

  // Each line of the test file, one at a time: a long literal is costly.
  lemma BlueWalletLinePlain()
    ensures PlainLine("# BlueWallet Multisig setup file")
  {
    var line := "# BlueWallet Multisig setup file";
    assert '\n' !in line && '\r' !in line;
    PlainIfNoBreaks(line);
  }

  lemma PublicKeysLinePlain()
    ensures PlainLine("# this file contains only " + "public keys and is safe to")
  {
    var first, second := "# this file contains only ", "public keys and is safe to";
    assert '\n' !in first && '\r' !in first;
    assert '\n' !in second && '\r' !in second;
    PlainIfNoBreaks(first + second);
  }

  lemma CosignersLinePlain()
    ensures PlainLine("# distribute among cosigners")
  {
    var line := "# distribute among cosigners";
    assert '\n' !in line && '\r' !in line;
    PlainIfNoBreaks(line);
  }

  lemma NameLinePlain()
    ensures PlainLine("Name: test5678")
  {
    var line := "Name: test5678";
    assert '\n' !in line && '\r' !in line;
    PlainIfNoBreaks(line);
  }

  lemma PolicyLinePlain()
    ensures PlainLine("Policy: 2 of 3")
  {
    var line := "Policy: 2 of 3";
    assert '\n' !in line && '\r' !in line;
    PlainIfNoBreaks(line);
  }

  lemma DerivationLinePlain()
    ensures PlainLine("Derivation: " + Path)
  {
    var line := "Derivation: " + Path;
    assert '\n' !in line && '\r' !in line;
    PlainIfNoBreaks(line);
  }

  lemma FormatLinePlain()
    ensures PlainLine("Format: " + "P2WSH")
  {
    var line := "Format: " + "P2WSH";
    assert '\n' !in line && '\r' !in line;
    PlainIfNoBreaks(line);
  }

  /** The four comment lines hold no line break and no carriage return. */
  lemma SetupFileCommentsPlain()
    ensures AllPlain(SetupFileComments)
  {
    BlueWalletLinePlain();
    PublicKeysLinePlain();
    CosignersLinePlain();
    PlainIfNoBreaks("#");
  }

  /** Neither do the name, policy, derivation and format lines. */
  lemma SetupFileFieldsPlain()
    ensures AllPlain(SetupFileFields)
  {
    NameLinePlain();
    PolicyLinePlain();
    DerivationLinePlain();
    FormatLinePlain();
    PlainIfNoBreaks("");
  }

  lemma SetupFileKeyLinesPlain(x1: string, x2: string, x3: string)
    requires x1 != [] && PlainLine(x1)
    requires x2 != [] && PlainLine(x2)
    requires x3 != [] && PlainLine(x3)
    ensures AllPlain(SetupFileKeyLines(x1, x2, x3))
  {
    var ks := SetupFileKeyLines(x1, x2, x3);
    assert ks[0][|ks[0]| - 1] == x1[|x1| - 1];
    assert ks[2][|ks[2]| - 1] == x2[|x2| - 1];
    assert ks[4][|ks[4]| - 1] == x3[|x3| - 1];
  }

  /** No line of the setup file holds a line break or ends in a carriage
      return, so splitting its text gives the lines back. */
  lemma SetupFileLinesPlain(x1: string, x2: string, x3: string)
    requires x1 != [] && PlainLine(x1)
    requires x2 != [] && PlainLine(x2)
    requires x3 != [] && PlainLine(x3)
    ensures Lines(JoinTerminated(SetupFileLines(x1, x2, x3))) == SetupFileLines(x1, x2, x3)
  {
    SetupFileCommentsPlain();
    SetupFileFieldsPlain();
    SetupFileKeyLinesPlain(x1, x2, x3);
    AllPlainAppend(SetupFileComments, SetupFileFields);
    AllPlainAppend(SetupFileComments + SetupFileFields, SetupFileKeyLines(x1, x2, x3));
    LinesOfJoined(SetupFileLines(x1, x2, x3));
  }

  // -- rendering the parsed components

  /** A three-key descriptor is the threshold and the three key expressions,
      in order, inside `wsh(sortedmulti(...))`. */
  lemma RenderThreeKeys(dc: DescriptorComponents, branch: string)
    requires Renderable(dc) && |dc.keys| == 3
    ensures DescriptorStr(dc, branch)
         == "wsh(sortedmulti(" + dc.threshold.value
          + KeySegment(dc.keys[0], OriginPath(dc.derivation), branch)
          + KeySegment(dc.keys[1], OriginPath(dc.derivation), branch)
          + KeySegment(dc.keys[2], OriginPath(dc.derivation), branch)
          + "))"
  {
    var keys, d := dc.keys, dc.derivation;
    assert keys[..2][..1] == keys[..1] && keys[..1][..0] == [];
    var s1, s2, s3 := KeySegment(keys[0], OriginPath(d), branch), KeySegment(keys[1], OriginPath(d), branch), KeySegment(keys[2], OriginPath(d), branch);
    assert Segments(keys[..1], d, branch) == "" + s1;
    assert "" + s1 == s1;
    assert Segments(keys, d, branch) == s1 + s2 + s3;
  }

  /** One key of the test file rendered on the receive branch. */
  lemma TestKeySegment(fingerprint: string, key: string)
    ensures KeySegment((fingerprint, key), "48'/0'/0'/2'", "0")
         == ",[" + fingerprint + "/48'/0'/0'/2']" + key + "/0/*"
  {
    var h := ",[" + fingerprint + "/" + "48'/0'/0'/2'" + "]";
    assert h == ",[" + fingerprint + "/48'/0'/0'/2']";
    assert "/" + "0" + "/*" == "/0/*";
    calc {
      KeySegment((fingerprint, key), "48'/0'/0'/2'", "0");
      h + key + "/" + "0" + "/*";
      h + key + ("/" + "0" + "/*");
    }
  }

  /** The opening and the key origins of the expected descriptor, as the
      renderer spells them. */
  lemma TestOpening()
    ensures "wsh(sortedmulti(" + "2" == "wsh(sortedmulti(2"
  {
  }

  lemma TestOrigins()
    ensures ",[" + "EAB239AA" + "/48'/0'/0'/2']" == ",[EAB239AA/48'/0'/0'/2']"
    ensures ",[" + "F843467D" + "/48'/0'/0'/2']" == ",[F843467D/48'/0'/0'/2']"
    ensures ",[" + "16EFEC75" + "/48'/0'/0'/2']" == ",[16EFEC75/48'/0'/0'/2']"
  {
  }

  /** The test's components render to the test's descriptor. */
  lemma RenderTestComponents(x1: string, x2: string, x3: string)
    ensures DescriptorStr(DescriptorComponents(Some(Path), Some("2"), Some("P2WSH"),
        [("EAB239AA", x1), ("F843467D", x2), ("16EFEC75", x3)]), "0")
      == ExpectedDescriptor(x1, x2, x3)
  {
    PathHasNoBreak();
    RenderThreeKeys(DescriptorComponents(Some(Path), Some("2"), Some("P2WSH"),
      [("EAB239AA", x1), ("F843467D", x2), ("16EFEC75", x3)]), "0");
    TestKeySegment("EAB239AA", x1);
    TestKeySegment("F843467D", x2);
    TestKeySegment("16EFEC75", x3);
    TestOrigins();
    TestOpening();
  }

  // `can_parse_bluewallet_file`: the test's "2 of 3" setup file renders to
  // the descriptor the test expects, whatever its three xpubs are.
  method CanParseBluewalletFile(x1: string, x2: string, x3: string) returns (descriptor: string)
    requires x1 != [] && PlainLine(x1)
    requires x2 != [] && PlainLine(x2)
    requires x3 != [] && PlainLine(x3)
    ensures descriptor == ExpectedDescriptor(x1, x2, x3)
  {
    SetupFileLinesPlain(x1, x2, x3);
    ParseSetupFile(x1, x2, x3);
    RenderTestComponents(x1, x2, x3);
    var dc := FromBluewalletExport(JoinTerminated(SetupFileLines(x1, x2, x3)));
    descriptor := IntoMainDescriptor(dc);
  }
}
