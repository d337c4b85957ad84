/** `DescriptorComponents` of signing_bot/src/main.rs: the line-oriented
    parser of a BlueWallet multisig setup file, the renderer of the
    `wsh(sortedmulti(...))` output descriptor (BIP 382 `wsh`, BIP 383
    `sortedmulti`, BIP 380 key origins) and the substitution of the saved
    extended private key for its cosigner's public key. */
module Descriptors {
  import opened Results
  import opened Strings

  /** A cosigner line: an 8-digit upper-case hex fingerprint and its key text. */
  type KeyEntry = (string, string)

  datatype DescriptorComponents = DescriptorComponents(
    derivation: Option<string>,
    threshold: Option<string>,
    format: Option<string>,
    keys: seq<KeyEntry>)

  const NoComponents := DescriptorComponents(None, None, None, [])

  // ---- the five line shapes (the regular expressions of the parser) ----

  /** `^#` */
  predicate IsComment(line: string)
  {
    |line| > 0 && line[0] == '#'
  }

  /** `[A-F0-9]` */
  predicate IsUpperHex(c: char)
  {
    '0' <= c <= '9' || 'A' <= c <= 'F'
  }

  /** The group `(.+)` anchored at the start of `s`: the longest run of
      characters other than `'\n'`, provided it is not empty. */
  function RestCapture(s: string): (r: Option<string>)
    ensures r.Some? ==> |r.value| > 0 && '\n' !in r.value && HasPrefix(s, r.value)
    ensures r.Some? ==> |r.value| == |s| || s[|r.value|] == '\n'
    ensures r.None? ==> s == [] || s[0] == '\n'
  {
    var rest := BeforeFirst(s, '\n');
    if |rest| > 0 then Some(rest) else None
  }

  /** `^Policy: (\d) of \d`: the single threshold digit. */
  function PolicyCapture(line: string): (r: Option<string>)
    ensures r.Some? ==> |r.value| == 1 && IsDigit(r.value[0])
  {
    if |line| >= 14 && line[..8] == "Policy: " && IsDigit(line[8])
       && line[9..13] == " of " && IsDigit(line[13])
    then Some([line[8]])
    else None
  }

  /** `^<name>: (.+)` */
  function LabelCapture(line: string, name: string): Option<string>
  {
    var head := name + ": ";
    if HasPrefix(line, head) then RestCapture(line[|head|..]) else None
  }

  /** `^Derivation: (.+)` */
  function DerivationCapture(line: string): Option<string>
  {
    LabelCapture(line, "Derivation")
  }

  /** `^Format: (.+)` */
  function FormatCapture(line: string): Option<string>
  {
    LabelCapture(line, "Format")
  }

  /** `^([A-F0-9]{8}): (.+)`: the fingerprint and the key text. */
  function KeyCapture(line: string): (r: Option<KeyEntry>)
    ensures r.Some? ==> |r.value.0| == 8 && forall i :: 0 <= i < 8 ==> IsUpperHex(r.value.0[i])
  {
    if |line| >= 10 && (forall i :: 0 <= i < 8 ==> IsUpperHex(line[i]))
       && line[8] == ':' && line[9] == ' ' && RestCapture(line[10..]).Some?
    then Some((line[..8], RestCapture(line[10..]).value))
    else None
  }

  /** A comment line matches none of the four shapes, so filtering comments
      out first never hides a match. */
  lemma CommentCapturesNothing(line: string)
    requires IsComment(line)
    ensures PolicyCapture(line).None? && DerivationCapture(line).None?
    ensures FormatCapture(line).None? && KeyCapture(line).None?
  {
    assert !IsUpperHex(line[0]);
    assert "Policy: "[0] == 'P';
    assert ("Derivation" + ": ")[0] == 'D';
    assert ("Format" + ": ")[0] == 'F';
  }

  /** A line the parser leaves without effect. */
  predicate Ignored(line: string)
  {
    IsComment(line)
    || (PolicyCapture(line).None? && DerivationCapture(line).None?
        && FormatCapture(line).None? && KeyCapture(line).None?)
  }

  // ---- from_bluewallet_export ----

  /** One turn of the `for_each` over the non-comment lines: every scalar
      field whose shape matches is overwritten, a key line is appended. */
  function ParseLine(c: DescriptorComponents, line: string): DescriptorComponents
  {
    if IsComment(line) then c
    else
      var c1 := if PolicyCapture(line).Some? then c.(threshold := PolicyCapture(line)) else c;
      var c2 := if DerivationCapture(line).Some? then c1.(derivation := DerivationCapture(line)) else c1;
      var c3 := if FormatCapture(line).Some? then c2.(format := FormatCapture(line)) else c2;
      if KeyCapture(line).Some? then c3.(keys := c3.keys + [KeyCapture(line).value]) else c3
  }

  /** The components after the parser has consumed `lines` in order. */
  function ParseLines(lines: seq<string>): DescriptorComponents
  {
    if lines == [] then NoComponents
    else ParseLine(ParseLines(lines[..|lines| - 1]), lines[|lines| - 1])
  }

  /** `DescriptorComponents::from_bluewallet_export`. */
  method FromBluewalletExport(bwExport: string) returns (components: DescriptorComponents)
    ensures components == ParseLines(Lines(bwExport))
  {
    components := DescriptorComponents(None, None, None, []);
    var lines := Lines(bwExport);
    var i := 0;
    while i < |lines|
      invariant 0 <= i <= |lines|
      invariant components == ParseLines(lines[..i])
    {
      var line := lines[i];
      if !IsComment(line) {
        var policy := PolicyCapture(line);
        if policy.Some? {
          components := components.(threshold := policy);
        }
        var derivation := DerivationCapture(line);
        if derivation.Some? {
          components := components.(derivation := derivation);
        }
        var format := FormatCapture(line);
        if format.Some? {
          components := components.(format := format);
        }
        var key := KeyCapture(line);
        if key.Some? {
          components := components.(keys := components.keys + [key.value]);
        }
      }
      assert lines[..i + 1][..i] == lines[..i];
      i := i + 1;
    }
    assert lines[..i] == lines;
  }

  // ---- what the parser computes, field by field ----

  /** The capture of the last line of `lines` that `capture` matches. */
  function LastCapture(lines: seq<string>, capture: string -> Option<string>): Option<string>
  {
    if lines == [] then None
    else if capture(lines[|lines| - 1]).Some? then capture(lines[|lines| - 1])
    else LastCapture(lines[..|lines| - 1], capture)
  }

  /** Last match wins: the line at `i` decides when no later line matches, and
      nothing is captured when no line matches. */
  lemma {:induction false} LastCaptureIsLastMatch(lines: seq<string>, capture: string -> Option<string>, i: int)
    requires 0 <= i < |lines| && capture(lines[i]).Some?
    requires forall j :: i < j < |lines| ==> capture(lines[j]).None?
    ensures LastCapture(lines, capture) == capture(lines[i])
  {
    if i < |lines| - 1 {
      LastCaptureIsLastMatch(lines[..|lines| - 1], capture, i);
    }
  }

  lemma {:induction false} LastCaptureNone(lines: seq<string>, capture: string -> Option<string>)
    ensures LastCapture(lines, capture).None? <==> forall j :: 0 <= j < |lines| ==> capture(lines[j]).None?
  {
    if lines != [] {
      var init := lines[..|lines| - 1];
      LastCaptureNone(init, capture);
      assert forall j :: 0 <= j < |init| ==> init[j] == lines[j];
    }
  }

  /** The key entries of the key lines of `lines`, in input order. */
  function KeysOf(lines: seq<string>): seq<KeyEntry>
  {
    if lines == [] then [] else KeyOf(lines[0]) + KeysOf(lines[1..])
  }

  /** The key entry of one line, if it is a key line. */
  function KeyOf(line: string): seq<KeyEntry>
  {
    if KeyCapture(line).Some? then [KeyCapture(line).value] else []
  }

  /** One entry per key line, in order: key lines of a concatenation are the
      key lines of each part. */
  lemma {:induction false} KeysOfAppend(a: seq<string>, b: seq<string>)
    ensures KeysOf(a + b) == KeysOf(a) + KeysOf(b)
  {
    if a == [] {
      assert a + b == b;
    } else {
      assert (a + b)[1..] == a[1..] + b;
      KeysOfAppend(a[1..], b);
    }
  }

  /** The parser's result, field by field: each scalar field holds the capture
      of the last line of its shape, and `keys` lists every key line in input
      order. Comment lines, whatever they hold, take no part. */
  lemma {:induction false} ParseLinesFields(lines: seq<string>)
    ensures ParseLines(lines) == DescriptorComponents(
      LastCapture(lines, DerivationCapture),
      LastCapture(lines, PolicyCapture),
      LastCapture(lines, FormatCapture),
      KeysOf(lines))
  {
    if lines != [] {
      var init, last := lines[..|lines| - 1], lines[|lines| - 1];
      ParseLinesFields(init);
      ParseLineFields(ParseLines(init), last);
      KeysOfAppend(init, [last]);
      assert init + [last] == lines;
      assert KeysOf([last]) == KeyOf(last);
    }
  }

  /** One line, field by field: a scalar field takes the line's capture when
      there is one, and the line's key entry, if any, is appended. */
  lemma ParseLineFields(c: DescriptorComponents, line: string)
    ensures ParseLine(c, line) == DescriptorComponents(
      if DerivationCapture(line).Some? then DerivationCapture(line) else c.derivation,
      if PolicyCapture(line).Some? then PolicyCapture(line) else c.threshold,
      if FormatCapture(line).Some? then FormatCapture(line) else c.format,
      c.keys + KeyOf(line))
  {
    if IsComment(line) {
      CommentCapturesNothing(line);
      assert c.keys + [] == c.keys;
    }
  }

  /** Inserting a comment or an unrecognised line anywhere changes nothing. */
  lemma {:induction false} IgnoredLineHasNoEffect(before: seq<string>, line: string, after: seq<string>)
    requires Ignored(line)
    ensures ParseLines(before + [line] + after) == ParseLines(before + after)
  {
    if after == [] {
      assert before + [line] + after == before + [line];
      assert (before + [line])[..|before|] == before;
      assert before + after == before;
    } else {
      var init, last := after[..|after| - 1], after[|after| - 1];
      IgnoredLineHasNoEffect(before, line, init);
      assert (before + [line] + after)[..|before + [line] + after| - 1] == before + [line] + init;
      assert (before + after)[..|before + after| - 1] == before + init;
    }
  }

  /** A threshold of two digits does not match `(\d) of \d`: a policy line
      whose tenth character is a digit sets no threshold. */
  lemma TwoDigitThresholdIgnored(line: string)
    requires |line| >= 10 && line[..8] == "Policy: " && IsDigit(line[9])
    ensures PolicyCapture(line).None?
  {
    if |line| >= 14 {
      assert line[9..13][0] == line[9];
    }
  }

  // ---- the effect of one line of each recognised shape ----

  /** A cosigner line appends its fingerprint and the whole rest of the line,
      and changes nothing else. */
  lemma ParseKeyLine(c: DescriptorComponents, fingerprint: string, key: string)
    requires |fingerprint| == 8 && forall i :: 0 <= i < 8 ==> IsUpperHex(fingerprint[i])
    requires key != [] && '\n' !in key
    ensures ParseLine(c, fingerprint + ": " + key) == c.(keys := c.keys + [(fingerprint, key)])
  {
    var line := fingerprint + ": " + key;
    assert line[..8] == fingerprint && line[8] == ':' && line[9] == ' ' && line[10..] == key;
    BeforeFirstNoSeparator(key, '\n');
    assert IsUpperHex(line[1]) && IsUpperHex(line[7]);
    assert ("Derivation" + ": ")[1] == 'e' && ("Format" + ": ")[1] == 'o';
    assert "Policy: "[7] == ' ';
  }

  /** A derivation line sets the derivation to the whole rest of the line. */
  lemma ParseDerivationLine(c: DescriptorComponents, value: string)
    requires value != [] && '\n' !in value
    ensures ParseLine(c, "Derivation: " + value) == c.(derivation := Some(value))
  {
    var line := "Derivation: " + value;
    assert ("Derivation" + ": ") == "Derivation: ";
    assert line[..12] == "Derivation: " && line[12..] == value;
    BeforeFirstNoSeparator(value, '\n');
    assert !IsUpperHex(line[1]);
    assert ("Format" + ": ")[0] == 'F';
  }

  /** A format line sets the format to the whole rest of the line. */
  lemma ParseFormatLine(c: DescriptorComponents, value: string)
    requires value != [] && '\n' !in value
    ensures ParseLine(c, "Format: " + value) == c.(format := Some(value))
  {
    var line := "Format: " + value;
    assert ("Format" + ": ") == "Format: ";
    assert line[..8] == "Format: " && line[8..] == value;
    BeforeFirstNoSeparator(value, '\n');
    assert !IsUpperHex(line[1]);
    assert ("Derivation" + ": ")[0] == 'D';
  }

  // ---- into_descriptor_str and its two wrappers ----

  predicate DerivationOk(derivation: Option<string>)
  {
    derivation.Some? && HasPrefix(derivation.value, "m/")
  }

  /** What the renderer unwraps: the threshold always, the derivation and its
      `m/` prefix only inside the fold, that is once there is a key. */
  predicate Renderable(dc: DescriptorComponents)
  {
    dc.threshold.Some? && (dc.keys != [] ==> DerivationOk(dc.derivation))
  }

  /** `derivation.strip_prefix("m/").unwrap()` */
  function OriginPath(derivation: Option<string>): string
    requires DerivationOk(derivation)
  {
    derivation.value[2..]
  }

  // `,[fp/path]key/branch/*`: one key expression with its origin.
  function KeySegment(key: KeyEntry, path: string, branch: string): string
  {
    ",[" + key.0 + "/" + path + "]" + key.1 + "/" + branch + "/*"
  }

  /** The `fold` over `keys`: the key segments appended in key order. */
  function Segments(keys: seq<KeyEntry>, derivation: Option<string>, branch: string): string
    requires keys != [] ==> DerivationOk(derivation)
  {
    if keys == [] then ""
    else Segments(keys[..|keys| - 1], derivation, branch)
         + KeySegment(keys[|keys| - 1], OriginPath(derivation), branch)
  }

  /** The descriptor `into_descriptor_str(branch)` returns. */
  function DescriptorStr(dc: DescriptorComponents, branch: string): (r: string)
    requires Renderable(dc)
    ensures HasPrefix(r, "wsh(sortedmulti(" + dc.threshold.value)
    ensures |r| >= 2 && r[|r| - 2..] == "))"
  {
    var r := "wsh(sortedmulti(" + dc.threshold.value + Segments(dc.keys, dc.derivation, branch) + "))";
    assert r[..|"wsh(sortedmulti(" + dc.threshold.value|] == "wsh(sortedmulti(" + dc.threshold.value;
    r
  }

  /** `into_descriptor_str`: grows the descriptor text piece by piece. */
  method IntoDescriptorStr(dc: DescriptorComponents, descType: string) returns (descriptor: string)
    requires Renderable(dc)
    ensures descriptor == DescriptorStr(dc, descType)
  {
    descriptor := "wsh(sortedmulti(";
    descriptor := descriptor + dc.threshold.value;
    var folded := "";
    for i := 0 to |dc.keys|
      invariant folded == Segments(dc.keys[..i], dc.derivation, descType)
    {
      folded := folded + KeySegment(dc.keys[i], OriginPath(dc.derivation), descType);
      assert dc.keys[..i + 1][..i] == dc.keys[..i];
    }
    assert dc.keys[..|dc.keys|] == dc.keys;
    descriptor := descriptor + folded;
    descriptor := descriptor + "))";
  }

  /** `into_main_descriptor`: the receive branch `0`. */
  method IntoMainDescriptor(dc: DescriptorComponents) returns (descriptor: string)
    requires Renderable(dc)
    ensures descriptor == DescriptorStr(dc, "0")
  {
    descriptor := IntoDescriptorStr(dc, "0");
  }

  /** `into_change_descriptor`: the change branch `1`. */
  method IntoChangeDescriptor(dc: DescriptorComponents) returns (descriptor: string)
    requires Renderable(dc)
    ensures descriptor == DescriptorStr(dc, "1")
  {
    descriptor := IntoDescriptorStr(dc, "1");
  }

  // ---- properties of the rendering ----

  /** One segment per key, in key order. */
  lemma {:induction false} SegmentsAppend(a: seq<KeyEntry>, b: seq<KeyEntry>, derivation: Option<string>, branch: string)
    requires a + b != [] ==> DerivationOk(derivation)
    ensures Segments(a + b, derivation, branch) == Segments(a, derivation, branch) + Segments(b, derivation, branch)
  {
    if b == [] {
      assert a + b == a;
    } else {
      var init := b[..|b| - 1];
      assert (a + b)[..|a + b| - 1] == a + init;
      assert (a + b)[|a + b| - 1] == b[|b| - 1];
      SegmentsAppend(a, init, derivation, branch);
    }
  }

  /** No `[` in any piece the renderer copies. */
  predicate NoBracket(dc: DescriptorComponents, branch: string)
    requires Renderable(dc)
  {
    '[' !in dc.threshold.value && '[' !in branch
    && (dc.keys != [] ==> '[' !in OriginPath(dc.derivation))
    && forall i :: 0 <= i < |dc.keys| ==> '[' !in dc.keys[i].0 && '[' !in dc.keys[i].1
  }

  lemma KeySegmentBracketCount(key: KeyEntry, path: string, branch: string)
    requires '[' !in key.0 && '[' !in key.1 && '[' !in path && '[' !in branch
    ensures CountChar(KeySegment(key, path, branch), '[') == 1
  {
    var p1 := ",[";
    var p2 := p1 + key.0;
    var p3 := p2 + "/";
    var p4 := p3 + path;
    var p5 := p4 + "]";
    var p6 := p5 + key.1;
    var p7 := p6 + "/";
    var p8 := p7 + branch;
    var p9 := p8 + "/*";
    assert CountChar(p1, '[') == 1;
    assert CountChar("/", '[') == 0;
    assert CountChar("]", '[') == 0;
    assert CountChar("/*", '[') == 0;
    CountCharAbsent(key.0, '[');
    CountCharAbsent(key.1, '[');
    CountCharAbsent(path, '[');
    CountCharAbsent(branch, '[');
    CountCharAppend(p1, key.0, '[');
    CountCharAppend(p2, "/", '[');
    CountCharAppend(p3, path, '[');
    CountCharAppend(p4, "]", '[');
    CountCharAppend(p5, key.1, '[');
    CountCharAppend(p6, "/", '[');
    CountCharAppend(p7, branch, '[');
    CountCharAppend(p8, "/*", '[');
  }

  lemma {:induction false} SegmentsBracketCount(keys: seq<KeyEntry>, derivation: Option<string>, branch: string)
    requires keys != [] ==> DerivationOk(derivation) && '[' !in OriginPath(derivation)
    requires '[' !in branch
    requires forall i :: 0 <= i < |keys| ==> '[' !in keys[i].0 && '[' !in keys[i].1
    ensures CountChar(Segments(keys, derivation, branch), '[') == |keys|
  {
    if keys != [] {
      var init, key := keys[..|keys| - 1], keys[|keys| - 1];
      var path := OriginPath(derivation);
      SegmentsBracketCount(init, derivation, branch);
      KeySegmentBracketCount(key, path, branch);
      CountCharAppend(Segments(init, derivation, branch), KeySegment(key, path, branch), '[');
    }
  }

  /** The rendered descriptor holds exactly one key origin `[...]` per key. */
  lemma KeyOriginCount(dc: DescriptorComponents, branch: string)
    requires Renderable(dc) && NoBracket(dc, branch)
    ensures CountChar(DescriptorStr(dc, branch), '[') == |dc.keys|
  {
    var t := dc.threshold.value;
    var segs := Segments(dc.keys, dc.derivation, branch);
    SegmentsBracketCount(dc.keys, dc.derivation, branch);
    CountCharAbsent("wsh(sortedmulti(", '[');
    assert CountChar("))", '[') == 0;
    CountCharAbsent(t, '[');
    CountCharAppend("wsh(sortedmulti(", t, '[');
    CountCharAppend("wsh(sortedmulti(" + t, segs, '[');
    CountCharAppend("wsh(sortedmulti(" + t + segs, "))", '[');
  }

  /** `s` and `t` have the same length and differ only where `s` has `0` and
      `t` has `1`. */
  predicate OnlyBranchDiffers(s: string, t: string)
  {
    |s| == |t| && forall i :: 0 <= i < |s| && s[i] != t[i] ==> s[i] == '0' && t[i] == '1'
  }

  lemma OnlyBranchDiffersAppend(s: string, t: string, s': string, t': string)
    requires OnlyBranchDiffers(s, t) && OnlyBranchDiffers(s', t')
    ensures OnlyBranchDiffers(s + s', t + t')
  {
    forall i | 0 <= i < |s + s'| && (s + s')[i] != (t + t')[i]
      ensures (s + s')[i] == '0' && (t + t')[i] == '1'
    {
      if i >= |s| {
        assert (s + s')[i] == s'[i - |s|] && (t + t')[i] == t'[i - |s|];
      }
    }
  }

  lemma {:induction false} SegmentsOnlyBranchDiffers(keys: seq<KeyEntry>, derivation: Option<string>)
    requires keys != [] ==> DerivationOk(derivation)
    ensures OnlyBranchDiffers(Segments(keys, derivation, "0"), Segments(keys, derivation, "1"))
  {
    if keys != [] {
      var init, key := keys[..|keys| - 1], keys[|keys| - 1];
      var head := ",[" + key.0 + "/" + OriginPath(derivation) + "]" + key.1 + "/";
      SegmentsOnlyBranchDiffers(init, derivation);
      assert OnlyBranchDiffers(head, head);
      OnlyBranchDiffersAppend(head, head, "0", "1");
      assert OnlyBranchDiffers("/*", "/*");
      OnlyBranchDiffersAppend(head + "0", head + "1", "/*", "/*");
      OnlyBranchDiffersAppend(Segments(init, derivation, "0"), Segments(init, derivation, "1"),
        head + "0" + "/*", head + "1" + "/*");
    }
  }

  // The last key segment ends in the branch followed by `/*`.
  lemma SegmentsEndWithBranch(keys: seq<KeyEntry>, derivation: Option<string>, branch: string)
    requires keys != [] && DerivationOk(derivation) && |branch| == 1
    ensures var s := Segments(keys, derivation, branch); |s| >= 3 && s[|s| - 3] == branch[0]
  {
    var key := keys[|keys| - 1];
    var head := ",[" + key.0 + "/" + OriginPath(derivation) + "]" + key.1 + "/";
    var seg := KeySegment(key, OriginPath(derivation), branch);
    assert seg == (head + branch) + "/*";
    assert seg[|seg| - 3] == branch[0];
  }

  /** The main and the change descriptor differ only in the branch component:
      same length, and wherever they differ the main one has `0` and the
      change one `1`. With at least one key they do differ. */
  lemma MainAndChangeDifferOnlyInBranch(dc: DescriptorComponents)
    requires Renderable(dc)
    ensures OnlyBranchDiffers(DescriptorStr(dc, "0"), DescriptorStr(dc, "1"))
    ensures dc.keys != [] ==> DescriptorStr(dc, "0") != DescriptorStr(dc, "1")
  {
    var head := "wsh(sortedmulti(" + dc.threshold.value;
    var s0, s1 := Segments(dc.keys, dc.derivation, "0"), Segments(dc.keys, dc.derivation, "1");
    SegmentsOnlyBranchDiffers(dc.keys, dc.derivation);
    assert OnlyBranchDiffers(head, head);
    OnlyBranchDiffersAppend(head, head, s0, s1);
    assert OnlyBranchDiffers("))", "))");
    OnlyBranchDiffersAppend(head + s0, head + s1, "))", "))");
    if dc.keys != [] {
      SegmentsEndWithBranch(dc.keys, dc.derivation, "0");
      SegmentsEndWithBranch(dc.keys, dc.derivation, "1");
      var d0, d1 := head + s0 + "))", head + s1 + "))";
      assert d0[|head| + |s0| - 3] == s0[|s0| - 3];
      assert d1[|head| + |s1| - 3] == s1[|s1| - 3];
    }
  }

  // ---- the key substitution of create_new_wallet ----

  /** The seed record saved at key creation (`SavedKey`). */
  datatype SavedKey = SavedKey(fingerprint: string, mnemonic: string, xprv: string, xpub: string)

  /** `k.split("]").last().unwrap().split("/").nth(0).unwrap()`: drops the key
      origin before the last `]` and the derivation suffix from the first `/`. */
  function TrimXprv(xprv: string): (r: string)
    ensures ']' !in r && '/' !in r
  {
    BeforeFirst(AfterLast(xprv, ']'), '/')
  }

  /** On a key expression `[origin]key/suffix`, trimming leaves `key`. */
  lemma TrimXprvOfKeyExpression(origin: string, key: string, suffix: string)
    requires ']' !in key && '/' !in key && ']' !in suffix
    ensures TrimXprv(origin + "]" + key + "/" + suffix) == key
    ensures TrimXprv(origin + "]" + key) == key
  {
    var x := origin + "]" + key + "/" + suffix;
    assert x == origin + [']'] + (key + "/" + suffix);
    assert forall i :: 0 <= i < |key + "/" + suffix| ==> (key + "/" + suffix)[i] in key + "/" + suffix;
    assert ']' !in key + "/" + suffix;
    AfterLastSeparator(origin, ']', key + "/" + suffix);
    assert key + "/" + suffix == key + ['/'] + suffix;
    BeforeFirstSeparator(key, '/', suffix);
    assert origin + "]" + key == origin + [']'] + key;
    AfterLastSeparator(origin, ']', key);
    BeforeFirstNoSeparator(key, '/');
  }

  /** Trimming an already trimmed key changes nothing. */
  lemma TrimXprvIdempotent(xprv: string)
    ensures TrimXprv(TrimXprv(xprv)) == TrimXprv(xprv)
  {
    var t := TrimXprv(xprv);
    AfterLastNoSeparator(t, ']');
    BeforeFirstNoSeparator(t, '/');
  }

  /** The `map` over `keys`: every fingerprint lowercased; the key of an entry
      whose lowercased fingerprint is the saved one becomes the trimmed xprv,
      every other key is kept; no entry is added, dropped or moved, and an
      absent fingerprint is no error. */
  function SubstituteKeys(keys: seq<KeyEntry>, saved: SavedKey): (r: seq<KeyEntry>)
    ensures |r| == |keys|
    ensures forall i :: 0 <= i < |keys| ==> r[i].0 == ToLower(keys[i].0)
    ensures forall i :: 0 <= i < |keys| ==>
      r[i].1 == if ToLower(keys[i].0) == saved.fingerprint then TrimXprv(saved.xprv) else keys[i].1
  {
    if keys == [] then []
    else
      var fprint := ToLower(keys[0].0);
      var entry := if fprint == saved.fingerprint then (fprint, TrimXprv(saved.xprv)) else (fprint, keys[0].1);
      [entry] + SubstituteKeys(keys[1..], saved)
  }

  /** `dc.keys = new_keys`: only the key list changes. */
  function SubstituteSavedKey(dc: DescriptorComponents, saved: SavedKey): (r: DescriptorComponents)
    ensures r.derivation == dc.derivation && r.threshold == dc.threshold && r.format == dc.format
    ensures r.keys == SubstituteKeys(dc.keys, saved)
    ensures Renderable(dc) ==> Renderable(r)
  {
    dc.(keys := SubstituteKeys(dc.keys, saved))
  }

  /** Substituting the same saved key twice is substituting it once. */
  lemma SubstituteKeysIdempotent(keys: seq<KeyEntry>, saved: SavedKey)
    ensures SubstituteKeys(SubstituteKeys(keys, saved), saved) == SubstituteKeys(keys, saved)
  {
    var once := SubstituteKeys(keys, saved);
    var twice := SubstituteKeys(once, saved);
    forall i | 0 <= i < |keys| ensures twice[i] == once[i] {
      ToLowerIdempotent(keys[i].0);
    }
  }

  /** Substitutions for two different fingerprints commute. */
  lemma SubstituteKeysCommute(keys: seq<KeyEntry>, a: SavedKey, b: SavedKey)
    requires a.fingerprint != b.fingerprint
    ensures SubstituteKeys(SubstituteKeys(keys, a), b) == SubstituteKeys(SubstituteKeys(keys, b), a)
  {
    var ab := SubstituteKeys(SubstituteKeys(keys, a), b);
    var ba := SubstituteKeys(SubstituteKeys(keys, b), a);
    forall i | 0 <= i < |keys| ensures ab[i] == ba[i] {
      ToLowerIdempotent(keys[i].0);
    }
  }
}
