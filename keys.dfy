/** Reading the key pair out of what `xray x25519` prints. The Java servers read the output
    line by line and take the second piece of `line.split(":\\s*")`, trimmed; the script takes
    the first match of `/Private key: (\S+)/` (and the same for the public key) in the whole
    output. */
module RealityKeys {
  import opened Wrappers
  import opened Strings
  import opened Numbers

  /** Java's regular-expression class `\s`: space, tab, line feed, vertical tab, form feed and
      carriage return. */
  predicate IsRegexSpace(c: char) {
    c == ' ' || c == '\t' || c == '\n' || c as int == 0x0B || c as int == 0x0C || c == '\r'
  }

  /** The pieces of `s` between the matches of `:\s*`, before Java drops the trailing empty
      ones. Each match is a colon and the whitespace run after it. */
  function SplitColonRuns(s: string): (pieces: seq<string>)
    ensures pieces != []
    ensures forall i :: 0 <= i < |pieces| ==> ':' !in pieces[i]
    ensures ':' !in s ==> pieces == [s]
    decreases |s|
  {
    match IndexOfChar(s, ':')
    case None => [s]
    case Some(i) =>
      var after := s[i + 1..];
      var ws := LeadingRun(after, IsRegexSpace);
      [s[..i]] + SplitColonRuns(after[|ws|..])
  }

  /** `String.split` leaves out the empty strings at the end of the result. */
  function DropTrailingEmpty(pieces: seq<string>): (r: seq<string>)
    ensures |r| <= |pieces| && r == pieces[..|r|]
    ensures r == [] || r[|r| - 1] != ""
    ensures forall i :: |r| <= i < |pieces| ==> pieces[i] == ""
  {
    if pieces != [] && pieces[|pieces| - 1] == "" then DropTrailingEmpty(pieces[..|pieces| - 1]) else pieces
  }

  /** `line.split(":\\s*")[1].trim()`; `None` where the index is out of bounds and Java throws. */
  function JavaKeyValue(line: string): (r: Option<string>)
  {
    var pieces := DropTrailingEmpty(SplitColonRuns(line));
    if |pieces| >= 2 then Some(JavaTrim(pieces[1])) else None
  }

  const PrivateLabel: string := "Private key:"
  const PublicLabel: string := "Public key:"

  /** The two fields the line loop fills in; `None` is Java's `null`. */
  datatype KeyScan = KeyScan(privateKey: Option<string>, publicKey: Option<string>)

  /** One line of the loop: a private-key line sets only the private key, even when it also
      names the public one; `None` when the split throws. */
  function ScanLine(st: KeyScan, line: string): (r: Option<KeyScan>)
    ensures Contains(line, PrivateLabel) ==>
              (r.Some? <==> JavaKeyValue(line).Some?)
              && (r.Some? ==> r.value == st.(privateKey := JavaKeyValue(line)))
    ensures !Contains(line, PrivateLabel) && Contains(line, PublicLabel) ==>
              (r.Some? <==> JavaKeyValue(line).Some?)
              && (r.Some? ==> r.value == st.(publicKey := JavaKeyValue(line)))
    ensures !Contains(line, PrivateLabel) && !Contains(line, PublicLabel) ==> r == Some(st)
  {
    if Contains(line, PrivateLabel) then
      match JavaKeyValue(line)
      case Some(v) => Some(st.(privateKey := Some(v)))
      case None => None
    else if Contains(line, PublicLabel) then
      match JavaKeyValue(line)
      case Some(v) => Some(st.(publicKey := Some(v)))
      case None => None
    else Some(st)
  }

  /** The fields after reading `lines` in order, from two unset fields. */
  function ScanLines(lines: seq<string>): Option<KeyScan>
  {
    if lines == [] then Some(KeyScan(None, None))
    else
      match ScanLines(lines[..|lines| - 1])
      case None => None
      case Some(st) => ScanLine(st, lines[|lines| - 1])
  }

  /** The lines that set the private key, and the public key, when the loop reaches them. */
  predicate SetsPrivate(line: string) {
    Contains(line, PrivateLabel)
  }

  predicate SetsPublic(line: string) {
    !Contains(line, PrivateLabel) && Contains(line, PublicLabel)
  }

  /** The index of the last line satisfying `p`. */
  function LastIndexWhere(lines: seq<string>, p: string -> bool): (r: Option<nat>)
    ensures r.Some? ==> r.value < |lines| && p(lines[r.value])
                        && forall j :: r.value < j < |lines| ==> !p(lines[j])
    ensures r.None? ==> forall j :: 0 <= j < |lines| ==> !p(lines[j])
  {
    if lines == [] then None
    else if p(lines[|lines| - 1]) then Some(|lines| - 1)
    else LastIndexWhere(lines[..|lines| - 1], p)
  }

  /** The value a key ends with: what the last line setting it holds, or unset. */
  function LastValue(lines: seq<string>, p: string -> bool): Option<string> {
    match LastIndexWhere(lines, p)
    case None => None
    case Some(i) => JavaKeyValue(lines[i])
  }

  lemma LastValueStep(lines: seq<string>, p: string -> bool)
    requires lines != []
    ensures p(lines[|lines| - 1]) ==> LastValue(lines, p) == JavaKeyValue(lines[|lines| - 1])
    ensures !p(lines[|lines| - 1]) ==> LastValue(lines, p) == LastValue(lines[..|lines| - 1], p)
  {
  }

  /** The later line wins: each key the scan ends with is the value of the last line that sets
      it, and a key no line sets stays unset. */
  lemma {:induction false} ScanLinesLastWins(lines: seq<string>, st: KeyScan)
    requires ScanLines(lines) == Some(st)
    ensures st.privateKey == LastValue(lines, SetsPrivate)
    ensures st.publicKey == LastValue(lines, SetsPublic)
    decreases |lines|
  {
    if lines != [] {
      var n := |lines| - 1;
      var prev := ScanLines(lines[..n]).value;
      assert ScanLine(prev, lines[n]) == Some(st);
      ScanLinesLastWins(lines[..n], prev);
      LastValueStep(lines, SetsPrivate);
      LastValueStep(lines, SetsPublic);
    }
  }

  /** One more line of the loop, seen from the front of `lines`. */
  lemma ScanLinesStep(lines: seq<string>, i: nat)
    requires i < |lines|
    ensures ScanLines(lines[..i]).None? ==> ScanLines(lines[..i + 1]).None?
    ensures ScanLines(lines[..i]).Some? ==>
              ScanLines(lines[..i + 1]) == ScanLine(ScanLines(lines[..i]).value, lines[i])
  {
    var longer := lines[..i + 1];
    assert longer[..|longer| - 1] == lines[..i];
    assert longer[|longer| - 1] == lines[i];
  }

  /** A line whose split throws ends the loop for good: every longer run of lines fails too. */
  lemma {:induction false} ScanFailsFrom(lines: seq<string>, k: nat)
    requires k <= |lines|
    requires ScanLines(lines[..k]).None?
    ensures ScanLines(lines).None?
    decreases |lines| - k
  {
    if k < |lines| {
      var longer := lines[..k + 1];
      assert longer[..|longer| - 1] == lines[..k];
      assert ScanLines(longer).None?;
      ScanFailsFrom(lines, k + 1);
    } else {
      assert lines[..k] == lines;
    }
  }

  /** After the loop: both keys, or the "Failed to generate Reality keys" error. */
  function JavaRealityKeys(lines: seq<string>): (r: Option<(string, string)>)
    ensures r.Some? ==> ScanLines(lines).Some?
                        && ScanLines(lines).value.privateKey == Some(r.value.0)
                        && ScanLines(lines).value.publicKey == Some(r.value.1)
    ensures (ScanLines(lines).Some? && ScanLines(lines).value.privateKey.Some?
             && ScanLines(lines).value.publicKey.Some?) ==> r.Some?
  {
    match ScanLines(lines)
    case Some(KeyScan(Some(priv), Some(pub))) => Some((priv, pub))
    case _ => None
  }

  /** The regular expression `tag(\S+)` matches at index `i`. */
  predicate IsMatchAt(s: string, tag: string, i: int) {
    OccursAt(s, tag, i) && i + |tag| < |s| && !IsJsSpace(s[i + |tag|])
  }

  /** The leftmost index at or after `from` where `tag(\S+)` matches. */
  function MatchIndexFrom(s: string, tag: string, from: nat): (r: Option<nat>)
    ensures r.Some? ==> from <= r.value && IsMatchAt(s, tag, r.value)
    ensures r.Some? ==> forall j :: from <= j < r.value ==> !IsMatchAt(s, tag, j)
    ensures r.None? ==> forall j :: from <= j ==> !IsMatchAt(s, tag, j)
    decreases |s| - from
  {
    if from + |tag| >= |s| then None
    else if IsMatchAt(s, tag, from) then Some(from)
    else MatchIndexFrom(s, tag, from + 1)
  }

  predicate IsNonSpace(c: char) {
    !IsJsSpace(c)
  }

  /** `s.match(/tag(\S+)/)?.[1]`: the whole run of non-space characters after the leftmost
      match of the tag. */
  function JsKeyMatch(s: string, tag: string): (r: Option<string>)
    ensures r.Some? ==> r.value != [] && forall k :: 0 <= k < |r.value| ==> !IsJsSpace(r.value[k])
  {
    match MatchIndexFrom(s, tag, 0)
    case None => None
    case Some(i) => Some(LeadingRun(s[i + |tag|..], IsNonSpace))
  }

  const JsPrivateLabel: string := "Private key: "
  const JsPublicLabel: string := "Public key: "

  /** The script's `generateRealityKeys`; `None` where it exits with status 1. */
  function JsRealityKeys(output: string): (r: Option<(string, string)>)
    ensures r.Some? <==> JsKeyMatch(output, JsPrivateLabel).Some? && JsKeyMatch(output, JsPublicLabel).Some?
    ensures r.Some? ==> r.value == (JsKeyMatch(output, JsPrivateLabel).value, JsKeyMatch(output, JsPublicLabel).value)
  {
    match (JsKeyMatch(output, JsPrivateLabel), JsKeyMatch(output, JsPublicLabel))
    case (Some(priv), Some(pub)) => Some((priv, pub))
    case _ => None
  }

  /** The characters of a key as `xray x25519` prints it: unpadded base64url. */
  predicate IsKeyChar(c: char) {
    'A' <= c <= 'Z' || 'a' <= c <= 'z' || '0' <= c <= '9' || c == '-' || c == '_'
  }

  predicate IsKeyText(k: string) {
    k != [] && forall i :: 0 <= i < |k| ==> IsKeyChar(k[i])
  }

  /** The two lines `xray x25519` prints. */
  function KeygenLines(priv: string, pub: string): seq<string> {
    [JsPrivateLabel + priv, JsPublicLabel + pub]
  }

  /** The same lines as one text, each ended by a line feed. */
  function KeygenOutput(priv: string, pub: string): string {
    JsPrivateLabel + priv + "\n" + JsPublicLabel + pub + "\n"
  }

  lemma KeyTextShape(k: string)
    requires IsKeyText(k)
    ensures ':' !in k && !IsRegexSpace(k[0]) && !IsJavaTrimmed(k[0]) && !IsJavaTrimmed(k[|k| - 1])
    ensures forall i :: 0 <= i < |k| ==> !IsJsSpace(k[i])
  {
    forall i | 0 <= i < |k| ensures k[i] != ':' && !IsJsSpace(k[i]) { assert IsKeyChar(k[i]); }
    assert IsKeyChar(k[0]) && IsKeyChar(k[|k| - 1]);
  }

  /** A colon, one space and a key split into the text before the colon and the key. */
  lemma SplitLabelLine(head: string, key: string)
    requires ':' !in head && ':' !in key && key != [] && !IsRegexSpace(key[0])
    ensures SplitColonRuns(head + ": " + key) == [head, key]
  {
    var line := head + ": " + key;
    assert line == head + [':'] + (" " + key);
    IndexOfCharAfter(head, ':', " " + key);
    assert line[..|head|] == head;
    var after := line[|head| + 1..];
    assert after == " " + key;
    assert LeadingRun(after, IsRegexSpace) == " " by {
      assert after[1..] == key;
      assert LeadingRun(key, IsRegexSpace) == [];
    }
    assert after[1..] == key;
  }

  /** A labelled line's value read by the Java split. */
  lemma JavaKeyValueOfLine(head: string, key: string)
    requires ':' !in head && IsKeyText(key)
    ensures JavaKeyValue(head + ": " + key) == Some(key)
  {
    KeyTextShape(key);
    SplitLabelLine(head, key);
    assert DropTrailingEmpty([head, key]) == [head, key];
    TrimStartNoop(key, IsJavaTrimmed);
    TrimEndNoop(key, IsJavaTrimmed);
  }

  /** Neither label occurs inside the other's line. */
  lemma PublicLineHasNoPrivateLabel(pub: string)
    requires IsKeyText(pub)
    ensures !Contains(JsPublicLabel + pub, PrivateLabel)
  {
    var s := JsPublicLabel + pub;
    forall i | 0 <= i && i + 12 <= |s| ensures !OccursAt(s, PrivateLabel, i) {
      NoPrivateLabelAt(pub, i);
    }
    ContainsIff(s, PrivateLabel);
  }

  /** The private label ends in a colon, and the public line's only colon is its eleventh
      character. */
  lemma NoPrivateLabelAt(pub: string, i: nat)
    requires IsKeyText(pub) && i + 12 <= |JsPublicLabel + pub|
    ensures !OccursAt(JsPublicLabel + pub, PrivateLabel, i)
  {
    var s := JsPublicLabel + pub;
    if i == 0 {
      assert s[11] == ' ';
    } else {
      assert s[i + 11] == pub[i - 1];
      assert IsKeyChar(pub[i - 1]);
    }
    assert PrivateLabel[11] == ':';
    assert s[i..i + 12][11] == s[i + 11];
  }

  lemma PublicLineHasPublicLabel(pub: string)
    ensures Contains(JsPublicLabel + pub, PublicLabel)
  {
    OccursAtContains(JsPublicLabel + pub, PublicLabel, 0);
  }

  lemma PrivateLineHasPrivateLabel(priv: string)
    ensures Contains(JsPrivateLabel + priv, PrivateLabel)
  {
    OccursAtContains(JsPrivateLabel + priv, PrivateLabel, 0);
  }

  /** The first keygen line sets the private key. */
  lemma ScanPrivateLine(priv: string)
    requires IsKeyText(priv)
    ensures ScanLine(KeyScan(None, None), JsPrivateLabel + priv) == Some(KeyScan(Some(priv), None))
  {
    assert JsPrivateLabel + priv == "Private key" + ": " + priv;
    JavaKeyValueOfLine("Private key", priv);
    PrivateLineHasPrivateLabel(priv);
  }

  /** The second keygen line sets the public key. */
  lemma ScanPublicLine(st: KeyScan, pub: string)
    requires IsKeyText(pub)
    ensures ScanLine(st, JsPublicLabel + pub) == Some(st.(publicKey := Some(pub)))
  {
    assert JsPublicLabel + pub == "Public key" + ": " + pub;
    JavaKeyValueOfLine("Public key", pub);
    PublicLineHasNoPrivateLabel(pub);
    PublicLineHasPublicLabel(pub);
  }

  /** The Java line loop reads both keys out of the two keygen lines. */
  lemma JavaReadsKeygenLines(priv: string, pub: string)
    requires IsKeyText(priv) && IsKeyText(pub)
    ensures JavaRealityKeys(KeygenLines(priv, pub)) == Some((priv, pub))
  {
    var lines := KeygenLines(priv, pub);
    ScanPrivateLine(priv);
    ScanPublicLine(KeyScan(Some(priv), None), pub);
    assert lines[..1] == [lines[0]];
    assert lines[..1][..0] == [];
    assert ScanLines(lines[..1]) == Some(KeyScan(Some(priv), None));
    assert ScanLines(lines) == Some(KeyScan(Some(priv), Some(pub)));
  }

  /** The run of non-space characters at the start of `key + rest` is `key` when `rest` starts
      with a space. */
  lemma {:induction false} NonSpaceRun(key: string, rest: string)
    requires forall i :: 0 <= i < |key| ==> !IsJsSpace(key[i])
    requires rest != [] && IsJsSpace(rest[0])
    ensures LeadingRun(key + rest, IsNonSpace) == key
    decreases |key|
  {
    if key == [] {
      assert key + rest == rest;
    } else {
      assert (key + rest)[1..] == key[1..] + rest;
      NonSpaceRun(key[1..], rest);
      assert [key[0]] + key[1..] == key;
    }
  }

  /** The keygen output has no space before the public key's own space, other than the two
      spaces of the private-key label. */
  lemma OutputSpaces(priv: string, pub: string, k: nat)
    requires IsKeyText(priv) && IsKeyText(pub)
    requires k < |JsPrivateLabel| + |priv| + 1 + 6 && k != 7 && k != 12
    ensures KeygenOutput(priv, pub)[k] != ' '
  {
    var s := KeygenOutput(priv, pub);
    var p := |JsPrivateLabel|;
    var q := p + |priv| + 1;
    assert s == JsPrivateLabel + priv + "\n" + JsPublicLabel + (pub + "\n");
    if k < p {
      assert s[k] == JsPrivateLabel[k];
    } else if k < p + |priv| {
      assert s[k] == priv[k - p];
      KeyTextShape(priv);
    } else if k == p + |priv| {
      assert s[k] == '\n';
    } else {
      assert s[k] == JsPublicLabel[k - q];
    }
  }

  /** The private key is the first match in the keygen output. */
  lemma JsReadsPrivateKey(priv: string, pub: string)
    requires IsKeyText(priv) && IsKeyText(pub)
    ensures JsKeyMatch(KeygenOutput(priv, pub), JsPrivateLabel) == Some(priv)
  {
    var s := KeygenOutput(priv, pub);
    var p := |JsPrivateLabel|;
    var tail := "\n" + JsPublicLabel + pub + "\n";
    assert s == JsPrivateLabel + (priv + tail);
    assert s[..p] == JsPrivateLabel;
    assert s[p] == priv[0];
    KeyTextShape(priv);
    assert IsMatchAt(s, JsPrivateLabel, 0);
    assert s[p..] == priv + tail;
    NonSpaceRun(priv, tail);
  }

  lemma NoEarlyPublicMatch(priv: string, pub: string, j: nat)
    requires IsKeyText(priv) && IsKeyText(pub) && j < |JsPrivateLabel| + |priv| + 1
    ensures !IsMatchAt(KeygenOutput(priv, pub), JsPublicLabel, j)
  {
    var s := KeygenOutput(priv, pub);
    if j == 1 || j == 6 {
      assert s[j] == JsPrivateLabel[j];
    } else {
      OutputSpaces(priv, pub, j + 6);
    }
    assert s[j] != 'P' || s[j + 6] != ' ';
    if j + 12 <= |s| {
      assert s[j..j + 12][0] == s[j] && s[j..j + 12][6] == s[j + 6];
    }
  }

  /** The public key is the first match of its label: no earlier index matches. */
  lemma JsReadsPublicKey(priv: string, pub: string)
    requires IsKeyText(priv) && IsKeyText(pub)
    ensures JsKeyMatch(KeygenOutput(priv, pub), JsPublicLabel) == Some(pub)
  {
    PublicMatchAt(priv, pub);
    NoEarlyPublicMatches(priv, pub);
    KeyTextShape(pub);
    NonSpaceRun(pub, "\n");
    KeyMatchOf(KeygenOutput(priv, pub), JsPublicLabel, |JsPrivateLabel| + |priv| + 1, pub, "\n");
  }

  lemma NoEarlyPublicMatches(priv: string, pub: string)
    requires IsKeyText(priv) && IsKeyText(pub)
    ensures forall j :: 0 <= j < |JsPrivateLabel| + |priv| + 1 ==> !IsMatchAt(KeygenOutput(priv, pub), JsPublicLabel, j)
  {
    forall j | 0 <= j < |JsPrivateLabel| + |priv| + 1 ensures !IsMatchAt(KeygenOutput(priv, pub), JsPublicLabel, j) {
      NoEarlyPublicMatch(priv, pub, j);
    }
  }

  /** The first match, followed by the key and a whitespace-led rest, yields the key. */
  lemma KeyMatchOf(s: string, tag: string, q: nat, key: string, rest: string)
    requires IsMatchAt(s, tag, q) && forall j :: 0 <= j < q ==> !IsMatchAt(s, tag, j)
    requires s[q + |tag|..] == key + rest && LeadingRun(key + rest, IsNonSpace) == key
    ensures JsKeyMatch(s, tag) == Some(key)
  {
    FirstMatch(s, tag, q);
  }

  /** Where the public key's label stands in the keygen output, and what follows it. */
  lemma PublicMatchAt(priv: string, pub: string)
    requires IsKeyText(priv) && IsKeyText(pub)
    ensures var s := KeygenOutput(priv, pub);
            var q := |JsPrivateLabel| + |priv| + 1;
            IsMatchAt(s, JsPublicLabel, q) && s[q + |JsPublicLabel|..] == pub + "\n"
  {
    var s := KeygenOutput(priv, pub);
    var q := |JsPrivateLabel| + |priv| + 1;
    var head := JsPrivateLabel + priv + "\n";
    assert s == head + (JsPublicLabel + (pub + "\n"));
    assert |head| == q;
    assert s[q..q + |JsPublicLabel|] == JsPublicLabel;
    assert s[q + |JsPublicLabel|] == pub[0];
    KeyTextShape(pub);
    assert s[q + |JsPublicLabel|..] == pub + "\n";
  }

  /** A match with none before it is the one the search finds. */
  lemma FirstMatch(s: string, tag: string, q: nat)
    requires IsMatchAt(s, tag, q) && forall j :: 0 <= j < q ==> !IsMatchAt(s, tag, j)
    ensures MatchIndexFrom(s, tag, 0) == Some(q)
  {
  }

  /** The script's regular expressions read both keys out of the keygen output. */
  lemma JsReadsKeygenOutput(priv: string, pub: string)
    requires IsKeyText(priv) && IsKeyText(pub)
    ensures JsRealityKeys(KeygenOutput(priv, pub)) == Some((priv, pub))
  {
    JsReadsPrivateKey(priv, pub);
    JsReadsPublicKey(priv, pub);
  }

  /** On the keygen output the Java line loop and the script's regular expressions agree. */
  lemma KeyParsersAgree(priv: string, pub: string)
    requires IsKeyText(priv) && IsKeyText(pub)
    ensures JavaRealityKeys(KeygenLines(priv, pub)) == JsRealityKeys(KeygenOutput(priv, pub)) == Some((priv, pub))
  {
    JavaReadsKeygenLines(priv, pub);
    JsReadsKeygenOutput(priv, pub);
  }

  /** A tag line with nothing but whitespace after the colon makes Java's split throw. */
  lemma JavaEmptyValueThrows(head: string, ws: string)
    requires ':' !in head && forall k :: 0 <= k < |ws| ==> IsRegexSpace(ws[k])
    ensures JavaKeyValue(head + ":" + ws).None?
  {
    var line := head + ":" + ws;
    assert line == head + [':'] + ws;
    IndexOfCharAfter(head, ':', ws);
    assert line[..|head|] == head;
    assert line[|head| + 1..] == ws;
    LeadingRunAll(ws, IsRegexSpace);
    assert ws[|ws|..] == "";
    assert SplitColonRuns(line) == [head, ""];
    if head == "" {
      assert DropTrailingEmpty([head, ""]) == [];
    } else {
      assert DropTrailingEmpty([head, ""]) == [head];
    }
  }
}
