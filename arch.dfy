/** Choosing the Xray release archive. The Java servers classify the JVM's `os.arch` by
    substring tests on its lower-cased text; vless-reality.js classifies the trimmed output of
    `uname -m` by exact and prefix tests; vmess.js and startup.js always fetch the 64-bit
    archive. Every path ends in a name, never in an error. */
module Arch {
  import opened Wrappers
  import opened Strings

  const XrayVersion: string := "1.8.24"
  const ReleasePrefix: string := "https://github.com/XTLS/Xray-core/releases/download/v"

  /** The archive names the Java classifier can produce. */
  predicate IsJavaArch(a: string) {
    a == "64" || a == "arm64-v8a" || a == "arm32-v7a"
  }

  /** The archive names the script classifier can produce. */
  predicate IsJsArch(a: string) {
    IsJavaArch(a) || a == "arm32-v6" || a == "mips64" || a == "mips32" || a == "s390x"
    || a == "riscv64"
  }

  /** Java `detectArchitecture` applied to the value of `os.arch`: the value is lower-cased
      and then classified. */
  function JavaDetectArchitecture(osArch: string): (r: string)
    ensures IsJavaArch(r)
  {
    JavaArchOfLower(ToLower(osArch))
  }

  /** The substring tests of `detectArchitecture`, in the code's order, on lower-cased text. */
  function JavaArchOfLower(l: string): (r: string)
    ensures IsJavaArch(r)
    ensures r == "arm64-v8a" <==> !Contains(l, "amd64") && !Contains(l, "x86_64")
                                  && (Contains(l, "aarch64") || Contains(l, "arm64"))
    ensures r == "arm32-v7a" <==> !Contains(l, "amd64") && !Contains(l, "x86_64")
                                  && !Contains(l, "aarch64") && !Contains(l, "arm64") && Contains(l, "arm")
  {
    if Contains(l, "amd64") || Contains(l, "x86_64") then "64"
    else if Contains(l, "aarch64") || Contains(l, "arm64") then "arm64-v8a"
    else if Contains(l, "arm") then "arm32-v7a"
    else "64"
  }

  /** vless-reality.js `detectArchitecture`; `uname` is the command's output, `None` when the
      command fails. */
  function JsDetectArchitecture(uname: Option<string>): (r: string)
    ensures IsJsArch(r)
    ensures uname.None? ==> r == "64"
    ensures uname.Some? ==> r == JsArchOfMachine(JsTrim(uname.value))
  {
    match uname
    case None => "64"
    case Some(out) => JsArchOfMachine(JsTrim(out))
  }

  /** The script's table from a trimmed machine name to an archive name. */
  function JsArchOfMachine(a: string): (r: string)
    ensures IsJsArch(r)
    ensures a == "x86_64" || a == "amd64" ==> r == "64"
    ensures a == "aarch64" || a == "arm64" ==> r == "arm64-v8a"
    ensures a == "armv7" || a == "armv7l" ==> r == "arm32-v7a"
    ensures a == "armv6" || a == "armv6l" ==> r == "arm32-v6"
    ensures StartsWith(a, "mips64") ==> r == "mips64"
    ensures StartsWith(a, "mips") && !StartsWith(a, "mips64") ==> r == "mips32"
    ensures a == "s390x" ==> r == "s390x"
    ensures StartsWith(a, "riscv64") ==> r == "riscv64"
    ensures (a !in {"x86_64", "amd64", "aarch64", "arm64", "armv7", "armv7l", "armv6", "armv6l", "s390x"}
             && !StartsWith(a, "mips") && !StartsWith(a, "riscv64")) ==> r == "64"
  {
    MachinePrefixes(a);
    if a == "x86_64" || a == "amd64" then "64"
    else if a == "aarch64" || a == "arm64" then "arm64-v8a"
    else if a == "armv7" || a == "armv7l" then "arm32-v7a"
    else if a == "armv6" || a == "armv6l" then "arm32-v6"
    else if StartsWith(a, "mips64") then "mips64"
    else if StartsWith(a, "mips") then "mips32"
    else if a == "s390x" then "s390x"
    else if StartsWith(a, "riscv64") then "riscv64"
    else "64"
  }

  /** What the table's prefix tests say about a name's first characters. */
  lemma MachinePrefixes(a: string)
    ensures StartsWith(a, "mips64") ==> StartsWith(a, "mips")
    ensures StartsWith(a, "mips") ==> a[0] == 'm'
    ensures StartsWith(a, "riscv64") ==> a[0] == 'r'
  {
    if StartsWith(a, "mips64") {
      assert a[..4] == a[..6][..4];
    }
    if StartsWith(a, "mips") {
      assert a[0] == a[..4][0];
    }
    if StartsWith(a, "riscv64") {
      assert a[0] == a[..7][0];
    }
  }

  /** The archive URL of the given architecture name. */
  function DownloadUrl(arch: string): (url: string)
    ensures StartsWith(url, ReleasePrefix)
  {
    ReleasePrefix + XrayVersion + "/Xray-linux-" + arch + ".zip"
  }

  /** The architecture name a release URL names, if it is one. */
  function ArchOfUrl(url: string): (r: Option<string>)
  {
    var head := ReleasePrefix + XrayVersion + "/Xray-linux-";
    if |url| >= |head| + 4 && url[..|head|] == head && url[|url| - 4..] == ".zip"
    then Some(url[|head|..|url| - 4])
    else None
  }

  /** The URL names the architecture it was built from. */
  lemma ArchOfDownloadUrl(arch: string)
    ensures ArchOfUrl(DownloadUrl(arch)) == Some(arch)
  {
    var head := ReleasePrefix + XrayVersion + "/Xray-linux-";
    var url := DownloadUrl(arch);
    assert url == head + arch + ".zip";
    assert url[..|head|] == head;
    assert url[|url| - 4..] == ".zip";
    assert url[|head|..|url| - 4] == arch;
  }

  /** Distinct architectures fetch distinct archives. */
  lemma DownloadUrlInjective(a: string, b: string)
    requires DownloadUrl(a) == DownloadUrl(b)
    ensures a == b
  {
    ArchOfDownloadUrl(a);
    ArchOfDownloadUrl(b);
  }

  /** The machine names below are already lower case. */
  lemma LowerCaseNames(s: string)
    requires s == "amd64" || s == "x86_64" || s == "aarch64" || s == "armv7l" || s == "armv6l" || s == "mips64"
    ensures ToLower(s) == s
  {
    ToLowerNoop(s);
  }

  lemma JavaOnAmd64()
    ensures JavaDetectArchitecture("amd64") == "64"
  {
    LowerCaseNames("amd64");
    OccursAtContains("amd64", "amd64", 0);
  }

  lemma JavaOnX8664()
    ensures JavaDetectArchitecture("x86_64") == "64"
  {
    LowerCaseNames("x86_64");
    OccursAtContains("x86_64", "x86_64", 0);
  }

  lemma JavaOnAarch64()
    ensures JavaDetectArchitecture("aarch64") == "arm64-v8a"
  {
    LowerCaseNames("aarch64");
    JavaTableOnAarch64();
  }

  lemma JavaTableOnAarch64()
    ensures JavaArchOfLower("aarch64") == "arm64-v8a"
  {
    PairAbsent("aarch64", "amd64", 0);
    FirstCharAbsent("aarch64", "x86_64");
    OccursAtContains("aarch64", "aarch64", 0);
  }

  lemma JavaOnArm(a: string)
    requires a == "armv7l" || a == "armv6l"
    ensures JavaDetectArchitecture(a) == "arm32-v7a"
  {
    LowerCaseNames(a);
    JavaTableOnArm(a);
  }

  lemma JavaTableOnArm(a: string)
    requires a == "armv7l" || a == "armv6l"
    ensures JavaArchOfLower(a) == "arm32-v7a"
  {
    PairAbsent(a, "amd64", 0);
    FirstCharAbsent(a, "x86_64");
    PairAbsent(a, "aarch64", 0);
    PairAbsent(a, "arm64", 2);
    OccursAtContains(a, "arm", 0);
  }

  lemma JavaOnMips64()
    ensures JavaDetectArchitecture("mips64") == "64"
  {
    LowerCaseNames("mips64");
    JavaFallback("mips64");
  }

  /** Text with neither an `a` nor an `x` in it matches no Java rule. */
  lemma JavaFallback(s: string)
    requires forall i :: 0 <= i < |s| ==> s[i] != 'a' && s[i] != 'x'
    ensures JavaArchOfLower(s) == "64"
  {
    FirstCharAbsent(s, "amd64");
    FirstCharAbsent(s, "x86_64");
    FirstCharAbsent(s, "aarch64");
    FirstCharAbsent(s, "arm64");
    FirstCharAbsent(s, "arm");
  }

  /** On x86-64 machines, whatever spelling the JVM or `uname -m` uses, both languages fetch the
      64-bit archive. */
  lemma ClassifiersAgreeOnX8664(uname: string)
    requires JsTrim(uname) == "x86_64" || JsTrim(uname) == "amd64"
    ensures JsDetectArchitecture(Some(uname)) == "64"
    ensures JavaDetectArchitecture("amd64") == "64" && JavaDetectArchitecture("x86_64") == "64"
  {
    JavaOnAmd64();
    JavaOnX8664();
  }

  lemma ClassifiersAgreeOnAarch64(uname: string)
    requires JsTrim(uname) == "aarch64"
    ensures JsDetectArchitecture(Some(uname)) == JavaDetectArchitecture("aarch64") == "arm64-v8a"
  {
    JavaOnAarch64();
  }

  lemma ClassifiersAgreeOnArmv7(uname: string)
    requires JsTrim(uname) == "armv7l"
    ensures JsDetectArchitecture(Some(uname)) == JavaDetectArchitecture("armv7l") == "arm32-v7a"
  {
    JsOnArmv7();
    JavaOnArm("armv7l");
  }

  lemma JsOnArmv7()
    ensures JsArchOfMachine("armv7l") == "arm32-v7a"
  {
    var a := "armv7l";
    assert |a| == 6 && a[4] == '7';
  }

  /** On ARMv6 machines the two classifiers part ways: Java fetches the ARMv7 archive. */
  lemma ClassifiersDisagreeOnArmv6(uname: string)
    requires JsTrim(uname) == "armv6l"
    ensures JsDetectArchitecture(Some(uname)) == "arm32-v6"
    ensures JavaDetectArchitecture("armv6l") == "arm32-v7a"
  {
    JsOnArmv6();
    JavaOnArm("armv6l");
  }

  lemma JsOnArmv6()
    ensures JsArchOfMachine("armv6l") == "arm32-v6"
  {
    var a := "armv6l";
    assert a != "armv7l" by { assert a[4] == '6'; }
    assert a != "armv7" && a != "x86_64" && a != "aarch64" by { assert |a| == 6; }
  }

  /** `mips64…` is tested before the plain `mips` prefix can claim it; Java has no MIPS rule
      and falls back to the x86-64 archive. */
  lemma ClassifiersDisagreeOnMips64(uname: string)
    requires StartsWith(JsTrim(uname), "mips64")
    ensures JsDetectArchitecture(Some(uname)) == "mips64"
    ensures JavaDetectArchitecture("mips64") == "64"
  {
    JsOnMips64(JsTrim(uname));
    JavaOnMips64();
  }

  lemma JsOnMips64(a: string)
    requires StartsWith(a, "mips64")
    ensures JsArchOfMachine(a) == "mips64"
  {
    assert a[0] == 'm';
  }

  /** `p` cannot occur in `s` when its first character does not. */
  lemma FirstCharAbsent(s: string, p: string)
    requires |p| > 0 && forall i :: 0 <= i < |s| ==> s[i] != p[0]
    ensures !Contains(s, p)
  {
    ContainsIff(s, p);
    forall i | 0 <= i && i + |p| <= |s| ensures !OccursAt(s, p, i) {
      assert s[i..i + |p|][0] == s[i];
    }
  }

  /** `p` cannot occur in `s` when `p`'s characters `k` and `k + 1` never stand side by side
      in `s`. */
  lemma PairAbsent(s: string, p: string, k: nat)
    requires k + 1 < |p| && forall i :: 0 <= i < |s| - 1 ==> s[i] != p[k] || s[i + 1] != p[k + 1]
    ensures !Contains(s, p)
  {
    ContainsIff(s, p);
    forall i | 0 <= i && i + |p| <= |s| ensures !OccursAt(s, p, i) {
      assert s[i..i + |p|][k] == s[i + k] && s[i..i + |p|][k + 1] == s[i + k + 1];
    }
  }
}
