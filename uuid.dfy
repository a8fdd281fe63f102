/** Where the client id comes from. The scripts take a non-empty environment variable, else the
    built-in `DEFAULT_UUID` if it has the 8-4-4-4-12 hex shape, else `autoGenerateUUID`: the
    kernel's or `uuidgen`'s output when that has the shape, else `crypto.randomUUID()`, else a
    version-4 template filled from `Math.random`. */
module Uuid {
  import opened Wrappers
  import opened Strings
  import opened Numbers
  import opened Env
  import opened Hex

  const DefaultUuid: string := "9afd1229-b893-40c1-84dd-51e7ce204913"

  /** The group lengths of `/^[0-9a-f]{8}-[0-9a-f]{4}-[0-9a-f]{4}-[0-9a-f]{4}-[0-9a-f]{12}$/i`. */
  const UuidGroups: seq<nat> := [8, 4, 4, 4, 12]

  predicate AllHex(s: string) {
    forall i :: 0 <= i < |s| ==> IsHexDigitChar(s[i])
  }

  /** `s` is a run of hex digits of the first group's length, then, for each further group, a
      hyphen and a run of that length; nothing else. This mirrors the regular expression. */
  predicate MatchesGroups(s: string, groups: seq<nat>)
    decreases |groups|
  {
    if groups == [] then s == []
    else
      var n := groups[0];
      |s| >= n && AllHex(s[..n]) &&
      if |groups| == 1 then |s| == n
      else |s| > n && s[n] == '-' && MatchesGroups(s[n + 1..], groups[1..])
  }

  /** The case-insensitive UUID test of `getUUID` and `autoGenerateUUID`. */
  predicate IsUuidText(s: string) {
    MatchesGroups(s, UuidGroups)
  }

  predicate IsHyphenIndex(i: int) {
    i == 8 || i == 13 || i == 18 || i == 23
  }

  /** The same test, position by position. */
  predicate UuidShape(s: string) {
    |s| == 36 &&
    forall i :: 0 <= i < 36 ==> if IsHyphenIndex(i) then s[i] == '-' else IsHexDigitChar(s[i])
  }

  lemma MatchesGroupsStep(s: string, groups: seq<nat>)
    requires |groups| >= 2 && |s| > groups[0]
    ensures MatchesGroups(s, groups) <==>
              AllHex(s[..groups[0]]) && s[groups[0]] == '-' && MatchesGroups(s[groups[0] + 1..], groups[1..])
  {
  }

  /** The regular expression accepts exactly the 36-character texts with hyphens at 8, 13, 18
      and 23 and hex digits elsewhere. */
  lemma IsUuidTextIff(s: string)
    ensures IsUuidText(s) <==> UuidShape(s)
  {
    if UuidShape(s) {
      ShapeMatches(s);
    }
    if IsUuidText(s) {
      MatchesShape(s);
    }
  }

  lemma GroupTails()
    ensures var g := UuidGroups;
            g[1..] == [4, 4, 4, 12] && g[2..] == [4, 4, 12] && g[3..] == [4, 12] && g[4..] == [12]
            && g[1..][1..] == g[2..] && g[2..][1..] == g[3..] && g[3..][1..] == g[4..]
  {
  }

  lemma ShapeMatches(s: string)
    requires UuidShape(s)
    ensures IsUuidText(s)
  {
    var g := UuidGroups;
    GroupTails();
    var s1, s2, s3, s4 := s[9..], s[14..], s[19..], s[24..];
    assert s[9..][5..] == s2 && s[14..][5..] == s3 && s[19..][5..] == s4;
    assert AllHex(s4[..12]) by {
      forall i | 0 <= i < 12 ensures IsHexDigitChar(s4[i]) { assert s4[i] == s[24 + i]; }
    }
    assert MatchesGroups(s4, g[4..]);
    assert AllHex(s3[..4]) by {
      forall i | 0 <= i < 4 ensures IsHexDigitChar(s3[i]) { assert s3[i] == s[19 + i]; }
    }
    MatchesGroupsStep(s3, g[3..]);
    assert AllHex(s2[..4]) by {
      forall i | 0 <= i < 4 ensures IsHexDigitChar(s2[i]) { assert s2[i] == s[14 + i]; }
    }
    MatchesGroupsStep(s2, g[2..]);
    assert AllHex(s1[..4]) by {
      forall i | 0 <= i < 4 ensures IsHexDigitChar(s1[i]) { assert s1[i] == s[9 + i]; }
    }
    MatchesGroupsStep(s1, g[1..]);
    assert AllHex(s[..8]) by {
      forall i | 0 <= i < 8 ensures IsHexDigitChar(s[..8][i]) { assert s[..8][i] == s[i]; }
    }
    MatchesGroupsStep(s, g);
  }

  lemma MatchesShape(s: string)
    requires IsUuidText(s)
    ensures UuidShape(s)
  {
    var g := UuidGroups;
    GroupTails();
    var s1, s2, s3, s4 := s[9..], s[14..], s[19..], s[24..];
    MatchesGroupsStep(s, g);
    MatchesGroupsStep(s1, g[1..]);
    assert s1[5..] == s2;
    MatchesGroupsStep(s2, g[2..]);
    assert s2[5..] == s3;
    MatchesGroupsStep(s3, g[3..]);
    assert s3[5..] == s4;
    assert |s| == 36;
    forall i | 0 <= i < 36 && !IsHyphenIndex(i) ensures IsHexDigitChar(s[i]) {
      if i < 8 { assert s[i] == s[..8][i]; }
      else if i < 13 { assert s[i] == s1[..4][i - 9]; }
      else if i < 18 { assert s[i] == s2[..4][i - 14]; }
      else if i < 23 { assert s[i] == s3[..4][i - 19]; }
      else { assert s[i] == s4[..12][i - 24]; }
    }
  }

  /** Every text of the UUID shape has 36 characters. */
  lemma UuidTextLength(s: string)
    ensures IsUuidText(s) ==> |s| == 36
  {
    if IsUuidText(s) {
      MatchesShape(s);
    }
  }

  lemma DefaultUuidIsUuidText()
    ensures IsUuidText(DefaultUuid)
  {
    DefaultUuidShape();
    IsUuidTextIff(DefaultUuid);
  }

  lemma DefaultUuidShape()
    ensures UuidShape(DefaultUuid)
  {
    var s := DefaultUuid;
    assert |s| == 36;
    forall i | 0 <= i < 36 ensures if IsHyphenIndex(i) then s[i] == '-' else IsHexDigitChar(s[i]) {
    }
  }

  /** The version-4 layout `autoGenerateUUID` falls back to. */
  const Template: string := "xxxxxxxx-xxxx-4xxx-yxxx-xxxxxxxxxxxx"

  /** A value of `Math.random() * 16 | 0`. */
  type Nibble = n: nat | n < 16

  /** `t.replace(/[xy]/g, …)`: each `x` becomes the hex digit of the next value of `rnd`, each
      `y` the hex digit of `r & 0x3 | 0x8`, and every other character stays. `rnd(k)` is the
      value of the k-th call to `Math.random() * 16 | 0`. */
  function FillTemplate(t: string, rnd: nat -> Nibble, k: nat): (out: string)
    ensures |out| == |t|
    ensures forall i :: 0 <= i < |t| && t[i] != 'x' && t[i] != 'y' ==> out[i] == t[i]
    ensures forall i :: 0 <= i < |t| && t[i] == 'x' ==> IsLowerHexDigit(out[i])
    ensures forall i :: 0 <= i < |t| && t[i] == 'y' ==> IsVariantDigit(out[i])
  {
    if t == [] then []
    else if t[0] == 'x' then
      var rest := FillTemplate(t[1..], rnd, k + 1);
      LowerHexDigit(rnd(k));
      FilledCons(t, HexDigit(rnd(k)), rest);
      [HexDigit(rnd(k))] + rest
    else if t[0] == 'y' then
      var rest := FillTemplate(t[1..], rnd, k + 1);
      VariantDigit(rnd(k) % 4 + 8);
      FilledCons(t, HexDigit(rnd(k) % 4 + 8), rest);
      [HexDigit(rnd(k) % 4 + 8)] + rest
    else
      var rest := FillTemplate(t[1..], rnd, k);
      FilledCons(t, t[0], rest);
      [t[0]] + rest
  }

  /** One more template character filled in front of the rest. */
  lemma FilledCons(t: string, head: char, rest: string)
    requires t != [] && |rest| == |t| - 1
    requires forall i :: 0 <= i < |rest| && t[1..][i] != 'x' && t[1..][i] != 'y' ==> rest[i] == t[1..][i]
    requires forall i :: 0 <= i < |rest| && t[1..][i] == 'x' ==> IsLowerHexDigit(rest[i])
    requires forall i :: 0 <= i < |rest| && t[1..][i] == 'y' ==> IsVariantDigit(rest[i])
    requires t[0] != 'x' && t[0] != 'y' ==> head == t[0]
    requires t[0] == 'x' ==> IsLowerHexDigit(head)
    requires t[0] == 'y' ==> IsVariantDigit(head)
    ensures var out := [head] + rest;
            (forall i :: 0 <= i < |t| && t[i] != 'x' && t[i] != 'y' ==> out[i] == t[i])
            && (forall i :: 0 <= i < |t| && t[i] == 'x' ==> IsLowerHexDigit(out[i]))
            && (forall i :: 0 <= i < |t| && t[i] == 'y' ==> IsVariantDigit(out[i]))
  {
    var out := [head] + rest;
    forall i | 1 <= i < |t| ensures out[i] == rest[i - 1] && t[i] == t[1..][i - 1] {
    }
  }

  /** The variant digits of an RFC 4122 UUID. */
  predicate IsVariantDigit(c: char) {
    c == '8' || c == '9' || c == 'a' || c == 'b'
  }

  /** A digit or a lower-case letter from `a` to `f`. */
  predicate IsLowerHexDigit(c: char) {
    '0' <= c <= '9' || 'a' <= c <= 'f'
  }

  /** `HexDigit` writes lower-case digits. */
  lemma LowerHexDigit(n: nat)
    requires n < 16
    ensures IsLowerHexDigit(HexDigit(n))
  {
    assert forall i :: 0 <= i < 16 ==> IsLowerHexDigit(HexAlphabet[i]);
  }

  /** `r & 0x3 | 0x8` written in hex is one of the four variant digits. */
  lemma VariantDigit(n: nat)
    requires 8 <= n < 12
    ensures IsVariantDigit(HexDigit(n))
  {
    assert HexAlphabet[8] == '8' && HexAlphabet[9] == '9' && HexAlphabet[10] == 'a' && HexAlphabet[11] == 'b';
  }

  function TemplateCharAt(i: nat): char {
    if IsHyphenIndex(i) then '-' else if i == 14 then '4' else if i == 19 then 'y' else 'x'
  }

  lemma TemplateAt(i: nat)
    requires i < 36
    ensures |Template| == 36 && Template[i] == TemplateCharAt(i)
  {
  }

  lemma FilledShape(t: string, rnd: nat -> Nibble)
    requires |t| == 36 && forall i :: 0 <= i < 36 ==> t[i] == TemplateCharAt(i)
    ensures UuidShape(FillTemplate(t, rnd, 0))
    ensures FillTemplate(t, rnd, 0)[14] == '4' && IsVariantDigit(FillTemplate(t, rnd, 0)[19])
  {
    var u := FillTemplate(t, rnd, 0);
    forall i | 0 <= i < 36 ensures if IsHyphenIndex(i) then u[i] == '-' else IsHexDigitChar(u[i]) {
      assert t[i] == TemplateCharAt(i);
    }
    assert t[14] == TemplateCharAt(14) && t[19] == TemplateCharAt(19);
  }

  /** Whatever `Math.random` yields, the template fallback is a UUID with version digit '4'
      and variant digit 8, 9, a or b. */
  lemma TemplateIsUuid(rnd: nat -> Nibble)
    ensures IsUuidText(FillTemplate(Template, rnd, 0))
    ensures FillTemplate(Template, rnd, 0)[14] == '4' && IsVariantDigit(FillTemplate(Template, rnd, 0)[19])
  {
    var t := Template;
    forall i | 0 <= i < 36 ensures t[i] == TemplateCharAt(i) {
      TemplateAt(i);
    }
    FilledShape(t, rnd);
    IsUuidTextIff(FillTemplate(t, rnd, 0));
  }

  /** `autoGenerateUUID`. `system` is the trimmed-to-be output of the kernel file or
      `uuidgen` (`None` when the command fails), `crypto` the value of `crypto.randomUUID()`
      (`None` when that is unavailable), `rnd` the values `Math.random` would supply. */
  function AutoGenerateUuid(system: Option<string>, crypto: Option<string>, rnd: nat -> Nibble): (u: string)
    ensures system.Some? && IsUuidText(JsTrim(system.value)) ==> u == JsTrim(system.value)
    ensures !(system.Some? && IsUuidText(JsTrim(system.value))) && crypto.Some? ==> u == crypto.value
    ensures !(system.Some? && IsUuidText(JsTrim(system.value))) && crypto.None? ==>
              IsUuidText(u) && |u| == 36 && u[14] == '4' && IsVariantDigit(u[19])
  {
    TemplateIsUuid(rnd);
    UuidTextLength(if system.Some? then JsTrim(system.value) else "");
    if system.Some? && JsTrim(system.value) != "" && |JsTrim(system.value)| == 36
       && IsUuidText(JsTrim(system.value))
    then JsTrim(system.value)
    else if crypto.Some? then crypto.value
    else FillTemplate(Template, rnd, 0)
  }

  /** As long as `crypto.randomUUID()` keeps its promise, `autoGenerateUUID` returns a UUID. */
  lemma AutoGenerateIsUuid(system: Option<string>, crypto: Option<string>, rnd: nat -> Nibble)
    requires crypto.Some? ==> IsUuidText(crypto.value)
    ensures IsUuidText(AutoGenerateUuid(system, crypto, rnd))
  {
  }

  /** `getUUID` of vless-reality.js (variable VLESS_UUID) and startup.js (VMESS_UUID); `auto`
      is what `autoGenerateUUID()` would return. */
  function GetUuid(env: Environment, name: string, auto: string): (u: string)
    ensures Truthy(env, name).Some? ==> u == env[name]
    ensures Truthy(env, name).None? && IsUuidText(DefaultUuid) ==> u == DefaultUuid
    ensures Truthy(env, name).None? && !IsUuidText(DefaultUuid) ==> u == auto
  {
    if Truthy(env, name).Some? then env[name]
    else if DefaultUuid != "" && IsUuidText(DefaultUuid) then DefaultUuid
    else auto
  }

  /** Because the built-in default has the UUID shape, the generator is never reached: the id
      is the variable when it is non-empty and the default otherwise. */
  lemma GetUuidNeverGenerates(env: Environment, name: string, auto: string)
    ensures GetUuid(env, name, auto) == OrElse(env, name, DefaultUuid)
  {
    DefaultUuidIsUuidText();
  }

  /** The Java constructors: the variable when it is present, even empty; otherwise
      `UUID.randomUUID().toString()`, passed in as `random`. */
  function JavaUuid(env: Environment, name: string, random: string): (u: string)
    ensures name in env ==> u == env[name]
    ensures name !in env ==> u == random
  {
    GetOrDefault(env, name, random)
  }
}
