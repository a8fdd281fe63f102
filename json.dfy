/** JSON documents as ordered trees, and the two writers that turn them into text: Gson, the
    Java servers' `GsonBuilder().setPrettyPrinting()` instance, and JavaScript's
    `JSON.stringify`, compact or with a two-space indent. A member list keeps insertion order,
    as Gson's `JsonObject` and a JavaScript object literal both do. */
module Json {
  import opened Wrappers
  import opened Numbers
  import opened Hex

  datatype Json =
    | Null
    | Bool(b: bool)
    | Number(n: int)
    | Str(s: string)
    | Arr(items: seq<Json>)
    | Obj(members: seq<(string, Json)>)

  /** The value of the first member named `key`: of an object's members, of a flat object's
      string pairs, or of a query's parameters. */
  function Lookup<V>(members: seq<(string, V)>, key: string): (r: Option<V>)
    ensures r.None? <==> forall i :: 0 <= i < |members| ==> members[i].0 != key
    ensures r.Some? ==> (key, r.value) in members
  {
    if members == [] then None
    else if members[0].0 == key then Some(members[0].1)
    else Lookup(members[1..], key)
  }

  /** The member at index `i` is the one found when no earlier member has its name. */
  lemma {:induction false} LookupAt<V>(members: seq<(string, V)>, i: nat)
    requires i < |members|
    requires forall j :: 0 <= j < i ==> members[j].0 != members[i].0
    ensures Lookup(members, members[i].0) == Some(members[i].1)
    decreases i
  {
    if i > 0 {
      LookupAt(members[1..], i - 1);
    }
  }

  /** Gson `JsonObject.add` / `addProperty`: a new name is appended, an existing name keeps its
      place and takes the new value. */
  function Put(members: seq<(string, Json)>, key: string, value: Json): (r: seq<(string, Json)>)
    ensures Lookup(r, key) == Some(value)
    ensures forall k :: k != key ==> Lookup(r, k) == Lookup(members, k)
    ensures Lookup(members, key).None? ==> r == members + [(key, value)]
    ensures Lookup(members, key).Some? ==> |r| == |members|
  {
    if members == [] then [(key, value)]
    else if members[0].0 == key then
      LookupCons((key, value), members[1..]);
      LookupCons(members[0], members[1..]);
      [(key, value)] + members[1..]
    else
      var rest := Put(members[1..], key, value);
      LookupCons(members[0], rest);
      LookupCons(members[0], members[1..]);
      assert members + [(key, value)] == [members[0]] + (members[1..] + [(key, value)]);
      [members[0]] + rest
  }

  /** Looking up in a list that starts with `m`. */
  lemma LookupCons(m: (string, Json), rest: seq<(string, Json)>)
    ensures forall k :: Lookup([m] + rest, k) == if m.0 == k then Some(m.1) else Lookup(rest, k)
  {
    assert ([m] + rest)[1..] == rest;
  }

  /** Where the name is already present, `Put` writes the new value over the first member
      with that name and leaves every other member where it was. */
  lemma {:induction false} PutAt(members: seq<(string, Json)>, key: string, value: Json, i: nat)
    requires i < |members| && members[i].0 == key
    requires forall j :: 0 <= j < i ==> members[j].0 != key
    ensures Put(members, key, value) == members[i := (key, value)]
  {
    if i > 0 {
      PutAt(members[1..], key, value, i - 1);
      assert members[1..][i - 1 := (key, value)] == members[i := (key, value)][1..];
    }
  }

  /** Gson `JsonObject.add` / `addProperty` as the caller sees it: a new name is appended, an
      existing one is overwritten in place. */
  method Add(members: seq<(string, Json)>, key: string, value: Json) returns (r: seq<(string, Json)>)
    ensures (forall i :: 0 <= i < |members| ==> members[i].0 != key) ==> r == members + [(key, value)]
    ensures forall i :: 0 <= i < |members| && members[i].0 == key && (forall j :: 0 <= j < i ==> members[j].0 != key)
                        ==> r == members[i := (key, value)]
  {
    r := Put(members, key, value);
    forall i | 0 <= i < |members| && members[i].0 == key && (forall j :: 0 <= j < i ==> members[j].0 != key)
      ensures r == members[i := (key, value)]
    {
      PutAt(members, key, value, i);
    }
  }

  /** The first two members both servers add to their inbound: the port and the protocol. */
  method BuildInboundHead(port: int, protocol: string) returns (members: seq<(string, Json)>)
    ensures members == [("port", Number(port)), ("protocol", Str(protocol))]
  {
    members := Add([], "port", Number(port));
    assert members == [("port", Number(port))];
    members := Add(members, "protocol", Str(protocol));
  }

  /** One step of a path into a document: a member name or an array index. */
  datatype Step = Key(name: string) | Index(i: nat)

  function At(v: Json, path: seq<Step>): Option<Json>
    decreases |path|
  {
    if path == [] then Some(v)
    else match (v, path[0])
      case (Obj(ms), Key(k)) =>
        (match Lookup(ms, k)
         case Some(child) => At(child, path[1..])
         case None => None)
      case (Arr(items), Index(i)) => if i < |items| then At(items[i], path[1..]) else None
      case _ => None
  }

  /** A path that starts at a member found at index `i`. */
  lemma AtMember(v: Json, i: nat, path: seq<Step>)
    requires v.Obj? && i < |v.members|
    requires forall j :: 0 <= j < i ==> v.members[j].0 != v.members[i].0
    requires path != [] && path[0] == Key(v.members[i].0)
    ensures At(v, path) == At(v.members[i].1, path[1..])
  {
    LookupAt(v.members, i);
  }

  /** A path that starts at an array item. */
  lemma AtItem(v: Json, path: seq<Step>)
    requires v.Arr? && path != [] && path[0].Index? && path[0].i < |v.items|
    ensures At(v, path) == At(v.items[path[0].i], path[1..])
  {
  }

  /** Following a path in two parts: the first part, then the second from where it led. */
  lemma {:induction false} AtAppend(v: Json, p: seq<Step>, q: seq<Step>, w: Json)
    requires At(v, p) == Some(w)
    ensures At(v, p + q) == At(w, q)
    decreases |p|
  {
    if p != [] {
      assert (p + q)[0] == p[0] && (p + q)[1..] == p[1..] + q;
      match (v, p[0])
      case (Obj(ms), Key(k)) =>
        AtAppend(Lookup(ms, k).value, p[1..], q, w);
      case (Arr(items), Index(i)) =>
        AtAppend(items[i], p[1..], q, w);
    } else {
      assert p + q == q;
    }
  }

  /** A JavaScript number that `parseInt` produced: NaN is written as `null`. */
  function NumberOrNull(n: Option<int>): (r: Json)
    ensures n.None? <==> r == Null
    ensures n.Some? ==> r == Number(n.value)
  {
    match n
    case Some(x) => Number(x)
    case None => Null
  }

  /** A Java string that may be `null`: `addProperty(name, (String) null)` stores JSON null. */
  function StrOrNull(s: Option<string>): (r: Json)
    ensures s.None? <==> r == Null
    ensures s.Some? ==> r == Str(s.value)
  {
    match s
    case Some(x) => Str(x)
    case None => Null
  }

  /** The two string escapers. */
  datatype Dialect = Js | Gson

  /** `\u` and four lower-case hex digits of a code unit below 2^16. */
  function UnicodeEscape(n: nat): (r: string)
    requires n < 0x1_0000
    ensures |r| == 6
  {
    ['\\', 'u', HexDigit(n / 4096), HexDigit((n / 256) % 16), HexDigit((n / 16) % 16), HexDigit(n % 16)]
  }

  /** Characters Gson's HTML-safe writer escapes although JSON allows them raw. */
  predicate IsHtmlSensitive(c: char) {
    c == '<' || c == '>' || c == '&' || c == '=' || c == '\'' || c as int == 0x2028 || c as int == 0x2029
  }

  /** How one character appears inside a quoted string. */
  function EscapeChar(c: char, d: Dialect): (r: string)
    ensures 1 <= |r| <= 6
    ensures r[0] == '\\' || (r == [c] && c != '"' && c != '\\' && c as int >= 0x20)
  {
    var n := c as int;
    if c == '"' then "\\\""
    else if c == '\\' then "\\\\"
    else if n == 0x08 then "\\b"
    else if n == 0x09 then "\\t"
    else if n == 0x0A then "\\n"
    else if n == 0x0C then "\\f"
    else if n == 0x0D then "\\r"
    else if n < 0x20 then UnicodeEscape(n)
    else if d == Gson && IsHtmlSensitive(c) then UnicodeEscape(n)
    else [c]
  }

  function EscapeAll(s: string, d: Dialect): (r: string)
    ensures |s| <= |r|
  {
    if s == [] then "" else EscapeChar(s[0], d) + EscapeAll(s[1..], d)
  }

  function Quote(s: string, d: Dialect): (r: string)
    ensures |r| >= 2 && r[0] == '"'
  {
    "\"" + EscapeAll(s, d) + "\""
  }

  /** `parts` separated by `sep`. */
  function Join(parts: seq<string>, sep: string): string {
    if parts == [] then ""
    else if |parts| == 1 then parts[0]
    else parts[0] + sep + Join(parts[1..], sep)
  }

  /** Compact output (`JSON.stringify(v)`) or two-space indentation (Gson's pretty printer,
      `JSON.stringify(v, null, 2)`). */
  datatype Layout = Compact | Indented

  function Spaces(n: nat): (r: string)
    ensures |r| == n && forall i :: 0 <= i < n ==> r[i] == ' '
  {
    if n == 0 then "" else " " + Spaces(n - 1)
  }

  /** What starts a new line at the given depth: nothing in compact output. */
  function Break(layout: Layout, depth: nat): string {
    if layout == Compact then "" else "\n" + Spaces(2 * depth)
  }

  function Colon(layout: Layout): string {
    if layout == Compact then ":" else ": "
  }

  /** The text of a document. Gson leaves out object members whose value is null;
      `JSON.stringify` writes them. */
  function Write(v: Json, d: Dialect, layout: Layout, depth: nat): string
    decreases v
  {
    match v
    case Null => "null"
    case Bool(b) => if b then "true" else "false"
    case Number(n) => IntToString(n)
    case Str(s) => Quote(s, d)
    case Arr(items) =>
      if items == [] then "[]"
      else
        "[" + Break(layout, depth + 1) + Join(WriteItems(items, d, layout, depth + 1), "," + Break(layout, depth + 1))
        + Break(layout, depth) + "]"
    case Obj(ms) =>
      var parts := WriteMembers(ms, d, layout, depth + 1);
      if parts == [] then "{}"
      else
        "{" + Break(layout, depth + 1) + Join(parts, "," + Break(layout, depth + 1))
        + Break(layout, depth) + "}"
  }

  function WriteItems(items: seq<Json>, d: Dialect, layout: Layout, depth: nat): (r: seq<string>)
    ensures |r| == |items|
    decreases items
  {
    if items == [] then [] else [Write(items[0], d, layout, depth)] + WriteItems(items[1..], d, layout, depth)
  }

  function WriteMembers(ms: seq<(string, Json)>, d: Dialect, layout: Layout, depth: nat): (r: seq<string>)
    ensures |r| <= |ms|
    ensures d == Js ==> |r| == |ms|
    decreases ms
  {
    if ms == [] then []
    else
      var rest := WriteMembers(ms[1..], d, layout, depth);
      assert ms[0] in ms && ms[0].1 < ms[0];
      if d == Gson && ms[0].1 == Null then rest
      else [Quote(ms[0].0, d) + Colon(layout) + Write(ms[0].1, d, layout, depth)] + rest
  }

  /** `JSON.stringify(v)`. */
  function Stringify(v: Json): string {
    Write(v, Js, Compact, 0)
  }

  /** `new GsonBuilder().setPrettyPrinting().create().toJson(v)`. */
  function GsonPretty(v: Json): string {
    Write(v, Gson, Indented, 0)
  }

  /** `JSON.stringify(v, null, 2)`. */
  function StringifyIndented(v: Json): string {
    Write(v, Js, Indented, 0)
  }

  /** An object whose members are all strings, such as the VMess share payload. */
  function FlatObject(ms: seq<(string, string)>): (v: Json)
    ensures v.Obj? && |v.members| == |ms|
    ensures forall i :: 0 <= i < |ms| ==> v.members[i] == (ms[i].0, Str(ms[i].1))
  {
    if ms == [] then Obj([])
    else Obj([(ms[0].0, Str(ms[0].1))] + FlatObject(ms[1..]).members)
  }

  /** The written member texts of a flat object. */
  function FlatMemberTexts(ms: seq<(string, string)>, d: Dialect, layout: Layout): (r: seq<string>)
    ensures |r| == |ms|
  {
    if ms == [] then [] else [Quote(ms[0].0, d) + Colon(layout) + Quote(ms[0].1, d)] + FlatMemberTexts(ms[1..], d, layout)
  }

  /** No member of a flat object is null, so both writers write every member, in order. */
  lemma {:induction false} WriteFlatMembers(ms: seq<(string, string)>, d: Dialect, layout: Layout, depth: nat)
    ensures WriteMembers(FlatObject(ms).members, d, layout, depth) == FlatMemberTexts(ms, d, layout)
  {
    if ms != [] {
      var fo := FlatObject(ms).members;
      assert fo[1..] == FlatObject(ms[1..]).members;
      WriteFlatMembers(ms[1..], d, layout, depth);
    }
  }

  /** The text of a flat object at the top level. */
  lemma WriteFlat(ms: seq<(string, string)>, d: Dialect, layout: Layout)
    ensures ms == [] ==> Write(FlatObject(ms), d, layout, 0) == "{}"
    ensures ms != [] ==>
              Write(FlatObject(ms), d, layout, 0)
              == "{" + Break(layout, 1) + Join(FlatMemberTexts(ms, d, layout), "," + Break(layout, 1))
                 + Break(layout, 0) + "}"
  {
    WriteFlatMembers(ms, d, layout, 1);
  }
}
