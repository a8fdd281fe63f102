/** Registering the node with the management API after the link is known. vless-reality.js
    posts unless SKIP_NODE_UPLOAD is `true` or `1`, to NODE_API_URL or the built-in endpoint.
    vmess.js skips only on `true`, takes NODE_API_URL without asking, and otherwise asks on a
    terminal, skipping when there is none. Both name the node after a guess at the region of
    the server's address, post `{name, config}` as JSON, and count a 2xx answer as success. */
module Registrar {
  import opened Wrappers
  import opened Strings
  import opened Json
  import opened Http
  import JsonRead
  import Env

  const DefaultApiUrl: string := "http://103.69.129.79:8081/api/v1/groups/2/nodes"
  const VlessNodeKind: string := "VLESS-Reality"
  const VmessNodeKind: string := "VMess"

  /** `guessLocationFromIP` (vless-reality.js) and `getLocationFromIP` (vmess.js): an ordered
      table of address prefixes. No prefix of the table is a prefix of another, so each region
      holds exactly for its own prefixes, whatever the order of the tests. */
  function GuessLocation(ip: string): (loc: string)
    ensures loc == "HK" <==> StartsWith(ip, "103.") || StartsWith(ip, "119.")
    ensures loc == "US" <==> StartsWith(ip, "172.") || StartsWith(ip, "45.")
    ensures loc == "EU" <==> StartsWith(ip, "89.")
    ensures loc == "Node" <==> !StartsWith(ip, "103.") && !StartsWith(ip, "119.") && !StartsWith(ip, "172.")
                               && !StartsWith(ip, "45.") && !StartsWith(ip, "89.")
  {
    PrefixHeads(ip);
    if StartsWith(ip, "103.") || StartsWith(ip, "119.") then "HK"
    else if StartsWith(ip, "172.") || StartsWith(ip, "45.") then "US"
    else if StartsWith(ip, "89.") then "EU"
    else "Node"
  }

  /** The characters that tell the prefixes of the table apart. */
  lemma PrefixHeads(ip: string)
    ensures StartsWith(ip, "103.") ==> ip[0] == '1' && ip[1] == '0'
    ensures StartsWith(ip, "119.") ==> ip[0] == '1' && ip[1] == '1'
    ensures StartsWith(ip, "172.") ==> ip[0] == '1' && ip[1] == '7'
    ensures StartsWith(ip, "45.") ==> ip[0] == '4'
    ensures StartsWith(ip, "89.") ==> ip[0] == '8'
  {
    if |ip| >= 2 {
      assert ip[..2][0] == ip[0] && ip[..2][1] == ip[1];
    }
  }

  /** Only the first four characters of the address decide the region. */
  lemma GuessLocationByHead(ip: string)
    requires |ip| >= 4
    ensures GuessLocation(ip) == GuessLocation(ip[..4])
  {
    var head := ip[..4];
    assert StartsWith(ip, "103.") <==> StartsWith(head, "103.");
    assert StartsWith(ip, "119.") <==> StartsWith(head, "119.");
    assert StartsWith(ip, "172.") <==> StartsWith(head, "172.");
    assert ip[..3] == head[..3];
    assert StartsWith(ip, "45.") <==> StartsWith(head, "45.");
    assert StartsWith(ip, "89.") <==> StartsWith(head, "89.");
  }

  lemma GuessLocationExamples()
    ensures GuessLocation("103.1.2.3") == "HK"
    ensures GuessLocation("8.8.8.8") == "Node"
  {
    assert StartsWith("103.1.2.3", "103.");
    var google := "8.8.8.8";
    assert google[..3][1] == '.';
    assert google[..4][0] == '8' && google[..3][0] == '8';
  }

  /** The node name `${location}-${kind}-${port}`. */
  function NodeName(location: string, kind: string, port: string): string {
    location + "-" + kind + "-" + port
  }

  /** The name can be taken apart again: the region is everything before the first hyphen, and
      a port without a hyphen is everything after the last. */
  lemma NodeNameParts(ip: string, kind: string, port: string)
    ensures var loc := GuessLocation(ip);
            SplitFirst(NodeName(loc, kind, port), '-') == Some((loc, kind + "-" + port))
    ensures '-' !in port ==>
              SplitLast(NodeName(GuessLocation(ip), kind, port), '-') == Some((GuessLocation(ip) + "-" + kind, port))
  {
    var loc := GuessLocation(ip);
    assert '-' !in loc;
    assert NodeName(loc, kind, port) == loc + ['-'] + (kind + "-" + port);
    SplitFirstOf(loc, '-', kind + "-" + port);
    if '-' !in port {
      assert NodeName(loc, kind, port) == (loc + "-" + kind) + ['-'] + port;
      SplitLastOf(loc + "-" + kind, '-', port);
    }
  }

  /** The request body `JSON.stringify({ name, config })`. */
  function UploadBody(name: string, link: string): string {
    Stringify(FlatObject([("name", name), ("config", link)]))
  }

  /** The API reads the name and the share link back out of the body. */
  lemma UploadBodyReadBack(name: string, link: string)
    ensures JsonRead.ParseFlatObject(UploadBody(name, link)) == Some([("name", name), ("config", link)])
  {
    JsonRead.ReadWrittenFlatObject([("name", name), ("config", link)], Js, Compact);
  }

  /** What a registration step sends, if anything. */
  datatype Upload = NoUpload | Post(url: string, body: string)

  /** What the API did with the request: answered with a status, failed, or timed out. */
  datatype Reply = Status(code: int) | RequestError | TimedOut

  /** How the registration step ended. `Fatal` is an error that leaves the step and reaches
      `main`'s handler, which exits 1 before Xray is started. */
  datatype Report = Skipped | Uploaded | Refused(code: int) | Undelivered | Fatal

  predicate SkipRequested(env: Env.Environment, values: set<string>) {
    "SKIP_NODE_UPLOAD" in env && env["SKIP_NODE_UPLOAD"] in values
  }

  /** vless-reality.js `uploadNodeInfo`: what it posts, and where. */
  function VlessUploadPlan(env: Env.Environment, link: string, ip: string, port: string): (u: Upload)
    ensures u.NoUpload? <==> SkipRequested(env, {"true", "1"})
    ensures u.Post? ==>
              u.url == Env.OrElse(env, "NODE_API_URL", DefaultApiUrl)
              && JsonRead.ParseFlatObject(u.body)
                 == Some([("name", NodeName(GuessLocation(ip), VlessNodeKind, port)), ("config", link)])
  {
    var name := NodeName(GuessLocation(ip), VlessNodeKind, port);
    UploadBodyReadBack(name, link);
    if SkipRequested(env, {"true", "1"}) then NoUpload
    else Post(Env.OrElse(env, "NODE_API_URL", DefaultApiUrl), UploadBody(name, link))
  }

  /** The first character of a URL scheme, and the ones after it. */
  predicate IsSchemeStart(c: char) {
    'a' <= c <= 'z' || 'A' <= c <= 'Z'
  }

  predicate IsSchemeChar(c: char) {
    IsSchemeStart(c) || '0' <= c <= '9' || c == '+' || c == '-' || c == '.'
  }

  /** The text opens with a URL scheme and its colon. Text without one is rejected by the URL
      parser of `fetch` and of `new URL`. */
  predicate HasScheme(url: string) {
    match IndexOfChar(url, ':')
    case None => false
    case Some(i) => i > 0 && IsSchemeStart(url[0]) && forall j :: 1 <= j < i ==> IsSchemeChar(url[j])
  }

  /** The vless-reality.js request and its outcome: every failure, an unparsable URL included,
      is caught inside `uploadNodeInfo`, so the step never ends the process. */
  function VlessUpload(u: Upload, reply: Reply): (r: Report)
    ensures r != Fatal
    ensures r == Skipped <==> u.NoUpload?
    ensures r == Uploaded <==> u.Post? && HasScheme(u.url) && reply.Status? && IsOk(reply.code)
  {
    match u
    case NoUpload => Skipped
    case Post(url, _) =>
      if !HasScheme(url) then Undelivered
      else match reply
        case Status(code) => if IsOk(code) then Uploaded else Refused(code)
        case _ => Undelivered
  }

  /** vmess.js `uploadNodeInfo` up to the request: the `apiUrl` it ends with, `None` where it
      returns early. `isTty` is `process.stdin.isTTY`; `choice` and `custom` are the raw answers
      to the two prompts, read only on a terminal. */
  method ResolveEndpoint(env: Env.Environment, isTty: bool, choice: string, custom: string)
    returns (apiUrl: Option<string>)
    ensures apiUrl == Endpoint(env, isTty, choice, custom)
    ensures apiUrl.Some? ==> apiUrl.value != ""
    ensures apiUrl.Some? ==> apiUrl.value == Env.OrElse(env, "NODE_API_URL", "") || apiUrl.value == DefaultApiUrl
                             || apiUrl.value == JsTrim(custom)
  {
    if "SKIP_NODE_UPLOAD" in env && env["SKIP_NODE_UPLOAD"] == "true" {
      return None;
    }
    apiUrl := Env.Truthy(env, "NODE_API_URL");
    if apiUrl.None? && isTty {
      var answer := JsTrim(choice);
      if answer == "1" {
        apiUrl := Some(DefaultApiUrl);
      } else if answer == "2" {
        var customUrl := JsTrim(custom);
        if customUrl == "" {
          return None;
        }
        apiUrl := Some(customUrl);
      } else {
        return None;
      }
    } else if apiUrl.None? {
      return None;
    }
  }

  /** The endpoint table of vmess.js: skip on `SKIP_NODE_UPLOAD=true`; a non-empty
      NODE_API_URL as is; no terminal, skip; answer `1`, the built-in endpoint; answer `2`, the
      trimmed second answer unless it is empty; any other answer, skip. */
  function Endpoint(env: Env.Environment, isTty: bool, choice: string, custom: string): (r: Option<string>)
  {
    if SkipRequested(env, {"true"}) then None
    else if Env.Truthy(env, "NODE_API_URL").Some? then Env.Truthy(env, "NODE_API_URL")
    else if !isTty then None
    else if JsTrim(choice) == "1" then Some(DefaultApiUrl)
    else if JsTrim(choice) == "2" && JsTrim(custom) != "" then Some(JsTrim(custom))
    else None
  }

  /** A set NODE_API_URL is used without a prompt: the terminal and the answers make no
      difference. */
  lemma EndpointFromEnvironment(env: Env.Environment, isTty: bool, choice: string, custom: string,
                                isTty': bool, choice': string, custom': string)
    requires !SkipRequested(env, {"true"}) && Env.Truthy(env, "NODE_API_URL").Some?
    ensures Endpoint(env, isTty, choice, custom) == Endpoint(env, isTty', choice', custom')
                                                 == Some(env["NODE_API_URL"])
  {
  }

  /** Without NODE_API_URL and without a terminal, vmess.js never registers. */
  lemma NoTerminalNoEndpoint(env: Env.Environment, choice: string, custom: string)
    requires Env.Truthy(env, "NODE_API_URL").None?
    ensures Endpoint(env, false, choice, custom).None?
  {
  }

  /** `SKIP_NODE_UPLOAD=1` stops vless-reality.js from posting but not vmess.js. */
  lemma SkipOneDiffers(env: Env.Environment, link: string, ip: string, port: string, isTty: bool,
                       choice: string, custom: string)
    requires "SKIP_NODE_UPLOAD" in env && env["SKIP_NODE_UPLOAD"] == "1"
    requires Env.Truthy(env, "NODE_API_URL").Some?
    ensures VlessUploadPlan(env, link, ip, port).NoUpload?
    ensures Endpoint(env, isTty, choice, custom) == Some(env["NODE_API_URL"])
  {
  }

  /** vmess.js, the request as written: `new URL(apiUrl)` runs inside the executor of the
      promise `uploadNodeInfo` returns, outside any handler of its own, so an unparsable
      endpoint rejects that promise and reaches `main`'s handler. */
  function VmessUploadAsWritten(endpoint: Option<string>, reply: Reply): (r: Report)
    ensures r == Fatal <==> endpoint.Some? && !HasScheme(endpoint.value)
  {
    match endpoint
    case None => Skipped
    case Some(url) =>
      if !HasScheme(url) then Fatal
      else match reply
        case Status(code) => if IsOk(code) then Uploaded else Refused(code)
        case _ => Undelivered
  }

  /** vmess.js, the request as its error handling intends: every failure resolves the promise,
      so registration never stops the server. */
  function VmessUpload(endpoint: Option<string>, reply: Reply): (r: Report)
    ensures r != Fatal
    ensures r == Skipped <==> endpoint.None?
    ensures r == Uploaded <==> endpoint.Some? && HasScheme(endpoint.value) && reply.Status? && IsOk(reply.code)
  {
    match endpoint
    case None => Skipped
    case Some(url) =>
      if !HasScheme(url) then Undelivered
      else match reply
        case Status(code) => if IsOk(code) then Uploaded else Refused(code)
        case _ => Undelivered
  }

  /** The endpoint a user gets by copying the built-in one without its scheme. */
  const SchemelessEndpoint: string := "103.69.129.79:8081/api/v1/groups/2/nodes"

  /** As written, that endpoint in NODE_API_URL ends vmess.js with exit code 1 before Xray
      starts, whatever the API would have answered. */
  lemma SchemelessEndpointIsFatal(env: Env.Environment, isTty: bool, choice: string, custom: string, reply: Reply)
    requires !SkipRequested(env, {"true"})
    requires "NODE_API_URL" in env && env["NODE_API_URL"] == SchemelessEndpoint
    ensures Endpoint(env, isTty, choice, custom) == Some(SchemelessEndpoint)
    ensures VmessUploadAsWritten(Endpoint(env, isTty, choice, custom), reply) == Fatal
    ensures VmessUpload(Endpoint(env, isTty, choice, custom), reply) == Undelivered
  {
    SchemelessEndpointUnparsable();
    EndpointFromEnvironment(env, isTty, choice, custom, isTty, choice, custom);
  }

  /** `103.69.129.79` is read as a scheme, and a scheme may not start with a digit. */
  lemma SchemelessEndpointUnparsable()
    ensures !HasScheme(SchemelessEndpoint)
  {
    assert IndexOfChar(SchemelessEndpoint, ':') == Some(13) by {
      assert SchemelessEndpoint[13] == ':';
      assert ':' !in SchemelessEndpoint[..13];
    }
  }

  /** The corrected request differs from the written one only on unparsable endpoints. */
  lemma VmessUploadAgrees(endpoint: Option<string>, reply: Reply)
    requires endpoint.Some? ==> HasScheme(endpoint.value)
    ensures VmessUpload(endpoint, reply) == VmessUploadAsWritten(endpoint, reply)
  {
  }

  /** vmess.js: the node name and the body it posts. */
  function VmessUploadBody(link: string, ip: string, port: string): (body: string)
    ensures JsonRead.ParseFlatObject(body)
            == Some([("name", NodeName(GuessLocation(ip), VmessNodeKind, port)), ("config", link)])
  {
    UploadBodyReadBack(NodeName(GuessLocation(ip), VmessNodeKind, port), link);
    UploadBody(NodeName(GuessLocation(ip), VmessNodeKind, port), link)
  }
}
