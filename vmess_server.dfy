/** The Java VMess launcher, `VMessServer`. The constructor reads the port and the client id from
    the environment; `start` looks up the public address into the `serverIp` field, installs
    Xray, and writes the configuration document and the share link. */
module VmessServer {
  import opened Wrappers
  import opened Strings
  import opened Numbers
  import opened Json
  import Env
  import Uuid
  import Vmess
  import Fetch
  import Arch
  import Utf8
  import Base64

  class VMessServer {
    const port: int
    const uuid: string
    var serverIp: Option<string>

    /** The fields the Java constructor assigns; `serverIp` stays `null` until `start`. */
    constructor(port: int, uuid: string)
      ensures this.port == port && this.uuid == uuid && serverIp.None?
    {
      this.port := port;
      this.uuid := uuid;
      serverIp := None;
    }

    /** `new VMessServer()`: PORT, else SERVER_PORT, else 20041, parsed as an int (the
        constructor throws where that fails); VMESS_UUID when present, else a random UUID,
        passed in as `randomUuid`. */
    static method Create(env: Env.Environment, randomUuid: string) returns (r: Option<VMessServer>)
      ensures r.None? <==> Env.JavaPort(env).None?
      ensures r.Some? ==>
                fresh(r.value) && r.value.port == Env.JavaPort(env).value
                && r.value.uuid == Uuid.JavaUuid(env, "VMESS_UUID", randomUuid)
                && r.value.serverIp.None?
    {
      var port := Env.JavaPort(env);
      if port.None? {
        return None;
      }
      var uuid := Env.GetOrDefault(env, "VMESS_UUID", randomUuid);
      var server := new VMessServer(port.value, uuid);
      return Some(server);
    }

    /** `generateConfig`: the document, built member by member as the Java code adds them. */
    method GenerateConfig() returns (config: Json)
      ensures config == Vmess.VmessConfig(Number(port), uuid)
    {
      var log := Add([], "loglevel", Str("none"));
      assert log == [("loglevel", Str("none"))];
      var root := Add([], "log", Obj(log));
      assert root == [("log", Obj([("loglevel", Str("none"))]))];
      var inbound := BuildInbound(port, uuid);
      root := Add(root, "inbounds", Arr([inbound]));
      assert root == [("log", Obj([("loglevel", Str("none"))])), ("inbounds", Arr([inbound]))];
      var outbound := Add([], "protocol", Str("freedom"));
      assert Obj(outbound) == Vmess.FreedomOutbound;
      root := Add(root, "outbounds", Arr([Obj(outbound)]));
      config := Obj(root);
    }

    /** `generateVMessLink`: the nine payload members, written by Gson's pretty printer, encoded
        as UTF-8 and then base64. `start` reaches it only after `serverIp` is set, so the `add`
        member is never Gson's dropped `null`. */
    method GenerateVMessLink() returns (link: string)
      requires serverIp.Some?
      ensures link == Vmess.VmessLink(Vmess.VmessPayload(serverIp.value, IntToString(port), uuid), Gson, Indented)
    {
      var members := BuildPayload(serverIp.value, IntToString(port), uuid);
      var json := Write(Obj(members), Gson, Indented, 0);
      var base64 := Base64.Encode(Utf8.Encode(json));
      link := Vmess.LinkScheme + base64;
    }

    /** `start` up to the launch of Xray: `ip` is what `getServerIP` returns, `osArch` the
        `os.arch` property and `response` the release server's answer. Only a failed download
        throws: an archive without a binary leaves nothing to run, and the launch loop retries
        that for ever rather than failing. On success the result is the configuration document
        and the link written to `c.json` and `link.txt`. */
    method Start(ws: Fetch.Workspace, ip: string, osArch: string, response: Fetch.Response)
      returns (r: Result<(Json, string), string>)
      modifies this, ws
      ensures serverIp == Some(ip)
      ensures var d := Fetch.JavaDownload(old(ws.xray), Arch.JavaDetectArchitecture(osArch), response);
              ws.xray == d.0 && (r.Success? <==> !d.1.DownloadFailed?)
      ensures r.Success? ==>
                r.value.0 == Vmess.VmessConfig(Number(port), uuid)
                && r.value.1 == Vmess.VmessLink(Vmess.VmessPayload(ip, IntToString(port), uuid), Gson, Indented)
    {
      serverIp := Some(ip);
      var d := Fetch.DownloadXrayIfNeeded(ws, osArch, response);
      if d.DownloadFailed? {
        return Failure("Failed to download Xray");
      }
      var config := GenerateConfig();
      var link := GenerateVMessLink();
      return Success((config, link));
    }
  }

  /** The inbound object of `generateConfig`: port, protocol, the one client, the disguised
      stream, and the tag. */
  method BuildInbound(port: int, uuid: string) returns (inbound: Json)
    ensures inbound == Vmess.VmessInbound(Number(port), uuid)
  {
    var members := BuildInboundHead(port, "vmess");
    var settings := BuildSettings(uuid);
    members := Add(members, "settings", settings);
    assert members == [("port", Number(port)), ("protocol", Str("vmess")), ("settings", settings)];
    var stream := BuildStream();
    members := Add(members, "streamSettings", stream);
    assert members == [("port", Number(port)), ("protocol", Str("vmess")), ("settings", settings),
                       ("streamSettings", stream)];
    members := Add(members, "tag", Str("vmess"));
    inbound := Obj(members);
  }

  /** The inbound's `settings`: one client with the id and no alternative ids. */
  method BuildSettings(uuid: string) returns (settings: Json)
    ensures settings == Obj([("clients", Arr([Vmess.VmessClient(uuid)]))])
  {
    var client := Add([], "id", Str(uuid));
    assert client == [("id", Str(uuid))];
    client := Add(client, "alterId", Number(0));
    assert Obj(client) == Vmess.VmessClient(uuid);
    var members := Add([], "clients", Arr([Obj(client)]));
    settings := Obj(members);
  }

  /** The inbound's `streamSettings`: TCP, no PROXY protocol, and the HTTP header disguise. */
  method BuildStream() returns (stream: Json)
    ensures stream == Vmess.DisguiseStream
  {
    var response := BuildResponse();
    var header := Add([], "type", Str("http"));
    assert header == [("type", Str("http"))];
    header := Add(header, "response", response);
    assert header == [("type", Str("http")), ("response", Vmess.DisguiseResponse)];
    var tcp := Add([], "acceptProxyProtocol", Bool(false));
    assert tcp == [("acceptProxyProtocol", Bool(false))];
    tcp := Add(tcp, "header", Obj(header));
    assert tcp == [("acceptProxyProtocol", Bool(false)), ("header", Obj(header))];
    var members := Add([], "network", Str("tcp"));
    assert members == [("network", Str("tcp"))];
    members := Add(members, "tcpSettings", Obj(tcp));
    stream := Obj(members);
  }

  /** The fake response: version, status and reason, then the headers. */
  method BuildResponse() returns (response: Json)
    ensures response == Vmess.DisguiseResponse
  {
    var members := Add([], "version", Str("1.1"));
    assert members == [("version", Str("1.1"))];
    members := Add(members, "status", Str("200"));
    assert members == [("version", Str("1.1")), ("status", Str("200"))];
    members := Add(members, "reason", Str("OK"));
    assert members == [("version", Str("1.1")), ("status", Str("200")), ("reason", Str("OK"))];
    var headers := BuildHeaders();
    members := Add(members, "headers", headers);
    response := Obj(members);
  }

  /** The fake response's headers: three one-element arrays and `Pragma`. */
  method BuildHeaders() returns (headers: Json)
    ensures headers == Vmess.ResponseHeaders
  {
    var contentType := [Str("text/html; charset=utf-8")];
    var transferEncoding := [Str("chunked")];
    var connection := [Str("keep-alive")];
    var members := Add([], "Content-Type", Arr(contentType));
    assert members == [("Content-Type", Arr(contentType))];
    members := Add(members, "Transfer-Encoding", Arr(transferEncoding));
    assert members == [("Content-Type", Arr(contentType)), ("Transfer-Encoding", Arr(transferEncoding))];
    members := Add(members, "Connection", Arr(connection));
    assert members == [("Content-Type", Arr(contentType)), ("Transfer-Encoding", Arr(transferEncoding)),
                       ("Connection", Arr(connection))];
    members := Add(members, "Pragma", Str("no-cache"));
    headers := Obj(members);
  }

  /** The link's payload object, member by member. */
  method BuildPayload(ip: string, portText: string, uuid: string) returns (members: seq<(string, Json)>)
    ensures Obj(members) == FlatObject(Vmess.VmessPayload(ip, portText, uuid))
  {
    members := BuildPayloadHead();
    members := Add(members, "add", Str(ip));
    assert members == [("v", Str("2")), ("ps", Str("VMess-Server")), ("add", Str(ip))];
    members := Add(members, "port", Str(portText));
    assert members == [("v", Str("2")), ("ps", Str("VMess-Server")), ("add", Str(ip)), ("port", Str(portText))];
    var rest := BuildPayloadTail(members, uuid);
    members := rest;
    PayloadObject(ip, portText, uuid, members);
  }

  /** The first two payload members, the format version and the node's display name. */
  method BuildPayloadHead() returns (members: seq<(string, Json)>)
    ensures members == [("v", Str("2")), ("ps", Str("VMess-Server"))]
  {
    members := Add([], "v", Str("2"));
    assert members == [("v", Str("2"))];
    members := Add(members, "ps", Str("VMess-Server"));
  }

  /** The last five payload members, added after the first four. */
  method BuildPayloadTail(head: seq<(string, Json)>, uuid: string) returns (members: seq<(string, Json)>)
    requires |head| == 4 && head[0].0 == "v" && head[1].0 == "ps" && head[2].0 == "add" && head[3].0 == "port"
    ensures members == head + [("id", Str(uuid)), ("aid", Str("0")), ("net", Str("tcp")), ("type", Str("http")),
                               ("tls", Str(""))]
  {
    members := Add(head, "id", Str(uuid));
    assert members == head + [("id", Str(uuid))];
    members := Add(members, "aid", Str("0"));
    assert members == head + [("id", Str(uuid)), ("aid", Str("0"))];
    members := Add(members, "net", Str("tcp"));
    assert members == head + [("id", Str(uuid)), ("aid", Str("0")), ("net", Str("tcp"))];
    members := Add(members, "type", Str("http"));
    assert members == head + [("id", Str(uuid)), ("aid", Str("0")), ("net", Str("tcp")), ("type", Str("http"))];
    members := Add(members, "tls", Str(""));
  }

  /** The members built above are the payload as a flat object of strings. */
  lemma PayloadObject(ip: string, portText: string, uuid: string, members: seq<(string, Json)>)
    requires members == [("v", Str("2")), ("ps", Str("VMess-Server")), ("add", Str(ip)), ("port", Str(portText))]
                        + [("id", Str(uuid)), ("aid", Str("0")), ("net", Str("tcp")), ("type", Str("http")),
                           ("tls", Str(""))]
    ensures Obj(members) == FlatObject(Vmess.VmessPayload(ip, portText, uuid))
  {
    var p := Vmess.VmessPayload(ip, portText, uuid);
    var v := FlatObject(p);
    assert |v.members| == |members|;
    forall i | 0 <= i < |members| ensures v.members[i] == members[i] {
      assert v.members[i] == (p[i].0, Str(p[i].1));
    }
  }

  /** `main`: construct the server and start it; any exception ends the process with exit code
      1. */
  method Launch(env: Env.Environment, randomUuid: string, ws: Fetch.Workspace, ip: string, osArch: string,
                response: Fetch.Response)
    returns (r: Result<(Json, string), string>)
    modifies ws
    ensures r.Success? <==>
              Env.JavaPort(env).Some?
              && !Fetch.JavaDownload(old(ws.xray), Arch.JavaDetectArchitecture(osArch), response).1.DownloadFailed?
    ensures Env.JavaPort(env).Some? ==>
              ws.xray == Fetch.JavaDownload(old(ws.xray), Arch.JavaDetectArchitecture(osArch), response).0
    ensures Env.JavaPort(env).None? ==> ws.xray == old(ws.xray)
    ensures r.Success? ==>
              var uuid := Uuid.JavaUuid(env, "VMESS_UUID", randomUuid);
              var port := Env.JavaPort(env).value;
              r.value.0 == Vmess.VmessConfig(Number(port), uuid)
              && r.value.1 == Vmess.VmessLink(Vmess.VmessPayload(ip, IntToString(port), uuid), Gson, Indented)
  {
    var server := VMessServer.Create(env, randomUuid);
    if server.None? {
      return Failure("NumberFormatException");
    }
    r := server.value.Start(ws, ip, osArch, response);
  }
}
