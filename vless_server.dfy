/** The Java VLESS+Reality launcher, `VLessRealityServer`. The constructor reads its settings
    from the environment; `start` looks up the public address, installs Xray, generates the
    Reality key pair and short id into the object's fields, and writes the configuration
    document and the share link built from those fields. */
module VlessServer {
  import opened Wrappers
  import opened Strings
  import opened Numbers
  import opened Json
  import opened Hex
  import Env
  import Uuid
  import RealityKeys
  import Vless
  import Fetch
  import Arch

  class VLessRealityServer {
    const port: int
    const uuid: string
    const dest: string
    const serverNames: string
    var serverIp: Option<string>
    var publicKey: Option<string>
    var privateKey: Option<string>
    var shortId: Option<string>

    /** The fields the Java constructor assigns; the ones it leaves out stay `null`. */
    constructor(port: int, uuid: string, dest: string, serverNames: string)
      ensures this.port == port && this.uuid == uuid && this.dest == dest && this.serverNames == serverNames
      ensures serverIp.None? && publicKey.None? && privateKey.None? && shortId.None?
    {
      this.port := port;
      this.uuid := uuid;
      this.dest := dest;
      this.serverNames := serverNames;
      serverIp := None;
      publicKey := None;
      privateKey := None;
      shortId := None;
    }

    /** `new VLessRealityServer()`: PORT, else SERVER_PORT, else 20041, parsed as an int (the
        constructor throws where that fails); VLESS_UUID when present, else a random UUID,
        passed in as `randomUuid`; REALITY_DEST and REALITY_SERVER_NAMES with their defaults. */
    static method Create(env: Env.Environment, randomUuid: string) returns (r: Option<VLessRealityServer>)
      ensures r.None? <==> Env.JavaPort(env).None?
      ensures r.Some? ==>
                fresh(r.value) && r.value.port == Env.JavaPort(env).value
                && r.value.uuid == Uuid.JavaUuid(env, "VLESS_UUID", randomUuid)
                && r.value.dest == Env.GetOrDefault(env, "REALITY_DEST", Env.DefaultDest)
                && r.value.serverNames == Env.GetOrDefault(env, "REALITY_SERVER_NAMES", Env.DefaultServerNames)
                && r.value.KeysUnset()
    {
      var port := Env.JavaPort(env);
      if port.None? {
        return None;
      }
      var uuid := Env.GetOrDefault(env, "VLESS_UUID", randomUuid);
      var dest := Env.GetOrDefault(env, "REALITY_DEST", Env.DefaultDest);
      var serverNames := Env.GetOrDefault(env, "REALITY_SERVER_NAMES", Env.DefaultServerNames);
      var server := new VLessRealityServer(port.value, uuid, dest, serverNames);
      return Some(server);
    }

    /** Neither key has been read yet, as the constructor leaves them. */
    predicate KeysUnset()
      reads this
    {
      privateKey.None? && publicKey.None?
    }

    /** `generateRealityKeys`: `lines` is what `xray x25519` prints, line by line, and `random`
        the eight bytes `SecureRandom` fills. The loop overwrites the key fields line by line;
        a line whose split has no second piece throws, and a key still unset after the last
        line is the "Failed to generate Reality keys" error. */
    method GenerateRealityKeys(lines: seq<string>, random: seq<JavaByte>) returns (r: Outcome<string>)
      requires KeysUnset()
      requires |random| == 8
      modifies this
      ensures r.Pass? <==> RealityKeys.JavaRealityKeys(lines).Some?
      ensures r.Pass? ==>
                privateKey.Some? && publicKey.Some?
                && RealityKeys.JavaRealityKeys(lines) == Some((privateKey.value, publicKey.value))
                && shortId == Some(Hex.Hex(UnsignedAll(random)))
      ensures serverIp == old(serverIp)
    {
      var i := 0;
      while i < |lines|
        invariant 0 <= i <= |lines|
        invariant RealityKeys.ScanLines(lines[..i]) == Some(RealityKeys.KeyScan(privateKey, publicKey))
        invariant serverIp == old(serverIp)
      {
        RealityKeys.ScanLinesStep(lines, i);
        var ok := ReadKeyLine(lines[i]);
        if !ok {
          RealityKeys.ScanFailsFrom(lines, i + 1);
          return Fail("ArrayIndexOutOfBoundsException");
        }
        i := i + 1;
      }
      assert lines[..i] == lines;
      if privateKey.None? || publicKey.None? {
        return Fail("Failed to generate Reality keys");
      }
      var hex := BytesToHex(random);
      shortId := Some(hex);
      return Pass;
    }

    /** The body of the line loop in `generateRealityKeys`: a line naming the private key sets
        `privateKey`, else a line naming the public key sets `publicKey`, to what follows the
        label's colon; `ok` is false where the split has no second piece and Java throws. */
    method ReadKeyLine(line: string) returns (ok: bool)
      modifies this`privateKey, this`publicKey
      ensures var next := RealityKeys.ScanLine(old(RealityKeys.KeyScan(privateKey, publicKey)), line);
              (ok <==> next.Some?) && (ok ==> next.value == RealityKeys.KeyScan(privateKey, publicKey))
    {
      if Contains(line, RealityKeys.PrivateLabel) {
        var value := RealityKeys.JavaKeyValue(line);
        if value.None? {
          return false;
        }
        privateKey := value;
      } else if Contains(line, RealityKeys.PublicLabel) {
        var value := RealityKeys.JavaKeyValue(line);
        if value.None? {
          return false;
        }
        publicKey := value;
      }
      return true;
    }

    /** `generateConfig`: the document, built member by member as the Java code adds them.
        `start` reaches it only after the keys and the short id are set. */
    method GenerateConfig() returns (config: Json)
      requires privateKey.Some? && shortId.Some?
      ensures config == Vless.VlessConfig(Number(port), uuid, dest, serverNames, privateKey.value, shortId.value)
    {
      var log := Add([], "loglevel", Str("warning"));
      assert log == [("loglevel", Str("warning"))];
      var root := Add([], "log", Obj(log));
      assert root == [("log", Obj([("loglevel", Str("warning"))]))];
      var inbound := BuildInbound(port, uuid, dest, serverNames, privateKey.value, shortId.value);
      root := Add(root, "inbounds", Arr([inbound]));
      assert root == [("log", Obj([("loglevel", Str("warning"))])), ("inbounds", Arr([inbound]))];
      var outbound := Add([], "protocol", Str("freedom"));
      assert outbound == [("protocol", Str("freedom"))];
      outbound := Add(outbound, "tag", Str("direct"));
      assert Obj(outbound) == Vless.DirectOutbound;
      root := Add(root, "outbounds", Arr([Obj(outbound)]));
      config := Obj(root);
    }

    /** `generateVLessLink`: the builder appends in the fixed order; a field still `null` is
        appended as the text `null`. */
    method GenerateVLessLink() returns (link: string)
      ensures link == Vless.VlessLink(uuid, JavaText(serverIp), IntToString(port), serverNames,
                                      JavaText(publicKey), JavaText(shortId))
    {
      var sb := "";
      assert sb + "vless://" == "vless://";
      sb := sb + "vless://";
      sb := sb + uuid;
      sb := sb + "@";
      sb := sb + JavaText(serverIp);
      sb := sb + ":";
      sb := sb + IntToString(port);
      sb := sb + "?encryption=none";
      sb := sb + "&flow=xtls-rprx-vision";
      sb := sb + "&security=reality";
      sb := sb + "&sni=" + serverNames;
      sb := sb + "&fp=chrome";
      sb := sb + "&pbk=" + JavaText(publicKey);
      sb := sb + "&sid=" + JavaText(shortId);
      sb := sb + "&type=tcp";
      sb := sb + "&headerType=none";
      sb := sb + "#VLESS-Reality";
      Vless.AppendedLink(uuid, JavaText(serverIp), IntToString(port), serverNames, JavaText(publicKey),
                         JavaText(shortId));
      link := sb;
    }

    /** `start` up to the launch of Xray: `ip` is what `getServerIP` returns, `osArch` the
        `os.arch` property, `response` the release server's answer, `lines` the key generator's
        output and `random` the short-id bytes. A failed download throws; an archive without a
        binary leaves nothing to run, so generating the keys throws. On success the result is
        the configuration document and the link written to `c.json` and `link.txt`. */
    method Start(ws: Fetch.Workspace, ip: string, osArch: string, response: Fetch.Response,
                 lines: seq<string>, random: seq<JavaByte>) returns (r: Result<(Json, string), string>)
      requires KeysUnset()
      requires |random| == 8
      modifies this, ws
      ensures serverIp == Some(ip)
      ensures var d := Fetch.JavaDownload(old(ws.xray), Arch.JavaDetectArchitecture(osArch), response);
              ws.xray == d.0 && (r.Success? <==> d.0.Some? && RealityKeys.JavaRealityKeys(lines).Some?)
      ensures r.Success? ==>
                var keys := RealityKeys.JavaRealityKeys(lines).value;
                var sid := Hex.Hex(UnsignedAll(random));
                r.value.0 == Vless.VlessConfig(Number(port), uuid, dest, serverNames, keys.0, sid)
                && r.value.1 == Vless.VlessLink(uuid, ip, IntToString(port), serverNames, keys.1, sid)
    {
      serverIp := Some(ip);
      var d := Fetch.DownloadXrayIfNeeded(ws, osArch, response);
      if d.DownloadFailed? {
        return Failure("Failed to download Xray");
      }
      if ws.xray.None? {
        return Failure("Cannot run program \"./xray\"");
      }
      var keys := GenerateRealityKeys(lines, random);
      if keys.Fail? {
        return Failure(keys.error);
      }
      var config := GenerateConfig();
      var link := GenerateVLessLink();
      return Success((config, link));
    }
  }

  /** The inbound object of `generateConfig`: port, protocol, the client list, the stream
      settings with their Reality block, and sniffing. */
  method BuildInbound(port: int, uuid: string, dest: string, serverNames: string, privateKey: string,
                      shortId: string) returns (inbound: Json)
    ensures inbound == Vless.VlessInbound(Number(port), uuid, dest, serverNames, privateKey, shortId)
  {
    var members := BuildInboundHead(port, "vless");
    var settings := BuildSettings(uuid);
    members := Add(members, "settings", settings);
    assert members == [("port", Number(port)), ("protocol", Str("vless")), ("settings", settings)];
    var stream := BuildStreamSettings(dest, serverNames, privateKey, shortId);
    members := Add(members, "streamSettings", stream);
    assert members == [("port", Number(port)), ("protocol", Str("vless")), ("settings", settings),
                       ("streamSettings", stream)];
    var sniffing := BuildSniffing();
    members := Add(members, "sniffing", sniffing);
    inbound := Obj(members);
  }

  /** The inbound's `sniffing`: on, overriding the destination from HTTP, TLS and QUIC. */
  method BuildSniffing() returns (sniffing: Json)
    ensures sniffing == Obj([("enabled", Bool(true)), ("destOverride", Arr([Str("http"), Str("tls"), Str("quic")]))])
  {
    var members := Add([], "enabled", Bool(true));
    assert members == [("enabled", Bool(true))];
    members := Add(members, "destOverride", Arr([Str("http"), Str("tls"), Str("quic")]));
    sniffing := Obj(members);
  }

  /** The inbound's `settings`: one client with the id and the Vision flow, no decryption. */
  method BuildSettings(uuid: string) returns (settings: Json)
    ensures settings == Obj([("clients", Arr([Vless.VlessClient(uuid)])), ("decryption", Str("none"))])
  {
    var client := Add([], "id", Str(uuid));
    assert client == [("id", Str(uuid))];
    client := Add(client, "flow", Str(Vless.Flow));
    assert Obj(client) == Vless.VlessClient(uuid);
    var members := Add([], "clients", Arr([Obj(client)]));
    assert members == [("clients", Arr([Obj(client)]))];
    members := Add(members, "decryption", Str("none"));
    settings := Obj(members);
  }

  /** The inbound's `streamSettings`: TCP secured by Reality. */
  method BuildStreamSettings(dest: string, serverNames: string, privateKey: string, shortId: string)
    returns (stream: Json)
    ensures stream == Obj([("network", Str("tcp")), ("security", Str("reality")),
                           ("realitySettings", Vless.RealitySettings(dest, serverNames, privateKey, shortId))])
  {
    var members := Add([], "network", Str("tcp"));
    assert members == [("network", Str("tcp"))];
    members := Add(members, "security", Str("reality"));
    assert members == [("network", Str("tcp")), ("security", Str("reality"))];
    var reality := BuildReality(dest, serverNames, privateKey, shortId);
    members := Add(members, "realitySettings", reality);
    stream := Obj(members);
  }

  /** The `realitySettings` block: the borrowed site, the one server name, the private key and
      the one short id. */
  method BuildReality(dest: string, serverNames: string, privateKey: string, shortId: string)
    returns (reality: Json)
    ensures reality == Vless.RealitySettings(dest, serverNames, privateKey, shortId)
  {
    var members := BuildRealityHead(dest);
    members := Add(members, "serverNames", Arr([Str(serverNames)]));
    members := Add(members, "privateKey", Str(privateKey));
    members := Add(members, "shortIds", Arr([Str(shortId)]));
    assert members == [("show", Bool(false)), ("dest", Str(dest)), ("xver", Number(0)),
                       ("serverNames", Arr([Str(serverNames)])), ("privateKey", Str(privateKey)),
                       ("shortIds", Arr([Str(shortId)]))];
    reality := Obj(members);
  }

  /** The first three Reality members: not shown, the borrowed site, PROXY protocol off. */
  method BuildRealityHead(dest: string) returns (members: seq<(string, Json)>)
    ensures members == [("show", Bool(false)), ("dest", Str(dest)), ("xver", Number(0))]
  {
    members := Add([], "show", Bool(false));
    assert members == [("show", Bool(false))];
    members := Add(members, "dest", Str(dest));
    assert members == [("show", Bool(false)), ("dest", Str(dest))];
    members := Add(members, "xver", Number(0));
  }

  /** `main`: construct the server and start it; any exception ends the process with exit code
      1. */
  method Launch(env: Env.Environment, randomUuid: string, ws: Fetch.Workspace, ip: string, osArch: string,
                response: Fetch.Response, lines: seq<string>, random: seq<JavaByte>)
    returns (r: Result<(Json, string), string>)
    requires |random| == 8
    modifies ws
    ensures r.Success? <==>
              Env.JavaPort(env).Some?
              && Fetch.JavaDownload(old(ws.xray), Arch.JavaDetectArchitecture(osArch), response).0.Some?
              && RealityKeys.JavaRealityKeys(lines).Some?
    ensures Env.JavaPort(env).Some? ==>
              ws.xray == Fetch.JavaDownload(old(ws.xray), Arch.JavaDetectArchitecture(osArch), response).0
    ensures Env.JavaPort(env).None? ==> ws.xray == old(ws.xray)
    ensures r.Success? ==>
              var keys := RealityKeys.JavaRealityKeys(lines).value;
              var uuid := Uuid.JavaUuid(env, "VLESS_UUID", randomUuid);
              var port := Env.JavaPort(env).value;
              r.value.0 == Vless.VlessConfig(Number(port), uuid,
                                                Env.GetOrDefault(env, "REALITY_DEST", Env.DefaultDest),
                                                Env.GetOrDefault(env, "REALITY_SERVER_NAMES", Env.DefaultServerNames),
                                                keys.0, Hex.Hex(UnsignedAll(random)))
              && r.value.1 == Vless.VlessLink(uuid, ip, IntToString(port),
                                              Env.GetOrDefault(env, "REALITY_SERVER_NAMES", Env.DefaultServerNames),
                                              keys.1, Hex.Hex(UnsignedAll(random)))
  {
    var server := VLessRealityServer.Create(env, randomUuid);
    if server.None? {
      return Failure("NumberFormatException");
    }
    r := server.value.Start(ws, ip, osArch, response, lines, random);
  }
}
