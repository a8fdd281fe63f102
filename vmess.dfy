/** The VMess server's two outputs: the Xray configuration document with its HTTP disguise, and
    the `vmess://` share link, which carries a nine-member JSON object as base64 of its UTF-8
    text. The Java class writes that object with Gson's pretty printer; vmess.js and startup.js
    write it with `JSON.stringify`. A client reading any of these links gets the nine members
    back, and their id and port are the document's. */
module Vmess {
  import opened Wrappers
  import opened Strings
  import opened Numbers
  import opened Json
  import JsonRead
  import Utf8
  import Base64

  const LinkScheme: string := "vmess://"

  /** The one client: the user id and no alternative ids. */
  function VmessClient(uuid: string): Json {
    Obj([("id", Str(uuid)), ("alterId", Number(0))])
  }

  /** The headers of the fake HTTP response: three one-element arrays and a plain string. */
  const ResponseHeaders: Json :=
    Obj([
      ("Content-Type", Arr([Str("text/html; charset=utf-8")])),
      ("Transfer-Encoding", Arr([Str("chunked")])),
      ("Connection", Arr([Str("keep-alive")])),
      ("Pragma", Str("no-cache"))])

  /** The fake HTTP response the TCP header disguise answers with. */
  const DisguiseResponse: Json :=
    Obj([("version", Str("1.1")), ("status", Str("200")), ("reason", Str("OK")), ("headers", ResponseHeaders)])

  /** TCP with an HTTP header disguise and no PROXY protocol. */
  const DisguiseStream: Json :=
    Obj([
      ("network", Str("tcp")),
      ("tcpSettings", Obj([
        ("acceptProxyProtocol", Bool(false)),
        ("header", Obj([("type", Str("http")), ("response", DisguiseResponse)]))]))])

  function VmessInbound(port: Json, uuid: string): Json {
    Obj([
      ("port", port),
      ("protocol", Str("vmess")),
      ("settings", Obj([("clients", Arr([VmessClient(uuid)]))])),
      ("streamSettings", DisguiseStream),
      ("tag", Str("vmess"))])
  }

  const FreedomOutbound: Json := Obj([("protocol", Str("freedom"))])

  /** The configuration document, members in the order all three sources insert them. */
  function VmessConfig(port: Json, uuid: string): Json {
    Obj([
      ("log", Obj([("loglevel", Str("none"))])),
      ("inbounds", Arr([VmessInbound(port, uuid)])),
      ("outbounds", Arr([FreedomOutbound]))])
  }

  const InboundPath: seq<Step> := [Key("inbounds"), Index(0)]
  const PortPath: seq<Step> := InboundPath + [Key("port")]
  const ClientPath: seq<Step> := InboundPath + [Key("settings"), Key("clients"), Index(0)]
  const ClientIdPath: seq<Step> := ClientPath + [Key("id")]
  const AlterIdPath: seq<Step> := ClientPath + [Key("alterId")]
  const TagPath: seq<Step> := InboundPath + [Key("tag")]
  const ResponsePath: seq<Step> := InboundPath + [Key("streamSettings"), Key("tcpSettings"), Key("header"), Key("response")]

  /** The document holds exactly one inbound, and it is the VMess one. */
  lemma ConfigInbound(port: Json, uuid: string)
    ensures var c := VmessConfig(port, uuid);
            At(c, [Key("inbounds")]) == Some(Arr([VmessInbound(port, uuid)]))
            && At(c, InboundPath) == Some(VmessInbound(port, uuid))
  {
    var c := VmessConfig(port, uuid);
    var inbound := VmessInbound(port, uuid);
    LookupAt(c.members, 1);
    assert [Key("inbounds")][1..] == [];
    assert At(Arr([inbound]), []) == Some(Arr([inbound]));
    assert At(inbound, []) == Some(inbound);
    assert At(Arr([inbound]), [Index(0)]) == Some(inbound);
    assert InboundPath[1..] == [Index(0)];
  }

  /** The inbound's own members: its port and its tag. */
  lemma ConfigPortAndTag(port: Json, uuid: string)
    ensures var c := VmessConfig(port, uuid);
            At(c, PortPath) == Some(port) && At(c, TagPath) == Some(Str("vmess"))
  {
    var c := VmessConfig(port, uuid);
    var inbound := VmessInbound(port, uuid);
    ConfigInbound(port, uuid);
    InboundFields(port, uuid);
    AtAppend(c, InboundPath, [Key("port")], inbound);
    AtAppend(c, InboundPath, [Key("tag")], inbound);
  }

  lemma InboundFields(port: Json, uuid: string)
    ensures At(VmessInbound(port, uuid), [Key("port")]) == Some(port)
    ensures At(VmessInbound(port, uuid), [Key("tag")]) == Some(Str("vmess"))
  {
    var inbound := VmessInbound(port, uuid);
    AtMember(inbound, 0, [Key("port")]);
    AtMember(inbound, 4, [Key("tag")]);
    assert [Key("port")][1..] == [] && [Key("tag")][1..] == [];
  }

  /** The one client carries the uuid and alterId 0. */
  lemma ConfigClient(port: Json, uuid: string)
    ensures var c := VmessConfig(port, uuid);
            At(c, ClientIdPath) == Some(Str(uuid)) && At(c, AlterIdPath) == Some(Number(0))
  {
    var c := VmessConfig(port, uuid);
    var client := VmessClient(uuid);
    var path := [Key("settings"), Key("clients"), Index(0)];
    ConfigInbound(port, uuid);
    InboundClient(port, uuid);
    AtAppend(c, InboundPath, path, VmessInbound(port, uuid));
    assert ClientPath == InboundPath + path;
    ClientFields(uuid);
    AtAppend(c, ClientPath, [Key("id")], client);
    AtAppend(c, ClientPath, [Key("alterId")], client);
  }

  lemma InboundClient(port: Json, uuid: string)
    ensures At(VmessInbound(port, uuid), [Key("settings"), Key("clients"), Index(0)]) == Some(VmessClient(uuid))
  {
    var inbound := VmessInbound(port, uuid);
    var path := [Key("settings"), Key("clients"), Index(0)];
    AtMember(inbound, 2, path);
    AtMember(inbound.members[2].1, 0, path[1..]);
    AtItem(Arr([VmessClient(uuid)]), path[2..]);
    assert path[1..][1..] == path[2..] && path[2..][1..] == [];
  }

  lemma ClientFields(uuid: string)
    ensures At(VmessClient(uuid), [Key("id")]) == Some(Str(uuid))
    ensures At(VmessClient(uuid), [Key("alterId")]) == Some(Number(0))
  {
    var client := VmessClient(uuid);
    AtMember(client, 0, [Key("id")]);
    AtMember(client, 1, [Key("alterId")]);
    assert [Key("id")][1..] == [] && [Key("alterId")][1..] == [];
  }

  /** The disguise answers `HTTP/1.1 200 OK`. */
  lemma ConfigResponse(port: Json, uuid: string)
    ensures At(VmessConfig(port, uuid), ResponsePath) == Some(DisguiseResponse)
  {
    var c := VmessConfig(port, uuid);
    var path := [Key("streamSettings"), Key("tcpSettings"), Key("header"), Key("response")];
    ConfigInbound(port, uuid);
    InboundResponse(port, uuid);
    AtAppend(c, InboundPath, path, VmessInbound(port, uuid));
    assert ResponsePath == InboundPath + path;
  }

  lemma InboundResponse(port: Json, uuid: string)
    ensures At(VmessInbound(port, uuid), [Key("streamSettings"), Key("tcpSettings"), Key("header"), Key("response")])
            == Some(DisguiseResponse)
  {
    var inbound := VmessInbound(port, uuid);
    var path := [Key("streamSettings"), Key("tcpSettings"), Key("header"), Key("response")];
    AtMember(inbound, 3, path);
    assert path[1..] == [Key("tcpSettings"), Key("header"), Key("response")];
    StreamResponse();
  }

  lemma StreamResponse()
    ensures At(DisguiseStream, [Key("tcpSettings"), Key("header"), Key("response")]) == Some(DisguiseResponse)
  {
    var path := [Key("tcpSettings"), Key("header"), Key("response")];
    var tcp := DisguiseStream.members[1].1;
    var header := tcp.members[1].1;
    AtMember(DisguiseStream, 1, path);
    AtMember(tcp, 1, path[1..]);
    AtMember(header, 1, path[1..][1..]);
    assert path[1..][1..][1..] == [];
    assert At(DisguiseResponse, []) == Some(DisguiseResponse);
  }

  /** Where the link's values sit in the document: one inbound with one client, tagged
      `vmess`; one outbound, the untagged `freedom` one. */
  lemma VmessConfigFields(port: Json, uuid: string)
    ensures var c := VmessConfig(port, uuid);
            At(c, PortPath) == Some(port)
            && At(c, ClientIdPath) == Some(Str(uuid))
            && At(c, AlterIdPath) == Some(Number(0))
            && At(c, TagPath) == Some(Str("vmess"))
            && At(c, ResponsePath) == Some(DisguiseResponse)
            && (var ins := At(c, [Key("inbounds")]); ins.Some? && ins.value.Arr? && |ins.value.items| == 1)
            && At(c, [Key("outbounds")]) == Some(Arr([FreedomOutbound]))
  {
    ConfigInbound(port, uuid);
    ConfigPortAndTag(port, uuid);
    ConfigClient(port, uuid);
    ConfigResponse(port, uuid);
    var c := VmessConfig(port, uuid);
    LookupAt(c.members, 2);
    assert At(Arr([FreedomOutbound]), []) == Some(Arr([FreedomOutbound]));
  }

  /** The nine members of the share payload, in source order. */
  function VmessPayload(ip: string, portText: string, uuid: string): seq<(string, string)> {
    [("v", "2"), ("ps", "VMess-Server"), ("add", ip), ("port", portText), ("id", uuid), ("aid", "0"),
     ("net", "tcp"), ("type", "http"), ("tls", "")]
  }

  lemma PayloadAddress(ip: string, portText: string, uuid: string)
    ensures Lookup(VmessPayload(ip, portText, uuid), "add") == Some(ip)
  {
    var ms := VmessPayload(ip, portText, uuid);
    assert ms[2] == ("add", ip);
    assert ms[0].0 != "add" && ms[1].0 != "add";
    LookupAt(ms, 2);
  }

  lemma PayloadPort(ip: string, portText: string, uuid: string)
    ensures Lookup(VmessPayload(ip, portText, uuid), "port") == Some(portText)
  {
    var ms := VmessPayload(ip, portText, uuid);
    assert ms[3] == ("port", portText);
    assert ms[0].0 != "port" && ms[1].0 != "port" && ms[2].0 != "port";
    LookupAt(ms, 3);
  }

  lemma PayloadId(ip: string, portText: string, uuid: string)
    ensures Lookup(VmessPayload(ip, portText, uuid), "id") == Some(uuid)
  {
    var ms := VmessPayload(ip, portText, uuid);
    assert ms[4] == ("id", uuid);
    assert ms[0].0 != "id" && ms[1].0 != "id" && ms[2].0 != "id" && ms[3].0 != "id";
    LookupAt(ms, 4);
  }

  /** The payload names the server, its port and the user id. */
  lemma PayloadValues(ip: string, portText: string, uuid: string)
    ensures var ms := VmessPayload(ip, portText, uuid);
            Lookup(ms, "add") == Some(ip) && Lookup(ms, "port") == Some(portText)
            && Lookup(ms, "id") == Some(uuid)
  {
    PayloadAddress(ip, portText, uuid);
    PayloadPort(ip, portText, uuid);
    PayloadId(ip, portText, uuid);
  }

  /** `vmess://` and the base64 of the UTF-8 text of the written payload. */
  function VmessLink(payload: seq<(string, string)>, d: Dialect, layout: Layout): string {
    LinkScheme + Base64.Encode(Utf8.Encode(Write(FlatObject(payload), d, layout, 0)))
  }

  /** What a client does with a link: strip the scheme, decode base64, decode UTF-8, read the
      object. `None` at the first step that fails. */
  function DecodeVmessLink(link: string): Option<seq<(string, string)>> {
    if !StartsWith(link, LinkScheme) then None
    else
      match Base64.Decode(link[|LinkScheme|..])
      case None => None
      case Some(bytes) =>
        match Utf8.Decode(bytes)
        case None => None
        case Some(text) => JsonRead.ParseFlatObject(text)
  }

  /** Every link, in either dialect and layout, is read back as the payload it was built from. */
  lemma DecodeVmessLinkOf(payload: seq<(string, string)>, d: Dialect, layout: Layout)
    ensures DecodeVmessLink(VmessLink(payload, d, layout)) == Some(payload)
  {
    var text := Write(FlatObject(payload), d, layout, 0);
    var encoded := Base64.Encode(Utf8.Encode(text));
    var link := VmessLink(payload, d, layout);
    assert link[..|LinkScheme|] == LinkScheme && link[|LinkScheme|..] == encoded;
    Base64.DecodeEncode(Utf8.Encode(text));
    Utf8.DecodeEncode(text);
    JsonRead.ReadWrittenFlatObject(payload, d, layout);
  }

  /** After the scheme a link holds only base64 characters, padding only at the end, in whole
      quanta of four. */
  lemma VmessLinkAlphabet(payload: seq<(string, string)>, d: Dialect, layout: Layout)
    ensures var link := VmessLink(payload, d, layout);
            var body := link[|LinkScheme|..];
            StartsWith(link, LinkScheme) && |body| % 4 == 0
            && (forall i :: 0 <= i < |body| ==> Base64.InAlphabet(body[i]) || body[i] == '=')
            && (forall i :: 0 <= i < |body| && body[i] == '=' ==> i >= |body| - 2)
  {
    EncodedLinkAlphabet(Utf8.Encode(Write(FlatObject(payload), d, layout, 0)));
  }

  lemma EncodedLinkAlphabet(bytes: seq<Byte>)
    ensures var link := LinkScheme + Base64.Encode(bytes);
            var body := link[|LinkScheme|..];
            StartsWith(link, LinkScheme) && |body| % 4 == 0
            && (forall i :: 0 <= i < |body| ==> Base64.InAlphabet(body[i]) || body[i] == '=')
            && (forall i :: 0 <= i < |body| && body[i] == '=' ==> i >= |body| - 2)
  {
    var e := Base64.Encode(bytes);
    SchemeBody(e);
    QuantaOfFour(bytes);
    Base64.EncodeAlphabet(bytes);
  }

  lemma SchemeBody(e: string)
    ensures StartsWith(LinkScheme + e, LinkScheme) && (LinkScheme + e)[|LinkScheme|..] == e
  {
    assert (LinkScheme + e)[..|LinkScheme|] == LinkScheme;
  }

  lemma QuantaOfFour(bytes: seq<Byte>)
    ensures |Base64.Encode(bytes)| % 4 == 0
  {
    MultipleOfFour(|Base64.Encode(bytes)|, (|bytes| + 2) / 3);
  }

  lemma MultipleOfFour(n: int, q: int)
    requires n == 4 * q
    ensures n % 4 == 0
  {
  }

  /** The Java server's link and document agree: the payload read back from the link names the
      document's client id, and its port text parses to the document's port. */
  lemma JavaLinkMatchesConfig(ip: string, port: int, uuid: string)
    requires IntMin <= port <= IntMax
    ensures var ms := DecodeVmessLink(VmessLink(VmessPayload(ip, IntToString(port), uuid), Gson, Indented));
            var c := VmessConfig(Number(port), uuid);
            ms.Some?
            && Lookup(ms.value, "id").Some? && At(c, ClientIdPath) == Some(Str(Lookup(ms.value, "id").value))
            && Lookup(ms.value, "port").Some? && JavaParseInt(Lookup(ms.value, "port").value).Some?
            && At(c, PortPath) == Some(Number(JavaParseInt(Lookup(ms.value, "port").value).value))
  {
    DecodeVmessLinkOf(VmessPayload(ip, IntToString(port), uuid), Gson, Indented);
    PayloadValues(ip, IntToString(port), uuid);
    VmessConfigFields(Number(port), uuid);
    JavaParseIntOfString(port);
  }

  /** The scripts' link and document agree the same way: the document holds `parseInt` of the
      port text the link carries (null where that is NaN). */
  lemma JsLinkMatchesConfig(ip: string, portText: string, uuid: string)
    ensures var ms := DecodeVmessLink(VmessLink(VmessPayload(ip, portText, uuid), Js, Compact));
            var c := VmessConfig(NumberOrNull(JsParseInt(portText)), uuid);
            ms.Some?
            && Lookup(ms.value, "id").Some? && At(c, ClientIdPath) == Some(Str(Lookup(ms.value, "id").value))
            && Lookup(ms.value, "port") == Some(portText)
            && At(c, PortPath) == Some(NumberOrNull(JsParseInt(Lookup(ms.value, "port").value)))
  {
    DecodeVmessLinkOf(VmessPayload(ip, portText, uuid), Js, Compact);
    PayloadValues(ip, portText, uuid);
    VmessConfigFields(NumberOrNull(JsParseInt(portText)), uuid);
  }
}
