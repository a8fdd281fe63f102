/** The VLESS+Reality server's two outputs: the Xray configuration document and the `vless://`
    share link. The Java class and vless-reality.js build the same document (the Java port is
    the parsed integer, the script's is `parseInt(PORT)`) and the same link; a reader of the
    link gives back what was put into it. */
module Vless {
  import opened Wrappers
  import opened Strings
  import opened Numbers
  import opened Json

  const Flow: string := "xtls-rprx-vision"
  const LinkName: string := "VLESS-Reality"
  const LinkScheme: string := "vless://"

  /** The one client: the user id and the Vision flow. */
  function VlessClient(uuid: string): Json {
    Obj([("id", Str(uuid)), ("flow", Str(Flow))])
  }

  /** The Reality block: the site Reality borrows, the names it answers to, the server key and
      the short ids. */
  function RealitySettings(dest: string, serverNames: string, privateKey: string, shortId: string): Json {
    Obj([
      ("show", Bool(false)),
      ("dest", Str(dest)),
      ("xver", Number(0)),
      ("serverNames", Arr([Str(serverNames)])),
      ("privateKey", Str(privateKey)),
      ("shortIds", Arr([Str(shortId)]))])
  }

  function VlessInbound(port: Json, uuid: string, dest: string, serverNames: string, privateKey: string,
                        shortId: string): Json
  {
    Obj([
      ("port", port),
      ("protocol", Str("vless")),
      ("settings", Obj([("clients", Arr([VlessClient(uuid)])), ("decryption", Str("none"))])),
      ("streamSettings", Obj([
        ("network", Str("tcp")),
        ("security", Str("reality")),
        ("realitySettings", RealitySettings(dest, serverNames, privateKey, shortId))])),
      ("sniffing", Obj([
        ("enabled", Bool(true)),
        ("destOverride", Arr([Str("http"), Str("tls"), Str("quic")]))]))])
  }

  const DirectOutbound: Json := Obj([("protocol", Str("freedom")), ("tag", Str("direct"))])

  /** The configuration document, members in the order both languages insert them. */
  function VlessConfig(port: Json, uuid: string, dest: string, serverNames: string, privateKey: string,
                       shortId: string): Json
  {
    Obj([
      ("log", Obj([("loglevel", Str("warning"))])),
      ("inbounds", Arr([VlessInbound(port, uuid, dest, serverNames, privateKey, shortId)])),
      ("outbounds", Arr([DirectOutbound]))])
  }

  const InboundPath: seq<Step> := [Key("inbounds"), Index(0)]
  const PortPath: seq<Step> := InboundPath + [Key("port")]
  const ClientIdPath: seq<Step> := InboundPath + [Key("settings"), Key("clients"), Index(0), Key("id")]
  const RealityPath: seq<Step> := InboundPath + [Key("streamSettings"), Key("realitySettings")]
  const ServerNamePath: seq<Step> := RealityPath + [Key("serverNames"), Index(0)]
  const ShortIdPath: seq<Step> := RealityPath + [Key("shortIds"), Index(0)]
  const PrivateKeyPath: seq<Step> := RealityPath + [Key("privateKey")]
  const DestPath: seq<Step> := RealityPath + [Key("dest")]

  /** The document holds exactly one inbound, and it is the VLESS one. */
  lemma ConfigInbound(port: Json, uuid: string, dest: string, serverNames: string, privateKey: string, shortId: string)
    ensures var c := VlessConfig(port, uuid, dest, serverNames, privateKey, shortId);
            var inbound := VlessInbound(port, uuid, dest, serverNames, privateKey, shortId);
            At(c, [Key("inbounds")]) == Some(Arr([inbound])) && At(c, InboundPath) == Some(inbound)
  {
    var c := VlessConfig(port, uuid, dest, serverNames, privateKey, shortId);
    var inbound := VlessInbound(port, uuid, dest, serverNames, privateKey, shortId);
    LookupAt(c.members, 1);
    assert Lookup(c.members, "inbounds") == Some(Arr([inbound]));
    assert [Key("inbounds")][1..] == [];
    assert At(Arr([inbound]), []) == Some(Arr([inbound]));
    assert At(inbound, []) == Some(inbound);
    assert At(Arr([inbound]), [Index(0)]) == Some(inbound);
    assert InboundPath[1..] == [Index(0)];
  }

  lemma ConfigPort(port: Json, uuid: string, dest: string, serverNames: string, privateKey: string, shortId: string)
    ensures At(VlessConfig(port, uuid, dest, serverNames, privateKey, shortId), PortPath) == Some(port)
  {
    var inbound := VlessInbound(port, uuid, dest, serverNames, privateKey, shortId);
    ConfigInbound(port, uuid, dest, serverNames, privateKey, shortId);
    AtAppend(VlessConfig(port, uuid, dest, serverNames, privateKey, shortId), InboundPath, [Key("port")], inbound);
    assert At(port, []) == Some(port);
  }

  lemma ConfigClientId(port: Json, uuid: string, dest: string, serverNames: string, privateKey: string, shortId: string)
    ensures At(VlessConfig(port, uuid, dest, serverNames, privateKey, shortId), ClientIdPath) == Some(Str(uuid))
  {
    var path := [Key("settings"), Key("clients"), Index(0), Key("id")];
    ConfigInbound(port, uuid, dest, serverNames, privateKey, shortId);
    InboundClientId(port, uuid, dest, serverNames, privateKey, shortId);
    AtAppend(VlessConfig(port, uuid, dest, serverNames, privateKey, shortId), InboundPath, path,
             VlessInbound(port, uuid, dest, serverNames, privateKey, shortId));
    assert ClientIdPath == InboundPath + path;
  }

  lemma InboundClientId(port: Json, uuid: string, dest: string, serverNames: string, privateKey: string, shortId: string)
    ensures At(VlessInbound(port, uuid, dest, serverNames, privateKey, shortId),
               [Key("settings"), Key("clients"), Index(0), Key("id")]) == Some(Str(uuid))
  {
    var inbound := VlessInbound(port, uuid, dest, serverNames, privateKey, shortId);
    var path := [Key("settings"), Key("clients"), Index(0), Key("id")];
    var settings := inbound.members[2].1;
    AtMember(inbound, 2, path);
    AtMember(settings, 0, path[1..]);
    AtItem(settings.members[0].1, path[2..]);
    AtMember(VlessClient(uuid), 0, path[3..]);
    assert path[1..][1..] == path[2..] && path[2..][1..] == path[3..] && path[3..][1..] == [];
  }

  lemma ConfigReality(port: Json, uuid: string, dest: string, serverNames: string, privateKey: string, shortId: string)
    ensures At(VlessConfig(port, uuid, dest, serverNames, privateKey, shortId), RealityPath)
            == Some(RealitySettings(dest, serverNames, privateKey, shortId))
  {
    var path := [Key("streamSettings"), Key("realitySettings")];
    ConfigInbound(port, uuid, dest, serverNames, privateKey, shortId);
    InboundReality(port, uuid, dest, serverNames, privateKey, shortId);
    AtAppend(VlessConfig(port, uuid, dest, serverNames, privateKey, shortId), InboundPath, path,
             VlessInbound(port, uuid, dest, serverNames, privateKey, shortId));
    assert RealityPath == InboundPath + path;
  }

  lemma InboundReality(port: Json, uuid: string, dest: string, serverNames: string, privateKey: string, shortId: string)
    ensures At(VlessInbound(port, uuid, dest, serverNames, privateKey, shortId),
               [Key("streamSettings"), Key("realitySettings")])
            == Some(RealitySettings(dest, serverNames, privateKey, shortId))
  {
    var inbound := VlessInbound(port, uuid, dest, serverNames, privateKey, shortId);
    var path := [Key("streamSettings"), Key("realitySettings")];
    AtMember(inbound, 3, path);
    AtMember(inbound.members[3].1, 2, path[1..]);
    assert path[1..][1..] == [];
  }

  /** The value a one- or two-step path reaches inside the Reality block. */
  lemma RealityAt(dest: string, serverNames: string, privateKey: string, shortId: string)
    ensures var reality := RealitySettings(dest, serverNames, privateKey, shortId);
            At(reality, [Key("serverNames"), Index(0)]) == Some(Str(serverNames))
            && At(reality, [Key("shortIds"), Index(0)]) == Some(Str(shortId))
            && At(reality, [Key("privateKey")]) == Some(Str(privateKey))
            && At(reality, [Key("dest")]) == Some(Str(dest))
  {
    RealityItem(dest, serverNames, privateKey, shortId, 3);
    RealityItem(dest, serverNames, privateKey, shortId, 5);
    RealityMember(dest, serverNames, privateKey, shortId, 4);
    RealityMember(dest, serverNames, privateKey, shortId, 1);
  }

  /** The two one-element arrays of the Reality block. */
  lemma RealityItem(dest: string, serverNames: string, privateKey: string, shortId: string, i: nat)
    requires i == 3 || i == 5
    ensures var reality := RealitySettings(dest, serverNames, privateKey, shortId);
            At(reality, [Key(reality.members[i].0), Index(0)]) == Some(reality.members[i].1.items[0])
  {
    var reality := RealitySettings(dest, serverNames, privateKey, shortId);
    var path := [Key(reality.members[i].0), Index(0)];
    AtMember(reality, i, path);
    AtItem(reality.members[i].1, path[1..]);
    assert path[1..][1..] == [];
  }

  /** The plain string members of the Reality block. */
  lemma RealityMember(dest: string, serverNames: string, privateKey: string, shortId: string, i: nat)
    requires i == 1 || i == 4
    ensures var reality := RealitySettings(dest, serverNames, privateKey, shortId);
            At(reality, [Key(reality.members[i].0)]) == Some(reality.members[i].1)
  {
    var reality := RealitySettings(dest, serverNames, privateKey, shortId);
    AtMember(reality, i, [Key(reality.members[i].0)]);
    assert [Key(reality.members[i].0)][1..] == [];
  }

  lemma ConfigRealityFields(port: Json, uuid: string, dest: string, serverNames: string, privateKey: string,
                            shortId: string)
    ensures var c := VlessConfig(port, uuid, dest, serverNames, privateKey, shortId);
            At(c, ServerNamePath) == Some(Str(serverNames)) && At(c, ShortIdPath) == Some(Str(shortId))
            && At(c, PrivateKeyPath) == Some(Str(privateKey)) && At(c, DestPath) == Some(Str(dest))
  {
    var c := VlessConfig(port, uuid, dest, serverNames, privateKey, shortId);
    var reality := RealitySettings(dest, serverNames, privateKey, shortId);
    ConfigReality(port, uuid, dest, serverNames, privateKey, shortId);
    AtAppend(c, RealityPath, [Key("serverNames"), Index(0)], reality);
    AtAppend(c, RealityPath, [Key("shortIds"), Index(0)], reality);
    AtAppend(c, RealityPath, [Key("privateKey")], reality);
    AtAppend(c, RealityPath, [Key("dest")], reality);
    RealityAt(dest, serverNames, privateKey, shortId);
  }

  /** Where the link's values sit in the document: one inbound with one client, one server
      name, one short id; one outbound, the direct `freedom` one. */
  lemma VlessConfigFields(port: Json, uuid: string, dest: string, serverNames: string, privateKey: string,
                          shortId: string)
    ensures var c := VlessConfig(port, uuid, dest, serverNames, privateKey, shortId);
            At(c, PortPath) == Some(port)
            && At(c, ClientIdPath) == Some(Str(uuid))
            && At(c, ServerNamePath) == Some(Str(serverNames))
            && At(c, ShortIdPath) == Some(Str(shortId))
            && At(c, PrivateKeyPath) == Some(Str(privateKey))
            && At(c, DestPath) == Some(Str(dest))
            && (var ins := At(c, [Key("inbounds")]); ins.Some? && ins.value.Arr? && |ins.value.items| == 1)
            && At(c, [Key("outbounds")]) == Some(Arr([DirectOutbound]))
  {
    ConfigInbound(port, uuid, dest, serverNames, privateKey, shortId);
    ConfigPort(port, uuid, dest, serverNames, privateKey, shortId);
    ConfigClientId(port, uuid, dest, serverNames, privateKey, shortId);
    ConfigRealityFields(port, uuid, dest, serverNames, privateKey, shortId);
    var c := VlessConfig(port, uuid, dest, serverNames, privateKey, shortId);
    LookupAt(c.members, 2);
    assert At(Arr([DirectOutbound]), []) == Some(Arr([DirectOutbound]));
  }

  /** The key and transport parameters that end the link's query. */
  function KeyParams(pbk: string, sid: string): seq<(string, string)> {
    [("pbk", pbk), ("sid", sid), ("type", "tcp"), ("headerType", "none")]
  }

  /** The parameters of the link's query, in the order both sources write them. */
  function LinkParams(sni: string, pbk: string, sid: string): seq<(string, string)> {
    [("encryption", "none"), ("flow", Flow), ("security", "reality"), ("sni", sni), ("fp", "chrome")]
    + KeyParams(pbk, sid)
  }

  /** `name=value`, nothing percent-encoded. */
  function ParamText(p: (string, string)): string {
    p.0 + "=" + p.1
  }

  function ParamTexts(ps: seq<(string, string)>): (r: seq<string>)
    ensures |r| == |ps|
    ensures forall i :: 0 <= i < |ps| ==> r[i] == ParamText(ps[i])
  {
    if ps == [] then [] else [ParamText(ps[0])] + ParamTexts(ps[1..])
  }

  /** `k1=v1&k2=v2…`. */
  function QueryText(ps: seq<(string, string)>): string {
    Join(ParamTexts(ps), "&")
  }

  /** The share link: `vless://uuid@host:port?query#VLESS-Reality`. */
  function VlessLink(uuid: string, host: string, portText: string, sni: string, pbk: string, sid: string): string {
    LinkScheme + uuid + "@" + host + ":" + portText + "?" + QueryText(LinkParams(sni, pbk, sid)) + "#" + LinkName
  }

  lemma QueryOne(p: (string, string))
    ensures QueryText([p]) == ParamText(p)
  {
  }

  lemma QueryCons(p: (string, string), ps: seq<(string, string)>)
    requires ps != []
    ensures QueryText([p] + ps) == ParamText(p) + "&" + QueryText(ps)
  {
    assert ([p] + ps)[1..] == ps;
    assert ParamTexts([p] + ps)[1..] == ParamTexts(ps);
  }

  lemma KeyQuery(pbk: string, sid: string)
    ensures QueryText(KeyParams(pbk, sid)) == "pbk=" + pbk + "&sid=" + sid + "&type=tcp&headerType=none"
  {
    var t2 := [("type", "tcp"), ("headerType", "none")];
    QueryOne(("headerType", "none"));
    QueryCons(("type", "tcp"), [("headerType", "none")]);
    var t1 := [("sid", sid)] + t2;
    QueryCons(("sid", sid), t2);
    assert QueryText(t1) == "sid=" + sid + "&type=tcp&headerType=none";
    QueryCons(("pbk", pbk), t1);
    assert KeyParams(pbk, sid) == [("pbk", pbk)] + t1;
  }

  lemma ServerQuery(sni: string, pbk: string, sid: string)
    ensures QueryText([("sni", sni), ("fp", "chrome")] + KeyParams(pbk, sid))
            == "sni=" + sni + "&fp=chrome&pbk=" + pbk + "&sid=" + sid + "&type=tcp&headerType=none"
  {
    var t := [("fp", "chrome")] + KeyParams(pbk, sid);
    FingerprintQuery(pbk, sid);
    QueryCons(("sni", sni), t);
    assert [("sni", sni), ("fp", "chrome")] + KeyParams(pbk, sid) == [("sni", sni)] + t;
    var k := "pbk=" + pbk + "&sid=" + sid + "&type=tcp&headerType=none";
    assert "sni=" + sni + "&" + ("fp=chrome&" + k) == "sni=" + sni + "&fp=chrome&" + k;
  }

  lemma FingerprintQuery(pbk: string, sid: string)
    ensures QueryText([("fp", "chrome")] + KeyParams(pbk, sid))
            == "fp=chrome&" + ("pbk=" + pbk + "&sid=" + sid + "&type=tcp&headerType=none")
  {
    KeyQuery(pbk, sid);
    QueryCons(("fp", "chrome"), KeyParams(pbk, sid));
    assert ParamText(("fp", "chrome")) + "&" == "fp=chrome&";
  }

  // Joins of the link's fixed text. The verifier compares two string literals character
  // by character, so each lemma below joins at most two short literals and the longer
  // joins are assembled from them through the generic regrouping lemmas.

  lemma ParamLiterals()
    ensures ParamText(("encryption", "none")) == "encryption=none"
    ensures ParamText(("flow", Flow)) == "flow=xtls-rprx-vision"
    ensures ParamText(("security", "reality")) == "security=reality"
  {
  }

  lemma HeadLiteral1()
    ensures "encryption=none" + "&" + "flow=xtls-rprx-vision" == "encryption=none&flow=xtls-rprx-vision"
  {
  }

  lemma HeadLiteral2()
    ensures "encryption=none&flow=xtls-rprx-vision" + "&" + "security=reality" + "&"
            == "encryption=none&flow=xtls-rprx-vision&security=reality&"
  {
  }

  lemma HeadText()
    ensures ParamText(("encryption", "none")) + "&" + ParamText(("flow", Flow)) + "&" + ParamText(("security", "reality")) + "&"
            == "encryption=none&flow=xtls-rprx-vision&security=reality&"
  {
    ParamLiterals();
    HeadLiteral1();
    HeadLiteral2();
  }

  lemma Regroup3(a: string, b: string, c: string, u: string, p: string)
    requires a + "&" + b + "&" + c + "&" == p
    ensures a + "&" + (b + "&" + (c + "&" + u)) == p + u
  {
  }

  /** The three fixed parameters that open the query. */
  lemma HeadQuery(t: seq<(string, string)>)
    requires t != []
    ensures QueryText([("encryption", "none"), ("flow", Flow), ("security", "reality")] + t)
            == "encryption=none&flow=xtls-rprx-vision&security=reality&" + QueryText(t)
  {
    QueryCons(("security", "reality"), t);
    QueryCons(("flow", Flow), [("security", "reality")] + t);
    QueryCons(("encryption", "none"), [("flow", Flow), ("security", "reality")] + t);
    assert [("encryption", "none"), ("flow", Flow), ("security", "reality")] + t
        == [("encryption", "none")] + ([("flow", Flow)] + ([("security", "reality")] + t));
    HeadText();
    Regroup3(ParamText(("encryption", "none")), ParamText(("flow", Flow)), ParamText(("security", "reality")),
             QueryText(t), "encryption=none&flow=xtls-rprx-vision&security=reality&");
  }

  lemma PullPrefix(p: string, l1: string, sni: string, l2: string, pbk: string, l3: string, sid: string, l4: string,
                   l: string)
    requires p + l1 == l
    ensures p + (l1 + sni + l2 + pbk + l3 + sid + l4) == l + sni + l2 + pbk + l3 + sid + l4
  {
  }

  lemma SniLiteral()
    ensures "encryption=none&flow=xtls-rprx-vision&security=reality&" + "sni="
            == "encryption=none&flow=xtls-rprx-vision&security=reality&sni="
  {
  }

  /** The query as one literal with the three values spliced in. */
  lemma QueryLiteral(sni: string, pbk: string, sid: string)
    ensures QueryText(LinkParams(sni, pbk, sid))
            == "encryption=none&flow=xtls-rprx-vision&security=reality&sni=" + sni
               + "&fp=chrome&pbk=" + pbk + "&sid=" + sid + "&type=tcp&headerType=none"
  {
    var t := [("sni", sni), ("fp", "chrome")] + KeyParams(pbk, sid);
    ServerQuery(sni, pbk, sid);
    HeadQuery(t);
    assert LinkParams(sni, pbk, sid) == [("encryption", "none"), ("flow", Flow), ("security", "reality")] + t;
    SniLiteral();
    PullPrefix("encryption=none&flow=xtls-rprx-vision&security=reality&", "sni=", sni, "&fp=chrome&pbk=", pbk,
               "&sid=", sid, "&type=tcp&headerType=none", "encryption=none&flow=xtls-rprx-vision&security=reality&sni=");
  }

  lemma TemplateShape(h: string, q: string, a: string, sni: string, b: string, pbk: string, c: string, sid: string,
                      d: string, name: string, a2: string, d2: string)
    requires q == a + sni + b + pbk + c + sid + d
    requires "?" + a == a2
    requires d + "#" + name == d2
    ensures h + "?" + q + "#" + name == h + a2 + sni + b + pbk + c + sid + d2
  {
  }

  lemma PrefixThrough(q: string, x: string, y: string, a: string, x2: string, a2: string)
    requires x + y == a && q + x == x2 && x2 + y == a2
    ensures q + a == a2
  {
  }

  lemma TemplateLiteral1()
    ensures "encryption=none&flow=xtls-rprx-vision&" + "security=reality&sni="
            == "encryption=none&flow=xtls-rprx-vision&security=reality&sni="
  {
  }

  lemma TemplateLiteral2()
    ensures "?" + "encryption=none&flow=xtls-rprx-vision&" == "?encryption=none&flow=xtls-rprx-vision&"
  {
    QuestionMarkLiteral();
    EncryptionFlowLiteral();
    QueryHeadLiteral();
    PrefixThrough("?", "encryption=none&", "flow=xtls-rprx-vision&", "encryption=none&flow=xtls-rprx-vision&",
                  "?encryption=none&", "?encryption=none&flow=xtls-rprx-vision&");
  }

  lemma QuestionMarkLiteral()
    ensures "?" + "encryption=none&" == "?encryption=none&"
  {
  }

  lemma EncryptionFlowLiteral()
    ensures "encryption=none&" + "flow=xtls-rprx-vision&" == "encryption=none&flow=xtls-rprx-vision&"
  {
  }

  lemma QueryHeadLiteral()
    ensures "?encryption=none&" + "flow=xtls-rprx-vision&" == "?encryption=none&flow=xtls-rprx-vision&"
  {
  }

  lemma TemplateLiteral3()
    ensures "?encryption=none&flow=xtls-rprx-vision&" + "security=reality&sni="
            == "?encryption=none&flow=xtls-rprx-vision&security=reality&sni="
  {
  }

  lemma TemplateLiterals()
    ensures "?" + "encryption=none&flow=xtls-rprx-vision&security=reality&sni="
            == "?encryption=none&flow=xtls-rprx-vision&security=reality&sni="
    ensures "&type=tcp&headerType=none" + "#" + LinkName == "&type=tcp&headerType=none#VLESS-Reality"
  {
    TemplateLiteral1();
    TemplateLiteral2();
    TemplateLiteral3();
    PrefixThrough("?", "encryption=none&flow=xtls-rprx-vision&", "security=reality&sni=",
                  "encryption=none&flow=xtls-rprx-vision&security=reality&sni=",
                  "?encryption=none&flow=xtls-rprx-vision&", "?encryption=none&flow=xtls-rprx-vision&security=reality&sni=");
  }

  /** The script's template literal is the link. */
  lemma TemplateLink(uuid: string, host: string, portText: string, sni: string, pbk: string, sid: string)
    ensures "vless://" + uuid + "@" + host + ":" + portText
            + "?encryption=none&flow=xtls-rprx-vision&security=reality&sni=" + sni
            + "&fp=chrome&pbk=" + pbk + "&sid=" + sid + "&type=tcp&headerType=none#VLESS-Reality"
            == VlessLink(uuid, host, portText, sni, pbk, sid)
  {
    QueryLiteral(sni, pbk, sid);
    TemplateLiterals();
    TemplateShape(LinkScheme + uuid + "@" + host + ":" + portText, QueryText(LinkParams(sni, pbk, sid)),
                  "encryption=none&flow=xtls-rprx-vision&security=reality&sni=", sni, "&fp=chrome&pbk=", pbk, "&sid=",
                  sid, "&type=tcp&headerType=none", LinkName,
                  "?encryption=none&flow=xtls-rprx-vision&security=reality&sni=",
                  "&type=tcp&headerType=none#VLESS-Reality");
  }

  lemma AppendShape(h: string, j1: string, j2: string, j3: string, j4: string, sni: string, j5: string, j6: string,
                    pbk: string, j7: string, sid: string, j8: string, j9: string, j10: string,
                    a2: string, b: string, d2: string)
    requires j1 + j2 + j3 + j4 == a2
    requires j5 + j6 == b
    requires j8 + j9 + j10 == d2
    ensures h + j1 + j2 + j3 + j4 + sni + j5 + j6 + pbk + j7 + sid + j8 + j9 + j10
            == h + a2 + sni + b + pbk + j7 + sid + d2
  {
  }

  lemma AppendLiteral1()
    ensures "?encryption=none" + "&flow=xtls-rprx-vision" == "?encryption=none&flow=xtls-rprx-vision"
  {
  }

  lemma AppendLiteral2()
    ensures "?encryption=none&flow=xtls-rprx-vision" + "&security=reality"
            == "?encryption=none&flow=xtls-rprx-vision&security=reality"
  {
  }

  lemma AppendLiteral3()
    ensures "&fp=chrome" + "&pbk=" == "&fp=chrome&pbk="
    ensures "&type=tcp" + "&headerType=none" + "#VLESS-Reality" == "&type=tcp&headerType=none#VLESS-Reality"
  {
  }

  lemma AppendLiteral4()
    ensures "?encryption=none&flow=xtls-rprx-vision&security=reality" + "&sni="
            == "?encryption=none&flow=xtls-rprx-vision&security=reality&sni="
  {
  }

  lemma AppendLiterals()
    ensures "?encryption=none" + "&flow=xtls-rprx-vision" + "&security=reality" + "&sni="
            == "?encryption=none&flow=xtls-rprx-vision&security=reality&sni="
    ensures "&fp=chrome" + "&pbk=" == "&fp=chrome&pbk="
    ensures "&type=tcp" + "&headerType=none" + "#VLESS-Reality" == "&type=tcp&headerType=none#VLESS-Reality"
  {
    AppendLiteral1();
    AppendLiteral2();
    AppendLiteral3();
    AppendLiteral4();
  }

  /** The Java server's sixteen appends build the link. */
  lemma AppendedLink(uuid: string, host: string, portText: string, sni: string, pbk: string, sid: string)
    ensures "vless://" + uuid + "@" + host + ":" + portText + "?encryption=none" + "&flow=xtls-rprx-vision"
            + "&security=reality" + "&sni=" + sni + "&fp=chrome" + "&pbk=" + pbk + "&sid=" + sid + "&type=tcp"
            + "&headerType=none" + "#VLESS-Reality"
            == VlessLink(uuid, host, portText, sni, pbk, sid)
  {
    AppendLiterals();
    AppendShape("vless://" + uuid + "@" + host + ":" + portText, "?encryption=none", "&flow=xtls-rprx-vision",
                "&security=reality", "&sni=", sni, "&fp=chrome", "&pbk=", pbk, "&sid=", sid, "&type=tcp",
                "&headerType=none", "#VLESS-Reality", "?encryption=none&flow=xtls-rprx-vision&security=reality&sni=",
                "&fp=chrome&pbk=", "&type=tcp&headerType=none#VLESS-Reality");
    TemplateLink(uuid, host, portText, sni, pbk, sid);
  }

  /** A `vless://` link taken apart. */
  datatype VlessUri = VlessUri(id: string, host: string, port: string, params: seq<(string, string)>, name: string)

  /** The pieces of `s` between occurrences of `c`. */
  function SplitOn(s: string, c: char): (parts: seq<string>)
    ensures parts != [] && forall i :: 0 <= i < |parts| ==> c !in parts[i]
    decreases |s|
  {
    match SplitFirst(s, c)
    case None => [s]
    case Some((a, b)) => [a] + SplitOn(b, c)
  }

  /** A query parameter: the name before the first `=`, the value after it. */
  function ParamOf(piece: string): (p: (string, string))
    ensures '=' !in p.0
  {
    match SplitFirst(piece, '=')
    case None => (piece, "")
    case Some((k, v)) => (k, v)
  }

  function ParamsOf(pieces: seq<string>): (ps: seq<(string, string)>)
    ensures |ps| == |pieces|
    ensures forall i :: 0 <= i < |pieces| ==> ps[i] == ParamOf(pieces[i])
  {
    if pieces == [] then [] else [ParamOf(pieces[0])] + ParamsOf(pieces[1..])
  }

  function ParseQuery(q: string): seq<(string, string)> {
    ParamsOf(SplitOn(q, '&'))
  }

  /** Reads a link back; `None` when a delimiter is missing. */
  function ParseVlessLink(link: string): (r: Option<VlessUri>)
    ensures r.Some? ==> StartsWith(link, LinkScheme) && '@' !in r.value.id && '#' !in r.value.name
                        && ':' !in r.value.port
  {
    if !StartsWith(link, LinkScheme) then None
    else
      match SplitFirst(link[|LinkScheme|..], '@')
      case None => None
      case Some((id, after)) =>
        match SplitLast(after, '#')
        case None => None
        case Some((body, name)) =>
          match SplitFirst(body, '?')
          case None => None
          case Some((hostPort, query)) =>
            match SplitLast(hostPort, ':')
            case None => None
            case Some((host, port)) => Some(VlessUri(id, host, port, ParseQuery(query), name))
  }

  /** Splitting undoes joining with a separator the parts do not contain. */
  lemma {:induction false} SplitOnJoin(parts: seq<string>, c: char)
    requires parts != [] && forall i :: 0 <= i < |parts| ==> c !in parts[i]
    ensures SplitOn(Join(parts, [c]), c) == parts
    decreases |parts|
  {
    if |parts| == 1 {
      assert Join(parts, [c]) == parts[0];
    } else {
      var rest := Join(parts[1..], [c]);
      assert Join(parts, [c]) == parts[0] + [c] + rest;
      SplitFirstOf(parts[0], c, rest);
      SplitOnJoin(parts[1..], c);
      assert [parts[0]] + parts[1..] == parts;
    }
  }

  lemma ParamOfText(k: string, v: string)
    requires '=' !in k
    ensures ParamOf(k + "=" + v) == (k, v)
  {
    assert k + "=" + v == k + ['='] + v;
    SplitFirstOf(k, '=', v);
  }

  /** The parameter texts, read back one by one. */
  lemma {:induction false} ParamsOfTexts(ps: seq<(string, string)>)
    requires forall i :: 0 <= i < |ps| ==> '=' !in ps[i].0
    ensures ParamsOf(ParamTexts(ps)) == ps
    decreases |ps|
  {
    if ps != [] {
      ParamOfText(ps[0].0, ps[0].1);
      ParamsOfTexts(ps[1..]);
      assert ParamTexts(ps)[1..] == ParamTexts(ps[1..]);
      assert [ps[0]] + ps[1..] == ps;
    }
  }

  /** A query text is read back as its parameters when no name holds `=` and no name or value
      holds `&`. */
  lemma ParseQueryText(ps: seq<(string, string)>)
    requires ps != []
    requires forall i :: 0 <= i < |ps| ==> '=' !in ps[i].0 && '&' !in ps[i].0 && '&' !in ps[i].1
    ensures ParseQuery(QueryText(ps)) == ps
  {
    var ts := ParamTexts(ps);
    ParamTextsNoAmpersand(ps);
    SplitOnJoin(ts, '&');
    ParamsOfTexts(ps);
  }

  lemma {:induction false} ParamTextsNoAmpersand(ps: seq<(string, string)>)
    requires forall i :: 0 <= i < |ps| ==> '&' !in ps[i].0 && '&' !in ps[i].1
    ensures forall i :: 0 <= i < |ps| ==> '&' !in ParamTexts(ps)[i]
    decreases |ps|
  {
    if ps != [] {
      ParamTextsNoAmpersand(ps[1..]);
      assert '&' !in ps[0].0 + "=" + ps[0].1;
      forall i | 1 <= i < |ps| ensures '&' !in ParamTexts(ps)[i] {
        assert ParamTexts(ps)[i] == ParamTexts(ps[1..])[i - 1];
      }
    }
  }

  /** What can be carried in a link and read back: the uuid holds no `@`, the host and port no
      `?`, the port no `:`, and the query values no `&`. */
  predicate LinkSafe(uuid: string, host: string, portText: string, sni: string, pbk: string, sid: string) {
    '@' !in uuid && '?' !in host && '?' !in portText && ':' !in portText
    && '&' !in sni && '&' !in pbk && '&' !in sid
  }

  lemma LinkRest(p: string, host: string, portText: string, query: string, name: string)
    ensures p + host + ":" + portText + "?" + query + "#" + name
            == p + (host + ":" + portText + "?" + query + "#" + name)
  {
  }

  lemma SchemeStrip(uuid: string, after: string)
    ensures var link := LinkScheme + uuid + "@" + after;
            StartsWith(link, LinkScheme) && link[|LinkScheme|..] == uuid + "@" + after
  {
    var link := LinkScheme + uuid + "@" + after;
    assert link == LinkScheme + (uuid + "@" + after);
  }

  /** The reader takes a link apart at its delimiters whatever the query holds. */
  lemma ParseLinkParts(uuid: string, host: string, portText: string, query: string, name: string)
    requires '@' !in uuid && '?' !in host && '?' !in portText && ':' !in portText && '#' !in name
    ensures ParseVlessLink(LinkScheme + uuid + "@" + host + ":" + portText + "?" + query + "#" + name)
            == Some(VlessUri(uuid, host, portText, ParseQuery(query), name))
  {
    var hostPort := host + ":" + portText;
    var body := hostPort + "?" + query;
    var after := body + "#" + name;
    LinkRest(LinkScheme + uuid + "@", host, portText, query, name);
    SchemeStrip(uuid, after);
    SplitFirstOf(uuid, '@', after);
    SplitLastOf(body, '#', name);
    assert '?' !in hostPort;
    SplitFirstOf(hostPort, '?', query);
    SplitLastOf(host, ':', portText);
  }

  /** No name in the query holds `=` or `&`, and no value holds `&` when the three spliced
      values do not. */
  lemma LinkParamsReadable(sni: string, pbk: string, sid: string)
    requires '&' !in sni && '&' !in pbk && '&' !in sid
    ensures var ps := LinkParams(sni, pbk, sid);
            ps != [] && forall i :: 0 <= i < |ps| ==> '=' !in ps[i].0 && '&' !in ps[i].0 && '&' !in ps[i].1
  {
    var ps := LinkParams(sni, pbk, sid);
    forall i | 0 <= i < |ps| ensures '=' !in ps[i].0 && '&' !in ps[i].0 && '&' !in ps[i].1 {
      if i < 5 {
        assert ps[i] == [("encryption", "none"), ("flow", Flow), ("security", "reality"), ("sni", sni), ("fp", "chrome")][i];
      } else {
        assert ps[i] == KeyParams(pbk, sid)[i - 5];
      }
    }
  }

  /** The link reader gives back every value the link was built from. */
  lemma ParseVlessLinkOf(uuid: string, host: string, portText: string, sni: string, pbk: string, sid: string)
    requires LinkSafe(uuid, host, portText, sni, pbk, sid)
    ensures ParseVlessLink(VlessLink(uuid, host, portText, sni, pbk, sid))
            == Some(VlessUri(uuid, host, portText, LinkParams(sni, pbk, sid), LinkName))
  {
    ParseLinkParts(uuid, host, portText, QueryText(LinkParams(sni, pbk, sid)), LinkName);
    LinkParamsReadable(sni, pbk, sid);
    ParseQueryText(LinkParams(sni, pbk, sid));
  }

  /** A parameter of the link's query, by name. */
  function Param(u: VlessUri, name: string): Option<string> {
    Lookup(u.params, name)
  }

  /** Looked up by name, each of the link's nine query parameters has its value: the fixed
      encryption, flow, security, fingerprint and transport settings, and the given server name,
      public key and short id. */
  lemma LinkParamValues(sni: string, pbk: string, sid: string)
    ensures var ps := LinkParams(sni, pbk, sid);
            Lookup(ps, "sni") == Some(sni) && Lookup(ps, "pbk") == Some(pbk) && Lookup(ps, "sid") == Some(sid)
    ensures var ps := LinkParams(sni, pbk, sid);
            Lookup(ps, "encryption") == Some("none") && Lookup(ps, "flow") == Some(Flow)
            && Lookup(ps, "security") == Some("reality") && Lookup(ps, "fp") == Some("chrome")
    ensures var ps := LinkParams(sni, pbk, sid);
            Lookup(ps, "type") == Some("tcp") && Lookup(ps, "headerType") == Some("none")
  {
    LinkParam(sni, pbk, sid, 0);
    LinkParam(sni, pbk, sid, 1);
    LinkParam(sni, pbk, sid, 2);
    LinkParam(sni, pbk, sid, 3);
    LinkParam(sni, pbk, sid, 4);
    LinkParam(sni, pbk, sid, 5);
    LinkParam(sni, pbk, sid, 6);
    LinkParam(sni, pbk, sid, 7);
    LinkParam(sni, pbk, sid, 8);
  }

  /** The `i`-th parameter of the link is the one its name finds: no name occurs twice. */
  lemma LinkParam(sni: string, pbk: string, sid: string, i: nat)
    requires i < 9
    ensures var ps := LinkParams(sni, pbk, sid);
            |ps| == 9 && Lookup(ps, ps[i].0) == Some(ps[i].1)
  {
    var ps := LinkParams(sni, pbk, sid);
    var names := seq(9, j requires 0 <= j < 9 => ps[j].0);
    assert names == ["encryption", "flow", "security", "sni", "fp", "pbk", "sid", "type", "headerType"];
    LookupAt(ps, i);
  }

  /** The Java server's link and document agree: the link's id, server name and short id are
      the document's client id, `serverNames[0]` and `shortIds[0]`, and its port text parses to
      the document's port. */
  lemma JavaLinkMatchesConfig(port: int, uuid: string, host: string, dest: string, serverNames: string,
                              privateKey: string, publicKey: string, shortId: string)
    requires IntMin <= port <= IntMax
    requires LinkSafe(uuid, host, IntToString(port), serverNames, publicKey, shortId)
    ensures var c := VlessConfig(Number(port), uuid, dest, serverNames, privateKey, shortId);
            var u := ParseVlessLink(VlessLink(uuid, host, IntToString(port), serverNames, publicKey, shortId));
            u.Some?
            && At(c, ClientIdPath) == Some(Str(u.value.id))
            && JavaParseInt(u.value.port).Some? && At(c, PortPath) == Some(Number(JavaParseInt(u.value.port).value))
            && Param(u.value, "sni").Some? && At(c, ServerNamePath) == Some(Str(Param(u.value, "sni").value))
            && Param(u.value, "sid").Some? && At(c, ShortIdPath) == Some(Str(Param(u.value, "sid").value))
  {
    ParseVlessLinkOf(uuid, host, IntToString(port), serverNames, publicKey, shortId);
    VlessConfigFields(Number(port), uuid, dest, serverNames, privateKey, shortId);
    LinkParamValues(serverNames, publicKey, shortId);
    JavaParseIntOfString(port);
  }

  /** The script's link and document agree the same way, except that the document holds
      `parseInt(PORT)` (null where that is NaN) while the link holds PORT itself. */
  lemma JsLinkMatchesConfig(portText: string, uuid: string, host: string, dest: string, serverNames: string,
                            privateKey: string, publicKey: string, shortId: string)
    requires LinkSafe(uuid, host, portText, serverNames, publicKey, shortId)
    ensures var c := VlessConfig(NumberOrNull(JsParseInt(portText)), uuid, dest, serverNames, privateKey, shortId);
            var u := ParseVlessLink(VlessLink(uuid, host, portText, serverNames, publicKey, shortId));
            u.Some?
            && At(c, ClientIdPath) == Some(Str(u.value.id))
            && u.value.port == portText && At(c, PortPath) == Some(NumberOrNull(JsParseInt(u.value.port)))
            && Param(u.value, "sni").Some? && At(c, ServerNamePath) == Some(Str(Param(u.value, "sni").value))
            && Param(u.value, "sid").Some? && At(c, ShortIdPath) == Some(Str(Param(u.value, "sid").value))
  {
    ParseVlessLinkOf(uuid, host, portText, serverNames, publicKey, shortId);
    VlessConfigFields(NumberOrNull(JsParseInt(portText)), uuid, dest, serverNames, privateKey, shortId);
    LinkParamValues(serverNames, publicKey, shortId);
  }
}
