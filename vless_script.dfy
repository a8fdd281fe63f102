/** vless-reality.js `main`: the settings read at load time, then the address, the download,
    the keys, the document, the link and the registration, in that order. */
module VlessScript {
  import opened Wrappers
  import opened Numbers
  import opened Json
  import Env
  import Uuid
  import Arch
  import Fetch
  import RealityKeys
  import Hex
  import Vless
  import Registrar
  import opened Runs

  /** One run of the script. `auto` is what `autoGenerateUUID()` would return, `ip` what
      `getServerIP` returns, `uname` the output of `uname -m` (`None` when it fails),
      `response` the release server's answer, `keygen` the output of `./xray x25519` (`None`
      when it cannot run), `random` the eight bytes of `crypto.randomBytes` and `reply` the
      management API's answer. Every failure before the launch loop exits with status 1. */
  method Launch(env: Env.Environment, auto: string, ws: Fetch.Workspace, ip: string, uname: Option<string>,
                response: Fetch.Response, keygen: Option<string>, random: seq<Byte>, reply: Registrar.Reply)
    returns (r: Run)
    requires |random| == 8
    modifies ws
    ensures var d := Fetch.JsDownload(old(ws.xray), Arch.DownloadUrl(Arch.JsDetectArchitecture(uname)), response, true);
            ws.xray == d.0
            && (r.Serving? <==> !d.1.DownloadFailed? && keygen.Some?
                                && RealityKeys.JsRealityKeys(keygen.value).Some?)
    ensures r.Exited? ==> r.code == 1
    ensures r.Serving? ==>
              var portText := Env.JsPortText(env);
              var uuid := Uuid.GetUuid(env, "VLESS_UUID", auto);
              var serverNames := Env.OrElse(env, "REALITY_SERVER_NAMES", Env.DefaultServerNames);
              var keys := RealityKeys.JsRealityKeys(keygen.value).value;
              r.config == Vless.VlessConfig(NumberOrNull(JsParseInt(portText)), uuid,
                                            Env.OrElse(env, "REALITY_DEST", Env.DefaultDest), serverNames,
                                            keys.0, Hex.Hex(random))
              && r.link == Vless.VlessLink(uuid, ip, portText, serverNames, keys.1, Hex.Hex(random))
              && r.upload == Registrar.VlessUploadPlan(env, r.link, ip, portText)
              && r.report == Registrar.VlessUpload(r.upload, reply)
  {
    var portText := Env.JsPortText(env);
    var dest := Env.OrElse(env, "REALITY_DEST", Env.DefaultDest);
    var serverNames := Env.OrElse(env, "REALITY_SERVER_NAMES", Env.DefaultServerNames);
    var uuid := Uuid.GetUuid(env, "VLESS_UUID", auto);
    var installed := InstallXray(ws, uname, response);
    if !installed {
      return Exited(1);
    }
    if keygen.None? {
      return Exited(1);
    }
    var keys := RealityKeys.JsRealityKeys(keygen.value);
    if keys.None? {
      return Exited(1);
    }
    var privateKey := keys.value.0;
    var publicKey := keys.value.1;
    var shortId := Hex.Hex(random);
    var config := Vless.VlessConfig(NumberOrNull(JsParseInt(portText)), uuid, dest, serverNames, privateKey, shortId);
    var link := ShareLink(uuid, ip, portText, serverNames, publicKey, shortId);
    var upload := Registrar.VlessUploadPlan(env, link, ip, portText);
    var report := Registrar.VlessUpload(upload, reply);
    r := Serving(config, link, upload, report);
  }

  /** The download step of the script's `main`: fetch the archive for the detected
      architecture unless `./xray` exists; `false` where the script exits with status 1. */
  method InstallXray(ws: Fetch.Workspace, uname: Option<string>, response: Fetch.Response) returns (ok: bool)
    modifies ws
    ensures var d := Fetch.JsDownload(old(ws.xray), Arch.DownloadUrl(Arch.JsDetectArchitecture(uname)), response, true);
            ws.xray == d.0 && (ok <==> !d.1.DownloadFailed?)
  {
    var arch := Arch.JsDetectArchitecture(uname);
    ok := true;
    if ws.xray.None? {
      var d := Fetch.JsDownload(ws.xray, Arch.DownloadUrl(arch), response, true);
      if d.1.DownloadFailed? {
        return false;
      }
      ws.xray := d.0;
    }
  }

  /** The script's template literal for the share link. */
  method ShareLink(uuid: string, ip: string, portText: string, serverNames: string, publicKey: string,
                   shortId: string) returns (link: string)
    ensures link == Vless.VlessLink(uuid, ip, portText, serverNames, publicKey, shortId)
  {
    link := "vless://" + uuid + "@" + ip + ":" + portText
            + "?encryption=none&flow=xtls-rprx-vision&security=reality&sni=" + serverNames
            + "&fp=chrome&pbk=" + publicKey + "&sid=" + shortId + "&type=tcp&headerType=none#VLESS-Reality";
    Vless.TemplateLink(uuid, ip, portText, serverNames, publicKey, shortId);
  }
}
