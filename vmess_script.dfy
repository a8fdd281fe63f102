/** vmess.js `main`: the address, the download, the document, the link and the registration,
    as written and with the corrected registration step. */
module VmessScript {
  import opened Wrappers
  import opened Numbers
  import opened Json
  import Env
  import Arch
  import Fetch
  import Vmess
  import Utf8
  import Base64
  import Registrar
  import opened Runs

  /** The uploaded request: nothing when the endpoint step returned early, else a POST of the
      node name and the link to the endpoint. */
  function VmessPost(endpoint: Option<string>, link: string, ip: string, port: string): (u: Registrar.Upload)
    ensures u.NoUpload? <==> endpoint.None?
    ensures u.Post? ==> u.url == endpoint.value && u.body == Registrar.VmessUploadBody(link, ip, port)
  {
    match endpoint
    case None => Registrar.NoUpload
    case Some(url) => Registrar.Post(url, Registrar.VmessUploadBody(link, ip, port))
  }

  /** One run of the script as written. `randomUuid` is `crypto.randomUUID()`, `ip` what
      `getPublicIP` returns, `response` the release server's answer to the 64-bit archive
      request, `isTty`, `choice` and `custom` the terminal and the answers to its prompts, and
      `reply` the management API's answer. The script always fetches the 64-bit archive and
      writes whatever body comes back, whatever the status. A failed download or unzip exits
      with status 1, and so does a registration endpoint without a scheme: `new URL` throws
      inside the upload's promise, which rejects into `main`'s `catch`. */
  method Launch(env: Env.Environment, randomUuid: string, ws: Fetch.Workspace, ip: string, response: Fetch.Response,
                isTty: bool, choice: string, custom: string, reply: Registrar.Reply)
    returns (r: Run)
    modifies ws
    ensures var d := Fetch.JsDownload(old(ws.xray), Arch.DownloadUrl("64"), response, false);
            ws.xray == d.0
            && (r.Serving? <==> !d.1.DownloadFailed?
                                && Registrar.VmessUploadAsWritten(Registrar.Endpoint(env, isTty, choice, custom), reply)
                                   != Registrar.Fatal)
    ensures r.Exited? ==> r.code == 1
    ensures r.Serving? ==>
              var portText := Env.JsPortText(env);
              var uuid := Env.OrElse(env, "VMESS_UUID", randomUuid);
              var endpoint := Registrar.Endpoint(env, isTty, choice, custom);
              r.config == Vmess.VmessConfig(NumberOrNull(JsParseInt(portText)), uuid)
              && r.link == Vmess.VmessLink(Vmess.VmessPayload(ip, portText, uuid), Js, Compact)
              && r.upload == VmessPost(endpoint, r.link, ip, portText)
              && r.report == Registrar.VmessUploadAsWritten(endpoint, reply)
  {
    var installed := InstallXray(ws, response);
    if !installed {
      return Exited(1);
    }
    var port := Env.JsPortText(env);
    var config, link := Documents(env, randomUuid, ip);
    var endpoint := Registrar.ResolveEndpoint(env, isTty, choice, custom);
    var report := Registrar.VmessUploadAsWritten(endpoint, reply);
    if report == Registrar.Fatal {
      return Exited(1);
    }
    r := Serving(config, link, VmessPost(endpoint, link, ip, port), report);
  }

  /** The same run with the corrected registration step (`Registrar.VmessUpload`), under which
      no registration failure ends the process: only a failed download exits. */
  method LaunchCorrected(env: Env.Environment, randomUuid: string, ws: Fetch.Workspace, ip: string,
                         response: Fetch.Response, isTty: bool, choice: string, custom: string,
                         reply: Registrar.Reply)
    returns (r: Run)
    modifies ws
    ensures var d := Fetch.JsDownload(old(ws.xray), Arch.DownloadUrl("64"), response, false);
            ws.xray == d.0 && (r.Serving? <==> !d.1.DownloadFailed?)
    ensures r.Exited? ==> r.code == 1
    ensures r.Serving? ==>
              var portText := Env.JsPortText(env);
              var uuid := Env.OrElse(env, "VMESS_UUID", randomUuid);
              var endpoint := Registrar.Endpoint(env, isTty, choice, custom);
              r.config == Vmess.VmessConfig(NumberOrNull(JsParseInt(portText)), uuid)
              && r.link == Vmess.VmessLink(Vmess.VmessPayload(ip, portText, uuid), Js, Compact)
              && r.upload == VmessPost(endpoint, r.link, ip, portText)
              && r.report == Registrar.VmessUpload(endpoint, reply)
  {
    var installed := InstallXray(ws, response);
    if !installed {
      return Exited(1);
    }
    var port := Env.JsPortText(env);
    var config, link := Documents(env, randomUuid, ip);
    var endpoint := Registrar.ResolveEndpoint(env, isTty, choice, custom);
    r := Serving(config, link, VmessPost(endpoint, link, ip, port), Registrar.VmessUpload(endpoint, reply));
  }

  /** `downloadXray`: the 64-bit archive unless `./xray` exists, with no status check;
      `false` where the script exits with status 1. */
  method InstallXray(ws: Fetch.Workspace, response: Fetch.Response) returns (ok: bool)
    modifies ws
    ensures var d := Fetch.JsDownload(old(ws.xray), Arch.DownloadUrl("64"), response, false);
            ws.xray == d.0 && (ok <==> !d.1.DownloadFailed?)
  {
    ok := true;
    if ws.xray.None? {
      var d := Fetch.JsDownload(ws.xray, Arch.DownloadUrl("64"), response, false);
      if d.1.DownloadFailed? {
        return false;
      }
      ws.xray := d.0;
    }
  }

  /** `generateXrayConfig` and `generateVMessLink`: the document of the port text parsed by
      `parseInt`, and `vmess://` followed by Base64 of the compact JSON payload. */
  method Documents(env: Env.Environment, randomUuid: string, ip: string) returns (config: Json, link: string)
    ensures var portText := Env.JsPortText(env);
            var uuid := Env.OrElse(env, "VMESS_UUID", randomUuid);
            config == Vmess.VmessConfig(NumberOrNull(JsParseInt(portText)), uuid)
            && link == Vmess.VmessLink(Vmess.VmessPayload(ip, portText, uuid), Js, Compact)
  {
    var port := Env.JsPortText(env);
    var uuid := Env.OrElse(env, "VMESS_UUID", randomUuid);
    config := Vmess.VmessConfig(NumberOrNull(JsParseInt(port)), uuid);
    var payload := FlatObject(Vmess.VmessPayload(ip, port, uuid));
    link := "vmess://" + Base64.Encode(Utf8.Encode(Write(payload, Js, Compact, 0)));
  }
}
