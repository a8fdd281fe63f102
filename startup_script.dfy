/** startup.js `main`: the VMess server without registration, with the status-checked download
    and the id of `getUUID`. */
module StartupScript {
  import opened Numbers
  import opened Json
  import Env
  import Uuid
  import Arch
  import Fetch
  import Vmess
  import Utf8
  import Base64
  import Registrar
  import opened Runs

  /** One run of the script. `auto` is what `autoGenerateUUID()` would return, `ip` what
      `getServerIP` returns and `response` the release server's answer to the 64-bit archive
      request. A refused or failed download, or an archive without the binary, exits with
      status 1; otherwise the script writes the document and the link and starts the launch
      loop, with nothing uploaded. */
  method Launch(env: Env.Environment, auto: string, ws: Fetch.Workspace, ip: string, response: Fetch.Response)
    returns (r: Run)
    modifies ws
    ensures var d := Fetch.JsDownload(old(ws.xray), Arch.DownloadUrl("64"), response, true);
            ws.xray == d.0 && (r.Serving? <==> !d.1.DownloadFailed?)
    ensures r.Exited? ==> r.code == 1
    ensures r.Serving? ==>
              var portText := Env.JsPortText(env);
              var uuid := Uuid.GetUuid(env, "VMESS_UUID", auto);
              r.config == Vmess.VmessConfig(NumberOrNull(JsParseInt(portText)), uuid)
              && r.link == Vmess.VmessLink(Vmess.VmessPayload(ip, portText, uuid), Js, Compact)
              && r.upload == Registrar.NoUpload && r.report == Registrar.Skipped
  {
    var port := Env.JsPortText(env);
    var uuid := Uuid.GetUuid(env, "VMESS_UUID", auto);
    if ws.xray.None? {
      var d := Fetch.JsDownload(ws.xray, Arch.DownloadUrl("64"), response, true);
      if d.1.DownloadFailed? {
        return Exited(1);
      }
      ws.xray := d.0;
    }
    var config := Vmess.VmessConfig(NumberOrNull(JsParseInt(port)), uuid);
    var payload := FlatObject(Vmess.VmessPayload(ip, port, uuid));
    var link := "vmess://" + Base64.Encode(Utf8.Encode(Write(payload, Js, Compact, 0)));
    r := Serving(config, link, Registrar.NoUpload, Registrar.Skipped);
  }
}
