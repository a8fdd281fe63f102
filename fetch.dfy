/** Getting the Xray binary into the working directory. Every launcher first looks for `./xray`
    and, when it is there, makes no request at all. Otherwise it fetches the release archive
    and puts the archive's `xray` entry in place. The Java servers copy the first entry named
    `xray` and treat an archive without one as success; the scripts hand the archive to
    `unzip -qo x.zip xray`, which fails on an archive without that entry, and then exit 1. */
module Fetch {
  import opened Wrappers
  import opened Numbers
  import opened Http
  import Arch

  /** One entry of the release archive, in archive order. */
  datatype ZipEntry = ZipEntry(name: string, data: seq<Byte>)

  /** What the release server answered: nothing (the connection failed), or an HTTP status and,
      when the body is a zip archive, its entries. */
  datatype Response =
    | Unreachable
    | Answered(status: int, archive: Option<seq<ZipEntry>>)

  /** How a download step ended. */
  datatype Download =
    | AlreadyPresent
    | Installed(url: string)
    | NothingExtracted(url: string)
    | DownloadFailed(url: string)

  const BinaryName: string := "xray"

  /** The index of the first entry named exactly `xray`. */
  function FirstBinary(entries: seq<ZipEntry>): (r: Option<nat>)
    ensures r.Some? ==> r.value < |entries| && entries[r.value].name == BinaryName
                        && forall j :: 0 <= j < r.value ==> entries[j].name != BinaryName
    ensures r.None? <==> forall j :: 0 <= j < |entries| ==> entries[j].name != BinaryName
  {
    if entries == [] then None
    else if entries[0].name == BinaryName then Some(0)
    else match FirstBinary(entries[1..])
      case None => None
      case Some(i) => Some(i + 1)
  }

  /** The entries a Java `ZipInputStream` yields: a body that is not a zip archive yields none. */
  function JavaEntries(archive: Option<seq<ZipEntry>>): seq<ZipEntry> {
    match archive
    case Some(entries) => entries
    case None => []
  }

  /** The Java entry loop: read entries until one is named `xray`, copy that one and stop. */
  method SelectXrayEntry(entries: seq<ZipEntry>) returns (r: Option<nat>)
    ensures r == FirstBinary(entries)
  {
    var i := 0;
    while i < |entries|
      invariant 0 <= i <= |entries|
      invariant forall j :: 0 <= j < i ==> entries[j].name != BinaryName
    {
      if entries[i].name == BinaryName {
        r := Some(i);
        var f := FirstBinary(entries);
        assert f.Some? && f.value <= i;
        return;
      }
      i := i + 1;
    }
    r := None;
  }

  /** Java `downloadXrayIfNeeded` on the state of `./xray`: the new state and how it ended.
      An existing binary is left alone and nothing is requested; a status other than 200 is an
      error; a 200 installs the first `xray` entry, and an archive without one installs
      nothing and is not an error. */
  function JavaDownload(xray: Option<seq<Byte>>, arch: string, response: Response): (r: (Option<seq<Byte>>, Download))
    ensures xray.Some? ==> r == (xray, AlreadyPresent)
    ensures xray.None? ==> !r.1.AlreadyPresent? && r.1.url == Arch.DownloadUrl(arch)
    ensures xray.None? ==> (r.1.DownloadFailed? <==> !(response.Answered? && response.status == 200))
    ensures r.1.DownloadFailed? || r.1.NothingExtracted? ==> r.0.None?
    ensures r.1.Installed? <==> xray.None? && response.Answered? && response.status == 200
                                && FirstBinary(JavaEntries(response.archive)).Some?
    ensures r.1.Installed? ==>
              r.0 == Some(JavaEntries(response.archive)[FirstBinary(JavaEntries(response.archive)).value].data)
  {
    if xray.Some? then (xray, AlreadyPresent)
    else
      var url := Arch.DownloadUrl(arch);
      match response
      case Unreachable => (None, DownloadFailed(url))
      case Answered(status, archive) =>
        if status != 200 then (None, DownloadFailed(url))
        else
          var entries := JavaEntries(archive);
          match FirstBinary(entries)
          case Some(k) => (Some(entries[k].data), Installed(url))
          case None => (None, NothingExtracted(url))
  }

  /** The working directory, as far as the launchers look at it: the `xray` file, if any. */
  class Workspace {
    var xray: Option<seq<Byte>>

    constructor(xray: Option<seq<Byte>>)
      ensures this.xray == xray
    {
      this.xray := xray;
    }
  }

  /** Java `downloadXrayIfNeeded`, the same in both servers; `osArch` is the `os.arch` property
      and `response` what the release server sends back. */
  method DownloadXrayIfNeeded(ws: Workspace, osArch: string, response: Response) returns (r: Download)
    modifies ws
    ensures (ws.xray, r) == JavaDownload(old(ws.xray), Arch.JavaDetectArchitecture(osArch), response)
  {
    if ws.xray.Some? {
      return AlreadyPresent;
    }
    var arch := Arch.JavaDetectArchitecture(osArch);
    var url := Arch.DownloadUrl(arch);
    if response.Unreachable? || response.status != 200 {
      return DownloadFailed(url);
    }
    var entries := JavaEntries(response.archive);
    var k := SelectXrayEntry(entries);
    if k.Some? {
      ws.xray := Some(entries[k.value].data);
      return Installed(url);
    }
    return NothingExtracted(url);
  }

  /** The scripts' download step: `existsSync`, then the fetch, then `unzip -qo x.zip xray`.
      `checkStatus` says whether a status outside 2xx is refused before unzipping, as
      `downloadFile` does in vless-reality.js and startup.js; the https download of vmess.js
      writes whatever body it gets. Every failure ends the process with exit code 1. */
  function JsDownload(xray: Option<seq<Byte>>, url: string, response: Response, checkStatus: bool)
    : (r: (Option<seq<Byte>>, Download))
    ensures xray.Some? ==> r == (xray, AlreadyPresent)
    ensures xray.None? ==> !r.1.AlreadyPresent? && !r.1.NothingExtracted? && r.1.url == url
    ensures r.1.DownloadFailed? ==> r.0.None?
    ensures r.1.Installed? <==> xray.None? && response.Answered? && (checkStatus ==> IsOk(response.status))
                                && response.archive.Some? && FirstBinary(response.archive.value).Some?
    ensures r.1.Installed? ==> r.0 == Some(response.archive.value[FirstBinary(response.archive.value).value].data)
  {
    if xray.Some? then (xray, AlreadyPresent)
    else
      match response
      case Unreachable => (None, DownloadFailed(url))
      case Answered(status, archive) =>
        if checkStatus && !IsOk(status) then (None, DownloadFailed(url))
        else
          match archive
          case None => (None, DownloadFailed(url))
          case Some(entries) =>
            match FirstBinary(entries)
            case Some(k) => (Some(entries[k].data), Installed(url))
            case None => (None, DownloadFailed(url))
  }

  /** Once a download has put the binary in place, the next start makes no request, whatever
      the server would answer. */
  lemma JavaDownloadIdempotent(arch: string, first: Response, second: Response)
    requires JavaDownload(None, arch, first).1.Installed?
    ensures var after := JavaDownload(None, arch, first).0;
            after.Some? && JavaDownload(after, arch, second) == (after, AlreadyPresent)
  {
  }

  lemma JsDownloadIdempotent(url: string, first: Response, second: Response, checkStatus: bool)
    requires JsDownload(None, url, first, checkStatus).1.Installed?
    ensures var after := JsDownload(None, url, first, checkStatus).0;
            after.Some? && JsDownload(after, url, second, checkStatus) == (after, AlreadyPresent)
  {
  }

  /** A Java download that found no `xray` entry leaves the directory as it was, so the next
      start requests the archive again. */
  lemma NothingExtractedRetries(arch: string, first: Response, second: Response)
    requires JavaDownload(None, arch, first).1.NothingExtracted?
    ensures JavaDownload(None, arch, first).0 == None
    ensures JavaDownload(JavaDownload(None, arch, first).0, arch, second).1 != AlreadyPresent
  {
  }

  /** On a 200 answer carrying a binary, the Java servers and the checking scripts install the
      same bytes from the same URL. */
  lemma DownloadsAgree(arch: string, entries: seq<ZipEntry>)
    requires FirstBinary(entries).Some?
    ensures JavaDownload(None, arch, Answered(200, Some(entries)))
            == JsDownload(None, Arch.DownloadUrl(arch), Answered(200, Some(entries)), true)
  {
  }

  /** An archive without an `xray` entry is where they part: the Java servers carry on with no
      binary, the scripts stop. */
  lemma MissingEntryDiverges(arch: string, entries: seq<ZipEntry>, checkStatus: bool)
    requires FirstBinary(entries).None?
    ensures JavaDownload(None, arch, Answered(200, Some(entries))) == (None, NothingExtracted(Arch.DownloadUrl(arch)))
    ensures JsDownload(None, Arch.DownloadUrl(arch), Answered(200, Some(entries)), checkStatus)
            == (None, DownloadFailed(Arch.DownloadUrl(arch)))
  {
  }

  /** Without the status check a refused request still installs whatever archive came back;
      with it, the same answer stops the script. */
  lemma UncheckedStatus(url: string, status: int, entries: seq<ZipEntry>)
    requires !IsOk(status) && FirstBinary(entries).Some?
    ensures JsDownload(None, url, Answered(status, Some(entries)), false).1 == Installed(url)
    ensures JsDownload(None, url, Answered(status, Some(entries)), true).1 == DownloadFailed(url)
  {
  }
}
