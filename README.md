# Xray launcher model

This project models the launcher programs of an Xray proxy deployment. Each program prepares
one Xray server, and there are five of them:

- `VLessRealityServer` and `VMessServer`, written in Java;
- `vless-reality.js` and `vmess.js`, written for Node, and `startup.js`, written for Bun.

Every launcher follows the same path:

1. It reads its settings from the environment: the port, the client UUID, and for VLESS+Reality
   the camouflage destination and server names.
2. It installs the `xray` binary unless it is already there. To do that it picks the release
   archive that matches the machine's architecture and extracts the archive's `xray` entry.
3. For Reality only, it reads a key pair from `xray x25519` and draws an 8-byte short id.
4. It writes the configuration document `c.json` and the share link (`vless://…` or
   `vmess://<base64 JSON>`).
5. Two of the scripts then register the node with a management API.

The model is split into modules:

- Shared pieces, one module each:
  - environment lookups (`Env`);
  - integer parsing and printing (`Numbers`);
  - hex, UTF-8 and Base64 encoding (`Hex`, `Utf8`, `Base64`);
  - UUID selection (`Uuid`);
  - architecture detection and the release URL (`Arch`);
  - the download step (`Fetch`);
  - key-output parsing (`RealityKeys`);
  - the JSON document and its writer and reader (`Json`, `JsonRead`);
  - the two protocol layouts (`Vless`, `Vmess`);
  - node registration (`Registrar`).
- Drivers, one module per source file:
  - the Java servers are classes whose `start` methods update the objects' fields (`VlessServer`, `VmessServer`);
  - each script's `main` is a method returning a `Runs.Run` (`VlessScript`, `VmessScript`, `StartupScript`).

Everything the outside world provides is an explicit parameter:

- the environment (a map);
- `os.arch` or the output of `uname -m`;
- the public address;
- the release server's answer;
- the output of `xray x25519`;
- random bytes and random UUIDs;
- the terminal answers;
- the management API's reply.

Behaviours of the code worth knowing:

- The Java VLESS link carries `&security=reality`, like the script's link.
- When the Java servers find no `xray` entry in a 200 answer, they go on without a binary and
  raise no error; the scripts stop with exit code 1 (`Fetch.JavaDownload`,
  `Fetch.MissingEntryDiverges`).
- The Java VMess link is Base64 of Gson's *pretty-printed* JSON. The scripts encode compact
  JSON (`Vmess.VmessLink` with `Gson, Indented` against `Js, Compact`).
- The script's regex `Private key: (\S+)` matches at the leftmost position that is followed by a
  non-space character, not at the first occurrence of the label (`RealityKeys.JsKeyMatch`).
- The Java key parser takes `line.split(":\\s*")[1]`. When nothing follows the colon, `split`
  drops the trailing empty piece, and the index throws (`RealityKeys.JavaEmptyValueThrows`).

## Model

| member | source | states |
|---|---|---|
| Strings.JavaText | src/main/java/com/proxy/vless/VLessRealityServer.java:342-351 | a `null` appended to a `StringBuilder` prints as `null`, any other string as itself |
| Strings.ContainsIff | src/main/java/com/proxy/vless/VLessRealityServer.java:185-189 | `contains` holds exactly when the pattern occurs at some index |
| Strings.ToLower | src/main/java/com/proxy/vless/VLessRealityServer.java:183 | on the ASCII text `os.arch` reports, lower-casing keeps the length and maps every character on its own (`A`-`Z` to `a`-`z`, the rest unchanged) |
| Numbers.JavaParseInt | src/main/java/com/proxy/vless/VLessRealityServer.java:43-44 | `Integer.parseInt` succeeds only with a value inside the 32-bit range |
| Numbers.JavaParseIntOfString | src/main/java/com/proxy/vless/VLessRealityServer.java:43-44 | parsing the decimal text of any 32-bit int gives the int back |
| Numbers.DigitsRoundTrip | src/main/java/com/proxy/vmess/VMessServer.java:282 | the digits `String.valueOf` prints for a natural number read back as that number |
| Numbers.JsParseIntOfString | vless-reality.js:285 | `parseInt` of the decimal text of any integer gives the integer back |
| Numbers.JsParseUnsigned | vless-reality.js:285 | `parseInt` of a non-empty digit string is its decimal value, without a range limit |
| Env.GetOrDefault | src/main/java/com/proxy/vless/VLessRealityServer.java:43-47 | `getOrDefault` returns the variable whenever it is set, even when empty, else the fallback |
| Env.Truthy | vless-reality.js:9 | a variable takes part in `\|\|` exactly when it is set and non-empty |
| Env.OrElse | vless-reality.js:13-14 | `process.env.X \|\| fallback` is the variable when truthy, else the fallback |
| Env.JavaPortText | src/main/java/com/proxy/vless/VLessRealityServer.java:43-44 | PORT when set, else SERVER_PORT when set, else `20041` |
| Env.JavaPort | src/main/java/com/proxy/vless/VLessRealityServer.java:43-44 | the constructor's port is a 32-bit int; it is 20041 with neither variable set, and an empty PORT makes the constructor throw |
| Env.DefaultPortValue | vmess.js:10 | the numeric default 20041 and the string default `20041` print and parse alike |
| Env.JsPortText | vless-reality.js:9 | the script's port text is never empty: PORT when truthy, else SERVER_PORT when truthy, else `20041` |
| Env.EmptyPortDiverges | vless-reality.js:9 | an empty PORT stops the Java servers, while the scripts skip it and use SERVER_PORT or the default |
| Env.PortTextsAgree | startup.js:8 | when the variable the Java servers read is not empty, Java and the scripts pick the same port text |
| Hex.Unsigned | src/main/java/com/proxy/vless/VLessRealityServer.java:245-251 | `%02x` on a signed Java byte formats the byte with the same low eight bits |
| Hex.SignedUnsigned | src/main/java/com/proxy/vless/VLessRealityServer.java:245-251 | signed and unsigned byte views are inverse |
| Hex.UnsignedAll | src/main/java/com/proxy/vless/VLessRealityServer.java:245-251 | converts each Java byte to its unsigned value, position by position |
| Hex.Hex | vless-reality.js:159 | `toString('hex')` gives two characters per byte, high nibble first |
| Hex.HexIsLowerHex | vless-reality.js:159 | the hex text uses lower-case hex digits only |
| Hex.BytesToHex | src/main/java/com/proxy/vless/VLessRealityServer.java:245-251 | the Java `%02x` loop produces the same text as `toString('hex')` on the unsigned bytes |
| Hex.UnHexHex | vless-reality.js:159 | the hex text decodes back to the bytes it was made from |
| Hex.ShortIdShape | src/main/java/com/proxy/vless/VLessRealityServer.java:233-237 | an 8-byte short id is 16 lower-case hex digits |
| Uuid.IsUuidTextIff | vless-reality.js:64 | the UUID regex accepts exactly 36 characters with hyphens at 8, 13, 18 and 23 and hex digits elsewhere |
| Uuid.DefaultUuidIsUuidText | vless-reality.js:18 | the built-in default UUID passes the script's own check |
| Uuid.FillTemplate | vless-reality.js:49-53 | the template fill keeps fixed characters, puts a hex digit for `x` and one of `89ab` for `y` |
| Uuid.TemplateIsUuid | vless-reality.js:49-53 | the filled template is a UUID of version 4 with an RFC 4122 variant |
| Uuid.AutoGenerateUuid | vless-reality.js:23-55 | the system UUID when it is one after trimming, else the crypto UUID, else the template fill |
| Uuid.AutoGenerateIsUuid | vless-reality.js:23-55 | whichever source is used, the generated id is UUID text |
| Uuid.GetUuid | vless-reality.js:57-71 | the variable when truthy, else the default UUID when valid, else the generated one |
| Uuid.GetUuidNeverGenerates | vless-reality.js:57-71 | because the default UUID is valid, the generator is never reached |
| Uuid.JavaUuid | src/main/java/com/proxy/vless/VLessRealityServer.java:45 | the Java id is the variable whenever it is set, else the random UUID |
| Arch.JavaDetectArchitecture | src/main/java/com/proxy/vless/VLessRealityServer.java:182-195 | always one of the three Java archive names: `os.arch` is lower-cased and then classified by JavaArchOfLower |
| Arch.JavaArchOfLower | src/main/java/com/proxy/vless/VLessRealityServer.java:185-195 | `arm64-v8a` exactly when neither `amd64` nor `x86_64` occurs and `aarch64` or `arm64` does; `arm32-v7a` exactly when none of those occurs and `arm` does; `64` otherwise |
| Arch.JsDetectArchitecture | vless-reality.js:95-126 | `64` when `uname -m` fails; otherwise the table applied to the trimmed output |
| Arch.JsArchOfMachine | vless-reality.js:102-121 | the whole table: `x86_64`/`amd64` give `64`, `aarch64`/`arm64` `arm64-v8a`, `armv7`/`armv7l` `arm32-v7a`, `armv6`/`armv6l` `arm32-v6`, `mips64*` `mips64`, other `mips*` `mips32`, `s390x` `s390x`, `riscv64*` `riscv64`, anything else `64` |
| Arch.DownloadUrl | src/main/java/com/proxy/vless/VLessRealityServer.java:138-141 | the URL is the 1.8.24 release prefix followed by the architecture |
| Arch.ArchOfDownloadUrl | src/main/java/com/proxy/vless/VLessRealityServer.java:138-141 | the architecture can be read back from the URL |
| Arch.DownloadUrlInjective | src/main/java/com/proxy/vless/VLessRealityServer.java:138-141 | distinct architectures give distinct URLs |
| Arch.JavaOnAmd64 | src/main/java/com/proxy/vless/VLessRealityServer.java:185-186 | `amd64` maps to `64` |
| Arch.JavaOnX8664 | src/main/java/com/proxy/vless/VLessRealityServer.java:185-186 | `x86_64` maps to `64` |
| Arch.JavaOnAarch64 | src/main/java/com/proxy/vless/VLessRealityServer.java:187-188 | `aarch64` maps to `arm64-v8a` |
| Arch.JavaOnArm | src/main/java/com/proxy/vless/VLessRealityServer.java:189-190 | both `armv7l` and `armv6l` map to `arm32-v7a` |
| Arch.JavaOnMips64 | src/main/java/com/proxy/vless/VLessRealityServer.java:193-194 | `mips64` falls back to `64` |
| Arch.ClassifiersAgreeOnX8664 | vless-reality.js:102-103 | both classifiers choose `64` on x86-64 |
| Arch.ClassifiersAgreeOnAarch64 | vless-reality.js:104-105 | both choose `arm64-v8a` on aarch64 |
| Arch.ClassifiersAgreeOnArmv7 | vless-reality.js:106-107 | both choose `arm32-v7a` on armv7l |
| Arch.ClassifiersDisagreeOnArmv6 | vless-reality.js:108-109 | on armv6l the script fetches `arm32-v6`, the Java servers `arm32-v7a` |
| Arch.ClassifiersDisagreeOnMips64 | vless-reality.js:110-111 | on mips64 the script fetches `mips64`, the Java servers `64` |
| Arch.JsOnArmv7 | vless-reality.js:106-107 | `armv7l` maps to `arm32-v7a` |
| Arch.JsOnArmv6 | vless-reality.js:108-109 | `armv6l` maps to `arm32-v6` |
| Arch.JsOnMips64 | vless-reality.js:110-111 | every name starting with `mips64` maps to `mips64` |
| Arch.JavaFallback | src/main/java/com/proxy/vless/VLessRealityServer.java:193-194 | a lower-cased name with no `a` and no `x` falls back to `64` |
| Fetch.FirstBinary | src/main/java/com/proxy/vless/VLessRealityServer.java:165-170 | the index of the first entry named `xray`, and none exactly when there is no such entry |
| Fetch.SelectXrayEntry | src/main/java/com/proxy/vless/VLessRealityServer.java:163-171 | the entry loop stops at the first `xray` entry |
| Fetch.JavaDownload | src/main/java/com/proxy/vless/VLessRealityServer.java:127-177 | an existing binary means no request; a non-200 status is an error; a 200 installs the first `xray` entry, and an archive without one installs nothing without an error |
| Fetch.DownloadXrayIfNeeded | src/main/java/com/proxy/vless/VLessRealityServer.java:127-177 | the method's new `xray` state and outcome are those of `JavaDownload` on the detected architecture |
| Fetch.JsDownload | vless-reality.js:244-272 | the script's download installs the entry from an (optionally status-checked) archive, and a missing entry is a failure |
| Fetch.JavaDownloadIdempotent | src/main/java/com/proxy/vless/VLessRealityServer.java:130-133 | after an install, the next start requests nothing |
| Fetch.JsDownloadIdempotent | vless-reality.js:245 | after an install, the next run requests nothing |
| Fetch.NothingExtractedRetries | src/main/java/com/proxy/vless/VLessRealityServer.java:163-171 | an archive without the binary leaves no file behind, so the next start downloads again |
| Fetch.DownloadsAgree | vless-reality.js:129-137 | on a 200 answer that carries the binary, Java and the checking scripts install the same bytes from the same URL |
| Fetch.MissingEntryDiverges | vless-reality.js:256 | without an `xray` entry the Java servers carry on, while `unzip` makes the scripts fail |
| Fetch.UncheckedStatus | vmess.js:54-68 | vmess.js installs the archive whatever the status; the status-checking scripts refuse it |
| RealityKeys.SplitColonRuns | src/main/java/com/proxy/vless/VLessRealityServer.java:221 | `split(":\\s*")` yields colon-free pieces, and a line without a colon is one piece |
| RealityKeys.DropTrailingEmpty | src/main/java/com/proxy/vless/VLessRealityServer.java:221 | `split` drops exactly the trailing empty pieces |
| RealityKeys.ScanLine | src/main/java/com/proxy/vless/VLessRealityServer.java:219-225 | a `Private key:` line sets the private key, else a `Public key:` line sets the public key, else nothing changes; a missing value is a failure |
| RealityKeys.ScanLinesLastWins | src/main/java/com/proxy/vless/VLessRealityServer.java:219-225 | after the loop, each key holds the value from the last line carrying its label |
| RealityKeys.ScanFailsFrom | src/main/java/com/proxy/vless/VLessRealityServer.java:221 | once a line throws, the whole read fails |
| RealityKeys.JavaRealityKeys | src/main/java/com/proxy/vless/VLessRealityServer.java:219-231 | a key pair comes out exactly when the loop completes with both keys set |
| RealityKeys.MatchIndexFrom | vless-reality.js:143 | the leftmost regex match position from a given index, and none when nothing matches |
| RealityKeys.JsKeyMatch | vless-reality.js:143-144 | a regex capture is a non-empty run of non-space characters |
| RealityKeys.JsRealityKeys | vless-reality.js:140-155 | a key pair comes out exactly when both regexes match |
| RealityKeys.JavaReadsKeygenLines | src/main/java/com/proxy/vless/VLessRealityServer.java:219-231 | on xray's two-line output the Java parser returns the printed keys |
| RealityKeys.JsReadsKeygenOutput | vless-reality.js:140-155 | on xray's output the script's regexes return the printed keys |
| RealityKeys.KeyParsersAgree | vless-reality.js:143-144 | the two parsers read the same key pair from xray's output |
| RealityKeys.JavaEmptyValueThrows | src/main/java/com/proxy/vless/VLessRealityServer.java:221 | a label followed by nothing but spaces makes the Java parser fail |
| Json.Lookup | src/main/java/com/proxy/vless/VLessRealityServer.java:257-326 | lookup in an object's ordered members finds the member's value, and none when the name is absent |
| Json.LookupAt | src/main/java/com/proxy/vless/VLessRealityServer.java:257-326 | the first member with a name is the one lookup finds |
| Json.Put | src/main/java/com/proxy/vless/VLessRealityServer.java:257-326 | after a put the name maps to the new value, other names are unchanged, and a new name is appended |
| Json.PutAt | src/main/java/com/proxy/vless/VLessRealityServer.java:257-326 | putting an existing name replaces that member in place |
| Json.Add | src/main/java/com/proxy/vless/VLessRealityServer.java:257-326 | `JsonObject.add`/`addProperty` appends a new member, or replaces the existing one in place |
| Json.NumberOrNull | vless-reality.js:285 | `parseInt` giving NaN is written as `null`, and a number as itself |
| Json.EscapeChar | vless-reality.js:322 | a character is written as itself unless it must be escaped |
| Json.WriteFlat | vmess.js:138 | a flat string object is written as quoted members in order, in the dialect's escaping and layout |
| JsonRead.ParseEscaped | vmess.js:138 | reading an escaped string gives back the original characters |
| JsonRead.ParseMemberTokens | vmess.js:138 | the member tokens of an object parse back to its members |
| JsonRead.ReadWrittenFlatObject | vmess.js:138 | a flat object written by Gson or `JSON.stringify`, compact or indented, reads back as the same members |
| Utf8.DecodeEncode | src/main/java/com/proxy/vmess/VMessServer.java:290 | UTF-8 encoding of the link JSON decodes back to the same text |
| Utf8.EncodeAscii | src/main/java/com/proxy/vmess/VMessServer.java:290 | ASCII text encodes to one byte per character |
| Base64.Encode | src/main/java/com/proxy/vmess/VMessServer.java:290 | the encoding has four characters per started group of three bytes |
| Base64.EncodeAlphabet | src/main/java/com/proxy/vmess/VMessServer.java:290 | the encoding uses the standard alphabet, with `=` only as trailing padding |
| Base64.DecodeEncode | vmess.js:138 | Base64 decoding of the encoding gives back the bytes |
| Vless.ConfigPort | src/main/java/com/proxy/vless/VLessRealityServer.java:266 | the inbound port in the document is the configured port |
| Vless.ConfigClientId | src/main/java/com/proxy/vless/VLessRealityServer.java:270-275 | the single client's id is the UUID |
| Vless.ConfigReality | src/main/java/com/proxy/vless/VLessRealityServer.java:287-300 | the document's Reality settings are those built from destination, server names, private key and short id |
| Vless.VlessConfigFields | vless-reality.js:281-322 | the document carries the port, the client id, the destination, the server name, the private key and the short id at their paths, with one inbound and the direct outbound |
| Vless.TemplateLink | vless-reality.js:325 | the script's template literal and the parameter list give the same link |
| Vless.AppendedLink | src/main/java/com/proxy/vless/VLessRealityServer.java:338-356 | the Java `StringBuilder` appends give the same link |
| Vless.ParseQueryText | vless-reality.js:325 | the link's query string parses back to its parameter list |
| Vless.ParseVlessLinkOf | vless-reality.js:325 | a link built from safe fields parses back to the id, host, port, parameters and name |
| Vless.LinkParamValues | vless-reality.js:325 | looked up by name, the link's query gives `encryption=none`, the `xtls-rprx-vision` flow, `security=reality`, the given `sni`, `fp=chrome`, the given `pbk` and `sid`, `type=tcp` and `headerType=none` |
| Vless.JavaLinkMatchesConfig | src/main/java/com/proxy/vless/VLessRealityServer.java:335-357 | the Java link parses back to the document's client id, server name and short id, and its port text parses to the document's port |
| Vless.JsLinkMatchesConfig | vless-reality.js:281-325 | the script's link parses back to the document's client id, server name and short id; the document's port is `parseInt` of the link's port text, or `null` |
| Vmess.ConfigClient | src/main/java/com/proxy/vmess/VMessServer.java:209-214 | the single client has the UUID and `alterId` 0 |
| Vmess.ConfigResponse | src/main/java/com/proxy/vmess/VMessServer.java:230-249 | the tcp header disguise is the fixed HTTP 200 response with its headers |
| Vmess.VmessConfigFields | vmess.js:86-123 | the document carries the port, the `vmess` tag, the client and the disguise at their paths |
| Vmess.PayloadValues | vmess.js:125-136 | the link payload names the address, the port text and the id |
| Vmess.DecodeVmessLinkOf | src/main/java/com/proxy/vmess/VMessServer.java:289-292 | stripping `vmess://`, Base64- and UTF-8-decoding and reading the JSON give back the payload, in both writers' dialect and layout |
| Vmess.VmessLinkAlphabet | src/main/java/com/proxy/vmess/VMessServer.java:290-292 | after the scheme the link holds only Base64 characters |
| Vmess.JavaLinkMatchesConfig | src/main/java/com/proxy/vmess/VMessServer.java:277-293 | the Java link decodes to the server address, the printed port and the document's client id |
| Vmess.JsLinkMatchesConfig | vmess.js:125-140 | the script's link decodes to the address, the port text and the id |
| Registrar.GuessLocation | vless-reality.js:217-227 | `HK`, `US`, `EU` or `Node` by the address's leading octet, exactly as the prefix tests decide |
| Registrar.GuessLocationByHead | vmess.js:142-151 | the location depends only on the first four characters |
| Registrar.NodeNameParts | vless-reality.js:179 | the node name is location, kind and port, and the port can be read back from it |
| Registrar.UploadBodyReadBack | vless-reality.js:192-195 | the uploaded body reads back as the node name and the link |
| Registrar.VlessUploadPlan | vless-reality.js:166-186 | no upload exactly when SKIP_NODE_UPLOAD is `true` or `1`; otherwise a POST to NODE_API_URL or the default endpoint |
| Registrar.VlessUpload | vless-reality.js:166-215 | a registration never stops the script, and counts as uploaded only for a 2xx reply at a URL with a scheme |
| Registrar.ResolveEndpoint | vmess.js:155-216 | skip, environment, terminal prompt and choice decide the endpoint, which is never empty and is the variable's value, the default or the custom answer |
| Registrar.EndpointFromEnvironment | vmess.js:162-165 | a set NODE_API_URL makes the terminal irrelevant |
| Registrar.NoTerminalNoEndpoint | vmess.js:165 | without NODE_API_URL and without a terminal nothing is uploaded |
| Registrar.SkipOneDiffers | vmess.js:157 | `SKIP_NODE_UPLOAD=1` skips in vless-reality.js but not in vmess.js |
| Registrar.VmessUploadAsWritten | vmess.js:231-279 | as written, an endpoint without a URL scheme ends the whole process |
| Registrar.VmessUpload | vmess.js:231-279 | corrected: no endpoint means skipped, nothing is fatal, and uploaded means a 2xx reply |
| Registrar.SchemelessEndpointIsFatal | vmess.js:232 | NODE_API_URL without `http://` is fatal as written, and only undelivered once corrected |
| Registrar.VmessUploadAgrees | vmess.js:232 | for endpoints with a scheme the corrected and as-written registrations agree |
| Registrar.VmessUploadBody | vmess.js:226-229 | the body reads back as the node name and the link |
| VlessServer.VLessRealityServer.Create | src/main/java/com/proxy/vless/VLessRealityServer.java:42-48 | the constructor fails exactly when the port does not parse; otherwise the fields come from the environment and the keys are unset |
| VlessServer.VLessRealityServer.GenerateRealityKeys | src/main/java/com/proxy/vless/VLessRealityServer.java:207-240 | the key fields end as the keys parsed from xray's lines, and it succeeds exactly when both keys are read; the short id is the hex of the random bytes |
| VlessServer.VLessRealityServer.ReadKeyLine | src/main/java/com/proxy/vless/VLessRealityServer.java:219-225 | one line read updates the key fields as the key scan does, and fails exactly where the scan finds a label without a value |
| VlessServer.VLessRealityServer.GenerateConfig | src/main/java/com/proxy/vless/VLessRealityServer.java:256-330 | the document built member by member is the VLESS configuration of the object's fields |
| VlessServer.VLessRealityServer.GenerateVLessLink | src/main/java/com/proxy/vless/VLessRealityServer.java:335-357 | the link is the VLESS link of the object's fields |
| VlessServer.VLessRealityServer.Start | src/main/java/com/proxy/vless/VLessRealityServer.java:63-88 | stores the address, installs Xray, reads the keys; it succeeds exactly when a binary is present and the keys are read, and then yields the document and link |
| VlessServer.BuildInbound | src/main/java/com/proxy/vless/VLessRealityServer.java:265-313 | the inbound object equals the reference inbound |
| VlessServer.BuildReality | src/main/java/com/proxy/vless/VLessRealityServer.java:287-300 | the Reality object equals the reference Reality settings |
| VlessServer.Launch | src/main/java/com/proxy/vless/VLessRealityServer.java:50-61 | `main` succeeds exactly when the port parses, the download step leaves a binary in place (it is already there, or a 200 answer carries an `xray` entry) and both keys are read; `ws.xray` ends as the download step leaves it, and is untouched when the port does not parse; on success it yields the document and link of the parsed port |
| VmessServer.VMessServer.Create | src/main/java/com/proxy/vmess/VMessServer.java:35-39 | the constructor fails exactly when the port does not parse; otherwise port and id come from the environment |
| VmessServer.VMessServer.GenerateConfig | src/main/java/com/proxy/vmess/VMessServer.java:195-272 | the document built member by member is the VMess configuration of port and id |
| VmessServer.VMessServer.GenerateVMessLink | src/main/java/com/proxy/vmess/VMessServer.java:277-293 | the link is Base64 of Gson's pretty JSON of the payload |
| VmessServer.VMessServer.Start | src/main/java/com/proxy/vmess/VMessServer.java:54-76 | stores the address and installs Xray; it fails exactly when the download fails, and otherwise yields the document and link |
| VmessServer.BuildResponse | src/main/java/com/proxy/vmess/VMessServer.java:230-249 | the disguise response equals the reference response |
| VmessServer.BuildPayload | src/main/java/com/proxy/vmess/VMessServer.java:278-287 | the link payload object equals the reference payload |
| VmessServer.PayloadObject | src/main/java/com/proxy/vmess/VMessServer.java:278-287 | the payload as a JSON object is the flat payload |
| VmessServer.Launch | src/main/java/com/proxy/vmess/VMessServer.java:41-52 | `main` succeeds exactly when the port parses and the download does not fail; `ws.xray` ends as the download step leaves it, and is untouched when the port does not parse; on success it yields the document and link |
| VlessScript.Launch | vless-reality.js:231-349 | exits 1 on a failed download or unreadable keys; otherwise the document, link, upload and report are those of the settings, keys and short id |
| VlessScript.ShareLink | vless-reality.js:325 | the template literal yields the VLESS share link of the settings, key and short id |
| VlessScript.InstallXray | vless-reality.js:240-271 | `./xray` is left alone when present; otherwise it ends as the download of the detected architecture's archive leaves it, and the step fails exactly when that download fails |
| VmessScript.VmessPost | vmess.js:218-245 | no request without an endpoint, else a POST of the registration body to the endpoint |
| VmessScript.Launch | vmess.js:304-344 | exits 1 exactly on a failed download or on a registration endpoint without a scheme (`new URL` throws at vmess.js:232 and `main`'s catch exits); otherwise the document, the compact link and the registration as written |
| VmessScript.LaunchCorrected | vmess.js:304-344 | with the corrected registration: exits 1 exactly on a failed download; otherwise the document, the compact link and the corrected registration |
| VmessScript.InstallXray | vmess.js:70-84 | `./xray` is left alone when present; otherwise it ends as the unchecked 64-bit download leaves it, and the step fails exactly when that download fails |
| VmessScript.Documents | vmess.js:86-140 | the document of the `parseInt`-ed port text and the link of Base64 over the compact payload JSON |
| StartupScript.Launch | startup.js:117-206 | exits 1 on a refused or failed download; otherwise the VMess document and compact link, with nothing uploaded |

## Left out

- Network I/O is left out: the address lookups (`getServerIP`, `getPublicIP`), the HTTP clients, timeouts and redirects. The address and every server answer are parameters. Java trims the address body and the Node `fetch` version does not; since the address is a parameter, that difference is not modelled.
- Process control is left out: spawning `xray run`, the restart loops and their delays (`startXray`), signal handlers, `chmod`/`setExecutable`, deleting `x.zip`, and all console output. These are side effects with no bearing on the documents and links.
- Randomness is left out: `SecureRandom`, `crypto.randomBytes`, `crypto.randomUUID`, `Math.random` and the system UUID sources are parameters.
- Writing `c.json` and `link.txt` is left out: the document and the link are returned as values.
- Archive contents are modelled as a list of named entries. Zip decoding and `unzip` options are not modelled, and neither is `unzip` behaviour beyond needing an `xray` entry.
- Fetch.JsDownload: takes the first `xray` entry of the archive, as the Java loop does. `unzip -qo` extracts every entry of that name in turn, so in an archive with duplicate `xray` entries the last one wins; `Fetch.DownloadsAgree` therefore speaks for archives with a single `xray` entry.
- StartupScript.Launch: follows `startup.js` under Bun, which its shebang names. Bun allows `require` inside an ES module. Under Node it is undefined there, so `autoGenerateUUID` would always fall back to the `Math.random` template, and a start without `./xray` would exit with status 1 after the download; the model does not cover a Node run.
- URL parsing in `new URL` and `fetch` is reduced to whether the text starts with a scheme (`Registrar.HasScheme`). Host, path and `Content-Length` handling are not modelled.
- `JsonObject` values are modelled as immutable values. The Java code mutates them in place, but never shares one object between two parents, so aliasing is not captured.
- Strings are sequences of Unicode scalar values. The unpaired surrogates that Java and JavaScript strings can hold, and their replacement when encoded as UTF-8, are not modelled.
- The scripts' second `existsSync('./xray')` check before launching is left out. In the model every path that reaches it has installed or found the binary, so it cannot fail.
- Numbers.JsParseInt: returns exact integers. JavaScript's `parseInt` returns a double, so a port text of 2^53 or more is rounded, and from 10^21 up `JSON.stringify` writes the number in exponent form; the model writes the exact digits instead.
- Numbers.JavaParseInt: accepts only the ASCII digits `0`-`9`. `Integer.parseInt` reads any Unicode decimal digit through `Character.digit`, so a `PORT` written in, say, fullwidth digits starts the Java servers but makes the model report a parse failure.
- VmessServer.VMessServer.GenerateVMessLink: requires `serverIp` to be set, as `start` always does first. It does not model Gson dropping a `null` address.
- Registrar.ResolveEndpoint: the two prompt answers are parameters holding the raw lines readline returns; the model trims them with `JsTrim` as the script does. Readline itself, the prompt text and line editing are not modelled.
- Strings.ToLower: maps only the ASCII letters `A`-`Z`. Java's `toLowerCase` follows full Unicode rules (for instance `İ` becomes two characters), so the model covers the ASCII values `os.arch` reports.

## Findings

| source | as written | input that shows it | evidently intended | confidence | as-written member | corrected member |
|---|---|---|---|---|---|---|
| vmess.js:232 | `new URL(apiUrl)` runs inside the Promise executor, outside any `try`. An invalid endpoint rejects the promise, and `main`'s `catch` exits with status 1 | `NODE_API_URL=103.69.129.79:8081/api/v1/groups/2/nodes` (no scheme) | a failed registration is reported and the server still starts, as with every other upload error in the function | not executed | Registrar.VmessUploadAsWritten | Registrar.VmessUpload |
