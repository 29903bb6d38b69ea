# Server artifact resolution and process registry, modelled in Dafny

This project models two cores of a Minecraft server manager written in Rust.

The first core is the artifact pipeline in `src/lib.rs`. For each provider (Vanilla, Forge, NeoForge, Fabric, Paper, Folia), it resolves a requested game version against upstream metadata. The result is a download URL and, for mod loaders, an installer command. The artifact body is then streamed to disk in 8 KiB chunks. The model takes the metadata as already-fetched, parsed values. Each selection rule is a specification function. Each loop of the source is a method proved equal to that function. The lemmas state what the rules promise: the last match wins, the sentinels mean "not found", the release filter keeps order, reshaping the Forge map loses nothing, flattening build ids drops hyphens, and the URL templates follow the Maven layout, are injective in the build, and differ per project.

The second core is the supervisor's process registry in `src/daemon.rs`. It has two global maps: transcripts (`PROGRAM_IO`) and standard-input handles (`PROGRAM_STDIN`). Launching a program, each output line, writes and reads act on these maps. The model is a class with two `map` fields and one method per critical section, run sequentially. A stdin handle is the sequence of strings written to it. The per-launch accumulator is a separate `Pump` value.

Files:
- `common.dfy`: `LibError`, `Option`, `Result`, `Outcome` (whether a call panics), `byte`, `u32`.
- `text.dfy`: `str::replace(p, "")` and decimal rendering of integers, with the parse that inverts it.
- `maven.dfy`: the Maven artifact URL layout used as the reference for the installer URLs.
- `vanilla.dfy`, `forge.dfy`, `paper.dfy`: the provider resolvers.
- `install.dfy`: the per-provider `download_*_server` pipelines as plans (fetch, then an optional installer run).
- `transfer.dfy`: the shared copy loop over a response reader, a destination file and an optional progress bar.
- `daemon.dfy`: the registry.

The model follows the code at three points where its behaviour may be unexpected:
- Forge build ids lose every hyphen, so a build listed as `3-beta` resolves to `3beta` (`Forge.LastBuildWinsFlattened`).
- Installer exit codes are ignored; the code does not report them as errors.
- The download never compares the bytes written with the advertised content length.

## Model

| member | source | states |
|---|---|---|
| `Text.RemoveAll` | src/lib.rs:638-639 | Deleting a pattern (`str::replace(p, "")`) never lengthens the string. |
| `Text.RemoveCharRemovesAll` | src/lib.rs:639 | Deleting a single character removes every copy of it, and every other character keeps its number of occurrences (multiset equality). |
| `Text.RemoveAbsent` | src/lib.rs:638 | A string in which the pattern does not occur is left unchanged. |
| `Text.Decimal` | src/lib.rs:458-460 | The `{build}` rendering is a non-empty digit string whose first digit is `0` only for zero. |
| `Text.ParseDecimalInverse` | src/lib.rs:458-460 | Parsing the rendered build number gives the number back. |
| `Text.DecimalInjective` | src/lib.rs:458-460 | Distinct build numbers render differently. |
| `Maven.ArtifactUrlInjective` | src/lib.rs:217-221 | In a Maven layout URL, the artifact version is determined by the URL. |
| `Vanilla.LastMatch` | src/lib.rs:140-147 | The result is absent exactly when no entry has the requested id. Otherwise it is the url of an entry with that id, and no later entry has that id (the last match wins). |
| `Vanilla.VersionDataUrl` | src/lib.rs:137-148 | The scan loop returns the last matching entry's url, or `"none"` when nothing matches. |
| `Vanilla.ServerUrlAsWritten` | src/lib.rs:88-134 | As written: `Err(Ver(ver))` exactly when the scan returns `"none"`, so in particular for an unlisted version, with no download. A success is the server URL named by the metadata of an entry with the requested id. |
| `Vanilla.ServerUrl` | src/lib.rs:88-134 | Corrected: `Err(Ver(ver))` if and only if no entry has the id. A success is served by a matching entry's metadata. |
| `Vanilla.ServerUrlAgreesOffSentinel` | src/lib.rs:89 | The as-written and corrected steps differ exactly when the matching entry's url is the literal `"none"`. |
| `Vanilla.SentinelCollision` | src/lib.rs:140-147 | A listed version whose metadata url is `"none"` is reported as `Ver` by the code as written. |
| `Vanilla.ReleaseIds` | src/lib.rs:573-579 | An id is in the result if and only if some entry with kind `"release"` carries it. |
| `Vanilla.FetchGameVersions` | src/lib.rs:564-580 | The push loop yields exactly the filter `ReleaseIds` of the manifest's entries. |
| `Vanilla.ReleaseIdsAppend` | src/lib.rs:574-578 | The filter keeps manifest order: filtering a concatenation concatenates the filtered parts. |
| `Vanilla.ReleasesResolve` | src/lib.rs:137-148 | Corrected: every id the release filter lists passes the corrected version check `Vanilla.ServerUrl`. |
| `Forge.VersionsFromMap` | src/lib.rs:603-623 | The reshaped map has the same keys. Each record repeats its key as `version` and lists the same ids in order. |
| `Forge.RawMapRoundTrip` | src/lib.rs:609-621 | The raw map is recovered from the reshaped one. |
| `Forge.Flatten` | src/lib.rs:638-639 | A flattened build id contains no hyphen and is no longer than the id. |
| `Forge.FlattenRecoversLoader` | src/lib.rs:638-639 | For a non-empty game version with no hyphen, and a loader version that has no hyphen and does not contain the game version, the id `<mc>-<loader>` flattens back to the loader version. |
| `Forge.ForgeVersionFor` | src/lib.rs:625-646 | For every key order of the map, the loops return the flattened last build under `ver`. They panic when `ver` is missing or has no builds. |
| `Forge.SelectFromRawMap` | src/lib.rs:631-645 | On a parsed document, selection is the flattened last raw id listed for `ver`, or a panic when there is none. |
| `Forge.LastBuildWinsFlattened` | src/lib.rs:638-645 | The build list `["1", "2", "3-beta"]` resolves to `"3beta"`: the last build wins and its hyphen is dropped. |
| `Forge.MavenVersion` | src/lib.rs:217-221 | The version segment is `mc-forge-mc` if and only if the game version is exactly one of the three legacy strings; otherwise it is `mc-forge`. |
| `Forge.InstallerUrl` | src/lib.rs:215-221 | The installer URL is the Maven layout URL of artifact `forge`, classifier `-installer`, at that version segment. |
| `Forge.InstallerUrlInjective` | src/lib.rs:217-221 | For a fixed game version, distinct loader versions give distinct installer URLs. |
| `Paper.FetchLatestBuild` | src/lib.rs:508-531 | The result is the last listed build when `ver` is listed and builds are present. It is `0` when `ver` is unlisted or builds are absent. An empty build list panics. |
| `Paper.NonzeroBuildIsListed` | src/lib.rs:511-530 | A nonzero latest build is the last entry of a listed version's build list. |
| `Paper.ServerDownloadUrl` | src/lib.rs:450-505 | The result is `Err(Ver(ver))` if and only if the build is `0`. Otherwise it is the per-project download URL, whose build segment is never `"0"`. |
| `Paper.BuildDownloadUrlInjective` | src/lib.rs:457-461 | For a fixed project and version, distinct builds give distinct URLs. |
| `Paper.ProjectsNeverShareUrl` | src/lib.rs:457-461 | A Folia download URL never equals a Paper download URL. |
| `Install.NeoForgeInstallerUrl` | src/lib.rs:305-307 | The NeoForge URL is the Maven layout URL of artifact `neoforge` at the verbatim loader version. |
| `Install.FabricInstallerUrl` | src/lib.rs:389-390 | The Fabric URL is the Maven layout URL of `fabric-installer` 1.0.0. |
| `Install.VanillaServer` | src/lib.rs:86-134 | Corrected: built on `Vanilla.ServerUrl`, the pipeline fails with `Ver(ver)` exactly when the version is unlisted. Otherwise it fetches a matching entry's server URL into `<path>/server.jar` and runs no installer. |
| `Install.ForgeServer` | src/lib.rs:173-213 | The pipeline panics exactly when `ver` has no builds. Otherwise it fetches the selected installer into `<path>/installer.jar` and runs `java -jar installer.jar --installServer` there. |
| `Install.NeoForgeServer` | src/lib.rs:265-303 | The pipeline fetches the Maven layout installer into `<path>/installer.jar` and runs it with `--installServer` in `<path>`. |
| `Install.FabricServer` | src/lib.rs:351-387 | The pipeline fetches installer 1.0.0 and runs it with `server -mcversion <mc> -dir <path>`, where `-dir` is the working directory. |
| `Install.PaperServer` | src/lib.rs:450-506 | The pipeline panics exactly on an empty build list of a listed version, and fails with `Ver` exactly when the latest build is `0`. Otherwise it fetches that build's URL into `server.jar`. |
| `Install.ServerPlan` | src/lib.rs:554-562 | The dispatch over the `Modloaders` enum is this model's own composition; src/downloader.rs:8-11 calls the pipelines directly. For every provider: a mod loader's installer is the `installer.jar` just fetched, run by `java` in the destination directory. The other providers fetch `server.jar` and install nothing. The only errors are `Ver(ver)`, and `Net` for the vanilla metadata fetch. The vanilla case is the corrected step, as in `Install.VanillaServer`. |
| `Transfer.ResponseBody.constructor` | src/lib.rs:94-98 | A response reader starts at byte zero of the body. |
| `Transfer.ResponseBody.Read` | src/lib.rs:122 | A read fills a buffer prefix with the next bytes. It is empty only at the end of the body (or for an empty buffer), and fails only where the connection breaks. |
| `Transfer.DestFile.Create` | src/lib.rs:99-100 | The destination file `<dir>/<name>` starts empty. |
| `Transfer.DestFile.WriteAll` | src/lib.rs:126 | `write_all` appends the whole slice. |
| `Transfer.ProgressBar.constructor` | src/lib.rs:102-106 | A new progress bar is at position 0. |
| `Transfer.ProgressBar.Inc` | src/lib.rs:127-129 | `inc(n)` advances the position by exactly `n`. |
| `Transfer.CopyBody` | src/lib.rs:120-130 | The file receives every delivered byte in order, and the progress bar advances by the same count. Each chunk is non-empty and at most 8192 bytes. The copy succeeds exactly when the body is read to its end, and a failed connection leaves the bytes delivered so far. |
| `Transfer.SaveResponse` | src/lib.rs:94-131 | A completed download leaves the named file equal to the whole response body. |
| `Daemon.Registry.constructor` | src/daemon.rs:9-10 | Both registries start empty. |
| `Daemon.Registry.Launch` | src/daemon.rs:101-120 | Launching registers a fresh stdin handle under the name, replacing any previous one. Transcripts are unchanged, and accumulation restarts from the empty string. |
| `Daemon.Registry.OnLine` | src/daemon.rs:122-128 | The stored transcript becomes accumulator + line + newline, which extends the previous accumulator strictly. No other name and no stdin handle changes. |
| `Daemon.Registry.Read` | src/daemon.rs:135-138 | A read returns the transcript exactly when one is published, and it changes nothing. |
| `Daemon.Registry.Write` | src/daemon.rs:140-146 | A registered name's stream gets the command and then a newline. An unregistered name leaves both maps unchanged. |
| `Daemon.Registry.RunProgram` | src/daemon.rs:101-132 | After a run that printed lines l1..lk, the transcript is l1+"\n"+…+lk+"\n". A run that printed nothing publishes nothing. |
| `Daemon.TranscriptPrefix` | src/daemon.rs:122-128 | Every transcript a reader sees during a run is a prefix of the final one. |
| `Daemon.SplitTranscript` | src/daemon.rs:117-124 | Lines that contain no newline and do not end in a carriage return can be read back from the transcript by the line reader. |
| `Daemon.TrailingCarriageReturnLost` | src/daemon.rs:117-124 | The reader delivers `"a\r"` from the output `"a\r\r\n"`, and that line's transcript entry `"a\r\n"` reads back as `"a"`. |
| `Daemon.TranscriptOfSplit` | src/daemon.rs:117-124 | Output that contains no carriage return anywhere and ends with a newline (or is empty) is reproduced exactly by the transcript of its lines. |
| `Daemon.EchoRoundTrip` | src/daemon.rs:101-146 | Reading before the first line, or reading a never-launched name, gives absent. A write reaches the stream, and the echoed line is read back. A relaunch keeps the old transcript until its first line, then starts afresh. |

## Left out

- HTTP transport (`ureq` calls, `read_to_string`, status errors): metadata is passed in already fetched. The vanilla per-release document is a map from its URL to the server URL, and an unknown URL stands for a failed fetch (`Net`).
- JSON deserialisation, including the `unwrap` panics on malformed documents (src/lib.rs:165, 524, 546): records are passed in parsed.
- The advertised content length only sizes the progress bar; no byte-count check exists in the code, so none is modelled.
- Installer processes (`Command::spawn`, `wait`): a plan names the program, arguments and directory. The exit status is ignored by the code and not modelled.
- Progress-bar styling, spinners and `println!`: observational only. Only the bar's position is modelled.
- Tokio tasks, `Mutex` locking and interleaving of concurrent pumps: the registry runs one critical section at a time.
- The WebSocket echo handler, `send_close_message` (close code 1011, "Internal Error" in section 7.4.1 of RFC 6455) and `main`: network plumbing.
- `fetch_directories` and the `Config`/`Directories` records: an OS directory lookup.
- src/cli.rs calls Java download, SHA-256 verification and configuration functions that are not in src/lib.rs, so integrity verification and the configuration store are not part of this model. src/downloader.rs calls `download_forge_server` with an argument count that src/lib.rs does not define.
- `Path::join`: a destination is kept as a (directory, file name) pair.
- Transfer.CopyBody: does not model failing `write_all` calls. It also does not distinguish the three copies that panic on a read error through `unwrap` (src/lib.rs:249, 335, 420) from the two that return `Io` (src/lib.rs:122, 490); both end with `ok == false`.
- Transfer.ResponseBody.Read: models a reader that fails only at one fixed point, where the connection drops, and never spuriously.
- Paper.FetchLatestBuild: the build listing is re-fetched for each listed copy of the version. The model assumes every re-fetch returns the same listing.
- Forge.ForgeVersionFor: the `HashMap` iteration order is a nondeterministic choice of the next key. The result does not depend on it.
- Install.VanillaServer: uses the corrected step `Vanilla.ServerUrl`. As written (src/lib.rs:89), a listed entry whose url is `"none"` fails with `Ver`; `Vanilla.ServerUrlAgreesOffSentinel` states exactly when the two differ.
- Install.ServerPlan: its vanilla case inherits the corrected step of `Install.VanillaServer`.
- Vanilla.ReleasesResolve: stated for the corrected step. As written, a release whose url is `"none"` fails with `Ver`.
- Daemon.SplitTranscript: does not cover lines ending in a carriage return, which the reader delivers from a `\r\r\n` ending; such a line loses that carriage return when read back from the transcript (`Daemon.TrailingCarriageReturnLost`).
- Daemon.Registry.Launch: does not model a spawn failure, which panics through `expect`.
- Daemon.Registry.RunProgram: does not model a read error such as invalid UTF-8, which silently ends the pump loop. It also does not model `child.wait`.
- Daemon.Registry.Write: does not model a failing write to a closed pipe, which panics through `unwrap`.

## Findings

| source | as written | input that shows it | evidently intended | confidence | as-written member | corrected member |
|---|---|---|---|---|---|---|
| src/lib.rs:89 | Absence is signalled in-band by the url string `"none"`, so a listed version whose metadata url is `"none"` is treated as unlisted and fails with `Ver` | manifest `[{id: "1.21.11", url: "none"}]`, version `"1.21.11"` (`Vanilla.SentinelCollision`) | `Ver(ver)` exactly when no entry carries the requested id | low; not executed | `Vanilla.ServerUrlAsWritten` | `Vanilla.ServerUrl` |
