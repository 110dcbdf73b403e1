# MCPace: a verified model of its hard core

MCPace is a local scheduler and broker for MCP servers. This project models the parts of it whose
correctness is hardest to see by reading, and proves what they promise. `dafny verify dfyconfig.toml`
checks everything.

* **The managed-block editor** splices an MCPace block into arbitrary user TOML by scanning lines
  (`Text`, `Toml`, `TomlEdit`, `TomlFrame`, `TomlBlock`, `TomlConverge`, `TomlSections`, `TomlSecond`,
  `TomlInstall`, `TomlSettle`), and `CodexConfig` reads such files back. What the editor is for: an edit keeps every
  foreign table, writing twice changes nothing, and removing undoes applying. Each of these fails on some texts, and
  each is proved to hold if and only if a condition on the input holds, with a lemma that shows a failing input. The
  foreign headers survive exactly when none stands in the lines the edit takes out (`LosesNoHeader`; a header on a
  marker's own line is lost). The repair path slices out of order exactly on `Unsliceable` texts. A second install
  returns the same text exactly when the first neither appended its block after a bare carriage return nor kept a
  second begin marker (`KeepsSecondMarker`). Even then every chain of installs ends, in a text that the next install
  leaves alone or in an install that is not carried out. `TomlReads` says what an edit means: a reader of tables and
  assignments that knows nothing of markers finds the server, its URL and its settings in the new text, and every other
  server as it was. The first table of that name is the new one exactly when no other stood above the block.
  `Yaml`, `YamlInstall` and `YamlReads` do the same for YAML files.
* **The serve lifecycle** is two protocols over single steps of any number of processes, with crashes between any
  two steps and reuse of pids: the start lock (`StartLock`) and starting, stopping and cleaning up
  (`StopProtocol`), over the process table of `ProcessIdentity`. The proofs are invariants of every run, and
  `StopProgress` adds what every operation achieves: a stop ends with no process and no state file, whatever other
  processes do meanwhile, a start with a recorded child that can be stopped, and a refusal with nothing changed. One
  promise holds only under a condition: cleanup spares a live recorded runtime exactly when the recorded runner is
  the executable the platform reports. A foreground runtime started with `MCPACE_RUNNER_PATH` pointing elsewhere
  is the family where it fails. `FileLocks` and `AtomicWrite` are the lock files and the file replacement
  underneath.
* **HTTP framing** (`Utf8`, `Chunked`, `HttpResponse`, `HttpMessage`): chunked decoding (section 7.1 of RFC 9112),
  the choice of body length (section 6.3 of RFC 9112) and the read loop over a stream cut anywhere, down to which bytes
  of a printed message its status, fields and body are.
* **Execution policy** (`Tokens`, `Policy`, `PolicyResolve`, `ExecutionPolicy`, `PolicyLaws`, `Affinity`,
  `AffinityFields`): normalization and layered resolution as fixed points, capacity, what a canonical policy comes to,
  and which requests may share a worker, in terms of the request's own fields.
* **The stdio session** (`StdioSession`, `StdioAnswers`) over JSON-RPC 2.0 (sections 4 and 5) and the MCP handshake:
  every answer is a function of the method, the id and what came before, and under it is the bounded line reader
  (`LineReader`).
* **Projected names** and the **projection catalogue** (`ProjectedNames`, `Catalogue`), the **shared counters** of
  the HTTP server under every interleaving (`Metrics`), the **restart guard** (`RestartGuard`) and the **server
  registry** (`Registry`).

Loops of the source are methods proved against a specification function; objects that are updated in place are
classes; protocols are state machines whose runs are sequences of events. Errors are results, not preconditions.

## Model

| member | source | states |
|---|---|---|
| Toml.StripTomlLine | src/config_edit.rs:68-97 | the quote-aware stripper cuts at the first comment sign outside strings and trims |
| Toml.StripTrailer | src/config_edit.rs:68-97 | a closed line with any blanks, comment and line end after it strips back to the line |
| Toml.CommentLine | src/config_edit.rs:68-97 | a line that holds only a comment strips to nothing |
| Toml.PrintBasicString | src/config_edit.rs:145-160 | the character loop prints exactly the escaped string |
| Toml.BasicStringScan | src/config_edit.rs:68-97 | the stripper crosses any printed string without seeing a comment in it |
| Toml.LiteralRoundTrip | src/config_edit.rs:111-139 | parsing a printed string gives it back if and only if it has no raw control character, whatever follows |
| Toml.SingleQuoted | src/config_edit.rs:111-139 | a quote-free text in single quotes parses to itself whatever follows, and without the closing quote not at all |
| Toml.EscapeDecodes | src/config_edit.rs:111-121 | each JSON escape stands for its character, and any other is an error |
| Toml.UnicodeDecodes | src/config_edit.rs:111-121 | a four-digit escape of any character outside the surrogates is that character |
| Toml.SurrogatesDecode | src/config_edit.rs:111-121 | two surrogate escapes are the character they encode, and a low one alone is an error |
| Text.LineStartFacts | src/config_edit.rs:573-578 | the start of an offset's line is a place where a line starts, with no line feed up to the offset |
| Text.LineEndAfterIs | src/config_edit.rs:580-591 | the end of an offset's line is one line further, found with or without a line feed |
| TomlEdit.RangeHasForeignHeader | src/config_edit.rs:557-571 | the scan answers whether the range holds a table header that is not MCPace's own |
| TomlEdit.LocateTableInRange | src/config_edit.rs:532-555 | the scan returns MCPace's own table, from its header up to the next header |
| TomlFrame.TableFacts | src/config_edit.rs:532-555 | the located table starts and ends at lines and holds no foreign header |
| TomlFrame.FrameExactly | src/config_edit.rs:240-280 | a successful apply, by any of its four paths, keeps the ordered list of foreign headers if and only if no foreign header is in the lines it takes out |
| TomlFrame.Frame | src/config_edit.rs:240-280 | in particular for clean marker lines |
| TomlSections.RepairKeepsSections | src/config_edit.rs:500-523 | the two stretches a repair copies hold exactly the foreign sections between the marker lines, in order |
| TomlSections.RepairedSectionsStay | src/config_edit.rs:401-434 | after a repair every foreign section that was inside the over-wide block is in the text byte for byte |
| TomlSections.AbortsExactly | src/config_edit.rs:466-523 | for a key without a comment sign, apply slices out of order if and only if the text is `Unsliceable` |
| TomlSections.IndentedEndAborts | src/config_edit.rs:401-434 | an over-wide block whose end marker is indented right after the own table is such a text, for every bare key |
| TomlSections.SharedLineLosesHeader | src/config_edit.rs:466-523 | a foreign header on the begin marker's line is an input on which a successful apply loses it |
| TomlBlock.BlockForeign | src/config_edit.rs:170-186 | a built block ends its last line and adds no foreign header |
| TomlReads.InstallDeclares | src/config_edit.rs:170-280 | after any successful install of a printable key, an independent reader finds the servers kept before the block, one server with that key, and the servers kept after it; the settings of that one start with the URL, enabled and the start-up time-out exactly when the URL is printable |
| TomlReads.InstallKeepsServers | src/config_edit.rs:240-280 | where there was no block, every other server and setting reads as before: the server replaces its own bare table in place, or comes last |
| TomlReads.InstallIsRead | src/client/actions.rs:714-725 | the first table with the key tells the new URL unless another one of that key stands above the block; then that one is still first |
| TomlReads.StaleTableIsRead | src/client/actions.rs:714-725 | a bare table above a block is a family of texts on which a client that reads the first table misses the new URL |
| TomlReads.QuotedTableIsReplaced | src/config_edit.rs:593-603 | a table of the key in quotes is replaced too, for every printable key |
| TomlSections.RejectsExactly | src/config_edit.rs:466-523 | apply reports a missing end marker, or an over-wide block, exactly on these texts |
| TomlSections.ReplacedExactly | src/config_edit.rs:240-280 | it reports a replacement exactly when a begin marker or an own table was there |
| TomlSections.RemovedExactly | src/config_edit/removal.rs:74-89 | removal reports a change exactly when a begin marker was there, and otherwise returns the text |
| TomlConverge.LocatorFindsBlock | src/config_edit.rs:466-523 | around a built block the locator reports exactly its span if and only if the URL is free of the end marker |
| TomlInstall.OneMarkerIsEnough | src/config_edit.rs:466-523 | a text with at most one begin marker has no second one for a repair to keep |
| TomlSecond.SecondEdit | src/config_edit.rs:466-523 | over a block written behind a leftover begin marker the next edit aborts or keeps another number of lines before the block |
| TomlInstall.ApplyTwice | src/config_edit.rs:240-280 | for a bare key and a URL free of the end marker, applying the same block again returns the same text, whichever path was taken, if and only if the first apply kept no second begin marker |
| TomlInstall.RemoveUndoesApply | src/config_edit/removal.rs:74-89 | removing after an apply gives what removing before it would have given if and only if the apply kept no second begin marker; where it replaced a bare table, the text without that table; where it appended, the text's own bytes and the padding |
| TomlInstall.InstallTwice | src/client/actions.rs:714-725 | installing twice gives the same text if and only if the first neither appended after a bare carriage return nor kept a second begin marker |
| TomlInstall.InstallConvergesInTwo | src/client/actions.rs:714-725 | two installs reach a text that a third leaves alone if and only if the first kept no second begin marker, or the second was carried out and kept none |
| TomlInstall.BareCrFails | src/config_edit.rs:162-168 | a text of one carriage return is an input on which a second install differs |
| TomlSettle.SecondMarkerFails | src/config_edit.rs:466-523 | a begin marker and a foreign table before a whole block are an input on which a second install differs, for every bare key |
| TomlSettle.EditCloser | src/config_edit.rs:466-523 | an edit over a leftover marker aborts, drops every marker before the block, or brings the last foreign header closer to the first marker |
| TomlSettle.InstallSettles | src/client/actions.rs:714-725 | from every text, a chain of installs reaches, within as many steps as the text has characters and two, a text the next one leaves alone or an install that is not carried out |
| Yaml.LocateTopSection | src/config_edit.rs:605-625 | the scan returns the section from its key's line to the next top-level key |
| Yaml.LocateSectionEntry | src/config_edit.rs:627-653 | the scan returns MCPace's entry from its line to the next key at the same indent |
| YamlInstall.BlockFoundAgain | src/config_edit.rs:436-464 | around a built YAML block the locator reports exactly its span |
| YamlInstall.PreFacts | src/config_edit.rs:282-347 | whatever path is taken, before the block are whole lines without a begin marker |
| YamlInstall.YamlInstallTwice | src/config_edit.rs:282-347 | a second YAML install changes nothing if and only if the first did not add its entry after a bare carriage return |
| YamlInstall.YamlBareCrFails | src/config_edit.rs:282-347 | a text of one carriage return is an input on which a second YAML install differs |
| YamlReads.InstallReads | src/config_edit.rs:282-347 | after any successful YAML install of a bare key that does not start with a dash, an independent reader of mapping lines finds what was kept before, the key at indent 2, the four settings with the URL exactly when it is printable, and what was kept after |
| YamlReads.InstallAdds | src/config_edit.rs:282-347 | where there was neither a block nor an entry, every mapping stays and the entry comes at the end of the section or after a new section line |
| YamlReads.SectionMeans | src/config_edit.rs:605-625 | a top-level section is the first mapping at indent 0 with the key, and the indented ones up to the next at indent 0; none is found exactly when there is no such mapping |
| YamlReads.EntryMeans | src/config_edit.rs:627-653 | an entry is the first indented mapping with the key, up to the next one at its own indent |
| YamlReads.QuotedKeyRead | src/config_edit.rs:655-683 | a key in single or double quotes is the key without them |
| YamlReads.RefusesExactly | src/config_edit.rs:436-464 | the YAML editor refuses exactly a text with no end marker after its first begin marker |
| CodexConfig.McpServerCommands | src/codex_config.rs:24-61 | the line loop collects, per table, the first command that reads as a string and is not blank |
| CodexConfig.RoundTrip | src/codex_config.rs:24-73 | any list of printable names and commands, printed with comments and further lines, is read back in order, less the servers whose command is blank |
| CodexConfig.KeyRead | src/codex_config.rs:63-73 | the printed table name of any printable server name is read back |
| CodexConfig.SpacedKeyRead | src/codex_config.rs:63-73 | blanks inside the brackets and after the table prefix do not change the name |
| ProcessIdentity.MatchNamesInstance | src/process_identity.rs:24-55 | with a token, a match is exactly a live process with that pid and token whose executable is unknown or the expected one; without a token, exactly a live process known to run the expected one |
| StartLock.Exclusive | src/serve.rs:1642-1802 | over every run at most one process holds the guard, and a lock file naming a live process means that it holds the lifecycle lock |
| StartLock.OnlyFreshMalformedFails | src/serve.rs:1692-1818 | over every run the only failure is a malformed lock file less than 30 seconds old; the other error arms are never reached |
| StartLock.FoundOwnerIsDead | src/serve.rs:1752-1790 | the owner an acquirer reads is never alive |
| StartLock.Progress | src/serve.rs:1707-1802 | an acquirer that does not crash has the guard or a failure after at most as many own steps as its rank |
| StartLock.Acquires | src/serve.rs:1692-1802 | from a granted lifecycle lock, six own steps (two attempts) lead to the guard or a fresh malformed file |
| StartLock.Releases | src/serve.rs:1678-1690 | from any reachable state three own steps of a holder release the guard: no lock file, no lifecycle lock |
| StartLock.DropsOwnFile | src/serve.rs:1678-1690 | over every run a guard that is dropped finds its own name in the lock file |
| StartLock.FreshMalformedStays | src/serve.rs:1804-1818 | a malformed lock file younger than 30 seconds is left alone and the lifecycle lock is given back |
| StopProtocol.StopSucceeds | src/serve.rs:1218-1270 | over every run a stop that succeeds leaves no state file, and the recorded process is gone |
| StopProtocol.PollGone | src/serve.rs:1304-1337 | polling ends well only when the process that matched has died |
| StopProtocol.OnlyTheOwnerExits | src/serve.rs:2255-2271 | over every run a process leaves because of the marker only if the stop was meant for it and it owns the token |
| StopProtocol.CleanupSparesLiveRuntimes | src/cleanup.rs:170-230 | over every run, when cleanup removes the state file, it does not record a live runtime under its own executable |
| StopProtocol.CleanupDecides | src/serve.rs:1195-1216 | cleanup is blocked by a record with an identity if and only if that process is alive under the recorded executable |
| StopProtocol.UnfaithfulRunnerIsForgotten | src/serve.rs:461-499 | a foreground runtime that recorded another runner than its executable loses its state file while alive |
| StopProgress.StopCompletes | src/serve.rs:1218-1337 | whatever other processes do meanwhile, a stop whose process was never recorded, is not found or has died reaches, in as many own steps as its rank, the end with no state file, unless it crashes, its time runs out or the pid is used again |
| StopProgress.CooperativeStop | src/serve.rs:1218-1337 | a recorded live runtime that watches its token can see the marker and exit, and after that the stop ends with neither process nor file nor marker |
| StopProgress.RefusalKeepsFile | src/serve.rs:1224-1270 | over every run a stop that has not decided to forget the runtime, or was refused, has left the state file as it was, unless a process removed it on its own exit |
| StopProgress.StopRefuses | src/serve.rs:1224-1270 | an unreadable record, another process under the pid, or a live one without a stop token makes the stop leave with nothing changed |
| StopProgress.TimeUpKeepsFile | src/serve.rs:1304-1337 | a time-out removes the marker and leaves the state file and the process |
| StopProgress.StopWaits | src/serve.rs:1304-1337 | while the process lives and time is left, polling changes nothing |
| StopProgress.AbortWaits | src/serve.rs:1272-1302 | and so does the polling after a failed start |
| StopProgress.StartRecords | src/serve.rs:531-781 | a start that may launch ends its launch with a running child, recorded with its identity and stop token and watching for it |
| StopProgress.HealthyStays | src/serve.rs:531-781 | once the child is healthy it stays recorded and running, and the lock is given back |
| StopProgress.AbortedStart | src/serve.rs:1272-1302 | if it does not become healthy it is told to leave, and after that neither child nor file nor marker is left |
| StopProgress.StartThenStop | src/serve.rs:513-823 | from any reachable state with the lock free there is a run in which a start leaves a running child and a stop after it leaves nothing |
| StopProgress.StartReplaces | src/serve.rs:531-781 | a start over another recorded runtime stops that one first and then records its own child |
| StopProgress.ForegroundReads | src/serve.rs:418-453 | a foreground runtime refuses to start over a healthy record and otherwise drops it |
| StopProgress.ForegroundRecords | src/serve.rs:461-504 | it then records itself and watches for its own stop token |
| StopProgress.CleanupRemoves | src/cleanup.rs:170-230 | cleanup removes the state file exactly when it is readable and records no matching process |
| StopProgress.ShutdownForgets | src/serve.rs:1912-1920 | a runtime that ends removes the state file exactly when it records that pid |
| FileLocks.LocksExclude | src/runtimepaths.rs:205-262 | over every run with crashes no lock has two live holders |
| FileLocks.AllOrNothing | src/runtimepaths.rs:264-276 | over every run a process that asked for several locks ends with all of them or owns no lock file |
| FileLocks.NobodyWaits | src/runtimepaths.rs:205-276 | every own step brings an asker nearer to the end, and it gives up only on a lock file that exists |
| AtomicWrite.NeverTorn | src/runtimepaths.rs:112-192 | at every point of every run with failures and crashes the target is wholly the old text or wholly the last renamed one |
| AtomicWrite.NoLitter | src/runtimepaths.rs:148-186 | at every point of every run the temporary files are exactly the old ones, unchanged, those of crashed writers and those of writers still at work |
| AtomicWrite.WriteCompletes | src/runtimepaths.rs:112-192 | with a free temporary name an undisturbed write ends with exactly its data in the target and no temporary file |
| AtomicWrite.RenameReplaces | src/runtimepaths.rs:148-192 | in every reachable state the rename of a filled file puts its data in place |
| AtomicWrite.OpenTries | src/runtimepaths.rs:126-192 | a taken temporary name is followed by another one, and after a hundred attempts the write fails |
| Utf8.NumeralRoundTrip | src/restart_guard.rs:123-151 | a printed number is read back if and only if it fits the type |
| Utf8.Utf8RoundTrip | src/http_probe.rs:277-323 | decoding bytes gives a text if and only if the bytes are that text in UTF-8, so every other byte sequence is refused |
| Chunked.DecodeChunkedBody | src/http_probe.rs:514-579 | the offset loop decodes what reading the rest of the body recursively gives, and terminates |
| Chunked.DecodeTrailers | src/http_probe.rs:527-563 | the trailer loop accepts well-formed trailers that end the body exactly |
| Chunked.ChunkedRoundTrip | src/http_probe.rs:514-579 | decoding undoes every encoding of a list of non-empty chunks, with extensions and trailers |
| Chunked.HexSizeLine | src/http_probe.rs:521-524 | a hexadecimal size with any extension is a size line for it, and one line if the extension is |
| Chunked.SpacedSizeLine | src/http_probe.rs:521-524 | blanks around the size do not change it |
| Chunked.TrailerMeans | src/http_probe.rs:527-563 | a trailer line is accepted exactly for a header name before its first colon and allowed characters after it |
| Chunked.TrailersStep | src/http_probe.rs:527-563 | trailers are read line by line, and the first line that is no trailer fails the body |
| Chunked.PrefixFree | src/http_probe.rs:514-579 | bytes after an accepted body are always refused as left over, so no accepted body is a prefix of another |
| HttpResponse.ParseHeaders | src/http_probe.rs:436-511 | the header loop accepts exactly the sections without malformed lines, repeated framing headers or mixed framing |
| HttpResponse.ChunkedIffCoded | src/http_probe.rs:80-99 | the body reader takes the chunked path exactly for the responses the parser accepted as chunked |
| HttpResponse.SameBody | src/http_probe.rs:80-99 | of one framed stream, a prefix and a longer prefix that both yield a body yield the same body |
| HttpResponse.ReadResponseUntil | src/http_probe.rs:277-323 | the read loop stops at the first complete text, the size limit, the end, a timed-out read, the deadline or a failed read, each with its own result |
| HttpResponse.FragmentationIndependent | src/http_probe.rs:277-323 | two ways of cutting one framed stream into reads give the same body if both give one |
| HttpResponse.ReadyIffBody | src/http_probe.rs:362-382 | a framed response that is no event stream is ready exactly when its body is complete |
| HttpResponse.EveryCutYieldsTheBody | src/http_probe.rs:277-330 | every way of cutting a complete framed response into reads returns its body, however the reads would have ended after it |
| HttpMessage.BodyMeans | src/http_probe.rs:80-99 | with a length n the body exists exactly when n bytes follow the first blank line and is exactly those; with the chunked coding it is what they decode to; with neither it is all of them |
| HttpMessage.EveryCutYieldsTheBytes | src/http_probe.rs:277-330 | every way of cutting a complete framed response into reads returns those bytes |
| HttpMessage.MessageRead | src/http_probe.rs:409-511 | a printed message is accepted exactly if its version and status are known, its status line and fields hold no control text and its framing headers are consistent, and then status, fields, length and coding are read back |
| HttpMessage.BrokenStatusRefused | src/http_probe.rs:409-435 | a line break or a null character anywhere makes a status line invalid |
| HttpMessage.LengthBody | src/http_probe.rs:80-99 | a printed message with one Content-Length has exactly that many bytes of body |
| HttpMessage.ChunkedBody | src/http_probe.rs:80-99 | a printed message with the chunked coding, in any case, and encoded chunks has the chunks as its body |
| HttpMessage.UnframedBody | src/http_probe.rs:80-99 | without either it has all that follows the head |
| HttpMessage.ReadyMeans | src/http_probe.rs:325-382 | readiness in terms of the bytes after the blank line, for every kind of body |
| HttpMessage.EndDecides | src/http_probe.rs:277-323 | when nothing was complete before the end, a closed stream gives its text, a stalled one only a complete text, and a deadline or a failed read its error |
| HttpMessage.ReceivedMeans | src/http_probe.rs:277-323 | whatever is returned is UTF-8 within the limit, and complete unless the peer closed the stream |
| Tokens.SortDedupSorts | src/execution.rs:675-694 | sorting and removing repetitions gives a strictly increasing list with the same words |
| Tokens.SameToken | src/execution.rs:797-799 | two spellings are one word exactly if, trimmed, they differ only in case and in dashes for underscores |
| Policy.AffinitiesSettle | src/execution.rs:675-694 | a normalized affinity list is sorted, without repetition, and supported throughout |
| Policy.NormalizedSettles | src/execution.rs:537-640 | whatever the fields were, normalize leaves a settled policy: bounds, required affinity, allowed reuse |
| Policy.NormalizeIdempotent | src/execution.rs:537-640 | normalize is idempotent, warnings included, and its fixed points are exactly the settled policies |
| Policy.CapacityBounds | src/execution.rs:283-311 | capacity is zero if and only if disabled, at most 4096, and one for every enabled non-pool policy over stdio |
| PolicyLaws.CapacityIs | src/execution.rs:287-311 | the capacity of a settled policy is its workers times its requests per worker, one over stdio |
| PolicyLaws.AffinitiesMean | src/execution.rs:675-719 | a dimension is in the normalized list exactly if some entry stands for it |
| PolicyLaws.NormalizedIs | src/execution.rs:537-640 | the number each limit of an enabled policy comes to, and the seven reuse policies that are kept |
| PolicyLaws.PresetStays | src/execution.rs:129-157 | normalize changes a preset only in the order of its affinity and adds no warning |
| PolicyLaws.PresetsAre | src/execution.rs:129-157 | what each mode comes to without settings, over stdio and over HTTP |
| PolicyResolve.ModeNameParses | src/execution.rs:57-87 | every mode's name parses to that mode |
| PolicyLaws.ModeWords | src/execution.rs:57-75 | a word parses to a mode exactly if it is one of that mode's words |
| PolicyResolve.ModeSelectedOrDisabled | src/execution.rs:195-244 | the resolved mode is the selected one or Disabled, and the result is settled |
| PolicyResolve.ConfigIsFixedPoint | src/execution.rs:163-244 | resolving a resolved policy again through its config, or for a server without settings, gives the same fields |
| PolicyResolve.ServerSettingsWin | src/execution.rs:192-244 | what a server's execution object says wins over its canonical policy and the defaults, within the limits |
| PolicyResolve.DisabledPolicyWins | src/execution.rs:659-673 | a canonical policy that disables a server wins over everything else and leaves no capacity |
| PolicyLaws.InferredServer | src/execution.rs:169-281 | an allowed canonical policy alone: project-isolated exactly if project-bound, session-isolated exactly if session-bound and not project-bound, shared exactly if neither and a shareable multi-reader, with the affinity it needs |
| PolicyLaws.ForbiddenAdmitsNothing | src/execution.rs:659-673 | a canonical policy that forbids running leaves no capacity, whatever the other settings |
| PolicyLaws.CanonicalWorkers | src/execution.rs:511-535 | the canonical worker count, or else its parallelism limit, sets the workers of a pool that sets none itself |
| ExecutionPolicy.ExecutionPolicy.NormalizeAffinity | src/execution.rs:675-694 | the draining loop leaves the normalized list and one warning per unsupported word |
| ExecutionPolicy.ExecutionPolicy.Normalize | src/execution.rs:537-640 | the in-place normalization computes the specified policy and leaves it settled |
| ExecutionPolicy.ExecutionPolicy.ApplyJson | src/execution.rs:447-497 | a layer overrides exactly the fields it gives well |
| ExecutionPolicy.ExecutionPolicy.ApplyGlobalLimits | src/execution.rs:499-509 | other modes' defaults only set the two global limits |
| ExecutionPolicy.ExecutionPolicy.ApplyCanonicalJson | src/execution.rs:511-535 | a canonical policy disables or sets worker limits |
| ExecutionPolicy.ResolveWithCanonical | src/execution.rs:195-244 | building the policy layer by layer in place gives the specified resolution |
| Affinity.AffinityKey | src/execution.rs:336-412 | the loop over declared dimensions reports the first missing one or the fingerprint of all |
| Affinity.SameFingerprintIffAgree | src/execution.rs:336-412 | for an injective text fingerprint, two requests get the same key exactly when they agree on every declared dimension |
| Affinity.AgreeSameKey | src/execution.rs:336-412 | for any fingerprint, requests that agree on the declared dimensions get the same key or miss the same dimension |
| Affinity.ProjectsStayApart | src/execution.rs:600-606 | a normalized project-isolated policy never merges two project roots |
| Affinity.SessionsStayApart | src/execution.rs:607-620 | a normalized session-isolated policy declares a session dimension and never merges two of its values |
| AffinityFields.ValueMeans | src/execution.rs:336-412 | for every dimension, the value a request gets, in terms of its own fields and metadata |
| AffinityFields.MissingMeans | src/execution.rs:336-412 | a request misses exactly the first declared dimension that none of its fields gives |
| AffinityFields.ValuesStayApart | src/execution.rs:336-412 | two requests whose fields give different values for a declared dimension never share a key: credential, transport, transport session and client instance as well as the rest |
| AffinityFields.SessionIdsStayApart | src/execution.rs:754-772 | under session isolation, without an application session in the metadata, different trimmed session ids give different keys |
| AffinityFields.ApplicationsStayApart | src/execution.rs:761-782 | different first application sessions in the metadata give different keys whatever the session ids |
| AffinityFields.NoSessionNoKey | src/execution.rs:761-782 | a request with neither gets no key |
| AffinityFields.ModesStayApart | src/execution.rs:336-412 | policies of different modes never share a key |
| StdioSession.Serve | src/mcp_server.rs:98-611 | the loop over lines produces the session's turns and fails exactly when the replay window is full or a line cannot be read |
| StdioAnswers.EveryAnswer | src/mcp_server.rs:163-606 | over every session, the exact answer to every well-formed request with an id, from its method, its id and the turns before it |
| StdioAnswers.StateMeans | src/mcp_server.rs:22-245 | over every session the handshake flags and the used ids are what the turns so far say |
| StdioAnswers.EveryLineHasATurn | src/mcp_server.rs:98-611 | every line gets a turn unless one closes the session |
| StdioAnswers.BytesAreUtf8 | src/mcp_protocol.rs:154-164 | the limit on ids counts the bytes of their UTF-8 text |
| StdioAnswers.IntegersAreIds | src/mcp_protocol.rs:166-177 | every integer can be an id, and no number with a fraction or an exponent can |
| StdioSession.FaultlessIffEnveloped | src/mcp_protocol.rs:215-256 | the ordered checks let through exactly the well-formed requests |
| StdioSession.OneResponse | src/mcp_server.rs:163-606 | in any state a well-formed request with an id gets one response with that id, and one without gets none |
| StdioSession.EveryRequestAnswered | src/mcp_server.rs:98-611 | the same over every turn of every session |
| StdioSession.MalformedResponse | src/mcp_server.rs:107-186 | other lines get one error and change nothing, blank lines get nothing, and an unreadable line ends the session |
| StdioSession.DeadArms | src/mcp_server.rs:175-284 | the missing-method, invalid-id and inner not-initialized arms are never taken |
| StdioSession.DispatchedIdsDistinct | src/mcp_server.rs:22-41 | over every session dispatched ids are pairwise distinct and at most 4096 |
| StdioSession.KeysTellIdsApart | src/mcp_protocol.rs:146-177 | two ids share a replay key if and only if they are the same id |
| StdioSession.InitializeOnce | src/mcp_server.rs:290-306 | over every session at most one initialize succeeds |
| StdioSession.OperationsFollowHandshake | src/mcp_server.rs:214-245 | over every session an operation, a cancellation or an unknown method is dispatched only after an initialize and then an initialized notification |
| LineReader.ReadBoundedLine | src/mcp_server.rs:613-657 | for every buffering the result and the bytes consumed are the splitter's: up to the newline or the end, or one byte over the limit |
| LineReader.ReadLines | src/dashboard.rs:953-1003 | repeated calls return the splitter's lines up to the end or the first one that is too long |
| LineReader.PiecesRebuild | src/mcp_server.rs:613-657 | those lines and what is left unread make up the stream |
| LineReader.PieceIsLine | src/dashboard.rs:953-1003 | every line but the last is whole and within the limit, and only the last may be too long |
| Metrics.CountersOrdered | src/dashboard.rs:159-244 | under every interleaving failed ≤ completed ≤ accepted, active is at most the number of workers and never underflows |
| Metrics.QuiescentTotals | src/dashboard.rs:188-244 | when every worker is idle nothing is active or missing and the recorded maxima are the true peaks |
| ProjectedNames.SafeToken | src/adapter.rs:922-944 | the character loop builds a safe token: lower-case words joined by single underscores |
| ProjectedNames.NameIsJoined | src/adapter.rs:889-921 | the double-underscore loop and the final truncation never fire; the name is safe and at most 64 characters |
| ProjectedNames.ProjectedSafeName | src/adapter.rs:889-921 | the string building, with its loop and truncations, computes the specified name |
| ProjectedNames.ShortNamesStayWhole | src/adapter.rs:889-921 | a short server and tool name are in the name whole |
| ProjectedNames.SuffixesDiffer | src/adapter.rs:889-921 | distinct positive counters give distinct names, whatever is truncated |
| ProjectedNames.UniqueProjectedName | src/adapter.rs:873-888 | the loop ends, with the first candidate not in use |
| ProjectedNames.ProjectTools | src/adapter.rs:296-334 | all names are pairwise distinct, avoid the reserved ones, and keep their server and tool |
| ProjectedNames.NamesResolveBack | src/adapter.rs:412-458 | whatever part is exposed in whatever order, each name resolves to its own server and tool |
| Catalogue.CatalogServer | src/adapter.rs:486-538 | one server's counts add up and its lists are the first tools that still fit |
| Catalogue.ProjectionCatalog | src/adapter.rs:464-626 | raw count is projectable plus broker-only, in total and per server, and the candidates are the first projectable tools in order |
| Catalogue.NothingLost | src/adapter.rs:491-537 | every tool is counted as projectable or as broker-only, never as both |
| Catalogue.ChosenExactly | src/adapter.rs:646-702 | a tool is projectable exactly if it is named and the safety level admits its annotations and its name |
| Catalogue.LimitCoversBudget | src/adapter.rs:628-640 | the candidate limit is at least the budget and at most 8192: eight times the budget, or what is configured within these bounds |
| Catalogue.TakeWithBudget | src/adapter/discovery.rs:1522-1538 | the loop takes the longest start of the list within both budgets, but never less than the first tool |
| Catalogue.ProjectedToolSet | src/adapter.rs:296-377 | in which modes and budgets projection is enabled; something is exposed exactly then, always within the budgets, only tools the safety level admits, and in Auto mode every projectable tool |
| RestartGuard.AttemptsRoundTrip | src/restart_guard.rs:123-151 | the attempt file's decimal text reads back to the same launches |
| RestartGuard.JunkIsSkipped | src/restart_guard.rs:123-132 | a line that is no number is skipped |
| RestartGuard.LimitsAreBounded | src/restart_guard.rs:111-121 | the configured window and maximum within their bounds, and their defaults |
| RestartGuard.WithinMeans | src/restart_guard.rs:84-105 | a launch is kept exactly if it lies in the window and not in the future |
| RestartGuard.Guard.CheckAndRecord | src/restart_guard.rs:84-105 | a call is refused at the limit without a change, and otherwise the file holds the window and the new launch |
| RestartGuard.Guard.Clear | src/restart_guard.rs:107-109 | afterwards no launch is on record |
| RestartGuard.GuardRefinesHistory | src/restart_guard.rs:84-105 | with a clock that does not run backwards, the pruned file decides every call as counting all past launches would |
| RestartGuard.PruningDecidesAlike | src/restart_guard.rs:84-105 | the same from any file that agrees with its history |
| RestartGuard.NoCrowdedWindow | src/restart_guard.rs:84-105 | no window that ends at an accepted launch holds more than the maximum |
| Registry.NormalizedIdempotent | src/mcp_sources.rs:418-432 | normalizing a server name twice is normalizing it once |
| Registry.NormalizedMeans | src/mcp_sources.rs:418-432 | a normalized name is the trimmed name in lower case, with dashes for other characters, less the outer dashes |
| Registry.LoadRegistry | src/mcp_sources.rs:112-188 | each key maps to its last occurrence in source order and then key order |
| Registry.SortIsStable | src/mcp_sources.rs:292 | sorting orders the statuses by path and keeps those of one path in order |
| Registry.LoadReport | src/mcp_sources.rs:190-297 | the report's registry holds the same, the read paths are listed once in order, and the statuses of all sources come by path, stably |
| Registry.SourcePaths | src/mcp_sources.rs:328-356 | the search finds exactly the sources that declare the name |
| Registry.LoadersAgree | src/mcp_sources.rs:112-356 | both loaders give one registry, a name is in it if and only if the search finds a path, and the winner's source is among them |

## Left out

- The JSON config editor, YAML removal, and backups of edited files.
- Byte offsets: text is a sequence of characters and an offset counts characters; every slice the TOML editor takes lies at a character it has scanned.
- I/O errors of the lock, state and marker files, and the runner copies and logs beside them.
- StopProtocol.StopSucceeds: a record without a process identity names no process, so nothing is said about one.
- The start guard inside `StopProtocol`: it is taken as the lifecycle lock alone, which `StartLock.Exclusive` justifies.
- A child that its starter has not yet recorded keeps its pid, as an unreaped child does on Unix; Windows gives no such promise.
- Lock file names: two targets are taken to have two lock files, as they do unless their names differ only in bytes that are not UTF-8.
- Durability: `AtomicWrite` orders renames but does not model what a power failure leaves on disk.
- Machine-width overflow of the chunk offset and of the counters: both are mathematical integers.
- Event-stream bodies, JSON parsing and the request side of HTTP: readiness takes them as given judgements.
- Hash collisions: `Affinity` takes the text fingerprint to be injective, `ProjectedNames` takes the name hash as any ten letters or digits.
- ProjectedNames.UniqueProjectedName: the number of names in use is taken to be below the largest 64-bit number, as memory makes it.
- Catalogue.ProjectedToolSet: takes the candidates in catalogue order, where the source ranks them first, and servers to have a name that is not blank, as the registry gives them; `ProjectedNames` covers every order.
- Registry.SourcePaths: gives a set; the source sorts the same paths component by component.
- Warnings of the registry loaders and of the catalogue.
- Relaxed memory order: `Metrics` interleaves whole atomic steps.
- The deadline of the dashboard's line reader.
- StdioSession.Serve: a response that cannot be written to standard output, which also ends the session with status 1.
- Affinity.AffinityKey: gives the fingerprint; the client, session, project and transport the source stores beside it for display are not modelled.
- The global claim that only one runtime is ever alive: a start drops the state of an unhealthy runtime that may still be alive.
- HTTP routing, dashboard pages, discovery, hub leases, the upstream session pool, admission and service installation.
