# scanner_back in Dafny

A model of the core of `scanner_back`. This NestJS back end runs `nmap` and
`fscan` scans, plus user-supplied shell commands, under passwordless `sudo`.
It names each task with a timestamped id and parses the scanners' log files.

The model covers:

- **Nmap parsing** (`NmapTypes`, `NmapParser`).
  - The XML tree as the XML decoder delivers it. The decoder is configured so
    that ten tag names always decode to lists.
  - The two "missing root or exception → null" entry points, and the variant
    that adds a summary.
  - `buildSummary`, which does five things:
    - normalises hosts and addresses;
    - picks the first IPv4 and MAC addresses;
    - keeps the open ports and coerces their port ids;
    - simplifies the OS matches and sorts them stably by descending accuracy;
    - copies the run-level attributes (scanner, version, start time, arguments)
      and the six run statistics, each null where its optional chain breaks.
- **Fscan parsing** (`FscanTypes`, `FscanParser`).
  - The tagged union of log entries.
  - How a stream of concatenated JSON objects is repaired into one JSON array:
    trim, rewrite every `}`-whitespace-`{` seam to `},{`, then wrap in brackets.
  - Decode-or-empty.
- **The scanner service** (`Scanner`).
  - The start-up checks: both executables must exist, and the passwordless
    `sudo` probe must pass.
  - For each of the three kinds of task: the log path and the command line that
    is logged and returned (for a DIY task, the caller's own command). For
    `nmap` scans, also the port spec.
- **The application service** (`AppService`). Task ids have the form
  `YYMMDDHHmm-<UUID>`.

Shared pieces:

- `Wrappers`: Option and Result.
- `Text`: the JavaScript `trim` whitespace set, decimal numerals,
  `join`/`split`, and template literals as concatenations of pieces.
- `Sequences`: `filter`.

Some parts of the system are outside the model and become function parameters
instead:

- the XML decoder;
- `JSON.parse`;
- file reads;
- the file-system and `sudo` probes;
- the clock and the random UUID.

The method `getYYDDMMHHMM` is named day-before-month. The code, and therefore
the model, concatenates year, month, day, hours and minutes in that order
(`YYMMDDHHmm`).

## Model

| member | source | states |
|---|---|---|
| NmapTypes.NmapScanSpeed.Value | src/parser/scanner.type.nmap.ts:1-7 | each timing template renders as one character between `1` and `5` |
| NmapTypes.SpeedOfValue | src/parser/scanner.type.nmap.ts:1-7 | a string names a timing template exactly when it is one character `1`..`5`, and that template renders back to the string |
| NmapTypes.SpeedRoundTrip | src/parser/scanner.type.nmap.ts:1-7 | reading back a template's rendering gives the template |
| NmapTypes.SpeedValuesIncrease | src/parser/scanner.type.nmap.ts:1-7 | Safe < Medium < Fast < Aggressive < Insane in their rendered digits |
| NmapParser.IsArrayExactly | src/parser/parser.nmap.service.ts:29-51 | the decoder's `isArray` callback answers yes exactly for `host`, `address`, `hostname`, `port`, `portused`, `osmatch`, `osclass`, `cpe`, `extraports` and `extrareasons` |
| NmapParser.Group | src/parser/parser.nmap.service.ts:51 | the decoder gives nothing for no occurrence, and a bare element only for one occurrence of a tag outside the set |
| NmapParser.GroupThenList | src/parser/parser.nmap.service.ts:51 | normalising what the decoder produced gives back the occurrences in document order; a tag in the set is never a bare element |
| NmapParser.ParseNmapXmlContent | src/parser/parser.nmap.service.ts:95-111 | the result is null exactly when decoding throws or the document has no `nmaprun`; otherwise it is that root |
| NmapParser.ParseNmapLogfile | src/parser/parser.nmap.service.ts:59-77 | a failed read gives null; otherwise the result is that of parsing the file's content |
| NmapParser.ParseNmapLogfileWithSummary | src/parser/parser.nmap.service.ts:82-90 | null exactly when the parse is null; otherwise `raw` is the parsed root and `summary` its summary |
| NmapParser.FirstOfType | src/parser/parser.nmap.service.ts:129-137 | the index found is that of the first address of the type, or the length when none has it |
| NmapParser.Find | src/parser/parser.nmap.service.ts:129-137 | a found address is one of the host's and has the requested type; nothing is found exactly when no address has that type |
| NmapParser.Truthy | src/parser/parser.nmap.service.ts:129-137 | `x \|\| null` on text is null exactly for absent or empty text, and otherwise the text itself |
| NmapParser.FirstOfTypeUnique | src/parser/parser.nmap.service.ts:129-137 | "the first address of this type" has exactly one witness, the one `find` returns |
| NmapParser.SummaryAddresses | src/parser/parser.nmap.service.ts:124-137 | `ipv4` is the first IPv4 address's text unless that is empty; `mac` likewise for the first MAC address; `vendor` is the first MAC address's non-empty vendor; with no MAC address both are null |
| NmapParser.BuildSummary | src/parser/parser.nmap.service.ts:116-197 | one summary per host, in order, for a missing, single or listed `host`; the scanner name defaults to `nmap`; `version`, `startedAt` and `args` are the run's attributes, null when absent; `runstats` is the run's statistics block projected field by field; OS classes use the corrected CPE reading (see Findings) |
| NmapParser.SimplifyRunStats | src/parser/parser.nmap.service.ts:188-195 | `summary`, `elapsed` and `exit` follow `runstats.finished`, `up`, `down` and `total` follow `runstats.hosts`, each null wherever a link of its chain is missing; no `runstats` gives six nulls |
| NmapParser.SimplifyHost | src/parser/parser.nmap.service.ts:123-180 | a host's `openPorts` are its open port entries, simplified, in order; its `osMatches` are its simplified `osmatch` entries sorted by descending accuracy, one per entry; `status` is the host's state, null when absent; a non-null `ipv4` is the non-empty text of one of the host's IPv4 addresses |
| NmapParser.OpenPorts | src/parser/parser.nmap.service.ts:140-151 | never more open ports than port entries, and none when no entry's state is `open` |
| NmapParser.OpenPortsSnoc | src/parser/parser.nmap.service.ts:139-151 | the open-port list keeps exactly the ports whose state is `open`, in order, each simplified |
| NmapParser.OpenPortIncluded | src/parser/parser.nmap.service.ts:140-142 | every open port appears, simplified, in the list |
| NmapParser.OpenPortOrigin | src/parser/parser.nmap.service.ts:140-142 | every listed port comes from an open port of the host |
| NmapParser.NoPortsNoOpenPorts | src/parser/parser.nmap.service.ts:139 | a host without `ports`, or without `port` entries, has no open ports |
| NmapParser.SimplifyPortFields | src/parser/parser.nmap.service.ts:143-147 | the protocol defaults to `tcp`; a numeric port id is kept, a numeral is read as its value, and a missing id gives 0 |
| NmapParser.SimplifyPort | src/parser/parser.nmap.service.ts:142-151 | the protocol is copied, defaulting to `tcp`; the port is the coerced port id, 0 when missing; `service` is the service's name and `reason`/`reason_ttl` the state's attributes, each null when the element is missing |
| NmapParser.NumberOrZero | src/parser/parser.nmap.service.ts:144-147 | a missing value coerces to 0, and text never coerces to a negative number: only a value the decoder already made numeric can be negative |
| NmapParser.NumeralCoerces | src/parser/parser.nmap.service.ts:144-147 | `Number(text)` of a decimal numeral is its value |
| NmapParser.NonNumericIsZero | src/parser/parser.nmap.service.ts:144-147 | text holding a character that is neither a digit nor whitespace coerces to 0 |
| NmapParser.CpeTexts | src/parser/parser.nmap.service.ts:165-167 | the corrected pipeline, reading the text of a `cpe` element in either decoded form: at most one string per entry, and no empty string |
| NmapParser.CpeTextsMembership | src/parser/parser.nmap.service.ts:165-167 | a string is listed exactly when it is non-empty and some `cpe` entry, bare or with a `#text` property, carries it |
| NmapParser.CpeTextsSnoc | src/parser/parser.nmap.service.ts:165-167 | no entries give no strings, and appending an entry appends its text when that is non-empty: the list is the entries' texts in document order, duplicates kept, empty ones dropped |
| NmapParser.CpeTextsAsWritten | src/parser/parser.nmap.service.ts:165-167 | the pipeline as written: at most one string per entry, and no empty string |
| NmapParser.BareCpesDropped | src/parser/parser.nmap.service.ts:165-167 | as written, a list of text-only `cpe` elements, which the decoder delivers as bare strings, yields no CPE strings at all |
| NmapParser.LinuxKernelCpe | src/parser/parser.nmap.service.ts:165-167 | the entry `<cpe>cpe:/o:linux:linux_kernel</cpe>` is lost as written and kept by the corrected pipeline |
| NmapParser.CpeTextsAgreeOnNodes | src/parser/parser.nmap.service.ts:165-167 | when every entry decodes to an object, the code as written and the corrected pipeline give the same list |
| NmapParser.SimplifyOsClass | src/parser/parser.nmap.service.ts:160-168 | `type`, `vendor`, `osfamily` and `osgen` are copied; the CPE list is the corrected reading of the `cpe` entries: at most one non-empty string per entry |
| NmapParser.SimplifyOsMatch | src/parser/parser.nmap.service.ts:154-169 | the name is copied; the accuracy is the coerced `accuracy` attribute, 0 when missing; the classes are the `osclass` entries, each simplified, in order |
| NmapParser.InsertByAccuracy | src/parser/parser.nmap.service.ts:170 | an insertion step adds one element: the list holds the inserted match and every old one, and nothing else |
| NmapParser.SortByAccuracy | src/parser/parser.nmap.service.ts:170 | the sort keeps the length and the elements of the list |
| NmapParser.InsertPermutation | src/parser/parser.nmap.service.ts:170 | one insertion step adds exactly the inserted match |
| NmapParser.InsertSorted | src/parser/parser.nmap.service.ts:170 | one insertion step keeps the list in descending accuracy |
| NmapParser.InsertStable | src/parser/parser.nmap.service.ts:170 | one insertion step keeps the relative order of matches with equal accuracy |
| NmapParser.InsertStableSkip | src/parser/parser.nmap.service.ts:170 | an insertion that passes a more accurate match leaves the order of equal-accuracy matches unchanged |
| NmapParser.SortByAccuracyCorrect | src/parser/parser.nmap.service.ts:170 | the sort is a permutation, is in descending accuracy, and is stable: for every accuracy, the matches with that accuracy keep their order |
| NmapParser.MoreAccurateFirst | src/parser/parser.nmap.service.ts:153-170 | of two OS matches, the more accurate one is listed first, whichever comes first in the file |
| NmapParser.SummaryOsMatches | src/parser/parser.nmap.service.ts:153-170 | a host's OS matches are its simplified `osmatch` entries, sorted stably by descending accuracy |
| FscanTypes.FscanLogEntry.Type | src/parser/scanner.type.fscan.ts:9-54 | the `type` tag is `HOST`, `PORT` or `SERVICE` exactly for the matching variant |
| FscanTypes.TypeOfName | src/parser/scanner.type.fscan.ts:10-49 | a tag name is recognised exactly when it is one of the three names, and it renders back to itself |
| FscanParser.ParseFscanContent | src/parser/parser.fscan.service.ts:12-27 | all-whitespace content gives `[]`; otherwise it is the decoded repaired text, or `[]` when decoding fails |
| FscanParser.ParseFscanLogfile | src/parser/parser.fscan.service.ts:8-28 | a read failure propagates as an error; otherwise the result is that of parsing the content |
| FscanParser.RepairBoundaries | src/parser/parser.fscan.service.ts:17 | the rewrite gives empty text exactly for empty text |
| FscanParser.RepairKeepsEnds | src/parser/parser.fscan.service.ts:17 | the rewrite keeps the first and the last character, since a seam and its replacement both start with `}` and end with `{` |
| FscanParser.RepairedText | src/parser/parser.fscan.service.ts:12-17 | the decoder's input is bracketed; blank content gives `[]`; otherwise the brackets enclose text that starts and ends like the trimmed content |
| FscanParser.OpensAfterWhitespaceCons | src/parser/parser.fscan.service.ts:17 | `\s*\{` matches at a character exactly when it is `{`, or whitespace followed by a match |
| FscanParser.RepairKeepsOpening | src/parser/parser.fscan.service.ts:17 | the rewrite neither creates nor destroys a `\s*\{` at the start of the text |
| FscanParser.NoBoundaryCons | src/parser/parser.fscan.service.ts:17 | prepending a character to seam-free text creates no seam unless it is `}` before `\s*\{` |
| FscanParser.RepairLeavesNoBoundary | src/parser/parser.fscan.service.ts:17 | after the global replace no `}`-whitespace-`{` seam remains |
| FscanParser.RepairIdentity | src/parser/parser.fscan.service.ts:17 | the replace changes nothing exactly when the text has no seam |
| FscanParser.RepairCopiesPlain | src/parser/parser.fscan.service.ts:17 | text in which no seam starts is copied unchanged, and the replace continues on what follows it |
| FscanParser.RepairRewritesSeam | src/parser/parser.fscan.service.ts:17 | a `}`, any run of whitespace and a `{` become exactly `},{`, and the replace continues on what follows |
| FscanParser.RepairIdempotent | src/parser/parser.fscan.service.ts:17 | applying the replace twice is the same as once |
| FscanParser.RepairKeepsCounts | src/parser/parser.fscan.service.ts:17 | the replace keeps the number of every character other than whitespace and `,`, so it keeps every `{` and `}` |
| FscanParser.RepairCountsAtSeam | src/parser/parser.fscan.service.ts:17 | a rewritten seam keeps those counts |
| FscanParser.RepairCountsAtPlain | src/parser/parser.fscan.service.ts:17 | a character copied unchanged keeps those counts |
| FscanParser.SeamCount | src/parser/parser.fscan.service.ts:17 | a matched seam holds the same non-whitespace, non-comma characters as `},{` |
| FscanParser.TrimKeepsCounts | src/parser/parser.fscan.service.ts:12 | `trim` keeps the number of every non-whitespace character |
| FscanParser.RepairedTextShape | src/parser/parser.fscan.service.ts:12-17 | the decoder's input is bracketed, has no seam inside, and has as many `{` and `}` as the file |
| FscanParser.WrapOnly | src/parser/parser.fscan.service.ts:17 | content without a seam is only trimmed and wrapped in `[`…`]` |
| Scanner.EnvOr | src/scanner/scanner.service.ts:16-17 | `process.env.X \|\| default` is the variable's value when it is set and non-empty, and the default when it is unset or empty; a non-empty default never gives empty text |
| Scanner.NewScannerService | src/scanner/scanner.service.ts:15-50 | start-up succeeds exactly when both paths exist and `sudo` allows both resolved paths; the service keeps the resolved paths; a missing fscan is reported before a missing nmap; once both exist, a refused `sudo` probe on either path fails with the sudo error; the environment variables fall back to the default paths |
| Scanner.ScannerService.RunDiyCommand | src/scanner/scanner.service.ts:52-66 | `taskId` is the UUID, the log path is `./log/diy_<UUID>.log`, and the recorded command is the caller's command, not the wrapper that runs it |
| Scanner.ScannerService.RunFscanScan | src/scanner/scanner.service.ts:68-83 | `taskId` is the UUID and the log path is `./log/fscan_<UUID>.json` |
| Scanner.ScannerService.RunNmapScan | src/scanner/scanner.service.ts:85-104 | `taskId` is the UUID and the log path is `./log/nmap_<UUID>.xml` |
| Scanner.LogFileName | src/scanner/scanner.service.ts:56-93 | every log path lies under `./log/` and ends with the UUID and the extension of its kind (`.log`, `.json`, `.xml`) |
| Scanner.LogFileNameRoundTrip | src/scanner/scanner.service.ts:56-93 | a log path determines its task kind and UUID |
| Scanner.LogFileNameInjective | src/scanner/scanner.service.ts:56-93 | distinct tasks never share a log file |
| Scanner.PortSpecRoundTrip | src/scanner/scanner.service.ts:92 | no ports gives `1-65535`; otherwise splitting on `,` gives one numeral per port, in order, with the port's value |
| Scanner.FscanCommandShape | src/scanner/scanner.service.ts:81 | the command starts with `sudo -n <fscan path>`, contains `-h <target> -t <threads>`, and ends with the fixed flags and `-f json -o <log path>` |
| Scanner.FscanDefaults | src/scanner/scanner.service.ts:71-81 | without a thread count the command says `-t 200` |
| Scanner.FscanLogShowsCommand | src/scanner/scanner.service.ts:74-81 | the logged message carries exactly the returned command |
| Scanner.NmapCommandShape | src/scanner/scanner.service.ts:102 | the command starts with `sudo -n <nmap path> -n <target>`, contains `--host-timeout <timeout>s -O --osscan-guess -sS -p <port spec>`, and ends with `-T<speed> -oX <log path>` |
| Scanner.NmapDefaults | src/scanner/scanner.service.ts:88-102 | without the optional arguments the command uses a 90 s timeout, ports `1-65535` and `-T4` |
| Scanner.NmapLogShowsCommand | src/scanner/scanner.service.ts:94-102 | the logged message carries exactly the returned command |
| Scanner.DiyLogShowsCommand | src/scanner/scanner.service.ts:57-59 | the logged message names the caller's command and its log path |
| Scanner.DiyShellLineShape | src/scanner/scanner.service.ts:60 | the shell line runs the caller's command verbatim after `sudo -n bash -c `, and sends both output streams to the DIY log file |
| AppService.YearField | src/app.service.ts:10 | for a year of at least two digits, the field is two digits worth the year modulo 100; a one-digit year stays one digit |
| AppService.TimestampPrefix | src/app.service.ts:9-17 | for a year of at least two digits the prefix is ten digits; it always ends with the minutes, zero-padded to two digits |
| AppService.GenerateUuid | src/app.service.ts:5-7 | the id is the prefix, a dash, then the random UUID |
| AppService.PrefixFields | src/app.service.ts:9-17 | the prefix is ten digits: year mod 100, month 01..12, day, hours and minutes, in that order |
| AppService.TaskIdShape | src/app.service.ts:5-17 | the id's eleventh character is the dash, with the prefix before it and the random UUID after it |
| AppService.PrefixValue | src/app.service.ts:9-17 | read as a number, the prefix packs the fields two digits each |
| AppService.PrefixOrder | src/app.service.ts:9-17 | within a century, a smaller prefix means an earlier minute, and the reverse |
| AppService.PrefixSameMinute | src/app.service.ts:9-17 | two prefixes are equal exactly when the minute is the same (year mod 100) |
| Text.Trim | src/parser/parser.fscan.service.ts:12 | `trim` strips the longest whitespace runs from both ends: what is cut is whitespace, the result neither starts nor ends with whitespace, and it is empty exactly for all-whitespace text |
| Text.NatToString | src/scanner/scanner.service.ts:81-102 | `String(n)` is a canonical decimal numeral, one character exactly below 10 |
| Text.DigitsValueOfNatToString | src/scanner/scanner.service.ts:92 | reading `String(n)` back gives `n` |
| Text.NatToStringOfDigitsValue | src/parser/parser.nmap.service.ts:147 | a canonical numeral is `String` of its value |
| Text.PadTwo | src/app.service.ts:11-14 | `padStart(2, '0')` of a number below 100 is two digits worth the number |
| Text.SplitJoin | src/scanner/scanner.service.ts:92 | splitting a `join` on its separator gives back the pieces when no piece contains the separator |
| Text.DigitsValueInjective | src/app.service.ts:16 | digit strings of equal length are equal exactly when their values are |
| Text.ConcatParts | src/scanner/scanner.service.ts:75-102 | in a template literal, the leading pieces render to a prefix, any run of middle pieces to an infix, and the trailing pieces to a suffix |
| Sequences.FilterMembership | src/parser/parser.nmap.service.ts:141 | `filter` keeps exactly the elements that pass the test |
| Sequences.FilterConcat | src/parser/parser.nmap.service.ts:141 | filtering a concatenation filters each part |

## Left out

- The XML decoder (`fast-xml-parser`) is a parameter: a function from text to a decoded tree or a thrown error. Its tokenising and coercion of attribute and tag values are not modelled. Only its always-a-list option is modelled (`NmapParser.Group`).
- `JSON.parse` is a parameter: a partial function from the repaired text to log entries.
- File reads are parameters: read outcomes for a path. Logger calls are not modelled.
- Launching processes through Bun's `$` shell is not modelled: quoting and escaping of interpolated values, asynchrony, and exit status. The model states the command text the service logs and returns.
- `fs.existsSync`, `fs.realpathSync` and the `sudo -n -l` probe are oracle parameters of `NewScannerService`.
- The text of the exception the constructor throws is not modelled; only which check failed is.
- `crypto.randomUUID()` and `new Date()` are inputs. The date fields are taken within their calendar ranges, as `Date`'s getters return them.
- AppService.YearField: years are non-negative, so the `-` of a negative year's string is not modelled.
- NmapParser.NumberOrZero: `Number(text) || 0` is modelled only for text that is surrounding whitespace around decimal digits (its value), and maps every other text to 0. JavaScript would coerce other forms that the model maps to 0: a sign (`-5`, `+5`), a fraction (`1.5`), an exponent (`1e3`), `Infinity`, and the prefixed forms `0x…`, `0b…` and `0o…`.
- Floating-point attributes are not modelled as JavaScript numbers. `attr_elapsed` is a `real`; the other decimal attributes stay text.
- The optional `attr_version` attribute is modelled as text, not as the number the decoder may produce.
- FscanTypes.FscanServiceDetails: the field `Url` keeps the capital of its JSON key, as the interface declares it.
- `server_info` in fscan service details is a map from names to text. Its nested structure is not modelled.
- Field optionality follows what the code tolerates with `?.`, `??` and `||`. A field that the TypeScript interfaces declare required but that `buildSummary` guards is modelled as optional.
- Scanner.PortSpec: ports, threads and timeouts are natural numbers. Negative or fractional values, which JavaScript would render with a sign or a point, are not modelled.
- `src/scanner/scanner.type.ts`, which declares `ScannerTaskExecuteResult`, is not part of this model. The record is modelled from the three objects the service returns.
- `DaoService` is not modelled, because every method is a stub and it holds no state. No task-status state machine exists in the code, so none is modelled.
- `app.controller.ts` is the HTTP layer and is not modelled. Its scan launches are fire-and-forget, and it stores a placeholder command.
- `scanner.controller.ts` is not modelled, because no module registers it.
- `main.ts` and the `*.module.ts` wiring files are not modelled.
- NmapParser.SimplifyOsClass: the summary reads each `cpe` entry with the corrected `CpeTexts`, not with the code as written (`CpeTextsAsWritten`). For a text-only `<cpe>` element the model lists its CPE string where the program gives `cpe: []`; see "## Findings".
- FscanParser.RepairBoundaries: the seam rewrite is applied to the whole text, including inside JSON string values. This is what the code does; the model does not say what the decoder then makes of such a value.

## Findings

| source | as written | input that shows it | evidently intended | confidence | as-written member | corrected member |
|---|---|---|---|---|---|---|
| src/parser/parser.nmap.service.ts:165-167 | each `cpe` entry is read as `cpe?.['#text'] \|\| ''`; the decoder delivers a `cpe` element without attributes as a bare string, which has no `#text` property, so every such entry becomes `''` and is filtered out | an `osclass` holding `<cpe>cpe:/o:linux:linux_kernel</cpe>` (the form nmap writes) gives `cpe: []` | the OS class lists the CPE strings of its `cpe` elements, in document order | not executed; rests on the decoder's documented behaviour of delivering a text-only element as a plain string | NmapParser.CpeTextsAsWritten | NmapParser.CpeTexts |
