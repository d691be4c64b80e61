# upgak website monitor — a Dafny model of its checker, configuration and notifier

upgak checks whether HTTP(S) URLs are up and tells the user, on the console
and through desktop notifications. This project models the three pieces of
sequential logic in it and proves what they promise:

- **Checker** (`checker.dfy`). It turns one probe outcome into a `CheckResult`.
  A probe outcome is either a transport error or an HTTP status. The serial
  batch fills a preallocated slice in index order. The concurrent batch
  writes each slot from its own goroutine, in any completion order. The
  module also builds the line `PrintResult` writes.
- **Config** (`config.dfy`). A `Config` class whose batch loaders append to
  its URL list: plain text, decoded JSON, and decoded CSV with its
  header-row rule. It also has the extension dispatch, the scan for an
  explicit `--interval`, and the one-time-mode rule of `ParseFlags`.
- **Notification** (`notification.dfy`). The `Silent` guard, the exact titles
  and bodies, and the per-OS choice of channel. A notification is modelled
  as the command it would run, or the line it would print. The darwin command
  uses the script exactly as upgak builds it; a corrected, escaped
  dispatch sits beside it (see Findings).

Helper modules: `Wrappers` has Option and Result. `Time` has Go's `time.Duration`. `Strings` models the Go
`strings` functions the code uses, on ASCII. `Decimal` models Go's `%d`,
with a parser proving that the printed digits read back as the number.

The HTTP call, the clock, the file system, the JSON and CSV tokenisers,
the flag package and `cmd.Run` are inputs:

- each probe is a `Probe(outcome, elapsed)`, one per URL;
- the file system and the decoders are function parameters;
- the parsed flags are a `FlagValues` value;
- the OS name and the command's error are parameters.

A failed probe keeps `StatusCode` at Go's zero value 0, and the model
follows the code.

## Model

| member | source | states |
|---|---|---|
| `Checker.CheckSingle` | internal/checker/checker.go:20-45 | The URL and elapsed time are recorded on both paths. A transport error gives a down result carrying the error, with status 0. A response gives no error, its status, and "up" exactly when 200 ≤ status < 400. |
| `Checker.UpMeansNoErrorAndHealthy` | internal/checker/checker.go:33-42 | A result is up if and only if it has no error and a status in [200, 400). |
| `Checker.StatusBoundaries` | internal/checker/checker_test.go:39-65 | 199 and 400 are down; 200 and 399 are up. |
| `Checker.ErrorLineIsDown` | internal/checker/checker.go:33-37 | A result carrying an error is never up. |
| `Checker.CheckMultipleSerial` | internal/checker/checker.go:48-56 | Returns exactly one result per URL; results[i] is the check of urls[i]. |
| `Checker.CompletionOrderCovers` | internal/checker/checker.go:63-71 | Pigeonhole: n goroutines with distinct indices below n cover every index, so every slot is filled before `Wait` returns. |
| `Checker.CheckMultipleConcurrent` | internal/checker/checker.go:59-73 | For any completion order of the goroutines, the result is the same sequence the serial batch gives: the check of urls[i] at every position i. The proof shows that each slot is written exactly once, only by its own goroutine. |
| `Checker.BatchesAgreeOnUrls` | internal/checker/checker_test.go:67-86 | Two batches over one URL list agree position by position on the URL whatever the probes answered, and agree entirely when the probes agree. |
| `Checker.Milliseconds` | internal/checker/checker.go:86 | Whole milliseconds, truncated toward zero, bounded by the duration on both sides. |
| `Checker.ResultLineFrame` | internal/checker/checker.go:76-91 | Lays out the definition of the line PrintResult writes (`Checker.ResultLine`): the status icon, the URL and " - " open it, and " ms" and a newline close it. It only unfolds the definition; `Checker.ResultLineStatus`, `Checker.ResultLineDetail` and `Checker.ResultLineTime` state what the fields mean. |
| `Checker.ResultLineStatus` | internal/checker/checker.go:76-82 | The line starts with the tick icon, and the status word after the URL is "UP", each exactly when the result is up. |
| `Checker.ResultLineDetail` | internal/checker/checker.go:84-90 | The detail field starts with "ERROR: " exactly when there is an error, and with "HTTP " exactly when there is none. The error text follows "ERROR: " unchanged. The digits after "HTTP " read back as the status code. |
| `Checker.ResultLineTime` | internal/checker/checker.go:85-89 | Both formats end with " - Response time: N ms", and N reads back as the whole milliseconds. |
| `Decimal.IntToStringRoundTrip` | internal/checker/checker.go:88-89 | The `%d` text of an integer parses back to that integer. |
| `Strings.Split` | config/config.go:92 | Splitting on "\n" gives at least one part, no part holds a newline, and joining the parts gives the data back. |
| `Strings.SplitJoin` | config/config.go:92 | Split undoes Join for parts without the separator. |
| `Strings.TrimCutsOnlySpaces` | config/config.go:94 | TrimSpace removes only whitespace, at the two ends: the input is leading whitespace, the trimmed text, then trailing whitespace. That no whitespace is left at either end is `Strings.Trim`'s own contract. |
| `Config.CleanFieldAddsKept` | config/config.go:94-96 | One line adds nothing or its trimmed text. It adds the trimmed text if and only if that is non-empty and not a `#` comment. This unfolds `Config.CleanField`; the property over a whole file is `Config.CleanedMembership`. |
| `Config.CleanedAppend` | config/config.go:93-97 | The loaders' filtering works line by line, so it distributes over concatenation. |
| `Config.CleanedAllKept` | config/config.go:94-96 | Every URL the text loader adds is non-empty, has no surrounding whitespace and does not start with `#`. |
| `Config.CleanedMembership` | config/config.go:91-99 | A URL is added if and only if some line trims to it and it is kept. |
| `Config.Config.LoadTextUrls` | config/config.go:91-100 | The new URL list is the old list followed by the cleaned lines of the data. Nothing is removed or reordered, and no error is returned. |
| `Config.Config.AddCleanedLines` | config/config.go:93-98 | The loop over the lines appends, in order, each trimmed line that is kept, and nothing else. |
| `Config.Config.LoadJSONUrls` | config/config.go:102-109 | On a decode error: the parse error is returned and the URLs are unchanged. Otherwise the decoded array is appended in order. |
| `Config.FirstFieldsMembership` | config/config.go:118-120 | The first fields taken are exactly those of the records that have a field. |
| `Config.CsvUrlsSnoc` | config/config.go:118-129 | Walking the records one by one adds exactly what the declarative CSV rule gives for the records seen. |
| `Config.CsvUrlsAppendRecord` | config/config.go:118-128 | A record after the first adds only its cleaned first field, after what the earlier records added. |
| `Config.Config.AddRecordUrl` | config/config.go:119-128 | One loop pass adds the trimmed first field of a non-empty record, except a header row 0 or a blank or `#` field. |
| `Config.Config.LoadCSVUrls` | config/config.go:111-131 | On a decode error: the parse error is returned and the URLs are unchanged. Otherwise the CSV URLs are appended in record order. |
| `Config.CsvMembership` | config/config.go:118-128 | A URL is added if and only if some non-empty record's trimmed first field equals it and is kept. For record 0 only, the field must also not look like a header ("url", "URL" or no "://"). |
| `Config.HeaderRecordMembership` | config/config.go:119-126 | Record 0 adds a URL if and only if its trimmed first field is that URL, is kept and does not look like a header. |
| `Config.LaterRecordsMembership` | config/config.go:119-126 | The later records add a URL if and only if one of them has a first field that trims to it and is kept. |
| `Config.CsvUrlsAllKept` | config/config.go:120-127 | Every URL the CSV loader adds is non-empty, trimmed and not `#`-prefixed. |
| `Config.SchemeFieldIsKept` | config/config.go:122-126 | A trimmed row-0 first field that has "://", is not "url"/"URL" and does not start with `#` is kept. |
| `Config.CsvHeaderDropped` | config/config.go:122-124 | On the example: a "url" header row is skipped and the record after it kept. The general rule is `Config.CsvMembership`. |
| `Config.CsvLaterRowKept` | config/config.go:122-126 | On the example: a record after row 0 is kept even without "://". The general rule is `Config.CsvMembership`. |
| `Config.FormatOfOrder` | config/config.go:79-88 | Unfolds the loader choice (`Config.FormatOf`): the lower-cased name picks JSON if it ends in ".json". Otherwise it picks CSV if it ends in ".csv", and otherwise text. The case-insensitivity is proved in `Config.FormatOfAnyCase`. |
| `Config.FormatOfAnyCase` | config/config.go:79-88 | The extension picks the loader in any letter case: ".json" gives JSON, ".csv" gives CSV, ".txt" gives text. |
| `Config.Config.LoadBatchFile` | config/config.go:69-89 | No batch file: no error, URLs unchanged. Read failure: its error, URLs unchanged. Otherwise the chosen loader's result. |
| `Config.IntervalSet` | config/config.go:46-51 | Holds if and only if some argument after the program name is `--interval` or starts with `--interval=`. |
| `Config.SecondsToDuration` | config/config.go:53 | The interval is the seconds times 10⁹ ns, wrapped as int64. It equals the exact product if and only if the product fits in int64, that is for -9223372036 ≤ seconds ≤ 9223372036. |
| `Config.WrapInt64` | config/config.go:53 | int64 wrap-around: in range, congruent modulo 2⁶⁴, identity on in-range values. |
| `Config.ParseFlags` | config/config.go:28-66 | The Config takes the parsed flags and the positional URLs. OneTime holds if and only if no explicit interval is set and Count is 0 or 1. No error is returned. |
| `Config.Config.constructor` | config/config.go:29 | The zero Config. |
| `Notification.NewNotifier` | internal/notification/notification.go:15-17 | The notifier keeps the silence flag it was given. |
| `Notification.SendDownNotification` | internal/notification/notification.go:20-29 | Silent: nothing dispatched, nil returned. Otherwise "Website Down" is sent with body url + " is down: " + message. When the URL and message hold no NUL character, the user is shown exactly that on linux if the URL does not start with `-` and neither holds `\`, and on darwin if neither holds `"` or `\`. On linux, a URL starting with `-` (read by notify-send as an option) or a `\` in the URL or message (unescaped by notify-send) means the pair is not shown as given. On linux and darwin a NUL in the URL or message makes exec refuse the command, and nothing is shown. |
| `Notification.SendDownNotificationQuotedErrorNotShown` | internal/notification/notification.go:20-29 | On darwin, a down notification whose error message quotes the URL is not shown as given: the quote closes the body string early, so the script is not a `display notification "…" with title "…"` command, and AppleScript rejects it. |
| `Notification.SendUpNotification` | internal/notification/notification.go:32-41 | Silent: nothing dispatched, nil returned. Otherwise "Website Up" is sent with body url + " is back online". When the URL holds no NUL character, it is shown exactly on linux if the URL does not start with `-` and holds no `\`, and on darwin if the URL holds no `"` or `\`. On linux a URL starting with `-` or holding `\` is not shown as given. On linux and darwin a NUL in the URL shows nothing, since exec refuses the command. |
| `Notification.SendNotification` | internal/notification/notification.go:43-74 | A program runs exactly on linux, darwin and windows, returning that program's error. linux runs `notify-send title body`. darwin runs `osascript -e` with the unescaped script. windows runs powershell with the toast script. Any other OS prints "NOTIFICATION: title - body" and returns nil. |
| `Notification.SendNotificationEscaped` | internal/notification/notification.go:47-48 | The corrected dispatch: on darwin osascript gets the escaped script; the other channels are unchanged. It is upgak's dispatch whenever the title and body hold no `"` or `\`. |
| `Notification.ChannelsDistinct` | internal/notification/notification.go:44-50 | Different OSes with a native channel use different programs. |
| `Notification.SendNotificationShowsPair` | internal/notification/notification.go:58-66 | If either the title or the body holds a NUL character, exec refuses the command on linux and darwin, and nothing is shown. Otherwise, on linux the command shows exactly the given title and body if and only if notify-send takes them as they are: the title is non-empty (notify-send refuses an empty summary), neither starts with `-` followed by more text (no `--` precedes them), and the body holds no `\` (notify-send unescapes the body). On darwin it shows the pair when neither holds a `"` or `\`. |
| `Notification.SendNotificationEscapedShowsPair` | internal/notification/notification.go:58-66 | With the escaping, the darwin command shows exactly the given title and body whatever quotes or backslashes they hold. The linux command is unchanged and does so under the same notify-send conditions. On both, a NUL character in the title or body means nothing is shown. |
| `Notification.MacScriptAsWrittenLayout` | internal/notification/notification.go:64 | Unfolds upgak's script (`Notification.MacScriptAsWritten`): the quoted body after "display notification ", then the quoted title after " with title ". What the script shows is stated by `Notification.MacScriptAsWrittenShowsPlain` and `Notification.MacScriptAsWrittenFailsOnQuotedError`. |
| `Notification.MacScriptAsWrittenShowsPlain` | internal/notification/notification.go:63-66 | If neither the title nor the body holds `"` or `\`, upgak's script shows exactly the pair. |
| `Notification.MacScriptAsWrittenAmbiguous` | internal/notification/notification.go:64 | As upgak builds it (body first, then title, with no escaping), two different (title, body) pairs give the same script. |
| `Notification.MacScriptAsWrittenFailsOnQuotedError` | internal/notification/notification.go:64 | As upgak builds it, a down notification whose message quotes the URL does not parse as a notification script. |
| `Notification.MacScriptAgreesOnPlainText` | internal/notification/notification.go:64 | For text without `"` or `\` the escaped script equals upgak's script. |
| `Notification.MacScriptRoundTrip` | internal/notification/notification.go:63-66 | The escaped script shows exactly the title and body it was built from. |
| `Notification.ToastScriptLayout` | internal/notification/notification.go:71 | Unfolds the PowerShell toast (`Notification.ToastScript`): the title goes into the first text node and the body into the second, both as they are. It documents the definition and proves nothing beyond it. |

## Findings

| source | as written | input that shows it | evidently intended | confidence | as-written member | corrected member |
|---|---|---|---|---|---|---|
| internal/notification/notification.go:64 | The body and title are put between AppleScript double quotes without escaping. | A down notification for `https://a` with message `Get "https://a": timeout` (the form of Go's HTTP client errors). The quote ends the body string early, and osascript gets a malformed script. | A backslash before each `"` and `\` in the body and title, so that the script shows the given pair. | medium, not executed | `Notification.MacScriptAsWritten`, used by `Notification.SendNotification`. Shown by `Notification.MacScriptAsWrittenFailsOnQuotedError`, `Notification.SendDownNotificationQuotedErrorNotShown` and `Notification.MacScriptAsWrittenAmbiguous` | `Notification.MacScript`, with `Notification.MacScriptRoundTrip`. Dispatched by `Notification.SendNotificationEscaped`, with `Notification.SendNotificationEscapedShowsPair` |

## Left out

- The HTTP request, the client timeout and `time.Now`/`time.Since` in `CheckSingle`: each probe's outcome and elapsed time are inputs.
- Goroutines and `sync.WaitGroup`: the concurrent batch is a loop over the goroutines' completion order, a permutation given as input. Real interleaving is not modelled.
- `CheckResult.Error` is the error's message text, which is what `%v` prints. Error identity and wrapping are not modelled.
- `PrintResult` writes to standard output. The model gives the line it writes, as `Checker.ResultLine`.
- `ioutil.ReadFile`, `json.Unmarshal` and `csv.Reader.ReadAll` are library code. They are function parameters, and the model does not constrain their results.
- The `flag` package and `os.Args` are not modelled; parsed values come in as `FlagValues`. So the model does not capture cases where the `--interval` scan and the flag package disagree: the single-dash form `-interval`, or a flag after the first positional URL.
- `strings.TrimSpace` and `strings.ToLower` are modelled on ASCII whitespace and letters only. Unicode spaces and case mappings are not.
- `exec.Command(...).Run()` and `runtime.GOOS`: the OS name is a parameter. The command's result is the `runErr` parameter.
- `Notification.SendNotificationShowsPair`: covers linux only for text without NUL that notify-send takes as it is (a non-empty title, no option-like argument, no `\` in the body), and darwin only for text without NUL, `"` or `\`, because upgak's commands show nothing else faithfully. What notify-send shows instead when it unescapes a body is not modelled, nor is the markup some notification servers apply to a body. The Windows toast and the console fallback are stated as exact strings in `Notification.SendNotification`. Their quoting is not analysed, so their text is not read back. `Notification.SendNotificationEscaped` leaves the Windows toast unescaped, as upgak has it.
- `PrintUsage` (config/config.go:134-144) is console output only.
- `cmd/upgak/main.go` is an interactive stdin loop. It calls `checker.IsUp`, which the checker package does not define, so it is not part of this model.
- Periodic scheduling, previous-state tracking, the notify-on-recovery decision and the one-time summary do not appear in the modelled files. `NotifyOnUp`, `AddURL` and `ShowList` are only stored in `Config`.
