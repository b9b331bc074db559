# GenUI Code Studio: the page logic, modelled in Dafny

The application is a single browser page. A user describes a web component and
picks a framework. The page asks a generative model for the code, takes the
first fenced code block out of the answer, and shows it in a code tab and a
preview tab. The code can be copied or downloaded. A navbar toggles a
dark/light theme that is saved in local storage and set as a class on the
document root.

The model covers the logic of two components:

- `src/pages/Home.jsx`:
  - `extractCode`, modelled as a pure function. The function uses the regular
    expression /```(?:\w+)?\n?([\s\S]*?)```/. Module `Extraction` computes it
    with a deterministic scan. Module `JsString` models JavaScript's `trim`.
    The lemmas prove that the scan reports exactly the match a leftmost,
    backtracking engine reports.
  - The page's `useState` fields and handlers, modelled as class `Home.Page`.
    Handlers: `getResponse`, `copyCode`, `downloadFile`, the tab buttons, the
    preview refresh and the full-screen open/close.
  - Each handler is a method that updates the fields step by step. Its
    contract equates the new state with a pure transition function of the
    old one, on `Snapshot` values.
  - The lemmas state what the page promises about those transitions.
- `src/components/Navbar.jsx`:
  - `isDark`, its initialisation from storage, the toggle, and the effect that
    mirrors `isDark` into storage and the root class list.
  - Modelled in module `Theme` as class `Navbar` over class `Browser`.
    `Browser` holds `storage: map<string, string>` and
    `rootClasses: set<string>`.

Files: `wrappers.dfy` (Option), `js_string.dfy` (trim), `extraction.dfy`
(extractCode), `home.dfy` (the Home page), `navbar.dfy` (the theme toggle).

How outside effects are modelled:

- The remote model call is an `Outcome`: the SDK either returned a `Response`
  or threw.
- A `Response` carries three values:
  - `text`: the value of `response.text`.
  - `firstCandidateContent`: the value of `response.candidates[0].content`.
  - `serialized`: `JSON.stringify(response)`, an uninterpreted string.
- Each of `text` and `firstCandidateContent` is a `JsValue`: undefined, a
  string, or an object.
- The clipboard and the file download are parameters saying whether they
  succeed.
- The page records what it did in three logs:
  - `requests`: outbound calls.
  - `notices`: toasts.
  - `effects`: clipboard writes and downloads.

Two behaviours of the code are easy to miss:

- A failed generation does not leave the previous code in place. `getResponse`
  clears `code` before the call (`Home.jsx:109`). Nothing restores it on
  failure, so after a failure `code` is "" (`Home.FailureClearsOutput`).
- The response-text fallback takes a value when it is *truthy*, not merely
  present. An empty `text` falls through to the next source.
- The chain can yield a value that is not a string, for example an object
  under `candidates[0].content`. `extractCode` then calls `.match` on a
  non-string. That throws a TypeError inside the same `try`, so the page
  reports a generation failure (`Home.GeneratedCode`).

## Model

| member | source | states |
|---|---|---|
| JsString.Trim | src/pages/Home.jsx:65 | `trim` leaves no whitespace at either end and never lengthens the string |
| JsString.TrimIsSlice | src/pages/Home.jsx:65 | reference definition: a slice with no whitespace at its ends, surrounded only by whitespace, is exactly `s.trim()` |
| JsString.TrimEmptyIffBlank | src/pages/Home.jsx:101 | `s.trim()` is "" exactly when `s` is empty or whitespace only, both directions |
| JsString.TrimTrimmed | src/pages/Home.jsx:65 | a string with no whitespace at either end is its own trim |
| JsString.TrimIdempotent | src/pages/Home.jsx:65 | trimming twice equals trimming once |
| Extraction.FindFence | src/pages/Home.jsx:64 | returns the leftmost "```" at or after a position, and None only when there is none |
| Extraction.WordRunEnd | src/pages/Home.jsx:64 | the greedy `\w+` stops at the first non-word character or the end of input |
| Extraction.Scan | src/pages/Home.jsx:64 | `response.match(...)` as a scan: a found match has its capture between the end of the header and the closing fence, inside the input (which match it is: ScanIsReportedMatch) |
| Extraction.ExtractCode | src/pages/Home.jsx:62-66 | `extractCode` always returns a trimmed string no longer than its input |
| Extraction.ScanIsReportedMatch | src/pages/Home.jsx:64 | the scan's result is the match a backtracking engine reports: leftmost start, then longest tag, then newline taken, then shortest capture; the scan finds nothing exactly when the expression has no match at all |
| Extraction.ReportedMatchUnique | src/pages/Home.jsx:64 | the reported match is unique |
| Extraction.ScanFindsReportedMatch | src/pages/Home.jsx:64 | every reported match is the one the scan returns |
| Extraction.ExtractCodeOfReportedMatch | src/pages/Home.jsx:64-65 | when the expression matches, the result is the reported match's captured group, trimmed |
| Extraction.ExtractCodeWithoutMatch | src/pages/Home.jsx:63-65 | when the expression does not match (including the empty answer), the result is the whole answer trimmed |
| Extraction.ExtractCodeOfFirstBlock | src/pages/Home.jsx:64-65 | for "```" + word-character tag + body + "```", with no earlier fence, no fence inside the body, and a body that does not begin with a word character, the result is the body trimmed, whatever blocks follow; a newline after the tag is optional |
| Home.RawText | src/pages/Home.jsx:125-128 | the raw text is one of `text`, `candidates[0].content` or the serialized response, and a falsy value is never chosen except the serialized fallback |
| Home.RawTextIsFirstTruthy | src/pages/Home.jsx:125-128 | the raw text is the first truthy value of (`text`, `candidates[0].content`), else the serialized response |
| Home.GeneratedCode | src/pages/Home.jsx:124-135 | a call yields code exactly when it returned and its raw text is a string; that code is trimmed |
| Home.BlankPromptChangesNothing | src/pages/Home.jsx:101-104 | a blank or whitespace-only prompt only raises the notice: no request, no change to `loading`, `code`, `outputScreen` or `tab` |
| Home.SettledFrame | src/pages/Home.jsx:124-138 | the try, catch and finally blocks after the await change only `code`, `outputScreen`, `loading` and the notices, and always end with `loading` false |
| Home.PromptIssuesOneCall | src/pages/Home.jsx:106-122 | a non-blank prompt issues exactly one request, carrying the prompt and framework value; `loading` ends false and `tab` is unchanged |
| Home.SuccessShowsExtractedCode | src/pages/Home.jsx:124-132 | on success `code` is `extractCode(rawText)`, `outputScreen` is true, `loading` is false, and `tab`, notices and effects are unchanged |
| Home.FailureClearsOutput | src/pages/Home.jsx:107-138 | on failure `code` is "", `outputScreen` is false, `loading` is false, `tab` is unchanged, and the failure notice is raised |
| Home.GenerateKeepsInv | src/pages/Home.jsx:107-137 | from a reachable idle state, `getResponse` leaves the code trimmed, and empty and hidden whenever loading |
| Home.BlankCodeHasNoEffect | src/pages/Home.jsx:142-170 | copy and download of blank code only raise their notice: no clipboard write, no file |
| Home.CopyRecordsCode | src/pages/Home.jsx:142-151 | copy changes only notices and effects; it writes the current code to the clipboard exactly when the code is not blank and the write succeeds, and adds exactly one toast: "No code to copy" for blank code, else "Code copied to clipboard" or "Failed to copy" |
| Home.DownloadRecordsFile | src/pages/Home.jsx:154-170 | download changes only notices and effects; it saves the current code as "GenUI-Code.html" of type text/html exactly when the code is not blank and the download succeeds, and adds exactly one toast: "No code to download" for blank code, else "File downloaded" or "Failed to download" |
| Home.SuccessToastIffEffect | src/pages/Home.jsx:142-170 | copy and download raise `toast.success` exactly when their clipboard write or file download took place |
| Home.MessagesDistinct | src/pages/Home.jsx:102-168 | the eight toasts have pairwise different messages, so the notice kinds stand for the exact toast texts |
| Home.TrimmedCodeBlankIffEmpty | src/pages/Home.jsx:143 | in a reachable state, the blank-code guard `!code.trim()` is the same as `code == ""` |
| Home.RefreshRaisesKey | src/pages/Home.jsx:259 | n refreshes raise `refreshKey` by exactly n and change nothing else |
| Home.RefreshKeysDistinct | src/pages/Home.jsx:259-273 | different numbers of refreshes give different preview keys, so each refresh, consecutive ones included, remounts the preview |
| Home.Page.constructor | src/pages/Home.jsx:25-32 | the initial state: output hidden, tab 1, empty prompt and code, first framework, not loading, full screen closed, key 0 |
| Home.Page.SetPrompt | src/pages/Home.jsx:195 | the textarea sets `prompt` only |
| Home.Page.SelectFramework | src/pages/Home.jsx:190 | the select box sets the framework only |
| Home.Page.Submit | src/pages/Home.jsx:100-110 | up to the await: blank prompt gives a notice and nothing else; otherwise `loading` true, output hidden, code cleared, one request |
| Home.Page.Settle | src/pages/Home.jsx:111-138 | after the await: the extracted code shown on success, the failure notice otherwise; `loading` false in both |
| Home.Page.GetResponse | src/pages/Home.jsx:100-139 | the whole handler equals the `Generated` transition and keeps the page invariant (code trimmed) |
| Home.Page.CopyCode | src/pages/Home.jsx:142-151 | the copy handler equals the `CopiedCode` transition |
| Home.Page.DownloadFile | src/pages/Home.jsx:154-170 | the download handler equals the `DownloadedFile` transition |
| Home.Page.ShowCode | src/pages/Home.jsx:228 | sets `tab` to 1 and nothing else |
| Home.Page.ShowPreview | src/pages/Home.jsx:234 | sets `tab` to 2 and nothing else |
| Home.Page.OpenFullscreen | src/pages/Home.jsx:256 | sets `isNewTabOpen` and nothing else |
| Home.Page.CloseFullscreen | src/pages/Home.jsx:289 | clears `isNewTabOpen` and nothing else |
| Home.Page.RefreshPreview | src/pages/Home.jsx:259 | raises `refreshKey` by one and changes nothing else |
| Theme.Persisted | src/components/Navbar.jsx:16-19 | after the effect "theme" holds "dark" or "light" as `isDark` says; no key is removed and no other key changes |
| Theme.Styled | src/components/Navbar.jsx:15-18 | after the effect the root has class "dark" exactly when `isDark`; every other class is unchanged |
| Theme.ReloadRoundTrip | src/components/Navbar.jsx:9-19 | reading the saved theme back after the effect gives the same `isDark` |
| Theme.EffectIdempotent | src/components/Navbar.jsx:13-21 | running the effect twice with the same `isDark` is the same as running it once |
| Theme.Navbar.constructor | src/components/Navbar.jsx:7-10 | `isDark` starts true exactly when storage "theme" is "dark"; a missing key or any other value gives light |
| Theme.Navbar.ApplyTheme | src/components/Navbar.jsx:13-21 | the effect updates storage and root classes as `Persisted` and `Styled` say, leaving them mirroring `isDark` |
| Theme.Navbar.Toggle | src/components/Navbar.jsx:38 | the toggle negates `isDark` |
| Theme.Navbar.ToggleAndApply | src/components/Navbar.jsx:13-38 | a click and the effect it triggers: `isDark` negated, storage and classes mirroring the new value |
| Theme.Mount | src/components/Navbar.jsx:7-21 | mounting reads the saved theme, then the first effect run saves it normalised to "dark"/"light" and sets the class |
| Theme.ToggleTwice | src/components/Navbar.jsx:13-38 | from a mirrored state, two clicks restore `isDark`, storage and root classes exactly |
| Theme.Reload | src/components/Navbar.jsx:7-10 | a new Navbar over the same storage starts with the theme the old one last applied |

## Left out

- The Gemini SDK call and its prompt template (`Home.jsx:69-71`, `111-122`) are not modelled. The call is an `Outcome` parameter; a request records only the prompt and framework value it embeds.
- `JSON.stringify` is not modelled: it is the uninterpreted string `serialized`. A stringify that throws, and an SDK that resolves to `null` or `undefined` instead of an object, are not modelled.
- Clipboard, Blob, object URLs and the anchor click are not modelled beyond whether they succeed. A clipboard write or download is recorded only when it succeeds, with its text, file name and type.
- `console.error` logging is left out; it changes no page state.
- Overlapping submissions are not modelled: `Submit` and `GetResponse` require `!loading`, because the generate button is disabled while loading (`Home.jsx:205`).
- Render conditions are not preconditions. The model lets any handler run in any state. In the page, the tab buttons exist only while output is shown; copy and download only on tab 1; refresh and open only on tab 2; close only while full screen is open.
- The `isDarkLocal` flag and its MutationObserver (`Home.jsx:35-57`) are left out. The flag starts dark when the saved theme is "dark" or the root already has class "dark", then follows the root class list. `Theme.Browser` models both. The flag only colours the select box.
- `selectStyles`, the JSX layout, the Monaco editor, the iframes and the Navbar `alert` buttons are left out; they are presentation only.
- tailwind.config.js is left out; it is build configuration.
- JsString.Trim: strings are sequences of Unicode scalar values, not UTF-16 code units. The whitespace set is ECMAScript's WhiteSpace and LineTerminator, fixed at the current Unicode Zs category. Lone surrogates are not representable.
- Extraction.IsWordChar: `\w` is the ASCII class of a regular expression without the `u` and `i` flags, as in the source.
