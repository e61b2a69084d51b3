# Image resizer front end: decision rules and string functions

This project models the logic in a browser front end for an image-resizing
service. The rest of that front end is rendering and HTTP glue. The model
covers five things:

- **Content-Disposition filename** (`ContentDisposition`). The dashboard reads a
  download name from the `Content-Disposition` header with the regular
  expression `filename\s*=\s*"?([^";]+)"?` (flag `i`) and trims the first
  capture. This is a simplified reading of the `filename` parameter in
  section 4.1 of RFC 6266: there is no `filename*` (section 4.3) and no
  backslash escaping. The model follows the backtracking engine: it tries each
  start position from the left, and at each one the alternatives in the
  engine's order. It is checked against a separate, language-level reading of
  the regex (`Decomposes`): sound, complete, and the leftmost match wins.
- **The dashboard workflow** (`Dashboard`). This covers the process-button
  guard, the single-file name (header name, or else `processed-image.` plus
  the extension, with `jpeg` written `jpg`), and the single-file versus batch
  branch of `onProcess`. A batch's archive entries become `{name, url}`
  results. The module also covers the message the `catch` block picks,
  `clearResults` (and the unmount cleanup) revoking object URLs, and the
  Download button. Blobs and object URLs are opaque tokens. Revocation is a
  set of URLs. `URL.createObjectURL` is a function parameter.
- **The processing-options form** (`ResizeOptions`). This covers the options
  record, the preset table, when the DPI field is shown, which presets are
  print presets, the effective-DPI rule, and JPEG locking the background
  selector. It also covers the record updates the form's inputs make
  (`setResize`, `setDpi`, the format handler, and the rest), plus an invariant
  they keep: a JPEG output always has a white background.
- **The API base URL** (`ApiClient`): `normalizeBaseUrl`, the
  `http://localhost:5000` fallback, and the `/api` suffix.
- **The login and signup submit handlers** (`AuthForms`). Each is a pure
  function from (email, password, outcome of the auth call) to what the
  submit did. That record holds the successive error-banner values, the
  credentials of the auth call if one was made, the successive `busy` values
  and the route navigated to.

`JsValue` and `JsString` hold the JavaScript idioms these use: absent values,
`x || fallback`, and `trim` with the ECMAScript whitespace set. They also
hold ASCII case folding, `startsWith` and `includes`, and `length` counted
in UTF-16 code units.

Only the signup form has a length rule (`src/pages/Signup.jsx:23`). The
login form sends any non-empty password (`src/pages/Login.jsx:18-25`), so
`AuthForms.LoginSubmit` has no length check.

## Model

| member | source | states |
|---|---|---|
| `JsValue.Truthy` | src/pages/Dashboard.jsx:57-58 | a possibly absent string is truthy when it is present and non-empty, as `!raw` tests it here and the `||` defaults elsewhere do |
| `JsValue.OrElse` | src/pages/Dashboard.jsx:97-100 | `v || fallback` on a possibly absent string: the value when it is truthy, else the fallback, and never empty when the fallback is not; it models every such default, including `src/api/axios.js:4,9`, `src/components/ResizeOptions.jsx:15,17,22` and `src/pages/Login.jsx:28` |
| `JsString.IsSpace` | src/api/axios.js:4 | the characters `trim` removes and the regex class `\s` matches (`src/pages/Dashboard.jsx:59-60`): the ECMAScript WhiteSpace and LineTerminator characters, namely tab, line feed, vertical tab, form feed, carriage return, space, U+00A0, U+1680, U+2000 to U+200A, U+2028, U+2029, U+202F, U+205F, U+3000 and U+FEFF |
| `JsString.Span` | src/pages/Dashboard.jsx:59 | the greedy run of a character class starting at `k`: every character inside satisfies the class and the character after it does not |
| `JsString.Trim` | src/api/axios.js:4 | `trim` returns a slice of the input, with whitespace-only text cut on both sides and non-whitespace at both ends; it is empty exactly when the input is all whitespace, and it contains only characters of the input |
| `JsString.Lower` | src/components/ResizeOptions.jsx:17-22 | `toLowerCase` as ASCII folding: the result has the same length, and each character is its lower case when it is `A` to `Z` and is kept otherwise; also used at `src/components/ResizeOptions.jsx:67` and `src/pages/Dashboard.jsx:97` |
| `JsString.StartsWith` | src/components/ResizeOptions.jsx:18 | `s.startsWith(p)`: `p` is no longer than `s` and equals its first characters |
| `JsString.Includes` | src/components/ResizeOptions.jsx:18 | `s.includes(t)`: `t` occurs in `s` at some index |
| `JsString.EndsWithChar` | src/api/axios.js:6 | `s.endsWith(c)` for one character: `s` is non-empty and its last character is `c` |
| `JsString.Utf16Length` | src/pages/Signup.jsx:23 | `length` counts UTF-16 code units: one character counts 2 when it lies outside the Basic Multilingual Plane and 1 otherwise; the total lies between the number of characters and twice that |
| `JsString.Utf16LengthAppend` | src/pages/Signup.jsx:23 | the length of a concatenation is the sum of the lengths, so with the one-character values the count is fixed on every string: the number of characters plus the number outside the Basic Multilingual Plane |
| `ContentDisposition.MatchAt` | src/pages/Dashboard.jsx:59 | a capture found by a match attempt at a position is non-empty and contains no `"` and no `;` |
| `ContentDisposition.MatchAtSound` | src/pages/Dashboard.jsx:59 | every reported capture is a match of the regex read as a language, and it is the one the backtracking engine reports: the `\s*` after `=` is as long as any match at that position allows, and the capture runs to the end of its name characters |
| `ContentDisposition.MatchBounds` | src/pages/Dashboard.jsx:59 | in every match at a position the `=` is where the engine finds it and the spaces after it are no more than the greedy run; a match using the whole run needs name characters right after it, past an optional quote |
| `ContentDisposition.GreedyCaptureUnique` | src/pages/Dashboard.jsx:59 | two matches at a position that both take the longest space run after `=` and both run to the end of their name characters have the same capture, so the conditions of `MatchAtSound` single out the engine's capture |
| `ContentDisposition.MatchAtComplete` | src/pages/Dashboard.jsx:59 | wherever the regex can match at a position, the attempt there reports a capture |
| `ContentDisposition.MatchAtExact` | src/pages/Dashboard.jsx:59 | an attempt at a position succeeds if and only if the regex matches there |
| `ContentDisposition.EmptyValueFailsAttempt` | src/pages/Dashboard.jsx:59 | an attempt whose `=` is followed at once by `;` or the end of the header fails, so a later `filename=` can still supply the name |
| `ContentDisposition.BlankValueStopsSearch` | src/pages/Dashboard.jsx:59-60 | an attempt whose `=` is followed by one space and then `;` or the end succeeds: the engine gives the space back and captures it, so the name is empty and no later `filename=` is consulted |
| `ContentDisposition.FirstMatch` | src/pages/Dashboard.jsx:59 | the search returns the leftmost position with a successful attempt, and no position before it succeeds; if it finds none, no position succeeds |
| `ContentDisposition.ParseFilename` | src/pages/Dashboard.jsx:56-61 | an absent or empty header gives `''`; the name never contains `"` or `;`, so later parameters are excluded; it has no leading or trailing whitespace |
| `ContentDisposition.LeftmostMatchNamesFile` | src/pages/Dashboard.jsx:59-60 | when the regex matches at several positions, the name is the trimmed capture of the leftmost one |
| `ContentDisposition.NameNeedsAssignment` | src/pages/Dashboard.jsx:59-60 | a non-empty name requires a case-insensitive `filename`, optional whitespace and `=` somewhere in the header |
| `ContentDisposition.NoMatchNoName` | src/pages/Dashboard.jsx:59-60 | a header the regex matches at no position, such as `filename=;`, gives the empty name |
| `Dashboard.CanProcess` | src/pages/Dashboard.jsx:36 | the process button is enabled exactly when at least one file is selected and no request is in flight |
| `Dashboard.FormatName` | src/pages/Dashboard.jsx:97 | the format name has no capital letters; it is `jpeg` when the format is missing or empty, and otherwise the format lower-cased |
| `Dashboard.Extension` | src/pages/Dashboard.jsx:97-98 | the fallback extension is never `jpeg` and has no capital letters; it is `jpg` exactly when the lower-cased format (default `jpeg`) is `jpeg` or `jpg`, and otherwise it is the lower-cased format |
| `Dashboard.JpegLockMatchesExtension` | src/pages/Dashboard.jsx:97-98 | the form's JPEG test of `src/components/ResizeOptions.jsx:22` holds exactly when the dashboard's format name is `jpeg`, so under the background lock the single image gets the extension `jpg` |
| `Dashboard.ExtensionOfOfferedFormats` | src/pages/Dashboard.jsx:97-98 | a missing, empty, `jpeg` or `JPEG` format gives `jpg`; `png` and `webp` keep their names |
| `Dashboard.SingleName` | src/pages/Dashboard.jsx:96-100 | the single-file name is never empty: it is the parsed header name when there is one, else `processed-image.` followed by the extension |
| `Dashboard.DownloadName` | src/pages/Dashboard.jsx:68 | a download is saved under the given name when it is non-empty, and under `processed-image` when it is empty |
| `Dashboard.Download` | src/pages/Dashboard.jsx:63-73 | a programmatic download adds exactly one download with that name, revokes its own object URL, and changes nothing else |
| `Dashboard.OnDownload` | src/pages/Dashboard.jsx:173-181 | the Download button downloads the held single image under the held name, and does nothing when no image is held |
| `Dashboard.RevokeEach` | src/pages/Dashboard.jsx:47-49 | the loop adds to the revoked set exactly the truthy URLs of the items |
| `Dashboard.ClearResults` | src/pages/Dashboard.jsx:46-54 | clearing revokes every non-empty result URL; results end empty, both blobs absent and the single name `''`; the files, `busy`, the error and the downloads are unchanged |
| `Dashboard.ClearResultsIdempotent` | src/pages/Dashboard.jsx:46-54 | clearing a second time changes nothing |
| `Dashboard.Unmount` | src/pages/Dashboard.jsx:38-44 | the effect cleanup revokes the URLs of the results held at that moment and changes nothing else |
| `Dashboard.CollectResults` | src/pages/Dashboard.jsx:110-117 | there is one result per non-directory entry; the file entry at index `i` becomes the result at position "number of file entries before `i`", with its name kept and its content's object URL |
| `Dashboard.CountFilesCountsFileIndices` | src/pages/Dashboard.jsx:110 | the number of results is the number of indices whose entry is not a directory |
| `Dashboard.CollectResultsFromFiles` | src/pages/Dashboard.jsx:110-117 | every result is the name and content URL of some file entry of the archive; no result comes from a directory or from nowhere |
| `Dashboard.FirstTruthy` | src/pages/Dashboard.jsx:130-138 | picks the first truthy candidate message in priority order, or the fallback when none is truthy |
| `Dashboard.ProcessErrorMessage` | src/pages/Dashboard.jsx:120-141 | the banner message is never empty: the first truthy candidate (for a Blob body, the JSON `message`, else the raw text if it is not JSON; otherwise the payload's `message`, then the rejection's `message`), else `Processing failed` |
| `Dashboard.BlobPayloadIgnoresErrorMessage` | src/pages/Dashboard.jsx:125-136 | with a Blob payload, the rejection's own message never affects the banner; an unreadable body gives `Processing failed` |
| `Dashboard.BeginProcess` | src/pages/Dashboard.jsx:75-80 | processing starts with the error cleared, the previous results released and forgotten, and `busy` set; the files and the recorded downloads are unchanged |
| `Dashboard.OnProcess` | src/pages/Dashboard.jsx:75-145 | `busy` ends false and the files are unchanged; the error ends empty exactly on success. The revoked URLs are exactly the previous results' plus, for a single image, that download's own, so this request revokes none of the new batch results' URLs. With exactly one file there is no result list: the image is held and downloaded under `SingleName`. With any other file count the archive is held and the results are the archive's file entries. A rejection shows `ProcessErrorMessage`, holds nothing and records no download; a failed archive load records no download either |
| `Dashboard.FreshUrlsStayUnrevoked` | src/pages/Dashboard.jsx:108-119 | when every file entry gets an object URL that was neither revoked before nor held by the previous results, no result of the batch is shown with a revoked URL |
| `Dashboard.BatchStart` | src/pages/Dashboard.jsx:76-108 | a batch request reaches the archive read with the error and the single name cleared, the results cleared and their URLs revoked, `busy` set and the returned archive held; the files and the recorded downloads are unchanged |
| `Dashboard.BatchFinish` | src/pages/Dashboard.jsx:109-119 | after the archive read the results become the archive's file entries, or the failure message is shown, and nothing else in the state at that moment changes |
| `Dashboard.ProcessButtonAcrossRequest` | src/pages/Dashboard.jsx:36 | the process button is disabled while a request is in flight; once the request settles it is enabled exactly when files are selected |
| `Dashboard.InitialState` | src/pages/Dashboard.jsx:12-18 | the dashboard mounts with no files, so the process button is disabled, with no error, no result URLs to release, and in a consistent state |
| `Dashboard.SelectFiles` | src/pages/Dashboard.jsx:164 | a new selection from the uploader replaces the files and changes nothing else |
| `Dashboard.ConsistentPreserved` | src/pages/Dashboard.jsx:46-119 | the initial state, file selection, both clear buttons, processing (taken as one step), the Download button and unmounting keep the invariant: a held single image has a name and excludes results and archive, and results come with their archive |
| `Dashboard.ClearDuringArchiveRead` | src/components/BatchPreview.jsx:27 | the preview's Clear button is not disabled while busy; a clear during the archive read of `src/pages/Dashboard.jsx:109` drops the archive, and the results stored afterwards break the invariant |
| `Dashboard.DownloadKeepsSingleName` | src/pages/Dashboard.jsx:177 | in a consistent state the Download button saves under the held name, never under the `processed-image` default |
| `ResizeOptions.Unit` | src/components/ResizeOptions.jsx:15 | the unit is never empty: the given unit when it is non-empty, else `px` |
| `ResizeOptions.ShowDpi` | src/components/ResizeOptions.jsx:16 | the DPI field is shown exactly when the unit is neither `px` nor `%` |
| `ResizeOptions.PresetValue` | src/components/ResizeOptions.jsx:17 | the preset value is the chosen preset lower-cased, and empty when no preset is chosen; it has no capital letters |
| `ResizeOptions.IsPrint` | src/components/ResizeOptions.jsx:18 | a lower-cased preset value is a print preset when it starts with `print_` or contains `a4` or `letter` |
| `ResizeOptions.DpiShownForPhysicalUnits` | src/components/ResizeOptions.jsx:15-16 | a missing unit counts as `px`; the DPI field is shown for `mm`, `cm` and `inch` and hidden for `px` and `%` |
| `ResizeOptions.NotPrint` | src/components/ResizeOptions.jsx:18 | a value with no `4`, no `l` and no `_` at index 5 is not a print preset |
| `ResizeOptions.PresetTableShape` | src/components/ResizeOptions.jsx:1-10 | the preset table has eight entries with the custom entry first, and no value occurs twice, so each value selects one entry |
| `ResizeOptions.PresetValuesLowerCase` | src/components/ResizeOptions.jsx:1-10 | lower-casing leaves every preset value unchanged |
| `ResizeOptions.NonPrintInstagramValues` | src/components/ResizeOptions.jsx:2-5 | the custom entry and the Instagram values are not print values |
| `ResizeOptions.NonPrintWhatsAppValues` | src/components/ResizeOptions.jsx:6-7 | the WhatsApp values are not print values |
| `ResizeOptions.PrintPresetsInTable` | src/components/ResizeOptions.jsx:1-18 | over the preset table, a preset is a print preset exactly when it is `print_a4` or `print_letter` |
| `ResizeOptions.CustomSizeShown` | src/components/ResizeOptions.jsx:147 | the custom width, height and unit inputs are shown exactly when the preset is missing or empty |
| `ResizeOptions.CustomSizeShownIffNoPreset` | src/components/ResizeOptions.jsx:147 | the custom width, height and unit inputs are shown exactly when the lower-cased preset the DPI rule reads is empty |
| `ResizeOptions.NonZero` | src/components/ResizeOptions.jsx:20 | `Number(options.dpi)` is truthy: it is a number other than zero; `None` stands for `NaN` |
| `ResizeOptions.EffectiveDpi` | src/components/ResizeOptions.jsx:19-21 | a non-zero parsed DPI is the effective DPI. Otherwise the value is 72 or 300, and it is 300 exactly when the preset is a print preset, or when no preset is chosen and the unit is physical |
| `ResizeOptions.EffectiveDpiOverPresets` | src/components/ResizeOptions.jsx:17-21 | with no usable DPI (the empty field, whose `Number` is `0`, or `NaN`), the two print presets give 300, the other presets give 72, and the custom size gives 300 exactly when the unit is physical |
| `ResizeOptions.IsJpeg` | src/components/ResizeOptions.jsx:22 | the output counts as JPEG when the lower-cased format, `jpeg` when missing or empty, is `jpeg` |
| `ResizeOptions.BackgroundLocked` | src/components/ResizeOptions.jsx:95 | the background selector is disabled exactly when the output counts as JPEG |
| `ResizeOptions.MissingFormatIsJpeg` | src/components/ResizeOptions.jsx:22 | a missing or empty format counts as JPEG and locks the background selector; `png` and `webp` do not lock it |
| `ResizeOptions.OfferedFormatsJpegFirst` | src/components/ResizeOptions.jsx:71-73 | the selector offers three formats, and of these only the first, `jpeg`, locks the background selector |
| `ResizeOptions.ChooseFormat` | src/components/ResizeOptions.jsx:62-68 | choosing a format records it; a format whose lower case is `jpeg` sets the background to `white`, and any other leaves it unchanged; no other field changes |
| `ResizeOptions.SetResize` | src/components/ResizeOptions.jsx:25-30 | each patched resize key takes the patched value, every unpatched key keeps its value, and no option outside the resize record changes |
| `ResizeOptions.SetResizeAlgebra` | src/components/ResizeOptions.jsx:25-30 | applying a patch twice is the same as applying it once; the empty patch changes nothing; patches with different keys commute |
| `ResizeOptions.SetDpi` | src/components/ResizeOptions.jsx:32-37 | only `dpi` changes, and it takes the given value |
| `ResizeOptions.SetDpiLastWins` | src/components/ResizeOptions.jsx:32-37 | a later DPI entry overrides an earlier one; a DPI entry changes neither DPI visibility nor JPEG-ness |
| `ResizeOptions.Apply` | src/components/ResizeOptions.jsx:44-190 | each input sets its own option to the value entered and changes nothing else: the preset, the quality, the background, crop and metadata removal take the given value, a format choice is `ChooseFormat`, a DPI entry `SetDpi` and a size input `SetResize`; only a format or background choice changes the background |
| `ResizeOptions.Enabled` | src/components/ResizeOptions.jsx:44-190 | the edits the rendered form allows: the listed presets and formats, a quality from 1 to 100, a background only when not JPEG, a DPI only when the DPI field is shown, and the custom size only without a preset |
| `ResizeOptions.InitialOptionsAsRendered` | src/pages/Dashboard.jsx:20-34 | the initial options show the custom size inputs and no DPI field; their DPI text is empty and, with it falsy, the effective DPI is 72; they are JPEG on a white background with the selector locked, and have a quality inside the slider range |
| `ResizeOptions.WhiteUnderJpegPreserved` | src/components/ResizeOptions.jsx:92-103 | the initial options have a white background under JPEG, and every edit the rendered form allows keeps this true |
| `ResizeOptions.EmptyFormatKeepsBackground` | src/components/ResizeOptions.jsx:62-68 | choosing the empty format, which the selector never offers, counts as JPEG but leaves a transparent background in place |
| `ApiClient.NormalizeBaseUrl` | src/api/axios.js:3-7 | the result is a prefix of the trimmed input; it is the trimmed input itself unless that ends in `/`, in which case exactly one character is removed |
| `ApiClient.BlankValueNormalisesEmpty` | src/api/axios.js:4-5 | an absent or all-whitespace value normalises to `''` |
| `ApiClient.NormalizeTrimmedValue` | src/api/axios.js:4-6 | for a value with no surrounding whitespace, only the trailing-slash rule applies |
| `ApiClient.OneSlashRemoved` | src/api/axios.js:6 | `h//` normalises to `h/`, and normalising again gives `h`, so normalisation is not idempotent |
| `ApiClient.ApiBase` | src/api/axios.js:9 | `apiBase` is never empty: it is the normalised value when that is non-empty, else `http://localhost:5000` |
| `ApiClient.SlashAloneFallsBack` | src/api/axios.js:5-9 | `/` normalises to `''`, so the default server is used |
| `ApiClient.BaseUrl` | src/api/axios.js:12 | `baseURL` is `apiBase` followed by exactly `/api` |
| `ApiClient.SingleSlashBeforeApi` | src/api/axios.js:6-12 | unless the trimmed value ends in `//`, the character before `api` is the only slash there |
| `ApiClient.DoubleSlashSurvives` | src/api/axios.js:6-12 | a value ending in `//` gives the base URL `h//api` |
| `AuthForms.CheckRequired` | src/pages/Signup.jsx:18-21 | the first check passes exactly when both the email and the password are non-empty, and otherwise gives `Email and password are required` |
| `AuthForms.CheckSignup` | src/pages/Signup.jsx:18-26 | the signup checks pass exactly when the email is non-empty and the password has at least 8 UTF-16 code units; an empty field gives the required message first, and a short password the length message |
| `AuthForms.Submit` | src/pages/Signup.jsx:14-37 | the `onSubmit` skeleton both forms share: the banner is cleared first; a failed check shows its message with no call, no `busy` change and no navigation; otherwise the call is made as `Attempt` describes |
| `AuthForms.Attempt` | src/pages/Login.jsx:23-31 | once the checks pass, the auth call is made with the given credentials and `busy` is set and then cleared; a success navigates to `/dashboard` with the banner cleared, and a failure stays on the form and shows the server message, or else the fallback |
| `AuthForms.SignupSubmit` | src/pages/Signup.jsx:14-37 | the error is cleared first. An empty email or password gives `Email and password are required` and no call, and this check comes before the length check. A non-empty password under 8 UTF-16 units gives `Password must be at least 8 characters` and no call. The call is made, with exactly the given email and password, if and only if the email is non-empty and the password has at least 8 units. Navigation to `/dashboard` happens exactly after a successful call. A failure shows the server message, or `Signup failed`. `busy` ends false |
| `AuthForms.LoginSubmit` | src/pages/Login.jsx:14-32 | the error is cleared first. An empty email or password gives `Email and password are required` and no call. The call is made, with the values unchanged, if and only if both are non-empty. Navigation to `/dashboard` happens exactly after a successful call. A failure shows the server message, or `Login failed`. `busy` ends false |
| `AuthForms.SignupStricterThanLogin` | src/pages/Signup.jsx:18-26 | whatever signup sends, login sends too, with the same navigation; when login rejects, signup rejects with the same message |
| `AuthForms.ErrorShownUnlessNavigated` | src/pages/Signup.jsx:16-35 | on either form, the banner ends empty exactly when the submit navigated |
| `AuthForms.FourAstralCharactersSuffice` | src/pages/Signup.jsx:23 | because `length` counts UTF-16 code units, four emoji make a long enough signup password |

## Left out

- JSX rendering, React hooks and effect scheduling, routing (`App.jsx`), and the display-only components (`BatchPreview.jsx`, `ImageUploader.jsx`, `Home.jsx`, `About.jsx`). The object URL `BatchPreview.jsx` makes for the archive is not part of this model.
- `src/context/AuthContext.jsx` is not part of this model. Each of its operations is one HTTP call followed by `setUser`, so the login and signup calls are abstract outcomes (`CallOutcome`).
- axios, `FormData`, the multipart request body, JSZip decoding, `Blob.text()` and `JSON.parse` are foreign libraries. Their results are inputs: `Reply`, `ArchiveRead`, `BlobText`, `ParsedBody`.
- The archive entries are taken in the order given. How `Object.values` orders `zip.files` (integer-like names first) is left out.
- A rejection of `entry.async` partway through a batch is left out. In the source it reaches the `catch` block, and the URLs already made for earlier entries are never stored or revoked.
- Browser APIs: `URL.createObjectURL` is a function parameter. The DOM anchor click is a recorded download. The zero-delay timer that revokes a download's URL counts as already run.
- The useEffect cleanup runs again when results are replaced. It revokes URLs that `clearResults` already revoked. Revocation is a set, so only the unmount cleanup (`Dashboard.Unmount`) is modelled.
- `Number(options.dpi)` is an input (`Option<real>`, with `None` for `NaN`). Floating point, `Infinity` and `-0` are left out. The quality slider's value is an integer.
- `toLowerCase` is modelled as ASCII case folding, and non-ASCII letters in a preset or format are left unfolded. For the `i` flag of the filename regex (no `u` flag), ASCII folding is exact.
- `String(x)` on values that are not strings, and messages that are truthy but not strings. Every input here is a string or absent.
- `import.meta.env.VITE_API_BASE_URL` is a plain input.
- Dashboard.ConsistentPreserved: takes `onProcess` as one step. In the source it awaits at lines 86, 109 and 114 of `src/pages/Dashboard.jsx`, and other handlers can run meanwhile. The Reset button is disabled while busy, but the preview's Clear button (`src/components/BatchPreview.jsx:27`) is not. `Dashboard.ClearDuringArchiveRead` shows that a clear during the archive read breaks the invariant.
- `URL.createObjectURL` is an arbitrary function of the blob. That it hands out a fresh URL each time is not modelled, so `Dashboard.FreshUrlsStayUnrevoked` takes freshness as a precondition.
- Unmounting while a batch request is in flight is left out. The URLs made for the entries are then never stored in `results`, so no cleanup revokes them.
- Strings are sequences of Unicode scalar values. A lone surrogate, which a JavaScript string such as a typed password can hold, cannot be represented, so `JsString.Utf16Length` never sees one.
- `downloadBlob`'s own fallback name `processed-image` is modelled (`Dashboard.DownloadName`). `Dashboard.DownloadKeepsSingleName` shows that the dashboard never reaches it.
