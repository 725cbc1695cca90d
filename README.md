# MovieBuzz front end, modelled in Dafny

MovieBuzz is a single-page React application for browsing movies, with an
administrator area for adding them. This project models its page logic:

- the session store (`AuthProvider`): the token kept under `adminToken`,
  sign-in, first-administrator setup, sign-out, token verification on mount
  and the `Authorization` header;
- the sign-in/setup page, the registration page and the six-cell code-entry
  screen, with their validation chains, redirects and timers;
- the admin panel: its access guard, the movie form's checks in order, the
  multipart payload and what an upload's outcome does to the page;
- the public-domain search box: the two-character guard, the search and the
  compliance log;
- the promo video generator: the typewriter selection of script lines, the
  frame loop, the rounded progress and the effect/font/colour lookups;
- the movie card and detail page: image addresses, the banner fall-back, the
  gallery labels, the action links, the document title and the view chosen.

Each page with state is a `class` whose fields are the component's state
variables and whose methods are its handlers. An HTTP reply, or a
capability the page awaits, is a datatype parameter of the handler. A
handler returns the request it sends (`None` when it sends nothing). Timers
become explicit methods: `Tick`, `SuccessTimeout`, `RedirectTimeout` and
`SessionExpiredTimeout`, each run with its pending flag or counter set.
Pure helpers are functions. The module `JsText` gives the JavaScript string
semantics the pages rely on: `\s` and `trim()`, `\d`, `split`,
`startsWith`, truthiness and `||` on strings, printing a number and
`parseInt`.

The registration page hands the next screen the state `{email, otp}`, but
the code-entry screen reads `mobile` from it. The model keeps this as it is
written. `Register.HandOffRedirectsToRegister` proves the consequence: the
screen always finds no mobile number and sends the user back to
registration.

## Model

| member | source | states |
|---|---|---|
| JsText.TrimSpec | src/pages/Login.js:31 | `trim()` yields the empty string exactly when the text is all white space; otherwise the result starts and ends with a character that is not white space |
| JsText.Split | src/components/VideoGenerator.js:67 | `split('\n')` yields at least one piece, and no piece contains the separator |
| JsText.SplitJoin | src/components/VideoGenerator.js:67 | joining the pieces of a split on the same separator gives back the original text |
| JsText.Digits | src/pages/VerifyOtp.js:79 | stripping non-digits leaves only digits, never lengthens the text, and leaves a digit-only text unchanged |
| JsText.DigitsAppend | src/pages/VerifyOtp.js:79 | stripping non-digits distributes over concatenation |
| JsText.NatToString | src/pages/MovieDetail.js:17 | a number prints as a non-empty run of digits, with no leading zero, that denotes the number |
| JsText.ParseIntNaN | src/pages/Admin.js:85 | `parseInt` gives `NaN` exactly when, after the leading white space, there is neither a digit nor a sign followed by a digit |
| JsText.ParseIntNatToString | src/pages/Admin.js:85 | `parseInt` of a printed number gives the number back |
| JsText.ParseIntStopsAtNonDigit | src/pages/Admin.js:85 | `parseInt` stops at the first non-digit: a printed number followed by text that does not start with a digit reads as that number (decimal only, see Left out) |
| JsText.JsLength | src/pages/Register.js:39 | `s.length` counts UTF-16 code units: at least one per character, two for a character above U+FFFF, zero only for the empty string |
| JsText.JsLengthAppend | src/pages/Register.js:39 | the length of a concatenation is the sum of the lengths |
| JsText.JsLengthBmp | src/pages/Register.js:39 | the length equals the number of characters exactly when no character lies above U+FFFF |
| AuthContext.AuthHeader | src/context/AuthContext.js:102-104 | with a token, the only header is `Authorization`, holding `Bearer ` followed by the token; without one there is no header |
| AuthContext.AuthStore.GetAuthHeader | src/context/AuthContext.js:102-104 | the store's header carries `Authorization` exactly when it holds a token |
| AuthContext.AuthStore.constructor | src/context/AuthContext.js:15-18 | the token is read back from storage; there is no user yet, loading is on and setup is off |
| AuthContext.AuthStore.CheckSetupStatus | src/context/AuthContext.js:21-30 | a reply sets and returns the flag; a failed request returns false and leaves the flag unchanged |
| AuthContext.AuthStore.VerifyToken | src/context/AuthContext.js:33-53 | an accepted token sets the user; a rejected one is removed from storage and state; without a token nothing changes; then the setup status is read and loading ends |
| AuthContext.AuthStore.Login | src/context/AuthContext.js:56-72 | an issued token is stored and set together with its user; a rejection returns the server's text or the default and changes nothing; the state token stays equal to the stored one |
| AuthContext.AuthStore.SetupAdmin | src/context/AuthContext.js:75-92 | like `Login`, and a success also ends setup mode |
| AuthContext.AuthStore.IsAuthenticated | src/context/AuthContext.js:111 | the session counts as authenticated exactly when a user is known and requests carry an `Authorization` header |
| AuthContext.AuthStore.IsAdmin | src/context/AuthContext.js:112 | with no user the flag falls back to false; with a user it is the user's `isAdmin` |
| AuthContext.AuthStore.Logout | src/context/AuthContext.js:95-99 | the stored token, the token and the user are dropped; the session is no longer authenticated or admin and sends no header |
| Login.LoginErrorCases | src/pages/Login.js:31-48 | for each message, the exact condition under which it is the one reported: blank fields first, then in setup mode the confirmation, then the length in UTF-16 code units; in sign-in mode only blankness is checked |
| Login.SignInIgnoresConfirmation | src/pages/Login.js:56-64 | in sign-in mode the confirmation field never affects the outcome |
| Login.LoginRedirect | src/pages/Login.js:20-24 | an authenticated session that has finished loading is sent to `/admin`, and nothing else is |
| Login.LoginPage.constructor | src/pages/Login.js:6-10 | empty form, no error, not loading, no navigation |
| Login.LoginPage.Submit | src/pages/Login.js:26-67 | a form that fails a check shows that check's message and sends nothing; otherwise the setup or sign-in request is sent according to the mode, a success goes to `/admin` and a failure shows the reply's text; loading always ends |
| Login.LoginPage.Authenticate | src/pages/Login.js:50-64 | the request kind follows the setup flag; an issued session navigates to `/admin`, a rejection shows the store's error |
| Register.EmailRuleMatchesPattern | src/pages/Register.js:58-59 | the e-mail rule accepts exactly the strings `/^[^\s@]+@[^\s@]+\.[^\s@]+$/` matches |
| Register.RegisterErrorCases | src/pages/Register.js:33-63 | for each message, the exact condition under which it is reported, in the page's order: blank fields, username length, password length (both in UTF-16 code units), mismatch, e-mail |
| Register.HandOffState | src/pages/Register.js:69 | the hand-off carries the e-mail and the demo code (when there is one) and nothing else |
| Register.HandOffRedirectsToRegister | src/pages/Register.js:69 | the code-entry screen reads no mobile number from the hand-off, so it always redirects to `/register`; the demo code does arrive |
| Register.RegisterRedirect | src/pages/Register.js:21-25 | only an authenticated, verified session that has finished loading is sent to `/admin` |
| Register.RegisterPage.constructor | src/pages/Register.js:6-11 | empty form, no error, not loading, no navigation |
| Register.RegisterPage.Submit | src/pages/Register.js:27-75 | a request is sent exactly when every check passes, and it carries the typed fields; a failing check shows its message; a success navigates to `/verify-otp` with the hand-off; loading always ends and the form is kept |
| Register.RegisterPage.Settle | src/pages/Register.js:65-74 | a success navigates to `/verify-otp` with the hand-off, a failure shows the reply's error |
| VerifyOtp.JoinAppend | src/pages/VerifyOtp.js:94 | joining two runs of cells joins their texts |
| VerifyOtp.CompleteIffAllFilled | src/pages/VerifyOtp.js:94-95 | with every cell empty or one digit, the joined code has six characters exactly when no cell is empty |
| VerifyOtp.EmptyCells | src/pages/VerifyOtp.js:6 | `n` empty cells, joining to the empty code |
| VerifyOtp.DigitCells | src/pages/VerifyOtp.js:81 | one single-digit cell per digit, joining back to the digits |
| VerifyOtp.PastedDigits | src/pages/VerifyOtp.js:79 | the pasted code is the first at most six digits of the pasted text, and it is all of them when there are fewer than six |
| VerifyOtp.PastedCellsShape | src/pages/VerifyOtp.js:81 | a paste fills the cells left to right with its digits, empties the rest, and joins back to exactly the pasted digits |
| VerifyOtp.EntryRedirect | src/pages/VerifyOtp.js:31-41 | nothing while loading; no mobile number sends the user to `/register`; a verified session with a number goes to `/admin`; otherwise nothing |
| VerifyOtp.OtpEntry.constructor | src/pages/VerifyOtp.js:6-28 | six empty cells, a 60-second cooldown with resend off, and the registration's code on display when the state carries one |
| VerifyOtp.OtpEntry.Change | src/pages/VerifyOtp.js:56-68 | only an empty value or one digit is accepted, and it changes only its cell; focus moves on after a digit, except from the last cell |
| VerifyOtp.OtpEntry.KeyDown | src/pages/VerifyOtp.js:70-75 | Backspace in an empty cell after the first moves focus back one cell, and nothing else does |
| VerifyOtp.OtpEntry.Paste | src/pages/VerifyOtp.js:77-87 | a paste with digits lays them out as `PastedCells`, so the joined code is the pasted digits, and focuses cell `min(n, 5)`; a paste without digits changes nothing |
| VerifyOtp.OtpEntry.Submit | src/pages/VerifyOtp.js:89-111 | the code is sent exactly when all six cells are filled, and it is then six characters long; a success shows the success text and schedules the redirect, a failure shows the reply's error; the cells, cooldown and display are untouched |
| VerifyOtp.OtpEntry.Resend | src/pages/VerifyOtp.js:113-139 | nothing happens during the cooldown; a success restarts it, empties the cells, focuses the first cell and replaces the displayed code only when the reply has one; a failure changes only the error |
| VerifyOtp.OtpEntry.Tick | src/pages/VerifyOtp.js:43-54 | a second lowers a positive cooldown by one, and resend is enabled exactly when the cooldown is zero |
| VerifyOtp.OtpEntry.SuccessTimeout | src/pages/VerifyOtp.js:133 | the scheduled clear empties the success text and changes nothing else |
| VerifyOtp.OtpEntry.RedirectTimeout | src/pages/VerifyOtp.js:105 | the scheduled navigation opens `/admin` |
| VerifyOtp.WaitForResend | src/pages/VerifyOtp.js:43-54 | resend becomes possible after exactly as many ticks as seconds remained |
| Admin.SetField | src/pages/Admin.js:34-39 | the named field takes the value and every other field is kept |
| Admin.AdminError | src/pages/Admin.js:78-109 | for each message, the exact condition under which it is reported, in the page's order: required fields, year range, download URL if given, streaming URL if given, poster |
| Admin.EmptyLinksSkipUrlCheck | src/pages/Admin.js:93-103 | empty links are never checked, whatever the URL check says |
| Admin.CanonicalYearAccepted | src/pages/Admin.js:85-86 | every year from 1900 to ten years ahead, written as digits, passes the year check |
| Admin.YearTextNamesBound | src/pages/Admin.js:87 | the year message ends with the latest accepted year, which parses back |
| Admin.PayloadLayout | src/pages/Admin.js:112-122 | the payload holds the five fields and the poster, then the banner when one is chosen, then one entry per gallery file in order |
| Admin.BuildPayload | src/pages/Admin.js:112-122 | the appended entries form exactly `Payload` |
| Admin.GalleryRoundTrip | src/pages/Admin.js:119-122 | reading the gallery entries back out of the payload gives the chosen files, in order, and neither the poster nor the banner |
| Admin.UploadHeaders | src/pages/Admin.js:125-128 | the multipart content type, plus `Authorization` with `Bearer ` and the token exactly when there is a token |
| Admin.YearAcceptedIff | src/pages/Admin.js:85-86 | a year followed by text that does not start with a digit is accepted exactly when its number lies from 1900 to ten years after the current year (decimal only, see Left out) |
| Admin.AdminRedirect | src/pages/Admin.js:15-19 | once authentication has loaded, anyone who is not an authenticated administrator is sent to `/login` |
| Admin.PanelGate | src/pages/Admin.js:165-175 | once the session has loaded, the panel shows exactly for a known administrator whose requests carry a bearer header, and the login redirect fires exactly when the panel does not show |
| Admin.FailureText | src/pages/Admin.js:147-159 | 401 and 403 report an expired session; any other failure shows the server's text or the default |
| Admin.AdminPage.constructor | src/pages/Admin.js:21-32 | empty form and files, no message, not loading |
| Admin.AdminPage.InputChange | src/pages/Admin.js:34-39 | the named field of the form takes the value |
| Admin.AdminPage.PosterChange | src/pages/Admin.js:41-45 | the first chosen file becomes the poster; choosing nothing keeps it |
| Admin.AdminPage.BannerChange | src/pages/Admin.js:47-51 | the first chosen file becomes the banner; choosing nothing keeps it |
| Admin.AdminPage.GalleryChange | src/pages/Admin.js:53-57 | the chosen files replace the gallery |
| Admin.AdminPage.Submit | src/pages/Admin.js:73-163 | an upload is sent exactly when every check passes, with the payload and the session's headers; a failed check shows its message; a success empties the form and files; a 401/403 schedules the sign-out; loading always ends |
| Admin.AdminPage.Settle | src/pages/Admin.js:130-162 | what a success or a failure of the upload does to the form, the message and the pending sign-out |
| Admin.AdminPage.SessionExpiredTimeout | src/pages/Admin.js:150-153 | the scheduled sign-out drops the stored token, the token and the user, keeps the store's loading and setup flags, and opens `/login`; without one nothing changes |
| Admin.AdminPage.Logout | src/pages/Admin.js:68-71 | the stored token, the token and the user are dropped, the store's loading and setup flags are kept, so the session is neither authenticated nor admin, and the home page opens |
| SearchDownload.QueryRejected | src/components/SearchDownload.js:11 | the guard refuses a query whose trimmed text is empty or shorter than two UTF-16 code units |
| SearchDownload.SearchButtonEnabled | src/components/SearchDownload.js:79 | the button is enabled only while no search runs and the trimmed query has a code unit; every query the guard accepts enables it when idle |
| SearchDownload.ButtonAndGuard | src/components/SearchDownload.js:79 | any query the guard accepts enables the button; a query that trims to one code unit enables it but is refused; the guard refuses exactly the queries whose trimmed length is below two |
| SearchDownload.AstralCharacterAccepted | src/components/SearchDownload.js:11 | one character above U+FFFF is two code units long, so the guard accepts it |
| SearchDownload.GuardIgnoresLeadingBlanks | src/components/SearchDownload.js:11 | leading white space never changes the guard's decision |
| SearchDownload.SearchBox.constructor | src/components/SearchDownload.js:5-8 | empty query, no results, no error, not loading |
| SearchDownload.SearchBox.Type | src/components/SearchDownload.js:62 | the query becomes the typed text |
| SearchDownload.SearchBox.Search | src/components/SearchDownload.js:10-36 | a query `QueryRejected` refuses (trimmed length below two code units) shows the hint and changes nothing else; otherwise the trimmed query is searched, results are stored, a copyrighted result is logged with the query as typed, and a failure shows the server's text or the default |
| SearchDownload.SearchBox.Settle | src/components/SearchDownload.js:16-35 | the reply's data replace the results and a copyrighted result is logged; a failure clears the results and shows the error; loading ends |
| SearchDownload.SearchBox.KeyPress | src/components/SearchDownload.js:38-42 | Enter runs the search with every outcome `Search` states (refusal keeps results and loading, results stored and logged, or the failure text); any other key changes nothing |
| SearchDownload.SearchBox.Clear | src/components/SearchDownload.js:70 | query, results and error are reset, which hides the clear button and disables the search button |
| VideoGenerator.KeepNonBlank | src/components/VideoGenerator.js:67 | the kept lines are exactly the lines that are not blank, and none is empty |
| VideoGenerator.KeepNonBlankSingle | src/components/VideoGenerator.js:67 | a single line is kept exactly when it is not blank |
| VideoGenerator.KeepNonBlankAppend | src/components/VideoGenerator.js:67 | filtering a concatenation filters each part in turn, so the kept lines keep their order and repetitions |
| VideoGenerator.VisibleIsPrefix | src/components/VideoGenerator.js:72-83 | the visible lines spell exactly the first `maxChars` characters of the lines |
| VideoGenerator.VisibleWithinBudget | src/components/VideoGenerator.js:72-83 | the visible text never exceeds the budget |
| VideoGenerator.VisibleGrows | src/components/VideoGenerator.js:72-83 | a larger budget only extends the visible text |
| VideoGenerator.VisibleShape | src/components/VideoGenerator.js:72-83 | every visible line but the last is whole, and the last is a non-empty start of its line |
| VideoGenerator.VisibleExtremes | src/components/VideoGenerator.js:72-83 | a budget covering the script shows every line; a zero budget shows none |
| VideoGenerator.SelectVisible | src/components/VideoGenerator.js:68-83 | the greedy loop computes `Visible` |
| VideoGenerator.DrawTextLines | src/components/VideoGenerator.js:67-83 | `drawText` shows `Visible` of the script's non-blank lines |
| VideoGenerator.ProgressPercent | src/components/VideoGenerator.js:220-221 | the shown percentage is `frame/total*100` rounded half up, and at most 100 |
| VideoGenerator.EffectFor | src/components/VideoGenerator.js:228 | an unknown effect name falls back to zoom-in |
| VideoGenerator.EffectRoundTrip | src/components/VideoGenerator.js:228 | choosing an effect by its option value gives that effect |
| VideoGenerator.FontSize | src/components/VideoGenerator.js:85 | 32 exactly for the cinematic style, 28 otherwise |
| VideoGenerator.TextColour | src/components/VideoGenerator.js:128-134 | gold for cinematic, white for modern, green for anything else |
| VideoGenerator.CanGenerate | src/components/VideoGenerator.js:147 | generating is possible exactly when there is an image and the script has a character that is not white space |
| VideoGenerator.Generator.constructor | src/components/VideoGenerator.js:4-16 | no image, empty script, the default settings, progress 0, no video |
| VideoGenerator.Generator.ImageChange | src/components/VideoGenerator.js:22-31 | a chosen file replaces the image and discards the video; choosing nothing changes nothing |
| VideoGenerator.Generator.Generate | src/components/VideoGenerator.js:146-253 | without an image or with a blank script it only alerts; otherwise it renders `duration * 30` frames numbered 0, 1, … in order and ends with the recorded video and progress 100 |
| VideoGenerator.Generator.RenderFrames | src/components/VideoGenerator.js:208-250 | the frame chain draws frames 0 to `total - 1` in order, and the last percentage shown is that of the last frame |
| VideoGenerator.Generator.Download | src/components/VideoGenerator.js:255-262 | a name is produced exactly when there is a video, and it is `moviebuzz-promo-<now>.webm` |
| MovieCard.ImageUrl | src/components/MovieCard.js:5-12 | nothing for a missing or empty path, an `http` path as it is, and otherwise the path after the API address |
| MovieCard.ImageUrlKeepsPath | src/components/MovieCard.js:5-12 | the path survives at the end of its address, and the address is empty only for a missing or empty path |
| MovieCard.ImageUrlIdempotent | src/components/MovieCard.js:5-12 | with no API address or an `http` one, resolving an address again changes nothing |
| MovieCard.DetailPath | src/components/MovieCard.js:17 | the card links to `/movie/` followed by the movie's id |
| MovieDetail.BannerUrl | src/pages/MovieDetail.js:72 | the banner when present and non-empty, else the poster, resolved |
| MovieDetail.NoImagesNoBanner | src/pages/MovieDetail.js:72 | a movie with neither banner nor poster has an empty banner address |
| MovieDetail.GalleryImages | src/pages/MovieDetail.js:138-149 | one image per gallery path, in order, with the resolved address and the label `<title> - Image <n>` counted from 1 |
| MovieDetail.GalleryLabelsDistinct | src/pages/MovieDetail.js:149 | no two gallery images get the same label |
| MovieDetail.DownloadHref | src/pages/MovieDetail.js:101-110 | the download link is shown exactly when it is present and non-empty, and points to it |
| MovieDetail.StreamingHref | src/pages/MovieDetail.js:111-120 | the streaming link is shown exactly when it is present and non-empty, and points to it |
| MovieDetail.PageTitle | src/pages/MovieDetail.js:15-21 | `<title> (<year>) - MovieBuzz` with a movie, the generic title without one |
| MovieDetail.ViewOf | src/pages/MovieDetail.js:37-61 | the spinner exactly while loading; the details exactly when there is a movie and no error; otherwise not-found with the error or the default text |
| MovieDetail.MovieDetailPage.constructor | src/pages/MovieDetail.js:6-9 | no movie, loading, no error: the spinner |
| MovieDetail.MovieDetailPage.FetchMovie | src/pages/MovieDetail.js:23-35 | `GET /api/movies/<id>`; a movie is shown and the error cleared; a failure shows "Movie not found" and keeps the previous movie; loading ends |

## Left out

- Rendering, styling and the DOM are not modelled: markup, CSS classes, `document.title` on the login, registration, admin and code-entry pages, image `onError` fall-backs, and focus calls. Focus is returned as the index of the cell that would receive it.
- Time is modelled only as an order of events. `setTimeout` and `setInterval` become explicit methods run with their pending flag or counter set. Their delays (1 s, 1.5 s, 2 s, 3 s) and the interval's clean-up are not modelled.
- Async handlers are not re-entrant here. Each handler runs to completion with its reply, so two overlapping requests and a reply that arrives after the component unmounts are not modelled.
- The store's `useEffect` re-runs `verifyToken` whenever the token changes. The model offers `VerifyToken` as a method but does not schedule that re-run after `Login`, `SetupAdmin`, `Logout` or the rejected-token path of `VerifyToken`, all of which change the token.
- The detail page re-fetches when the route id changes. Here the id is fixed per page object.
- `register`, `verifyOtp`, `sendOtp` and `isVerified` are read from the session store, but `AuthProvider` does not provide them. They become abstract replies and boolean inputs.
- Register.RegisterPage.Submit, VerifyOtp.OtpEntry.Submit, VerifyOtp.OtpEntry.Resend: in the program as shipped, `register`, `verifyOtp` and `sendOtp` are `undefined`. Calling one throws outside any `try`, so the handler stops with `loading` still on and the error text cleared (Register.js:29, VerifyOtp.js:91 and VerifyOtp.js:117 clear it before the call). These methods model instead a reply arriving from a store that provides them.
- EntryRedirect, RegisterRedirect: `isVerified` is always `undefined` in the program as shipped, so their `/admin` branch can never fire there. Both take it as a free boolean input.
- `isValidUrl` (`new URL(s)` not throwing) is an uninterpreted function parameter. The current year (`new Date().getFullYear()`) and `Date.now()` are natural-number inputs.
- JsText.ParseInt: no hexadecimal `0x` prefix, and `-0` reads as 0. Only the hexadecimal prefix changes the year check: JavaScript accepts a year such as `0x7E8` (2024), and this model refuses it.
- Visible, SelectVisible, DrawTextLines: these count and cut lines in characters, where `drawText` counts with `line.length` and cuts with `substring` in UTF-16 code units. A Dafny character cannot hold half a surrogate pair. The two agree on lines with no character above U+FFFF (`JsLengthBmp`); on other lines the model shows more text for the same budget.
- The canvas is not modelled: drawing, effects' geometry, vignette, watermark, text layout and measurement. The same goes for `MediaRecorder`, `FileReader` and the image preview, and for speech synthesis.
- `drawText`'s budget `Math.floor(progress * text.length)`, with `progress = min(frame/total*1.5, 1)`, is floating point. `DrawTextLines` takes the budget as an input.
- VideoGenerator.ProgressPercent: computed on exact rationals, not IEEE doubles. Rounding of `frame / total * 100` in doubles at an exact half is not modelled.
- The settings controls and the script box of the generator only assign a field (`setSettings({...settings, k: v})`, `setScript`), and so do the input fields of the login and registration pages (`setUsername`, `setPassword`, `setConfirmPassword`, `setEmail`); they are not separate methods.
- `effects[name]` also finds keys of `Object.prototype` (for example `toString`), which would then be called as an effect; EffectFor maps every unknown name to zoom-in.
- The compliance log request is fire-and-forget and its failure is swallowed; only the request's body is modelled. `encodeURIComponent` of the search query is not modelled; the query is sent as the trimmed text.
- Server responses are taken as well-formed: a movie's `year` is a natural number and the reply bodies have the fields the pages read.
