# link-to-iframe: a verified model of the viewer's core

The viewer shows a web page inside an iframe. The user types a URL. The viewer
checks and normalises the URL, embeds the page, and can export the page as an
HTML file or reopen it in a blank tab. It also has a light/dark/system theme.
This project models the four pieces of the viewer that carry real behaviour,
and proves what they promise:

- `validation.dfy` (module `Validation`) models `src/utils/validation.ts`.
  - `IsValidUrl` is the regular expression `^(http|https)://[^ "]+$`. It is
    written as its two alternatives and proved equal to a reference reading:
    a scheme, "://", then a non-empty tail with no space and no double quote.
  - `EnsureProtocol` is the normaliser. `ExtractDomain` is the hostname
    extractor; the URL parser it relies on is a parameter.
- `legacy.dfy` (module `Legacy`) models `main.js`.
  - `EnsureHttps` is the older normaliser. It is proved to differ from
    `EnsureProtocol` only on the empty string.
  - `Page` is a class holding the iframe's `src` and the module variable
    `currentUrl`. Its methods are `loadIframe` and the window's load handler.
- `theme.dfy` (module `Theme`) models `hooks/useTheme.tsx`.
  - `ThemeProvider` is a class. Its fields are the preference, the resolved
    theme, the stored value, the root element's "dark" class and the handler
    currently registered for OS scheme changes.
  - Each method is one operation of the hook: the initial read, `applyTheme`,
    the effect, the media-change handler, `toggleTheme`, `handleSetTheme` and
    the effect's cleanup.
  - The invariant `Valid` holds throughout: the preference is what a reload
    would read back from storage. Three client methods run the provider
    through short scenarios.
- `download.dfy` (module `Download`) models `downloadPage` from
  `src/utils/download.ts`.
  - The browser effects are a trace of events: progress calls, the fetch, the
    body read, the blob/link steps and the error log. The fetch and body read
    are an input outcome.
  - `DownloadRun` states, case by case, which events happen and how the promise
    settles. `DownloadPage` is the step-by-step method with its try/catch, and
    it is proved to produce exactly that.
  - Lemmas about `DownloadRun` give the progress values and the actions on
    every path.
  - The file name and the timestamp sanitisation are pure functions with their
    own lemmas. So is the decimal rendering of the status code in the error
    message.
- `newtab.dfy` (module `NewTab`) models `openInNewTab` from the same file.
  - The document is the exact template literal with the URL interpolated
    unescaped.
  - The lemmas show the URL sits verbatim in the iframe's `src`, before the
    fixed sandbox `allow-scripts allow-same-origin`.
  - They also show the raw text of that attribute, up to its closing quote, is
    the whole URL exactly when the URL has no double quote. Every URL that
    passes `isValidUrl` has none; `src/components/URLInput.tsx` applies that
    check to what the user types.
- `wrappers.dfy` holds the `Option` type.

Inputs the code takes from the browser are parameters of the model:
- the OS dark-mode signal (a boolean);
- the stored theme (`Option<string>`);
- the fetch and body-read results (`FetchOutcome`);
- the URL parser (`parseHost`);
- `new Date().toISOString()`;
- whether `window.open` returned a window.

The doc comment of `ensureProtocol` (src/utils/validation.ts:13-14) says
"http://" is added; the code adds "https://", and the model follows the code.
`downloadPage` calls the progress callback inside its `try`, so a callback that
throws aborts the download; the error is logged and rethrown.

## Model

| member | source | states |
|---|---|---|
| Validation.HasProtocol | src/utils/validation.ts:19 | the scheme test of line 19 holds exactly when the string starts with "http" followed by "://" or by "s://" |
| Validation.IsValidUrl | src/utils/validation.ts:6-9 | the pattern's two alternatives; a string it accepts has a scheme, something after "://", and does not end in a space or quote |
| Validation.IsValidUrlCharacterized | src/utils/validation.ts:6-9 | isValidUrl holds exactly when the string is "http" or "https", then "://", then a non-empty tail with no space and no double quote (both directions) |
| Validation.UrlCharsAsMembership | src/utils/validation.ts:7 | the class `[^ "]+` up to the end of the string means: non-empty, no space, no double quote |
| Validation.IsValidUrlRejects | src/utils/validation.ts:7-8 | the anchored, case-sensitive pattern rejects "", a bare "http://" or "https://", "HTTP://x", "Https://x", strings without a scheme, and URLs with a space or a quote |
| Validation.EnsureProtocol | src/utils/validation.ts:16-26 | the result is empty exactly when the input is; it is the input or "https://" + input; a non-empty input always comes out with a scheme |
| Validation.EnsureProtocolCases | src/utils/validation.ts:17-25 | "" gives ""; an input with a scheme is returned unchanged; any other non-empty input gets "https://" in front |
| Validation.EnsureProtocolIdempotent | src/utils/validation.ts:16-26 | normalising twice gives the same as normalising once |
| Validation.EnsureProtocolValid | src/utils/validation.ts:16-26 | a non-empty input without a scheme normalises to a valid URL exactly when it has no space or quote |
| Validation.ExampleComScenario | src/utils/validation.ts:16-26 | "example.com" becomes "https://example.com", which isValidUrl accepts |
| Validation.ExtractDomain | src/utils/validation.ts:33-41 | the parser's hostname when it parses the URL, otherwise exactly "unknown-domain"; it never fails |
| Legacy.EnsureHttps | main.js:6-14 | the result always has a scheme; it is the input or "https://" + input; it is the input exactly when the input already had a scheme |
| Legacy.EnsureHttpsCases | main.js:7-12 | with a scheme the URL is returned unchanged; without one, "www." or not, the result is "https://" + url |
| Legacy.EnsureHttpsVersusEnsureProtocol | main.js:10-11 | ensureHttps("") is "https://" while ensureProtocol("") is ""; on every non-empty input the two normalisers agree |
| Legacy.EnsureHttpsIdempotent | main.js:6-14 | applying ensureHttps twice gives the same as once |
| Legacy.Page.constructor | main.js:2-3 | currentUrl starts as "" and the iframe keeps its src |
| Legacy.Page.LoadIframe | main.js:24-27 | the iframe's src becomes ensureHttps(url) and currentUrl is unchanged |
| Legacy.Page.OnLoad | main.js:30-36 | a non-empty url parameter ends up normalised in src; otherwise src is currentUrl if that is non-empty, else unchanged; currentUrl is unchanged |
| Theme.InitialTheme | hooks/useTheme.tsx:15-18 | a present, non-empty stored string is the preference; an absent or empty one gives "system" |
| Theme.NameRoundTrip | hooks/useTheme.tsx:15-18 | storing a preference's name and reading it back gives the same preference |
| Theme.Resolve | hooks/useTheme.tsx:43-47 | the resolved theme is never "system"; it is dark exactly when the preference is dark, or is system while the OS is dark; an explicit preference is kept |
| Theme.Toggle | hooks/useTheme.tsx:55 | the result is light or dark, and it is light exactly when the previous preference was dark |
| Theme.ToggleInvolution | hooks/useTheme.tsx:55 | toggling twice returns light to light and dark to dark |
| Theme.ThemeProvider.constructor | hooks/useTheme.tsx:15-20 | the preference is read from storage, the resolved theme starts as light, no handler is registered, and the invariant holds |
| Theme.ThemeProvider.ApplyTheme | hooks/useTheme.tsx:22-32 | the root has the "dark" class exactly when the new resolved theme is dark; nothing else changes |
| Theme.ThemeProvider.RunEffect | hooks/useTheme.tsx:34-51 | after the effect the resolved theme follows the preference and the OS signal, the class agrees with it, and a handler for the current preference is registered |
| Theme.ThemeProvider.OsSchemeChange | hooks/useTheme.tsx:37-41 | a handler registered under "system" re-resolves from the new OS signal; under an explicit preference nothing changes; the page stays settled |
| Theme.ThemeProvider.ToggleTheme | hooks/useTheme.tsx:53-59 | the preference becomes Toggle of the old one and is stored; the invariant holds |
| Theme.ThemeProvider.SetTheme | hooks/useTheme.tsx:61-64 | the new preference is stored and adopted; the invariant holds |
| Theme.ThemeProvider.Unmount | hooks/useTheme.tsx:50 | the change handler is removed and nothing else changes |
| Theme.FirstVisitFollowsOs | hooks/useTheme.tsx:34-51 | with nothing stored, the page shows whatever the OS reports after a later scheme change |
| Theme.ToggleStopsFollowingOs | hooks/useTheme.tsx:53-59 | after a toggle and the effect, the page shows the stored explicit theme, and the root has the "dark" class exactly when that theme is dark, whatever the OS later reports |
| Theme.ReloadKeepsPreference | hooks/useTheme.tsx:61-64 | a theme that was set is the one a new provider reads back from storage |
| Download.Decimal | src/utils/download.ts:20 | the status code is rendered as a non-empty string of digits without a leading zero |
| Download.DecimalRoundTrip | src/utils/download.ts:20 | reading the rendered digits back gives the status code |
| Download.HttpErrorMessage404 | src/utils/download.ts:20 | a 404 "Not Found" response gives the message "Failed to fetch page: 404 Not Found" |
| Download.SanitizeTimestamp | src/utils/download.ts:39 | same length; every ':' and '.' becomes '-', every other character is kept |
| Download.SanitizeTimestampClean | src/utils/download.ts:39 | the result has no ':' and no '.', and sanitising it again changes nothing |
| Download.DownloadFilename | src/utils/download.ts:38-40 | the file name is the domain, "-", the sanitised timestamp (without ':' or '.') and ".html", and its length is the sum of the parts |
| Download.IsOk | src/utils/download.ts:19 | `response.ok`: the status is OK exactly when it is in the 2xx class |
| Download.HttpErrorMessage | src/utils/download.ts:20 | the message starts with "Failed to fetch page: ", ends with a space and the status text, and the digits between them read back as the status code |
| Download.DownloadRun | src/utils/download.ts:8-55 | the events and outcome of downloadPage by case; the download succeeds exactly when the fetch gave an OK response whose body could be read |
| Download.DownloadSuccessEffects | src/utils/download.ts:14-50 | on success the callback gets exactly 10, 50, 80, 100 in that order, 100 last; the actions are the fetch, the read, then the six saving steps under the derived file name |
| Download.FetchRejectedEffects | src/utils/download.ts:12-54 | a rejected fetch is rethrown as it is, after progress 10 only; the error is logged after the fetch |
| Download.HttpErrorEffects | src/utils/download.ts:14-21 | a non-OK response throws "Failed to fetch page: <status> <statusText>" after progress 10 only; nothing is read or saved |
| Download.BodyFailedEffects | src/utils/download.ts:23-54 | a failed body read is rethrown after progress 10 and 50; nothing is saved |
| Download.FailureNeverCompletes | src/utils/download.ts:50-54 | on every failure path progress never reaches 100 and the last event is the error log before the rethrow |
| Download.NoCallbackNoReports | src/utils/download.ts:10-14 | without a callback no progress call happens on any path |
| Download.DownloadPage | src/utils/download.ts:8-55 | the method's events and outcome are exactly those DownloadRun gives for its inputs |
| NewTab.NewTabDocument | src/utils/download.ts:64-88 | the document is the fixed head of the template, then the URL verbatim, then the fixed tail |
| NewTab.NewTabDocumentShape | src/utils/download.ts:64-88 | the URL stands verbatim right after `<iframe src="` and right before `" sandbox="allow-scripts allow-same-origin"></iframe>` |
| NewTab.QuotedValue | src/utils/download.ts:85 | the raw text before the first quote of a value followed by a closing quote is the value exactly when it has no quote |
| NewTab.SrcAttributeIsUrl | src/utils/download.ts:85 | the raw text of the iframe's src, up to its closing quote, is the URL exactly when the URL has no double quote |
| NewTab.ValidUrlStaysInSrc | src/utils/download.ts:85 | for a URL that passes isValidUrl, the raw text of the iframe's src up to its closing quote is the whole URL |
| NewTab.OpenInNewTab | src/utils/download.ts:61-92 | "about:blank" is opened in a new tab; if no window came back nothing else happens; otherwise the document is written and the stream closed |

## Left out

- The React rendering is not modelled: App, SettingsPanel, ThemeToggle, IframeViewer and the context plumbing of useTheme. This includes the error thrown when `useTheme` is used outside a provider. It is UI glue.
- URLInput's check is not modelled separately, because it uses the same regular expression as isValidUrl. Its submit delay (`setTimeout`) is timing behaviour and is left out.
- SettingsPanel's simulated progress is left out, because it depends on timers and `Math.random`.
- The fullscreen handling in App and `getUrlFromLocation` are left out, because both are browser APIs. `URLSearchParams` in particular is a browser API. The load handler takes the query parameter as an `Option<string>` input.
- `console.log('loaded!')` in the load handler is output only and is not modelled.
- A missing `myIframe` element (a null iframe) is not modelled.
- The iframe's resolution of a relative `src` is not modelled.
- Fetch, Blob, object URLs, the anchor element and `window.open`/`document.write` are recorded as trace events. What the browser does with them is not modelled.
- The Fetch Standard's `response.ok` is modelled as a status from 200 to 299.
- `matchMedia` is an input boolean per event, and the registration of its listener is a field. `localStorage` is the `stored` field.
- React's batching and re-rendering are not modelled. The effect runs when the client calls `RunEffect` after a change of preference.
- extractDomain's WHATWG URL parsing is a function parameter. Only its fallback "unknown-domain" is fixed.
- `new Date().toISOString()` is an arbitrary input string.
- A progress callback that throws is not modelled. The code would catch the exception, log it and rethrow it like any other error. The model's events have no failure of their own.
- The `console.error` of the catch block is recorded as a single `LogError` event. Its message text is not modelled.
- Strings are sequences of Dafny characters, not of UTF-16 code units. The model has no encoding or normalisation. This matters only for characters outside the Basic Multilingual Plane.
- tailwind.config.js is styling configuration and is left out.
- NewTab.SrcAttributeIsUrl, NewTab.ValidUrlStaysInSrc: they are about the raw attribute text up to the first quote, not the value a browser's HTML parser gives. HTML character references (`&#34;`, `&amp;` and the like) and the input stream's normalisation (U+0000 and carriage returns) are not modelled. So a valid URL such as `https://a/&#34;x` stays inside the attribute, but a browser reads it as `https://a/"x`.
