# Electron PDF-viewer path, modelled in Dafny

This project models the three C++ files that carry Electron's built-in PDF
viewer.

- **The loading-path delegate** (`atom_resource_dispatcher_host_delegate.cc`):
  - It diverts `application/pdf` responses to the viewer origin `chrome://pdf-viewer/`.
  - It posts the viewer navigation `chrome://pdf-viewer/index.html?streamURL=…&originalURL=…` to the UI thread.
  - It puts the opening of URLs with unknown schemes behind a permission request.
- **The web UI controller factory** (`atom_web_ui_controller_factory.cc`):
  - It routes the `pdf-viewer` host to the viewer's web UI.
  - It serves the viewer's bundled files, typed by their suffix.
  - It parses the navigation URL's query back into the stream URL and the original URL.
- **The viewer's message handler** (`ui/webui/pdf_viewer_handler.cc`):
  - It claims the stream registered for the view.
  - It answers the page's `initialize`, `getInitialZoom` and `getDefaultZoom` messages.
  - It merges repeated response headers into one `", "`-joined value.
  - It forwards zoom changes of the viewer origin while script calls are allowed.

The Dafny modules follow the same split:

- `Base` (`base.dfy`): the shared values.
  - An Option type and the ASCII string helpers.
  - The `Url` record and the text-level `QueryOf`.
  - The stream record `StreamInfo` and the values sent to the page.
  - The per-browser-context stream registry `StreamManager`, with its remove-and-return `ReleaseStream`.
- `WebUIControllerFactory` (`web_ui_controller_factory.dfy`):
  - The expression-only parts are functions: path cutting, MIME typing and the host tests.
  - `BundledDataSource` is a class. Its constructor fills the path-to-id map with a loop.
  - `CreateWebUIControllerForURL` has the source's query loop, proved against `LastValue`.
- `ResourceDispatcherHostDelegate` (`resource_dispatcher_host_delegate.dfy`):
  - `ShouldInterceptResourceAsStream` writes through its out-pointer, modelled as a `Cell` object.
  - The other operations are straight-line guard-and-call code, so they are functions returning the effects they cause. The effects are a posted UI task, a permission request, an external open and a navigation.
  - A posted task runs later against a `UiEnvironment`. That is the web contents each getter still yields, the web contents that have a permission helper, and the URL escaper.
- `ViewerHandler` (`pdf_viewer_handler.dfy`):
  - `CreateResponseHeadersDictionary` keeps the source's `while` loop over a `DictionaryValue` object.
  - `PdfViewerHandler` is a class. Its fields are:
    - `stream` and the constant `viewId`;
    - the script-allowed flag and the zoom subscription;
    - the message bindings;
    - an `outbox` of the messages sent to the page.
- `NavigationHandoff` (`navigation_handoff.dfy`): the round trip between the two halves. It shows when the URL built by the delegate parses back, through the factory's query loop, to the two URLs.

Two consequences of the code are worth stating:

- **Header names.** Header names are looked up as exact keys of a `base::DictionaryValue`, so `Accept` and `accept` stay apart (`MergeHeadersExample`). The dictionary keeps its own key order, so the model uses a `map`.
- **The round trip.** `OnPdfStreamCreated` inserts both URL specs with `StringPrintf` and no escaping. So the round trip holds when neither URL contains `&` or `#` (`NavigationRoundTrip`), and a URL containing either never comes back whole (`NavigationNeedsPlainUrls`). When the stream URL holds neither, an original URL with a single `&` and no `#` comes back cut at the `&`, unless the text after it starts another `originalURL=` pair (`OriginalUrlCutAtAmpersand`). With no `&` or `#` in `kept` or `e` either, an original URL `kept&streamURL=e` makes the factory read `e` as the stream URL, and `kept&originalURL=e` makes it read `e` as the original URL (`OriginalUrlOverrides`).

## Model

| member | source | states |
|---|---|---|
| WebUIControllerFactory.PathWithoutParams | atom/browser/atom_web_ui_controller_factory.cc:24-26 | the result is a prefix of the path with no `?` or `#`; it is the whole path or stops just before the first `?` or `#` |
| WebUIControllerFactory.PathWithoutParamsCutsAt | atom/browser/atom_web_ui_controller_factory.cc:24-26 | for a name free of `?` and `#`, whatever follows a `?` or `#` is cut away and the name is returned |
| WebUIControllerFactory.PathWithoutParamsKeepsPlainPath | atom/browser/atom_web_ui_controller_factory.cc:24-26 | a path with neither `?` nor `#` is kept whole |
| WebUIControllerFactory.MimeTypeForFilename | atom/browser/atom_web_ui_controller_factory.cc:30-51 | the suffix tests give one of the seven fixed strings |
| WebUIControllerFactory.GetMimeTypeForPath | atom/browser/atom_web_ui_controller_factory.cc:28-52 | the MIME type is always one of the seven fixed strings |
| WebUIControllerFactory.KnownMimeTypesAreTheTable | atom/browser/atom_web_ui_controller_factory.cc:30-51 | the seven possible results are exactly the MIME types of the suffix table |
| WebUIControllerFactory.TableSuffixesExclusive | atom/browser/atom_web_ui_controller_factory.cc:30-49 | no file name ends, ASCII-case-insensitively, in two different suffixes of the table |
| WebUIControllerFactory.MimeTypeFollowsTable | atom/browser/atom_web_ui_controller_factory.cc:30-50 | a file name ending in a table suffix (ignoring ASCII case) gets that suffix's MIME type, whatever the test order |
| WebUIControllerFactory.MimeTypeDefault | atom/browser/atom_web_ui_controller_factory.cc:51 | a file name ending in none of the suffixes is typed `text/html` |
| WebUIControllerFactory.MimeTypeDependsOnFilename | atom/browser/atom_web_ui_controller_factory.cc:28-29 | two paths with the same parameter-free part get the same MIME type |
| WebUIControllerFactory.MimeTypeIgnoresParams | atom/browser/atom_web_ui_controller_factory.cc:28-29 | text after the first `?` or `#` never changes the MIME type, and stripping it first changes nothing |
| WebUIControllerFactory.MimeTypeIgnoresCase | atom/browser/atom_web_ui_controller_factory.cc:30-49 | ASCII-lower-casing the path never changes the MIME type |
| WebUIControllerFactory.MimeTypeOfNameWithParams | atom/browser/atom_web_ui_controller_factory.cc:28-50 | a name ending in a table suffix, followed by `?` or `#` and anything, gets that suffix's MIME type |
| WebUIControllerFactory.MimeTypeExampleDefault | atom/browser/atom_web_ui_controller_factory.cc:51 | `data.json` is typed `text/html` |
| WebUIControllerFactory.MimeTypeExampleUpperCaseWithQuery | atom/browser/atom_web_ui_controller_factory.cc:35-37 | `Viewer.JS?v=2` is typed `application/javascript` |
| WebUIControllerFactory.MimeTypeExampleFragment | atom/browser/atom_web_ui_controller_factory.cc:44-46 | `icon.SvG#top` is typed `image/svg+xml` |
| WebUIControllerFactory.ResourceTableKeys | atom/browser/atom_web_ui_controller_factory.cc:57-65 | the table's paths are exactly the normalised names of the bundled entries |
| WebUIControllerFactory.ResourceTableValues | atom/browser/atom_web_ui_controller_factory.cc:57-65 | when no normalised path occurs twice, each entry's path maps to that entry's own resource id |
| WebUIControllerFactory.BundledDataSource.constructor | atom/browser/atom_web_ui_controller_factory.cc:56-66 | the loop fills the map with the resource table; the check that a normalised path is new holds at every step |
| WebUIControllerFactory.BundledDataSource.GetSource | atom/browser/atom_web_ui_controller_factory.cc:69 | the data source serves the `pdf-viewer` host |
| WebUIControllerFactory.BundledDataSource.GetMimeType | atom/browser/atom_web_ui_controller_factory.cc:85-87 | the served type is one of the seven fixed strings |
| WebUIControllerFactory.BundledDataSource.StartDataRequest | atom/browser/atom_web_ui_controller_factory.cc:71-83 | the data callback runs at most once, exactly when the parameter-free path is in the map, and then with that path's resource id |
| WebUIControllerFactory.ServedResources | atom/browser/atom_web_ui_controller_factory.cc:56-83 | for a freshly built source, a request is served exactly when its parameter-free path is some entry's normalised name |
| WebUIControllerFactory.ServedResourceId | atom/browser/atom_web_ui_controller_factory.cc:56-83 | when no normalised path repeats, a request naming an entry is served that entry's id |
| WebUIControllerFactory.GetWebUIType | atom/browser/atom_web_ui_controller_factory.cc:146-154 | the type is not "no web UI" exactly when the host is `pdf-viewer` |
| WebUIControllerFactory.UseWebUIForURL | atom/browser/atom_web_ui_controller_factory.cc:156-160 | true exactly when the host is `pdf-viewer` |
| WebUIControllerFactory.UseWebUIBindingsForURL | atom/browser/atom_web_ui_controller_factory.cc:162-166 | true exactly when the host is `pdf-viewer` |
| Base.SplitOnJoin | atom/browser/atom_web_ui_controller_factory.cc:173 | the `&`-separated pieces, joined back with `&`, give the query again |
| Base.SplitOnAvoids | atom/browser/atom_web_ui_controller_factory.cc:173 | a character missing from the query is missing from every piece |
| Base.QueryOf | atom/browser/atom_web_ui_controller_factory.cc:173 | the query holds no `#`; it is empty when no `?` comes before the first `#`, and otherwise the text before the first `#` is its part up to the first `?`, then `?`, then exactly the query |
| Base.QueryOfFragmentFirst | atom/browser/atom_web_ui_controller_factory.cc:173 | in `a#b?c` the `?` belongs to the fragment, so the query is empty |
| WebUIControllerFactory.SplitKeyValue | atom/browser/atom_web_ui_controller_factory.cc:173 | a piece with `=` is its key, `=` and value, and the key has no `=`; a piece without `=` gives an empty pair |
| WebUIControllerFactory.SplitStringIntoKeyValuePairs | atom/browser/atom_web_ui_controller_factory.cc:173 | one pair per `&`-separated piece, in order, each split at its first `=` |
| WebUIControllerFactory.LastValueIsLast | atom/browser/atom_web_ui_controller_factory.cc:174-181 | the value picked for a key is the one of the last pair with that key |
| WebUIControllerFactory.LastValueAbsent | atom/browser/atom_web_ui_controller_factory.cc:174 | a key with no pair leaves the empty string |
| WebUIControllerFactory.LastValueOfAppended | atom/browser/atom_web_ui_controller_factory.cc:175-181 | one more pair overwrites the value exactly when it has the key |
| WebUIControllerFactory.LastValueOfPrefix | atom/browser/atom_web_ui_controller_factory.cc:175-181 | one loop step: the next pair overwrites a key's value exactly when it has that key |
| WebUIControllerFactory.LastValueIgnoresOtherKeys | atom/browser/atom_web_ui_controller_factory.cc:175-181 | pairs with other keys never affect the value picked for a key |
| WebUIControllerFactory.LastValueSwapDistinctKeys | atom/browser/atom_web_ui_controller_factory.cc:175-181 | swapping neighbouring pairs with different keys changes no key's value, so the relative order of different parameters is irrelevant |
| WebUIControllerFactory.CreateWebUIControllerForURL | atom/browser/atom_web_ui_controller_factory.cc:168-186 | there is no controller for every host other than `pdf-viewer`; for that host the controller holds the last `streamURL` and the last `originalURL` value of the query |
| WebUIControllerFactory.OnInitialize | atom/browser/atom_web_ui_controller_factory.cc:123-127 | exactly one call of the page's `main`, with the original URL in both argument positions |
| WebUIControllerFactory.OnInitializeIgnoresStreamUrl | atom/browser/atom_web_ui_controller_factory.cc:123-127 | the stored stream URL never influences what is sent |
| ResourceDispatcherHostDelegate.ShouldInterceptResourceAsStream | atom/browser/atom_resource_dispatcher_host_delegate.cc:118-129 | intercepts exactly for the MIME type `application/pdf` and then sets `*origin` to `chrome://pdf-viewer/`; otherwise `*origin` is kept; `*payload` is never written |
| ResourceDispatcherHostDelegate.OnOpenExternal | atom/browser/atom_resource_dispatcher_host_delegate.cc:34-44 | one external open of the escaped URL with activation when allowed, nothing when not |
| ResourceDispatcherHostDelegate.HandleExternalProtocolInUI | atom/browser/atom_resource_dispatcher_host_delegate.cc:46-62 | no request when the web contents is gone or has no permission helper; otherwise exactly one request, bound to the escaped URL and carrying the gesture flag |
| ResourceDispatcherHostDelegate.HandleExternalProtocol | atom/browser/atom_resource_dispatcher_host_delegate.cc:85-94 | always returns true, after posting exactly one UI task carrying the URL, the getter and the gesture flag |
| ResourceDispatcherHostDelegate.AnswerPermission | atom/browser/atom_resource_dispatcher_host_delegate.cc:59-61 | the answer runs the open callback bound to the request's escaped URL |
| ResourceDispatcherHostDelegate.ExternalOpenGating | atom/browser/atom_resource_dispatcher_host_delegate.cc:34-94 | over the whole post-run-answer sequence: at most one permission request, made exactly when the web contents and its helper exist. There is one external open exactly when the request was made and allowed, and none otherwise. Every open uses the escaped URL with activation, and the request carries the original gesture flag |
| ResourceDispatcherHostDelegate.OnStreamCreated | atom/browser/atom_resource_dispatcher_host_delegate.cc:131-141 | exactly one UI task is posted, carrying the stream, the expected content size and the getter |
| ResourceDispatcherHostDelegate.OnPdfStreamCreated | atom/browser/atom_resource_dispatcher_host_delegate.cc:64-78 | no navigation when the web contents is gone; otherwise exactly one load of the viewer URL built from the handle URL and the original URL |
| ResourceDispatcherHostDelegate.ViewerNavigationUrl | atom/browser/atom_resource_dispatcher_host_delegate.cc:74-76 | the URL starts with `chrome://pdf-viewer/index.html?streamURL=` and the stream URL, and ends with the original URL, inserted unescaped |
| ResourceDispatcherHostDelegate.ExpectedContentSizeUnused | atom/browser/atom_resource_dispatcher_host_delegate.cc:64-78 | the expected content size never changes what happens |
| ResourceDispatcherHostDelegate.StreamNavigatesOnce | atom/browser/atom_resource_dispatcher_host_delegate.cc:131-141 | over post plus UI run: one viewer navigation exactly when the web contents is still there, none otherwise, and no external open |
| NavigationHandoff.NavigationUrlShape | atom/browser/atom_resource_dispatcher_host_delegate.cc:74-76 | the navigation URL is the viewer page, `?`, the `streamURL` pair, `&`, the `originalURL` pair |
| NavigationHandoff.NavigationQuery | atom/browser/atom_resource_dispatcher_host_delegate.cc:74-76 | when neither URL holds `#`, the query of the navigation URL is exactly the two pairs |
| NavigationHandoff.TwoPairsRoundTrip | atom/browser/atom_web_ui_controller_factory.cc:173-181 | `k1=v1&k2=v2` with distinct keys and no `&` in any part parses back to `v1` and `v2` |
| NavigationHandoff.NavigationRoundTrip | atom/browser/atom_resource_dispatcher_host_delegate.cc:74-76 | when neither URL holds `&` or `#`, the factory's query loop recovers both URLs from the navigation URL; an `=` inside them does no harm |
| NavigationHandoff.SecondValueCut | atom/browser/atom_web_ui_controller_factory.cc:173-181 | in `k1=v1&k2=kept&lost`, with `lost` free of `&` and not keyed `k2`, the value found for `k2` is `kept` |
| NavigationHandoff.PairValuesAvoid | atom/browser/atom_web_ui_controller_factory.cc:173 | no parsed value holds `&`, nor any character the query lacks |
| NavigationHandoff.LastValueAvoids | atom/browser/atom_web_ui_controller_factory.cc:174-181 | the value picked for a key avoids whatever every pair's value avoids |
| NavigationHandoff.RecoveredValueIsPlain | atom/browser/atom_web_ui_controller_factory.cc:172-181 | a value the query loop recovers from any URL holds neither `&` nor `#` |
| NavigationHandoff.NavigationNeedsPlainUrls | atom/browser/atom_resource_dispatcher_host_delegate.cc:74-76 | a stream URL or original URL holding `&` or `#` is never recovered whole, the converse of `NavigationRoundTrip` |
| NavigationHandoff.OriginalUrlCutAtAmpersand | atom/browser/atom_resource_dispatcher_host_delegate.cc:74-76 | an original URL `kept&lost`, with no `&` or `#` in `kept` or `lost` and a stream URL free of both, comes back as `kept` unless `lost` starts another `originalURL=` pair |
| NavigationHandoff.LastPairWins | atom/browser/atom_web_ui_controller_factory.cc:173-181 | in `k1=v1&k2=kept&key=e`, with no `&` in any part, the value found for `key` is `e` |
| NavigationHandoff.OriginalUrlOverrides | atom/browser/atom_resource_dispatcher_host_delegate.cc:74-76 | with no `&` or `#` in `kept`, `e` or the stream URL, an original URL `kept&streamURL=e` hands the factory `e` as the stream URL, and `kept&originalURL=e` hands it `e` as the original URL |
| ViewerHandler.CreateResponseHeadersDictionary | atom/browser/ui/webui/pdf_viewer_handler.cc:21-39 | without headers the dictionary is unchanged; otherwise the loop leaves it as every header line merged into it in enumeration order |
| ViewerHandler.MergedHeaderValue | atom/browser/ui/webui/pdf_viewer_handler.cc:29-38 | a name is a key exactly when it was one or some line has it; its value is the earlier value and all that name's values in order, joined by `", "` |
| ViewerHandler.SingleHeaderKeepsValue | atom/browser/ui/webui/pdf_viewer_handler.cc:31-36 | a name on one line only keeps that line's value unchanged |
| ViewerHandler.MergeHeadersExample | atom/browser/ui/webui/pdf_viewer_handler.cc:29-38 | `X: a`, `Y: b`, `X: c` merge to `X = "a, c"`, `Y = "b"`; `Accept` and `accept` stay two keys |
| ViewerHandler.InitializeAnswer | atom/browser/ui/webui/pdf_viewer_handler.cc:83-93 | the answer's keys are exactly `streamURL`, `originalURL` and `responseHeaders`. It holds the two URLs, an empty headers dictionary without headers, and otherwise one entry per header name with all its values joined |
| ViewerHandler.ZoomChangeMessages | atom/browser/ui/webui/pdf_viewer_handler.cc:129-134 | exactly one `onZoomLevelChanged` listener call with the new factor when the scheme is `chrome` and the host `pdf-viewer`, nothing otherwise |
| ViewerHandler.GetDefaultZoomUnreachable | atom/browser/ui/webui/pdf_viewer_handler.cc:54-62 | no message name is bound to `GetDefaultZoom`; `getDefaultZoom` goes to `GetInitialZoom` |
| ViewerHandler.PdfViewerHandler.constructor | atom/browser/ui/webui/pdf_viewer_handler.cc:43-44 | a new handler keeps the view id and has no stream, no bindings, no subscription and nothing sent |
| ViewerHandler.PdfViewerHandler.RegisterMessages | atom/browser/ui/webui/pdf_viewer_handler.cc:48-63 | claims the view's stream (the registry no longer has it) and binds the three message names |
| ViewerHandler.PdfViewerHandler.OnJavascriptAllowed | atom/browser/ui/webui/pdf_viewer_handler.cc:65-71 | the zoom subscription is taken |
| ViewerHandler.PdfViewerHandler.OnJavascriptDisallowed | atom/browser/ui/webui/pdf_viewer_handler.cc:73-75 | the zoom subscription is released |
| ViewerHandler.PdfViewerHandler.AllowJavascript | atom/browser/ui/webui/pdf_viewer_handler.cc:78 | script calls become allowed and the subscription exists, keeping the two in step |
| ViewerHandler.PdfViewerHandler.DisallowJavascript | atom/browser/ui/webui/pdf_viewer_handler.cc:73-75 | script calls become disallowed and the subscription is gone, keeping the two in step |
| ViewerHandler.PdfViewerHandler.Initialize | atom/browser/ui/webui/pdf_viewer_handler.cc:77-94 | script calls are allowed first; the one callback is resolved once, with the stream's URLs and merged headers |
| ViewerHandler.PdfViewerHandler.GetDefaultZoom | atom/browser/ui/webui/pdf_viewer_handler.cc:96-109 | nothing is sent while script calls are disallowed; otherwise one resolution with the default level's factor |
| ViewerHandler.PdfViewerHandler.GetInitialZoom | atom/browser/ui/webui/pdf_viewer_handler.cc:111-123 | nothing is sent while script calls are disallowed; otherwise one resolution with the current level's factor |
| ViewerHandler.PdfViewerHandler.OnZoomLevelChanged | atom/browser/ui/webui/pdf_viewer_handler.cc:125-135 | sends exactly the zoom-change message of the change, which is nothing for other origins |
| ViewerHandler.PdfViewerHandler.NotifyZoomLevelChanged | atom/browser/ui/webui/pdf_viewer_handler.cc:68-70 | a zoom change reaches the page only through a live subscription |
| ViewerHandler.PdfViewerHandler.HandleMessage | atom/browser/ui/webui/pdf_viewer_handler.cc:54-62 | an unbound name does nothing. Once registered, both zoom names answer with the current level's factor, and `initialize` answers with the stream info |

## Left out

- `CreateClientCertStore` and `CreateLoginDelegate` are not modelled. They only construct platform objects and contain no logic.
- GURL parsing and canonicalisation are not modelled.
  - A URL is a record of its scheme, host, path and query.
  - `PathWithoutParams` is "cut at the first `?` or `#`". It does not decode percent escapes or resolve `..`.
  - `QueryOf` is "cut at the first `#`, then what follows the first `?`".
- `net::EscapeExternalHandlerValue` is the uninterpreted function `escape` of the `UiEnvironment`.
- `base::SplitStringIntoKeyValuePairs` is assumed to split on `&` and then each piece at its first `=`. A piece without `=` gives an empty pair. Whitespace trimming and the failure flag are not modelled.
- `FilePath::NormalizePathSeparators` is a parameter of the data source. The model looks up the request path as given, as the source does.
- `ResourceBundle::LoadDataResourceBytes` is not modelled. The data callback is represented by the resource id it would load.
- The zoom level-to-factor conversion is not modelled, because it is floating point. It is the symbolic value `Factor(level)`.
- `HostZoomMap` is not modelled. It is reduced to the two levels it reports and to the subscription flag.
- Threading is not modelled. `BrowserThread::PostTask` appends a `PostUiTask` effect, and the task's run is a separate function against the UI-thread state. Interleavings are not modelled.
- `DictionaryValue`'s dotted-path key expansion is not modelled. Header names are flat keys.
- `PdfViewerUI`'s constructor registrations (the `initialize` callback and the data source) and `RenderViewCreated`'s binding grant are framework calls with no logic. They are not modelled.
- On Windows `OnOpenExternal` converts the URL to UTF-16. The model keeps the string as it is.
- The `plugin_path` and `request` arguments of `ShouldInterceptResourceAsStream` are unused by the source and are omitted.
- `AllowJavascript`, `DisallowJavascript` and `IsJavascriptAllowed` belong to the framework's message-handler base class. They are modelled as the allowed flag plus the `OnJavascriptAllowed`/`OnJavascriptDisallowed` hooks.
- ViewerHandler.PdfViewerHandler.Initialize: the source aborts (`CHECK`) when not given exactly one argument and dereferences a missing stream. These are preconditions of the model, not error paths.
- ViewerHandler.PdfViewerHandler.GetDefaultZoom: its `CHECK` on the argument count is a precondition, as in `GetInitialZoom`.
- WebUIControllerFactory.BundledDataSource.constructor: the source's debug-only `DCHECK` that no normalised path repeats (`atom_web_ui_controller_factory.cc:62`) is the precondition `DistinctPaths`. A release build without the check keeps the last id for a repeated path, which is what `ResourceTable` computes.
- ViewerHandler.PdfViewerHandler.GetInitialZoom: the source's `CHECK_EQ` on the argument count (`pdf_viewer_handler.cc:114`) is the precondition `javascriptAllowed ==> |args| == 1`, not an error path.
- `StreamManager` is not part of this model's sources. `ReleaseStream` is a minimal remove-and-return on a map.
- `atom/browser/ui/webui/pdf_viewer_handler.h` is not followed: its declarations do not match the `.cc`, which the model follows.
