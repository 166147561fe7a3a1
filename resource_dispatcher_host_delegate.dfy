/** The loading-path delegate: it decides which responses are diverted to
    the PDF viewer, posts the viewer navigation for a diverted stream, and
    gates the opening of URLs with schemes the browser cannot handle behind
    a permission request. Every effect on the browser is an `Effect`
    appended to a trace; a posted task runs later, against the state the UI
    thread is in by then. */
module ResourceDispatcherHostDelegate {
  import opened Base

  const PdfMimeType := "application/pdf"

  /** The origin a diverted PDF response is handed to, `chrome://pdf-viewer/`. */
  const ViewerOrigin := Url("chrome", "pdf-viewer", "/", "")

  /** A location written through an out-parameter. */
  class Cell<T> {
    var value: T

    constructor (v: T)
      ensures value == v
    {
      value := v;
    }
  }

  type WebContentsId = nat

  /** The callback a request carries to find its web contents later. */
  datatype WebContentsGetter = WebContentsGetter(id: nat)

  /** What the UI thread finds when a posted task runs: the web contents
      each getter still yields (a getter absent from the map yields null),
      the web contents that have a permission helper, and the escaping of a
      URL for an external handler (kept uninterpreted). */
  datatype UiEnvironment = UiEnvironment(
    liveContents: map<WebContentsGetter, WebContentsId>,
    permissionHelpers: set<WebContentsId>,
    escape: string -> string)

  function RunGetter(env: UiEnvironment, getter: WebContentsGetter): Option<WebContentsId>
  {
    if getter in env.liveContents then Some(env.liveContents[getter]) else None
  }

  /** The request's facts the delegate reads. */
  datatype ResourceRequestInfo = ResourceRequestInfo(getter: WebContentsGetter, hasUserGesture: bool)
  datatype UrlRequest = UrlRequest(info: ResourceRequestInfo, expectedContentSize: int)

  /** A task posted to the UI thread, with the arguments bound to it. */
  datatype UiTask =
    | HandleExternalProtocolTask(url: string, getter: WebContentsGetter, hasUserGesture: bool)
    | PdfStreamCreatedTask(stream: StreamInfo, expectedContentSize: int, getter: WebContentsGetter)

  /** The effects the delegate has on the browser. A permission request
      records the escaped URL its answer callback is bound to. */
  datatype Effect =
    | PostUiTask(task: UiTask)
    | RequestOpenExternalPermission(webContents: WebContentsId, escapedUrl: string, hasUserGesture: bool)
    | OpenExternal(url: string, activate: bool)
    | LoadUrl(webContents: WebContentsId, url: string)

  // ---------------------------------------------------------------------
  // Interception

  /** A response is diverted exactly when its MIME type is exactly
      `application/pdf`; then `*origin` becomes the viewer origin. In every
      other case `*origin` keeps its value, and `*payload` is never
      written. */
  method ShouldInterceptResourceAsStream(mimeType: string, origin: Cell<Url>, payload: Cell<string>)
    returns (intercept: bool)
    modifies origin
    ensures intercept <==> mimeType == PdfMimeType
    ensures origin.value == if intercept then ViewerOrigin else old(origin.value)
    ensures payload.value == old(payload.value)
  {
    if mimeType == PdfMimeType {
      origin.value := ViewerOrigin;
      return true;
    }
    return false;
  }

  // ---------------------------------------------------------------------
  // External protocols

  /** The permission answer's callback: opens the escaped URL, activating
      the handler, when the answer is yes; does nothing otherwise. */
  function OnOpenExternal(escapedUrl: string, allowed: bool): (effects: seq<Effect>)
    ensures allowed ==> effects == [OpenExternal(escapedUrl, true)]
    ensures !allowed ==> effects == []
  {
    if allowed then [OpenExternal(escapedUrl, true)] else []
  }

  /** On the UI thread: nothing when the web contents is gone or has no
      permission helper; otherwise exactly one permission request, bound to
      the escaped URL and carrying the request's gesture flag. */
  function HandleExternalProtocolInUI(env: UiEnvironment, url: string, getter: WebContentsGetter, hasUserGesture: bool)
    : (effects: seq<Effect>)
    ensures |effects| <= 1
    ensures effects == [] <==> RunGetter(env, getter).None? || RunGetter(env, getter).value !in env.permissionHelpers
    ensures |effects| == 1 ==>
      effects[0] == RequestOpenExternalPermission(RunGetter(env, getter).value, env.escape(url), hasUserGesture)
  {
    match RunGetter(env, getter)
    case None => []
    case Some(webContents) =>
      if webContents !in env.permissionHelpers then []
      else [RequestOpenExternalPermission(webContents, env.escape(url), hasUserGesture)]
  }

  /** Always claims the URL, after posting exactly one UI task that carries
      the URL, the getter and the gesture flag. */
  function HandleExternalProtocol(url: string, info: ResourceRequestInfo): (result: (bool, seq<Effect>))
    ensures result.0
    ensures result.1 == [PostUiTask(HandleExternalProtocolTask(url, info.getter, info.hasUserGesture))]
  {
    (true, [PostUiTask(HandleExternalProtocolTask(url, info.getter, info.hasUserGesture))])
  }

  /** The answer to a permission request runs the callback bound to it. */
  function AnswerPermission(request: Effect, allowed: bool): (effects: seq<Effect>)
    requires request.RequestOpenExternalPermission?
    ensures effects == OnOpenExternal(request.escapedUrl, allowed)
  {
    OnOpenExternal(request.escapedUrl, allowed)
  }

  // ---------------------------------------------------------------------
  // PDF streams

  /** The viewer navigation target; the two URLs are inserted as they are,
      without escaping. */
  function ViewerNavigationUrl(streamUrl: string, originalUrl: string): (url: string)
    ensures "chrome://pdf-viewer/index.html?streamURL=" + streamUrl <= url
    ensures |originalUrl| <= |url| && url[|url| - |originalUrl|..] == originalUrl
  {
    "chrome://pdf-viewer/index.html?streamURL=" + streamUrl + "&originalURL=" + originalUrl
  }

  /** Posts exactly one UI task carrying the stream, the expected content
      size and the getter. */
  function OnStreamCreated(request: UrlRequest, stream: StreamInfo): (effects: seq<Effect>)
    ensures effects == [PostUiTask(PdfStreamCreatedTask(stream, request.expectedContentSize, request.info.getter))]
  {
    [PostUiTask(PdfStreamCreatedTask(stream, request.expectedContentSize, request.info.getter))]
  }

  /** On the UI thread: no navigation when the web contents is gone;
      otherwise exactly one load of the viewer URL built from the stream's
      handle URL and original URL. */
  function OnPdfStreamCreated(env: UiEnvironment, stream: StreamInfo, expectedContentSize: int, getter: WebContentsGetter)
    : (effects: seq<Effect>)
    ensures |effects| <= 1
    ensures effects == [] <==> RunGetter(env, getter).None?
    ensures |effects| == 1 ==>
      effects[0] == LoadUrl(RunGetter(env, getter).value, ViewerNavigationUrl(stream.handleUrl, stream.originalUrl))
  {
    match RunGetter(env, getter)
    case None => []
    case Some(webContents) => [LoadUrl(webContents, ViewerNavigationUrl(stream.handleUrl, stream.originalUrl))]
  }

  lemma ExpectedContentSizeUnused(env: UiEnvironment, stream: StreamInfo, n: int, m: int, getter: WebContentsGetter)
    ensures OnPdfStreamCreated(env, stream, n, getter) == OnPdfStreamCreated(env, stream, m, getter)
  {
  }

  /** Running a posted task on the UI thread. */
  function RunUiTask(env: UiEnvironment, task: UiTask): seq<Effect>
  {
    match task
    case HandleExternalProtocolTask(url, getter, gesture) => HandleExternalProtocolInUI(env, url, getter, gesture)
    case PdfStreamCreatedTask(stream, size, getter) => OnPdfStreamCreated(env, stream, size, getter)
  }

  // ---------------------------------------------------------------------
  // Whole traces

  function CountOpens(trace: seq<Effect>): nat
  {
    if trace == [] then 0
    else CountOpens(trace[..|trace| - 1]) + (if trace[|trace| - 1].OpenExternal? then 1 else 0)
  }

  function CountPermissionRequests(trace: seq<Effect>): nat
  {
    if trace == [] then 0
    else CountPermissionRequests(trace[..|trace| - 1])
         + (if trace[|trace| - 1].RequestOpenExternalPermission? then 1 else 0)
  }

  function CountLoads(trace: seq<Effect>): nat
  {
    if trace == [] then 0
    else CountLoads(trace[..|trace| - 1]) + (if trace[|trace| - 1].LoadUrl? then 1 else 0)
  }

  lemma {:induction false} CountsOfConcat(a: seq<Effect>, b: seq<Effect>)
    ensures CountOpens(a + b) == CountOpens(a) + CountOpens(b)
    ensures CountPermissionRequests(a + b) == CountPermissionRequests(a) + CountPermissionRequests(b)
    ensures CountLoads(a + b) == CountLoads(a) + CountLoads(b)
  {
    if b != [] {
      assert (a + b)[..|a + b| - 1] == a + b[..|b| - 1];
      CountsOfConcat(a, b[..|b| - 1]);
    } else {
      assert a + b == a;
    }
  }

  /** Everything that follows from one unhandled-scheme URL: the post, the
      UI task run against `env`, and, when a permission request was made,
      the run of its callback with the answer `allowed`. */
  function ExternalProtocolTrace(env: UiEnvironment, url: string, info: ResourceRequestInfo, allowed: bool)
    : seq<Effect>
  {
    var posted := HandleExternalProtocol(url, info).1;
    var requested := RunUiTask(env, posted[0].task);
    posted + requested + (if requested == [] then [] else AnswerPermission(requested[0], allowed))
  }

  /** The URL is opened externally exactly once when the web contents is
      still there, has a permission helper and the answer is yes, and never
      otherwise; every open uses the escaped URL and activates the handler.
      At most one permission request is made. */
  lemma {:induction false} ExternalOpenGating(env: UiEnvironment, url: string, info: ResourceRequestInfo, allowed: bool)
    ensures var trace := ExternalProtocolTrace(env, url, info, allowed);
      var asked := RunGetter(env, info.getter).Some? && RunGetter(env, info.getter).value in env.permissionHelpers;
      && CountPermissionRequests(trace) == (if asked then 1 else 0)
      && CountOpens(trace) == (if asked && allowed then 1 else 0)
      && (forall k :: 0 <= k < |trace| && trace[k].OpenExternal? ==> trace[k] == OpenExternal(env.escape(url), true))
      && (forall k :: 0 <= k < |trace| && trace[k].RequestOpenExternalPermission? ==>
            trace[k].hasUserGesture == info.hasUserGesture)
  {
    var posted := HandleExternalProtocol(url, info).1;
    var requested := RunUiTask(env, posted[0].task);
    var answered := if requested == [] then [] else AnswerPermission(requested[0], allowed);
    CountsOfConcat(posted, requested);
    CountsOfConcat(posted + requested, answered);
    assert CountOpens(posted) == 0 && CountPermissionRequests(posted) == 0;
    if requested != [] {
      assert CountOpens(requested) == 0 && CountPermissionRequests(requested) == 1;
      assert CountPermissionRequests(answered) == 0;
      assert CountOpens(answered) == if allowed then 1 else 0;
    }
  }

  /** Everything that follows from one diverted stream: the post and the UI
      task run against `env`. */
  function StreamTrace(env: UiEnvironment, request: UrlRequest, stream: StreamInfo): seq<Effect>
  {
    var posted := OnStreamCreated(request, stream);
    posted + RunUiTask(env, posted[0].task)
  }

  /** A diverted stream leads to exactly one viewer navigation when the web
      contents is still there and to none otherwise; nothing is opened
      externally. */
  lemma {:induction false} StreamNavigatesOnce(env: UiEnvironment, request: UrlRequest, stream: StreamInfo)
    ensures var trace := StreamTrace(env, request, stream);
      && CountLoads(trace) == (if RunGetter(env, request.info.getter).Some? then 1 else 0)
      && CountOpens(trace) == 0
      && (forall k :: 0 <= k < |trace| && trace[k].LoadUrl? ==>
            trace[k].url == ViewerNavigationUrl(stream.handleUrl, stream.originalUrl))
  {
    var posted := OnStreamCreated(request, stream);
    var run := RunUiTask(env, posted[0].task);
    CountsOfConcat(posted, run);
    assert CountLoads(posted) == 0 && CountOpens(posted) == 0;
    if run != [] {
      assert CountLoads(run) == 1 && CountOpens(run) == 0;
    }
  }
}
