/** The viewer page's message handler: it claims the viewer's stream,
    answers the page's `initialize`, `getInitialZoom` and `getDefaultZoom`
    requests, and forwards zoom changes of the viewer origin to the page
    while script calls are allowed. */
module ViewerHandler {
  import opened Base

  const ViewerScheme := "chrome"
  const ViewerHost := "pdf-viewer"

  // ---------------------------------------------------------------------
  // Response headers as a dictionary

  /** A dictionary of strings with flat keys, updated in place. */
  class DictionaryValue {
    var strings: map<string, string>

    constructor ()
      ensures strings == map[]
    {
      strings := map[];
    }
  }

  /** One header line merged into the dictionary: a new name gets the value,
      an existing name gets `", "` and the value appended. */
  function MergeHeaderLine(dict: map<string, string>, line: HeaderLine): map<string, string>
  {
    if line.name in dict then dict[line.name := dict[line.name] + ", " + line.value]
    else dict[line.name := line.value]
  }

  /** The header lines merged into the dictionary in enumeration order. */
  function MergeHeaders(dict: map<string, string>, lines: seq<HeaderLine>): map<string, string>
  {
    if lines == [] then dict
    else MergeHeaderLine(MergeHeaders(dict, lines[..|lines| - 1]), lines[|lines| - 1])
  }

  /** Merges every header line of the response into `result`; with no
      headers `result` is left as it is. */
  method CreateResponseHeadersDictionary(headers: Option<seq<HeaderLine>>, result: DictionaryValue)
    modifies result
    ensures headers.None? ==> result.strings == old(result.strings)
    ensures headers.Some? ==> result.strings == MergeHeaders(old(result.strings), headers.value)
  {
    if headers.None? {
      return;
    }
    var lines := headers.value;
    var iter := 0;
    while iter < |lines|
      invariant 0 <= iter <= |lines|
      invariant result.strings == MergeHeaders(old(result.strings), lines[..iter])
    {
      var line := lines[iter];
      assert lines[..iter + 1][..iter] == lines[..iter];
      iter := iter + 1;
      if line.name in result.strings {
        result.strings := result.strings[line.name := result.strings[line.name] + ", " + line.value];
      } else {
        result.strings := result.strings[line.name := line.value];
      }
    }
    assert lines[..iter] == lines;
  }

  /** The values of the lines named exactly `name`, in enumeration order. */
  function ValuesOf(lines: seq<HeaderLine>, name: string): seq<string>
  {
    if lines == [] then []
    else ValuesOf(lines[..|lines| - 1], name)
         + (if lines[|lines| - 1].name == name then [lines[|lines| - 1].value] else [])
  }

  /** The values joined by `", "`. */
  function JoinWithComma(values: seq<string>): string
    requires |values| > 0
  {
    if |values| == 1 then values[0]
    else JoinWithComma(values[..|values| - 1]) + ", " + values[|values| - 1]
  }

  /** After merging, a name is a key exactly when it was one before or some
      line has it, and its value is the earlier value (if any) followed by
      all of that name's values in order, joined by `", "`. Names are
      compared exactly, so names differing only in case stay apart. */
  lemma {:induction false} MergedHeaderValue(dict: map<string, string>, lines: seq<HeaderLine>, name: string)
    ensures name in MergeHeaders(dict, lines) <==> name in dict || ValuesOf(lines, name) != []
    ensures name in MergeHeaders(dict, lines) ==>
      MergeHeaders(dict, lines)[name]
        == JoinWithComma((if name in dict then [dict[name]] else []) + ValuesOf(lines, name))
  {
    if lines != [] {
      var init := lines[..|lines| - 1];
      var last := lines[|lines| - 1];
      MergedHeaderValue(dict, init, name);
      var before := (if name in dict then [dict[name]] else []) + ValuesOf(init, name);
      if last.name == name {
        var after := (if name in dict then [dict[name]] else []) + ValuesOf(lines, name);
        assert after == before + [last.value];
        if before != [] {
          assert after[..|after| - 1] == before;
        }
      } else {
        assert ValuesOf(lines, name) == ValuesOf(init, name);
      }
    }
  }

  /** A name on a single line keeps that line's value unchanged. */
  lemma SingleHeaderKeepsValue(lines: seq<HeaderLine>, name: string, value: string)
    requires ValuesOf(lines, name) == [value]
    ensures name in MergeHeaders(map[], lines) && MergeHeaders(map[], lines)[name] == value
  {
    MergedHeaderValue(map[], lines, name);
  }

  lemma MergeHeadersExample()
    ensures MergeHeaders(map[], [HeaderLine("X", "a"), HeaderLine("Y", "b"), HeaderLine("X", "c")])
         == map["X" := "a, c", "Y" := "b"]
    ensures MergeHeaders(map[], [HeaderLine("Accept", "a"), HeaderLine("accept", "b")])
         == map["Accept" := "a", "accept" := "b"]
  {
    var lines := [HeaderLine("X", "a"), HeaderLine("Y", "b"), HeaderLine("X", "c")];
    assert lines[..2] == [HeaderLine("X", "a"), HeaderLine("Y", "b")];
    assert lines[..2][..1] == [HeaderLine("X", "a")];
    assert [HeaderLine("X", "a")][..0] == [];
    assert MergeHeaders(map[], lines[..2][..1]) == map["X" := "a"];
    assert MergeHeaders(map[], lines[..2]) == map["X" := "a", "Y" := "b"];
    assert "a" + ", " + "c" == "a, c";
    var caseLines := [HeaderLine("Accept", "a"), HeaderLine("accept", "b")];
    assert caseLines[..1] == [HeaderLine("Accept", "a")];
    assert [HeaderLine("Accept", "a")][..0] == [];
    assert MergeHeaders(map[], caseLines[..1]) == map["Accept" := "a"];
    assert "Accept" != "accept";
  }

  // ---------------------------------------------------------------------
  // What the handler sends

  /** The header dictionary of a stream, as `initialize` sends it. */
  function HeadersDictionary(headers: Option<seq<HeaderLine>>): map<string, string>
  {
    match headers
    case None => map[]
    case Some(lines) => MergeHeaders(map[], lines)
  }

  function StringEntries(dict: map<string, string>): (entries: map<string, Value>)
    ensures entries.Keys == dict.Keys
    ensures forall k :: k in dict ==> entries[k] == Str(dict[k])
  {
    map k | k in dict :: Str(dict[k])
  }

  /** The answer to `initialize`: a dictionary whose keys are exactly
      `streamURL`, `originalURL` and `responseHeaders`. */
  function StreamInfoValue(stream: StreamInfo): (v: Value)
  {
    Dict(map["streamURL" := Str(stream.handleUrl),
             "originalURL" := Str(stream.originalUrl),
             "responseHeaders" := Dict(StringEntries(HeadersDictionary(stream.responseHeaders)))])
  }

  /** The `initialize` answer carries the stream's two URLs and, under
      `responseHeaders`, one entry per header name holding all of that
      name's values joined by `", "`; a stream without headers sends an
      empty dictionary. */
  lemma InitializeAnswer(stream: StreamInfo, name: string)
    ensures StreamInfoValue(stream).Dict?
    ensures StreamInfoValue(stream).entries.Keys == {"streamURL", "originalURL", "responseHeaders"}
    ensures StreamInfoValue(stream).entries["streamURL"] == Str(stream.handleUrl)
    ensures StreamInfoValue(stream).entries["originalURL"] == Str(stream.originalUrl)
    ensures stream.responseHeaders.None? ==> StreamInfoValue(stream).entries["responseHeaders"] == Dict(map[])
    ensures stream.responseHeaders.Some? ==>
      var values := ValuesOf(stream.responseHeaders.value, name);
      var headers := StreamInfoValue(stream).entries["responseHeaders"].entries;
      && (name in headers <==> values != [])
      && (name in headers ==> headers[name] == Str(JoinWithComma(values)))
  {
    if stream.responseHeaders.Some? {
      var lines := stream.responseHeaders.value;
      MergedHeaderValue(map[], lines, name);
      assert [] + ValuesOf(lines, name) == ValuesOf(lines, name);
    }
  }

  /** A zoom change reported by the host zoom map. */
  datatype ZoomLevelChange = ZoomLevelChange(scheme: string, host: string, zoomLevel: real)

  /** The page message for a zoom change: exactly one listener call with the
      new factor for the viewer origin `chrome://pdf-viewer`, nothing for
      any other scheme or host. */
  function ZoomChangeMessages(change: ZoomLevelChange): (sent: seq<PageMessage>)
    ensures |sent| <= 1
    ensures |sent| == 1 <==> change.scheme == ViewerScheme && change.host == ViewerHost
    ensures |sent| == 1 ==>
      sent[0] == CallFunction("cr.webUIListenerCallback", [Str("onZoomLevelChanged"), Factor(change.zoomLevel)])
  {
    if change.scheme == ViewerScheme && change.host == ViewerHost then
      [CallFunction("cr.webUIListenerCallback", [Str("onZoomLevelChanged"), Factor(change.zoomLevel)])]
    else []
  }

  /** The zoom levels the host zoom map reports: the level of the viewer's
      web contents and the default level. */
  datatype ZoomLevels = ZoomLevels(current: real, defaultLevel: real)

  // ---------------------------------------------------------------------
  // The handler

  /** The handler methods the page's message names are bound to. */
  datatype MessageCallback = InitializeCallback | GetDefaultZoomCallback | GetInitialZoomCallback

  /** The bindings `RegisterMessages` makes: both zoom messages go to
      `GetInitialZoom`. */
  const MessageBindings: map<string, MessageCallback> := map[
    "initialize" := InitializeCallback,
    "getDefaultZoom" := GetInitialZoomCallback,
    "getInitialZoom" := GetInitialZoomCallback]

  /** No message reaches `GetDefaultZoom`. */
  lemma GetDefaultZoomUnreachable()
    ensures forall name :: name in MessageBindings ==> MessageBindings[name] != GetDefaultZoomCallback
    ensures MessageBindings["getDefaultZoom"] == GetInitialZoomCallback
  {
  }

  class PdfViewerHandler {
    const viewId: string
    var stream: Option<StreamInfo>
    var javascriptAllowed: bool
    var zoomSubscribed: bool
    var messageCallbacks: map<string, MessageCallback>
    var outbox: seq<PageMessage>

    /** The zoom subscription exists exactly while script calls are allowed. */
    ghost predicate Valid()
      reads this
    {
      zoomSubscribed == javascriptAllowed
    }

    constructor (viewId: string)
      ensures Valid()
      ensures this.viewId == viewId && stream == None && !javascriptAllowed
      ensures messageCallbacks == map[] && outbox == []
    {
      this.viewId := viewId;
      stream := None;
      javascriptAllowed := false;
      zoomSubscribed := false;
      messageCallbacks := map[];
      outbox := [];
    }

    /** Claims the stream registered for this view (once: the registry no
        longer has it afterwards) and binds the page's message names. */
    method RegisterMessages(manager: StreamManager)
      modifies this, manager
      ensures stream == if viewId in old(manager.streams) then Some(old(manager.streams)[viewId]) else None
      ensures manager.streams == old(manager.streams) - {viewId}
      ensures messageCallbacks == MessageBindings
      ensures javascriptAllowed == old(javascriptAllowed) && zoomSubscribed == old(zoomSubscribed)
      ensures outbox == old(outbox)
    {
      stream := manager.ReleaseStream(viewId);
      messageCallbacks := MessageBindings;
    }

    method OnJavascriptAllowed()
      modifies this`zoomSubscribed
      ensures zoomSubscribed
    {
      zoomSubscribed := true;
    }

    method OnJavascriptDisallowed()
      modifies this`zoomSubscribed
      ensures !zoomSubscribed
    {
      zoomSubscribed := false;
    }

    /** Allows script calls; on the first allowance the zoom subscription
        is taken. */
    method AllowJavascript()
      requires Valid()
      modifies this`javascriptAllowed, this`zoomSubscribed
      ensures Valid() && javascriptAllowed && zoomSubscribed
    {
      if javascriptAllowed {
        return;
      }
      javascriptAllowed := true;
      OnJavascriptAllowed();
    }

    /** Disallows script calls; the zoom subscription is released. */
    method DisallowJavascript()
      requires Valid()
      modifies this`javascriptAllowed, this`zoomSubscribed
      ensures Valid() && !javascriptAllowed && !zoomSubscribed
    {
      if !javascriptAllowed {
        return;
      }
      javascriptAllowed := false;
      OnJavascriptDisallowed();
    }

    /** Allows script calls, then resolves the page's one callback with the
        stream's URLs and merged response headers. */
    method Initialize(args: seq<Value>)
      requires Valid()
      requires |args| == 1
      requires stream.Some?
      modifies this`javascriptAllowed, this`zoomSubscribed, this`outbox
      ensures Valid() && javascriptAllowed && zoomSubscribed
      ensures outbox == old(outbox) + [ResolveCallback(args[0], StreamInfoValue(stream.value))]
    {
      AllowJavascript();
      var callbackId := args[0];
      var info := stream.value;
      var headersDict := new DictionaryValue();
      CreateResponseHeadersDictionary(info.responseHeaders, headersDict);
      var streamInfo := Dict(map["streamURL" := Str(info.handleUrl),
                                 "originalURL" := Str(info.originalUrl),
                                 "responseHeaders" := Dict(StringEntries(headersDict.strings))]);
      outbox := outbox + [ResolveCallback(callbackId, streamInfo)];
    }

    /** While script calls are allowed, resolves the page's one callback with
        the factor of the default zoom level; sends nothing otherwise. */
    method GetDefaultZoom(args: seq<Value>, levels: ZoomLevels)
      requires javascriptAllowed ==> |args| == 1
      modifies this`outbox
      ensures outbox == old(outbox) + if javascriptAllowed then [ResolveCallback(args[0], Factor(levels.defaultLevel))] else []
    {
      if !javascriptAllowed {
        return;
      }
      var callbackId := args[0];
      outbox := outbox + [ResolveCallback(callbackId, Factor(levels.defaultLevel))];
    }

    /** While script calls are allowed, resolves the page's one callback with
        the factor of the viewer's current zoom level; sends nothing
        otherwise. */
    method GetInitialZoom(args: seq<Value>, levels: ZoomLevels)
      requires javascriptAllowed ==> |args| == 1
      modifies this`outbox
      ensures outbox == old(outbox) + if javascriptAllowed then [ResolveCallback(args[0], Factor(levels.current))] else []
    {
      if !javascriptAllowed {
        return;
      }
      var callbackId := args[0];
      outbox := outbox + [ResolveCallback(callbackId, Factor(levels.current))];
    }

    /** The subscribed zoom callback: forwards changes of the viewer origin
        only. */
    method OnZoomLevelChanged(change: ZoomLevelChange)
      requires change.scheme == ViewerScheme && change.host == ViewerHost ==> javascriptAllowed
      modifies this`outbox
      ensures outbox == old(outbox) + ZoomChangeMessages(change)
    {
      if change.scheme == ViewerScheme && change.host == ViewerHost {
        outbox := outbox + [CallFunction("cr.webUIListenerCallback",
                                         [Str("onZoomLevelChanged"), Factor(change.zoomLevel)])];
      }
    }

    /** A broadcast of the host zoom map reaches the handler only through a
        live subscription. */
    method NotifyZoomLevelChanged(change: ZoomLevelChange)
      requires Valid()
      modifies this`outbox
      ensures outbox == old(outbox) + if zoomSubscribed then ZoomChangeMessages(change) else []
    {
      if zoomSubscribed {
        OnZoomLevelChanged(change);
      }
    }

    /** A message from the page runs the handler method bound to its name;
        an unbound name does nothing. */
    method HandleMessage(name: string, args: seq<Value>, levels: ZoomLevels)
      requires Valid()
      requires name in messageCallbacks && messageCallbacks[name] == InitializeCallback ==>
        |args| == 1 && stream.Some?
      requires name in messageCallbacks && messageCallbacks[name] != InitializeCallback && javascriptAllowed ==>
        |args| == 1
      modifies this`javascriptAllowed, this`zoomSubscribed, this`outbox
      ensures Valid()
      ensures name !in messageCallbacks ==> outbox == old(outbox) && javascriptAllowed == old(javascriptAllowed)
      ensures messageCallbacks == MessageBindings && (name == "getDefaultZoom" || name == "getInitialZoom") ==>
        && javascriptAllowed == old(javascriptAllowed)
        && outbox == old(outbox) + if old(javascriptAllowed) then [ResolveCallback(args[0], Factor(levels.current))] else []
      ensures messageCallbacks == MessageBindings && name == "initialize" ==>
        javascriptAllowed && outbox == old(outbox) + [ResolveCallback(args[0], StreamInfoValue(stream.value))]
    {
      if name !in messageCallbacks {
        return;
      }
      match messageCallbacks[name]
      case InitializeCallback => Initialize(args);
      case GetDefaultZoomCallback => GetDefaultZoom(args, levels);
      case GetInitialZoomCallback => GetInitialZoom(args, levels);
    }
  }
}
