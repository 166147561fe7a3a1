/** Values and helpers shared by the PDF-viewer modules: an Option type,
    ASCII string helpers, the parsed-URL record, the stream handed from the
    loading path to the viewer, the values sent to the viewer page, and the
    per-browser-context stream registry. */
module Base {

  datatype Option<+T> = None | Some(value: T)

  // ---------------------------------------------------------------------
  // ASCII strings

  /** The ASCII lower-case of one character; every other character is kept. */
  function ToLowerAscii(c: char): (l: char)
    ensures 'A' <= c <= 'Z' ==> 'a' <= l <= 'z' && l as int == c as int + 32
    ensures !('A' <= c <= 'Z') ==> l == c
  {
    if 'A' <= c <= 'Z' then (c as int + 32) as char else c
  }

  function LowerAscii(s: string): (l: string)
    ensures |l| == |s|
    ensures forall i :: 0 <= i < |s| ==> l[i] == ToLowerAscii(s[i])
  {
    seq(|s|, i requires 0 <= i < |s| => ToLowerAscii(s[i]))
  }

  /** `s` ends with `suffix` when both are compared character by character
      after ASCII lower-casing. */
  predicate EndsWithIgnoreAsciiCase(s: string, suffix: string)
  {
    |suffix| <= |s| &&
    forall k :: 0 <= k < |suffix| ==> ToLowerAscii(s[|s| - |suffix| + k]) == ToLowerAscii(suffix[k])
  }

  /** The index of the first `c` in `s`, or `|s|` when there is none. */
  function IndexOf(s: string, c: char): (i: nat)
    ensures i <= |s|
    ensures c !in s[..i]
    ensures i < |s| ==> s[i] == c
    ensures i == |s| <==> c !in s
  {
    if s == [] then 0
    else if s[0] == c then 0
    else
      assert s[1..][..IndexOf(s[1..], c)] == s[..IndexOf(s[1..], c) + 1][1..];
      1 + IndexOf(s[1..], c)
  }

  /** Splits `s` at every `d`; there is always at least one piece, and no
      piece contains `d`. */
  function SplitOn(s: string, d: char): (pieces: seq<string>)
    ensures |pieces| >= 1
    ensures forall k :: 0 <= k < |pieces| ==> d !in pieces[k]
    decreases |s|
  {
    if d !in s then [s]
    else
      var i := IndexOf(s, d);
      [s[..i]] + SplitOn(s[i + 1..], d)
  }

  /** The pieces written back with `d` between neighbours. */
  function JoinOn(pieces: seq<string>, d: char): (s: string)
    requires |pieces| >= 1
    ensures pieces[0] <= s
    ensures |pieces| > 1 ==> |pieces[0]| < |s| && s[|pieces[0]|] == d
  {
    if |pieces| == 1 then pieces[0] else pieces[0] + [d] + JoinOn(pieces[1..], d)
  }

  /** Splitting loses nothing: joining the pieces gives back the text. */
  lemma {:induction false} SplitOnJoin(s: string, d: char)
    ensures JoinOn(SplitOn(s, d), d) == s
    decreases |s|
  {
    if d in s {
      var i := IndexOf(s, d);
      var pieces := SplitOn(s, d);
      assert pieces[1..] == SplitOn(s[i + 1..], d);
      SplitOnJoin(s[i + 1..], d);
      assert s == s[..i] + [d] + s[i + 1..];
    }
  }

  /** A character missing from the text is missing from every piece. */
  lemma {:induction false} SplitOnAvoids(s: string, d: char, x: char)
    requires x !in s
    ensures forall k :: 0 <= k < |SplitOn(s, d)| ==> x !in SplitOn(s, d)[k]
    decreases |s|
  {
    if d in s {
      var i := IndexOf(s, d);
      assert s == s[..i] + s[i..];
      SplitOnAvoids(s[i + 1..], d, x);
    }
  }

  // ---------------------------------------------------------------------
  // URLs

  /** A parsed URL, reduced to the components the viewer path looks at. */
  datatype Url = Url(scheme: string, host: string, path: string, query: string)

  /** The query of a URL written as text: the fragment is cut off at the
      first `#`, and the query is what follows the first `?` before it;
      empty when there is no such `?`. This is the only part of URL parsing
      the model keeps. */
  function QueryOf(spec: string): (q: string)
    ensures '#' !in q
    ensures var h := spec[..IndexOf(spec, '#')];
      '?' in h ==> h == h[..IndexOf(h, '?')] + ['?'] + q
    ensures '?' !in spec[..IndexOf(spec, '#')] ==> q == ""
    ensures q != "" ==> exists i :: 0 <= i < |spec| && spec[i] == '?' && '#' !in spec[..i] && q <= spec[i + 1..]
  {
    var h := spec[..IndexOf(spec, '#')];
    var i := IndexOf(h, '?');
    if i == |h| then ""
    else
      assert spec[..i] == h[..i];
      assert h[i + 1..] <= spec[i + 1..];
      assert h == h[..i] + ['?'] + h[i + 1..];
      h[i + 1..]
  }

  /** A `?` after the first `#` belongs to the fragment, not to a query. */
  lemma QueryOfFragmentFirst()
    ensures QueryOf("a#b?c") == ""
  {
    assert IndexOf("a#b?c", '#') == 1;
    assert "a#b?c"[..1] == "a";
  }

  // ---------------------------------------------------------------------
  // Streams

  /** One header line of a response, as the header enumeration yields it. */
  datatype HeaderLine = HeaderLine(name: string, value: string)

  /** An intercepted response handed to the viewer: the URL of its stream
      handle, the URL that produced it and its header lines (`None` when
      the response has no header object). */
  datatype StreamInfo = StreamInfo(
    handleUrl: string,
    originalUrl: string,
    responseHeaders: Option<seq<HeaderLine>>)

  /** The per-browser-context registry of streams waiting for a viewer,
      keyed by view id. */
  class StreamManager {
    var streams: map<string, StreamInfo>

    constructor (pending: map<string, StreamInfo>)
      ensures streams == pending
    {
      streams := pending;
    }

    /** Removes the stream registered under `viewId` and returns it; `None`
        when there is none (never registered, or already released). */
    method ReleaseStream(viewId: string) returns (s: Option<StreamInfo>)
      modifies this
      ensures s == if viewId in old(streams) then Some(old(streams)[viewId]) else None
      ensures streams == old(streams) - {viewId}
      ensures viewId !in streams
    {
      if viewId in streams {
        s := Some(streams[viewId]);
        streams := streams - {viewId};
      } else {
        s := None;
      }
    }
  }

  // ---------------------------------------------------------------------
  // What the browser sends to a viewer page

  /** A value passed to the page's script. `Factor(level)` stands for the
      zoom factor of a zoom level; the level-to-factor conversion is kept
      uninterpreted. */
  datatype Value =
    | Str(s: string)
    | Factor(level: real)
    | Dict(entries: map<string, Value>)

  /** A message to the page: a plain script function call, or the
      resolution of a request the page made with a callback id. */
  datatype PageMessage =
    | CallFunction(name: string, args: seq<Value>)
    | ResolveCallback(callbackId: Value, response: Value)
}
