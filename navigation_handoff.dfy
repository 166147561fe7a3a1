/** The handoff between the two halves of the viewer path: the navigation
    URL the loading path builds for a diverted stream, and the query parsing
    the web UI factory applies to it. */
module NavigationHandoff {
  import opened Base
  import opened WebUIControllerFactory
  import opened ResourceDispatcherHostDelegate

  /** The first `c` of `a + [c] + b` is the one after `a` when `a` has none. */
  lemma {:induction false} IndexOfAfterPrefix(a: string, c: char, b: string)
    requires c !in a
    ensures IndexOf(a + [c] + b, c) == |a|
  {
    var s := a + [c] + b;
    if a == [] {
      assert s[0] == c;
    } else {
      assert s[0] == a[0];
      assert s[1..] == a[1..] + [c] + b;
      IndexOfAfterPrefix(a[1..], c, b);
    }
  }

  lemma {:induction false} SplitAtFirst(a: string, d: char, b: string)
    requires d !in a
    ensures SplitOn(a + [d] + b, d) == [a] + SplitOn(b, d)
  {
    var s := a + [d] + b;
    IndexOfAfterPrefix(a, d, b);
    assert d in s by { assert s[|a|] == d; }
    assert s[..|a|] == a && s[|a| + 1..] == b;
  }

  lemma KeyValueOf(key: string, value: string)
    requires '=' !in key
    ensures SplitKeyValue(key + ['='] + value) == (key, value)
  {
    IndexOfAfterPrefix(key, '=', value);
    var piece := key + ['='] + value;
    assert '=' in piece by { assert piece[|key|] == '='; }
    assert piece[..|key|] == key && piece[|key| + 1..] == value;
  }

  const ViewerPage := "chrome://pdf-viewer/index.html"

  lemma QueryAfterPage(page: string, query: string)
    requires '?' !in page && '#' !in page && '#' !in query
    ensures QueryOf(page + ['?'] + query) == query
  {
    var spec := page + ['?'] + query;
    assert '#' !in spec;
    assert spec[..IndexOf(spec, '#')] == spec;
    IndexOfAfterPrefix(page, '?', query);
    assert spec[|page| + 1..] == query;
  }

  /** A leading piece without `&` parses on its own, ahead of the rest. */
  lemma PairsAfterFirstPiece(first: string, rest: string)
    requires '&' !in first
    ensures SplitStringIntoKeyValuePairs(first + ['&'] + rest)
         == [SplitKeyValue(first)] + SplitStringIntoKeyValuePairs(rest)
  {
    SplitAtFirst(first, '&', rest);
    var l := SplitStringIntoKeyValuePairs(first + ['&'] + rest);
    var r := [SplitKeyValue(first)] + SplitStringIntoKeyValuePairs(rest);
    assert |l| == |r|;
    forall k | 0 <= k < |l|
      ensures l[k] == r[k]
    {
      if k > 0 {
        assert r[k] == SplitStringIntoKeyValuePairs(rest)[k - 1];
      }
    }
  }

  /** A query without `&` is a single pair. */
  lemma PairsOfOnePiece(piece: string)
    requires '&' !in piece
    ensures SplitStringIntoKeyValuePairs(piece) == [SplitKeyValue(piece)]
  {
    assert SplitOn(piece, '&') == [piece];
  }

  /** `key=value&rest` yields `(key, value)` followed by the pairs of `rest`. */
  lemma PairThenRest(key: string, value: string, rest: string)
    requires '=' !in key && '&' !in key && '&' !in value
    ensures SplitStringIntoKeyValuePairs(key + ['='] + value + ['&'] + rest)
         == [(key, value)] + SplitStringIntoKeyValuePairs(rest)
  {
    var first := key + ['='] + value;
    assert '&' !in first;
    KeyValueOf(key, value);
    PairsAfterFirstPiece(first, rest);
  }

  /** The navigation URL spelled out as page, `?`, and the two pairs. */
  lemma NavigationUrlShape(streamUrl: string, originalUrl: string)
    ensures ViewerNavigationUrl(streamUrl, originalUrl)
         == ViewerPage + ['?'] + ("streamURL" + ['='] + streamUrl + ['&'] + ("originalURL" + ['='] + originalUrl))
  {
    assert "chrome://pdf-viewer/index.html?streamURL=" == ViewerPage + ['?'] + "streamURL" + ['='];
    assert "&originalURL=" == ['&'] + "originalURL" + ['='];
  }

  /** The viewer page holds neither `?` nor `#`, so the query starts right
      after it. */
  lemma ViewerPageHasNoQuery()
    ensures '?' !in ViewerPage && '#' !in ViewerPage
  {
    assert forall k :: 0 <= k < |ViewerPage| ==> ViewerPage[k] != '?' && ViewerPage[k] != '#';
  }

  /** The two parameter names hold neither `=`, `&` nor `#`, and differ. */
  lemma ParameterNames()
    ensures '=' !in "streamURL" && '&' !in "streamURL" && '#' !in "streamURL"
    ensures '=' !in "originalURL" && '&' !in "originalURL" && '#' !in "originalURL"
    ensures "streamURL" != "originalURL" && "originalURL" != []
  {
    assert |"streamURL"| != |"originalURL"|;
  }

  lemma OriginalUrlPrefix()
    ensures "originalURL" + ['='] == "originalURL="
  {
  }

  /** The query of the navigation URL is the two pairs, as long as neither
      URL holds a `#`. */
  lemma NavigationQuery(streamUrl: string, originalUrl: string)
    requires '#' !in streamUrl && '#' !in originalUrl
    ensures QueryOf(ViewerNavigationUrl(streamUrl, originalUrl))
         == "streamURL" + ['='] + streamUrl + ['&'] + ("originalURL" + ['='] + originalUrl)
  {
    ParameterNames();
    ViewerPageHasNoQuery();
    var query := "streamURL" + ['='] + streamUrl + ['&'] + ("originalURL" + ['='] + originalUrl);
    NavigationUrlShape(streamUrl, originalUrl);
    QueryAfterPage(ViewerPage, query);
  }

  lemma LastValueOfTwo(k1: string, v1: string, k2: string, v2: string)
    requires k1 != k2
    ensures LastValue([(k1, v1), (k2, v2)], k1) == v1
    ensures LastValue([(k1, v1), (k2, v2)], k2) == v2
  {
    assert [(k1, v1), (k2, v2)][..1] == [(k1, v1)];
    assert [(k1, v1)][..0] == [];
  }

  /** Two pairs with different keys, neither holding `&`, parse back to
      their values. */
  lemma TwoPairsRoundTrip(k1: string, v1: string, k2: string, v2: string)
    requires '=' !in k1 && '&' !in k1 && '&' !in v1
    requires '=' !in k2 && '&' !in k2 && '&' !in v2
    requires k1 != k2
    ensures var pairs := SplitStringIntoKeyValuePairs(k1 + ['='] + v1 + ['&'] + (k2 + ['='] + v2));
      LastValue(pairs, k1) == v1 && LastValue(pairs, k2) == v2
  {
    var second := k2 + ['='] + v2;
    PairThenRest(k1, v1, second);
    PairsOfOnePiece(second);
    KeyValueOf(k2, v2);
    assert [(k1, v1)] + [(k2, v2)] == [(k1, v1), (k2, v2)];
    LastValueOfTwo(k1, v1, k2, v2);
  }

  /** Round trip: when neither URL holds `&` or `#`, parsing the query of
      the URL the loading path navigates to gives back the stream URL and
      the original URL. (A `=` inside either URL does no harm, since each
      pair is split at its first `=`.) */
  lemma NavigationRoundTrip(streamUrl: string, originalUrl: string)
    requires '&' !in streamUrl && '#' !in streamUrl
    requires '&' !in originalUrl && '#' !in originalUrl
    ensures var pairs := SplitStringIntoKeyValuePairs(QueryOf(ViewerNavigationUrl(streamUrl, originalUrl)));
      LastValue(pairs, "streamURL") == streamUrl && LastValue(pairs, "originalURL") == originalUrl
  {
    NavigationQuery(streamUrl, originalUrl);
    ParameterNames();
    TwoPairsRoundTrip("streamURL", streamUrl, "originalURL", originalUrl);
  }

  /** A piece that does not start with `key=` does not parse to `key`. */
  lemma OtherKey(piece: string, key: string)
    requires key != []
    requires !(key + ['='] <= piece)
    ensures SplitKeyValue(piece).0 != key
  {
    var kv := SplitKeyValue(piece);
    if '=' in piece {
      assert piece == kv.0 + ['='] + kv.1;
      assert (kv.0 + ['='] + kv.1)[..|kv.0| + 1] == kv.0 + ['='];
    }
  }

  /** `key=value&last` is the pair `(key, value)` and the pair of `last`. */
  lemma PairThenLast(key: string, value: string, last: string)
    requires '=' !in key && '&' !in key && '&' !in value && '&' !in last
    ensures SplitStringIntoKeyValuePairs(key + ['='] + value + ['&'] + last)
         == [(key, value), SplitKeyValue(last)]
  {
    PairThenRest(key, value, last);
    PairsOfOnePiece(last);
  }

  lemma LastValueOfThree(a: (string, string), b: (string, string), c: (string, string), key: string)
    requires a.0 != key && b.0 == key && c.0 != key
    ensures LastValue([a, b, c], key) == b.1
  {
    LastValueIsLast([a, b, c], key, 1);
  }

  lemma ThreePairs(k1: string, v1: string, k2: string, kept: string, lost: string)
    requires '=' !in k1 && '&' !in k1 && '&' !in v1
    requires '=' !in k2 && '&' !in k2 && '&' !in kept && '&' !in lost
    ensures SplitStringIntoKeyValuePairs(k1 + ['='] + v1 + ['&'] + (k2 + ['='] + kept + ['&'] + lost))
         == [(k1, v1), (k2, kept), SplitKeyValue(lost)]
  {
    var rest := k2 + ['='] + kept + ['&'] + lost;
    PairThenRest(k1, v1, rest);
    PairThenLast(k2, kept, lost);
    assert [(k1, v1)] + [(k2, kept), SplitKeyValue(lost)] == [(k1, v1), (k2, kept), SplitKeyValue(lost)];
  }

  /** `k1=v1&k2=kept&lost` gives `kept` for `k2` when `lost` holds no `&`
      and its key is not `k2`. */
  lemma SecondValueCut(k1: string, v1: string, k2: string, kept: string, lost: string)
    requires '=' !in k1 && '&' !in k1 && '&' !in v1
    requires '=' !in k2 && '&' !in k2 && '&' !in kept && '&' !in lost
    requires k1 != k2 && SplitKeyValue(lost).0 != k2
    ensures LastValue(SplitStringIntoKeyValuePairs(k1 + ['='] + v1 + ['&'] + (k2 + ['='] + (kept + ['&'] + lost))), k2)
         == kept
  {
    var rest := k2 + ['='] + kept + ['&'] + lost;
    assert k2 + ['='] + (kept + ['&'] + lost) == rest;
    var kv := SplitKeyValue(lost);
    ThreePairs(k1, v1, k2, kept, lost);
    LastValueOfThree((k1, v1), (k2, kept), kv, k2);
  }

  /** Because the URLs are inserted unescaped, an original URL with a
      single `&` and no `#` comes back cut at that `&`, unless the text
      after it itself starts another `originalURL` pair. */
  lemma OriginalUrlCutAtAmpersand(streamUrl: string, kept: string, lost: string)
    requires '&' !in streamUrl && '#' !in streamUrl
    requires '&' !in kept && '#' !in kept && '&' !in lost && '#' !in lost
    requires !("originalURL=" <= lost)
    ensures var pairs := SplitStringIntoKeyValuePairs(QueryOf(ViewerNavigationUrl(streamUrl, kept + ['&'] + lost)));
      LastValue(pairs, "originalURL") == kept
  {
    NavigationQuery(streamUrl, kept + ['&'] + lost);
    ParameterNames();
    OriginalUrlPrefix();
    OtherKey(lost, "originalURL");
    SecondValueCut("streamURL", streamUrl, "originalURL", kept, lost);
  }

  /** No parsed value holds a `&`, nor any character the query lacks. */
  lemma PairValuesAvoid(query: string, x: char)
    requires x == '&' || x !in query
    ensures forall k :: 0 <= k < |SplitStringIntoKeyValuePairs(query)| ==> x !in SplitStringIntoKeyValuePairs(query)[k].1
  {
    var pieces := SplitOn(query, '&');
    if x != '&' {
      SplitOnAvoids(query, '&', x);
    }
    forall k | 0 <= k < |pieces|
      ensures x !in SplitKeyValue(pieces[k]).1
    {
      var kv := SplitKeyValue(pieces[k]);
      if '=' in pieces[k] {
        assert pieces[k][|kv.0| + 1..] == kv.1;
      }
    }
  }

  /** The value picked for a key is one of the pairs' values, so it avoids
      whatever all of them avoid. */
  lemma {:induction false} LastValueAvoids(pairs: seq<(string, string)>, key: string, x: char)
    requires forall k :: 0 <= k < |pairs| ==> x !in pairs[k].1
    ensures x !in LastValue(pairs, key)
  {
    if pairs != [] && pairs[|pairs| - 1].0 != key {
      LastValueAvoids(pairs[..|pairs| - 1], key, x);
    }
  }

  /** Whatever URL the factory's query loop reads a parameter from, the
      value it recovers holds neither `&` nor `#`. */
  lemma RecoveredValueIsPlain(spec: string, key: string)
    ensures var v := LastValue(SplitStringIntoKeyValuePairs(QueryOf(spec)), key);
      '&' !in v && '#' !in v
  {
    var pairs := SplitStringIntoKeyValuePairs(QueryOf(spec));
    PairValuesAvoid(QueryOf(spec), '&');
    PairValuesAvoid(QueryOf(spec), '#');
    LastValueAvoids(pairs, key, '&');
    LastValueAvoids(pairs, key, '#');
  }

  /** The converse of the round trip: a stream URL or an original URL that
      holds a `&` or a `#` never comes back whole. */
  lemma NavigationNeedsPlainUrls(streamUrl: string, originalUrl: string)
    ensures var pairs := SplitStringIntoKeyValuePairs(QueryOf(ViewerNavigationUrl(streamUrl, originalUrl)));
      ('&' in streamUrl || '#' in streamUrl) ==> LastValue(pairs, "streamURL") != streamUrl
    ensures var pairs := SplitStringIntoKeyValuePairs(QueryOf(ViewerNavigationUrl(streamUrl, originalUrl)));
      ('&' in originalUrl || '#' in originalUrl) ==> LastValue(pairs, "originalURL") != originalUrl
  {
    RecoveredValueIsPlain(ViewerNavigationUrl(streamUrl, originalUrl), "streamURL");
    RecoveredValueIsPlain(ViewerNavigationUrl(streamUrl, originalUrl), "originalURL");
  }

  /** In `k1=v1&k2=kept&key=e` the last pair decides `key`'s value. */
  lemma LastPairWins(k1: string, v1: string, k2: string, kept: string, key: string, e: string)
    requires '=' !in k1 && '&' !in k1 && '&' !in v1
    requires '=' !in k2 && '&' !in k2 && '&' !in kept
    requires '=' !in key && '&' !in key && '&' !in e
    ensures LastValue(SplitStringIntoKeyValuePairs(k1 + ['='] + v1 + ['&'] + (k2 + ['='] + (kept + ['&'] + (key + ['='] + e)))), key)
         == e
  {
    var lost := key + ['='] + e;
    assert '&' !in lost;
    assert k2 + ['='] + (kept + ['&'] + lost) == k2 + ['='] + kept + ['&'] + lost;
    ThreePairs(k1, v1, k2, kept, lost);
    KeyValueOf(key, e);
    LastValueIsLast([(k1, v1), (k2, kept), (key, e)], key, 2);
  }

  /** Because the URLs are inserted unescaped, an original URL
      `kept&key=e`, for either parameter name `key`, hands the factory `e`
      as that parameter: a later `streamURL` pair overrides the real stream
      URL, and a later `originalURL` pair overrides `kept`. */
  lemma OriginalUrlOverrides(streamUrl: string, kept: string, e: string, key: string)
    requires key == "streamURL" || key == "originalURL"
    requires '&' !in streamUrl && '#' !in streamUrl
    requires '&' !in kept && '#' !in kept && '&' !in e && '#' !in e
    ensures var pairs := SplitStringIntoKeyValuePairs(QueryOf(ViewerNavigationUrl(streamUrl, kept + ['&'] + (key + ['='] + e))));
      LastValue(pairs, key) == e
  {
    ParameterNames();
    assert '=' !in key && '&' !in key && '#' !in key;
    assert '#' !in key + ['='] + e;
    NavigationQuery(streamUrl, kept + ['&'] + (key + ['='] + e));
    LastPairWins("streamURL", streamUrl, "originalURL", kept, key, e);
  }
}
