/**
 * The normalisation boundary of `searchItemPrices`: the request
 * configuration built from the optional location, the grounding citations
 * collected from the reply, the JSON block cut out of the reply's free
 * text, and the merge of the parsed object with the de-duplicated source
 * list. The network call and `JSON.parse` are parameters.
 */
module GeminiService {
  import opened Domain
  import opened JsString
  import opened JsArray

  // ---------------------------------------------------------------------
  // Request configuration

  datatype Tool = GoogleSearch
  datatype RetrievalConfig = RetrievalConfig(latLng: LatLng)
  datatype ToolConfig = ToolConfig(retrievalConfig: RetrievalConfig)
  datatype GenerateConfig = GenerateConfig(tools: seq<Tool>, toolConfig: Option<ToolConfig>)

  /**
   * The `config` object: search grounding is always enabled, and the
   * retrieval hint is added exactly when a location is known, carrying
   * that location's coordinates.
   */
  method BuildConfig(location: Option<LatLng>) returns (config: GenerateConfig)
    ensures config.tools == [GoogleSearch]
    ensures config.toolConfig.Some? <==> location.Some?
    ensures location.Some? ==> config.toolConfig.value.retrievalConfig.latLng == location.value
  {
    config := GenerateConfig([GoogleSearch], None);
    if location.Some? {
      var latLng := LatLng(location.value.latitude, location.value.longitude);
      config := config.(toolConfig := Some(ToolConfig(RetrievalConfig(latLng))));
    }
  }

  // ---------------------------------------------------------------------
  // The reply

  datatype Web = Web(uri: Option<string>)
  datatype GroundingChunk = GroundingChunk(web: Option<Web>)

  /**
   * The parts of the reply the service reads: the answer text, which may
   * be absent, and the grounding chunks of the first candidate, absent
   * when any link of `candidates?.[0]?.groundingMetadata?.groundingChunks`
   * is missing.
   */
  datatype GenerateResponse = GenerateResponse(
    text: Option<string>,
    groundingChunks: Option<seq<GroundingChunk>>)

  /** What the external call produced: a reply, or a service failure. */
  datatype ServiceReply = Replied(response: GenerateResponse) | ServiceFailed(reason: string)

  /** `chunks || []` */
  function ChunksOf(response: GenerateResponse): seq<GroundingChunk>
  {
    match response.groundingChunks
    case Some(chunks) => chunks
    case None => []
  }

  /** `chunk.web?.uri` is truthy: present and not the empty string. */
  predicate HasUri(chunk: GroundingChunk)
  {
    chunk.web.Some? && chunk.web.value.uri.Some? && chunk.web.value.uri.value != ""
  }

  /** The URIs of the chunks that have one, in chunk order. */
  function ChunkUris(chunks: seq<GroundingChunk>): (r: seq<string>)
    ensures |r| <= |chunks|
    ensures forall i :: 0 <= i < |r| ==> r[i] != ""
  {
    if |chunks| == 0 then []
    else
      var c := chunks[|chunks| - 1];
      ChunkUris(chunks[..|chunks| - 1]) + (if HasUri(c) then [c.web.value.uri.value] else [])
  }

  /** Collection follows chunk order: the URIs of a concatenation are concatenated. */
  lemma {:induction false} ChunkUrisAppend(a: seq<GroundingChunk>, b: seq<GroundingChunk>)
    ensures ChunkUris(a + b) == ChunkUris(a) + ChunkUris(b)
  {
    if |b| > 0 {
      var ab := a + b;
      assert ab[..|ab| - 1] == a + b[..|b| - 1];
      ChunkUrisAppend(a, b[..|b| - 1]);
    } else {
      assert a + b == a;
    }
  }

  /** Some chunk of `chunks` carries `u` as a truthy `web.uri`. */
  ghost predicate CarriesUri(chunks: seq<GroundingChunk>, u: string)
  {
    exists i :: 0 <= i < |chunks| && HasUri(chunks[i]) && chunks[i].web.value.uri.value == u
  }

  /** A URI is collected exactly when some chunk carries it as a truthy `web.uri`. */
  lemma {:induction false} ChunkUrisMembers(chunks: seq<GroundingChunk>, u: string)
    ensures u in ChunkUris(chunks) <==> CarriesUri(chunks, u)
  {
    if |chunks| > 0 {
      var init := chunks[..|chunks| - 1];
      ChunkUrisMembers(init, u);
      if exists i :: 0 <= i < |init| && HasUri(init[i]) && init[i].web.value.uri.value == u {
        var i :| 0 <= i < |init| && HasUri(init[i]) && init[i].web.value.uri.value == u;
        assert chunks[i] == init[i];
      }
      if exists i :: 0 <= i < |chunks| && HasUri(chunks[i]) && chunks[i].web.value.uri.value == u {
        var i :| 0 <= i < |chunks| && HasUri(chunks[i]) && chunks[i].web.value.uri.value == u;
        if i < |init| {
          assert init[i] == chunks[i];
        }
      }
    }
  }

  /** The `forEach` loop that pushes each truthy `chunk.web.uri` onto `sourceUrls`. */
  method CollectSourceUrls(chunks: seq<GroundingChunk>) returns (urls: seq<string>)
    ensures urls == ChunkUris(chunks)
  {
    urls := [];
    var i := 0;
    while i < |chunks|
      invariant 0 <= i <= |chunks|
      invariant urls == ChunkUris(chunks[..i])
    {
      assert chunks[..i + 1][..i] == chunks[..i];
      if HasUri(chunks[i]) {
        urls := urls + [chunks[i].web.value.uri.value];
      }
      i := i + 1;
    }
    assert chunks[..|chunks|] == chunks;
  }

  // ---------------------------------------------------------------------
  // Cutting the JSON block out of the text: /```json\s*([\s\S]*?)\s*```/

  const OpenTag: string := "```json"
  const Fence: string := "```"

  predicate OccursAt(t: string, pat: string, i: int)
  {
    0 <= i && i + |pat| <= |t| && t[i..i + |pat|] == pat
  }

  /** An occurrence inside a slice is an occurrence in the whole string. */
  lemma OccursInSlice(t: string, lo: int, hi: int, pat: string, i: int)
    requires 0 <= lo <= hi <= |t|
    ensures OccursAt(t[lo..hi], pat, i) ==> OccursAt(t, pat, lo + i)
  {
    if OccursAt(t[lo..hi], pat, i) {
      var inner, outer := t[lo..hi][i..i + |pat|], t[lo + i..lo + i + |pat|];
      assert forall k :: 0 <= k < |pat| ==> inner[k] == outer[k];
    }
  }

  /** The first occurrence of `pat` in `t` at or after `from`. */
  function FindFrom(t: string, pat: string, from: nat): (r: Option<nat>)
    ensures r.Some? ==> from <= r.value && OccursAt(t, pat, r.value)
    ensures forall i :: from <= i && (r.None? || i < r.value) ==> !OccursAt(t, pat, i)
    decreases |t| - from
  {
    if from + |pat| > |t| then None
    else if t[from..from + |pat|] == pat then Some(from)
    else FindFrom(t, pat, from + 1)
  }

  /** Greedy `\s*` from `i`: the end of the whitespace run starting there. */
  function SkipSpace(t: string, i: nat): (j: nat)
    requires i <= |t|
    ensures i <= j <= |t| && AllSpace(t, i, j)
    ensures j == |t| || !IsSpace(t[j])
    decreases |t| - i
  {
    if i < |t| && IsSpace(t[i]) then SkipSpace(t, i + 1) else i
  }

  /** The start of the whitespace run that ends at `hi`, not going below `lo`. */
  function BackOverSpace(t: string, lo: nat, hi: nat): (e: nat)
    requires lo <= hi <= |t|
    ensures lo <= e <= hi && AllSpace(t, e, hi)
    ensures e == lo || !IsSpace(t[e - 1])
    decreases hi
  {
    if lo < hi && IsSpace(t[hi - 1]) then BackOverSpace(t, lo, hi - 1) else hi
  }

  /**
   * The positions of one way the pattern can match: "```json" at `open`,
   * whitespace up to `start`, the captured group `t[start..end]`,
   * whitespace up to `close`, and "```" at `close`.
   */
  datatype Span = Span(open: nat, start: nat, end: nat, close: nat)

  ghost predicate FenceMatch(t: string, m: Span)
  {
    && OccursAt(t, OpenTag, m.open)
    && m.open + |OpenTag| <= m.start <= m.end <= m.close
    && AllSpace(t, m.open + |OpenTag|, m.start)
    && AllSpace(t, m.end, m.close)
    && OccursAt(t, Fence, m.close)
  }

  /**
   * The match JavaScript reports: it begins at the leftmost "```json", the
   * first `\s*` takes all the whitespace after the tag, and the lazy group
   * stops before the whitespace that precedes the first "```" after it.
   */
  ghost predicate PreferredMatch(t: string, m: Span)
  {
    && FenceMatch(t, m)
    && (forall p :: 0 <= p < m.open ==> !OccursAt(t, OpenTag, p))
    && (m.start == |t| || !IsSpace(t[m.start]))
    && (forall c :: m.start <= c < m.close ==> !OccursAt(t, Fence, c))
    && (m.end == m.start || !IsSpace(t[m.end - 1]))
  }

  /** Some "```json" is followed, at or after its end, by a "```". */
  ghost predicate HasFencedJson(t: string)
  {
    exists p, c :: OccursAt(t, OpenTag, p) && OccursAt(t, Fence, c) && p + |OpenTag| <= c
  }

  /** Whitespace never holds a "```", since a backtick is not whitespace. */
  lemma SpaceHoldsNoFence(t: string, lo: nat, hi: nat)
    requires lo <= hi <= |t| && AllSpace(t, lo, hi)
    ensures forall c :: lo <= c < hi ==> !OccursAt(t, Fence, c)
  {
    forall c | lo <= c < hi ensures !OccursAt(t, Fence, c) {
      assert IsSpace(t[c]);
    }
  }

  /**
   * When the first "```json" is at `p` and no "```" starts at or after its
   * end, no "```json" anywhere has a "```" after it.
   */
  lemma NoFenceAfterFirstOpen(t: string, p: nat)
    requires OccursAt(t, OpenTag, p)
    requires forall i :: 0 <= i < p ==> !OccursAt(t, OpenTag, i)
    requires forall c :: p + |OpenTag| <= c ==> !OccursAt(t, Fence, c)
    ensures !HasFencedJson(t)
  {
    forall q, c | OccursAt(t, OpenTag, q) && OccursAt(t, Fence, c) ensures c < q + |OpenTag| {
      assert p <= q;
    }
  }

  /** The match of the pattern in `t`, if it has one. */
  function FirstFenceMatch(t: string): (r: Option<Span>)
    ensures r.Some? ==> PreferredMatch(t, r.value)
    ensures r.None? <==> !HasFencedJson(t)
  {
    match FindFrom(t, OpenTag, 0)
    case None => None
    case Some(p) =>
      var s := SkipSpace(t, p + |OpenTag|);
      SpaceHoldsNoFence(t, p + |OpenTag|, s);
      match FindFrom(t, Fence, s)
      case None =>
        NoFenceAfterFirstOpen(t, p);
        None
      case Some(c) =>
        var m := Span(p, s, BackOverSpace(t, s, c), c);
        assert FenceMatch(t, m);
        Some(m)
  }

  /**
   * The reported match is the one the backtracking order prefers among all
   * ways of matching: no match starts earlier; at the same start none
   * skips more whitespace after the tag; and with both equal none captures
   * less.
   */
  lemma PreferredMatchIsRegexChoice(t: string, r: Span, m: Span)
    requires PreferredMatch(t, r) && FenceMatch(t, m)
    ensures r.open <= m.open
    ensures r.open == m.open ==> m.start <= r.start
    ensures r.open == m.open && r.start == m.start ==> r.end <= m.end
  {
    if r.open == m.open && r.start == m.start {
      assert r.close <= m.close;
    }
  }

  /** No "```" occurs in `s`. */
  ghost predicate HoldsNoFence(s: string)
  {
    forall i :: !OccursAt(s, Fence, i)
  }

  /** The captured group of the preferred match holds no "```". */
  lemma GroupHoldsNoFence(t: string, m: Span)
    requires PreferredMatch(t, m)
    ensures HoldsNoFence(t[m.start..m.end])
  {
    forall i ensures !OccursAt(t[m.start..m.end], Fence, i) {
      OccursInSlice(t, m.start, m.end, Fence, i);
    }
  }

  /** The captured group of the preferred match neither starts nor ends with whitespace. */
  lemma GroupIsTrimmed(t: string, m: Span)
    requires PreferredMatch(t, m)
    ensures IsTrimmed(t[m.start..m.end])
  {
    var g := t[m.start..m.end];
    if g != [] {
      assert g[0] == t[m.start] && g[|g| - 1] == t[m.end - 1];
    }
  }

  /**
   * `text?.match(...)`, group 1: absent when there is no text or no
   * fenced block; otherwise the captured group of the preferred match,
   * which holds no "```" and neither starts nor ends with whitespace.
   */
  function ExtractJsonBlock(text: Option<string>): (r: Option<string>)
    ensures r.None? <==> text.None? || !HasFencedJson(text.value)
    ensures r.Some? ==> exists m :: PreferredMatch(text.value, m) && r.value == text.value[m.start..m.end]
    ensures r.Some? ==> HoldsNoFence(r.value) && IsTrimmed(r.value)
  {
    match text
    case None => None
    case Some(t) =>
      match FirstFenceMatch(t)
      case None => None
      case Some(m) =>
        GroupHoldsNoFence(t, m);
        GroupIsTrimmed(t, m);
        Some(t[m.start..m.end])
  }

  // ---------------------------------------------------------------------
  // Source URLs

  const MaxSources := 5

  /**
   * `[...new Set(sourceUrls)].slice(0, 5)`: the first five distinct URLs
   * in first-seen order.
   */
  function NormaliseSources(urls: seq<string>): (r: seq<string>)
    ensures NoDups(r) && |r| <= MaxSources
    ensures forall i :: 0 <= i < |r| ==> r[i] in urls
    ensures |r| == if |Dedupe(urls)| < MaxSources then |Dedupe(urls)| else MaxSources
    ensures r == Dedupe(urls)[..|r|]
  {
    var distinct := Dedupe(urls);
    var r := Take(distinct, MaxSources);
    assert forall i :: 0 <= i < |r| ==> r[i] == distinct[i];
    r
  }

  /** With at most five distinct URLs nothing is dropped: every URL is kept. */
  lemma FewSourcesAllKept(urls: seq<string>)
    requires |Dedupe(urls)| <= MaxSources
    ensures forall i :: 0 <= i < |urls| ==> urls[i] in NormaliseSources(urls)
  {
    assert NormaliseSources(urls) == Dedupe(urls);
  }

  /** Duplicates are dropped in first-seen order: [a, b, a, c] gives [a, b, c]. */
  lemma DedupeExample(a: string, b: string, c: string)
    requires a != b && b != c && a != c
    ensures NormaliseSources([a, b, a, c]) == [a, b, c]
  {
    assert [a, b, a, c][..3] == [a, b, a];
    assert [a, b, a][..2] == [a, b];
    assert [a, b][..1] == [a];
    assert Dedupe([a]) == [a];
    assert Dedupe([a, b]) == [a, b];
    assert Dedupe([a, b, a]) == [a, b];
    assert Dedupe([a, b, a, c]) == [a, b, c];
  }

  /** Seven distinct URLs are cut to the first five, in order. */
  lemma TruncationExample(u: seq<string>)
    requires |u| == 7 && NoDups(u)
    ensures NormaliseSources(u) == u[..5]
  {
    DedupeOfDistinct(u);
  }

  // ---------------------------------------------------------------------
  // The parsed payload and the merge

  /** A value `JSON.parse` can return. */
  datatype Json =
    | JNull
    | JBool(b: bool)
    | JNumber(n: real)
    | JString(s: string)
    | JArray(items: seq<Json>)
    | JObject(fields: map<string, Json>)

  /** The outcome of `JSON.parse`, which is a parameter of the model. */
  datatype ParseResult = Parsed(value: Json) | SyntaxError(message: string)

  /** The decimal spelling of an array index, the key it gets when spread. */
  function DecimalKey(n: nat): (r: string)
    ensures |r| >= 1 && (|r| == 1 <==> n < 10)
    ensures forall i :: 0 <= i < |r| ==> '0' <= r[i] <= '9'
    ensures r[0] == '0' ==> n == 0
  {
    var digit := ['0' + (n % 10) as char];
    if n < 10 then digit else DecimalKey(n / 10) + digit
  }

  /** Indices with the same key are the same index. */
  lemma {:induction false} DecimalKeyInjective(a: nat, b: nat)
    requires DecimalKey(a) == DecimalKey(b)
    ensures a == b
  {
    var ka, kb := DecimalKey(a), DecimalKey(b);
    assert ka[|ka| - 1] == '0' + (a % 10) as char;
    assert kb[|kb| - 1] == '0' + (b % 10) as char;
    if a >= 10 && b >= 10 {
      assert ka[..|ka| - 1] == DecimalKey(a / 10);
      assert kb[..|kb| - 1] == DecimalKey(b / 10);
      DecimalKeyInjective(a / 10, b / 10);
    }
  }

  /** Different indices get different keys. */
  lemma DecimalKeysDiffer(a: nat, b: nat)
    requires a != b
    ensures DecimalKey(a) != DecimalKey(b)
  {
    if DecimalKey(a) == DecimalKey(b) {
      DecimalKeyInjective(a, b);
    }
  }

  /** The properties of an array-like value: position `i` under the key of `i`, and nothing else. */
  function IndexedFields(items: seq<Json>): map<string, Json>
  {
    if |items| == 0 then map[]
    else IndexedFields(items[..|items| - 1])[DecimalKey(|items| - 1) := items[|items| - 1]]
  }

  /** Later indices overwrite no earlier one, so every position can be looked up under its key. */
  lemma {:induction false} IndexedFieldsLookup(items: seq<Json>)
    ensures forall i :: 0 <= i < |items| ==>
      DecimalKey(i) in IndexedFields(items) && IndexedFields(items)[DecimalKey(i)] == items[i]
  {
    if |items| > 0 {
      var n := |items| - 1;
      var front := items[..n];
      var r := IndexedFields(items);
      IndexedFieldsLookup(front);
      assert r == IndexedFields(front)[DecimalKey(n) := items[n]];
      forall i | 0 <= i < |items| ensures DecimalKey(i) in r && r[DecimalKey(i)] == items[i] {
        if i < n {
          DecimalKeysDiffer(i, n);
          assert front[i] == items[i];
        }
      }
    }
  }

  /** `k` is the key of one of the first `n` positions. */
  ghost predicate IsIndexKey(k: string, n: nat)
  {
    exists i :: 0 <= i < n && k == DecimalKey(i)
  }

  /** There are no other keys than the positions'. */
  lemma {:induction false} IndexedFieldsKeys(items: seq<Json>)
    ensures forall k :: k in IndexedFields(items) ==> IsIndexKey(k, |items|)
  {
    if |items| > 0 {
      var n := |items| - 1;
      var front := items[..n];
      var r := IndexedFields(items);
      IndexedFieldsKeys(front);
      assert r == IndexedFields(front)[DecimalKey(n) := items[n]];
      forall k | k in r ensures IsIndexKey(k, |items|) {
        if k == DecimalKey(n) {
          assert 0 <= n < |items| && k == DecimalKey(n);
        } else {
          assert IsIndexKey(k, n);
          var i :| 0 <= i < n && k == DecimalKey(i);
          assert 0 <= i < |items| && k == DecimalKey(i);
        }
      }
    }
  }

  /** The characters of a string as one-character strings, the way spreading sees them. */
  function Characters(s: string): (r: seq<Json>)
    ensures |r| == |s| && forall i :: 0 <= i < |s| ==> r[i] == JString([s[i]])
  {
    seq(|s|, i requires 0 <= i < |s| => JString([s[i]]))
  }

  /**
   * The own enumerable properties `{...v}` copies: an object's fields, the
   * indices of an array or of a string's characters, nothing otherwise.
   */
  function Spread(v: Json): (r: map<string, Json>)
    ensures v.JObject? ==> r == v.fields
    ensures v.JArray? ==> r == IndexedFields(v.items)
    ensures v.JString? ==> r == IndexedFields(Characters(v.s))
    ensures v.JNull? || v.JBool? || v.JNumber? ==> r == map[]
  {
    match v
    case JObject(fields) => fields
    case JArray(items) => IndexedFields(items)
    case JString(s) => IndexedFields(Characters(s))
    case _ => map[]
  }

  const SourceUrlsKey: string := "sourceUrls"

  function UrlArray(urls: seq<string>): (r: Json)
    ensures r.JArray? && |r.items| == |urls|
    ensures forall i :: 0 <= i < |urls| ==> r.items[i] == JString(urls[i])
  {
    JArray(seq(|urls|, i requires 0 <= i < |urls| => JString(urls[i])))
  }

  /**
   * `{ ...parsedData, sourceUrls }`: every parsed field is kept unchanged
   * and unchecked, except that `sourceUrls` is always the given list.
   */
  function MergeSources(parsed: Json, urls: seq<string>): (r: map<string, Json>)
    ensures SourceUrlsKey in r && r[SourceUrlsKey] == UrlArray(urls)
    ensures forall k :: k != SourceUrlsKey ==> (k in r <==> k in Spread(parsed))
    ensures forall k :: k != SourceUrlsKey && k in r ==> r[k] == Spread(parsed)[k]
  {
    Spread(parsed)[SourceUrlsKey := UrlArray(urls)]
  }

  // ---------------------------------------------------------------------
  // searchItemPrices

  /** The errors `searchItemPrices` lets through to its caller. */
  datatype SearchError =
    | ServiceError(reason: string)
    | MissingJsonBlock
    | JsonSyntaxError(message: string)

  function ErrorMessage(e: SearchError): string
  {
    match e
    case ServiceError(reason) => reason
    case MissingJsonBlock => "Failed to parse market data structure."
    case JsonSyntaxError(message) => message
  }

  datatype Result<T> = Ok(value: T) | Err(error: SearchError)

  /**
   * `searchItemPrices` once the request is sent: `config` is the request
   * configuration for the given location, and `reply` is what the external
   * call produced. Every failure reaches the caller unchanged; on success
   * the parsed object is returned with its `sourceUrls` replaced by the
   * normalised citation list.
   */
  method SearchItemPrices(location: Option<LatLng>, reply: ServiceReply, parse: string -> ParseResult)
    returns (config: GenerateConfig, r: Result<map<string, Json>>)
    ensures config.tools == [GoogleSearch]
    ensures config.toolConfig.Some? <==> location.Some?
    ensures location.Some? ==> config.toolConfig.value.retrievalConfig.latLng == location.value
    ensures reply.ServiceFailed? ==> r == Err(ServiceError(reply.reason))
    ensures reply.Replied? && ExtractJsonBlock(reply.response.text).None? ==>
      r == Err(MissingJsonBlock) && ErrorMessage(r.error) == "Failed to parse market data structure."
    ensures reply.Replied? && ExtractJsonBlock(reply.response.text).Some? ==>
      match parse(ExtractJsonBlock(reply.response.text).value)
      case SyntaxError(message) => r == Err(JsonSyntaxError(message))
      case Parsed(v) => r == Ok(MergeSources(v, NormaliseSources(ChunkUris(ChunksOf(reply.response)))))
  {
    config := BuildConfig(location);
    match reply
    case ServiceFailed(reason) =>
      r := Err(ServiceError(reason));
    case Replied(response) =>
      var sourceUrls := CollectSourceUrls(ChunksOf(response));
      var jsonMatch := ExtractJsonBlock(response.text);
      if jsonMatch.None? {
        r := Err(MissingJsonBlock);
      } else {
        match parse(jsonMatch.value)
        case SyntaxError(message) =>
          r := Err(JsonSyntaxError(message));
        case Parsed(parsedData) =>
          r := Ok(MergeSources(parsedData, NormaliseSources(sourceUrls)));
      }
  }

  /**
   * Every source URL a successful search returns is the truthy `web.uri`
   * of some grounding chunk of the reply.
   */
  lemma NormalisedSourcesComeFromChunks(chunks: seq<GroundingChunk>)
    ensures forall i :: 0 <= i < |NormaliseSources(ChunkUris(chunks))| ==>
      CarriesUri(chunks, NormaliseSources(ChunkUris(chunks))[i])
  {
    var urls := NormaliseSources(ChunkUris(chunks));
    forall i | 0 <= i < |urls| ensures CarriesUri(chunks, urls[i]) {
      ChunkUrisMembers(chunks, urls[i]);
    }
  }
}
