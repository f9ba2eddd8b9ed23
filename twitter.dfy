/** The Twitter adapter (api/sources/twitter.js): the text helpers that
    derive a title, hashtags and mentions from a tweet, the mapping of an API
    payload to canonical items, and the query parameters sent upstream. The
    upstream server is a function from the request to its reply. */
module Twitter {
  import opened Common
  import opened Strings
  import opened Dicts
  import opened Registry
  import opened BaseSource

  /** The catalogue key the adapter is constructed with. */
  const SourceKey: string := "twitter"

  const StatusUrlPrefix: string := "https://twitter.com/user/status/"

  /** The number of space-separated pieces kept in a title. */
  const TitleWords: nat := 8

  // ---------------------------------------------------------------------
  // Titles

  /** `extractTweetTitle(text)`. */
  function ExtractTweetTitle(text: string): string
  {
    if text == "" then ""
    else
      var pieces := Split(text, ' ');
      var words := pieces[..Min(TitleWords, |pieces|)];
      Join(words, " ") + (if |words| < |pieces| then "..." else "")
  }

  lemma {:induction false} JoinAppend(a: seq<string>, b: seq<string>, sep: string)
    requires |a| >= 1 && |b| >= 1
    ensures Join(a + b, sep) == Join(a, sep) + sep + Join(b, sep)
    decreases |a|
  {
    if |a| == 1 {
      JoinCons(a[0], b, sep);
      assert [a[0]] + b == a + b;
    } else {
      JoinAppend(a[1..], b, sep);
      assert a + b == [a[0]] + (a[1..] + b);
      JoinCons(a[0], a[1..] + b, sep);
      JoinCons(a[0], a[1..], sep);
      assert [a[0]] + a[1..] == a;
    }
  }

  /** A text of at most eight pieces is its own title. */
  lemma ShortTextIsItsTitle(text: string)
    requires |Split(text, ' ')| <= TitleWords
    ensures ExtractTweetTitle(text) == text
  {
    var pieces := Split(text, ' ');
    assert pieces[..|pieces|] == pieces;
    JoinSplit(text, ' ');
  }

  /** A longer text is cut after its eighth piece, just before a space,
      and "..." is appended; the cut part splits into exactly those eight pieces. */
  lemma LongTextIsTruncated(text: string)
    requires |Split(text, ' ')| > TitleWords
    ensures var title := ExtractTweetTitle(text);
      var kept := |title| - 3;
      0 <= kept < |text| && title == text[..kept] + "..." && text[kept] == ' '
      && Split(text[..kept], ' ') == Split(text, ' ')[..TitleWords]
  {
    var pieces := Split(text, ' ');
    var words := pieces[..TitleWords];
    assert pieces == words + pieces[TitleWords..];
    var head := Join(words, " ");
    assert ExtractTweetTitle(text) == head + "...";
    CutAfterPieces(text, words, pieces[TitleWords..]);
  }

  /** When the pieces of `text` are `words` followed by more, the joined
      words are a prefix of `text` that stops just before a space. */
  lemma CutAfterPieces(text: string, words: seq<string>, rest: seq<string>)
    requires Split(text, ' ') == words + rest && |words| >= 1 && |rest| >= 1
    ensures var head := Join(words, " ");
      |head| < |text| && text[..|head|] == head && text[|head|] == ' ' && Split(head, ' ') == words
  {
    var pieces := words + rest;
    JoinAppend(words, rest, " ");
    JoinSplit(text, ' ');
    CutBeforeSpace(text, Join(words, " "), Join(rest, " "));
    assert forall i :: 0 <= i < |words| ==> words[i] == pieces[i];
    SplitJoin(words, ' ');
  }

  lemma CutBeforeSpace(text: string, head: string, tail: string)
    requires text == head + " " + tail
    ensures |head| < |text| && text[..|head|] == head && text[|head|] == ' '
  {
    assert text[..|head|] == head;
  }

  // ---------------------------------------------------------------------
  // Hashtags and mentions

  predicate IsWord(w: string) {
    w != [] && forall j :: 0 <= j < |w| ==> IsWordChar(w[j])
  }

  /** The length of the run of word characters at the start of `s`. */
  function WordRun(s: string): (n: nat)
    ensures n <= |s|
    ensures forall i :: 0 <= i < n ==> IsWordChar(s[i])
    ensures n < |s| ==> !IsWordChar(s[n])
    decreases |s|
  {
    if s == [] || !IsWordChar(s[0]) then 0 else 1 + WordRun(s[1..])
  }

  /** The global match of "marker followed by `\w+`" with the marker
      removed from each match: left to right, a marker followed by a word
      character starts a match that takes the longest run of word
      characters, and scanning resumes after it. */
  function Tags(s: string, marker: char): (r: seq<string>)
    ensures forall i :: 0 <= i < |r| ==> IsWord(r[i])
    decreases |s|
  {
    if |s| < 2 then []
    else if s[0] == marker && IsWordChar(s[1]) then
      var n := WordRun(s[1..]);
      [s[1..1 + n]] + Tags(s[1 + n..], marker)
    else Tags(s[1..], marker)
  }

  /** `extractHashtags(text)`. */
  function ExtractHashtags(text: string): seq<string>
  {
    if text == "" then [] else Tags(text, '#')
  }

  /** `extractMentions(text)`. */
  function ExtractMentions(text: string): seq<string>
  {
    if text == "" then [] else Tags(text, '@')
  }

  lemma {:induction false} WordRunOfWord(w: string, t: string)
    requires forall j :: 0 <= j < |w| ==> IsWordChar(w[j])
    requires t == [] || !IsWordChar(t[0])
    ensures WordRun(w + t) == |w|
    decreases |w|
  {
    if w != [] {
      assert (w + t)[1..] == w[1..] + t;
      WordRunOfWord(w[1..], t);
    }
  }

  /** A text without the marker yields nothing. */
  lemma {:induction false} NoMarkerNoTags(s: string, marker: char)
    requires marker !in s
    ensures Tags(s, marker) == []
    decreases |s|
  {
    if |s| >= 2 {
      assert s[0] in s;
      assert forall c :: c in s[1..] ==> c in s;
      NoMarkerNoTags(s[1..], marker);
    }
  }

  /** Each word written after the marker and followed by a space. */
  function TagLine(words: seq<string>, marker: char): string
    decreases |words|
  {
    if words == [] then "" else [marker] + words[0] + " " + TagLine(words[1..], marker)
  }

  /** A character other than the marker is skipped. */
  lemma TagsSkip(c: char, t: string, marker: char)
    requires c != marker
    ensures Tags([c] + t, marker) == Tags(t, marker)
  {
    assert ([c] + t)[1..] == t;
  }

  /** A marker followed by a word and a space yields the word. */
  lemma TagsOfWord(w: string, rest: string, marker: char)
    requires marker != ' ' && IsWord(w)
    ensures Tags([marker] + (w + (" " + rest)), marker) == [w] + Tags(rest, marker)
  {
    var s := [marker] + (w + (" " + rest));
    assert s[1..] == w + (" " + rest);
    WordRunOfWord(w, " " + rest);
    assert s[1..1 + |w|] == w;
    assert s[1 + |w|..] == [' '] + rest;
    TagsSkip(' ', rest, marker);
  }

  /** Extraction gives back the words of a line of tags, in order. */
  lemma {:induction false} TagsOfTagLine(words: seq<string>, marker: char)
    requires marker != ' '
    requires forall i :: 0 <= i < |words| ==> IsWord(words[i])
    ensures Tags(TagLine(words, marker), marker) == words
    decreases |words|
  {
    if words != [] {
      var tail := words[1..];
      var rest := TagLine(tail, marker);
      assert TagLine(words, marker) == [marker] + (words[0] + (" " + rest));
      assert IsWord(words[0]);
      TagsOfWord(words[0], rest, marker);
      assert forall i :: 0 <= i < |tail| ==> tail[i] == words[i + 1];
      TagsOfTagLine(tail, marker);
      assert words == [words[0]] + tail;
    }
  }

  /** `#a #b ... ` yields `[a, b, ...]`, and the same for `@`. */
  lemma HashtagsAndMentionsRoundTrip(words: seq<string>)
    requires forall i :: 0 <= i < |words| ==> IsWord(words[i])
    ensures ExtractHashtags(TagLine(words, '#')) == words
    ensures ExtractMentions(TagLine(words, '@')) == words
  {
    TagsOfTagLine(words, '#');
    TagsOfTagLine(words, '@');
  }

  // ---------------------------------------------------------------------
  // Payload to items

  /** A tweet of the API payload; `createdAt` is `created_at` in milliseconds. */
  datatype Tweet = Tweet(id: string, text: string, createdAt: int, authorId: string, publicMetrics: Option<Dict<nat>>)

  datatype Meta = Meta(resultCount: Option<nat>)

  /** The JSON body of a search reply. */
  datatype Payload = Payload(data: Option<seq<Tweet>>, meta: Option<Meta>)

  function ToItem(t: Tweet): Item
  {
    Item(t.id, ExtractTweetTitle(t.text), t.text, StatusUrlPrefix + t.id, t.createdAt, t.authorId,
         ItemMetadata(t.publicMetrics, ExtractHashtags(t.text), ExtractMentions(t.text)))
  }

  /** `rawData.meta?.result_count || items.length`. */
  function TotalResults(meta: Option<Meta>, itemCount: nat): nat
  {
    if meta.Some? && meta.value.resultCount.Some? && meta.value.resultCount.value != 0
    then meta.value.resultCount.value else itemCount
  }

  /** `transformData(rawData)`; `None` is a null or non-object body. */
  function TransformData(raw: Option<Payload>): (r: Output)
    ensures r.ObjectOutput? && r.items.Some? && r.metadata.Some? && r.metadata.value.source == SourceKey
    ensures raw.None? || raw.value.data.None? ==> r.items.value == [] && r.metadata.value.totalResults == 0
    ensures raw.Some? && raw.value.data.Some? ==>
      var tweets := raw.value.data.value;
      var items := r.items.value;
      |items| == |tweets|
      && (forall i :: 0 <= i < |items| ==>
            items[i].id == tweets[i].id && items[i].description == tweets[i].text
            && items[i].url == StatusUrlPrefix + tweets[i].id && items[i].publishedAt == tweets[i].createdAt
            && items[i].author == tweets[i].authorId && items[i].title == ExtractTweetTitle(tweets[i].text)
            && items[i].metadata == ItemMetadata(tweets[i].publicMetrics, ExtractHashtags(tweets[i].text), ExtractMentions(tweets[i].text)))
      && r.metadata.value.totalResults == TotalResults(raw.value.meta, |tweets|)
  {
    if raw.None? || raw.value.data.None? then
      ObjectOutput(Some([]), Some(SourceMetadata(0, SourceKey)))
    else
      var tweets := raw.value.data.value;
      var items := seq(|tweets|, i requires 0 <= i < |tweets| => ToItem(tweets[i]));
      ObjectOutput(Some(items), Some(SourceMetadata(TotalResults(raw.value.meta, |items|), SourceKey)))
  }

  /** Validating a transformed payload always succeeds, with one item per
      tweet, and the status id can be read back from each item's url. */
  lemma TransformThenValidate(raw: Option<Payload>, now: int)
    ensures var v := ValidateData(SourceKey, now, TransformData(raw));
      v.Ok? && v.value.source == SourceKey
      && v.value.count == (if raw.None? || raw.value.data.None? then 0 else |raw.value.data.value|)
      && forall i :: 0 <= i < |v.value.items| ==> v.value.items[i].url[|StatusUrlPrefix|..] == v.value.items[i].id
  {
    var items := TransformData(raw).items.value;
    forall i | 0 <= i < |items| ensures items[i].url[|StatusUrlPrefix|..] == items[i].id {
    }
  }

  // ---------------------------------------------------------------------
  // Query parameters

  /** What `URLSearchParams.append` writes for a present value. */
  function Render(v: ParamValue): string
  {
    match v
    case Num(n) => NatToString(n)
    case Text(s) => s
    case Absent => ""
  }

  /** The parameters that are appended: those whose value is not null or undefined. */
  function Present(params: Dict<ParamValue>): (r: Dict<string>)
    ensures |r| <= |params|
    decreases |params|
  {
    if params == [] then []
    else (if params[0].1.Absent? then [] else [(params[0].0, Render(params[0].1))]) + Present(params[1..])
  }

  lemma {:induction false} PresentGet(params: Dict<ParamValue>, k: string)
    requires DistinctKeys(params)
    ensures Get(Present(params), k) ==
      match Get(params, k)
      case Some(p) => if p.Absent? then None else Some(Render(p))
      case None => None
    ensures DistinctKeys(Present(params))
    decreases |params|
  {
    if params != [] {
      DistinctKeysOf(params);
      PresentGet(params[1..], k);
      var r := Present(params);
      DistinctKeysOf(r);
      if !params[0].1.Absent? {
        assert r[1..] == Present(params[1..]);
        assert params[0].0 !in Keys(Present(params[1..])) by {
          PresentGet(params[1..], params[0].0);
        }
      } else {
        assert r == Present(params[1..]);
      }
    }
  }

  /** `query || search_queries.join(' OR ')`. */
  function EffectiveQuery(config: SourceConfig, query: string): string
  {
    if query != "" then query else Join(config.searchQueries, " OR ")
  }

  /** `{ ...default_params, query, ...options }`. */
  function MergedParams(config: SourceConfig, query: string, options: Dict<ParamValue>): Dict<ParamValue>
  {
    PutAll(Put(PutAll([], config.defaultParams), "query", Text(EffectiveQuery(config, query))), options)
  }

  /** The parameters appended to the search url, in order. */
  function RequestParams(config: SourceConfig, query: string, options: Dict<ParamValue>): Dict<string>
  {
    Present(MergedParams(config, query, options))
  }

  /** Each parameter comes from the options when they name it, otherwise
      from the query for "query", otherwise from the defaults; it is sent
      as written unless its value is null or undefined; no name is sent twice. */
  lemma RequestParamsLookup(config: SourceConfig, query: string, options: Dict<ParamValue>, k: string)
    requires DistinctKeys(config.defaultParams) && DistinctKeys(options)
    ensures DistinctKeys(RequestParams(config, query, options))
    ensures Get(RequestParams(config, query, options), k) ==
      var v := if Get(options, k).Some? then Get(options, k)
               else if k == "query" then Some(Text(EffectiveQuery(config, query)))
               else Get(config.defaultParams, k);
      if v.Some? && !v.value.Absent? then Some(Render(v.value)) else None
  {
    var base := PutAll([], config.defaultParams);
    var withQuery := Put(base, "query", Text(EffectiveQuery(config, query)));
    PutAllKeepsDistinct([], config.defaultParams);
    PutKeepsDistinct(base, "query", Text(EffectiveQuery(config, query)));
    PutAllKeepsDistinct(withQuery, options);
    PutAllGet([], config.defaultParams, k);
    PutAllGet(withQuery, options, k);
    PresentGet(MergedParams(config, query, options), k);
  }

  /** The three search queries of the static Twitter entry joined with " OR ". */
  const StaticQuery: string := "UNSA Police" + " OR " + "Loïc Walder" + " OR " + "@UNSAPOLICE"

  /** With two defaults, no query and no options, the parameters are the
      defaults followed by the joined search queries. */
  lemma MergedTwoDefaults(config: SourceConfig, a: (string, ParamValue), b: (string, ParamValue))
    requires config.defaultParams == [a, b]
    requires a.0 != b.0 && a.0 != "query" && b.0 != "query"
    ensures MergedParams(config, "", []) == [a, b, ("query", Text(Join(config.searchQueries, " OR ")))]
  {
    var q := ("query", Text(Join(config.searchQueries, " OR ")));
    var one := Put([], a.0, a.1);
    assert one == [a];
    PutNewAfterOne(a, b.0, b.1);
    assert [a, b][1..] == [b] && [b][1..] == [];
    assert PutAll([], [a, b]) == PutAll(one, [b]) == PutAll([a, b], []) == [a, b];
    PutNewAfterTwo(a, b, q.0, q.1);
  }

  lemma TwitterDefaults()
    ensures TwitterConfig.defaultParams ==
      [("max_results", Num(10)), ("tweet.fields", Text("created_at,author_id,public_metrics"))]
  {
  }

  lemma StaticMergedParams()
    ensures MergedParams(TwitterConfig, "", []) ==
      [("max_results", Num(10)), ("tweet.fields", Text("created_at,author_id,public_metrics")), ("query", Text(StaticQuery))]
  {
    TwitterDefaults();
    MergedTwoDefaults(TwitterConfig, ("max_results", Num(10)), ("tweet.fields", Text("created_at,author_id,public_metrics")));
    StaticSearchQuery();
  }

  /** With no query and no options, the static Twitter entry sends its two
      defaults and then its three search queries joined with " OR ". */
  lemma StaticTwitterParams()
    ensures RequestParams(TwitterConfig, "", []) ==
      [("max_results", "10"), ("tweet.fields", "created_at,author_id,public_metrics"), ("query", StaticQuery)]
  {
    StaticMergedParams();
    StaticPresent();
    assert RequestParams(TwitterConfig, "", []) == Present(MergedParams(TwitterConfig, "", []));
  }

  lemma StaticPresent()
    ensures Present([("max_results", Num(10)), ("tweet.fields", Text("created_at,author_id,public_metrics")), ("query", Text(StaticQuery))]) ==
      [("max_results", "10"), ("tweet.fields", "created_at,author_id,public_metrics"), ("query", StaticQuery)]
  {
    PresentOfThree(("max_results", Num(10)), ("tweet.fields", Text("created_at,author_id,public_metrics")), ("query", Text(StaticQuery)));
    TenAsText();
  }

  lemma PresentOfThree(a: (string, ParamValue), b: (string, ParamValue), c: (string, ParamValue))
    requires !a.1.Absent? && !b.1.Absent? && !c.1.Absent?
    ensures Present([a, b, c]) == [(a.0, Render(a.1)), (b.0, Render(b.1)), (c.0, Render(c.1))]
  {
    PresentCons(c, []);
    PresentCons(b, [c]);
    PresentCons(a, [b, c]);
    assert [a, b, c] == [a] + [b, c] && [b, c] == [b] + [c] && [c] == [c] + [];
  }

  lemma PresentCons(p: (string, ParamValue), rest: Dict<ParamValue>)
    requires !p.1.Absent?
    ensures Present([p] + rest) == [(p.0, Render(p.1))] + Present(rest)
  {
    assert ([p] + rest)[1..] == rest;
  }

  lemma TenAsText()
    ensures NatToString(10) == "10"
  {
    assert DigitChar(1) == '1' && DigitChar(0) == '0';
    assert NatToString(1) == "1";
  }

  lemma StaticSearchQuery()
    ensures Join(TwitterConfig.searchQueries, " OR ") == StaticQuery
  {
    TwitterQueries();
    JoinThree("UNSA Police", "Loïc Walder", "@UNSAPOLICE", " OR ");
  }

  lemma TwitterQueries()
    ensures TwitterConfig.searchQueries == ["UNSA Police", "Loïc Walder", "@UNSAPOLICE"]
  {
  }

  lemma JoinThree(a: string, b: string, c: string, sep: string)
    ensures Join([a, b, c], sep) == a + sep + b + sep + c
  {
    assert [a, b, c][1..] == [b, c];
    assert [b, c][1..] == [c];
    assert Join([b, c], sep) == b + sep + c;
    assert Join([a, b, c], sep) == a + sep + (b + sep + c);
  }

  // ---------------------------------------------------------------------
  // fetchRawData

  /** The request sent upstream: url, query parameters and headers. */
  datatype HttpRequest = HttpRequest(url: string, params: Dict<string>, headers: Dict<string>)

  /** The upstream reply: a body (`None` when it is null or not an object),
      a non-2xx status with its text, or a transport failure. */
  datatype UpstreamReply = Delivered(body: Option<Payload>) | HttpError(status: nat, text: string) | NetworkError(message: string)

  function SearchRequest(endpoint: string, config: SourceConfig, query: string, options: Dict<ParamValue>, auth: Dict<string>): HttpRequest
  {
    HttpRequest(endpoint, RequestParams(config, query, options), PutAll([("Content-Type", "application/json")], auth))
  }

  /** `fetchRawData(query, options)` against `server`. */
  function FetchRawData(config: SourceConfig, query: string, options: Dict<ParamValue>, env: Env,
                        server: HttpRequest -> UpstreamReply): (r: Result<Option<Payload>>)
    ensures Get(config.endpoints, "search").None? ==> r == Err("Invalid URL")
    ensures Get(config.endpoints, "search").Some? && AuthHeaders(SourceKey, config.auth, env).Err? ==>
      r == Err(AuthHeaders(SourceKey, config.auth, env).error)
    ensures Get(config.endpoints, "search").Some? && AuthHeaders(SourceKey, config.auth, env).Ok? ==>
      var reply := server(SearchRequest(Get(config.endpoints, "search").value, config, query, options,
                                        AuthHeaders(SourceKey, config.auth, env).value));
      (r.Ok? <==> reply.Delivered?) && (r.Ok? ==> r.value == reply.body)
      && (reply.HttpError? ==> r == Err("Twitter API error " + NatToString(reply.status) + ": " + reply.text))
  {
    match Get(config.endpoints, "search")
    case None => Err("Invalid URL")
    case Some(endpoint) =>
      match AuthHeaders(SourceKey, config.auth, env)
      case Err(e) => Err(e)
      case Ok(auth) =>
        match server(SearchRequest(endpoint, config, query, options, auth))
        case Delivered(body) => Ok(body)
        case HttpError(status, text) => Err("Twitter API error " + NatToString(status) + ": " + text)
        case NetworkError(message) => Err(message)
  }

  /** The static entry sends "Authorization: Bearer <token>" when the token is set. */
  lemma StaticTwitterAuth(env: Env)
    requires EnvToken(env, "TWITTER_BEARER_TOKEN").Some?
    ensures AuthHeaders(SourceKey, TwitterConfig.auth, env) ==
      Ok([("Authorization", "Bearer " + env["TWITTER_BEARER_TOKEN"])])
  {
  }
}
