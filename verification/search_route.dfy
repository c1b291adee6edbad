/**
 * The keyword search endpoint (`POST /api/search`): validates the keyword,
 * asks the Tavily search service once, and normalises its hits into
 * `SearchResult`s. The service's reply and the URL parser's hostname are
 * parameters; the run records the one outbound query, if any.
 */
module SearchRoute {
  import opened Wrappers
  import opened JsText
  import opened Types

  /** Results asked for when the body has no `limit`. */
  const DefaultLimit: int := 10

  /** The most characters kept from a hit's content. */
  const SnippetLength: nat := 200

  /** How many leading results start out selected. */
  const PreselectedCount: nat := 3

  const InvalidKeyword := "请输入有效的搜索关键词"
  const UntitledHit := "无标题"
  const UnknownSource := "未知来源"
  const SearchFailed := "搜索失败，请重试"

  /** The request body; `limit` is `None` when absent. */
  datatype SearchRequest = SearchRequest(keyword: Option<string>, limit: Option<int>)

  /** One hit as the service reports it; every field may be missing. */
  datatype TavilyItem = TavilyItem(
    title: Option<string>,
    content: Option<string>,
    url: Option<string>,
    source: Option<string>)

  /** What the service call yields: a thrown error with its message, or an HTTP reply whose body may lack `results`. */
  datatype TavilyReply =
    | TavilyThrown(message: Option<string>)
    | TavilyReplied(status: nat, results: Option<seq<TavilyItem>>)

  /** The outbound query: the search text and the result count asked for. */
  datatype TavilyQuery = TavilyQuery(query: string, maxResults: int)

  datatype SearchResponse =
    | Found(results: seq<SearchResult>, total: nat)
    | Failed(status: nat, error: string)

  /** The response and the outbound queries made to produce it. */
  datatype SearchRun = SearchRun(response: SearchResponse, queries: seq<TavilyQuery>)

  /** The keyword is usable: present, non-empty, and at least two characters once trimmed. */
  predicate ValidKeyword(keyword: Option<string>) {
    Truthy(keyword) && |Trim(keyword.value)| >= 2
  }

  /** The search text sent upstream: the keyword followed by fixed market-research terms. */
  function QueryText(keyword: string): (q: string)
    ensures keyword <= q
    ensures q[|keyword|..] == " 趋势 机会 市场 产品"
  {
    keyword + " 趋势 机会 市场 产品"
  }

  /**
   * `extractDomain`: the hostname with its first `www.` removed, or `未知来源`
   * when the URL does not parse (a missing URL does not parse either).
   */
  function ExtractDomain(url: Option<string>, hostOf: string -> Option<string>): (d: string)
    ensures url.None? ==> d == UnknownSource
    ensures url.Some? && hostOf(url.value).None? ==> d == UnknownSource
    ensures url.Some? && hostOf(url.value).Some? ==> |d| <= |hostOf(url.value).value|
  {
    match url
    case None => UnknownSource
    case Some(u) =>
      match hostOf(u)
      case None => UnknownSource
      case Some(h) => ReplaceFirst(h, "www.", "")
  }

  /** A hostname starting with `www.` loses exactly that prefix. */
  lemma ExtractDomainStripsLeadingWww(url: string, hostOf: string -> Option<string>)
    requires hostOf(url).Some? && "www." <= hostOf(url).value
    ensures ExtractDomain(Some(url), hostOf) == hostOf(url).value[4..]
  {
    var h := hostOf(url).value;
    assert OccursAt(h, "www.", 0);
  }

  /** A hostname without `www.` anywhere is returned unchanged. */
  lemma ExtractDomainKeepsPlainHost(url: string, hostOf: string -> Option<string>)
    requires hostOf(url).Some?
    requires forall k :: !OccursAt(hostOf(url).value, "www.", k)
    ensures ExtractDomain(Some(url), hostOf) == hostOf(url).value
  {
  }

  /**
   * The first `www.` is removed wherever it occurs, not only at the front:
   * a hostname `a` + `www.` + `b` whose `a` holds no `www.` becomes `a` + `b`.
   */
  lemma ExtractDomainRemovesInnerWww(url: string, hostOf: string -> Option<string>, a: string, b: string)
    requires hostOf(url) == Some(a + "www." + b)
    requires forall k | 0 <= k <= |a| :: !OccursAt(a + "www." + b, "www.", k) || k == |a|
    ensures ExtractDomain(Some(url), hostOf) == a + b
  {
    var h := a + "www." + b;
    assert OccursAt(h, "www.", |a|) by {
      assert h[|a|..|a| + 4] == "www.";
    }
    assert h[..|a|] == a;
    assert h[|a| + 4..] == b;
  }

  /** The `SearchResult` for hit `i` (0-based) of the upstream list. */
  function NormaliseHit(i: nat, item: TavilyItem, hostOf: string -> Option<string>): (r: SearchResult)
    ensures r.id == "result-" + NatToString(i + 1)
    ensures r.title != ""
    ensures Truthy(item.title) ==> r.title == item.title.value
    ensures !Truthy(item.title) ==> r.title == UntitledHit
    ensures |r.snippet| <= SnippetLength
    ensures item.content.Some? ==> r.snippet <= item.content.value
    ensures item.content.Some? ==>
      r.snippet == item.content.value[..if |item.content.value| < SnippetLength then |item.content.value| else SnippetLength]
    ensures item.content.None? ==> r.snippet == ""
    ensures r.url == Or(item.url, "")
    ensures Truthy(item.source) ==> r.source == item.source.value
    ensures !Truthy(item.source) ==> r.source == ExtractDomain(item.url, hostOf)
    ensures r.selected == Some(i < PreselectedCount)
  {
    var snippet := if item.content.Some? then Slice(item.content.value, Some(0), Some(SnippetLength)) else "";
    SlicePrefix(if item.content.Some? then item.content.value else "", SnippetLength);
    SearchResult(
      "result-" + NatToString(i + 1),
      Or(item.title, UntitledHit),
      snippet,
      Or(item.url, ""),
      if Truthy(item.source) then item.source.value else ExtractDomain(item.url, hostOf),
      Some(i < PreselectedCount))
  }

  /** The `map` over the upstream hits: one result per hit, in the same order, each normalised at its own index. */
  function Normalise(items: seq<TavilyItem>, hostOf: string -> Option<string>): (rs: seq<SearchResult>)
    ensures |rs| == |items|
    ensures forall i | 0 <= i < |rs| :: rs[i] == NormaliseHit(i, items[i], hostOf)
  {
    seq(|items|, i requires 0 <= i < |items| => NormaliseHit(i, items[i], hostOf))
  }

  /** Result ids are pairwise distinct. */
  lemma NormalisedIdsDistinct(items: seq<TavilyItem>, hostOf: string -> Option<string>)
    ensures var rs := Normalise(items, hostOf);
      forall i, j | 0 <= i < j < |rs| :: rs[i].id != rs[j].id
  {
    var rs := Normalise(items, hostOf);
    forall i, j | 0 <= i < j < |rs|
      ensures rs[i].id != rs[j].id
    {
      if rs[i].id == rs[j].id {
        var p := "result-";
        assert NatToString(i + 1) == rs[i].id[|p|..];
        assert NatToString(j + 1) == rs[j].id[|p|..];
        NatToStringInjective(i + 1, j + 1);
      }
    }
  }

  /** How many results are selected. */
  function SelectedCount(rs: seq<SearchResult>): nat {
    if |rs| == 0 then 0 else (if IsSelected(rs[0]) then 1 else 0) + SelectedCount(rs[1..])
  }

  /** In a list whose selected entries are exactly the first three, a suffix counts its positions below three. */
  lemma {:induction false} SelectedCountFrom(rs: seq<SearchResult>, from: nat)
    requires from <= |rs|
    requires forall i | 0 <= i < |rs| :: IsSelected(rs[i]) <==> i < PreselectedCount
    ensures SelectedCount(rs[from..])
         == if from >= PreselectedCount then 0
            else (if |rs| < PreselectedCount then |rs| else PreselectedCount) - from
    decreases |rs| - from
  {
    if from < |rs| {
      SelectedCountFrom(rs, from + 1);
      assert rs[from..][1..] == rs[from + 1..];
    }
  }

  /** Exactly the first three results, or all of them when fewer, start out selected. */
  lemma PreselectsFirstThree(items: seq<TavilyItem>, hostOf: string -> Option<string>)
    ensures SelectedCount(Normalise(items, hostOf))
         == if |items| < PreselectedCount then |items| else PreselectedCount
  {
    var rs := Normalise(items, hostOf);
    SelectedCountFrom(rs, 0);
    assert rs[0..] == rs;
  }

  /** `POST /api/search`. */
  function Post(req: SearchRequest, reply: TavilyReply, hostOf: string -> Option<string>): (run: SearchRun)
    ensures !ValidKeyword(req.keyword) <==> run.queries == []
    ensures !ValidKeyword(req.keyword) ==> run.response == Failed(400, InvalidKeyword)
    ensures ValidKeyword(req.keyword) ==>
      run.queries == [TavilyQuery(QueryText(req.keyword.value), req.limit.GetOr(DefaultLimit))]
    ensures run.response.Found? <==> ValidKeyword(req.keyword) && reply.TavilyReplied? && 200 <= reply.status < 300
    ensures run.response.Found? ==> run.response.total == |run.response.results|
    ensures run.response.Found? ==>
      run.response.results == Normalise(reply.results.GetOr([]), hostOf)
    ensures run.response.Failed? && ValidKeyword(req.keyword) ==> run.response.status == 500
    ensures ValidKeyword(req.keyword) && reply.TavilyReplied? && !(200 <= reply.status < 300) ==>
      run.response.error == "Tavily API错误: " + NatToString(reply.status)
    ensures ValidKeyword(req.keyword) && reply.TavilyThrown? ==>
      run.response.error == Or(reply.message, SearchFailed)
  {
    if !ValidKeyword(req.keyword) then SearchRun(Failed(400, InvalidKeyword), [])
    else
      var query := TavilyQuery(QueryText(req.keyword.value), req.limit.GetOr(DefaultLimit));
      var response :=
        match reply
        case TavilyThrown(message) => Failed(500, Or(message, SearchFailed))
        case TavilyReplied(status, results) =>
          if !(200 <= status < 300) then Failed(500, "Tavily API错误: " + NatToString(status))
          else
            var rs := Normalise(results.GetOr([]), hostOf);
            Found(rs, |rs|);
      SearchRun(response, [query])
  }
}
