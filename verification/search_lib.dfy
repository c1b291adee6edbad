/**
 * The web-search helpers: the Bing and Brave clients, the provider choice
 * between them, and the plain-text rendering of results handed to the
 * language model. Environment keys, the providers' replies and the URL
 * parser's hostname are parameters; each run records the provider it called.
 */
module SearchLib {
  import opened Wrappers
  import opened JsText

  /** A result as these helpers return it (no id, no selection flag). */
  datatype Hit = Hit(title: string, snippet: string, url: string, source: string)

  /** One Bing web page. */
  datatype BingPage = BingPage(name: string, snippet: string, url: string, displayUrl: string)

  /** One Brave web result. */
  datatype BraveItem = BraveItem(title: string, description: string, url: string)

  /** The environment variables consulted. */
  datatype SearchEnv = SearchEnv(bingKey: Option<string>, braveKey: Option<string>)

  /**
   * A provider's answer: a thrown error with its message, or an HTTP reply
   * whose body may lack the result list (`webPages.value` for Bing,
   * `web.results` for Brave).
   */
  datatype ProviderReply<T> =
    | ProviderThrown(message: string)
    | ProviderReplied(status: nat, items: Option<seq<T>>)

  /** Why a search failed: an error with its message, or a Brave result URL the URL parser rejects. */
  datatype SearchError = Thrown(message: string) | UnparsableUrl(url: string)

  datatype Provider = Bing | Brave

  /** The outcome and the providers called, in order. */
  datatype SearchRun = SearchRun(result: Result<seq<Hit>, SearchError>, calls: seq<Provider>)

  predicate IsOk(status: nat) {
    200 <= status < 300
  }

  // ---------------------------------------------------------------------------
  // Bing

  /** The Bing mapping: name as title, display URL as source, one hit per page in order. */
  function BingHits(pages: seq<BingPage>): (hs: seq<Hit>)
    ensures |hs| == |pages|
    ensures forall i | 0 <= i < |hs| ::
      hs[i] == Hit(pages[i].name, pages[i].snippet, pages[i].url, pages[i].displayUrl)
  {
    if |pages| == 0 then []
    else [Hit(pages[0].name, pages[0].snippet, pages[0].url, pages[0].displayUrl)] + BingHits(pages[1..])
  }

  /** `searchWithBing`: needs the key, then one request; a missing page list reads as no results. */
  function SearchWithBing(env: SearchEnv, reply: ProviderReply<BingPage>): (run: SearchRun)
    ensures !Truthy(env.bingKey) ==> run == SearchRun(Err(Thrown("BING_API_KEY is not configured")), [])
    ensures Truthy(env.bingKey) ==> run.calls == [Bing]
    ensures run.result.Ok? <==> Truthy(env.bingKey) && reply.ProviderReplied? && IsOk(reply.status)
    ensures run.result.Ok? ==> run.result.value == BingHits(reply.items.GetOr([]))
    ensures Truthy(env.bingKey) && reply.ProviderReplied? && !IsOk(reply.status) ==>
      run.result == Err(Thrown("Bing API error: " + NatToString(reply.status)))
    ensures Truthy(env.bingKey) && reply.ProviderThrown? ==> run.result == Err(Thrown(reply.message))
  {
    if !Truthy(env.bingKey) then SearchRun(Err(Thrown("BING_API_KEY is not configured")), [])
    else
      var result :=
        match reply
        case ProviderThrown(m) => Err(Thrown(m))
        case ProviderReplied(status, items) =>
          if !IsOk(status) then Err(Thrown("Bing API error: " + NatToString(status)))
          else Ok(BingHits(items.GetOr([])));
      SearchRun(result, [Bing])
  }

  // ---------------------------------------------------------------------------
  // Brave

  /**
   * The Brave mapping: description as snippet, the URL's hostname as source.
   * The first URL the parser rejects aborts the whole mapping.
   */
  function BraveHits(items: seq<BraveItem>, hostOf: string -> Option<string>): (r: Result<seq<Hit>, SearchError>)
    ensures r.Ok? <==> forall i | 0 <= i < |items| :: hostOf(items[i].url).Some?
    ensures r.Ok? ==> |r.value| == |items|
    ensures r.Ok? ==> forall i | 0 <= i < |items| ::
      r.value[i] == Hit(items[i].title, items[i].description, items[i].url, hostOf(items[i].url).value)
    ensures r.Err? ==> exists i | 0 <= i < |items| ::
      r.error == UnparsableUrl(items[i].url) && hostOf(items[i].url).None?
        && forall j | 0 <= j < i :: hostOf(items[j].url).Some?
  {
    if |items| == 0 then Ok([])
    else
      match hostOf(items[0].url)
      case None =>
        Err(UnparsableUrl(items[0].url))
      case Some(host) =>
        var tail := items[1..];
        var rest := BraveHits(tail, hostOf);
        if rest.Err? then
          var i :| 0 <= i < |tail| && rest.error == UnparsableUrl(tail[i].url)
            && hostOf(tail[i].url).None? && forall j | 0 <= j < i :: hostOf(tail[j].url).Some?;
          assert items[i + 1] == tail[i];
          assert forall j | 0 <= j < i + 1 :: hostOf(items[j].url).Some? by {
            forall j | 0 <= j < i + 1 ensures hostOf(items[j].url).Some? {
              if j > 0 { assert items[j] == tail[j - 1]; }
            }
          }
          Err(rest.error)
        else
          var hits := [Hit(items[0].title, items[0].description, items[0].url, host)] + rest.value;
          assert forall i | 0 < i < |items| :: items[i] == tail[i - 1] && hits[i] == rest.value[i - 1];
          Ok(hits)
  }

  /** `searchWithBrave`: needs the key, then one request; a missing result list reads as no results. */
  function SearchWithBrave(env: SearchEnv, reply: ProviderReply<BraveItem>, hostOf: string -> Option<string>): (run: SearchRun)
    ensures !Truthy(env.braveKey) ==> run == SearchRun(Err(Thrown("BRAVE_API_KEY is not configured")), [])
    ensures Truthy(env.braveKey) ==> run.calls == [Brave]
    ensures Truthy(env.braveKey) && reply.ProviderReplied? && IsOk(reply.status) ==>
      run.result == BraveHits(reply.items.GetOr([]), hostOf)
    ensures Truthy(env.braveKey) && reply.ProviderReplied? && !IsOk(reply.status) ==>
      run.result == Err(Thrown("Brave API error: " + NatToString(reply.status)))
    ensures Truthy(env.braveKey) && reply.ProviderThrown? ==> run.result == Err(Thrown(reply.message))
  {
    if !Truthy(env.braveKey) then SearchRun(Err(Thrown("BRAVE_API_KEY is not configured")), [])
    else
      var result :=
        match reply
        case ProviderThrown(m) => Err(Thrown(m))
        case ProviderReplied(status, items) =>
          if !IsOk(status) then Err(Thrown("Brave API error: " + NatToString(status)))
          else BraveHits(items.GetOr([]), hostOf);
      SearchRun(result, [Brave])
  }

  // ---------------------------------------------------------------------------
  // Provider choice

  /** `search`: Bing when its key is set, else Brave when its key is set, else an error; never both. */
  function Search(env: SearchEnv, bing: ProviderReply<BingPage>, brave: ProviderReply<BraveItem>,
                  hostOf: string -> Option<string>): (run: SearchRun)
    ensures |run.calls| <= 1
    ensures Truthy(env.bingKey) ==> run == SearchWithBing(env, bing)
    ensures !Truthy(env.bingKey) && Truthy(env.braveKey) ==> run == SearchWithBrave(env, brave, hostOf)
    ensures !Truthy(env.bingKey) && !Truthy(env.braveKey) ==>
      run == SearchRun(Err(Thrown("No search API configured")), [])
    ensures run.calls == [Bing] <==> Truthy(env.bingKey)
    ensures run.calls == [Brave] <==> !Truthy(env.bingKey) && Truthy(env.braveKey)
  {
    if Truthy(env.bingKey) then SearchWithBing(env, bing)
    else if Truthy(env.braveKey) then SearchWithBrave(env, brave, hostOf)
    else SearchRun(Err(Thrown("No search API configured")), [])
  }

  // ---------------------------------------------------------------------------
  // Text rendering

  /** Hit number `n` (1-based) as a block of three lines: number and bracketed title, snippet, source. */
  function Entry(n: nat, h: Hit): string {
    NatToString(n) + ". 【" + h.title + "】\n   " + h.snippet + "\n   来源: " + h.source
  }

  /** The numbered blocks, one per hit, in order. */
  function Entries(hits: seq<Hit>): (es: seq<string>)
    ensures |es| == |hits|
    ensures forall i | 0 <= i < |hits| :: es[i] == Entry(i + 1, hits[i])
  {
    seq(|hits|, i requires 0 <= i < |hits| => Entry(i + 1, hits[i]))
  }

  /** `formatSearchResults`: the blocks separated by blank lines, so every hit's block is in the text. */
  function FormatSearchResults(hits: seq<Hit>): (r: string)
    ensures forall i | 0 <= i < |hits| :: Contains(r, Entry(i + 1, hits[i]))
  {
    JoinContainsEach(Entries(hits), "\n\n");
    Join(Entries(hits), "\n\n")
  }

  /** Every line break in `s` is followed by a space inside `s`. */
  predicate NewlinesIndented(s: string) {
    forall k | 0 <= k < |s| && s[k] == '\n' :: k + 1 < |s| && s[k + 1] == ' '
  }

  lemma IndentedConcat(a: string, b: string)
    requires NewlinesIndented(a) && NewlinesIndented(b)
    ensures NewlinesIndented(a + b)
  {
    var s := a + b;
    forall k | 0 <= k < |s| && s[k] == '\n' ensures k + 1 < |s| && s[k + 1] == ' ' {
      if k < |a| {
        assert a[k] == '\n';
      } else {
        assert b[k - |a|] == '\n';
      }
    }
  }

  lemma NoNewlineIndented(s: string)
    requires '\n' !in s
    ensures NewlinesIndented(s)
  {
  }

  /** Text whose line breaks are all indented holds no blank line, so cannot contain the separator. */
  lemma IndentedSeparatorFree(x: string)
    requires NewlinesIndented(x)
    ensures SeparatorFree(x, "\n\n")
  {
    var t := x + "\n\n";
    forall k | 0 <= k < |x| ensures !OccursAt(t, "\n\n", k) {
      assert t[k] == x[k];
      if x[k] == '\n' {
        assert t[k + 1] == x[k + 1] == ' ';
      }
    }
  }

  /** A block built from single-line fields holds no blank line. */
  lemma EntryIndented(n: nat, h: Hit)
    requires '\n' !in h.title && '\n' !in h.snippet && '\n' !in h.source
    ensures NewlinesIndented(Entry(n, h))
  {
    var d := NatToString(n);
    assert '\n' !in d by {
      forall k | 0 <= k < |d| ensures d[k] != '\n' {
        assert '0' <= d[k] <= '9';
      }
    }
    var l1: string := ". 【";
    var l2: string := "】\n   ";
    var l3: string := "\n   来源: ";
    assert NewlinesIndented(l2) by {
      assert l2[1] == '\n' && l2[2] == ' ';
      assert forall k | 0 <= k < |l2| && k != 1 :: l2[k] != '\n';
    }
    assert NewlinesIndented(l3) by {
      assert l3[0] == '\n' && l3[1] == ' ';
      assert forall k | 1 <= k < |l3| :: l3[k] != '\n';
    }
    NoNewlineIndented(d);
    NoNewlineIndented(l1);
    NoNewlineIndented(h.title);
    NoNewlineIndented(h.snippet);
    NoNewlineIndented(h.source);
    IndentedConcat(d, l1);
    IndentedConcat(d + l1, h.title);
    IndentedConcat(d + l1 + h.title, l2);
    IndentedConcat(d + l1 + h.title + l2, h.snippet);
    IndentedConcat(d + l1 + h.title + l2 + h.snippet, l3);
    IndentedConcat(d + l1 + h.title + l2 + h.snippet + l3, h.source);
  }

  /**
   * When no title, snippet or source has a line break, splitting the text at
   * blank lines gives back exactly the numbered blocks: one per hit, in
   * order, so `n` hits are separated by exactly `n - 1` blank lines.
   */
  lemma FormatSplitsIntoEntries(hits: seq<Hit>)
    requires |hits| >= 1
    requires forall i | 0 <= i < |hits| ::
      '\n' !in hits[i].title && '\n' !in hits[i].snippet && '\n' !in hits[i].source
    ensures Split(FormatSearchResults(hits), "\n\n") == Entries(hits)
  {
    var es := Entries(hits);
    forall i | 0 <= i < |es| ensures SeparatorFree(es[i], "\n\n") {
      EntryIndented(i + 1, hits[i]);
      IndentedSeparatorFree(es[i]);
    }
    SplitJoin(es, "\n\n");
  }

  /** No hits render as the empty text; one hit renders as its block alone. */
  lemma FormatSmallCases(h: Hit)
    ensures FormatSearchResults([]) == ""
    ensures FormatSearchResults([h]) == Entry(1, h)
  {
    assert Entries([h]) == [Entry(1, h)];
  }
}
