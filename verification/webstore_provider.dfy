/** app_list::WebstoreProvider: the launcher's web store search. A query of
    at least three UTF-8 bytes shows a "search in the web store" placeholder
    and starts a (throttled) JSON search; when results arrive, the first
    valid one replaces the placeholder and the rest follow in order. Answers
    are cached per query. */
module WebstoreProvider {
  import opened Wrappers
  import opened Json

  const KeyResults: string := "results"
  const KeyId: string := "id"
  const KeyLocalizedName: string := "localized_name"
  const KeyIconUrl: string := "icon_url"
  const MinimumQueryLength: nat := 3

  datatype SearchResult =
    | SearchWebstorePlaceholder(query: string)
    | WebstoreResult(appId: string, localizedName: string, iconUrl: string)

  /** Bytes in the UTF-8 encoding of one code point. */
  function Utf8Width(c: char): (n: nat)
    ensures 1 <= n <= 4
  {
    if c as int < 0x80 then 1
    else if c as int < 0x800 then 2
    else if c as int < 0x10000 then 3
    else 4
  }

  /** Bytes in the UTF-8 encoding of a string. */
  function Utf8Length(s: string): (n: nat)
    ensures |s| <= n <= 4 * |s|
  {
    if s == [] then 0 else Utf8Width(s[0]) + Utf8Length(s[1..])
  }

  /** CreateResult: a result only from a dictionary holding string id,
      localized_name and icon_url, with an icon URL that parses. */
  function CreateResult(entry: Value, isValidUrl: string -> bool): (r: Option<SearchResult>)
    ensures r.Some? <==> HasString(entry, KeyId) && HasString(entry, KeyLocalizedName)
                         && HasString(entry, KeyIconUrl) && isValidUrl(GetString(entry, KeyIconUrl))
    ensures r.Some? ==> r.value == WebstoreResult(GetString(entry, KeyId), GetString(entry, KeyLocalizedName),
                                                  GetString(entry, KeyIconUrl))
  {
    if !HasString(entry, KeyId) || !HasString(entry, KeyLocalizedName) || !HasString(entry, KeyIconUrl) then None
    else if !isValidUrl(GetString(entry, KeyIconUrl)) then None
    else Some(WebstoreResult(GetString(entry, KeyId), GetString(entry, KeyLocalizedName),
                             GetString(entry, KeyIconUrl)))
  }

  /** The results the valid entries make, in list order. */
  function CreateResults(entries: seq<Value>, isValidUrl: string -> bool): (rs: seq<SearchResult>)
    ensures |rs| <= |entries|
    ensures forall k :: 0 <= k < |rs| ==> rs[k].WebstoreResult? && isValidUrl(rs[k].iconUrl)
  {
    if entries == [] then []
    else
      var rest := CreateResults(entries[1..], isValidUrl);
      match CreateResult(entries[0], isValidUrl)
      case Some(r) => [r] + rest
      case None => rest
  }

  /** Each entry is judged on its own. */
  lemma {:induction false} CreateResultsAppend(a: seq<Value>, b: seq<Value>, isValidUrl: string -> bool)
    ensures CreateResults(a + b, isValidUrl) == CreateResults(a, isValidUrl) + CreateResults(b, isValidUrl)
  {
    if a == [] {
      assert a + b == b;
    } else {
      assert (a + b)[0] == a[0];
      assert (a + b)[1..] == a[1..] + b;
      CreateResultsAppend(a[1..], b, isValidUrl);
    }
  }

  /** The non-empty "results" list of a search answer, when it has one. */
  function ResultList(json: Option<Value>): (r: Option<seq<Value>>)
    ensures r.Some? ==> r.value != []
  {
    if json.Some? && json.value.Dictionary? && KeyResults in json.value.fields
       && json.value.fields[KeyResults].List? && json.value.fields[KeyResults].items != []
    then Some(json.value.fields[KeyResults].items)
    else None
  }

  /** What processing an answer does to the result list `before`: nothing
      without a usable list or without a valid entry; otherwise the valid
      entries' results replace everything. */
  function Processed(before: seq<SearchResult>, json: Option<Value>, isValidUrl: string -> bool)
    : seq<SearchResult>
  {
    var list := ResultList(json);
    if list.None? then before
    else
      var created := CreateResults(list.value, isValidUrl);
      if created == [] then before else created
  }

  /** Processing the same answer twice is processing it once, and once a
      valid result has arrived no placeholder is left. */
  lemma ProcessedProperties(before: seq<SearchResult>, json: Option<Value>, isValidUrl: string -> bool)
    ensures Processed(Processed(before, json, isValidUrl), json, isValidUrl) == Processed(before, json, isValidUrl)
    ensures ResultList(json).None? ==> Processed(before, json, isValidUrl) == before
    ensures Processed(before, json, isValidUrl) != before ==>
      forall k :: 0 <= k < |Processed(before, json, isValidUrl)| ==>
        Processed(before, json, isValidUrl)[k].WebstoreResult?
  {
  }

  class Provider {
    /** The current query; "" when there is none. */
    var query: string
    /** The provider's results as the launcher shows them. */
    var results: seq<SearchResult>
    /** Answers by query. */
    var cache: map<string, Value>
    var hasFetcher: bool
    /** A throttled StartQuery is pending. */
    var queryScheduled: bool
    /** The queries sent to the web store, oldest first. */
    var fetches: seq<string>
    const hasFetchedCallback: bool
    var callbackRuns: nat

    constructor (hasFetchedCallback: bool)
      ensures query == [] && results == [] && cache == map[] && !hasFetcher && !queryScheduled
      ensures fetches == [] && callbackRuns == 0 && this.hasFetchedCallback == hasFetchedCallback
    {
      query := [];
      results := [];
      cache := map[];
      hasFetcher := false;
      queryScheduled := false;
      fetches := [];
      this.hasFetchedCallback := hasFetchedCallback;
      callbackRuns := 0;
    }

    /** ProcessWebstoreSearchResults. */
    method ProcessWebstoreSearchResults(json: Option<Value>, isValidUrl: string -> bool)
      modifies this
      ensures results == Processed(old(results), json, isValidUrl)
      ensures query == old(query) && cache == old(cache) && hasFetcher == old(hasFetcher)
      ensures queryScheduled == old(queryScheduled) && fetches == old(fetches) && callbackRuns == old(callbackRuns)
    {
      var list := ResultList(json);
      if list.None? {
        return;
      }
      var entries := list.value;
      var firstResult := true;
      var i := 0;
      while i < |entries|
        invariant 0 <= i <= |entries|
        invariant firstResult <==> CreateResults(entries[..i], isValidUrl) == []
        invariant firstResult ==> results == old(results)
        invariant !firstResult ==> results == CreateResults(entries[..i], isValidUrl)
        invariant query == old(query) && cache == old(cache) && hasFetcher == old(hasFetcher)
        invariant queryScheduled == old(queryScheduled) && fetches == old(fetches)
        invariant callbackRuns == old(callbackRuns)
      {
        assert entries[..i + 1] == entries[..i] + [entries[i]];
        CreateResultsAppend(entries[..i], [entries[i]], isValidUrl);
        var result := CreateResult(entries[i], isValidUrl);
        if result.Some? {
          if firstResult {
            results := [];
            firstResult := false;
          }
          results := results + [result.value];
        }
        i := i + 1;
      }
      assert entries[..i] == entries;
    }

    /** Start. `sensitive` is IsSensitiveInput(text); `fetchAllowed` says the
        field trial and the suggest preference both allow web store
        search. */
    method Start(text: string, sensitive: bool, fetchAllowed: bool, isValidUrl: string -> bool)
      modifies this
      // Too sensitive or too short: no query and no result at all.
      ensures sensitive || Utf8Length(text) < MinimumQueryLength ==>
        && query == [] && results == []
        && hasFetcher == old(hasFetcher) && queryScheduled == old(queryScheduled)
        && callbackRuns == old(callbackRuns)
      // A cached answer is shown at once, without placeholder or fetch.
      ensures !sensitive && Utf8Length(text) >= MinimumQueryLength && text in old(cache) ==>
        && query == text
        && results == Processed([], Some(old(cache)[text]), isValidUrl)
        && hasFetcher == old(hasFetcher) && queryScheduled == old(queryScheduled)
        && callbackRuns == old(callbackRuns) + (if hasFetchedCallback then 1 else 0)
      // Otherwise the placeholder appears and, when allowed, a search is
      // scheduled.
      ensures !sensitive && Utf8Length(text) >= MinimumQueryLength && text !in old(cache) ==>
        && query == text
        && results == [SearchWebstorePlaceholder(text)]
        && hasFetcher == (old(hasFetcher) || fetchAllowed)
        && queryScheduled == (old(queryScheduled) || fetchAllowed)
        && callbackRuns == old(callbackRuns)
      ensures cache == old(cache) && fetches == old(fetches)
    {
      results := [];
      if sensitive {
        query := [];
        return;
      }
      if Utf8Length(text) < MinimumQueryLength {
        query := [];
        return;
      }
      query := text;
      if text in cache {
        ProcessWebstoreSearchResults(Some(cache[text]), isValidUrl);
        if hasFetchedCallback {
          callbackRuns := callbackRuns + 1;
        }
        return;
      }
      if fetchAllowed {
        if !hasFetcher {
          hasFetcher := true;
        }
        queryScheduled := true;
      }
      results := results + [SearchWebstorePlaceholder(text)];
    }

    /** StartQuery, when the throttle fires: a search for the current
        query, unless there is no fetcher or the query was cancelled. */
    method StartQuery()
      modifies this
      ensures !queryScheduled
      ensures fetches == if old(hasFetcher) && old(query) != [] then old(fetches) + [old(query)] else old(fetches)
      ensures query == old(query) && results == old(results) && cache == old(cache)
      ensures hasFetcher == old(hasFetcher) && callbackRuns == old(callbackRuns)
    {
      queryScheduled := false;
      if !hasFetcher || query == [] {
        return;
      }
      fetches := fetches + [query];
    }

    /** OnWebstoreSearchFetched: show the answer, cache it under the current
        query (a missing answer leaves that query uncached) and tell the
        observer. */
    method OnWebstoreSearchFetched(json: Option<Value>, isValidUrl: string -> bool)
      modifies this
      ensures results == Processed(old(results), json, isValidUrl)
      ensures cache == if json.Some? then old(cache)[old(query) := json.value] else old(cache) - {old(query)}
      ensures callbackRuns == old(callbackRuns) + (if hasFetchedCallback then 1 else 0)
      ensures query == old(query) && hasFetcher == old(hasFetcher)
      ensures queryScheduled == old(queryScheduled) && fetches == old(fetches)
    {
      ProcessWebstoreSearchResults(json, isValidUrl);
      if json.Some? {
        cache := cache[query := json.value];
      } else {
        cache := cache - {query};
      }
      if hasFetchedCallback {
        callbackRuns := callbackRuns + 1;
      }
    }
  }

  /** A query is searched only from three UTF-8 bytes on: two ASCII
      letters are too short, while one three-byte character is enough. */
  lemma QueryLengthExamples()
    ensures Utf8Length("ab") < MinimumQueryLength
    ensures Utf8Length("abc") >= MinimumQueryLength
    ensures Utf8Length("中") >= MinimumQueryLength
  {
    assert "ab"[1..] == "b";
    assert "abc"[1..] == "bc";
    assert "bc"[1..] == "c";
  }
}
