/** chrome_variations::VariationsService: chooses the channel and reference
    date for field trials, builds the seed server URL, gates seed fetches on
    the resource-request notifier and keeps the bookkeeping of fetch
    completions. Times are base::Time internal values, 0 standing for the
    null time. */
module VariationsService {
  import opened Wrappers
  import opened Strings

  // ---------------------------------------------------------------------------
  // Channel

  /** chrome::VersionInfo::Channel. */
  datatype BrowserChannel = ChannelUnknown | ChannelCanary | ChannelDev | ChannelBeta | ChannelStable

  /** Study_Channel. */
  datatype StudyChannel = StudyCanary | StudyDev | StudyBeta | StudyStable | StudyUnknown

  /** The value of the fake-channel switch that selects a study channel. */
  function ForcedChannelName(c: StudyChannel): string
  {
    match c
    case StudyStable => "stable"
    case StudyBeta => "beta"
    case StudyDev => "dev"
    case StudyCanary => "canary"
    case StudyUnknown => ""
  }

  /** GetChannelForVariations: the browser's channel when known, else the
      channel the fake-channel switch names exactly, else unknown. */
  function GetChannelForVariations(browser: BrowserChannel, forcedChannel: string): (r: StudyChannel)
    ensures browser != ChannelUnknown ==> r != StudyUnknown
  {
    match browser
    case ChannelCanary => StudyCanary
    case ChannelDev => StudyDev
    case ChannelBeta => StudyBeta
    case ChannelStable => StudyStable
    case ChannelUnknown =>
      if forcedChannel == "stable" then StudyStable
      else if forcedChannel == "beta" then StudyBeta
      else if forcedChannel == "dev" then StudyDev
      else if forcedChannel == "canary" then StudyCanary
      else StudyUnknown
  }

  /** With no known browser channel the switch names every study channel
      by its own name, and only those four names select one. */
  lemma ForcedChannelRoundTrip(c: StudyChannel, forced: string)
    ensures c != StudyUnknown ==> GetChannelForVariations(ChannelUnknown, ForcedChannelName(c)) == c
    ensures GetChannelForVariations(ChannelUnknown, forced) != StudyUnknown <==>
      forced in {"stable", "beta", "dev", "canary"}
    ensures GetChannelForVariations(ChannelUnknown, forced) != StudyUnknown ==>
      ForcedChannelName(GetChannelForVariations(ChannelUnknown, forced)) == forced
  {
  }

  /** A known browser channel ignores the switch, and distinct channels
      give distinct study channels. */
  lemma {:induction false} BrowserChannelWins(a: BrowserChannel, b: BrowserChannel, forced1: string, forced2: string)
    requires a != ChannelUnknown && b != ChannelUnknown
    ensures GetChannelForVariations(a, forced1) == GetChannelForVariations(a, forced2)
    ensures GetChannelForVariations(a, forced1) == GetChannelForVariations(b, forced2) <==> a == b
  {
  }

  // ---------------------------------------------------------------------------
  // Resource-request histogram

  /** ResourceRequestAllowedNotifier::State. */
  datatype NotifierState = Allowed | DisallowedEulaNotAccepted | DisallowedNetworkDown | DisallowedCommandLineDisabled

  /** ResourceRequestsAllowedState, in declaration order. */
  datatype RequestsAllowedState =
    | ResourceRequestsAllowed
    | ResourceRequestsNotAllowed
    | ResourceRequestsAllowedNotified
    | ResourceRequestsNotAllowedEulaNotAccepted
    | ResourceRequestsNotAllowedNetworkDown
    | ResourceRequestsNotAllowedCommandLineDisabled

  const RequestsAllowedEnumSize: nat := 6

  /** The recorded enumeration value. */
  function HistogramValue(s: RequestsAllowedState): (v: nat)
    ensures v < RequestsAllowedEnumSize
  {
    match s
    case ResourceRequestsAllowed => 0
    case ResourceRequestsNotAllowed => 1
    case ResourceRequestsAllowedNotified => 2
    case ResourceRequestsNotAllowedEulaNotAccepted => 3
    case ResourceRequestsNotAllowedNetworkDown => 4
    case ResourceRequestsNotAllowedCommandLineDisabled => 5
  }

  function ResourceRequestStateToHistogramValue(state: NotifierState): (r: RequestsAllowedState)
    ensures r == ResourceRequestsAllowed <==> state == Allowed
    ensures r != ResourceRequestsNotAllowed && r != ResourceRequestsAllowedNotified
  {
    match state
    case DisallowedEulaNotAccepted => ResourceRequestsNotAllowedEulaNotAccepted
    case DisallowedNetworkDown => ResourceRequestsNotAllowedNetworkDown
    case DisallowedCommandLineDisabled => ResourceRequestsNotAllowedCommandLineDisabled
    case Allowed => ResourceRequestsAllowed
  }

  /** Each notifier state lands in its own histogram bucket. */
  lemma HistogramBucketsDistinct(a: NotifierState, b: NotifierState)
    ensures HistogramValue(ResourceRequestStateToHistogramValue(a)) == HistogramValue(ResourceRequestStateToHistogramValue(b))
        <==> a == b
  {
  }

  // ---------------------------------------------------------------------------
  // Reference date

  /** The date field trials are checked against: the build time when the
      seed date is null or older, else the seed date. */
  function ReferenceDate(seedDate: int, buildTime: int): int
  {
    if seedDate == 0 || seedDate < buildTime then buildTime else seedDate
  }

  /** With a seed date, the reference date is the later of the two; never
      earlier than the build time. */
  lemma ReferenceDateIsLatest(seedDate: int, buildTime: int)
    ensures ReferenceDate(seedDate, buildTime) >= buildTime || (seedDate != 0 && ReferenceDate(seedDate, buildTime) == seedDate)
    ensures seedDate != 0 ==>
      && ReferenceDate(seedDate, buildTime) >= seedDate
      && ReferenceDate(seedDate, buildTime) >= buildTime
      && (ReferenceDate(seedDate, buildTime) == seedDate || ReferenceDate(seedDate, buildTime) == buildTime)
    ensures seedDate == 0 ==> ReferenceDate(seedDate, buildTime) == buildTime
  {
  }

  // ---------------------------------------------------------------------------
  // Server URL

  const DefaultVariationsServerUrl: string := "https://clients4.google.com/chrome-variations/seed"

  datatype QueryParameter = QueryParameter(name: string, value: string)

  /** A URL split at its query: everything before '?' and the query's
      name=value pairs in order. */
  datatype Url = Url(withoutQuery: string, query: seq<QueryParameter>)

  /** One "name=value" pair; a pair with no '=' has an empty value. */
  function ParsePair(pair: string): QueryParameter
  {
    var eq := IndexOf(pair, '=');
    if eq == |pair| then QueryParameter(pair, "") else QueryParameter(pair[..eq], pair[eq + 1..])
  }

  /** The '&'-separated pairs of a query; empty pieces are skipped. */
  function ParseQuery(q: string): seq<QueryParameter>
    decreases |q|
  {
    var amp := IndexOf(q, '&');
    var piece := q[..amp];
    var rest := if amp == |q| then [] else ParseQuery(q[amp + 1..]);
    if piece == [] then rest else [ParsePair(piece)] + rest
  }

  function ParseUrl(s: string): Url
  {
    var question := IndexOf(s, '?');
    if question == |s| then Url(s, []) else Url(s[..question], ParseQuery(s[question + 1..]))
  }

  /** The value of the first parameter called `name`. */
  function FirstValue(query: seq<QueryParameter>, name: string): (r: Option<string>)
    ensures r.None? <==> forall k :: 0 <= k < |query| ==> query[k].name != name
  {
    if query == [] then None
    else if query[0].name == name then Some(query[0].value)
    else
      var r := FirstValue(query[1..], name);
      assert forall k :: 1 <= k < |query| ==> query[k] == query[1..][k - 1];
      r
  }

  /** net::AppendOrReplaceQueryParameter: the first `name` parameter gets
      `value`; without one, the pair is appended. */
  function AppendOrReplace(query: seq<QueryParameter>, name: string, value: string): (r: seq<QueryParameter>)
    ensures |r| == |query| || |r| == |query| + 1
  {
    if query == [] then [QueryParameter(name, value)]
    else if query[0].name == name then [QueryParameter(name, value)] + query[1..]
    else [query[0]] + AppendOrReplace(query[1..], name, value)
  }

  /** After AppendOrReplace the parameter reads `value`, and every other
      parameter reads as before. */
  lemma {:induction false} AppendOrReplaceLookup(query: seq<QueryParameter>, name: string, value: string, other: string)
    requires other != name
    ensures FirstValue(AppendOrReplace(query, name, value), name) == Some(value)
    ensures FirstValue(AppendOrReplace(query, name, value), other) == FirstValue(query, other)
  {
    if query != [] && query[0].name != name {
      AppendOrReplaceLookup(query[1..], name, value, other);
      var r := AppendOrReplace(query, name, value);
      assert r[0] == query[0] && r[1..] == AppendOrReplace(query[1..], name, value);
    }
  }

  /** Replacing twice with the same value changes nothing the second time. */
  lemma {:induction false} AppendOrReplaceIdempotent(query: seq<QueryParameter>, name: string, value: string)
    ensures AppendOrReplace(AppendOrReplace(query, name, value), name, value) == AppendOrReplace(query, name, value)
  {
    if query != [] && query[0].name != name {
      AppendOrReplaceIdempotent(query[1..], name, value);
      var r := AppendOrReplace(query, name, value);
      assert r[0] == query[0] && r[1..] == AppendOrReplace(query[1..], name, value);
    }
  }

  /** GetVariationsServerURL: the server-URL switch or the default, then
      "restrict" when a restrict parameter is set, then "osname". */
  function GetVariationsServerUrl(serverUrlSwitch: string, restrictParameter: string, platform: string): Url
  {
    var url := ParseUrl(if serverUrlSwitch == [] then DefaultVariationsServerUrl else serverUrlSwitch);
    var query := if restrictParameter != [] then AppendOrReplace(url.query, "restrict", restrictParameter) else url.query;
    Url(url.withoutQuery, AppendOrReplace(query, "osname", platform))
  }

  /** The server URL names the platform, carries a non-empty restrict
      parameter, and otherwise keeps whatever the switch URL had. */
  lemma {:induction false} ServerUrlParameters(serverUrlSwitch: string, restrictParameter: string, platform: string)
    ensures var url := GetVariationsServerUrl(serverUrlSwitch, restrictParameter, platform);
      var given := ParseUrl(if serverUrlSwitch == [] then DefaultVariationsServerUrl else serverUrlSwitch);
      && FirstValue(url.query, "osname") == Some(platform)
      && (restrictParameter != [] ==> FirstValue(url.query, "restrict") == Some(restrictParameter))
      && (restrictParameter == [] ==> FirstValue(url.query, "restrict") == FirstValue(given.query, "restrict"))
      && url.withoutQuery == given.withoutQuery
  {
    var given := ParseUrl(if serverUrlSwitch == [] then DefaultVariationsServerUrl else serverUrlSwitch);
    var query := if restrictParameter != [] then AppendOrReplace(given.query, "restrict", restrictParameter) else given.query;
    AppendOrReplaceLookup(query, "osname", platform, "restrict");
    if restrictParameter != [] {
      AppendOrReplaceLookup(given.query, "restrict", restrictParameter, "osname");
    }
  }

  /** A server URL without a query of its own and no restrict parameter
      asks with the platform alone. */
  lemma PlainServerUrl(serverUrlSwitch: string, platform: string)
    requires serverUrlSwitch != [] && '?' !in serverUrlSwitch
    ensures GetVariationsServerUrl(serverUrlSwitch, "", platform) == Url(serverUrlSwitch, [QueryParameter("osname", platform)])
  {
  }

  // ---------------------------------------------------------------------------
  // The service

  /** How a finished request ended at the network level. */
  datatype RequestStatus = Success | Failed(error: int)

  const HttpOk: int := 200
  const HttpNotModified: int := 304

  class Service {
    var createTrialsFromSeedCalled: bool
    var initialRequestCompleted: bool
    var pendingSeedRequest: bool
    /** Fetches started so far. */
    var fetchesStarted: nat
    /** Short retries the scheduler was asked for. */
    var shortRetriesScheduled: nat
    /** The kVariationsLastFetchTime and kVariationsSeedDate preferences. */
    var lastFetchTime: int
    var seedDate: int
    /** Values recorded in Variations.ResourceRequestsAllowed. */
    var requestsAllowedHistogram: seq<nat>

    constructor (lastFetchTime: int, seedDate: int)
      ensures !createTrialsFromSeedCalled && !initialRequestCompleted && !pendingSeedRequest
      ensures fetchesStarted == 0 && shortRetriesScheduled == 0
      ensures this.lastFetchTime == lastFetchTime && this.seedDate == seedDate
      ensures requestsAllowedHistogram == []
    {
      createTrialsFromSeedCalled := false;
      initialRequestCompleted := false;
      pendingSeedRequest := false;
      fetchesStarted := 0;
      shortRetriesScheduled := 0;
      this.lastFetchTime := lastFetchTime;
      this.seedDate := seedDate;
      requestsAllowedHistogram := [];
    }

    /** CreateTrialsFromSeed's bookkeeping: the flag is set whatever
        happens; trials are created, against the reference date returned,
        only from a loaded seed and a valid version. */
    method CreateTrialsFromSeed(seedLoaded: bool, buildTime: int, versionValid: bool)
      returns (created: bool, referenceDate: Option<int>)
      modifies this
      ensures createTrialsFromSeedCalled
      ensures created <==> seedLoaded && versionValid
      ensures created ==> referenceDate == Some(ReferenceDate(seedDate, buildTime))
      ensures !created ==> referenceDate == None
      ensures initialRequestCompleted == old(initialRequestCompleted) && pendingSeedRequest == old(pendingSeedRequest)
      ensures fetchesStarted == old(fetchesStarted) && shortRetriesScheduled == old(shortRetriesScheduled)
      ensures lastFetchTime == old(lastFetchTime) && seedDate == old(seedDate)
      ensures requestsAllowedHistogram == old(requestsAllowedHistogram)
    {
      createTrialsFromSeedCalled := true;
      if !seedLoaded {
        return false, None;
      }
      var date := seedDate;
      var reference := date;
      if date == 0 || date < buildTime {
        reference := buildTime;
      }
      if !versionValid {
        return false, None;
      }
      return true, Some(reference);
    }

    /** FetchVariationsSeed: record the notifier state, and fetch only when
        requests are allowed. */
    method FetchVariationsSeed(state: NotifierState)
      modifies this
      ensures requestsAllowedHistogram == old(requestsAllowedHistogram) + [HistogramValue(ResourceRequestStateToHistogramValue(state))]
      ensures state == Allowed ==> pendingSeedRequest && fetchesStarted == old(fetchesStarted) + 1
      ensures state != Allowed ==> pendingSeedRequest == old(pendingSeedRequest) && fetchesStarted == old(fetchesStarted)
      ensures createTrialsFromSeedCalled == old(createTrialsFromSeedCalled)
      ensures initialRequestCompleted == old(initialRequestCompleted)
      ensures shortRetriesScheduled == old(shortRetriesScheduled)
      ensures lastFetchTime == old(lastFetchTime) && seedDate == old(seedDate)
    {
      requestsAllowedHistogram := requestsAllowedHistogram + [HistogramValue(ResourceRequestStateToHistogramValue(state))];
      if state != Allowed {
        return;
      }
      pendingSeedRequest := true;
      fetchesStarted := fetchesStarted + 1;
    }

    /** OnURLFetchComplete. `responseDate` is the Date header (0 when absent
        or not read), `stored` whether StoreSeedData accepted the body (the
        seed store then records `responseDate` as the seed date), and `now`
        the current time. */
    method OnUrlFetchComplete(status: RequestStatus, responseCode: int, responseDate: int, stored: bool, now: int)
      requires pendingSeedRequest
      modifies this
      ensures initialRequestCompleted && !pendingSeedRequest
      // A failed request retries soon only if it was the very first one.
      ensures status.Failed? ==>
        && shortRetriesScheduled == old(shortRetriesScheduled) + (if old(initialRequestCompleted) then 0 else 1)
        && lastFetchTime == old(lastFetchTime) && seedDate == old(seedDate)
      ensures status.Success? ==> shortRetriesScheduled == old(shortRetriesScheduled)
      // 304 refreshes both the last fetch time and the seed date.
      ensures status.Success? && responseCode == HttpNotModified ==>
        lastFetchTime == now && seedDate == responseDate
      // 200 counts as fetched, and dates the seed, only when the seed was stored.
      ensures status.Success? && responseCode == HttpOk ==>
        && lastFetchTime == (if stored then now else old(lastFetchTime))
        && seedDate == (if stored then responseDate else old(seedDate))
      // Any other response stores nothing.
      ensures status.Success? && responseCode != HttpOk && responseCode != HttpNotModified ==>
        lastFetchTime == old(lastFetchTime) && seedDate == old(seedDate)
      ensures createTrialsFromSeedCalled == old(createTrialsFromSeedCalled)
      ensures fetchesStarted == old(fetchesStarted) && requestsAllowedHistogram == old(requestsAllowedHistogram)
    {
      var isFirstRequest := !initialRequestCompleted;
      initialRequestCompleted := true;
      pendingSeedRequest := false;
      if status.Failed? {
        if isFirstRequest {
          shortRetriesScheduled := shortRetriesScheduled + 1;
        }
        return;
      }
      if responseCode != HttpOk {
        if responseCode == HttpNotModified {
          lastFetchTime := now;
          seedDate := responseDate;
        }
        return;
      }
      if stored {
        seedDate := responseDate;
        lastFetchTime := now;
      }
    }
  }
}
