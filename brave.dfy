/** The Brave web-search provider of package `search`: a daily request
    quota that reloads when the clock passes the next midnight, and the
    control flow of one search around that quota. The clock is an integer
    number of seconds passed in by the caller. */
module Brave {
  import opened Wrappers
  import opened SearchTypes

  const Name: string := "brave"
  const Priority: int := 1
  /** Every Brave result gets this relevance. */
  const BraveRelevance: real := 0.9
  const DayLength: int := 86400

  const ErrUnavailable: string := "brave provider: quota exceeded or API key missing"
  const ErrCreate: string := "brave: failed to create request"
  const ErrRequest: string := "brave: request failed"
  const ErrStatus: string := "brave: unexpected status code"
  const ErrDecode: string := "brave: failed to decode response"

  /** The start of the next day: some instant strictly later than `now`
      and at most one day away (days of the UTC calendar). */
  function NextMidnight(now: int): (r: int)
    ensures now < r <= now + DayLength
  {
    (now / DayLength + 1) * DayLength
  }

  /** The three quota fields. */
  datatype Quota = Quota(limit: int, remaining: int, resetTime: int)

  /** A sensible counter: between zero and the limit. */
  predicate Inv(q: Quota) {
    0 <= q.remaining <= q.limit
  }

  /** The reload that `IsAvailable` performs: when `now` is strictly after
      the reset instant, the counter returns to the limit and the reset
      instant moves to the next midnight. */
  function Refresh(q: Quota, now: int): Quota {
    if now > q.resetTime then Quota(q.limit, q.limit, NextMidnight(now)) else q
  }

  /** `consumeQuota`: one less when positive. */
  function Consume(q: Quota): Quota {
    if q.remaining > 0 then q.(remaining := q.remaining - 1) else q
  }

  /** What `IsAvailable` leaves behind: nothing is touched without a key. */
  function Checked(apiKey: string, q: Quota, now: int): Quota {
    if apiKey == "" then q else Refresh(q, now)
  }

  /** What `IsAvailable` answers, given the state it left behind. */
  predicate Available(apiKey: string, q: Quota) {
    apiKey != "" && q.remaining > 0
  }

  /** The quota after a successful search at each of `times`, in order. */
  function AfterSearches(q: Quota, times: seq<int>): Quota {
    if times == [] then q
    else Consume(Refresh(AfterSearches(q, times[..|times| - 1]), times[|times| - 1]))
  }

  /** One item of the decoded `web.results` array. */
  datatype WebResult = WebResult(title: string, url: string, description: string)

  /** What the HTTP exchange gave back: the request could not be built, it
      could not be sent, or a reply came with a status code and, when the
      body was decoded, its results (`None`: the JSON did not decode). */
  datatype Response =
    | CreateFailed
    | RequestFailed
    | Replied(status: int, decoded: Option<seq<WebResult>>)

  /** A reply that the provider turns into results. */
  predicate Succeeded(response: Response) {
    response.Replied? && response.status == 200 && response.decoded.Some?
  }

  /** The error of a failed exchange, in the order the source checks. */
  function ExchangeError(response: Response): (e: string)
    requires !Succeeded(response)
    ensures e in {ErrCreate, ErrRequest, ErrStatus, ErrDecode}
    ensures e == ErrDecode <==> response.Replied? && response.status == 200
  {
    match response
    case CreateFailed => ErrCreate
    case RequestFailed => ErrRequest
    case Replied(status, _) => if status != 200 then ErrStatus else ErrDecode
  }

  /** The conversion loop: one result per decoded item, in order, with the
      three strings copied and relevance 0.9. */
  method ConvertResults(ws: seq<WebResult>) returns (results: seq<Result>)
    ensures |results| == |ws|
    ensures forall i :: 0 <= i < |ws| ==>
      results[i] == Result(ws[i].title, ws[i].url, ws[i].description, BraveRelevance)
  {
    results := [];
    for i := 0 to |ws|
      invariant |results| == i
      invariant forall k :: 0 <= k < i ==>
        results[k] == Result(ws[k].title, ws[k].url, ws[k].description, BraveRelevance)
    {
      results := results + [Result(ws[i].title, ws[i].url, ws[i].description, BraveRelevance)];
    }
  }

  class BraveProvider {
    const apiKey: string
    const quotaLimit: int
    var quotaRemaining: int
    var quotaResetTime: int

    function State(): Quota
      reads this
    {
      Quota(quotaLimit, quotaRemaining, quotaResetTime)
    }

    /** `NewBraveProvider`: a full quota that reloads at the next midnight. */
    constructor (key: string, dailyQuota: int, now: int)
      ensures apiKey == key
      ensures State() == Quota(dailyQuota, dailyQuota, NextMidnight(now))
    {
      apiKey := key;
      quotaLimit := dailyQuota;
      quotaRemaining := dailyQuota;
      quotaResetTime := NextMidnight(now);
    }

    /** Without a key, unavailable and nothing changes; with one, reload the
        quota when the reset instant has passed, then report whether any
        requests are left. */
    method IsAvailable(now: int) returns (available: bool)
      modifies this
      ensures State() == Checked(apiKey, old(State()), now)
      ensures available == Available(apiKey, State())
    {
      if apiKey == "" {
        return false;
      }
      if now > quotaResetTime {
        quotaRemaining := quotaLimit;
        quotaResetTime := NextMidnight(now);
      }
      available := quotaRemaining > 0;
    }

    method ConsumeQuota()
      modifies this
      ensures State() == Consume(old(State()))
    {
      if quotaRemaining > 0 {
        quotaRemaining := quotaRemaining - 1;
      }
    }

    /** One search at time `now` whose HTTP exchange gives `response`. Only
        the successful path consumes quota; every exit before it leaves the
        quota as the availability check left it. */
    method Search(now: int, response: Response) returns (results: seq<Result>, err: Option<string>)
      modifies this
      ensures var q := Checked(apiKey, old(State()), now);
        if !Available(apiKey, q) then
          results == [] && err == Some(ErrUnavailable) && State() == q
        else if !Succeeded(response) then
          results == [] && err == Some(ExchangeError(response)) && State() == q
        else
          err == None && State() == Consume(q)
          && |results| == |response.decoded.value|
          && forall i :: 0 <= i < |results| ==>
               var w := response.decoded.value[i];
               results[i] == Result(w.title, w.url, w.description, BraveRelevance)
    {
      var available := IsAvailable(now);
      if !available {
        return [], Some(ErrUnavailable);
      }
      if response.CreateFailed? {
        return [], Some(ErrCreate);
      }
      if response.RequestFailed? {
        return [], Some(ErrRequest);
      }
      if response.status != 200 {
        return [], Some(ErrStatus);
      }
      if response.decoded.None? {
        return [], Some(ErrDecode);
      }
      results := ConvertResults(response.decoded.value);
      ConsumeQuota();
      err := None;
    }
  }

  /** The reload and the decrement keep a sensible counter sensible, and a
      non-negative counter never goes negative. */
  lemma QuotaInvariant(q: Quota, now: int)
    requires Inv(q)
    ensures Inv(Refresh(q, now)) && Inv(Consume(q))
    ensures Consume(q).remaining == if q.remaining == 0 then 0 else q.remaining - 1
  {
  }

  /** After the availability check, the reset instant is not in the past,
      so a second check at the same instant changes nothing. */
  lemma RefreshSettles(q: Quota, now: int)
    ensures Refresh(q, now).resetTime >= now
    ensures Refresh(Refresh(q, now), now) == Refresh(q, now)
  {
  }

  /** Once the reset instant has passed, the whole limit is available again,
      however much had been used. */
  lemma ResetRestores(q: Quota, spent: Quota, now: int)
    requires spent.limit == q.limit && spent.resetTime == q.resetTime
    requires now > q.resetTime
    ensures Refresh(spent, now) == Refresh(q, now)
    ensures Refresh(spent, now).remaining == q.limit
  {
  }

  /** Each successful search before the reset instant uses exactly one
      request of the quota. */
  lemma {:induction false} QuotaCountdown(q: Quota, times: seq<int>)
    requires Inv(q) && |times| <= q.remaining
    requires forall i :: 0 <= i < |times| ==> times[i] <= q.resetTime
    ensures AfterSearches(q, times) == q.(remaining := q.remaining - |times|)
  {
    if times != [] {
      var init := times[..|times| - 1];
      QuotaCountdown(q, init);
    }
  }

  /** From a fresh provider with a key, and with no reset boundary crossed,
      the provider stays available for exactly `dailyQuota` successful
      searches. */
  lemma ExhaustedAfterLimit(apiKey: string, dailyQuota: int, start: int, times: seq<int>, now: int)
    requires apiKey != "" && dailyQuota >= 0
    requires |times| <= dailyQuota
    requires forall i :: 0 <= i < |times| ==> times[i] <= NextMidnight(start)
    requires now <= NextMidnight(start)
    ensures var q := Quota(dailyQuota, dailyQuota, NextMidnight(start));
      Available(apiKey, Refresh(AfterSearches(q, times), now)) <==> |times| < dailyQuota
  {
    QuotaCountdown(Quota(dailyQuota, dailyQuota, NextMidnight(start)), times);
  }

  /** A missing key makes the provider unavailable whatever the quota. */
  lemma NoKeyNeverAvailable(q: Quota, now: int)
    ensures !Available("", Checked("", q, now)) && Checked("", q, now) == q
  {
  }
}
