/** The DuckDuckGo HTML-scraping provider of package `search`: a gate that
    spaces requests at least one second apart, the extraction of results
    from the parsed `.result` nodes, and the unwrapping of DuckDuckGo's
    redirect links. The clock is an integer number of nanoseconds passed in
    by the caller. */
module DuckDuckGo {
  import opened Wrappers
  import opened Text
  import opened UrlEscape
  import opened SearchTypes

  const Name: string := "duckduckgo"
  const Priority: int := 2
  /** Every DuckDuckGo result gets this relevance. */
  const DDGRelevance: real := 0.7
  /** One second, in nanoseconds. */
  const MinInterval: int := 1_000_000_000
  /** The start of DuckDuckGo's redirect links. */
  const RedirectPrefix: string := "/l/?uddg="

  const ErrCreate: string := "duckduckgo: failed to create request"
  const ErrRequest: string := "duckduckgo: request failed"
  const ErrParse: string := "duckduckgo: failed to parse HTML"

  /** How long the gate sleeps: the rest of the interval when the previous
      request started less than `MinInterval` ago. `None` is Go's zero
      time, from which the elapsed duration saturates at its maximum. */
  function Wait(last: Option<int>, now: int): (w: int)
    ensures w >= 0
    ensures last.None? || now - last.value >= MinInterval ==> w == 0
  {
    if last.Some? && now - last.value < MinInterval then MinInterval - (now - last.value) else 0
  }

  /** `fixDDGURL`: a redirect link is replaced by its decoded target; any
      other link, or one whose target does not decode, is kept. */
  function FixDDGURL(rawURL: string): (r: string) {
    if HasPrefix(rawURL, RedirectPrefix) then
      match QueryUnescape(rawURL[|RedirectPrefix|..])
      case Some(decoded) => decoded
      case None => rawURL
    else rawURL
  }

  /** One `.result` node as goquery gives it: the text of its `.result__a`
      element, that element's `href` attribute when present, and the text
      of its `.result__snippet` element. */
  datatype Node = Node(titleText: string, href: Option<string>, snippetText: string)

  /** A node that produces a result. */
  predicate WellFormed(n: Node) {
    n.href.Some? && TrimSpace(n.titleText) != ""
  }

  function ToResult(n: Node): Result
    requires n.href.Some?
  {
    Result(TrimSpace(n.titleText), FixDDGURL(n.href.value), TrimSpace(n.snippetText), DDGRelevance)
  }

  /** The results extracted from `nodes`, in document order. */
  function Extract(nodes: seq<Node>): seq<Result> {
    if nodes == [] then []
    else
      var n := nodes[|nodes| - 1];
      Extract(nodes[..|nodes| - 1]) + (if WellFormed(n) then [ToResult(n)] else [])
  }

  /** How many leading nodes are looked at: the callback returns at once for
      every index `i >= maxResults`. */
  function Examined(count: int, maxResults: int): (k: int)
    requires count >= 0
    ensures 0 <= k <= count && k <= if maxResults < 0 then 0 else maxResults
  {
    if maxResults < 0 then 0 else if maxResults < count then maxResults else count
  }

  /** What goquery gave back: the request could not be built or sent, the
      body could not be parsed, or the `.result` nodes in document order. */
  datatype Page =
    | CreateFailed
    | RequestFailed
    | ParseFailed
    | Parsed(nodes: seq<Node>)

  /** The `Each` callback over all nodes. The index `i` counts every node,
      malformed ones included. */
  method ExtractResults(nodes: seq<Node>, maxResults: int) returns (results: seq<Result>)
    ensures results == Extract(nodes[..Examined(|nodes|, maxResults)])
  {
    results := [];
    for i := 0 to |nodes|
      invariant results == Extract(nodes[..Examined(i, maxResults)])
    {
      if i >= maxResults {
        continue;
      }
      assert nodes[..i + 1][..i] == nodes[..i];
      var n := nodes[i];
      var title := TrimSpace(n.titleText);
      if n.href.None? || title == "" {
        continue;
      }
      var description := TrimSpace(n.snippetText);
      var fixedURL := FixDDGURL(n.href.value);
      results := results + [Result(title, fixedURL, description, DDGRelevance)];
    }
  }

  class DuckDuckGoProvider {
    var lastRequestTime: Option<int>

    /** `NewDuckDuckGoProvider`: no request made yet. */
    constructor ()
      ensures lastRequestTime == None
    {
      lastRequestTime := None;
    }

    /** The rate-limit gate. The gate sleeps `wait`, and the new timestamp is
        read after the sleep; `slack` is how much later than `now + wait`
        that reading is. */
    method Gate(now: int, slack: nat) returns (wait: int)
      modifies this
      ensures wait == Wait(old(lastRequestTime), now)
      ensures lastRequestTime == Some(now + wait + slack)
    {
      wait := 0;
      if lastRequestTime.Some? {
        var elapsed := now - lastRequestTime.value;
        if elapsed < MinInterval {
          wait := MinInterval - elapsed;
        }
      }
      lastRequestTime := Some(now + wait + slack);
    }

    /** One search. The gate runs before anything can fail, so every
        request, failed or not, counts toward the rate limit. */
    method Search(now: int, slack: nat, maxResults: int, page: Page) returns (results: seq<Result>, err: Option<string>)
      modifies this
      ensures lastRequestTime == Some(now + Wait(old(lastRequestTime), now) + slack)
      ensures page.CreateFailed? ==> results == [] && err == Some(ErrCreate)
      ensures page.RequestFailed? ==> results == [] && err == Some(ErrRequest)
      ensures page.ParseFailed? ==> results == [] && err == Some(ErrParse)
      ensures page.Parsed? ==>
        err == None && results == Extract(page.nodes[..Examined(|page.nodes|, maxResults)])
    {
      var _ := Gate(now, slack);
      match page
      case CreateFailed => return [], Some(ErrCreate);
      case RequestFailed => return [], Some(ErrRequest);
      case ParseFailed => return [], Some(ErrParse);
      case Parsed(nodes) =>
        results := ExtractResults(nodes, maxResults);
        err := None;
    }
  }

  /** The request times the gate records when each call of a sequence
      reads the clock at `calls[i].0` and its post-sleep reading is
      `calls[i].1` later than the minimum. */
  function Stamps(last: Option<int>, calls: seq<(int, nat)>): seq<int>
    decreases |calls|
  {
    if calls == [] then []
    else
      var stamp := calls[0].0 + Wait(last, calls[0].0) + calls[0].1;
      [stamp] + Stamps(Some(stamp), calls[1..])
  }

  /** With a monotone clock, the gate never waits more than one interval,
      and the new request starts at least `MinInterval` after the last. */
  lemma GateSpacing(last: int, now: int, slack: nat)
    requires now >= last
    ensures Wait(Some(last), now) <= MinInterval
    ensures now + Wait(Some(last), now) + slack - last >= MinInterval
  {
  }

  /** Consecutive request times recorded by the gate are at least
      `MinInterval` apart when every call starts after the previous one
      was recorded. */
  lemma {:induction false} StampsSpaced(last: Option<int>, calls: seq<(int, nat)>)
    requires forall i :: 0 <= i < |calls| ==> StampBefore(last, calls, i)
    ensures |Stamps(last, calls)| == |calls|
    ensures forall i :: 0 <= i < |calls| - 1 ==>
      Stamps(last, calls)[i + 1] - Stamps(last, calls)[i] >= MinInterval
    ensures last.Some? && calls != [] ==> Stamps(last, calls)[0] - last.value >= MinInterval
    decreases |calls|
  {
    if calls != [] {
      var stamp := Stamps(last, calls)[0];
      assert StampBefore(last, calls, 0);
      forall i | 0 <= i < |calls[1..]| ensures StampBefore(Some(stamp), calls[1..], i) {
        assert StampBefore(last, calls, i + 1);
      }
      StampsSpaced(Some(stamp), calls[1..]);
      if last.Some? {
        GateSpacing(last.value, calls[0].0, calls[0].1);
      }
    }
  }

  /** Call `i` reads the clock no earlier than the previous recorded time. */
  predicate StampBefore(last: Option<int>, calls: seq<(int, nat)>, i: int)
    requires 0 <= i < |calls|
    decreases |calls|
  {
    if i == 0 then last.None? || calls[0].0 >= last.value
    else StampBefore(Some(calls[0].0 + Wait(last, calls[0].0) + calls[0].1), calls[1..], i - 1)
  }

  /** A redirect link to an escaped target unwraps to the target. */
  lemma FixDDGURLRoundTrip(target: string)
    requires IsBytes(target)
    ensures FixDDGURL(RedirectPrefix + QueryEscape(target)) == target
  {
    var raw := RedirectPrefix + QueryEscape(target);
    assert raw[..|RedirectPrefix|] == RedirectPrefix;
    assert raw[|RedirectPrefix|..] == QueryEscape(target);
    QueryEscapeRoundTrip(target);
  }

  /** The link is kept exactly when it is not a redirect or its target has
      a `%` without two hex digits; otherwise the decoded target replaces
      it. */
  lemma FixDDGURLCases(rawURL: string)
    ensures !HasPrefix(rawURL, RedirectPrefix) ==> FixDDGURL(rawURL) == rawURL
    ensures HasPrefix(rawURL, RedirectPrefix) ==>
      var rest := rawURL[|RedirectPrefix|..];
      if exists i :: BadEscapeAt(rest, i) then FixDDGURL(rawURL) == rawURL
      else QueryUnescape(rest).Some? && FixDDGURL(rawURL) == QueryUnescape(rest).value
  {
    if HasPrefix(rawURL, RedirectPrefix) {
      UnescapeFailsIff(rawURL[|RedirectPrefix|..], true);
    }
  }

  /** Decoding covers everything after the prefix: `+` becomes a space,
      `%2F` a slash, and a trailing parameter is decoded along with the
      target. */
  lemma FixDDGURLExample()
    ensures FixDDGURL("/l/?uddg=a%2Fb+c&x") == "a/b c&x"
  {
    var raw := "/l/?uddg=a%2Fb+c&x";
    assert HasPrefix(raw, RedirectPrefix);
    assert raw[|RedirectPrefix|..] == "a%2Fb+c&x";
    DecodeSample();
  }

  lemma DecodeSample()
    ensures QueryUnescape("a%2Fb+c&x") == Some("a/b c&x")
  {
    DecodeSampleTail();
    assert "%2Fb+c&x"[3..] == "b+c&x";
    assert Unhex('2') * 16 + Unhex('F') == '/' as int;
    assert ['/'] + "b c&x" == "/b c&x";
    assert Unescape("%2Fb+c&x", true) == Some("/b c&x");
    assert "a%2Fb+c&x"[1..] == "%2Fb+c&x";
    assert ['a'] + "/b c&x" == "a/b c&x";
  }

  lemma DecodeSampleTail()
    ensures Unescape("b+c&x", true) == Some("b c&x")
  {
    UnescapePlain("c&x", true);
    assert "+c&x"[1..] == "c&x";
    assert [' '] + "c&x" == " c&x";
    assert Unescape("+c&x", true) == Some(" c&x");
    assert "b+c&x"[1..] == "+c&x";
    assert ['b'] + " c&x" == "b c&x";
  }

  /** No more results than examined nodes, hence at most `maxResults`. */
  lemma {:induction false} ExtractBound(nodes: seq<Node>)
    ensures |Extract(nodes)| <= |nodes|
  {
    if nodes != [] {
      ExtractBound(nodes[..|nodes| - 1]);
    }
  }

  /** Extraction keeps document order: it distributes over concatenation. */
  lemma {:induction false} ExtractConcat(a: seq<Node>, b: seq<Node>)
    ensures Extract(a + b) == Extract(a) + Extract(b)
    decreases |b|
  {
    if b == [] {
      assert a + b == a;
    } else {
      ExtractConcat(a, b[..|b| - 1]);
      assert (a + b)[..|a + b| - 1] == a + b[..|b| - 1];
      assert (a + b)[|a + b| - 1] == b[|b| - 1];
    }
  }

  /** Every result comes from a well-formed node: a non-empty trimmed
      title, a trimmed description, the unwrapped link and relevance 0.7. */
  lemma {:induction false} ExtractSound(nodes: seq<Node>)
    ensures forall r :: r in Extract(nodes) ==>
      exists i :: 0 <= i < |nodes| && WellFormed(nodes[i]) && r == ToResult(nodes[i])
    ensures forall r :: r in Extract(nodes) ==>
      r.title != "" && Trimmed(r.title) && Trimmed(r.description) && r.relevance == DDGRelevance
  {
    if nodes != [] {
      var init := nodes[..|nodes| - 1];
      ExtractSound(init);
      assert forall i :: 0 <= i < |init| ==> init[i] == nodes[i];
    }
  }
}
