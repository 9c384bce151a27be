/**
 The outbound HTTP request with redirects followed by hand (`_run_http_request`): header merge and
 strip, one name resolution per hop, the hop limit and the body size cap.  The network is arbitrary:
 the name service may change its answer at every look-up, and the servers may answer by the whole
 history of requests.
 */
module Redirects {
  import opened Options

  const MAX_REDIRECTS := 5
  const MAX_RESPONSE_SIZE := 10 * 1024 * 1024
  const REDIRECT_CODES := {301, 302, 303, 307, 308}
  const AUTH_HEADERS := {"authorization", "proxy-authorization", "x-api-key", "x-auth-token", "authorization-signature"}

  datatype Origin = Origin(scheme: string, host: string, port: nat)

  type Headers = map<string, string>

  /** One request as sent: the URL, the addresses it connects to, its headers. */
  datatype Request = Request(url: string, ips: seq<string>, headers: Headers)

  /** The answer; a `Failure` is an exception of the HTTP library. */
  datatype Reply = Failure | Response(status: nat, location: string, contentLength: Option<nat>, chunks: seq<string>)

  /** The n-th name look-up of a call, the servers, and the two URL functions of the library. */
  datatype Net = Net(resolve: (nat, string) -> Option<seq<string>>, serve: seq<Request> -> Reply,
                     join: (string, string) -> string, origin: string -> Origin)

  /** The tool's settings; an empty base URL is none. */
  datatype Tool = Tool(baseUrl: string, headers: Headers)

  datatype Outcome =
    | Success(status: nat, finalUrl: string, body: string)
    | Blocked
    | TooManyRedirects
    | TooLarge
    | ConnectionError

  // ---- headers -----------------------------------------------------------------------------------------

  function LowerChar(c: char): char {
    if 'A' <= c <= 'Z' then (c as int - 'A' as int + 'a' as int) as char else c
  }

  function Lower(s: string): string {
    seq(|s|, k requires 0 <= k < |s| => LowerChar(s[k]))
  }

  predicate IsAuth(name: string) {
    Lower(name) in AUTH_HEADERS
  }

  function Strip(h: Headers): Headers {
    map name | name in h && !IsAuth(name) :: h[name]
  }

  predicate CarriesAuth(h: Headers) {
    exists name | name in h :: IsAuth(name)
  }

  /** Whether a URL is bound to the tool's origin; without a base URL there is no such binding. */
  predicate AtHome(net: Net, tool: Tool, url: string) {
    tool.baseUrl == "" || net.origin(url) == net.origin(tool.baseUrl)
  }

  function FirstHeaders(net: Net, tool: Tool, url: string, headers: Headers): Headers {
    if AtHome(net, tool, url) then tool.headers + headers else Strip(headers)
  }

  function NextHeaders(net: Net, tool: Tool, url: string, headers: Headers): Headers {
    if AtHome(net, tool, url) then headers else Strip(headers)
  }

  // ---- URLs --------------------------------------------------------------------------------------------

  function TrimRight(s: string): string {
    if s != "" && s[|s| - 1] == '/' then TrimRight(s[..|s| - 1]) else s
  }

  function TrimLeft(s: string): string {
    if s != "" && s[0] == '/' then TrimLeft(s[1..]) else s
  }

  function FinalUrl(tool: Tool, url: string): string {
    if tool.baseUrl != "" && !("http://" <= url) && !("https://" <= url)
    then TrimRight(tool.baseUrl) + "/" + TrimLeft(url) else url
  }

  // ---- what a run of requests is -----------------------------------------------------------------------

  predicate RedirectsOn(reply: Reply) {
    reply.Response? && reply.status in REDIRECT_CODES && reply.location != ""
  }

  /** Whether `next` is the request due after the requests of `log`. */
  predicate Due(net: Net, tool: Tool, url: string, headers: Headers, log: seq<Request>, next: Request) {
    && net.resolve(|log|, next.url) == Some(next.ips)
    && if log == [] then
         next.url == FinalUrl(tool, url) && next.headers == FirstHeaders(net, tool, next.url, headers)
       else
         var reply, last := net.serve(log), log[|log| - 1];
         RedirectsOn(reply) && next.url == net.join(last.url, reply.location)
         && next.headers == NextHeaders(net, tool, next.url, last.headers)
  }

  predicate DueAt(net: Net, tool: Tool, url: string, headers: Headers, log: seq<Request>, k: nat)
    requires k < |log|
  {
    Due(net, tool, url, headers, log[..k], log[k])
  }

  /** Every request of the log was due when it was sent. */
  predicate IsRun(net: Net, tool: Tool, url: string, headers: Headers, log: seq<Request>) {
    forall k | 0 <= k < |log| :: DueAt(net, tool, url, headers, log, k)
  }

  function Join(chunks: seq<string>): string {
    if chunks == [] then "" else Join(chunks[..|chunks| - 1]) + chunks[|chunks| - 1]
  }

  /** What the final reply, which redirects no further, comes to. */
  function Finish(reply: Reply, url: string): Outcome {
    if reply.Failure? then ConnectionError
    else if reply.contentLength.Some? && reply.contentLength.value > MAX_RESPONSE_SIZE then TooLarge
    else if |Join(reply.chunks)| > MAX_RESPONSE_SIZE then TooLarge
    else Success(reply.status, url, Join(reply.chunks))
  }

  /** The call ends after the requests of `log` with this outcome. */
  predicate EndsWith(net: Net, tool: Tool, url: string, log: seq<Request>, r: Outcome) {
    if log == [] then r == Blocked && net.resolve(0, FinalUrl(tool, url)) == None
    else
      var reply, last := net.serve(log), log[|log| - 1];
      if !RedirectsOn(reply) then r == Finish(reply, last.url)
      else if net.resolve(|log|, net.join(last.url, reply.location)) == None then r == Blocked
      else |log| == MAX_REDIRECTS + 1 && r == TooManyRedirects
  }

  lemma SentWhenDue(net: Net, tool: Tool, url: string, headers: Headers, log: seq<Request>, next: Request)
    requires IsRun(net, tool, url, headers, log) && Due(net, tool, url, headers, log, next)
    ensures IsRun(net, tool, url, headers, log + [next])
  {
    var longer := log + [next];
    forall k | 0 <= k < |longer|
      ensures DueAt(net, tool, url, headers, longer, k)
    {
      if k < |log| {
        assert DueAt(net, tool, url, headers, log, k);
        assert longer[..k] == log[..k];
      } else {
        assert longer[..k] == log;
      }
    }
  }

  // ---- the code ----------------------------------------------------------------------------------------

  /** Merges the headers for the first request. */
  method MergeHeaders(net: Net, tool: Tool, finalUrl: string, headers: Headers) returns (merged: Headers)
    ensures merged == FirstHeaders(net, tool, finalUrl, headers)
  {
    var toolHeaders, requestHeaders := tool.headers, headers;
    if tool.baseUrl != "" && net.origin(tool.baseUrl) != net.origin(finalUrl) {
      toolHeaders := map[];
      requestHeaders := Strip(requestHeaders);
    }
    merged := toolHeaders + requestHeaders;
  }

  /** Reads the body chunk by chunk and gives up as soon as it is over the cap. */
  method ReadBody(chunks: seq<string>) returns (body: Option<string>)
    ensures body == if |Join(chunks)| > MAX_RESPONSE_SIZE then None else Some(Join(chunks))
  {
    var totalRead, read := 0, "";
    for k := 0 to |chunks|
      invariant read == Join(chunks[..k]) && totalRead == |read| <= MAX_RESPONSE_SIZE
    {
      assert chunks[..k + 1][..k] == chunks[..k];
      if chunks[k] != "" {
        totalRead := totalRead + |chunks[k]|;
        if totalRead > MAX_RESPONSE_SIZE {
          JoinGrows(chunks, k + 1);
          return None;
        }
        read := read + chunks[k];
      }
    }
    assert chunks[..|chunks|] == chunks;
    body := Some(read);
  }

  lemma {:induction false} JoinGrows(chunks: seq<string>, k: nat)
    requires k <= |chunks|
    ensures |Join(chunks[..k])| <= |Join(chunks)|
  {
    if k == |chunks| {
      assert chunks[..k] == chunks;
    } else {
      var front := chunks[..|chunks| - 1];
      JoinGrows(front, k);
      assert front[..k] == chunks[..k];
    }
  }

  method Conclude(reply: Reply, url: string) returns (r: Outcome)
    ensures r == Finish(reply, url)
  {
    if reply.Failure? {
      return ConnectionError;
    }
    if reply.contentLength.Some? && reply.contentLength.value > MAX_RESPONSE_SIZE {
      return TooLarge;
    }
    var body := ReadBody(reply.chunks);
    r := if body.None? then TooLarge else Success(reply.status, url, body.value);
  }

  /** The requests sent are a run, at most MAX_REDIRECTS + 1 of them, and the outcome is the one that run ends with; a
      successful one accumulated at most MAX_RESPONSE_SIZE. */
  method RunHttpRequest(net: Net, tool: Tool, url: string, headers: Headers) returns (r: Outcome, log: seq<Request>)
    ensures IsRun(net, tool, url, headers, log)
    ensures |log| <= MAX_REDIRECTS + 1
    ensures EndsWith(net, tool, url, log, r)
    ensures r.Success? ==> log != [] && r.finalUrl == log[|log| - 1].url && |r.body| <= MAX_RESPONSE_SIZE
  {
    log := [];
    var currentUrl := FinalUrl(tool, url);
    var resolved := net.resolve(0, currentUrl);
    if resolved.None? {
      return Blocked, log;
    }
    var pinnedIps := resolved.value;
    var current := MergeHeaders(net, tool, currentUrl, headers);
    for hop := 0 to MAX_REDIRECTS + 1
      invariant |log| == hop
      invariant IsRun(net, tool, url, headers, log)
      invariant Due(net, tool, url, headers, log, Request(currentUrl, pinnedIps, current))
    {
      SentWhenDue(net, tool, url, headers, log, Request(currentUrl, pinnedIps, current));
      log := log + [Request(currentUrl, pinnedIps, current)];
      var reply := net.serve(log);
      if reply.Failure? || reply.status !in REDIRECT_CODES || reply.location == "" {
        r := Conclude(reply, currentUrl);
        return;
      }
      var nextUrl := net.join(currentUrl, reply.location);
      resolved := net.resolve(hop + 1, nextUrl);
      if resolved.None? {
        return Blocked, log;
      }
      pinnedIps := resolved.value;
      if tool.baseUrl != "" && net.origin(nextUrl) != net.origin(tool.baseUrl) {
        current := Strip(current);
      }
      currentUrl := nextUrl;
    }
    r := TooManyRedirects;
  }

  // ---- what holds of every run -------------------------------------------------------------------------

  predicate HomeSoFar(net: Net, tool: Tool, log: seq<Request>, k: nat)
    requires k < |log|
  {
    forall j | 0 <= j <= k :: AtHome(net, tool, log[j].url)
  }

  /** The headers of every request, exactly: all of them while the run has stayed at home; once it has left, those that
      are not of the authorization class, without the tool's own when the very first request was already away. */
  lemma {:induction false} HeadersExactly(net: Net, tool: Tool, url: string, headers: Headers, log: seq<Request>,
    k: nat)
    requires IsRun(net, tool, url, headers, log) && k < |log|
    ensures log[k].headers == if HomeSoFar(net, tool, log, k) then tool.headers + headers
                              else if AtHome(net, tool, log[0].url) then Strip(tool.headers + headers)
                              else Strip(headers)
  {
    assert DueAt(net, tool, url, headers, log, k);
    if k > 0 {
      HeadersExactly(net, tool, url, headers, log, k - 1);
      assert log[..k][k - 1] == log[k - 1];
    }
  }

  /** A capital letter and its small one, 32 apart; any other character only is itself. */
  predicate SameLetter(c: char, small: char) {
    c == small || ('A' <= c <= 'Z' && c as int + 32 == small as int)
  }

  /** `name` is a spelling of the small-letter `word`, in whatever capitals. */
  predicate Spells(name: string, word: string) {
    |name| == |word| && forall k | 0 <= k < |name| :: SameLetter(name[k], word[k])
  }

  /** One of the five names of the authorization class, in any spelling. */
  predicate NamesAuthorization(name: string) {
    || Spells(name, "authorization") || Spells(name, "proxy-authorization") || Spells(name, "x-api-key")
    || Spells(name, "x-auth-token") || Spells(name, "authorization-signature")
  }

  predicate SmallLetters(word: string) {
    forall k | 0 <= k < |word| :: !('A' <= word[k] <= 'Z')
  }

  lemma LowerSpells(name: string, word: string)
    requires SmallLetters(word)
    ensures Lower(name) == word <==> Spells(name, word)
  {
    if Spells(name, word) {
      assert forall k | 0 <= k < |name| :: SameLetter(name[k], word[k]) && LowerChar(name[k]) == word[k];
      assert Lower(name) == word;
    }
  }

  lemma AuthIsNamed(name: string)
    ensures IsAuth(name) <==> NamesAuthorization(name)
  {
    LowerSpells(name, "authorization");
    LowerSpells(name, "proxy-authorization");
    LowerSpells(name, "x-api-key");
    LowerSpells(name, "x-auth-token");
    LowerSpells(name, "authorization-signature");
  }

  /** With a base URL set, no request to another origin carries an authorization-class header in any spelling, and
      once one request has gone elsewhere no later one does either, wherever it goes.  Any other header stays, with
      its value: the caller's, and the tool's too if the first request was at home. */
  lemma AuthorizationStaysHome(net: Net, tool: Tool, url: string, headers: Headers, log: seq<Request>, j: nat, k: nat)
    requires IsRun(net, tool, url, headers, log) && j <= k < |log| && tool.baseUrl != ""
    requires net.origin(log[j].url) != net.origin(tool.baseUrl)
    ensures !CarriesAuth(log[k].headers)
    ensures forall name | NamesAuthorization(name) :: name !in log[k].headers
    ensures var sent := if net.origin(log[0].url) == net.origin(tool.baseUrl) then tool.headers + headers else headers;
            forall name | !NamesAuthorization(name) ::
              (name in log[k].headers <==> name in sent) && (name in sent ==> log[k].headers[name] == sent[name])
  {
    HeadersExactly(net, tool, url, headers, log, k);
    assert !AtHome(net, tool, log[j].url);
    forall name: string
      ensures IsAuth(name) <==> NamesAuthorization(name)
    {
      AuthIsNamed(name);
    }
  }

  /** The first request goes to the URL as given when it is absolute or the tool has no base URL. */
  lemma FirstUrlAsGiven(net: Net, tool: Tool, url: string, headers: Headers, log: seq<Request>)
    requires IsRun(net, tool, url, headers, log) && log != []
    requires tool.baseUrl == "" || "http://" <= url || "https://" <= url
    ensures log[0].url == url
  {
    assert DueAt(net, tool, url, headers, log, 0);
  }

  /** And otherwise to the base URL and the rest, with one slash between them however many there were. */
  lemma FirstUrlJoined(net: Net, tool: Tool, url: string, headers: Headers, log: seq<Request>,
    base: string, slashes: string, more: string, rest: string)
    requires IsRun(net, tool, url, headers, log) && log != []
    requires tool.baseUrl != "" && !("http://" <= url) && !("https://" <= url)
    requires tool.baseUrl == base + slashes && OnlySlashes(slashes) && (base == "" || base[|base| - 1] != '/')
    requires url == more + rest && OnlySlashes(more) && (rest == "" || rest[0] != '/')
    ensures log[0].url == base + "/" + rest
  {
    assert DueAt(net, tool, url, headers, log, 0);
    TrimmedRight(base, slashes);
    TrimmedLeft(more, rest);
  }

  predicate OnlySlashes(s: string) {
    forall k | 0 <= k < |s| :: s[k] == '/'
  }

  lemma {:induction false} TrimmedRight(base: string, slashes: string)
    requires OnlySlashes(slashes) && (base == "" || base[|base| - 1] != '/')
    ensures TrimRight(base + slashes) == base
  {
    if slashes == "" {
      assert base + slashes == base;
    } else {
      TrimmedRight(base, slashes[..|slashes| - 1]);
      assert (base + slashes)[..|base + slashes| - 1] == base + slashes[..|slashes| - 1];
    }
  }

  lemma {:induction false} TrimmedLeft(slashes: string, rest: string)
    requires OnlySlashes(slashes) && (rest == "" || rest[0] != '/')
    ensures TrimLeft(slashes + rest) == rest
  {
    if slashes == "" {
      assert slashes + rest == rest;
    } else {
      TrimmedLeft(slashes[1..], rest);
      assert (slashes + rest)[1..] == slashes[1..] + rest;
    }
  }

  /** What each outcome of a call means for its last reply. */
  lemma OutcomeMeans(net: Net, tool: Tool, url: string, log: seq<Request>, r: Outcome)
    requires EndsWith(net, tool, url, log, r) && log != []
    ensures var reply := net.serve(log);
            && (r == ConnectionError <==> reply == Failure)
            && (r == TooManyRedirects ==> |log| == 6 && reply.Response? && reply.status in {301, 302, 303, 307, 308})
            && (r == Blocked ==> reply.Response? && reply.location != ""
                                 && net.resolve(|log|, net.join(log[|log| - 1].url, reply.location)) == None)
            && (r.Success? ==> reply.Response? && r.status == reply.status && r.body == Join(reply.chunks)
                               && (reply.location == "" || reply.status !in {301, 302, 303, 307, 308}))
            && (r == TooLarge ==>
                  && reply.Response?
                  && (|Join(reply.chunks)| > 10 * 1024 * 1024
                      || (reply.contentLength.Some? && reply.contentLength.value > 10 * 1024 * 1024)))
  {
  }

  /** The body is the chunks one after the other. */
  lemma {:induction false} JoinConcat(a: seq<string>, b: seq<string>)
    ensures Join(a + b) == Join(a) + Join(b) && forall c :: Join([c]) == c
  {
    forall c: string
      ensures Join([c]) == c
    {
      assert [c][..0] == [];
    }
    if b == [] {
      assert a + b == a;
    } else {
      JoinConcat(a, b[..|b| - 1]);
      assert (a + b)[..|a + b| - 1] == a + b[..|b| - 1];
    }
  }

  /** Every request goes to the addresses of one look-up of its own URL, made for that request alone. */
  lemma EveryHopPinned(net: Net, tool: Tool, url: string, headers: Headers, log: seq<Request>, k: nat)
    requires IsRun(net, tool, url, headers, log) && k < |log|
    ensures net.resolve(k, log[k].url) == Some(log[k].ips)
    ensures k > 0 ==>
              && RedirectsOn(net.serve(log[..k]))
              && log[k].url == net.join(log[k - 1].url, net.serve(log[..k]).location)
  {
    assert DueAt(net, tool, url, headers, log, k);
  }

  /** The run is the only one: two runs of one call agree as far as they go, and complete ones are equal. */
  lemma {:induction false} RunsAgree(net: Net, tool: Tool, url: string, headers: Headers, a: seq<Request>,
    b: seq<Request>, n: nat)
    requires IsRun(net, tool, url, headers, a) && IsRun(net, tool, url, headers, b) && n <= |a| && n <= |b|
    ensures a[..n] == b[..n]
  {
    if n > 0 {
      RunsAgree(net, tool, url, headers, a, b, n - 1);
      assert DueAt(net, tool, url, headers, a, n - 1) && DueAt(net, tool, url, headers, b, n - 1);
      assert a[n - 1] == b[n - 1] by {
        if n > 1 {
          assert a[..n - 1][n - 2] == b[..n - 1][n - 2];
        }
      }
      assert a[..n] == a[..n - 1] + [a[n - 1]] && b[..n] == b[..n - 1] + [b[n - 1]];
    }
  }
}
