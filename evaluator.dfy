/** Evaluation of one DNS server: `evaluate_dns` (src/dns_tester.py:52-73).
    The two probes are inputs: the output ping printed for the server, and
    for each hostname the output nslookup printed when asked to resolve it
    through the server. */
module Evaluator {
  import opened Wrappers
  import opened Probes
  import opened Ranking

  /** How many echo requests ping sends. */
  const PingRepeat: int := 10

  /** The sites resolved when the caller names none. */
  const DefaultSites: seq<string> := ["google.com"]

  /** `None` stands for the default list; an empty list stays empty. */
  function SiteList(sites: Option<seq<string>>): (names: seq<string>)
    ensures sites.None? ==> names == DefaultSites
    ensures sites.Some? ==> names == sites.value
  {
    match sites
    case None => DefaultSites
    case Some(names) => names
  }

  /** The ping verdicts `evaluate_dns` carries on after: four statistics, or
      ping not supported. */
  predicate PingUsable(ping: Result<seq<string>>) {
    ping == Fail(PingNotSupported) || (ping.Ok? && |ping.value| == 4)
  }

  /** Field `k` of the ping statistics, absent when ping is not supported. */
  function Stat(ping: Result<seq<string>>, k: nat): Option<string> {
    if ping.Ok? && k < |ping.value| then Some(ping.value[k]) else None
  }

  /** `evaluate_dns`: ping the server, then resolve every site through it.
      A failure of ping other than "not supported" is passed on, and so is
      the first failing lookup; otherwise the result holds the average and
      the standard deviation ping reported (absent when not supported) and
      whether every site resolved. */
  method EvaluateDns(pingOutput: string, sites: Option<seq<string>>, lookupOutput: string -> string)
    returns (r: Result<ServerResult<string>>)
    ensures var ping := PingEval(pingOutput, PingRepeat);
      ping.Fail? && ping.failure != PingNotSupported ==> r == Fail(ping.failure)
    ensures var ping := PingEval(pingOutput, PingRepeat);
      ping.Ok? && |ping.value| != 4 ==> r == Fail(ValueError)
    ensures var ping, names := PingEval(pingOutput, PingRepeat), SiteList(sites);
      PingUsable(ping) && (forall j :: 0 <= j < |names| ==> NslookupEval(lookupOutput(names[j])).Ok?) ==>
        r == Ok(ServerResult(Stat(ping, 1), Stat(ping, 3),
                             forall j :: 0 <= j < |names| ==> NslookupEval(lookupOutput(names[j])) == Ok(true)))
    ensures var ping, names := PingEval(pingOutput, PingRepeat), SiteList(sites);
      PingUsable(ping) && r.Fail? ==>
        exists k :: 0 <= k < |names| && NslookupEval(lookupOutput(names[k])) == Fail(r.failure)
          && forall j :: 0 <= j < k ==> NslookupEval(lookupOutput(names[j])).Ok?
    ensures var ping, names := PingEval(pingOutput, PingRepeat), SiteList(sites);
      PingUsable(ping) && (exists j :: 0 <= j < |names| && NslookupEval(lookupOutput(names[j])).Fail?) ==>
        r.Fail?
  {
    var avg: Option<string> := None;
    var stddev: Option<string> := None;
    var ping := PingEval(pingOutput, PingRepeat);
    match ping {
      case Fail(failure) =>
        if failure != PingNotSupported {
          return Fail(failure);
        }
      case Ok(stats) =>
        if |stats| != 4 {
          return Fail(ValueError);
        }
        avg, stddev := Some(stats[1]), Some(stats[3]);
    }
    var found := ResolveAll(SiteList(sites), lookupOutput);
    if found.Fail? {
      return Fail(found.failure);
    }
    return Ok(ServerResult(avg, stddev, found.value));
  }

  /** The site loop of `evaluate_dns`: every site is looked up in order; a
      lookup that fails ends the loop with its failure, otherwise the result
      says whether every site resolved. */
  method ResolveAll(names: seq<string>, lookupOutput: string -> string) returns (r: Result<bool>)
    ensures (forall j :: 0 <= j < |names| ==> NslookupEval(lookupOutput(names[j])).Ok?) ==>
      r == Ok(forall j :: 0 <= j < |names| ==> NslookupEval(lookupOutput(names[j])) == Ok(true))
    ensures r.Fail? ==>
      exists k :: 0 <= k < |names| && NslookupEval(lookupOutput(names[k])) == r
        && forall j :: 0 <= j < k ==> NslookupEval(lookupOutput(names[j])).Ok?
    ensures r.Ok? ==> forall j :: 0 <= j < |names| ==> NslookupEval(lookupOutput(names[j])).Ok?
  {
    var found := true;
    for k := 0 to |names|
      invariant forall j :: 0 <= j < k ==> NslookupEval(lookupOutput(names[j])).Ok?
      invariant found <==> forall j :: 0 <= j < k ==> NslookupEval(lookupOutput(names[j])) == Ok(true)
    {
      var res := NslookupEval(lookupOutput(names[k]));
      if res.Fail? {
        return res;
      }
      if !res.value {
        found := false;
      }
    }
    return Ok(found);
  }
}
