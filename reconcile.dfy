/** The reconciliation loop of `main` in dnsupater.go, as functions on
    values: what one cycle does to the IP state, which update requests it
    issues and what outcomes it reports, and what a finite run of cycles
    adds up to. The `Loop` module runs the same cycle in place on an
    `IPState` object and is proved against these functions. */
module Reconcile {
  import opened Wrappers
  import opened Config
  import opened Updater

  /** The value of an `IPState`: the last polled address and the address
      the records were last updated to ("" before the first update). */
  datatype Snapshot = Snapshot(current: string, previous: string)

  /** One update attempt: the record and the address it was sent. The URL
      requested is `UpdateURL(record, ip)`. */
  datatype Request = Request(record: DomainConfig, ip: string)

  /** What one attempt reported for its record. */
  datatype UpdateOutcome = UpdateOutcome(record: DomainConfig, result: UpdateResult)

  /** `ipState := &IPState{}`: both fields empty. */
  const Initial: Snapshot := Snapshot("", "")

  /** A cycle fans out exactly when its poll succeeded with an address
      other than the one last synced, by plain string inequality; that is,
      exactly when the cycle moves `previous`. */
  predicate Triggered(s: Snapshot, poll: Option<string>)
    ensures Triggered(s, poll) <==> Step(s, poll).previous != s.previous
  {
    poll.Some? && poll.value != s.previous
  }

  /** The new state after one cycle. A failed poll leaves it alone; a
      successful one overwrites `current`, and after a fan-out `previous`
      follows, so either way both fields end as the polled address. */
  function Step(s: Snapshot, poll: Option<string>): (r: Snapshot)
    ensures poll.None? ==> r == s
    ensures poll.Some? ==> r == Snapshot(poll.value, poll.value)
  {
    match poll
    case None => s
    case Some(ip) =>
      var polled := s.(current := ip);
      if polled.current != polled.previous then polled.(previous := polled.current) else polled
  }

  /** One request per configured record, in configuration order. */
  function FanOut(domains: seq<DomainConfig>, ip: string): (r: seq<Request>)
    ensures |r| == |domains|
    ensures forall k :: 0 <= k < |domains| ==> r[k] == Request(domains[k], ip)
  {
    if domains == [] then [] else [Request(domains[0], ip)] + FanOut(domains[1..], ip)
  }

  /** One outcome per configured record, each from that record's own
      reply alone, so one failure cannot change or hide another. */
  function Outcomes(domains: seq<DomainConfig>, replies: seq<Response>): (r: seq<UpdateOutcome>)
    requires |replies| == |domains|
    ensures |r| == |domains|
    ensures forall k :: 0 <= k < |domains| ==> r[k] == UpdateOutcome(domains[k], Classify(replies[k]))
  {
    if domains == [] then [] else [UpdateOutcome(domains[0], Classify(replies[0]))] + Outcomes(domains[1..], replies[1..])
  }

  /** The requests one cycle issues. */
  function Requests(domains: seq<DomainConfig>, s: Snapshot, poll: Option<string>): (r: seq<Request>)
    ensures !Triggered(s, poll) ==> r == []
    ensures Triggered(s, poll) ==> |r| == |domains|
    ensures Triggered(s, poll) ==> forall k :: 0 <= k < |domains| ==> r[k] == Request(domains[k], poll.value)
  {
    if Triggered(s, poll) then FanOut(domains, poll.value) else []
  }

  /** The outcomes one cycle reports; `replies[k]` is the answer to the
      update of `domains[k]`, used only if that update is attempted. */
  function CycleOutcomes(domains: seq<DomainConfig>, s: Snapshot, poll: Option<string>, replies: seq<Response>): (r: seq<UpdateOutcome>)
    requires |replies| == |domains|
    ensures !Triggered(s, poll) ==> r == []
    ensures Triggered(s, poll) ==> |r| == |domains|
    ensures Triggered(s, poll) ==> forall k :: 0 <= k < |domains| ==> r[k] == UpdateOutcome(domains[k], Classify(replies[k]))
  {
    if Triggered(s, poll) then Outcomes(domains, replies) else []
  }

  // ---------------------------------------------------------------------
  // A finite run of cycles from the initial state. `polls[i]` is the
  // result of the i-th poll. The replies play no part: neither the state
  // nor which records are attempted depends on earlier outcomes.

  /** The state after the cycles: between cycles both fields agree. */
  function Run(polls: seq<Option<string>>): (r: Snapshot)
    ensures r.current == r.previous
    ensures r.previous != "" ==> Some(r.previous) in polls
  {
    if polls == [] then Initial else Step(Run(polls[..|polls| - 1]), polls[|polls| - 1])
  }

  /** Every update request of the cycles, in order: each names a
      configured record and an address some poll returned. */
  function RunRequests(domains: seq<DomainConfig>, polls: seq<Option<string>>): (r: seq<Request>)
    ensures forall k :: 0 <= k < |r| ==> r[k].record in domains && Some(r[k].ip) in polls
  {
    if polls == [] then []
    else
      var before := polls[..|polls| - 1];
      RunRequests(domains, before) + Requests(domains, Run(before), polls[|polls| - 1])
  }

  // An independent account of the same run: the addresses of the
  // successful polls, with each repeat of the address before it dropped.

  /** The addresses returned by the successful polls, in order. */
  function Successes(polls: seq<Option<string>>): seq<string> {
    if polls == [] then []
    else
      match polls[0]
      case None => Successes(polls[1..])
      case Some(ip) => [ip] + Successes(polls[1..])
  }

  /** `ips` without each element equal to the one before it, the first
      element being compared with `prev`. */
  function Dedup(prev: string, ips: seq<string>): seq<string>
    decreases |ips|
  {
    if ips == [] then []
    else if ips[0] != prev then [ips[0]] + Dedup(ips[0], ips[1..])
    else Dedup(prev, ips[1..])
  }

  function LastOr(default: string, ips: seq<string>): string {
    if ips == [] then default else ips[|ips| - 1]
  }

  /** The address of every triggered cycle, in order. */
  function Changes(polls: seq<Option<string>>): seq<string> {
    Dedup("", Successes(polls))
  }

  /** The address of the most recent successful poll, or "". */
  function LastGood(polls: seq<Option<string>>): string {
    LastOr("", Successes(polls))
  }

  /** A fan-out to every record for each address, one after another. */
  function FanOuts(domains: seq<DomainConfig>, ips: seq<string>): seq<Request> {
    if ips == [] then [] else FanOuts(domains, ips[..|ips| - 1]) + FanOut(domains, ips[|ips| - 1])
  }

  lemma {:induction false} SuccessesSnoc(polls: seq<Option<string>>, poll: Option<string>)
    ensures Successes(polls + [poll]) == Successes(polls) + (if poll.Some? then [poll.value] else [])
    decreases |polls|
  {
    if polls == [] {
      assert [poll][1..] == [];
    } else {
      assert (polls + [poll])[1..] == polls[1..] + [poll];
      SuccessesSnoc(polls[1..], poll);
    }
  }

  lemma {:induction false} DedupSnoc(prev: string, ips: seq<string>, ip: string)
    ensures Dedup(prev, ips + [ip]) == Dedup(prev, ips) + (if ip != LastOr(prev, ips) then [ip] else [])
    decreases |ips|
  {
    if ips == [] {
      assert [ip][1..] == [];
    } else {
      assert (ips + [ip])[1..] == ips[1..] + [ip];
      if ips[0] != prev {
        DedupSnoc(ips[0], ips[1..], ip);
        assert LastOr(ips[0], ips[1..]) == LastOr(prev, ips);
      } else {
        DedupSnoc(prev, ips[1..], ip);
        assert LastOr(prev, ips[1..]) == LastOr(prev, ips);
      }
    }
  }

  /** Dropping repeats never changes which address comes last. */
  lemma {:induction false} LastOfDedup(prev: string, ips: seq<string>)
    ensures LastOr(prev, Dedup(prev, ips)) == LastOr(prev, ips)
    decreases |ips|
  {
    if ips != [] {
      if ips[0] != prev {
        LastOfDedup(ips[0], ips[1..]);
      } else {
        LastOfDedup(prev, ips[1..]);
      }
    }
  }

  /** Between cycles both fields hold the address of the last successful
      poll: a failed poll is invisible, and "" stays until the first
      success. */
  lemma {:induction false} RunTracksLastGood(polls: seq<Option<string>>)
    ensures Run(polls) == Snapshot(LastGood(polls), LastGood(polls))
    decreases |polls|
  {
    if polls != [] {
      var before := polls[..|polls| - 1];
      var poll := polls[|polls| - 1];
      assert polls == before + [poll];
      RunTracksLastGood(before);
      SuccessesSnoc(before, poll);
    }
  }

  /** The requests of a whole run are one full fan-out per change of the
      successfully polled address, in order, and nothing else. */
  lemma {:induction false} RunRequestsAreFanOutsOfChanges(domains: seq<DomainConfig>, polls: seq<Option<string>>)
    ensures RunRequests(domains, polls) == FanOuts(domains, Changes(polls))
    decreases |polls|
  {
    if polls != [] {
      var before := polls[..|polls| - 1];
      var poll := polls[|polls| - 1];
      assert polls == before + [poll];
      RunRequestsAreFanOutsOfChanges(domains, before);
      RunTracksLastGood(before);
      SuccessesSnoc(before, poll);
      assert RunRequests(domains, polls) == RunRequests(domains, before) + Requests(domains, Run(before), poll);
      match poll
      case None =>
        assert Successes(polls) == Successes(before) + [] == Successes(before);
        assert Changes(polls) == Changes(before);
        assert RunRequests(domains, polls) == RunRequests(domains, before) + [];
      case Some(ip) =>
        assert Successes(polls) == Successes(before) + [ip];
        DedupSnoc("", Successes(before), ip);
        var changes := Changes(polls);
        if ip != LastGood(before) {
          assert changes == Changes(before) + [ip];
          assert changes[..|changes| - 1] == Changes(before);
        } else {
          assert changes == Changes(before) + [] == Changes(before);
          assert RunRequests(domains, polls) == RunRequests(domains, before) + [] == RunRequests(domains, before);
        }
    }
  }

  /** A successful poll fans out if and only if its address differs from
      the one the most recent fan-out used ("" if there was none). */
  lemma TriggeredIffChangedSinceLastFanOut(polls: seq<Option<string>>, ip: string)
    ensures Triggered(Run(polls), Some(ip)) <==> ip != LastOr("", Changes(polls))
  {
    RunTracksLastGood(polls);
    LastOfDedup("", Successes(polls));
  }

  /** Until a poll succeeds the state is the initial one, so the first
      successful poll of a non-empty address updates every record. */
  lemma {:induction false} FirstSuccessUpdatesEveryRecord(domains: seq<DomainConfig>, polls: seq<Option<string>>, ip: string)
    requires forall i :: 0 <= i < |polls| ==> polls[i].None?
    requires ip != ""
    ensures Run(polls) == Initial
    ensures Requests(domains, Run(polls), Some(ip)) == FanOut(domains, ip)
    decreases |polls|
  {
    if polls != [] {
      FirstSuccessUpdatesEveryRecord(domains, polls[..|polls| - 1], ip);
    }
  }

  /** The first poll fans out only when its address differs from "": the
      initial `previous` is the empty string, so an empty first address is
      taken as no change and updates no record. */
  lemma EmptyFirstPollUpdatesNothing(domains: seq<DomainConfig>)
    ensures !Triggered(Initial, Some(""))
    ensures Requests(domains, Initial, Some("")) == []
    ensures Step(Initial, Some("")) == Initial
  {
  }

  /** A record whose update failed is not tried again while the polled
      address stays the same; only a new address re-triggers every record,
      those that failed included. */
  lemma NoRetryUntilAddressChanges(domains: seq<DomainConfig>, polls: seq<Option<string>>, ip: string)
    ensures ip == LastGood(polls) ==> RunRequests(domains, polls + [Some(ip)]) == RunRequests(domains, polls)
    ensures ip != LastGood(polls) ==> RunRequests(domains, polls + [Some(ip)]) == RunRequests(domains, polls) + FanOut(domains, ip)
  {
    assert (polls + [Some(ip)])[..|polls|] == polls;
    RunTracksLastGood(polls);
  }

  /** Two records polled "1.2.3.4", "1.2.3.4" and then "5.6.7.8": both are
      updated in the first cycle, neither in the second, both again in the
      third, and `previous` ends as "5.6.7.8". */
  lemma TwoRecordScenario(root: DomainConfig, www: DomainConfig)
    ensures var polls := [Some("1.2.3.4"), Some("1.2.3.4"), Some("5.6.7.8")];
      && Run(polls).previous == "5.6.7.8"
      && RunRequests([root, www], polls)
         == [Request(root, "1.2.3.4"), Request(www, "1.2.3.4"), Request(root, "5.6.7.8"), Request(www, "5.6.7.8")]
  {
    var a, b := "1.2.3.4", "5.6.7.8";
    var polls := [Some(a), Some(a), Some(b)];
    var domains := [root, www];
    assert polls[..2] == [Some(a), Some(a)];
    assert polls[..2][..1] == [Some(a)];
    assert polls[..2][..1][..0] == [];
    assert FanOut(domains, a) == [Request(root, a), Request(www, a)];
    assert FanOut(domains, b) == [Request(root, b), Request(www, b)];
    assert Run([Some(a)]) == Snapshot(a, a);
    assert RunRequests(domains, [Some(a)]) == FanOut(domains, a);
    assert Run([Some(a), Some(a)]) == Snapshot(a, a);
    assert RunRequests(domains, [Some(a), Some(a)]) == FanOut(domains, a);
    assert a != b;
    assert RunRequests(domains, polls) == FanOut(domains, a) + FanOut(domains, b);
  }
}
