/** The polling loop of `main` in dnsupater.go, run in place: the
    `IPState` object whose two fields each cycle assigns, and the updater
    that owns it together with the configuration. `Cycle` is one pass of
    the `for {}` loop: poll, compare, fan out, advance, wait. The poll
    result, the provider's replies and the clock readings are given to it
    as inputs. */
module Loop {
  import opened Wrappers
  import opened Config
  import opened Updater
  import opened Scheduler
  import opened Reconcile

  /** The last polled address and the address the records were last
      updated to. */
  class IPState {
    var currentIP: string
    var previousIP: string

    /** `&IPState{}`: both fields are the empty string. */
    constructor ()
      ensures currentIP == "" && previousIP == ""
    {
      currentIP, previousIP := "", "";
    }

    function Value(): Snapshot
      reads this
    {
      Snapshot(currentIP, previousIP)
    }
  }

  /** The locals of `main` that outlive a cycle: the configured records,
      the wait interval and the IP state. The ghost fields record every
      poll result so far and every update request sent so far. */
  class Reconciler {
    const domains: seq<DomainConfig>
    const interval: int
    const ipState: IPState
    ghost var polls: seq<Option<string>>
    ghost var sent: seq<Request>

    /** The state and the requests sent are those of `Run` and
        `RunRequests` over the polls seen so far. */
    ghost predicate Valid()
      reads this, ipState
    {
      ipState.Value() == Run(polls) && sent == RunRequests(domains, polls)
    }

    /** Start-up with an already parsed configuration: the default interval
        applied, the interval converted to a duration, the state empty and
        nothing polled or sent yet. The interval is one the JSON decoder
        accepts into a Go `int`. */
    constructor (parsed: Config)
      requires Int64Range(parsed.checkIntervalMinutes)
      ensures Valid() && polls == [] && sent == []
      ensures domains == parsed.domains
      ensures interval == IntervalTicks(WithDefaults(parsed).checkIntervalMinutes)
      ensures fresh(ipState) && ipState.Value() == Initial
    {
      var config := WithDefaults(parsed);
      domains := config.domains;
      interval := IntervalTicks(config.checkIntervalMinutes);
      ipState := new IPState();
      polls, sent := [], [];
    }

    /** One cycle started at clock reading `start`. `poll` is what
        `getPublicIP` returned (None for an error), `replies[k]` what the
        update of `domains[k]` would get back, and `finished` the clock
        reading when the countdown begins. Returns the outcomes reported,
        in configuration order, and the clock reading at which the next
        cycle starts. */
    method Cycle(start: int, poll: Option<string>, replies: seq<Response>, finished: int)
      returns (outcomes: seq<UpdateOutcome>, wakeAt: int)
      requires Valid()
      requires |replies| == |domains|
      modifies this, ipState
      ensures Valid() && polls == old(polls) + [poll]
      ensures ipState.Value() == Step(old(ipState.Value()), poll)
      ensures sent == old(sent) + Requests(domains, old(ipState.Value()), poll)
      ensures outcomes == CycleOutcomes(domains, old(ipState.Value()), poll, replies)
      ensures wakeAt >= start + interval
      ensures finished >= start + interval ==> wakeAt == finished
      ensures finished < start + interval ==> wakeAt < start + interval + Second
    {
      ghost var before := ipState.Value();
      outcomes := [];
      match poll {
        case None =>
        case Some(ip) =>
          ipState.currentIP := ip;
          if ipState.currentIP != ipState.previousIP {
            outcomes := UpdateAll(ipState.currentIP, replies);
            ipState.previousIP := ipState.currentIP;
          }
      }
      assert (polls + [poll])[..|polls|] == polls;
      polls := polls + [poll];
      var sleeps;
      wakeAt, sleeps := Countdown(interval, start, finished);
    }

    /** The fan-out: one update attempt per configured record, in order,
        each classified on its own, none skipped whatever the earlier
        ones returned. Only the record of requests sent changes. */
    method UpdateAll(ip: string, replies: seq<Response>) returns (outcomes: seq<UpdateOutcome>)
      requires |replies| == |domains|
      modifies this`sent
      ensures sent == old(sent) + FanOut(domains, ip)
      ensures outcomes == Outcomes(domains, replies)
    {
      outcomes := [];
      ghost var attempted: seq<Request> := [];
      for i := 0 to |domains|
        invariant |outcomes| == i && |attempted| == i
        invariant forall k :: 0 <= k < i ==> outcomes[k] == UpdateOutcome(domains[k], Classify(replies[k]))
        invariant forall k :: 0 <= k < i ==> attempted[k] == Request(domains[k], ip)
        invariant sent == old(sent) + attempted
      {
        var result := Classify(replies[i]);
        attempted := attempted + [Request(domains[i], ip)];
        sent := sent + [Request(domains[i], ip)];
        outcomes := outcomes + [UpdateOutcome(domains[i], result)];
      }
      assert attempted == FanOut(domains, ip);
    }
  }

  /** An example client of the contracts above, not part of the model.
      Two records and two distinct addresses `a` and `b`, the first record
      rejected with status 500 on `a`: the second is still updated in that
      cycle; polling `a` again attempts no update at all (no outcome is
      reported), so the failed record is not retried; `b` updates both
      again. */
  method FailedRecordWaitsForNextChange(root: DomainConfig, www: DomainConfig, a: string, b: string)
    requires a != "" && a != b
  {
    assert Int64Range(0);
    var updater := new Reconciler(Config([root, www], 0, "ddns.log"));
    var accepted, rejected := Reply(200, "OK"), Reply(500, "Invalid Password");
    assert Triggered(Initial, Some(a));
    var first, wake1 := updater.Cycle(0, Some(a), [rejected, accepted], 0);
    assert first == [UpdateOutcome(root, Classify(rejected)), UpdateOutcome(www, Updated)];
    assert first[0].result.Failed?;
    assert updater.ipState.Value() == Snapshot(a, a) && !Triggered(Snapshot(a, a), Some(a));
    var second, wake2 := updater.Cycle(wake1, Some(a), [accepted, accepted], wake1);
    assert second == [];
    assert updater.ipState.Value() == Snapshot(a, a) && Triggered(Snapshot(a, a), Some(b));
    var third, wake3 := updater.Cycle(wake2, Some(b), [accepted, accepted], wake2);
    assert third == [UpdateOutcome(root, Updated), UpdateOutcome(www, Updated)];
  }
}
