/** Provisioning: the naming scheme, the three steps that create one server (instance,
    DNS record, connectivity check), and the batch that creates several. What the
    providers, the clock, the network and the random source answer is given as input. */
module Creator {
  import opened Wrappers
  import opened Strings
  import opened Resources
  import opened OpenStack

  /** One draw of `random.choices(string.ascii_lowercase)`: an index into the alphabet. */
  type Pick = i: int | 0 <= i < 26

  /** The five draws behind one `random_string(5)`. */
  type Draw = p: seq<Pick> | |p| == 5 witness [0, 0, 0, 0, 0]

  predicate Lowercase(s: string) {
    forall i :: 0 <= i < |s| ==> 'a' <= s[i] <= 'z'
  }

  /** `random_string(n)`, given the n letters the random source picks. */
  function RandomString(picks: seq<Pick>): (s: string)
    ensures |s| == |picks|
    ensures Lowercase(s)
  {
    seq(|picks|, i requires 0 <= i < |picks| => ('a' as int + picks[i]) as char)
  }

  /** Every lowercase word is a possible `random_string` of its length. */
  lemma RandomStringReachesEveryWord(s: string)
    requires Lowercase(s)
    ensures exists picks: seq<Pick> :: |picks| == |s| && RandomString(picks) == s
  {
    var picks: seq<Pick> := seq(|s|, i requires 0 <= i < |s| => s[i] as int - 'a' as int);
    assert RandomString(picks) == s;
  }

  /** The configuration values provisioning reads. */
  datatype Config = Config(namespace: string, zone: string, connectivityTimeout: real)

  /** The instance name: "namespace-name", the namespace and the name on either side of
      a "-". */
  function InstanceName(namespace: string, name: string): (r: string)
    ensures |r| == |namespace| + 1 + |name| && r[|namespace|] == '-'
    ensures r[..|namespace|] == namespace && r[|namespace| + 1..] == name
  {
    namespace + "-" + name
  }

  /** The DNS sub-domain: "name.namespace", the name and the namespace on either side of
      a ".". */
  function SubDomain(name: string, namespace: string): (r: string)
    ensures |r| == |name| + 1 + |namespace| && r[|name|] == '.'
    ensures r[..|name|] == name && r[|name| + 1..] == namespace
  {
    name + "." + namespace
  }

  /** The domain the server is expected to answer on: "name.namespace.zone", which is the
      record's sub-domain within the zone. */
  function ExpectedDomain(name: string, namespace: string, zone: string): (r: string)
    ensures r == SubDomain(name, namespace) + "." + zone
  {
    name + "." + namespace + "." + zone
  }

  /** One round of `check_connectivity`: the probe got an answer, or it raised and the
      clock then read `now`. */
  datatype Probe = Reached | Unreachable(now: real)

  /** How the connectivity loop ends; `StillWaiting` when the rounds given run out. */
  datatype Wait = Connected | TimedOut | StillWaiting

  function Connectivity(before: real, timeout: real, probes: seq<Probe>): Wait {
    if probes == [] then StillWaiting
    else if probes[0].Reached? then Connected
    else if probes[0].now > before + timeout then TimedOut
    else Connectivity(before, timeout, probes[1..])
  }

  /** A round after which the loop goes on: the probe failed and time is not up. */
  predicate KeepsWaiting(p: Probe, before: real, timeout: real) {
    p.Unreachable? && p.now <= before + timeout
  }

  /** The first round that does not keep waiting decides: an answer (any answer, with no
      status check) connects, a failed probe past the timeout raises. */
  lemma {:induction false} ConnectivityFirstVerdict(before: real, timeout: real,
                                                      probes: seq<Probe>, i: nat)
    requires i < |probes| && !KeepsWaiting(probes[i], before, timeout)
    requires forall j :: 0 <= j < i ==> KeepsWaiting(probes[j], before, timeout)
    ensures Connectivity(before, timeout, probes)
            == if probes[i].Reached? then Connected else TimedOut
  {
    if i > 0 {
      ConnectivityFirstVerdict(before, timeout, probes[1..], i - 1);
    }
  }

  /** The loop has no verdict exactly when every round keeps waiting. */
  lemma {:induction false} ConnectivityStillWaiting(before: real, timeout: real,
                                                      probes: seq<Probe>)
    ensures Connectivity(before, timeout, probes) == StillWaiting <==>
            forall j :: 0 <= j < |probes| ==> KeepsWaiting(probes[j], before, timeout)
  {
    if probes != [] && KeepsWaiting(probes[0], before, timeout) {
      ConnectivityStillWaiting(before, timeout, probes[1..]);
      assert forall j :: 1 <= j < |probes| ==> probes[j] == probes[1..][j - 1];
    }
  }

  /** The one-second sleep bounds the loop: when the clock read after the i-th failed
      probe is at least i + 1 seconds past the start, more than `timeout` rounds always
      reach a verdict. */
  lemma ConnectivityBounded(before: real, timeout: real, probes: seq<Probe>)
    requires timeout >= 0.0
    requires |probes| as real > timeout
    requires forall i :: 0 <= i < |probes| && probes[i].Unreachable? ==>
               probes[i].now >= before + (i + 1) as real
    ensures Connectivity(before, timeout, probes) != StillWaiting
  {
    ConnectivityStillWaiting(before, timeout, probes);
    var last := |probes| - 1;
    assert !KeepsWaiting(probes[last], before, timeout);
  }

  /** `check_connectivity`: probe once per round until a probe answers or a failed
      probe finds the timeout exceeded. */
  method CheckConnectivity(before: real, timeout: real, probes: seq<Probe>)
    returns (wait: Wait)
    ensures wait == Connectivity(before, timeout, probes)
  {
    var i := 0;
    while true
      invariant 0 <= i <= |probes|
      invariant Connectivity(before, timeout, probes[i..]) == Connectivity(before, timeout, probes)
      decreases |probes| - i
    {
      if i == |probes| {
        return StillWaiting;
      }
      assert probes[i..][1..] == probes[i + 1..];
      if probes[i].Reached? {
        return Connected;
      }
      if probes[i].now > before + timeout {
        return TimedOut;
      }
      i := i + 1;
    }
  }

  /** Why the creation of one server failed. */
  datatype Failure =
    | InstanceCreationError   // the instance went to "ERROR"
    | AddressValueError       // the DNS provider's IPv4 check refused the target
    | DnsApiError             // the DNS provider's API raised
    | ConnectivityCheckError  // the connectivity check timed out

  /** `create_record`: the DNS provider checks the target with `ipaddress.IPv4Address`
      (a missing address reaches it as the text "None", which fails), then creates the
      record under "name.namespace" and commits the zone. `dnsAnswer` is the id the
      provider gives the record, or `None` when its API raises. */
  function RecordCreation(name: string, ipAddress: Option<string>, cfg: Config,
                          dnsAnswer: Option<string>): (r: Result<DNSRecord, Failure>)
    ensures r == Failure(AddressValueError) <==> ipAddress.None? || !IsIPv4(ipAddress.value)
    ensures r == Failure(DnsApiError) <==>
              ipAddress.Some? && IsIPv4(ipAddress.value) && dnsAnswer.None?
    ensures r.Failure? ==> r.error == AddressValueError || r.error == DnsApiError
    ensures r.Success? ==>
              && Some(r.value.target) == ipAddress && IsIPv4(r.value.target)
              && Some(r.value.recordId) == dnsAnswer
              && r.value.subDomain == SubDomain(name, cfg.namespace)
              && r.value.zone == cfg.zone
  {
    if ipAddress.None? || !IsIPv4(ipAddress.value) then Failure(AddressValueError)
    else if dnsAnswer.None? then Failure(DnsApiError)
    else Success(DNSRecord(dnsAnswer.value, SubDomain(name, cfg.namespace), ipAddress.value,
                           cfg.zone))
  }

  /** What the outside world answers while one server is created: the successive status
      polls, the DNS provider's answer, the clock at the start of the connectivity check
      and the rounds of that check. */
  datatype World = World(polls: seq<Server>, dnsAnswer: Option<string>, before: real,
                         probes: seq<Probe>)

  /** The provider-facing steps of `create_server`, in the order they are taken. */
  datatype Step =
    | RequestInstance(request: CreateRequest)
    | RequestRecord(subDomain: string, target: Option<string>, zone: string)
    | ProbeDomain(domain: string)

  /** How `create_server` ends: the domain it returns, the exception it raises, or no end
      within the observations given (one of its polling loops is still running). */
  datatype Outcome = Created(domain: string) | Failed(failure: Failure) | Hangs

  datatype Run = Run(outcome: Outcome, steps: seq<Step>)

  function ServerRun(client: InstancesClient, name: string, cfg: Config, w: World): Run {
    var domain := ExpectedDomain(name, cfg.namespace, cfg.zone);
    var instanceName := InstanceName(cfg.namespace, name);
    var s1 := [RequestInstance(CreateRequest(instanceName, client.imageId, client.flavorId))];
    match InstanceCreation(instanceName, w.polls)
    case CreationFailed => Run(Failed(InstanceCreationError), s1)
    case NeverSettles => Run(Hangs, s1)
    case Ready(instance) =>
      var s2 := s1 + [RequestRecord(SubDomain(name, cfg.namespace), instance.ipAddress, cfg.zone)];
      match RecordCreation(name, instance.ipAddress, cfg, w.dnsAnswer)
      case Failure(f) => Run(Failed(f), s2)
      case Success(_) =>
        var s3 := s2 + [ProbeDomain(domain)];
        match Connectivity(w.before, cfg.connectivityTimeout, w.probes)
        case Connected => Run(Created(domain), s3)
        case TimedOut => Run(Failed(ConnectivityCheckError), s3)
        case StillWaiting => Run(Hangs, s3)
  }

  /** The step order of `create_server`: the instance is requested under
      "namespace-name"; only once it is active is the record requested, under
      "name.namespace" with the instance's own address; only once the record exists is
      the expected domain probed. A failure at one step takes no later step, and success
      returns the expected domain. */
  lemma ServerRunSteps(client: InstancesClient, name: string, cfg: Config, w: World)
    ensures var r := ServerRun(client, name, cfg, w);
            var creation := InstanceCreation(InstanceName(cfg.namespace, name), w.polls);
            && 1 <= |r.steps| <= 3
            && r.steps[0] == RequestInstance(CreateRequest(InstanceName(cfg.namespace, name),
                                                           client.imageId, client.flavorId))
            && (|r.steps| >= 2 <==> creation.Ready?)
            && (|r.steps| >= 2 ==>
                  r.steps[1] == RequestRecord(SubDomain(name, cfg.namespace),
                                              creation.instance.ipAddress, cfg.zone))
            && (|r.steps| == 3 <==>
                  creation.Ready?
                  && RecordCreation(name, creation.instance.ipAddress, cfg, w.dnsAnswer).Success?)
            && (|r.steps| == 3 ==>
                  r.steps[2] == ProbeDomain(ExpectedDomain(name, cfg.namespace, cfg.zone)))
            && (r.outcome == Failed(InstanceCreationError) <==> creation.CreationFailed?)
            && (r.outcome == Failed(AddressValueError) || r.outcome == Failed(DnsApiError) ==>
                  |r.steps| == 2)
            && (r.outcome.Created? ==>
                  |r.steps| == 3 && r.outcome.domain == ExpectedDomain(name, cfg.namespace, cfg.zone))
            && (r.outcome == Failed(ConnectivityCheckError) ==> |r.steps| == 3)
  {
  }

  /** The DNS provider's IPv4 check can only refuse an instance without an address:
      every address `get_ipv4` returns passes it. */
  lemma AddressErrorIffNoAddress(client: InstancesClient, name: string, cfg: Config, w: World)
    ensures var creation := InstanceCreation(InstanceName(cfg.namespace, name), w.polls);
            ServerRun(client, name, cfg, w).outcome == Failed(AddressValueError) <==>
              creation.Ready? && creation.instance.ipAddress.None?
  {
    var polls := w.polls;
    match StatusPoll(polls)
    case Activated(s) =>
      Ipv4OfSpec(s);
    case Errored =>
    case Building =>
  }

  /** `create_server`: create the instance, create its DNS record from the address the
      instance got, wait for the domain to answer, return the expected domain. */
  method CreateServer(client: InstancesClient, name: string, cfg: Config, w: World)
    returns (run: Run)
    ensures run == ServerRun(client, name, cfg, w)
  {
    var expectedDomain := ExpectedDomain(name, cfg.namespace, cfg.zone);
    var request, creation := client.CreateInstance(InstanceName(cfg.namespace, name), w.polls);
    var steps := [RequestInstance(request)];
    if creation.CreationFailed? {
      return Run(Failed(InstanceCreationError), steps);
    } else if creation.NeverSettles? {
      return Run(Hangs, steps);
    }
    var ipAddress := creation.instance.ipAddress;
    steps := steps + [RequestRecord(SubDomain(name, cfg.namespace), ipAddress, cfg.zone)];
    var record := RecordCreation(name, ipAddress, cfg, w.dnsAnswer);
    if record.Failure? {
      return Run(Failed(record.error), steps);
    }
    steps := steps + [ProbeDomain(expectedDomain)];
    var wait := CheckConnectivity(w.before, cfg.connectivityTimeout, w.probes);
    match wait
    case Connected => run := Run(Created(expectedDomain), steps);
    case TimedOut => run := Run(Failed(ConnectivityCheckError), steps);
    case StillWaiting => run := Run(Hangs, steps);
  }

  /** The domains of the servers created, in creation order. */
  function CreatedDomains(os: seq<Outcome>): seq<string> {
    if os == [] then []
    else CreatedDomains(os[..|os| - 1])
         + (if os[|os| - 1].Created? then [os[|os| - 1].domain] else [])
  }

  /** The number of servers whose creation raised. */
  function Failures(os: seq<Outcome>): nat {
    if os == [] then 0
    else Failures(os[..|os| - 1]) + (if os[|os| - 1].Failed? then 1 else 0)
  }

  /** No creation in `os` hangs. */
  predicate Settled(os: seq<Outcome>) {
    forall i :: 0 <= i < |os| ==> !os[i].Hangs?
  }

  /** Which of the three closing messages `create` prints. */
  datatype Summary = AllCreated | SomeCreated(created: nat, total: nat) | AllFailed

  function Summarize(failures: nat, total: nat): Summary {
    if failures < total then
      if failures > 0 then SomeCreated(total - failures, total) else AllCreated
    else AllFailed
  }

  /** What `create` ends with: the outcome of the single creation, the summary of a batch,
      or a batch stuck in the creation after the servers counted so far. */
  datatype Report =
    | Single(outcome: Outcome)
    | Batch(domains: seq<string>, failures: nat, summary: Summary)
    | BatchHangs(domains: seq<string>, failures: nat)

  /** The report of a batch whose creations, in order, end as `os`; the batch stops at
      the first creation that hangs. */
  function BatchReport(os: seq<Outcome>): Report {
    var h := FirstHang(os);
    if h < |os| then BatchHangs(CreatedDomains(os[..h]), Failures(os[..h]))
    else Batch(CreatedDomains(os), Failures(os), Summarize(Failures(os), |os|))
  }

  /** Position of the first creation that hangs, or `|os|`. */
  function FirstHang(os: seq<Outcome>): (h: nat)
    ensures h <= |os|
    ensures h < |os| ==> os[h].Hangs?
    ensures forall j :: 0 <= j < h ==> !os[j].Hangs?
  {
    if os == [] then 0
    else if os[0].Hangs? then 0
    else 1 + FirstHang(os[1..])
  }

  /** Every creation in a settled batch is counted once: as a created domain or as a
      failure. */
  lemma {:induction false} BatchAccounting(os: seq<Outcome>)
    requires Settled(os)
    ensures |CreatedDomains(os)| + Failures(os) == |os|
  {
    if os != [] {
      BatchAccounting(os[..|os| - 1]);
    }
  }

  /** The created domains are exactly the domains of the successful creations. */
  lemma {:induction false} CreatedDomainsExactly(os: seq<Outcome>)
    ensures forall d :: d in CreatedDomains(os) <==> Created(d) in os
  {
    if os != [] {
      var front := os[..|os| - 1];
      CreatedDomainsExactly(front);
      assert os == front + [os[|os| - 1]];
    }
  }

  /** The closing message of a settled batch: "all created" exactly when every creation
      succeeded, "all failed" exactly when none did, and otherwise the count of created
      servers over the total. */
  lemma SummaryChoice(os: seq<Outcome>)
    requires Settled(os) && |os| > 1
    ensures var s := Summarize(Failures(os), |os|);
            && (s == AllCreated <==> forall i :: 0 <= i < |os| ==> os[i].Created?)
            && (s == AllFailed <==> forall i :: 0 <= i < |os| ==> os[i].Failed?)
            && (s.SomeCreated? ==> s.created == |CreatedDomains(os)| && 0 < s.created < |os|)
  {
    BatchAccounting(os);
    CountBounds(os);
  }

  /** No failure means all created; as many failures as creations means none created. */
  lemma {:induction false} CountBounds(os: seq<Outcome>)
    requires Settled(os)
    ensures Failures(os) == 0 <==> forall i :: 0 <= i < |os| ==> os[i].Created?
    ensures Failures(os) == |os| <==> forall i :: 0 <= i < |os| ==> os[i].Failed?
  {
    if os != [] {
      var front := os[..|os| - 1];
      CountBounds(front);
      BatchAccounting(front);
      assert forall i :: 0 <= i < |front| ==> front[i] == os[i];
    }
  }

  /** Three servers of which the second fails: "2 servers over 3", listing the two domains. */
  lemma BatchWithOneFailure(a: string, b: string)
    ensures BatchReport([Created(a), Failed(InstanceCreationError), Created(b)])
            == Batch([a, b], 1, SomeCreated(2, 3))
  {
    var os := [Created(a), Failed(InstanceCreationError), Created(b)];
    var one, two := os[..1], os[..2];
    assert one[..0] == [] && two[..1] == one && os[..2] == two;
    assert CreatedDomains(one) == [a] && Failures(one) == 0;
    assert CreatedDomains(two) == [a] && Failures(two) == 1;
    assert CreatedDomains(os) == [a, b] && Failures(os) == 1;
    assert FirstHang(os) == 3;
  }

  /** `int(args.number)` when given, 1 otherwise. */
  function NumberToCreate(number: Option<int>): int {
    if number.Some? then number.value else 1
  }

  /** The outcomes of a batch of n creations, each under a fresh random name. */
  function BatchOutcomes(client: InstancesClient, cfg: Config, n: nat, draws: nat -> Draw,
                         worlds: nat -> World): (os: seq<Outcome>)
    ensures |os| == n
  {
    seq(n, i requires 0 <= i < n => ServerRun(client, RandomString(draws(i)), cfg, worlds(i)).outcome)
  }

  /** `create`: more than one server to create runs the batch, carrying on after each
      failure; otherwise (including a number of zero or less) one server is created,
      under the given name or a random one. */
  method Create(client: InstancesClient, cfg: Config, number: Option<int>, name: Option<string>,
                draws: nat -> Draw, worlds: nat -> World)
    returns (report: Report)
    ensures NumberToCreate(number) > 1 ==>
              report == BatchReport(BatchOutcomes(client, cfg, NumberToCreate(number), draws, worlds))
    ensures NumberToCreate(number) <= 1 ==>
              var chosen := if name.Some? then name.value else RandomString(draws(0));
              report == Single(ServerRun(client, chosen, cfg, worlds(0)).outcome)
  {
    var numberToCreate := NumberToCreate(number);
    if numberToCreate > 1 {
      report := CreateBatch(client, cfg, numberToCreate, draws, worlds);
    } else {
      var chosen := if name.Some? then name.value else RandomString(draws(0));
      var run := CreateServer(client, chosen, cfg, worlds(0));
      report := Single(run.outcome);
    }
  }

  /** The batch loop of `create`: n servers under fresh random names, each counted as
      created or failed, the loop carrying on after a failure. */
  method CreateBatch(client: InstancesClient, cfg: Config, n: nat, draws: nat -> Draw,
                     worlds: nat -> World)
    returns (report: Report)
    ensures report == BatchReport(BatchOutcomes(client, cfg, n, draws, worlds))
  {
    ghost var os := BatchOutcomes(client, cfg, n, draws, worlds);
    var serverDomainNames: seq<string> := [];
    var failures: nat := 0;
    var i := 0;
    while i < n
      invariant 0 <= i <= n
      invariant Settled(os[..i])
      invariant serverDomainNames == CreatedDomains(os[..i])
      invariant failures == Failures(os[..i])
    {
      var run := CreateServer(client, RandomString(draws(i)), cfg, worlds(i));
      assert run.outcome == os[i];
      if run.outcome.Hangs? {
        HangStopsBatch(os, i);
        return BatchHangs(serverDomainNames, failures);
      }
      BatchStep(os, i);
      if run.outcome.Created? {
        serverDomainNames := serverDomainNames + [run.outcome.domain];
      } else {
        failures := failures + 1;
      }
      i := i + 1;
    }
    assert os[..n] == os;
    report := Batch(serverDomainNames, failures, Summarize(failures, n));
  }

  /** One more settled creation: its domain is added when it was created, the failure
      count grows by one when it failed. */
  lemma BatchStep(os: seq<Outcome>, i: nat)
    requires i < |os| && Settled(os[..i]) && !os[i].Hangs?
    ensures Settled(os[..i + 1])
    ensures CreatedDomains(os[..i + 1])
            == CreatedDomains(os[..i]) + (if os[i].Created? then [os[i].domain] else [])
    ensures Failures(os[..i + 1]) == Failures(os[..i]) + (if os[i].Failed? then 1 else 0)
  {
    assert os[..i + 1][..i] == os[..i] && os[..i + 1][i] == os[i];
  }

  /** A batch whose first hanging creation is at `i` stops there. */
  lemma HangStopsBatch(os: seq<Outcome>, i: nat)
    requires i < |os| && os[i].Hangs? && Settled(os[..i])
    ensures BatchReport(os) == BatchHangs(CreatedDomains(os[..i]), Failures(os[..i]))
  {
    FirstHangIs(os, i);
  }

  lemma {:induction false} FirstHangIs(os: seq<Outcome>, i: nat)
    requires i < |os| && os[i].Hangs? && Settled(os[..i])
    ensures FirstHang(os) == i
  {
    if i > 0 {
      assert !os[0].Hangs? by { assert os[..i][0] == os[0]; }
      assert os[1..][..i - 1] == os[..i][1..];
      FirstHangIs(os[1..], i - 1);
    }
  }
}
