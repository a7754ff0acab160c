/** The OpenStack instances provider: reading a server's public IPv4 address, waiting
    for a new server to settle, and turning listed servers into instances. The Nova SDK
    is not modelled: what it answers is given as input (the servers it lists, the
    successive answers of the status poll). */
module OpenStack {
  import opened Wrappers
  import opened Strings
  import opened Resources

  /** The public-facing network whose interfaces carry the address. */
  const ExtNet := "Ext-Net"
  const Active := "ACTIVE"
  const Error := "ERROR"

  /** The last address of `addrs`, in interface order, that passes the IPv4 check. */
  function LastIPv4(addrs: seq<string>): Option<string>
  {
    if addrs == [] then None
    else if IsIPv4(addrs[|addrs| - 1]) then Some(addrs[|addrs| - 1])
    else LastIPv4(addrs[..|addrs| - 1])
  }

  /** The address `get_ipv4` reads from a server. */
  function Ipv4Of(server: Server): Option<string> {
    if ExtNet in server.addresses then LastIPv4(server.addresses[ExtNet]) else None
  }

  /** `LastIPv4` is an address of the list that passes the check, and no address after
      it passes; it is `None` exactly when no address passes. */
  lemma {:induction false} LastIPv4IsLastValid(addrs: seq<string>)
    ensures LastIPv4(addrs).None? <==> forall i :: 0 <= i < |addrs| ==> !IsIPv4(addrs[i])
    ensures LastIPv4(addrs).Some? ==>
              exists i :: 0 <= i < |addrs| && addrs[i] == LastIPv4(addrs).value && IsIPv4(addrs[i])
                          && forall j :: i < j < |addrs| ==> !IsIPv4(addrs[j])
  {
    if addrs != [] {
      var n := |addrs| - 1;
      var front := addrs[..n];
      if IsIPv4(addrs[n]) {
        assert LastIPv4(addrs) == Some(addrs[n]);
      } else {
        assert LastIPv4(addrs) == LastIPv4(front);
        LastIPv4IsLastValid(front);
        assert forall i :: 0 <= i < n ==> front[i] == addrs[i];
        if LastIPv4(front).Some? {
          var i :| 0 <= i < n && front[i] == LastIPv4(front).value && IsIPv4(front[i])
                   && forall j :: i < j < n ==> !IsIPv4(front[j]);
          assert addrs[i] == LastIPv4(addrs).value && IsIPv4(addrs[i]);
          assert forall j :: i < j < |addrs| ==> !IsIPv4(addrs[j]);
        }
      }
    }
  }

  /** `get_ipv4`: no address without an "Ext-Net" network; otherwise the last valid IPv4
      address among its interfaces. A result is always one of the interface addresses
      and always passes the IPv4 check. */
  lemma Ipv4OfSpec(server: Server)
    ensures ExtNet !in server.addresses ==> Ipv4Of(server).None?
    ensures Ipv4Of(server).Some? ==>
              ExtNet in server.addresses && Ipv4Of(server).value in server.addresses[ExtNet]
              && IsIPv4(Ipv4Of(server).value)
    ensures ExtNet in server.addresses ==>
              (Ipv4Of(server).None? <==>
                 forall a :: a in server.addresses[ExtNet] ==> !IsIPv4(a))
  {
    if ExtNet in server.addresses {
      LastIPv4IsLastValid(server.addresses[ExtNet]);
    }
  }

  /** `get_ipv4`, walking the interfaces and keeping the last valid address seen. */
  method GetIpv4(server: Server) returns (ipAddress: Option<string>)
    ensures ipAddress == Ipv4Of(server)
  {
    if ExtNet !in server.addresses {
      return None;
    }
    var interfaces := server.addresses[ExtNet];
    ipAddress := None;
    for i := 0 to |interfaces|
      invariant ipAddress == LastIPv4(interfaces[..i])
    {
      assert interfaces[..i + 1][..i] == interfaces[..i];
      var address := interfaces[i];
      if IsIPv4(address) {
        ipAddress := Some(address);
      }
    }
    assert interfaces[..|interfaces|] == interfaces;
  }

  /** A polled server neither active nor in error: the status loop polls again. */
  predicate Undecided(s: Server) {
    s.status != Active && s.status != Error
  }

  /** Where the status loop ends over successive polls: at the first "ACTIVE" or
      "ERROR" status; `Building` if the observations run out first (the source keeps
      polling for ever). */
  datatype Poll = Activated(server: Server) | Errored | Building

  function StatusPoll(polls: seq<Server>): Poll {
    if polls == [] then Building
    else if polls[0].status == Error then Errored
    else if polls[0].status == Active then Activated(polls[0])
    else StatusPoll(polls[1..])
  }

  /** The first poll that is not undecided settles the loop: "ACTIVE" returns that
      server, "ERROR" fails. */
  lemma {:induction false} StatusPollFirstDecided(polls: seq<Server>, i: nat)
    requires i < |polls| && !Undecided(polls[i])
    requires forall j :: 0 <= j < i ==> Undecided(polls[j])
    ensures StatusPoll(polls) == if polls[i].status == Active then Activated(polls[i]) else Errored
  {
    if i > 0 {
      StatusPollFirstDecided(polls[1..], i - 1);
    }
  }

  /** The loop never settles exactly when no poll is decided. */
  lemma {:induction false} StatusPollBuilding(polls: seq<Server>)
    ensures StatusPoll(polls).Building? <==> forall j :: 0 <= j < |polls| ==> Undecided(polls[j])
  {
    if polls != [] && Undecided(polls[0]) {
      StatusPollBuilding(polls[1..]);
      assert forall j :: 1 <= j < |polls| ==> polls[j] == polls[1..][j - 1];
    }
  }

  /** What `create_instance` sends to Nova. */
  datatype CreateRequest = CreateRequest(name: string, image: string, flavor: string)

  /** What `create_instance` ends with: the new instance, `InstanceCreationError`, or
      no verdict within the observations given. */
  datatype Creation = Ready(instance: Instance) | CreationFailed | NeverSettles

  function InstanceCreation(name: string, polls: seq<Server>): Creation {
    match StatusPoll(polls)
    case Activated(s) => Ready(Instance(s.id, name, Ipv4Of(s), Active))
    case Errored => CreationFailed
    case Building => NeverSettles
  }

  /** A new instance carries the requested name, status "ACTIVE", and the address and id
      of the first active poll, provided no earlier poll reported "ERROR". */
  lemma InstanceCreationReady(name: string, polls: seq<Server>, i: nat)
    requires i < |polls| && polls[i].status == Active
    requires forall j :: 0 <= j < i ==> Undecided(polls[j])
    ensures InstanceCreation(name, polls)
            == Ready(Instance(polls[i].id, name, Ipv4Of(polls[i]), Active))
    ensures InstanceCreation(name, polls).instance.ipAddress.Some? ==>
              IsIPv4(InstanceCreation(name, polls).instance.ipAddress.value)
  {
    StatusPollFirstDecided(polls, i);
    Ipv4OfSpec(polls[i]);
  }

  /** The OpenStack instances client: the image and flavour every new server uses. */
  class InstancesClient {
    const imageId: string
    const flavorId: string

    constructor (imageId: string, flavorId: string)
      ensures this.imageId == imageId && this.flavorId == flavorId
    {
      this.imageId := imageId;
      this.flavorId := flavorId;
    }

    /** `create_instance`: request the server, then poll its status until it is
        "ACTIVE" (return it) or "ERROR" (raise). */
    method CreateInstance(name: string, polls: seq<Server>)
      returns (request: CreateRequest, result: Creation)
      ensures request == CreateRequest(name, imageId, flavorId)
      ensures result == InstanceCreation(name, polls)
    {
      request := CreateRequest(name, imageId, flavorId);
      // Stands for the server object `servers.create` returns; the loop replaces it
      // with a polled one before it is read.
      var server := Server("", name, "", map[]);
      var status := "";
      var i := 0;
      while status != Active
        invariant 0 <= i <= |polls|
        invariant status != Active ==> StatusPoll(polls[i..]) == StatusPoll(polls)
        invariant status == Active ==> StatusPoll(polls) == Activated(server)
        decreases |polls| - i
      {
        if i == |polls| {
          return request, NeverSettles;
        }
        assert polls[i..][1..] == polls[i + 1..];
        server := polls[i];
        status := server.status;
        if status == Error {
          return request, CreationFailed;
        }
        i := i + 1;
      }
      var ipAddress := GetIpv4(server);
      result := Ready(Instance(server.id, name, ipAddress, status));
    }

    /** `get_instances`: one instance per listed server, in the same order, with id,
        name and status copied and the address read by `get_ipv4`. */
    method GetInstances(servers: seq<Server>) returns (instances: seq<Instance>)
      ensures |instances| == |servers|
      ensures forall i :: 0 <= i < |servers| ==>
                instances[i] == Instance(servers[i].id, servers[i].name, Ipv4Of(servers[i]),
                                         servers[i].status)
    {
      instances := [];
      for i := 0 to |servers|
        invariant |instances| == i
        invariant forall k :: 0 <= k < i ==>
                    instances[k] == Instance(servers[k].id, servers[k].name,
                                             Ipv4Of(servers[k]), servers[k].status)
      {
        var ipAddress := GetIpv4(servers[i]);
        instances := instances + [Instance(servers[i].id, servers[i].name, ipAddress,
                                           servers[i].status)];
      }
    }
  }
}
