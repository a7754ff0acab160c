/** The values the providers hand back and the entries dictionary that listing and
    deletion share. */
module Resources {
  import opened Wrappers

  /** The short per-host identifier that joins an instance with its DNS record. */
  type Label = string

  /** A Nova server as the provider lists it. `addresses` maps a network name to the
      `addr` field of each of its interfaces, in interface order. */
  datatype Server = Server(id: string, name: string, status: string,
                           addresses: map<string, seq<string>>)

  /** The provider-neutral instance the instances client returns. */
  datatype Instance = Instance(instanceId: string, name: string,
                               ipAddress: Option<string>, status: string)

  /** A DNS A record: its sub-domain within `zone` and the address it points to. */
  datatype DNSRecord = DNSRecord(recordId: string, subDomain: string, target: string,
                                 zone: string)

  /** One entry of the listing: the server and the DNS record found for a label. The
      listing stores them under the dictionary keys "instance" and "domain". */
  datatype Entry = Entry(instance: Option<Server>, domain: Option<DNSRecord>)

  /** An insertion-ordered dictionary from labels to entries: `keys` is its iteration
      order. */
  datatype Dict = Dict(keys: seq<Label>, entries: map<Label, Entry>)

  predicate NonEmpty(e: Entry) {
    e.instance.Some? || e.domain.Some?
  }

  predicate Distinct(ks: seq<Label>) {
    forall i, j :: 0 <= i < j < |ks| ==> ks[i] != ks[j]
  }

  /** Every key listed once, the order and the map agree on the keys, and no entry is
      empty (an entry is only created together with its first field). */
  ghost predicate WellFormed(d: Dict) {
    && Distinct(d.keys)
    && (forall k :: k in d.keys <==> k in d.entries)
    && (forall k :: k in d.entries ==> NonEmpty(d.entries[k]))
  }

  const EmptyDict: Dict := Dict([], map[])

  /** Appending a key not yet listed keeps the keys distinct. */
  lemma DistinctAppend(ks: seq<Label>, l: Label)
    requires Distinct(ks) && l !in ks
    ensures Distinct(ks + [l])
  {
    var all := ks + [l];
    forall i, j | 0 <= i < j < |all|
      ensures all[i] != all[j]
    {
      assert all[i] == ks[i];
      if j < |ks| {
        assert all[j] == ks[j];
      } else {
        assert ks[i] in ks;
      }
    }
  }
}
