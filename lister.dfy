/** Listing: instances and DNS records are gathered separately into one dictionary keyed
    by a label derived from their names, then each entry is sorted as complete, orphaned
    domain or orphaned instance. */
module Lister {
  import opened Wrappers
  import opened Strings
  import opened Resources
  import opened Seqs
  import opened OpenStack
  import Creator

  /** `instance.name.split("-", 1)[1]`: the text after the first "-"; `None` where the name
      holds no "-" and the indexing raises `IndexError`. */
  function InstanceLabel(name: string): (lbl: Option<Label>)
    ensures lbl.None? <==> '-' !in name
  {
    var parts := SplitOnce(name, '-');
    if |parts| == 2 then Some(parts[1]) else None
  }

  /** The label of an instance is what follows the first "-" of its name. */
  lemma InstanceLabelSpec(name: string)
    ensures InstanceLabel(name).Some? ==>
              var n := |name| - |InstanceLabel(name).value|;
              0 < n && name[n - 1] == '-' && '-' !in name[..n - 1] && name[n..] == InstanceLabel(name).value
  {
    var parts := SplitOnce(name, '-');
    if |parts| == 2 {
      assert name[..|parts[0]|] == parts[0] && name[|parts[0]| + 1..] == parts[1];
    }
  }

  /** `record["subDomain"].split(".", 1)[0]`: the text before the first "." (all of it
      when there is no "."). */
  function RecordLabel(subDomain: string): Label {
    SplitOnce(subDomain, '.')[0]
  }

  /** The label of a record is the longest prefix of its sub-domain holding no ".". */
  lemma RecordLabelSpec(subDomain: string)
    ensures var lbl := RecordLabel(subDomain);
            && |lbl| <= |subDomain| && subDomain[..|lbl|] == lbl
            && '.' !in lbl
            && (|lbl| < |subDomain| ==> subDomain[|lbl|] == '.')
  {
    var parts := SplitOnce(subDomain, '.');
    assert |parts| == 2 ==> subDomain[..|parts[0]|] == parts[0];
  }

  /** An instance named by the creator ("namespace-label") gets its label back, provided
      the namespace holds no "-". */
  lemma InstanceLabelOfInstanceName(namespace: string, lbl: Label)
    requires '-' !in namespace
    ensures InstanceLabel(Creator.InstanceName(namespace, lbl)) == Some(lbl)
  {
    SplitOnceOfJoin(namespace, '-', lbl);
    assert Creator.InstanceName(namespace, lbl) == namespace + ['-'] + lbl;
  }

  /** A record named by the creator ("label.namespace") gets its label back, provided the
      label holds no ".". */
  lemma RecordLabelOfSubDomain(lbl: Label, namespace: string)
    requires '.' !in lbl
    ensures RecordLabel(Creator.SubDomain(lbl, namespace)) == lbl
  {
    SplitOnceOfJoin(lbl, '.', namespace);
    assert Creator.SubDomain(lbl, namespace) == lbl + ['.'] + namespace;
  }

  /** With a namespace holding a "-", the two halves of one server get different labels:
      in the namespace "a-b", the instance of `lbl` is listed under "b-lbl" and its
      record under `lbl`, so neither joins the other. */
  lemma DashedNamespaceSplitsEntry(a: string, b: string, lbl: Label)
    requires '-' !in a && '.' !in lbl
    ensures InstanceLabel(Creator.InstanceName(a + "-" + b, lbl)) == Some(b + "-" + lbl)
    ensures RecordLabel(Creator.SubDomain(lbl, a + "-" + b)) == lbl
    ensures b + "-" + lbl != lbl
  {
    SplitOnceOfJoin(a, '-', b + "-" + lbl);
    assert Creator.InstanceName(a + "-" + b, lbl) == a + ['-'] + (b + "-" + lbl);
    RecordLabelOfSubDomain(lbl, a + "-" + b);
  }

  /** The dictionary after storing `s` under "instance" in `entries_dict[l]`. */
  function PutInstance(m: map<Label, Entry>, l: Label, s: Server): map<Label, Entry> {
    if l in m then m[l := m[l].(instance := Some(s))] else m[l := Entry(Some(s), None)]
  }

  /** The dictionary after storing `rec` under "domain" in `entries_dict[l]`. */
  function PutDomain(m: map<Label, Entry>, l: Label, rec: DNSRecord): map<Label, Entry> {
    if l in m then m[l := m[l].(domain := Some(rec))] else m[l := Entry(None, Some(rec))]
  }

  /** One step of `gather_instances`: store `s` as the instance of label `l`. */
  function WithInstance(d: Dict, l: Label, s: Server): Dict {
    Dict(if l in d.entries then d.keys else d.keys + [l], PutInstance(d.entries, l, s))
  }

  /** An existing label has only its instance set or replaced; a new label is appended
      with an entry holding only the instance; no other key changes. */
  lemma WithInstanceSpec(d: Dict, l: Label, s: Server)
    ensures var r := WithInstance(d, l, s);
            && r.entries.Keys == d.entries.Keys + {l}
            && r.entries[l].instance == Some(s)
            && r.entries[l].domain == (if l in d.entries then d.entries[l].domain else None)
            && (forall k :: k in d.entries && k != l ==> r.entries[k] == d.entries[k])
            && r.keys == (if l in d.entries then d.keys else d.keys + [l])
  {
  }

  /** One step of `gather_domains`: store `rec` as the record of label `l`. */
  function WithDomain(d: Dict, l: Label, rec: DNSRecord): Dict {
    Dict(if l in d.entries then d.keys else d.keys + [l], PutDomain(d.entries, l, rec))
  }

  /** Symmetric to `WithInstanceSpec`. */
  lemma WithDomainSpec(d: Dict, l: Label, rec: DNSRecord)
    ensures var r := WithDomain(d, l, rec);
            && r.entries.Keys == d.entries.Keys + {l}
            && r.entries[l].domain == Some(rec)
            && r.entries[l].instance == (if l in d.entries then d.entries[l].instance else None)
            && (forall k :: k in d.entries && k != l ==> r.entries[k] == d.entries[k])
            && r.keys == (if l in d.entries then d.keys else d.keys + [l])
  {
  }

  predicate AllLabelled(servers: seq<Server>) {
    forall i :: 0 <= i < |servers| ==> '-' in servers[i].name
  }

  /** `gather_instances` over the listed servers, stopping at the first name without "-"
      (where the source raises). */
  function MergeInstances(d: Dict, servers: seq<Server>): (r: Dict)
    decreases servers
  {
    if servers == [] then d
    else match InstanceLabel(servers[0].name)
      case None => d
      case Some(l) => MergeInstances(WithInstance(d, l, servers[0]), servers[1..])
  }

  /** `gather_domains` over the listed records. */
  function MergeDomains(d: Dict, records: seq<DNSRecord>): (r: Dict)
    decreases records
  {
    if records == [] then d
    else MergeDomains(WithDomain(d, RecordLabel(records[0].subDomain), records[0]), records[1..])
  }

  /** Gathering a server in front of others: its step, then the others. */
  lemma MergeInstancesCons(d: Dict, s: Server, rest: seq<Server>, l: Label)
    requires InstanceLabel(s.name) == Some(l)
    ensures MergeInstances(d, [s] + rest) == MergeInstances(WithInstance(d, l, s), rest)
  {
    var xs := [s] + rest;
    assert xs[0] == s && xs[1..] == rest;
  }

  /** Gathering a record in front of others: its step, then the others. */
  lemma MergeDomainsCons(d: Dict, rec: DNSRecord, rest: seq<DNSRecord>)
    ensures MergeDomains(d, [rec] + rest)
            == MergeDomains(WithDomain(d, RecordLabel(rec.subDomain), rec), rest)
  {
    var xs := [rec] + rest;
    assert xs[0] == rec && xs[1..] == rest;
  }

  /** One gathering step keeps the dictionary well formed. */
  lemma WithInstanceWellFormed(d: Dict, l: Label, s: Server)
    requires WellFormed(d)
    ensures WellFormed(WithInstance(d, l, s))
  {
    if l !in d.entries {
      DistinctAppend(d.keys, l);
    }
  }

  lemma WithDomainWellFormed(d: Dict, l: Label, rec: DNSRecord)
    requires WellFormed(d)
    ensures WellFormed(WithDomain(d, l, rec))
  {
    if l !in d.entries {
      DistinctAppend(d.keys, l);
    }
  }

  /** Gathering keeps the dictionary well formed: keys listed once, in step with the map,
      and no empty entry. */
  lemma {:induction false} MergeInstancesWellFormed(d: Dict, servers: seq<Server>)
    requires WellFormed(d)
    ensures WellFormed(MergeInstances(d, servers))
    decreases servers
  {
    if servers != [] && InstanceLabel(servers[0].name).Some? {
      var l := InstanceLabel(servers[0].name).value;
      var next := WithInstance(d, l, servers[0]);
      WithInstanceWellFormed(d, l, servers[0]);
      MergeInstancesWellFormed(next, servers[1..]);
      assert MergeInstances(d, servers) == MergeInstances(next, servers[1..]);
    }
  }

  lemma {:induction false} MergeDomainsWellFormed(d: Dict, records: seq<DNSRecord>)
    requires WellFormed(d)
    ensures WellFormed(MergeDomains(d, records))
    decreases records
  {
    if records != [] {
      var next := WithDomain(d, RecordLabel(records[0].subDomain), records[0]);
      WithDomainWellFormed(d, RecordLabel(records[0].subDomain), records[0]);
      MergeDomainsWellFormed(next, records[1..]);
      assert MergeDomains(d, records) == MergeDomains(next, records[1..]);
    }
  }

  /** The entries dictionary, mutated in place by the gathering functions. */
  class EntriesDict {
    var keys: seq<Label>
    var entries: map<Label, Entry>

    function Value(): Dict
      reads this
    {
      Dict(keys, entries)
    }

    constructor ()
      ensures Value() == EmptyDict
    {
      keys := [];
      entries := map[];
    }

    /** `entries_dict[l] = e` for a new key: it goes last in iteration order. */
    method Insert(l: Label, e: Entry)
      requires l !in entries
      modifies this
      ensures keys == old(keys) + [l]
      ensures entries == old(entries)[l := e]
    {
      keys := keys + [l];
      entries := entries[l := e];
    }

    /** `entries_dict[l]["instance"] = s`. */
    method SetInstance(l: Label, s: Server)
      requires l in entries
      modifies this
      ensures keys == old(keys)
      ensures entries == old(entries)[l := old(entries)[l].(instance := Some(s))]
    {
      entries := entries[l := entries[l].(instance := Some(s))];
    }

    /** `entries_dict[l]["domain"] = rec`. */
    method SetDomain(l: Label, rec: DNSRecord)
      requires l in entries
      modifies this
      ensures keys == old(keys)
      ensures entries == old(entries)[l := old(entries)[l].(domain := Some(rec))]
    {
      entries := entries[l := entries[l].(domain := Some(rec))];
    }
  }

  /** `gather_instances`: merge each listed server under its label. `ok` is false when a
      name without "-" made the label lookup raise; the servers before it stay merged. */
  method GatherInstances(d: EntriesDict, servers: seq<Server>) returns (ok: bool)
    modifies d
    ensures d.Value() == MergeInstances(old(d.Value()), servers)
    ensures ok <==> AllLabelled(servers)
  {
    var i := 0;
    while i < |servers|
      invariant 0 <= i <= |servers|
      invariant MergeInstances(d.Value(), servers[i..]) == MergeInstances(old(d.Value()), servers)
      invariant forall j :: 0 <= j < i ==> '-' in servers[j].name
    {
      ghost var before := d.Value();
      var s := servers[i];
      assert servers[i..][0] == s && servers[i..][1..] == servers[i + 1..];
      var lbl := InstanceLabel(s.name);
      if lbl.None? {
        assert MergeInstances(before, servers[i..]) == before;
        assert !AllLabelled(servers) by { assert '-' !in servers[i].name; }
        return false;
      }
      var l := lbl.value;
      assert MergeInstances(before, servers[i..])
          == MergeInstances(WithInstance(before, l, s), servers[i + 1..]);
      if l in d.entries {
        d.SetInstance(l, s);
      } else {
        d.Insert(l, Entry(Some(s), None));
      }
      assert d.Value() == WithInstance(before, l, s);
      i := i + 1;
    }
    assert servers[i..] == [];
    return true;
  }

  /** `gather_domains`: merge each listed record under its label. */
  method GatherDomains(d: EntriesDict, records: seq<DNSRecord>)
    modifies d
    ensures d.Value() == MergeDomains(old(d.Value()), records)
  {
    for i := 0 to |records|
      invariant MergeDomains(d.Value(), records[i..]) == MergeDomains(old(d.Value()), records)
    {
      assert records[i..][1..] == records[i + 1..];
      var l := RecordLabel(records[i].subDomain);
      if l in d.entries {
        d.SetDomain(l, records[i]);
      } else {
        d.Insert(l, Entry(None, Some(records[i])));
      }
    }
  }

  /** The dictionary gathered from the listed servers, then the listed records; `None`
      when a server name holds no "-". */
  function Gathered(servers: seq<Server>, records: seq<DNSRecord>): Option<Dict> {
    if AllLabelled(servers) then Some(MergeDomains(MergeInstances(EmptyDict, servers), records))
    else None
  }

  /** The gathering half of `get_and_print_list`: instances first, then domains. */
  method GetList(servers: seq<Server>, records: seq<DNSRecord>) returns (r: Option<Dict>)
    ensures r == Gathered(servers, records)
    ensures r.Some? ==> WellFormed(r.value)
  {
    var d := new EntriesDict();
    var ok := GatherInstances(d, servers);
    if !ok {
      return None;
    }
    GatherDomains(d, records);
    r := Some(d.Value());
    MergeInstancesWellFormed(EmptyDict, servers);
    MergeDomainsWellFormed(MergeInstances(EmptyDict, servers), records);
  }

  /** Storing an instance under one label and a record under another, or the same, label
      commute. */
  lemma PutCommute(m: map<Label, Entry>, l1: Label, s: Server, l2: Label, rec: DNSRecord)
    ensures PutDomain(PutInstance(m, l1, s), l2, rec) == PutInstance(PutDomain(m, l2, rec), l1, s)
  {
    var a := PutDomain(PutInstance(m, l1, s), l2, rec);
    var b := PutInstance(PutDomain(m, l2, rec), l1, s);
    assert a.Keys == b.Keys;
    forall k | k in a ensures a[k] == b[k] {
    }
  }

  /** Gathering records depends on the dictionary's contents only, not on its key order. */
  lemma {:induction false} MergeDomainsEntries(d1: Dict, d2: Dict, records: seq<DNSRecord>)
    requires d1.entries == d2.entries
    ensures MergeDomains(d1, records).entries == MergeDomains(d2, records).entries
    decreases records
  {
    if records != [] {
      var l := RecordLabel(records[0].subDomain);
      MergeDomainsEntries(WithDomain(d1, l, records[0]), WithDomain(d2, l, records[0]), records[1..]);
    }
  }

  /** Gathering instances depends on the dictionary's contents only, not on its key order. */
  lemma {:induction false} MergeInstancesEntries(d1: Dict, d2: Dict, servers: seq<Server>)
    requires d1.entries == d2.entries
    ensures MergeInstances(d1, servers).entries == MergeInstances(d2, servers).entries
    decreases servers
  {
    if servers != [] {
      match InstanceLabel(servers[0].name)
      case None =>
      case Some(l) =>
        MergeInstancesEntries(WithInstance(d1, l, servers[0]), WithInstance(d2, l, servers[0]),
                              servers[1..]);
    }
  }

  /** An instance stored before gathering records is where it would be if stored after. */
  lemma {:induction false} MergeDomainsAfterInstance(d: Dict, l: Label, s: Server,
                                                      records: seq<DNSRecord>)
    ensures MergeDomains(WithInstance(d, l, s), records).entries
            == PutInstance(MergeDomains(d, records).entries, l, s)
    decreases records
  {
    if records != [] {
      var rec := records[0];
      var l2 := RecordLabel(rec.subDomain);
      PutCommute(d.entries, l, s, l2, rec);
      assert WithDomain(WithInstance(d, l, s), l2, rec).entries
             == WithInstance(WithDomain(d, l2, rec), l, s).entries;
      MergeDomainsEntries(WithDomain(WithInstance(d, l, s), l2, rec),
                          WithInstance(WithDomain(d, l2, rec), l, s), records[1..]);
      MergeDomainsAfterInstance(WithDomain(d, l2, rec), l, s, records[1..]);
    }
  }

  /** Gathering instances then records, or records then instances, gives every label the
      same instance and the same record (only the key order may differ), provided every
      server name holds a "-". */
  lemma {:induction false} MergeOrderIrrelevant(d: Dict, servers: seq<Server>,
                                                 records: seq<DNSRecord>)
    requires AllLabelled(servers)
    ensures MergeDomains(MergeInstances(d, servers), records).entries
            == MergeInstances(MergeDomains(d, records), servers).entries
    decreases servers
  {
    if servers != [] {
      var s := servers[0];
      assert '-' in s.name;
      var l := InstanceLabel(s.name).value;
      MergeOrderIrrelevant(WithInstance(d, l, s), servers[1..], records);
      MergeDomainsAfterInstance(d, l, s, records);
      MergeInstancesEntries(MergeDomains(WithInstance(d, l, s), records),
                            WithInstance(MergeDomains(d, records), l, s), servers[1..]);
    }
  }

  /** Gathering two lists of servers one after the other is gathering their
      concatenation. */
  lemma {:induction false} MergeInstancesAppend(d: Dict, a: seq<Server>, b: seq<Server>)
    requires AllLabelled(a)
    ensures MergeInstances(d, a + b) == MergeInstances(MergeInstances(d, a), b)
    decreases a
  {
    if a == [] {
      assert a + b == b;
    } else {
      assert '-' in a[0].name;
      var l := InstanceLabel(a[0].name).value;
      var next := WithInstance(d, l, a[0]);
      assert a == [a[0]] + a[1..] && a + b == [a[0]] + (a[1..] + b);
      MergeInstancesCons(d, a[0], a[1..] + b, l);
      MergeInstancesCons(d, a[0], a[1..], l);
      assert AllLabelled(a[1..]) by {
        assert forall i :: 0 <= i < |a[1..]| ==> a[1..][i] == a[i + 1];
      }
      MergeInstancesAppend(next, a[1..], b);
    }
  }

  /** Gathering two lists of records one after the other is gathering their
      concatenation. */
  lemma {:induction false} MergeDomainsAppend(d: Dict, a: seq<DNSRecord>, b: seq<DNSRecord>)
    ensures MergeDomains(d, a + b) == MergeDomains(MergeDomains(d, a), b)
    decreases a
  {
    if a == [] {
      assert a + b == b;
    } else {
      var next := WithDomain(d, RecordLabel(a[0].subDomain), a[0]);
      assert (a + b)[0] == a[0] && (a + b)[1..] == a[1..] + b;
      assert MergeDomains(d, a + b) == MergeDomains(next, a[1..] + b);
      MergeDomainsAppend(next, a[1..], b);
    }
  }

  /** Whether a server's name carries the label `l`. */
  function CarriesInstance(l: Label): Server -> bool {
    (s: Server) => InstanceLabel(s.name) == Some(l)
  }

  /** Whether a record's sub-domain carries the label `l`. */
  function CarriesDomain(l: Label): DNSRecord -> bool {
    (rec: DNSRecord) => RecordLabel(rec.subDomain) == l
  }

  /** The last listed server whose name carries the label `l`, if any. */
  function LastInstance(servers: seq<Server>, l: Label): Option<Server> {
    LastWhere(servers, CarriesInstance(l))
  }

  /** The last listed record whose sub-domain carries the label `l`, if any. */
  function LastDomain(records: seq<DNSRecord>, l: Label): Option<DNSRecord> {
    LastWhere(records, CarriesDomain(l))
  }

  /** `LastInstance` is none exactly when no listed server carries the label. */
  lemma LastInstanceNone(servers: seq<Server>, l: Label)
    ensures LastInstance(servers, l).None? <==>
            forall j :: 0 <= j < |servers| ==> InstanceLabel(servers[j].name) != Some(l)
  {
    LastWhereNone(servers, CarriesInstance(l));
  }

  /** `LastDomain` is none exactly when no listed record carries the label. */
  lemma LastDomainNone(records: seq<DNSRecord>, l: Label)
    ensures LastDomain(records, l).None? <==>
            forall j :: 0 <= j < |records| ==> RecordLabel(records[j].subDomain) != l
  {
    LastWhereNone(records, CarriesDomain(l));
  }

  /** The server at `i`, carrying `l` with no later server carrying it, is `LastInstance`. */
  lemma LastInstanceAt(servers: seq<Server>, l: Label, i: nat)
    requires i < |servers| && InstanceLabel(servers[i].name) == Some(l)
    requires forall j :: i < j < |servers| ==> InstanceLabel(servers[j].name) != Some(l)
    ensures LastInstance(servers, l) == Some(servers[i])
  {
    LastWhereAt(servers, CarriesInstance(l), i);
  }

  /** The record at `i`, carrying `l` with no later record carrying it, is `LastDomain`. */
  lemma LastDomainAt(records: seq<DNSRecord>, l: Label, i: nat)
    requires i < |records| && RecordLabel(records[i].subDomain) == l
    requires forall j :: i < j < |records| ==> RecordLabel(records[j].subDomain) != l
    ensures LastDomain(records, l) == Some(records[i])
  {
    LastWhereAt(records, CarriesDomain(l), i);
  }

  /** Gathering a listing is gathering all but its last server, then that server's step. */
  lemma MergeInstancesSnoc(d: Dict, servers: seq<Server>)
    requires servers != [] && AllLabelled(servers)
    ensures var n := |servers| - 1;
            && AllLabelled(servers[..n])
            && InstanceLabel(servers[n].name).Some?
            && MergeInstances(d, servers)
               == WithInstance(MergeInstances(d, servers[..n]), InstanceLabel(servers[n].name).value,
                               servers[n])
  {
    var n := |servers| - 1;
    var front, s := servers[..n], servers[n];
    assert servers == front + [s];
    assert AllLabelled(front) by {
      assert forall j :: 0 <= j < n ==> front[j] == servers[j];
    }
    assert '-' in s.name;
    var ls := InstanceLabel(s.name).value;
    MergeInstancesAppend(d, front, [s]);
    MergeInstancesCons(MergeInstances(d, front), s, [], ls);
    assert [s] + [] == [s];
  }

  /** Gathering a listing is gathering all but its last record, then that record's step. */
  lemma MergeDomainsSnoc(d: Dict, records: seq<DNSRecord>)
    requires records != []
    ensures var n := |records| - 1;
            MergeDomains(d, records)
            == WithDomain(MergeDomains(d, records[..n]), RecordLabel(records[n].subDomain), records[n])
  {
    var n := |records| - 1;
    var front, rec := records[..n], records[n];
    assert records == front + [rec];
    MergeDomainsAppend(d, front, [rec]);
    MergeDomainsCons(MergeDomains(d, front), rec, []);
    assert [rec] + [] == [rec];
  }

  /** What `gather_instances` leaves under a label: an entry exactly when the label was
      there before or some listed server carries it; its instance is the last such server
      (else the one it had), and its record is the one it had. */
  lemma {:induction false} MergeInstancesContents(d: Dict, servers: seq<Server>, l: Label)
    requires AllLabelled(servers)
    ensures var r := MergeInstances(d, servers);
            var last := LastInstance(servers, l);
            && (l in r.entries <==> l in d.entries || last.Some?)
            && (l in r.entries ==>
                  && r.entries[l].instance == (if last.Some? then last else d.entries[l].instance)
                  && r.entries[l].domain == (if l in d.entries then d.entries[l].domain else None))
  {
    if servers != [] {
      var n := |servers| - 1;
      MergeInstancesSnoc(d, servers);
      MergeInstancesContents(d, servers[..n], l);
      WithInstanceSpec(MergeInstances(d, servers[..n]), InstanceLabel(servers[n].name).value, servers[n]);
    }
  }

  /** What `gather_domains` leaves under a label: an entry exactly when the label was
      there before or some listed record carries it; its record is the last such record
      (else the one it had), and its instance is the one it had. */
  lemma {:induction false} MergeDomainsContents(d: Dict, records: seq<DNSRecord>, l: Label)
    ensures var r := MergeDomains(d, records);
            var last := LastDomain(records, l);
            && (l in r.entries <==> l in d.entries || last.Some?)
            && (l in r.entries ==>
                  && r.entries[l].domain == (if last.Some? then last else d.entries[l].domain)
                  && r.entries[l].instance == (if l in d.entries then d.entries[l].instance else None))
  {
    if records != [] {
      var n := |records| - 1;
      MergeDomainsSnoc(d, records);
      MergeDomainsContents(d, records[..n], l);
      WithDomainSpec(MergeDomains(d, records[..n]), RecordLabel(records[n].subDomain), records[n]);
    }
  }

  /** Last one wins: the last listed server carrying a label is the instance of that
      label's entry, whatever servers with other labels come after it, and the entry
      keeps the record it had. */
  lemma LastInstanceWins(d: Dict, servers: seq<Server>, i: nat, l: Label)
    requires AllLabelled(servers)
    requires i < |servers| && InstanceLabel(servers[i].name) == Some(l)
    requires forall j :: i < j < |servers| ==> InstanceLabel(servers[j].name) != Some(l)
    ensures var r := MergeInstances(d, servers);
            && l in r.entries && r.entries[l].instance == Some(servers[i])
            && r.entries[l].domain == (if l in d.entries then d.entries[l].domain else None)
  {
    LastInstanceAt(servers, l, i);
    MergeInstancesContents(d, servers, l);
  }

  /** Last one wins for records too, whatever records with other labels come after it. */
  lemma LastDomainWins(d: Dict, records: seq<DNSRecord>, i: nat, l: Label)
    requires i < |records| && RecordLabel(records[i].subDomain) == l
    requires forall j :: i < j < |records| ==> RecordLabel(records[j].subDomain) != l
    ensures var r := MergeDomains(d, records);
            && l in r.entries && r.entries[l].domain == Some(records[i])
            && r.entries[l].instance == (if l in d.entries then d.entries[l].instance else None)
  {
    LastDomainAt(records, l, i);
    MergeDomainsContents(d, records, l);
  }

  /** Servers carrying other labels leave a label's entry, or its absence, alone. */
  lemma MergeInstancesFrame(d: Dict, servers: seq<Server>, l: Label)
    requires AllLabelled(servers)
    requires forall j :: 0 <= j < |servers| ==> InstanceLabel(servers[j].name) != Some(l)
    ensures var r := MergeInstances(d, servers);
            && (l in r.entries <==> l in d.entries)
            && (l in d.entries ==> r.entries[l] == d.entries[l])
  {
    LastInstanceNone(servers, l);
    MergeInstancesContents(d, servers, l);
  }

  /** Records carrying other labels leave a label's entry, or its absence, alone. */
  lemma MergeDomainsFrame(d: Dict, records: seq<DNSRecord>, l: Label)
    requires forall j :: 0 <= j < |records| ==> RecordLabel(records[j].subDomain) != l
    ensures var r := MergeDomains(d, records);
            && (l in r.entries <==> l in d.entries)
            && (l in d.entries ==> r.entries[l] == d.entries[l])
  {
    LastDomainNone(records, l);
    MergeDomainsContents(d, records, l);
  }

  /** The whole listing: a label has an entry exactly when some listed server or record
      carries it, and that entry holds the last listed server and the last listed record
      carrying it. */
  lemma GatheredContents(servers: seq<Server>, records: seq<DNSRecord>, l: Label)
    requires AllLabelled(servers)
    ensures Gathered(servers, records).Some?
    ensures var r := Gathered(servers, records).value;
            && (l in r.entries <==> LastInstance(servers, l).Some? || LastDomain(records, l).Some?)
            && (l in r.entries ==> r.entries[l] == Entry(LastInstance(servers, l), LastDomain(records, l)))
  {
    MergeInstancesContents(EmptyDict, servers, l);
    MergeDomainsContents(MergeInstances(EmptyDict, servers), records, l);
  }

  /** `"%s.%s" % (subDomain, zone)`. */
  function FullDomain(rec: DNSRecord): string {
    rec.subDomain + "." + rec.zone
  }

  /** The three lists `sort_entries` fills. */
  datatype Kind = Complete | OrphanedDomain | OrphanedInstance

  /** One printed row of the listing. */
  datatype Row =
    | CompleteRow(lbl: Label, instanceName: string, domain: string, status: string,
                  ipv4: Option<string>)
    | OrphanedDomainRow(lbl: Label, domain: string, target: string)
    | OrphanedInstanceRow(lbl: Label, instanceName: string, status: string,
                          ipv4: Option<string>)

  /** Which list an entry goes to: no record, orphaned instance; else no instance,
      orphaned domain; else complete. */
  function KindOf(e: Entry): Kind {
    if e.domain.None? then OrphanedInstance
    else if e.instance.None? then OrphanedDomain
    else Complete
  }

  function RowOf(l: Label, e: Entry): Row
    requires NonEmpty(e)
  {
    match KindOf(e)
    case OrphanedInstance =>
      OrphanedInstanceRow(l, e.instance.value.name, e.instance.value.status,
                          Ipv4Of(e.instance.value))
    case OrphanedDomain =>
      OrphanedDomainRow(l, FullDomain(e.domain.value), e.domain.value.target)
    case Complete =>
      CompleteRow(l, e.instance.value.name, FullDomain(e.domain.value),
                  e.instance.value.status, Ipv4Of(e.instance.value))
  }

  predicate Listed(ks: seq<Label>, m: map<Label, Entry>) {
    forall k :: k in ks ==> k in m && NonEmpty(m[k])
  }

  /** The rows of kind `kind` for the keys `ks`, in key order. */
  function Rows(ks: seq<Label>, m: map<Label, Entry>, kind: Kind): seq<Row>
    requires Listed(ks, m)
  {
    if ks == [] then []
    else
      var k := ks[|ks| - 1];
      Rows(ks[..|ks| - 1], m, kind) + (if KindOf(m[k]) == kind then [RowOf(k, m[k])] else [])
  }

  function Labels(rows: seq<Row>): seq<Label> {
    seq(|rows|, i requires 0 <= i < |rows| => rows[i].lbl)
  }

  /** The rows of one more key of a listed order: those of the keys before it, then its
      own row when it has the kind asked for. */
  lemma RowsNext(ks: seq<Label>, m: map<Label, Entry>, i: nat, kind: Kind)
    requires Listed(ks, m) && i < |ks|
    ensures Listed(ks[..i], m) && Listed(ks[..i + 1], m)
    ensures Rows(ks[..i + 1], m, kind)
            == Rows(ks[..i], m, kind) + (if KindOf(m[ks[i]]) == kind then [RowOf(ks[i], m[ks[i]])] else [])
  {
    assert forall k :: k in ks[..i + 1] ==> k in ks;
    assert ks[..i + 1][..i] == ks[..i] && ks[..i + 1][i] == ks[i];
  }

  /** `sort_entries`: walk the entries in iteration order and append each one's row to
      the list of its kind; the lists are returned as (complete, orphaned domains,
      orphaned instances). */
  method SortEntries(d: Dict) returns (completeEntries: seq<Row>, orphanedDomains: seq<Row>,
                                       orphanedInstances: seq<Row>)
    requires WellFormed(d)
    ensures completeEntries == Rows(d.keys, d.entries, Complete)
    ensures orphanedDomains == Rows(d.keys, d.entries, OrphanedDomain)
    ensures orphanedInstances == Rows(d.keys, d.entries, OrphanedInstance)
  {
    completeEntries, orphanedDomains, orphanedInstances := [], [], [];
    assert Listed(d.keys, d.entries);
    for i := 0 to |d.keys|
      invariant Listed(d.keys[..i], d.entries)
      invariant completeEntries == Rows(d.keys[..i], d.entries, Complete)
      invariant orphanedDomains == Rows(d.keys[..i], d.entries, OrphanedDomain)
      invariant orphanedInstances == Rows(d.keys[..i], d.entries, OrphanedInstance)
    {
      RowsNext(d.keys, d.entries, i, Complete);
      RowsNext(d.keys, d.entries, i, OrphanedDomain);
      RowsNext(d.keys, d.entries, i, OrphanedInstance);
      var lbl := d.keys[i];
      completeEntries, orphanedDomains, orphanedInstances :=
        SortEntry(lbl, d.entries[lbl], completeEntries, orphanedDomains, orphanedInstances);
    }
    assert d.keys[..|d.keys|] == d.keys;
  }

  /** The body of the `sort_entries` loop for one entry: no record, an orphaned instance;
      else no instance, an orphaned domain; else a complete entry. Only the list of the
      entry's kind grows, by the entry's row. */
  method SortEntry(lbl: Label, entry: Entry, completeEntries: seq<Row>, orphanedDomains: seq<Row>,
                   orphanedInstances: seq<Row>)
    returns (complete': seq<Row>, domains': seq<Row>, instances': seq<Row>)
    requires NonEmpty(entry)
    ensures complete' == completeEntries
                         + (if KindOf(entry) == Complete then [RowOf(lbl, entry)] else [])
    ensures domains' == orphanedDomains
                        + (if KindOf(entry) == OrphanedDomain then [RowOf(lbl, entry)] else [])
    ensures instances' == orphanedInstances
                          + (if KindOf(entry) == OrphanedInstance then [RowOf(lbl, entry)] else [])
  {
    complete', domains', instances' := completeEntries, orphanedDomains, orphanedInstances;
    var instance := entry.instance;
    var domain := entry.domain;
    if domain.None? {
      var ip := GetIpv4(instance.value);
      instances' := instances' + [OrphanedInstanceRow(lbl, instance.value.name, instance.value.status, ip)];
    } else if instance.None? {
      domains' := domains' + [OrphanedDomainRow(lbl, FullDomain(domain.value), domain.value.target)];
    } else {
      var ip := GetIpv4(instance.value);
      complete' := complete'
        + [CompleteRow(lbl, instance.value.name, FullDomain(domain.value), instance.value.status, ip)];
    }
  }

  /** `sort_entries` as written. The `openstack` it calls `get_ipv4` on is the utility
      module, which defines no `get_ipv4`, so the loop raises `AttributeError` (`None`
      here) at the first entry holding an instance; until then only orphaned domains are
      appended. The lists are (complete, orphaned domains, orphaned instances). */
  function SortAsWritten(ks: seq<Label>, m: map<Label, Entry>): Option<(seq<Row>, seq<Row>, seq<Row>)>
    requires Listed(ks, m)
  {
    if ks == [] then Some(([], [], []))
    else
      var k := ks[|ks| - 1];
      match SortAsWritten(ks[..|ks| - 1], m)
      case None => None
      case Some(lists) =>
        if m[k].instance.Some? then None
        else Some((lists.0, lists.1 + [RowOf(k, m[k])], lists.2))
  }

  /** As written, listing fails exactly when some entry holds an instance, and when it
      does not fail it gives the lists the corrected `SortEntries` gives. */
  lemma {:induction false} SortAsWrittenRaises(ks: seq<Label>, m: map<Label, Entry>)
    requires Listed(ks, m)
    ensures SortAsWritten(ks, m).None? <==> exists k :: k in ks && m[k].instance.Some?
    ensures SortAsWritten(ks, m).Some? ==>
            SortAsWritten(ks, m).value
            == (Rows(ks, m, Complete), Rows(ks, m, OrphanedDomain), Rows(ks, m, OrphanedInstance))
  {
    if ks != [] {
      var n := |ks| - 1;
      var front, k := ks[..n], ks[n];
      assert ks == front + [k];
      assert Listed(front, m) by {
        assert forall x :: x in front ==> x in ks;
      }
      SortAsWrittenRaises(front, m);
      if SortAsWritten(ks, m).Some? {
        assert KindOf(m[k]) == OrphanedDomain;
        assert Rows(ks, m, Complete) == Rows(front, m, Complete);
        assert Rows(ks, m, OrphanedInstance) == Rows(front, m, OrphanedInstance);
        assert Rows(ks, m, OrphanedDomain) == Rows(front, m, OrphanedDomain) + [RowOf(k, m[k])];
      }
    }
  }

  /** One entry with a server and its record: as written the listing raises, while the
      corrected listing shows one complete row. */
  lemma SortAsWrittenCounterexample(s: Server, rec: DNSRecord)
    ensures var m := map["abcde" := Entry(Some(s), Some(rec))];
            && SortAsWritten(["abcde"], m).None?
            && Rows(["abcde"], m, Complete)
               == [CompleteRow("abcde", s.name, FullDomain(rec), s.status, Ipv4Of(s))]
  {
    var m := map["abcde" := Entry(Some(s), Some(rec))];
    assert ["abcde"][..0] == [];
    assert SortAsWritten([], m) == Some(([], [], []));
  }

  lemma LabelsConcat(a: seq<Row>, b: seq<Row>)
    ensures Labels(a + b) == Labels(a) + Labels(b)
  {
    assert forall i :: 0 <= i < |a| ==> (a + b)[i] == a[i];
    assert forall i :: |a| <= i < |a + b| ==> (a + b)[i] == b[i - |a|];
  }

  /** Rows follow the key order: the rows of a concatenation of keys are the rows of the
      first part followed by those of the second. */
  lemma {:induction false} RowsSplit(ks1: seq<Label>, ks2: seq<Label>, m: map<Label, Entry>,
                                     kind: Kind)
    requires Listed(ks1, m) && Listed(ks2, m)
    ensures Listed(ks1 + ks2, m)
    ensures Rows(ks1 + ks2, m, kind) == Rows(ks1, m, kind) + Rows(ks2, m, kind)
  {
    if ks2 == [] {
      assert ks1 + ks2 == ks1;
    } else {
      var front, last := ks2[..|ks2| - 1], ks2[|ks2| - 1];
      assert Listed(front, m) by {
        assert forall k :: k in front ==> k in ks2;
      }
      RowsSplit(ks1, front, m, kind);
      ConcatFront(ks1, ks2);
      var tail := if KindOf(m[last]) == kind then [RowOf(last, m[last])] else [];
      assert Rows(ks1 + ks2, m, kind) == Rows(ks1 + front, m, kind) + tail;
      assert Rows(ks2, m, kind) == Rows(front, m, kind) + tail;
      ConcatAssoc(Rows(ks1, m, kind), Rows(front, m, kind), tail);
    }
  }

  /** Every entry lands in exactly one list: the three lists together have one row per key. */
  lemma {:induction false} SortPartition(ks: seq<Label>, m: map<Label, Entry>)
    requires Listed(ks, m)
    ensures |Rows(ks, m, Complete)| + |Rows(ks, m, OrphanedDomain)| + |Rows(ks, m, OrphanedInstance)|
            == |ks|
  {
    if ks != [] {
      SortPartition(ks[..|ks| - 1], m);
    }
  }

  /** A label appears in the list of a kind exactly when it is a key whose entry is of
      that kind, and every row there is that entry's row: a complete row holds the
      instance's name, `subDomain + "." + zone`, the status and the address; an orphaned
      domain row the full domain and the target; an orphaned instance row the name, status
      and address. */
  lemma {:induction false} RowsOfKind(ks: seq<Label>, m: map<Label, Entry>, kind: Kind)
    requires Listed(ks, m)
    ensures forall k :: k in Labels(Rows(ks, m, kind)) <==> k in ks && KindOf(m[k]) == kind
    ensures forall r :: r in Rows(ks, m, kind) ==>
              r.lbl in ks && KindOf(m[r.lbl]) == kind && r == RowOf(r.lbl, m[r.lbl])
  {
    if ks != [] {
      var front := ks[..|ks| - 1];
      var k := ks[|ks| - 1];
      RowsOfKind(front, m, kind);
      assert ks == front + [k];
      var frontRows := Rows(front, m, kind);
      var last := if KindOf(m[k]) == kind then [RowOf(k, m[k])] else [];
      LabelsConcat(frontRows, last);
      assert Labels(last) == if KindOf(m[k]) == kind then [k] else [];
    }
  }

  /** A complete row, spelled out: the label, the instance name, the record's sub-domain
      and zone joined by ".", the instance status and its IPv4 address. */
  lemma CompleteRowShape(ks: seq<Label>, m: map<Label, Entry>, r: Row)
    requires Listed(ks, m) && r in Rows(ks, m, Complete)
    ensures r.lbl in ks && m[r.lbl].instance.Some? && m[r.lbl].domain.Some?
    ensures var s := m[r.lbl].instance.value;
            var rec := m[r.lbl].domain.value;
            r == CompleteRow(r.lbl, s.name, rec.subDomain + "." + rec.zone, s.status, Ipv4Of(s))
  {
    RowsOfKind(ks, m, Complete);
    assert r.lbl in Labels(Rows(ks, m, Complete)) by {
      var i :| 0 <= i < |Rows(ks, m, Complete)| && Rows(ks, m, Complete)[i] == r;
      assert Labels(Rows(ks, m, Complete))[i] == r.lbl;
    }
  }

  /** A server and a record carrying the same label, each the last of its listing to
      carry it, are gathered into one entry holding both, whatever else is listed. */
  lemma GatheredPair(servers: seq<Server>, records: seq<DNSRecord>, i: nat, j: nat, lbl: Label)
    requires AllLabelled(servers)
    requires i < |servers| && InstanceLabel(servers[i].name) == Some(lbl)
    requires forall k :: i < k < |servers| ==> InstanceLabel(servers[k].name) != Some(lbl)
    requires j < |records| && RecordLabel(records[j].subDomain) == lbl
    requires forall k :: j < k < |records| ==> RecordLabel(records[k].subDomain) != lbl
    ensures Gathered(servers, records).Some?
    ensures var r := Gathered(servers, records).value;
            lbl in r.entries && r.entries[lbl] == Entry(Some(servers[i]), Some(records[j]))
  {
    LastInstanceAt(servers, lbl, i);
    LastDomainAt(records, lbl, j);
    GatheredContents(servers, records, lbl);
  }

  /** A server and a record named by the creator for the same label, in a namespace with
      no "-" and with a label holding no ".", each the last of its listing to carry that
      label, are gathered into one entry holding both. */
  lemma CreatedServerGathered(namespace: string, lbl: Label, servers: seq<Server>,
                              records: seq<DNSRecord>, i: nat, j: nat)
    requires '-' !in namespace && '.' !in lbl && AllLabelled(servers)
    requires i < |servers| && servers[i].name == Creator.InstanceName(namespace, lbl)
    requires forall k :: i < k < |servers| ==> InstanceLabel(servers[k].name) != Some(lbl)
    requires j < |records| && records[j].subDomain == Creator.SubDomain(lbl, namespace)
    requires forall k :: j < k < |records| ==> RecordLabel(records[k].subDomain) != lbl
    ensures Gathered(servers, records).Some?
    ensures var r := Gathered(servers, records).value;
            lbl in r.entries && r.entries[lbl] == Entry(Some(servers[i]), Some(records[j]))
  {
    InstanceLabelOfInstanceName(namespace, lbl);
    RecordLabelOfSubDomain(lbl, namespace);
    GatheredPair(servers, records, i, j, lbl);
  }

  /** Such an entry is listed as complete, and the domain shown is the one the creator
      expected the server to answer on. */
  lemma CreatedServerListedComplete(d: Dict, namespace: string, lbl: Label, zone: string,
                                    s: Server, rec: DNSRecord)
    requires WellFormed(d) && lbl in d.entries && d.entries[lbl] == Entry(Some(s), Some(rec))
    requires rec.subDomain == Creator.SubDomain(lbl, namespace) && rec.zone == zone
    ensures Listed(d.keys, d.entries)
    ensures CompleteRow(lbl, s.name, Creator.ExpectedDomain(lbl, namespace, zone), s.status,
                        Ipv4Of(s)) in Rows(d.keys, d.entries, Complete)
  {
    var rows := Rows(d.keys, d.entries, Complete);
    RowsOfKind(d.keys, d.entries, Complete);
    assert lbl in Labels(rows);
    var i :| 0 <= i < |rows| && Labels(rows)[i] == lbl;
    assert rows[i] in rows;
    assert FullDomain(rec) == Creator.ExpectedDomain(lbl, namespace, zone);
  }
}
