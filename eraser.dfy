/** Deletion: check the command-line selection, filter the listed entries, then delete
    each entry's instance and DNS record (only announcing them in dry-run mode) and
    commit the DNS zone once at the end. */
module Eraser {
  import opened Wrappers
  import opened Resources
  import opened Seqs
  import Lister

  /** The parsed arguments of the delete command. `exclude` and `server` are empty when
      the option was not given (argparse leaves them `None`, and an appended list is
      never empty). */
  datatype DeleteArgs = DeleteArgs(dryRun: bool, exclude: seq<Label>, server: seq<Label>,
                                   all: bool)

  /** Why argument parsing stops the command: neither `-s` nor `-a` (the group is
      required), both (the group is mutually exclusive), or `-e` without `-a`. */
  datatype UsageError = NoSelection | ServerAndAll | ExcludeWithoutAll

  function CheckArgs(args: DeleteArgs): Option<UsageError> {
    if args.server == [] && !args.all then Some(NoSelection)
    else if args.server != [] && args.all then Some(ServerAndAll)
    else if args.exclude != [] && !args.all then Some(ExcludeWithoutAll)
    else None
  }

  /** Accepted arguments select exactly one of `-s` and `-a`, allow `-e` only with
      `-a`, and so never combine `-s` with `-e`. */
  lemma CheckArgsAccepts(args: DeleteArgs)
    ensures CheckArgs(args).None? <==>
              (args.server != [] <==> !args.all) && (args.exclude != [] ==> args.all)
    ensures CheckArgs(args).None? ==> args.server == [] || args.exclude == []
  {
  }

  /** `keys` follow the order of first mention in `names`: a key listed before another
      is mentioned before every mention of the other. */
  predicate MentionOrder(keys: seq<Label>, names: seq<Label>) {
    forall i, j, q :: 0 <= i < j < |keys| && 0 <= q < |names| && names[q] == keys[j] ==>
      keys[i] in names[..q]
  }

  /** `{k: entries_dict[k] for k in args.server}`: the named entries, each once, in the
      order of their first mention; `Failure(k)` for the first name that is not listed
      (the lookup raises `KeyError`). */
  function SelectServers(d: Dict, names: seq<Label>): (r: Result<Dict, Label>)
    ensures r.Success? ==> forall k :: k in r.value.keys ==> k in r.value.entries
  {
    if names == [] then Success(EmptyDict)
    else
      match SelectServers(d, names[..|names| - 1])
      case Failure(k) => Failure(k)
      case Success(sel) =>
        var k := names[|names| - 1];
        if k !in d.entries then Failure(k)
        else if k in sel.entries then Success(sel)
        else Success(Dict(sel.keys + [k], sel.entries[k := d.entries[k]]))
  }

  /** The selection fails exactly when a name is not listed, and then it names the first
      such name. */
  lemma {:induction false} SelectServersFailure(d: Dict, names: seq<Label>)
    ensures SelectServers(d, names).Success? <==> forall i :: 0 <= i < |names| ==> names[i] in d.entries
    ensures SelectServers(d, names).Failure? ==>
              var k := SelectServers(d, names).error;
              exists i :: 0 <= i < |names| && names[i] == k && k !in d.entries
                          && forall j :: 0 <= j < i ==> names[j] in d.entries
  {
    if names != [] {
      var front := names[..|names| - 1];
      SelectServersFailure(d, front);
      assert forall i :: 0 <= i < |front| ==> front[i] == names[i];
      if SelectServers(d, front).Failure? {
        var k := SelectServers(d, front).error;
        var i :| 0 <= i < |front| && front[i] == k && k !in d.entries
                 && forall j :: 0 <= j < i ==> front[j] in d.entries;
        assert names[i] == k;
      }
    }
  }

  /** A selection holds exactly the named entries, unchanged, each key once. */
  lemma {:induction false} SelectServersContents(d: Dict, names: seq<Label>)
    requires SelectServers(d, names).Success?
    ensures var sel := SelectServers(d, names).value;
            && (forall k :: k in sel.keys <==> k in names)
            && (forall k :: k in sel.entries <==> k in names)
            && (forall k :: k in sel.entries ==> k in d.entries && sel.entries[k] == d.entries[k])
            && Distinct(sel.keys)
  {
    if names != [] {
      var front, k := names[..|names| - 1], names[|names| - 1];
      SelectServersContents(d, front);
      assert names == front + [k];
      var sel := SelectServers(d, front).value;
      if k !in sel.entries {
        DistinctAppend(sel.keys, k);
        assert SelectServers(d, names).value == Dict(sel.keys + [k], sel.entries[k := d.entries[k]]);
      }
    }
  }

  /** Keys in first-mention order for `front` stay so for `front + [k]`, and `k` may
      follow them when it is new. */
  lemma OrderExtends(front: seq<Label>, k: Label, keys: seq<Label>)
    requires forall x :: x in keys ==> x in front
    requires MentionOrder(keys, front)
    ensures MentionOrder(keys, front + [k])
    ensures k !in front ==> MentionOrder(keys + [k], front + [k])
  {
    var names := front + [k];
    assert names[..|front|] == front;
    forall i, j, q | 0 <= i < j < |keys| && 0 <= q < |names| && names[q] == keys[j]
      ensures keys[i] in names[..q]
    {
      if q < |front| {
        assert front[q] == keys[j];
        assert names[..q] == front[..q];
      }
    }
    if k !in front {
      var all := keys + [k];
      forall i, j, q | 0 <= i < j < |all| && 0 <= q < |names| && names[q] == all[j]
        ensures all[i] in names[..q]
      {
        assert all[i] == keys[i];
        if j < |keys| {
          assert all[j] == keys[j];
        }
      }
    }
  }

  /** The selected keys follow the order in which the names first mention them. */
  lemma {:induction false} SelectServersOrder(d: Dict, names: seq<Label>)
    requires SelectServers(d, names).Success?
    ensures MentionOrder(SelectServers(d, names).value.keys, names)
  {
    if names != [] {
      var n := |names| - 1;
      var front := names[..n];
      var k := names[n];
      SelectServersOrder(d, front);
      SelectServersContents(d, front);
      var sel := SelectServers(d, front).value;
      assert names == front + [k];
      OrderExtends(front, k, sel.keys);
    }
  }

  /** Every key in the iteration order has an entry. */
  predicate KeysListed(d: Dict) {
    forall k :: k in d.keys ==> k in d.entries
  }

  /** The keys of `ks` not in `exclude`, in order. */
  function Without(ks: seq<Label>, exclude: seq<Label>): (r: seq<Label>)
    ensures forall k :: k in r <==> k in ks && k !in exclude
    ensures Distinct(ks) ==> Distinct(r)
  {
    if ks == [] then []
    else
      var front := Without(ks[..|ks| - 1], exclude);
      var k := ks[|ks| - 1];
      assert forall x :: x in ks[..|ks| - 1] ==> x in ks;
      assert forall x :: x in ks ==> x in ks[..|ks| - 1] || x == k;
      if k in exclude then front else front + [k]
  }

  /** The entries whose key is not excluded (`set(entries_dict.keys()).difference(args.exclude)`). */
  function ExcludeEntries(d: Dict, exclude: seq<Label>): Dict {
    Dict(Without(d.keys, exclude), map k | k in d.entries && k !in exclude :: d.entries[k])
  }

  /** `filter_entries_dict`: the `-s` names if any, else the listing minus the `-e`
      names if any, else the whole listing. */
  function FilterEntries(d: Dict, args: DeleteArgs): (r: Result<Dict, Label>)
    ensures KeysListed(d) && r.Success? ==> KeysListed(r.value)
  {
    if args.server != [] then SelectServers(d, args.server)
    else if args.exclude != [] then Success(ExcludeEntries(d, args.exclude))
    else Success(d)
  }

  /** What is left to delete: with `-s`, exactly the named entries; with `-e`, every
      listed entry whose key is not excluded; otherwise every listed entry. The result is
      a well-formed listing of unchanged entries. */
  lemma FilterEntriesSpec(d: Dict, args: DeleteArgs)
    requires WellFormed(d) && FilterEntries(d, args).Success?
    ensures var f := FilterEntries(d, args).value;
            && WellFormed(f)
            && (forall k :: k in f.entries ==> k in d.entries && f.entries[k] == d.entries[k])
            && (args.server != [] ==> forall k :: k in f.entries <==> k in args.server)
            && (args.server == [] ==> forall k :: k in f.entries <==> k in d.entries && k !in args.exclude)
            && (args.server == [] && args.exclude == [] ==> f == d)
  {
    if args.server != [] {
      SelectServersContents(d, args.server);
    }
  }

  /** A call to a provider: Nova's server deletion, the DNS client's record deletion, or
      its zone commit. */
  datatype Call = ServerDelete(server: Server) | RecordDelete(record: DNSRecord)
                | ZoneCommit(zone: string)

  /** The entry field the deletion loop reads the record from. */
  const RecordKey := "domain"

  /** `entry.get(key)` for the record side of an entry: the listing stores the record
      under "domain" and under no other key. */
  function RecordUnder(e: Entry, key: string): Option<DNSRecord> {
    if key == RecordKey then e.domain else None
  }

  /** The provider calls for one entry: its instance, then its record; none in dry-run
      mode. */
  function EntryCalls(e: Entry, dryRun: bool, key: string): seq<Call> {
    if dryRun then []
    else
      (if e.instance.Some? then [ServerDelete(e.instance.value)] else [])
      + (if RecordUnder(e, key).Some? then [RecordDelete(RecordUnder(e, key).value)] else [])
  }

  /** The provider calls of the deletion loop over the keys `ks`, in order. The loop only
      visits keys of the dictionary; a key without an entry would make no call. */
  function LoopCalls(ks: seq<Label>, m: map<Label, Entry>, dryRun: bool, key: string): seq<Call>
  {
    if ks == [] then []
    else
      var k := ks[|ks| - 1];
      LoopCalls(ks[..|ks| - 1], m, dryRun, key) + (if k in m then EntryCalls(m[k], dryRun, key) else [])
  }

  /** All provider calls of a deletion over the filtered entries: the loop's, then the
      commit of the zone unless in dry-run mode. */
  function DeletionCalls(d: Dict, dryRun: bool, zone: string, key: string): seq<Call>
  {
    LoopCalls(d.keys, d.entries, dryRun, key) + (if dryRun then [] else [ZoneCommit(zone)])
  }

  /** Entries are processed in iteration order: the calls for a concatenation of keys
      are those of the first part followed by those of the second. */
  lemma {:induction false} LoopCallsSplit(ks1: seq<Label>, ks2: seq<Label>, m: map<Label, Entry>,
                                          dryRun: bool, key: string)
    ensures LoopCalls(ks1 + ks2, m, dryRun, key) == LoopCalls(ks1, m, dryRun, key) + LoopCalls(ks2, m, dryRun, key)
  {
    var ks := ks1 + ks2;
    if ks2 == [] {
      assert ks == ks1;
    } else {
      var front, last := ks2[..|ks2| - 1], ks2[|ks2| - 1];
      LoopCallsSplit(ks1, front, m, dryRun, key);
      ConcatFront(ks1, ks2);
      var tail := if last in m then EntryCalls(m[last], dryRun, key) else [];
      assert LoopCalls(ks, m, dryRun, key) == LoopCalls(ks1 + front, m, dryRun, key) + tail;
      assert LoopCalls(ks2, m, dryRun, key) == LoopCalls(front, m, dryRun, key) + tail;
      ConcatAssoc(LoopCalls(ks1, m, dryRun, key), LoopCalls(front, m, dryRun, key), tail);
    }
  }

  /** A dry run calls no provider at all. */
  lemma {:induction false} DryRunCallsNothing(d: Dict, zone: string, key: string)
    ensures DeletionCalls(d, true, zone, key) == []
  {
    LoopCallsDryRun(d.keys, d.entries, key);
  }

  lemma {:induction false} LoopCallsDryRun(ks: seq<Label>, m: map<Label, Entry>, key: string)
    ensures LoopCalls(ks, m, true, key) == []
  {
    if ks != [] {
      LoopCallsDryRun(ks[..|ks| - 1], m, key);
    }
  }

  /** Outside dry-run mode the zone is committed exactly once, after every deletion. */
  lemma {:induction false} CommitOnceAtEnd(d: Dict, zone: string, key: string)
    ensures var calls := DeletionCalls(d, false, zone, key);
            && |calls| >= 1 && calls[|calls| - 1] == ZoneCommit(zone)
            && forall i :: 0 <= i < |calls| - 1 ==> !calls[i].ZoneCommit?
  {
    LoopCallsNoCommit(d.keys, d.entries, false, key);
  }

  lemma {:induction false} LoopCallsNoCommit(ks: seq<Label>, m: map<Label, Entry>, dryRun: bool,
                                             key: string)
    ensures forall c :: c in LoopCalls(ks, m, dryRun, key) ==> !c.ZoneCommit?
  {
    if ks != [] {
      LoopCallsNoCommit(ks[..|ks| - 1], m, dryRun, key);
    }
  }

  /** `c` deletes a part of entry `e`: its instance or its record. */
  predicate Deletes(e: Entry, c: Call) {
    || (e.instance.Some? && c == ServerDelete(e.instance.value))
    || (e.domain.Some? && c == RecordDelete(e.domain.value))
  }

  /** Outside dry-run mode, with the record read under "domain", an entry's calls delete
      exactly its parts. */
  lemma EntryCallsDelete(e: Entry)
    ensures forall c :: c in EntryCalls(e, false, RecordKey) <==> Deletes(e, c)
  {
    assert RecordUnder(e, RecordKey) == e.domain;
  }

  /** Outside dry-run mode, with records read under "domain", the loop deletes every
      instance and every record of the filtered entries, and nothing else. */
  lemma LoopDeletesEverything(ks: seq<Label>, m: map<Label, Entry>)
    requires forall k :: k in ks ==> k in m
    ensures forall k, c :: k in ks && Deletes(m[k], c) ==> c in LoopCalls(ks, m, false, RecordKey)
    ensures forall c :: c in LoopCalls(ks, m, false, RecordKey) ==>
              exists k :: k in ks && Deletes(m[k], c)
  {
    LoopDeletesAll(ks, m);
    LoopDeletesOnlyEntries(ks, m);
  }

  lemma {:induction false} LoopDeletesAll(ks: seq<Label>, m: map<Label, Entry>)
    requires forall k :: k in ks ==> k in m
    ensures forall k, c :: k in ks && Deletes(m[k], c) ==> c in LoopCalls(ks, m, false, RecordKey)
  {
    if ks != [] {
      var front, last := ks[..|ks| - 1], ks[|ks| - 1];
      assert ks == front + [last];
      LoopDeletesAll(front, m);
      EntryCallsDelete(m[last]);
      assert LoopCalls(ks, m, false, RecordKey)
          == LoopCalls(front, m, false, RecordKey) + EntryCalls(m[last], false, RecordKey);
      forall k, c | k in ks && Deletes(m[k], c)
        ensures c in LoopCalls(ks, m, false, RecordKey)
      {
        if k != last {
          assert k in front;
        }
      }
    }
  }

  lemma {:induction false} LoopDeletesOnlyEntries(ks: seq<Label>, m: map<Label, Entry>)
    requires forall k :: k in ks ==> k in m
    ensures forall c :: c in LoopCalls(ks, m, false, RecordKey) ==>
              exists k :: k in ks && Deletes(m[k], c)
  {
    if ks != [] {
      var front, last := ks[..|ks| - 1], ks[|ks| - 1];
      assert ks == front + [last];
      LoopDeletesOnlyEntries(front, m);
      EntryCallsDelete(m[last]);
      assert LoopCalls(ks, m, false, RecordKey)
          == LoopCalls(front, m, false, RecordKey) + EntryCalls(m[last], false, RecordKey);
      forall c | c in LoopCalls(ks, m, false, RecordKey)
        ensures exists k :: k in ks && Deletes(m[k], c)
      {
        if c in LoopCalls(front, m, false, RecordKey) {
          var k :| k in front && Deletes(m[k], c);
          assert k in ks;
        } else {
          assert Deletes(m[last], c);
        }
      }
    }
  }

  /** Reading the record under "record", as the deletion loop is written, finds no record
      in any entry, so no DNS record is ever deleted. */
  lemma {:induction false} RecordKeyAsWrittenDeletesNoRecord(ks: seq<Label>, m: map<Label, Entry>,
                                                             dryRun: bool)
    ensures forall c :: c in LoopCalls(ks, m, dryRun, "record") ==> c.ServerDelete?
  {
    if ks != [] {
      RecordKeyAsWrittenDeletesNoRecord(ks[..|ks| - 1], m, dryRun);
    }
  }

  /** One entry holding a server and its record: as written, only the server goes; with
      the record read under "domain", the record goes too. */
  lemma RecordKeyCounterexample(s: Server, rec: DNSRecord, zone: string)
    ensures var d := Dict(["abcde"], map["abcde" := Entry(Some(s), Some(rec))]);
            && DeletionCalls(d, false, zone, "record") == [ServerDelete(s), ZoneCommit(zone)]
            && DeletionCalls(d, false, zone, RecordKey)
               == [ServerDelete(s), RecordDelete(rec), ZoneCommit(zone)]
  {
    var e := Entry(Some(s), Some(rec));
    var d := Dict(["abcde"], map["abcde" := e]);
    assert ["abcde"][..0] == [];
    assert "record"[0] != RecordKey[0];
    assert LoopCalls(d.keys, d.entries, false, "record") == EntryCalls(e, false, "record");
    assert LoopCalls(d.keys, d.entries, false, RecordKey) == EntryCalls(e, false, RecordKey);
  }

  /** A line the command prints about one entry. */
  datatype Notice = DeletingInstance(id: Label) | InstanceFailed(id: Label)
                  | DeletingDomain(id: Label) | DomainFailed(id: Label)

  /** The lines for one entry: each part is announced, even in dry-run mode, and
      followed by a failure line when its provider call raised. */
  function EntryNotices(id: Label, e: Entry, dryRun: bool, rejected: set<Call>, key: string)
    : seq<Notice>
  {
    (if e.instance.Some? then
       [DeletingInstance(id)]
       + (if !dryRun && ServerDelete(e.instance.value) in rejected then [InstanceFailed(id)] else [])
     else [])
    + (if RecordUnder(e, key).Some? then
         [DeletingDomain(id)]
         + (if !dryRun && RecordDelete(RecordUnder(e, key).value) in rejected then [DomainFailed(id)]
            else [])
       else [])
  }

  function Notices(ks: seq<Label>, m: map<Label, Entry>, dryRun: bool, rejected: set<Call>,
                   key: string): seq<Notice>
    requires forall k :: k in ks ==> k in m
  {
    if ks == [] then []
    else
      var k := ks[|ks| - 1];
      Notices(ks[..|ks| - 1], m, dryRun, rejected, key) + EntryNotices(k, m[k], dryRun, rejected, key)
  }

  lemma EntryFailures(id: Label, e: Entry, dryRun: bool, rejected: set<Call>)
    ensures forall k :: InstanceFailed(k) in EntryNotices(id, e, dryRun, rejected, RecordKey) <==>
              k == id && e.instance.Some? && !dryRun && ServerDelete(e.instance.value) in rejected
    ensures forall k :: DomainFailed(k) in EntryNotices(id, e, dryRun, rejected, RecordKey) <==>
              k == id && e.domain.Some? && !dryRun && RecordDelete(e.domain.value) in rejected
  {
  }

  /** A failed deletion is reported and does not stop the loop: an entry's failure line
      is printed exactly when that part exists, the run is not a dry run and the provider
      rejected its deletion. */
  lemma {:induction false} FailuresReported(ks: seq<Label>, m: map<Label, Entry>, dryRun: bool,
                                            rejected: set<Call>)
    requires forall k :: k in ks ==> k in m
    ensures forall k :: InstanceFailed(k) in Notices(ks, m, dryRun, rejected, RecordKey) <==>
              k in ks && m[k].instance.Some? && !dryRun && ServerDelete(m[k].instance.value) in rejected
    ensures forall k :: DomainFailed(k) in Notices(ks, m, dryRun, rejected, RecordKey) <==>
              k in ks && m[k].domain.Some? && !dryRun && RecordDelete(m[k].domain.value) in rejected
  {
    if ks != [] {
      var front := ks[..|ks| - 1];
      var last := ks[|ks| - 1];
      FailuresReported(front, m, dryRun, rejected);
      EntryFailures(last, m[last], dryRun, rejected);
      var before := Notices(front, m, dryRun, rejected, RecordKey);
      var after := EntryNotices(last, m[last], dryRun, rejected, RecordKey);
      assert Notices(ks, m, dryRun, rejected, RecordKey) == before + after;
      assert forall k :: k in ks <==> k in front || k == last;
    }
  }

  /** The providers' side of a deletion: which calls raise, and the calls made so far. */
  class Providers {
    const rejected: set<Call>
    var calls: seq<Call>

    constructor (rejected: set<Call>)
      ensures this.rejected == rejected && calls == []
    {
      this.rejected := rejected;
      calls := [];
    }

    /** Make one call; `ok` is false when it raised. */
    method Send(c: Call) returns (ok: bool)
      modifies this
      ensures calls == old(calls) + [c]
      ensures ok <==> c !in rejected
    {
      calls := calls + [c];
      ok := c !in rejected;
    }
  }

  /** `delete_instance`: announce, then (outside dry-run mode) delete, reporting a failure. */
  method DeleteInstance(p: Providers, id: Label, s: Server, dryRun: bool)
    returns (notices: seq<Notice>)
    modifies p
    ensures p.calls == old(p.calls) + (if dryRun then [] else [ServerDelete(s)])
    ensures notices == EntryNotices(id, Entry(Some(s), None), dryRun, p.rejected, RecordKey)
  {
    notices := [DeletingInstance(id)];
    if !dryRun {
      var ok := p.Send(ServerDelete(s));
      if !ok {
        notices := notices + [InstanceFailed(id)];
      }
    }
  }

  /** `delete_record`: announce, then (outside dry-run mode) delete, reporting a failure. */
  method DeleteRecord(p: Providers, id: Label, rec: DNSRecord, dryRun: bool)
    returns (notices: seq<Notice>)
    modifies p
    ensures p.calls == old(p.calls) + (if dryRun then [] else [RecordDelete(rec)])
    ensures notices == EntryNotices(id, Entry(None, Some(rec)), dryRun, p.rejected, RecordKey)
  {
    notices := [DeletingDomain(id)];
    if !dryRun {
      var ok := p.Send(RecordDelete(rec));
      if !ok {
        notices := notices + [DomainFailed(id)];
      }
    }
  }

  /** The loop body for one entry: its instance, then its record. */
  method DeleteEntry(p: Providers, id: Label, entry: Entry, dryRun: bool)
    returns (notices: seq<Notice>)
    modifies p
    ensures p.calls == old(p.calls) + EntryCalls(entry, dryRun, RecordKey)
    ensures notices == EntryNotices(id, entry, dryRun, p.rejected, RecordKey)
  {
    notices := [];
    if entry.instance.Some? {
      notices := DeleteInstance(p, id, entry.instance.value, dryRun);
    }
    var record := RecordUnder(entry, RecordKey);
    if record.Some? {
      var more := DeleteRecord(p, id, record.value, dryRun);
      notices := notices + more;
    }
  }

  /** Why the command stops early: bad arguments, a listed instance name without "-"
      (the listing raises), an unknown `-s` name, or a zone commit that raised (it is not
      caught). */
  datatype Stop = Usage(error: UsageError) | UnlabelledInstance | UnknownServer(name: Label)
                | CommitFailed

  /** The deletion loop over the filtered entries, in their order. */
  method DeleteEntries(p: Providers, f: Dict, dryRun: bool) returns (notices: seq<Notice>)
    requires KeysListed(f)
    modifies p
    ensures p.calls == old(p.calls) + LoopCalls(f.keys, f.entries, dryRun, RecordKey)
    ensures notices == Notices(f.keys, f.entries, dryRun, p.rejected, RecordKey)
  {
    notices := [];
    for i := 0 to |f.keys|
      invariant p.calls == old(p.calls) + LoopCalls(f.keys[..i], f.entries, dryRun, RecordKey)
      invariant notices == Notices(f.keys[..i], f.entries, dryRun, p.rejected, RecordKey)
    {
      assert f.keys[..i + 1][..i] == f.keys[..i];
      var id := f.keys[i];
      var more := DeleteEntry(p, id, f.entries[id], dryRun);
      notices := notices + more;
    }
    assert f.keys[..|f.keys|] == f.keys;
  }

  /** `delete`: validate the arguments, filter the listing, delete each filtered entry's
      instance then record, then commit the zone unless in dry-run mode. */
  method Delete(p: Providers, servers: seq<Server>, records: seq<DNSRecord>, args: DeleteArgs,
                zone: string)
    returns (notices: seq<Notice>, stop: Option<Stop>)
    modifies p
    ensures CheckArgs(args).Some? ==>
              stop == Some(Usage(CheckArgs(args).value)) && notices == [] && p.calls == old(p.calls)
    ensures CheckArgs(args).None? && Lister.Gathered(servers, records).None? ==>
              stop == Some(UnlabelledInstance) && notices == [] && p.calls == old(p.calls)
    ensures CheckArgs(args).None? && Lister.Gathered(servers, records).Some? ==>
              var listing := Lister.Gathered(servers, records).value;
              && WellFormed(listing)
              && (FilterEntries(listing, args).Failure? ==>
                    stop == Some(UnknownServer(FilterEntries(listing, args).error))
                    && notices == [] && p.calls == old(p.calls))
              && (FilterEntries(listing, args).Success? ==>
                    var f := FilterEntries(listing, args).value;
                    && p.calls == old(p.calls) + DeletionCalls(f, args.dryRun, zone, RecordKey)
                    && notices == Notices(f.keys, f.entries, args.dryRun, p.rejected, RecordKey)
                    && stop == (if !args.dryRun && ZoneCommit(zone) in p.rejected then Some(CommitFailed)
                                else None))
  {
    notices := [];
    var usage := CheckArgs(args);
    if usage.Some? {
      return notices, Some(Usage(usage.value));
    }
    var gathered := Lister.GetList(servers, records);
    if gathered.None? {
      return notices, Some(UnlabelledInstance);
    }
    var listing := gathered.value;
    var filtered := FilterEntries(listing, args);
    if filtered.Failure? {
      return notices, Some(UnknownServer(filtered.error));
    }
    assert KeysListed(listing);
    notices, stop := DeleteFiltered(p, filtered.value, args.dryRun, zone);
  }

  /** The deletion proper, once the entries are filtered: delete each entry, then commit
      the zone unless in dry-run mode; a rejected commit stops the command. */
  method DeleteFiltered(p: Providers, f: Dict, dryRun: bool, zone: string)
    returns (notices: seq<Notice>, stop: Option<Stop>)
    requires KeysListed(f)
    modifies p
    ensures p.calls == old(p.calls) + DeletionCalls(f, dryRun, zone, RecordKey)
    ensures notices == Notices(f.keys, f.entries, dryRun, p.rejected, RecordKey)
    ensures stop == (if !dryRun && ZoneCommit(zone) in p.rejected then Some(CommitFailed) else None)
  {
    notices := DeleteEntries(p, f, dryRun);
    stop := None;
    if !dryRun {
      var ok := p.Send(ZoneCommit(zone));
      if !ok {
        stop := Some(CommitFailed);
      }
    }
  }
}
