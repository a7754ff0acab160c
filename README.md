# install-party in Dafny

install-party provisions short-lived servers for install parties. Each server is an
OpenStack instance named `namespace-name` with a DNS A record `name.namespace` in a zone
hosted at OVH. Its three commands are modelled here:

- **create** (`Creator`, with `OpenStack`). Pick a random five-letter name. Create the
  instance and poll its status until it is `ACTIVE` or `ERROR`. Read its public IPv4
  address from the `Ext-Net` network. Create the DNS record for that address. Probe the
  expected domain `name.namespace.zone` until it answers or the connectivity timeout
  passes. With a number above one, do this as a batch that carries on past failures and
  ends with a summary.
- **list** (`Lister`). Gather instances and DNS records into one dictionary keyed by a
  label. An instance's label is the text after the first `-` of its name. A record's
  label is the text before the first `.` of its sub-domain. Then sort the entries into
  complete entries, orphaned domains and orphaned instances.
- **delete** (`Eraser`). Check the `-s`/`-a`/`-e` selection. Filter the listing. Delete
  each selected entry's instance and then its record, reporting failures without
  stopping. Commit the DNS zone once at the end. In dry-run mode only announce the
  deletions.

Supporting modules:
- `Strings` models Python's `split`/`join` on one character and the check
  `ipaddress.IPv4Address` makes: four dot-separated octets, no leading zeros, each at
  most 255.
- `Resources` holds the shared values: Nova servers, instances, DNS records, entries,
  and the insertion-ordered entries dictionary.
- `Seqs` holds two facts about sequence concatenation and `LastWhere`, the last element
  passing a test, which the whole-listing gathering lemmas rest on.
- `Wrappers` holds `Option` and `Result`.

What the outside world answers is an input:
- the servers and records the providers list;
- the successive answers of the status poll;
- the id the DNS API gives a new record;
- the clock readings of the connectivity loop;
- the letters the random source picks;
- which provider calls raise.

Polling loops that never end in the source end here when their observations run out. The
outcome then says so: `Building`, `NeverSettles`, `StillWaiting` or `Hangs`.

Three places where the source does not do what it evidently means:
- The delete command imports `get_list` from the lister, which defines only
  `get_and_print_list` (install_party/eraser/delete.py:5, install_party/lister/list.py:93).
  `Eraser.Delete` gathers the listing through `Lister.GetList`, the gathering half of
  `get_and_print_list`. Because install_party/__main__.py:6 imports the delete module
  at start-up, this `ImportError` as written stops every command, create and list
  included, before it starts.
- `sort_entries` calls `openstack.get_ipv4`, but the `openstack` it imports is the
  utility module (install_party/lister/list.py:3), which defines only `get_nova_client`
  (install_party/util/openstack.py:7-19). So listing raises `AttributeError` at the
  first entry holding an instance. `Lister.SortAsWrittenRaises` models this.
  `Lister.SortEntries` reads the address with the providers' `get_ipv4`
  (install_party/instances/providers/openstack.py:85-113). It is the first Finding below.
- The delete loop reads the record under the wrong key. It is the second Finding below.
  `Eraser.DeleteEntry`, `DeleteEntries`, `DeleteFiltered` and `Delete` run the
  corrected loop, which reads the record under `"domain"`.

Label derivation is a split on the first separator, not a prefix or suffix strip. With a
`-` in the namespace, or a `.` in the name, an instance and its record get different
labels. `Lister.DashedNamespaceSplitsEntry` shows this for any namespace `a-b`, and
the model keeps the source's behaviour. The orphaned-domains table prints four column
headers over three-column rows (install_party/lister/list.py:124). That is presentation
only and is not modelled.

## Model

| member | source | states |
|---|---|---|
| Strings.SplitOnce | install_party/lister/list.py:18 | `split(sep, 1)` gives one part exactly when the separator is absent, otherwise the text before its first occurrence (free of it) and the rest, which joined by the separator restore the text |
| Strings.SplitOnceOfJoin | install_party/lister/list.py:50 | splitting `a + sep + b` with a separator-free `a` gives back `[a, b]` |
| Strings.DottedQuadIsIPv4 | install_party/instances/providers/openstack.py:103-108 | every dotted quad of four values up to 255 passes the `IPv4Address` check |
| Strings.IPv4IsDottedQuad | install_party/instances/providers/openstack.py:103-111 | every text passing the `IPv4Address` check is the dotted quad of its four octet values, each at most 255 |
| OpenStack.LastIPv4IsLastValid | install_party/instances/providers/openstack.py:100-113 | the address kept is an interface address that passes the check with no passing address after it; none exactly when no address passes |
| OpenStack.Ipv4OfSpec | install_party/instances/providers/openstack.py:96-113 | no `Ext-Net` network gives no address; a returned address is one of the `Ext-Net` addresses and is valid IPv4; none exactly when no interface address is valid |
| OpenStack.GetIpv4 | install_party/instances/providers/openstack.py:85-113 | the loop over the interfaces returns the last valid IPv4 address of `Ext-Net` |
| OpenStack.StatusPollFirstDecided | install_party/instances/providers/openstack.py:45-55 | the first poll whose status is `ACTIVE` or `ERROR` settles the loop: `ACTIVE` returns that server, `ERROR` fails |
| OpenStack.StatusPollBuilding | install_party/instances/providers/openstack.py:46 | the loop never settles exactly when every poll is neither `ACTIVE` nor `ERROR` |
| OpenStack.InstanceCreationReady | install_party/instances/providers/openstack.py:57 | with `ACTIVE` before any `ERROR`, the instance carries that server's id, the requested name, the server's IPv4 address (valid when present) and status `ACTIVE` |
| OpenStack.InstancesClient.constructor | install_party/instances/providers/openstack.py:31-32 | the client keeps the configured image and flavour |
| OpenStack.InstancesClient.CreateInstance | install_party/instances/providers/openstack.py:34-57 | requests the name with the client's image and flavour, and ends as the status polls decide |
| OpenStack.InstancesClient.GetInstances | install_party/instances/providers/openstack.py:66-73 | one instance per listed server, in order, with id, name and status copied and the IPv4 address read from the server |
| Creator.RandomString | install_party/creator/create.py:18-20 | `random_string(n)` has exactly n characters, all in `a`..`z` |
| Creator.RandomStringReachesEveryWord | install_party/creator/create.py:20 | every lowercase word can be drawn |
| Creator.InstanceName | install_party/creator/create.py:64 | the instance name is the namespace, a `-`, then the name, each recoverable from its position |
| Creator.SubDomain | install_party/creator/create.py:91 | the record's sub-domain is the name, a `.`, then the namespace, each recoverable from its position |
| Creator.ExpectedDomain | install_party/creator/create.py:147-149 | the expected domain is the record's sub-domain `name.namespace`, a `.`, then the zone |
| Creator.RecordCreation | install_party/creator/create.py:73-98 | `AddressValueError` exactly when the address is missing or not IPv4 (install_party/dns/providers/ovh.py:20); `DnsApiError` exactly when the address passes and the API gives no id; otherwise the record `name.namespace` with that id, pointing at that address, in the configured zone |
| Creator.ConnectivityFirstVerdict | install_party/creator/create.py:120-131 | the first round that does not keep waiting decides: any answer connects (no status check), a failed probe past `before + timeout` times out |
| Creator.ConnectivityStillWaiting | install_party/creator/create.py:120-131 | the loop has no verdict exactly when every probe failed within the timeout |
| Creator.ConnectivityBounded | install_party/creator/create.py:121-128 | with one second slept per round, more than `timeout` rounds always reach a verdict |
| Creator.CheckConnectivity | install_party/creator/create.py:101-131 | the probing loop ends as the first deciding round says |
| Creator.ServerRunSteps | install_party/creator/create.py:134-169 | the instance is requested first under `namespace-name`; the record `name.namespace` with the instance's address only if it became active; the probe of `name.namespace.zone` exactly when the instance became active and the record was created; a failed instance skips the record and the probe, and a failed record (address refused or DNS API error) skips the probe; success returns the expected domain |
| Creator.AddressErrorIffNoAddress | install_party/creator/create.py:155-158 | the DNS provider's IPv4 check refuses the target exactly when the active instance has no address |
| Creator.CreateServer | install_party/creator/create.py:134-169 | runs the three steps as `ServerRun` describes |
| Creator.BatchAccounting | install_party/creator/create.py:212-223 | in a batch, created servers plus failures equal the number of creations |
| Creator.CreatedDomainsExactly | install_party/creator/create.py:217-218 | the domains kept are exactly those of the successful creations |
| Creator.CountBounds | install_party/creator/create.py:226-239 | no failure exactly when all were created; as many failures as creations exactly when all failed |
| Creator.SummaryChoice | install_party/creator/create.py:226-239 | "all created" exactly when every creation succeeded, "all failed" exactly when every one failed, otherwise the created count (strictly between 0 and N) over N |
| Creator.BatchWithOneFailure | install_party/creator/create.py:207-239 | three creations with the second failing report two domains, one failure, "2 servers over 3" |
| Creator.BatchOutcomes | install_party/creator/create.py:212-217 | a batch of n makes n creations |
| Creator.Create | install_party/creator/create.py:192-253 | more than one server runs the batch, counting each creation as created or failed and carrying on; otherwise one server under the given or a random name |
| Creator.CreateBatch | install_party/creator/create.py:207-239 | the batch loop ends with the report of the batch's outcomes: the created domains in order, the failure count and the closing message, or the stop at the first creation that never ends |
| Creator.HangStopsBatch | install_party/creator/create.py:212-223 | a creation that never ends stops the batch with the counts so far |
| Lister.InstanceLabel | install_party/lister/list.py:18 | a name with no `-` has no label (the indexing raises), and every other name has one |
| Lister.InstanceLabelSpec | install_party/lister/list.py:18 | the label is exactly the text after the first `-` of the name |
| Lister.RecordLabelSpec | install_party/lister/list.py:50 | the label is the longest `.`-free prefix of the sub-domain |
| Lister.InstanceLabelOfInstanceName | install_party/lister/list.py:18 | an instance named `namespace-L` with a `-`-free namespace has label L |
| Lister.RecordLabelOfSubDomain | install_party/lister/list.py:50 | a record `L.namespace` with a `.`-free L has label L |
| Lister.DashedNamespaceSplitsEntry | install_party/lister/list.py:18 | in a namespace `a-b` (no `-` in `a`), the instance of `lbl` is labelled `b-lbl` and its record `lbl`, and the two labels differ |
| Lister.WithInstanceSpec | install_party/lister/list.py:19-22 | an existing label gets only its instance set and keeps its record; a new label is appended with an instance-only entry; no other key changes |
| Lister.WithDomainSpec | install_party/lister/list.py:51-54 | the same for records |
| Lister.MergeInstancesWellFormed | install_party/lister/list.py:17-22 | gathering keeps every key once, in step with the map, with no empty entry |
| Lister.MergeDomainsWellFormed | install_party/lister/list.py:42-54 | the same for records |
| Lister.EntriesDict.constructor | install_party/lister/list.py:95 | the dictionary starts empty |
| Lister.EntriesDict.Insert | install_party/lister/list.py:22 | a new key is stored and goes last in iteration order |
| Lister.EntriesDict.SetInstance | install_party/lister/list.py:20 | only the entry's instance changes |
| Lister.EntriesDict.SetDomain | install_party/lister/list.py:52 | only the entry's record changes |
| Lister.GatherInstances | install_party/lister/list.py:6-22 | the loop merges each server in order, and fails exactly when some listed name has no `-` |
| Lister.GatherDomains | install_party/lister/list.py:25-54 | the loop merges each record in order |
| Lister.GetList | install_party/lister/list.py:93-100 | instances then records gathered into a well-formed dictionary, or none when a name has no `-` |
| Lister.MergeOrderIrrelevant | install_party/lister/list.py:17-54 | gathering instances then records or records then instances gives every label the same instance and record |
| Lister.MergeInstancesAppend | install_party/lister/list.py:17 | gathering two server lists in turn is gathering their concatenation |
| Lister.MergeDomainsAppend | install_party/lister/list.py:42 | the same for records |
| Lister.LastInstanceNone | install_party/lister/list.py:17-22 | the last server carrying a label is none exactly when no listed server carries it |
| Lister.LastDomainNone | install_party/lister/list.py:42-54 | the same for records |
| Lister.LastInstanceAt | install_party/lister/list.py:17-22 | the server at an index that carries the label, with no later server carrying it, is the last server carrying it |
| Lister.LastDomainAt | install_party/lister/list.py:42-54 | the same for records |
| Lister.MergeInstancesContents | install_party/lister/list.py:17-22 | after gathering a whole listing of servers, a label has an entry exactly when it had one or some server carries it; its instance is the last server carrying it (else the one it had), and its record is the one it had |
| Lister.MergeDomainsContents | install_party/lister/list.py:42-54 | after gathering a whole listing of records, a label has an entry exactly when it had one or some record carries it; its record is the last record carrying it (else the one it had), and its instance is the one it had |
| Lister.MergeInstancesFrame | install_party/lister/list.py:17-22 | servers carrying other labels leave a label's entry, or its absence, unchanged |
| Lister.MergeDomainsFrame | install_party/lister/list.py:42-54 | records carrying other labels leave a label's entry, or its absence, unchanged |
| Lister.LastInstanceWins | install_party/lister/list.py:19-20 | the last server carrying a label, wherever it stands in the listing, is that entry's instance, and the entry keeps its record |
| Lister.LastDomainWins | install_party/lister/list.py:51-52 | the last record carrying a label, wherever it stands in the listing, is that entry's record, and the entry keeps its instance |
| Lister.GatheredContents | install_party/lister/list.py:93-100 | in the listing, a label has an entry exactly when some server or record carries it, and the entry holds the last server and the last record carrying it |
| Lister.SortEntries | install_party/lister/list.py:57-90 | with the address read by the providers' `get_ipv4` (the corrected call), returns (complete, orphaned domains, orphaned instances), each the rows of its kind in iteration order |
| Lister.SortAsWrittenRaises | install_party/lister/list.py:75 | as written, listing raises exactly when some entry holds an instance, and otherwise gives the corrected lists |
| Lister.SortAsWrittenCounterexample | install_party/lister/list.py:87 | an entry with a server and its record makes the as-written listing raise, while the corrected listing shows one complete row |
| Lister.SortEntry | install_party/lister/list.py:62-88 | with the corrected `get_ipv4` call, one entry adds its row to the list of its kind (no record: orphaned instance; else no instance: orphaned domain; else complete) and leaves the other two lists unchanged |
| Lister.RowsSplit | install_party/lister/list.py:61 | rows follow iteration order: the rows of a concatenation of keys are the first part's rows, then the second's |
| Lister.SortPartition | install_party/lister/list.py:61-88 | the three lists together hold one row per entry |
| Lister.RowsOfKind | install_party/lister/list.py:65-88 | a label is in a list exactly when its entry is of that kind (no record: orphaned instance; no instance: orphaned domain; both: complete), and each row is its entry's row |
| Lister.CompleteRowShape | install_party/lister/list.py:82-88 | a complete row holds the label, instance name, `subDomain.zone`, status and IPv4 address of an entry with both parts |
| Lister.CreatedServerGathered | install_party/lister/list.py:93-100 | in any listing, a server and a record named by the creator for one label (a `-`-free namespace, a `.`-free label), each the last of its listing to carry that label, form one entry holding both |
| Lister.GatheredPair | install_party/lister/list.py:17-54 | in any listing, a server and a record with the same label, each the last of its listing to carry it, are gathered into one entry holding both |
| Lister.CreatedServerListedComplete | install_party/lister/list.py:61-88 | in any well-formed listing, such an entry gives a complete row showing the domain the creator expected |
| Eraser.CheckArgsAccepts | install_party/eraser/delete.py:150-169 | accepted arguments give exactly one of `-s` and `-a`, `-e` only with `-a`, and never `-s` with `-e` |
| Eraser.SelectServersFailure | install_party/eraser/delete.py:23 | the `-s` selection raises exactly when a name is not listed, naming the first such name |
| Eraser.SelectServersContents | install_party/eraser/delete.py:23 | a selection holds exactly the named keys, once each, mapped to their original entries |
| Eraser.SelectServersOrder | install_party/eraser/delete.py:23 | the selected keys follow the order of first mention among the names |
| Eraser.FilterEntriesSpec | install_party/eraser/delete.py:9-35 | `-s` gives exactly the named entries; otherwise the listed entries minus the excluded names, with unknown exclusions ignored; neither option gives the listing unchanged; entries are never altered |
| Eraser.LoopCallsSplit | install_party/eraser/delete.py:109 | entries are processed in iteration order |
| Eraser.DryRunCallsNothing | install_party/eraser/delete.py:109-125 | a dry run makes no provider call: no deletion, no commit |
| Eraser.CommitOnceAtEnd | install_party/eraser/delete.py:121-125 | outside dry-run mode the zone is committed exactly once, after every deletion |
| Eraser.LoopDeletesEverything | install_party/eraser/delete.py:109-119 | outside dry-run mode, with the record read under `"domain"`, a deletion call is made for a part of a selected entry exactly when that part exists, and no other deletion call is made |
| Eraser.EntryCallsDelete | install_party/eraser/delete.py:110-119 | with the record read under `"domain"`, one entry's calls delete exactly its instance and its record |
| Eraser.RecordKeyAsWrittenDeletesNoRecord | install_party/eraser/delete.py:111 | reading the record under `"record"` deletes no record at all |
| Eraser.RecordKeyCounterexample | install_party/eraser/delete.py:111 | for an entry with a server and a record, the as-written loop deletes only the server; the corrected one deletes both |
| Eraser.EntryFailures | install_party/eraser/delete.py:55-58 | one entry's failure lines are exactly its rejected deletions |
| Eraser.FailuresReported | install_party/eraser/delete.py:80-83 | a failure line is printed exactly for each part whose deletion raised, and the loop carries on |
| Eraser.Providers.constructor | install_party/eraser/delete.py:102-103 | the providers start with no call made |
| Eraser.DeleteInstance | install_party/eraser/delete.py:38-58 | announces, then deletes the server unless in dry-run mode, reporting a failure |
| Eraser.DeleteRecord | install_party/eraser/delete.py:61-83 | announces, then deletes the record unless in dry-run mode, reporting a failure |
| Eraser.DeleteEntry | install_party/eraser/delete.py:110-119 | in the corrected loop (record read under `"domain"`), an entry's instance, then its record |
| Eraser.DeleteEntries | install_party/eraser/delete.py:109-119 | the corrected loop makes exactly the calls and prints exactly the lines the entries call for |
| Eraser.DeleteFiltered | install_party/eraser/delete.py:109-125 | the corrected loop's calls then the zone commit unless in dry-run mode; a rejected commit stops the command |
| Eraser.Delete | install_party/eraser/delete.py:86-127 | bad arguments, an unlabelled instance or an unknown `-s` name stop before any call; otherwise the corrected loop runs, then the commit unless in dry-run mode |

## Findings

| source | as written | input that shows it | evidently intended | confidence | as-written member | corrected member |
|---|---|---|---|---|---|---|
| install_party/lister/list.py:75 | `openstack.get_ipv4(instance)` (also line 87) resolves to `install_party.util.openstack` (install_party/lister/list.py:3), which defines only `get_nova_client` (install_party/util/openstack.py:7-19), so `sort_entries` raises `AttributeError` at the first entry holding an instance | one entry `abcde` holding the server `party-abcde` and the record `abcde.party`: after printing "Gathering instances..." and "Gathering domains...", listing raises before printing any table | call the providers' `get_ipv4` (install_party/instances/providers/openstack.py:85-113) | not executed | Lister.SortAsWrittenRaises | Lister.SortEntries |
| install_party/eraser/delete.py:111 | the loop reads the record with `entry.get("record")`, but the listing stores it under `"domain"` (install_party/lister/list.py:52-54), so no DNS record is ever deleted | one entry with an instance and a record, delete with `-a`: only the server is deleted, then the zone is committed | read the record under `"domain"` and delete it after the instance; for that deletion to succeed the listing must also hand over `DNSRecord` values, as `get_sub_domains` builds them (install_party/dns/providers/ovh.py:49-57), since `delete_sub_domain` reads `record.zone` and `record.record_id` (install_party/dns/providers/ovh.py:62) and raw OVH dictionaries have neither | not executed | Eraser.RecordKeyAsWrittenDeletesNoRecord | Eraser.LoopDeletesEverything |

## Left out

- Printing, `tabulate` and logging are not modelled. Exceptions are: the per-entry lines of the delete loop, and the summary and domains of a batch, which are outputs.
- Argument parsing is modelled only for the three selection checks of the delete command. `int(args.number)` on a non-number is not modelled; the number arrives as an integer.
- The Nova and OVH SDKs, the HTTP probe, the clock, `time.sleep` and the random source are not modelled. Their answers are inputs.
- The providers' name filters (`namespace-*`, `%.namespace`) are not modelled. The listing takes whatever the providers return.
- Lister.GatherInstances, Lister.GatherDomains: each provider listing is one input sequence; the per-record `GET` requests are not modelled.
- OpenStack.InstancesClient.CreateInstance: a poll that lists no server (`[0]` on an empty list) is not modelled; each poll is a server. A loop that never settles ends with `NeverSettles` when the polls run out.
- Creator.CheckConnectivity: a loop still waiting when the probes run out ends with `StillWaiting`.
- Creator.CreateBatch: a creation that never ends stops the batch with `BatchHangs`.
- Creator.RecordCreation: the record fields the DNS API echoes back are taken to be the ones sent.
- The commits inside creation are not modelled. The instances provider's commit does nothing for OpenStack. The DNS zone commit comes right after the record is created.
- The post-install script (loading and templating) is not modelled, because it is file I/O.
- Eraser.ExcludeEntries keeps the listing's order, whereas Python iterates the set difference in hash order. The key set and the entries are exact.
- Creator.CheckConnectivity: the clock readings and the timeout are Python floats; the model uses `real`, so rounding in `before + timeout` is not modelled.
- Eraser.DeleteRecord: the listing stores raw OVH dictionaries, on which `delete_sub_domain` would raise; whether a deletion call raises is an input, so this failure is one of the inputs the model admits, not a consequence it derives.
- Lister.CreatedServerListedComplete: listing reads the zone from `general.dns_zone` (install_party/lister/list.py:37, 45), while creation and deletion use `dns.zone` (install_party/creator/create.py:90, 148); the created record is among the listed ones only when both settings name the same zone, which the model does not check.
- Strings.IsOctet rejects leading zeros, as `ipaddress` does from Python 3.9.5 on; older versions accepted them.
- The instances client's `delete_instance` and `commit` are not modelled; the delete command calls Nova directly.
- Provider lookup (`instances_provider.py`, `dns_provider.py`), the legacy `install_party.py` script, `__main__.py` and `setup.py` are not modelled: they are plumbing outside the three commands.
- The `Entry` class of `install_party/util/entry.py` is not used by these commands, which store entries as dictionaries.
