/**
 * The edge's routing registry (server/src/lib/edgeRegistry.ts): one record per
 * hostname in a key-value store that caches a function of the database, kept up by
 * pushes that may fail anywhere and repaired by a reconciler that compares hashes.
 */
module EdgeRegistry {
  import opened Common

  datatype Plan = Free | Pro

  datatype Record = Record(projectId: string, slug: string, prefix: string, showBadge: bool, suspended: bool,
                           redirectTo: Option<string>, api: Option<string>)

  datatype Domain = Domain(hostname: string, isPrimary: bool)

  datatype SiteState = SiteState(id: string, slug: Option<string>, suspended: bool, livePrefix: Option<string>,
                                 backendUrl: Option<string>, plan: Option<Plan>, domains: seq<Domain>)

  /** A project row, and the READY deployments by id. */
  datatype Row = Row(id: string, slug: Option<string>, suspended: bool, liveDeployment: Option<string>,
                     domains: seq<Domain>, plan: Option<Plan>)

  datatype Deployment = Deployment(storagePrefix: string, backendUrl: Option<string>)

  datatype Database = Database(rows: seq<Row>, ready: map<string, Deployment>)

  const KEY_PREFIX := "host:"

  /** A value the source takes as present: an empty string is as good as none. */
  function Truthy(s: Option<string>): (r: Option<string>)
    ensures r.Some? <==> s.Some? && s.value != ""
  {
    if s == Some("") then None else s
  }

  function RecordKey(slug: string, domain: string): string {
    KEY_PREFIX + slug + "." + domain
  }

  predicate ShowsBadge(plan: Option<Plan>) {
    plan != Some(Pro)
  }

  function RecordFor(site: SiteState): Option<Record> {
    if Truthy(site.slug).None? then None
    else if !site.suspended && Truthy(site.livePrefix).None? then None
    else Some(Record(site.id, site.slug.value, if site.livePrefix.Some? then site.livePrefix.value else "",
                     ShowsBadge(site.plan), site.suspended, None, Truthy(site.backendUrl)))
  }

  datatype Keyed = Keyed(key: string, record: Option<Record>)

  /** The first primary domain. */
  function Primary(domains: seq<Domain>): Option<Domain> {
    if domains == [] then None else if domains[0].isPrimary then Some(domains[0]) else Primary(domains[1..])
  }

  function DefaultRecord(site: SiteState): Option<Record> {
    var base := RecordFor(site);
    var primary := Primary(site.domains);
    if base.Some? && primary.Some? && !base.value.suspended
    then Some(base.value.(redirectTo := Some("https://" + primary.value.hostname)))
    else base
  }

  function RecordsFor(site: SiteState, domain: string): seq<Keyed> {
    if Truthy(site.slug).None? then []
    else [Keyed(RecordKey(site.slug.value, domain), DefaultRecord(site))]
         + seq(|site.domains|, i requires 0 <= i < |site.domains| =>
             Keyed(KEY_PREFIX + site.domains[i].hostname, RecordFor(site)))
  }

  /** A project is served at all of its hostnames or at none, and every key is a host key. */
  lemma RecordsAgree(site: SiteState, domain: string)
    ensures var all := RecordsFor(site, domain);
      && (forall i :: 0 <= i < |all| ==> KEY_PREFIX <= all[i].key)
      && (forall i :: 0 <= i < |all| ==> (all[i].record.Some? <==> RecordFor(site).Some?))
      && (all == [] <==> Truthy(site.slug).None?)
      && (RecordFor(site).Some? ==> all != [])
  {
  }

  /**
   * All addresses of a project share one record but for the redirect: only the
   * default address has one, and only for a project that is not suspended and has
   * a primary domain, to which it leads.
   */
  lemma AddressesShareOneRecord(site: SiteState, domain: string, i: nat)
    requires i < |RecordsFor(site, domain)| && RecordFor(site).Some?
    ensures var r, base := RecordsFor(site, domain)[i].record.value, RecordFor(site).value;
      && r == base.(redirectTo := r.redirectTo)
      && (r.redirectTo.Some? <==> i == 0 && !site.suspended && exists d :: d in site.domains && d.isPrimary)
      && (r.redirectTo.Some? ==>
            exists d :: d in site.domains && d.isPrimary && r.redirectTo == Some("https://" + d.hostname))
      && (site.suspended || (site.livePrefix.Some? && r.prefix == site.livePrefix.value != ""))
      && r.projectId == site.id && Some(r.slug) == site.slug && r.suspended == site.suspended
      && (r.showBadge <==> site.plan != Some(Pro))
      && r.api == (if site.backendUrl != Some("") then site.backendUrl else None)
  {
    PrimaryIsFirst(site.domains);
  }

  lemma {:induction false} PrimaryIsFirst(domains: seq<Domain>)
    ensures Primary(domains).Some? <==> exists d :: d in domains && d.isPrimary
    ensures Primary(domains).Some? ==> Primary(domains).value in domains && Primary(domains).value.isPrimary
  {
    if domains != [] {
      PrimaryIsFirst(domains[1..]);
      assert domains == [domains[0]] + domains[1..];
    }
  }

  // ---- From the database ----

  function StateOf(row: Row, ready: map<string, Deployment>): SiteState {
    var isReady := Truthy(row.liveDeployment).Some? && row.liveDeployment.value in ready;
    var live := if isReady then Some(ready[row.liveDeployment.value]) else None;
    SiteState(row.id, row.slug, row.suspended,
              if live.Some? then Truthy(Some(live.value.storagePrefix)) else None,
              if live.Some? then Truthy(live.value.backendUrl) else None, row.plan, row.domains)
  }

  /** The deployment a project's row points at, if it is ready. */
  function LiveOf(row: Row, ready: map<string, Deployment>): Option<Deployment> {
    if row.liveDeployment.Some? && row.liveDeployment.value != "" && row.liveDeployment.value in ready
    then Some(ready[row.liveDeployment.value]) else None
  }

  /** Domain `k` is the first primary one. */
  predicate FirstPrimary(domains: seq<Domain>, k: nat) {
    k < |domains| && domains[k].isPrimary && forall j :: 0 <= j < k ==> !domains[j].isPrimary
  }

  lemma {:induction false} PrimaryIsThatOne(domains: seq<Domain>)
    ensures Primary(domains).Some? ==>
      exists k: nat :: FirstPrimary(domains, k) && Primary(domains) == Some(domains[k])
  {
    if domains != [] {
      PrimaryIsThatOne(domains[1..]);
      if domains[0].isPrimary {
        assert FirstPrimary(domains, 0);
      } else if Primary(domains).Some? {
        var k: nat :| FirstPrimary(domains[1..], k) && Primary(domains[1..]) == Some(domains[1..][k]);
        assert FirstPrimary(domains, k + 1);
      }
    }
  }

  /** Where a project is to be found: at its default address, then at each of its own domains. */
  lemma AddressesAreAll(row: Row, ready: map<string, Deployment>, domain: string)
    ensures var all := RecordsFor(StateOf(row, ready), domain);
      if row.slug.None? || row.slug.value == "" then all == []
      else
        && |all| == 1 + |row.domains|
        && all[0].key == "host:" + row.slug.value + "." + domain
        && forall i :: 0 <= i < |row.domains| ==> all[i + 1].key == "host:" + row.domains[i].hostname
  {
  }

  /**
   * What the edge is told of a project, from its row and the ready deployments: a
   * record at all, if and only if it is suspended or its live deployment has files;
   * and then every field of it.
   */
  lemma RecordsAreRight(row: Row, ready: map<string, Deployment>, domain: string, i: nat)
    requires i < |RecordsFor(StateOf(row, ready), domain)|
    ensures var record, live := RecordsFor(StateOf(row, ready), domain)[i].record, LiveOf(row, ready);
      && (record.Some? <==> row.suspended || (live.Some? && live.value.storagePrefix != ""))
      && (record.Some? ==>
            var r := record.value;
            && r.projectId == row.id && row.slug == Some(r.slug) && r.suspended == row.suspended
            && r.prefix == (if live.Some? then live.value.storagePrefix else "")
            && (r.showBadge <==> row.plan != Some(Pro))
            && r.api == (if live.Some? && live.value.backendUrl != Some("") then live.value.backendUrl else None)
            && (r.redirectTo.None? <==> i > 0 || row.suspended || forall d :: d in row.domains ==> !d.isPrimary)
            && (r.redirectTo.Some? ==> exists k: nat ::
                  FirstPrimary(row.domains, k) && r.redirectTo == Some("https://" + row.domains[k].hostname)))
  {
    PrimaryIsFirst(row.domains);
    PrimaryIsThatOne(row.domains);
  }

  /** What the reconciler's query asks for. */
  predicate Selected(row: Row) {
    row.slug.Some? && (row.liveDeployment.Some? || row.suspended)
  }

  lemma FilterDropsNoRecord(row: Row, ready: map<string, Deployment>)
    ensures RecordFor(StateOf(row, ready)).Some? ==> Selected(row)
  {
  }

  /** It selects no more than it must: each such project has a record with some ready deployment, empty names apart. */
  lemma QueryIsTight(row: Row)
    ensures (exists ready: map<string, Deployment> :: RecordFor(StateOf(row, ready)).Some?)
        <==> Selected(row) && row.slug != Some("") && (row.suspended || row.liveDeployment != Some(""))
  {
    if Selected(row) && row.slug != Some("") && (row.suspended || row.liveDeployment != Some("")) {
      var live := if row.liveDeployment.Some? then row.liveDeployment.value else "";
      var ready := map[live := Deployment("p", None)];
      assert RecordFor(StateOf(row, ready)).Some?;
    }
  }

  // ---- The store ----

  /** How a record is written and hashed; equal hashes mean equal records. */
  datatype Codec = Codec(json: Record -> string, hash: Record -> string)

  ghost predicate Injective(codec: Codec) {
    forall r, s :: codec.hash(r) == codec.hash(s) ==> r == s
  }

  datatype Entry = Entry(value: string, hash: Option<string>)

  type Kv = map<string, Entry>

  function Encode(codec: Codec, r: Record): Entry {
    Entry(codec.json(r), Some(codec.hash(r)))
  }

  predicate IsHost(key: string) {
    KEY_PREFIX <= key
  }

  /** What is stored with a hash is a record with its own hash; an entry without one may hold anything. */
  ghost predicate Hashed(e: Entry, codec: Codec) {
    e.hash.Some? ==> exists r :: e == Encode(codec, r)
  }

  ghost predicate Consistent(kv: Kv, codec: Codec) {
    forall key :: key in kv && IsHost(key) ==> Hashed(kv[key], codec)
  }

  datatype Put = Put(key: string, record: Record)

  function PutAll(kv: Kv, codec: Codec, puts: seq<Put>): Kv {
    if puts == [] then kv
    else PutAll(kv, codec, puts[..|puts| - 1])[puts[|puts| - 1].key := Encode(codec, puts[|puts| - 1].record)]
  }

  function Keys(keys: seq<string>): set<string> {
    set k | k in keys
  }

  function RemoveAll(kv: Kv, keys: seq<string>): Kv {
    kv - Keys(keys)
  }

  // ---- What the database wants at the edge ----

  function AddRecords(wanted: map<string, Record>, all: seq<Keyed>): map<string, Record> {
    if all == [] then wanted
    else
      var before, last := AddRecords(wanted, all[..|all| - 1]), all[|all| - 1];
      if last.record.Some? then before[last.key := last.record.value] else before
  }

  /** The records of every site in turn; a later one takes a key that is already there. */
  function Wanted(sites: seq<SiteState>, domain: string): map<string, Record> {
    if sites == [] then map[]
    else AddRecords(Wanted(sites[..|sites| - 1], domain), RecordsFor(sites[|sites| - 1], domain))
  }

  function States(rows: seq<Row>, ready: map<string, Deployment>): seq<SiteState> {
    seq(|rows|, i requires 0 <= i < |rows| => StateOf(rows[i], ready))
  }

  function Query(rows: seq<Row>): seq<Row> {
    if rows == [] then []
    else
      var before, last := Query(rows[..|rows| - 1]), rows[|rows| - 1];
      if Selected(last) then before + [last] else before
  }

  lemma {:induction false} NoRecordsAddNothing(wanted: map<string, Record>, all: seq<Keyed>)
    requires forall i :: 0 <= i < |all| ==> all[i].record.None?
    ensures AddRecords(wanted, all) == wanted
  {
    if all != [] {
      NoRecordsAddNothing(wanted, all[..|all| - 1]);
    }
  }

  lemma WantedMore(rows: seq<Row>, row: Row, ready: map<string, Deployment>, domain: string)
    ensures Wanted(States(rows + [row], ready), domain)
         == AddRecords(Wanted(States(rows, ready), domain), RecordsFor(StateOf(row, ready), domain))
  {
    var sites := States(rows + [row], ready);
    assert sites[..|sites| - 1] == States(rows, ready);
  }

  lemma UnselectedAddsNothing(wanted: map<string, Record>, row: Row, ready: map<string, Deployment>, domain: string)
    requires !Selected(row)
    ensures AddRecords(wanted, RecordsFor(StateOf(row, ready), domain)) == wanted
  {
    FilterDropsNoRecord(row, ready);
    RecordsAgree(StateOf(row, ready), domain);
    NoRecordsAddNothing(wanted, RecordsFor(StateOf(row, ready), domain));
  }

  lemma QueryMore(before: seq<Row>, row: Row, ready: map<string, Deployment>, domain: string)
    requires Wanted(States(Query(before), ready), domain) == Wanted(States(before, ready), domain)
    ensures Wanted(States(Query(before + [row]), ready), domain) == Wanted(States(before + [row], ready), domain)
  {
    assert (before + [row])[..|before|] == before;
    WantedMore(before, row, ready, domain);
    if Selected(row) {
      WantedMore(Query(before), row, ready, domain);
    } else {
      UnselectedAddsNothing(Wanted(States(before, ready), domain), row, ready, domain);
    }
  }

  /** The query loses nothing: what it wants is what all rows together want. */
  lemma {:induction false} QueryIsEnough(rows: seq<Row>, ready: map<string, Deployment>, domain: string)
    ensures Wanted(States(Query(rows), ready), domain) == Wanted(States(rows, ready), domain)
  {
    if rows == [] {
      assert Query(rows) == [];
    } else {
      var before, last := rows[..|rows| - 1], rows[|rows| - 1];
      assert rows == before + [last];
      QueryIsEnough(before, ready, domain);
      QueryMore(before, last, ready, domain);
    }
  }

  /** Some project has this record for this key. */
  ghost predicate Served(sites: seq<SiteState>, domain: string, key: string, r: Record) {
    exists site :: site in sites && Keyed(key, Some(r)) in RecordsFor(site, domain)
  }

  /** No two projects, and no two addresses of a project, share a hostname. */
  ghost predicate OneOwner(sites: seq<SiteState>, domain: string) {
    forall key, r, s :: Served(sites, domain, key, r) && Served(sites, domain, key, s) ==> r == s
  }

  lemma {:induction false} AddedRecords(wanted: map<string, Record>, all: seq<Keyed>)
    ensures forall k :: k in AddRecords(wanted, all) ==>
      Keyed(k, Some(AddRecords(wanted, all)[k])) in all || (k in wanted && wanted[k] == AddRecords(wanted, all)[k])
    ensures forall k :: k in wanted ==> k in AddRecords(wanted, all)
    ensures forall x :: x in all && x.record.Some? ==> x.key in AddRecords(wanted, all)
  {
    if all != [] {
      AddedRecords(wanted, all[..|all| - 1]);
      assert all == all[..|all| - 1] + [all[|all| - 1]];
    }
  }

  lemma ServedMore(before: seq<SiteState>, last: SiteState, domain: string, key: string, r: Record)
    ensures Served(before + [last], domain, key, r)
        <==> Served(before, domain, key, r) || Keyed(key, Some(r)) in RecordsFor(last, domain)
  {
    var sites := before + [last];
    if Served(before, domain, key, r) {
      var site :| site in before && Keyed(key, Some(r)) in RecordsFor(site, domain);
      assert site in sites;
    }
    if Keyed(key, Some(r)) in RecordsFor(last, domain) {
      assert last in sites;
    }
  }

  lemma {:induction false} WantedIsServed(sites: seq<SiteState>, domain: string, key: string)
    ensures key in Wanted(sites, domain) ==> Served(sites, domain, key, Wanted(sites, domain)[key])
    ensures forall r :: Served(sites, domain, key, r) ==> key in Wanted(sites, domain)
  {
    if sites != [] {
      var before, last := sites[..|sites| - 1], sites[|sites| - 1];
      WantedIsServed(before, domain, key);
      AddedRecords(Wanted(before, domain), RecordsFor(last, domain));
      assert sites == before + [last];
      forall r ensures Served(sites, domain, key, r)
                   <==> Served(before, domain, key, r) || Keyed(key, Some(r)) in RecordsFor(last, domain)
      {
        ServedMore(before, last, domain, key, r);
      }
    }
  }

  /** With every hostname owned once, the wanted map is exactly the records of all projects. */
  lemma {:induction false} WantedIsExact(sites: seq<SiteState>, domain: string, key: string, r: Record)
    requires OneOwner(sites, domain)
    ensures (key in Wanted(sites, domain) && Wanted(sites, domain)[key] == r) <==> Served(sites, domain, key, r)
  {
    WantedIsServed(sites, domain, key);
  }

  lemma {:induction false} LastRecordStays(wanted: map<string, Record>, all: seq<Keyed>, key: string)
    ensures var after := AddRecords(wanted, all);
      if exists r :: Keyed(key, Some(r)) in all then key in after && Keyed(key, Some(after[key])) in all
      else (key in after <==> key in wanted) && (key in wanted ==> after[key] == wanted[key])
  {
    if all != [] {
      LastRecordStays(wanted, all[..|all| - 1], key);
      assert all == all[..|all| - 1] + [all[|all| - 1]];
    }
  }

  /** Where two projects claim an address, the later one in the list has it; one that serves nothing there does not. */
  lemma LastOwnerWins(sites: seq<SiteState>, site: SiteState, domain: string, key: string)
    ensures var now, before, all := Wanted(sites + [site], domain), Wanted(sites, domain), RecordsFor(site, domain);
      if exists r :: Keyed(key, Some(r)) in all then key in now && Keyed(key, Some(now[key])) in all
      else (key in now <==> key in before) && (key in before ==> now[key] == before[key])
  {
    assert (sites + [site])[..|sites|] == sites;
    LastRecordStays(Wanted(sites, domain), RecordsFor(site, domain), key);
  }

  lemma {:induction false} WantedKeysAreHosts(sites: seq<SiteState>, domain: string)
    ensures forall key :: key in Wanted(sites, domain) ==> IsHost(key)
  {
    forall key | key in Wanted(sites, domain) ensures IsHost(key) {
      WantedIsServed(sites, domain, key);
      assert Served(sites, domain, key, Wanted(sites, domain)[key]);
      var site :| site in sites && Keyed(key, Some(Wanted(sites, domain)[key])) in RecordsFor(site, domain);
      RecordsAgree(site, domain);
    }
  }

  // ---- Reconciling ----

  function HashAt(kv: Kv, key: string): Option<string> {
    if key in kv then kv[key].hash else None
  }

  function NeedsWrite(kv: Kv, wanted: map<string, Record>, codec: Codec): set<string> {
    set k | k in wanted && HashAt(kv, k) != Some(codec.hash(wanted[k]))
  }

  function NeedsRemoval(kv: Kv, wanted: map<string, Record>): set<string> {
    set k | k in kv && IsHost(k) && k !in wanted
  }

  /** The store once some of the wanted keys have been written and then some keys removed. */
  function Repaired(kv: Kv, wanted: map<string, Record>, codec: Codec, written: set<string>, removed: set<string>): Kv
    requires written <= wanted.Keys
  {
    (map k | k in kv.Keys + written :: if k in written then Encode(codec, wanted[k]) else kv[k]) - removed
  }

  function Reconciled(kv: Kv, wanted: map<string, Record>, codec: Codec): Kv {
    Repaired(kv, wanted, codec, NeedsWrite(kv, wanted, codec), NeedsRemoval(kv, wanted))
  }

  /** The host part of a store is exactly what is wanted. */
  ghost predicate Current(kv: Kv, wanted: map<string, Record>, codec: Codec) {
    forall key :: "host:" <= key ==>
      (key in kv <==> key in wanted) && (key in wanted ==> kv[key] == Encode(codec, wanted[key]))
  }

  lemma Converges(kv: Kv, wanted: map<string, Record>, codec: Codec)
    requires Consistent(kv, codec) && Injective(codec)
    requires forall key :: key in wanted ==> IsHost(key)
    ensures forall key :: key in wanted ==>
      (key in NeedsWrite(kv, wanted, codec) <==> !(key in kv && kv[key] == Encode(codec, wanted[key])))
    ensures var after := Reconciled(kv, wanted, codec);
      && Current(after, wanted, codec)
      && NeedsWrite(after, wanted, codec) == {} && NeedsRemoval(after, wanted) == {}
      && forall key :: !("host:" <= key) ==>
           (key in after <==> key in kv) && (key in kv ==> after[key] == kv[key])
  {
    var after := Reconciled(kv, wanted, codec);
    forall key | key in wanted
      ensures key in NeedsWrite(kv, wanted, codec) <==> !(key in kv && kv[key] == Encode(codec, wanted[key]))
    {
      if key in kv && HashAt(kv, key) == Some(codec.hash(wanted[key])) {
        assert Hashed(kv[key], codec);
        var r :| kv[key] == Encode(codec, r);
        assert r == wanted[key];
      }
    }
    assert Current(after, wanted, codec);
    forall key | key in wanted ensures key !in NeedsWrite(after, wanted, codec) {
      assert IsHost(key);
    }
  }

  // ---- Histories ----

  /** What a push of these sites writes, and what it removes. */
  function SyncPuts(sites: seq<SiteState>, domain: string): seq<Put> {
    if sites == [] then []
    else SyncPuts(sites[..|sites| - 1], domain) + PutsOf(RecordsFor(sites[|sites| - 1], domain))
  }

  function PutsOf(all: seq<Keyed>): seq<Put> {
    if all == [] then []
    else
      var before, last := PutsOf(all[..|all| - 1]), all[|all| - 1];
      if last.record.Some? then before + [Put(last.key, last.record.value)] else before
  }

  function SyncRemoves(sites: seq<SiteState>, domain: string): seq<string> {
    if sites == [] then []
    else SyncRemoves(sites[..|sites| - 1], domain) + RemovesOf(RecordsFor(sites[|sites| - 1], domain))
  }

  function RemovesOf(all: seq<Keyed>): seq<string> {
    if all == [] then []
    else
      var before, last := RemovesOf(all[..|all| - 1]), all[|all| - 1];
      if last.record.None? then before + [last.key] else before
  }

  /**
   * A push works from what it read, which may be out of date when it writes, and
   * stops after some of its writes or removals; so does a reconciliation.
   */
  datatype Event =
    | Change(db: Database)
    | Sync(sites: seq<SiteState>, puts: nat, removes: nat)
    | RemoveHosts(keys: seq<string>)
    | Reconcile(sites: seq<SiteState>, written: set<string>, removed: set<string>)

  datatype World = World(db: Database, kv: Kv)

  function Prefix<T>(s: seq<T>, n: nat): seq<T> {
    if n <= |s| then s[..n] else s
  }

  function Step(w: World, e: Event, domain: string, codec: Codec): World {
    match e
    case Change(db) => w.(db := db)
    case Sync(sites, puts, removes) =>
      var kv := PutAll(w.kv, codec, Prefix(SyncPuts(sites, domain), puts));
      w.(kv := RemoveAll(kv, Prefix(SyncRemoves(sites, domain), removes)))
    case RemoveHosts(keys) => w.(kv := w.kv - (set k | k in keys && IsHost(k)))
    case Reconcile(sites, written, removed) =>
      var wanted := Wanted(sites, domain);
      w.(kv := Repaired(w.kv, wanted, codec, written * wanted.Keys, removed * NeedsRemoval(w.kv, wanted)))
  }

  function Run(w: World, events: seq<Event>, domain: string, codec: Codec): World {
    if events == [] then w else Step(Run(w, events[..|events| - 1], domain, codec), events[|events| - 1], domain, codec)
  }

  /** The part of a store that is not ours. */
  function Foreign(kv: Kv): Kv {
    map k | k in kv && !("host:" <= k) :: kv[k]
  }

  lemma {:induction false} PutsKeepConsistent(kv: Kv, codec: Codec, puts: seq<Put>)
    requires Consistent(kv, codec) && forall i :: 0 <= i < |puts| ==> IsHost(puts[i].key)
    ensures Consistent(PutAll(kv, codec, puts), codec) && Foreign(PutAll(kv, codec, puts)) == Foreign(kv)
  {
    if puts != [] {
      var last := puts[|puts| - 1];
      PutsKeepConsistent(kv, codec, puts[..|puts| - 1]);
      assert Encode(codec, last.record) == Encode(codec, last.record);
    }
  }

  lemma {:induction false} PutsOfAreHosts(all: seq<Keyed>)
    requires forall i :: 0 <= i < |all| ==> IsHost(all[i].key)
    ensures forall i :: 0 <= i < |PutsOf(all)| ==> IsHost(PutsOf(all)[i].key)
    ensures forall i :: 0 <= i < |RemovesOf(all)| ==> IsHost(RemovesOf(all)[i])
  {
    if all != [] {
      PutsOfAreHosts(all[..|all| - 1]);
    }
  }

  lemma {:induction false} SyncTouchesHosts(sites: seq<SiteState>, domain: string)
    ensures forall i :: 0 <= i < |SyncPuts(sites, domain)| ==> IsHost(SyncPuts(sites, domain)[i].key)
    ensures forall i :: 0 <= i < |SyncRemoves(sites, domain)| ==> IsHost(SyncRemoves(sites, domain)[i])
  {
    if sites != [] {
      SyncTouchesHosts(sites[..|sites| - 1], domain);
      RecordsAgree(sites[|sites| - 1], domain);
      PutsOfAreHosts(RecordsFor(sites[|sites| - 1], domain));
    }
  }

  lemma RepairKeepsConsistent(kv: Kv, wanted: map<string, Record>, codec: Codec, written: set<string>,
                              removed: set<string>)
    requires Consistent(kv, codec) && written <= wanted.Keys
    requires (forall k :: k in wanted ==> IsHost(k)) && forall k :: k in removed ==> IsHost(k)
    ensures var after := Repaired(kv, wanted, codec, written, removed);
      Consistent(after, codec) && Foreign(after) == Foreign(kv)
  {
    var after := Repaired(kv, wanted, codec, written, removed);
    forall key | key in after && IsHost(key) ensures Hashed(after[key], codec) {
      if key in written {
        assert after[key] == Encode(codec, wanted[key]);
      } else {
        assert after[key] == kv[key];
      }
    }
  }

  lemma RemovalKeepsConsistent(kv: Kv, codec: Codec, gone: set<string>)
    requires Consistent(kv, codec) && forall k :: k in gone ==> IsHost(k)
    ensures Consistent(kv - gone, codec) && Foreign(kv - gone) == Foreign(kv)
  {
    forall key | key in kv - gone && IsHost(key) ensures Hashed((kv - gone)[key], codec) {
      assert (kv - gone)[key] == kv[key];
    }
  }

  lemma StepKeepsConsistent(w: World, e: Event, domain: string, codec: Codec)
    requires Consistent(w.kv, codec)
    ensures Consistent(Step(w, e, domain, codec).kv, codec) && Foreign(Step(w, e, domain, codec).kv) == Foreign(w.kv)
  {
    match e
    case Change(_) =>
    case Sync(sites, puts, removes) =>
      SyncTouchesHosts(sites, domain);
      var written, gone := Prefix(SyncPuts(sites, domain), puts), Prefix(SyncRemoves(sites, domain), removes);
      PutsKeepConsistent(w.kv, codec, written);
      RemovalKeepsConsistent(PutAll(w.kv, codec, written), codec, Keys(gone));
    case RemoveHosts(keys) => RemovalKeepsConsistent(w.kv, codec, set k | k in keys && IsHost(k));
    case Reconcile(sites, written, removed) =>
      WantedKeysAreHosts(sites, domain);
      var wanted := Wanted(sites, domain);
      RepairKeepsConsistent(w.kv, wanted, codec, written * wanted.Keys, removed * NeedsRemoval(w.kv, wanted));
  }

  lemma {:induction false} EveryHistoryIsConsistent(w: World, events: seq<Event>, domain: string, codec: Codec)
    requires Consistent(w.kv, codec)
    ensures var after := Run(w, events, domain, codec);
      Consistent(after.kv, codec) && Foreign(after.kv) == Foreign(w.kv)
  {
    if events != [] {
      var before := events[..|events| - 1];
      EveryHistoryIsConsistent(w, before, domain, codec);
      StepKeepsConsistent(Run(w, before, domain, codec), events[|events| - 1], domain, codec);
    }
  }

  // ---- Main results ----

  lemma RunMore(w: World, events: seq<Event>, e: Event, domain: string, codec: Codec)
    ensures Run(w, events + [e], domain, codec) == Step(Run(w, events, domain, codec), e, domain, codec)
  {
    assert (events + [e])[..|events|] == events;
  }

  /** A change of the database leaves the store, and giving up hostnames takes just those out of the host keys. */
  lemma ChangesTakeEffect(w: World, events: seq<Event>, db: Database, keys: seq<string>, domain: string, codec: Codec)
    ensures var now := Run(w, events, domain, codec);
      && Run(w, events + [Change(db)], domain, codec) == World(db, now.kv)
      && Run(w, events + [RemoveHosts(keys)], domain, codec)
         == World(now.db, map k | k in now.kv && !(k in keys && "host:" <= k) :: now.kv[k])
  {
    RunMore(w, events, Change(db), domain, codec);
    RunMore(w, events, RemoveHosts(keys), domain, codec);
    var kv := Run(w, events, domain, codec).kv;
    assert kv - (set k | k in keys && IsHost(k)) == map k | k in kv && !(k in keys && "host:" <= k) :: kv[k];
  }

  /** A push that stops after so many writes and removals has made just those, in order. */
  lemma PushesTakeEffect(w: World, events: seq<Event>, sites: seq<SiteState>, n: nat, m: nat, domain: string,
                         codec: Codec)
    requires n <= |SyncPuts(sites, domain)| && m <= |SyncRemoves(sites, domain)|
    ensures var now := Run(w, events, domain, codec);
      Run(w, events + [Sync(sites, n, m)], domain, codec)
      == World(now.db, RemoveAll(PutAll(now.kv, codec, SyncPuts(sites, domain)[..n]),
                                 SyncRemoves(sites, domain)[..m]))
  {
    RunMore(w, events, Sync(sites, n, m), domain, codec);
  }

  /** A reconciliation that nothing stops, from what it read. */
  function FullReconcile(now: World, domain: string, codec: Codec): Event {
    var sites := States(Query(now.db.rows), now.db.ready);
    var wanted := Wanted(sites, domain);
    Reconcile(sites, NeedsWrite(now.kv, wanted, codec), NeedsRemoval(now.kv, wanted))
  }

  /**
   * After any history of database changes, pushes and reconciliations cut off
   * anywhere, one undisturbed reconciliation makes the host keys exactly the
   * records of all projects, writes just the keys that differ, leaves every other
   * key alone, and has nothing left to do when run again.
   */
  lemma {:induction false} ReconciliationConverges(w: World, events: seq<Event>, domain: string, codec: Codec)
    requires Consistent(w.kv, codec) && Injective(codec)
    ensures var now := Run(w, events, domain, codec);
      var wanted := Wanted(States(Query(now.db.rows), now.db.ready), domain);
      var after := Reconciled(now.kv, wanted, codec);
      && wanted == Wanted(States(now.db.rows, now.db.ready), domain)
      && Run(w, events + [FullReconcile(now, domain, codec)], domain, codec) == World(now.db, after)
      && Current(after, wanted, codec) && Foreign(after) == Foreign(w.kv)
      && NeedsWrite(after, wanted, codec) == {} && NeedsRemoval(after, wanted) == {}
      && forall key :: key in wanted ==>
           (key in NeedsWrite(now.kv, wanted, codec) <==> !(key in now.kv && now.kv[key] == Encode(codec, wanted[key])))
  {
    EveryHistoryIsConsistent(w, events, domain, codec);
    var now := Run(w, events, domain, codec);
    QueryIsEnough(now.db.rows, now.db.ready, domain);
    var wanted := Wanted(States(Query(now.db.rows), now.db.ready), domain);
    WantedKeysAreHosts(States(Query(now.db.rows), now.db.ready), domain);
    Converges(now.kv, wanted, codec);
    RunMore(w, events, FullReconcile(now, domain, codec), domain, codec);
    assert NeedsWrite(now.kv, wanted, codec) * wanted.Keys == NeedsWrite(now.kv, wanted, codec);
    assert NeedsRemoval(now.kv, wanted) * NeedsRemoval(now.kv, wanted) == NeedsRemoval(now.kv, wanted);
    RepairKeepsConsistent(now.kv, wanted, codec, NeedsWrite(now.kv, wanted, codec), NeedsRemoval(now.kv, wanted));
  }

  /** Some project has this address and serves nothing there. */
  ghost predicate Unserved(sites: seq<SiteState>, domain: string, key: string) {
    exists site :: site in sites && Keyed(key, None) in RecordsFor(site, domain)
  }

  lemma {:induction false} PutsAreRecords(all: seq<Keyed>)
    ensures forall p :: p in PutsOf(all) <==> Keyed(p.key, Some(p.record)) in all
    ensures forall k :: k in RemovesOf(all) <==> Keyed(k, None) in all
  {
    if all != [] {
      PutsAreRecords(all[..|all| - 1]);
      assert all == all[..|all| - 1] + [all[|all| - 1]];
    }
  }

  lemma UnservedMore(before: seq<SiteState>, last: SiteState, domain: string, key: string)
    ensures Unserved(before + [last], domain, key)
        <==> Unserved(before, domain, key) || Keyed(key, None) in RecordsFor(last, domain)
  {
    var sites := before + [last];
    if Unserved(before, domain, key) {
      var site :| site in before && Keyed(key, None) in RecordsFor(site, domain);
      assert site in sites;
    }
    if Keyed(key, None) in RecordsFor(last, domain) {
      assert last in sites;
    }
  }

  /** A push writes exactly the records of its projects and removes exactly the addresses that serve nothing. */
  lemma {:induction false} SyncIsComplete(sites: seq<SiteState>, domain: string)
    ensures forall p :: p in SyncPuts(sites, domain) <==> Served(sites, domain, p.key, p.record)
    ensures forall k :: k in SyncRemoves(sites, domain) <==> Unserved(sites, domain, k)
  {
    if sites != [] {
      var before, last := sites[..|sites| - 1], sites[|sites| - 1];
      SyncIsComplete(before, domain);
      PutsAreRecords(RecordsFor(last, domain));
      assert sites == before + [last];
      forall key, r { ServedMore(before, last, domain, key, r); }
      forall key { UnservedMore(before, last, domain, key); }
    }
  }

  lemma {:induction false} PutAllAt(kv: Kv, codec: Codec, puts: seq<Put>, key: string, r: Record)
    requires forall p :: p in puts && p.key == key ==> p.record == r
    ensures var after := PutAll(kv, codec, puts);
      if Put(key, r) in puts then key in after && after[key] == Encode(codec, r)
      else (key in after <==> key in kv) && (key in kv ==> after[key] == kv[key])
  {
    if puts != [] {
      var before, last := puts[..|puts| - 1], puts[|puts| - 1];
      assert puts == before + [last];
      PutAllAt(kv, codec, before, key, r);
      assert last.key == key ==> last == Put(key, r);
    }
  }

  /**
   * A push of some projects that goes through leaves each of their addresses as the
   * database has it, where no address has two owners, and every other key alone.
   */
  lemma {:induction false} PushMakesCurrent(kv: Kv, sites: seq<SiteState>, domain: string, codec: Codec, key: string)
    requires OneOwner(sites, domain)
    requires forall r :: Served(sites, domain, key, r) ==> !Unserved(sites, domain, key)
    ensures var after := RemoveAll(PutAll(kv, codec, SyncPuts(sites, domain)), SyncRemoves(sites, domain));
      && (forall r :: Served(sites, domain, key, r) ==> key in after && after[key] == Encode(codec, r))
      && (Unserved(sites, domain, key) ==> key !in after)
      && ((forall r :: !Served(sites, domain, key, r)) && !Unserved(sites, domain, key) ==>
            (key in after <==> key in kv) && (key in kv ==> after[key] == kv[key]))
  {
    SyncIsComplete(sites, domain);
    var puts := SyncPuts(sites, domain);
    if r :| Served(sites, domain, key, r) {
      assert Put(key, r) in puts;
      PutAllAt(kv, codec, puts, key, r);
    } else if !Unserved(sites, domain, key) {
      forall p | p in puts ensures p.key != key {
        assert Served(sites, domain, p.key, p.record);
      }
      PutAllAt(kv, codec, puts, key, Record("", "", "", false, false, None, None));
    }
  }
}
