/**
 * The registry at work (server/src/lib/edgeRegistry.ts): the store's client with
 * its batched writes, any of which may fail, and the push and the reconciliation
 * built on it.
 */
module EdgeSync {
  import opened Common
  import opened EdgeRegistry

  const BATCH: nat := 1000

  /** Batches are all a client writes before the service fails. */
  class CloudflareKv {
    var store: Kv
    var lives: nat
    const codec: Codec

    constructor (store: Kv, lives: nat, codec: Codec)
      ensures this.store == store && this.lives == lives && this.codec == codec
    {
      this.store, this.lives, this.codec := store, lives, codec;
    }

    method PutBatch(puts: seq<Put>) returns (ok: bool)
      modifies this
      ensures ok == (old(lives) > 0) && lives == old(lives) - (if ok then 1 else 0)
      ensures store == if ok then PutAll(old(store), codec, puts) else old(store)
    {
      if lives == 0 {
        return false;
      }
      lives := lives - 1;
      var i := 0;
      while i < |puts|
        invariant 0 <= i <= |puts| && store == PutAll(old(store), codec, puts[..i]) && lives == old(lives) - 1
      {
        assert puts[..i + 1][..i] == puts[..i];
        store := store[puts[i].key := Encode(codec, puts[i].record)];
        i := i + 1;
      }
      assert puts[..i] == puts;
      return true;
    }

    /** Writes in order, a thousand at a time; `n` of them are written. */
    method PutMany(puts: seq<Put>) returns (ok: bool, ghost n: nat)
      modifies this
      ensures n <= |puts| && store == PutAll(old(store), codec, puts[..n])
      ensures ok ==> n == |puts|
      ensures !ok ==> lives == 0 && n == 1000 * old(lives) < |puts|
    {
      n := 0;
      var i := 0;
      while i < |puts|
        invariant 0 <= i && n == Min(i, |puts|) && lives <= old(lives) && i == BATCH * (old(lives) - lives)
        invariant store == PutAll(old(store), codec, puts[..n])
      {
        var end := Min(i + BATCH, |puts|);
        PutAllInTwo(old(store), codec, puts[..i], puts[i..end]);
        assert puts[..end] == puts[..i] + puts[i..end];
        var sent := PutBatch(puts[i..end]);
        if !sent {
          return false, n;
        }
        i := i + BATCH;
        n := end;
      }
      return true, n;
    }

    method RemoveBatch(keys: seq<string>) returns (ok: bool)
      modifies this
      ensures ok == (old(lives) > 0) && lives == old(lives) - (if ok then 1 else 0)
      ensures store == if ok then RemoveAll(old(store), keys) else old(store)
    {
      if lives == 0 {
        return false;
      }
      lives := lives - 1;
      store := store - (set k | k in keys);
      return true;
    }

    method RemoveMany(keys: seq<string>) returns (ok: bool, ghost n: nat)
      modifies this
      ensures n <= |keys| && store == RemoveAll(old(store), keys[..n])
      ensures ok ==> n == |keys|
      ensures !ok ==> lives == 0 && n == 1000 * old(lives) < |keys|
    {
      n := 0;
      var i := 0;
      assert RemoveAll(store, keys[..0]) == store;
      while i < |keys|
        invariant 0 <= i && n == Min(i, |keys|) && lives <= old(lives) && i == BATCH * (old(lives) - lives)
        invariant store == RemoveAll(old(store), keys[..n])
      {
        var end := Min(i + BATCH, |keys|);
        assert keys[..end] == keys[..i] + keys[i..end];
        RemoveAllInTwo(old(store), keys[..i], keys[i..end]);
        var sent := RemoveBatch(keys[i..end]);
        if !sent {
          return false, n;
        }
        i := i + BATCH;
        n := end;
      }
      return true, n;
    }

    /** The hash of every host key. */
    method List() returns (present: map<string, Option<string>>)
      ensures present == map k | k in store && IsHost(k) :: store[k].hash
    {
      present := map k | k in store && IsHost(k) :: store[k].hash;
    }
  }

  lemma {:induction false} PutAllInTwo(kv: Kv, codec: Codec, first: seq<Put>, second: seq<Put>)
    ensures PutAll(kv, codec, first + second) == PutAll(PutAll(kv, codec, first), codec, second)
  {
    if second == [] {
      assert first + [] == first;
    } else {
      var all := first + second;
      assert all[..|all| - 1] == first + second[..|second| - 1];
      PutAllInTwo(kv, codec, first, second[..|second| - 1]);
    }
  }

  lemma RemoveAllInTwo(kv: Kv, first: seq<string>, second: seq<string>)
    ensures RemoveAll(kv, first + second) == RemoveAll(RemoveAll(kv, first), second)
  {
    assert Keys(first + second) == Keys(first) + Keys(second);
  }

  /** Every address of a site in turn. */
  method ListRecords(site: SiteState, domain: string) returns (out: seq<Keyed>)
    ensures out == RecordsFor(site, domain)
  {
    if Truthy(site.slug).None? {
      return [];
    }
    out := [Keyed(RecordKey(site.slug.value, domain), DefaultRecord(site))];
    var i := 0;
    while i < |site.domains|
      invariant 0 <= i <= |site.domains| && |out| == i + 1
      invariant out[0] == Keyed(RecordKey(site.slug.value, domain), DefaultRecord(site))
      invariant forall j :: 0 <= j < i ==> out[j + 1] == Keyed(KEY_PREFIX + site.domains[j].hostname, RecordFor(site))
    {
      out := out + [Keyed(KEY_PREFIX + site.domains[i].hostname, RecordFor(site))];
      i := i + 1;
    }
  }

  method SplitRecords(all: seq<Keyed>) returns (puts: seq<Put>, removes: seq<string>)
    ensures puts == PutsOf(all) && removes == RemovesOf(all)
  {
    puts, removes := [], [];
    var i := 0;
    while i < |all|
      invariant 0 <= i <= |all| && puts == PutsOf(all[..i]) && removes == RemovesOf(all[..i])
    {
      assert all[..i + 1][..i] == all[..i];
      if all[i].record.Some? {
        puts := puts + [Put(all[i].key, all[i].record.value)];
      } else {
        removes := removes + [all[i].key];
      }
      i := i + 1;
    }
    assert all[..i] == all;
  }

  method CollectChanges(sites: seq<SiteState>, domain: string) returns (puts: seq<Put>, removes: seq<string>)
    ensures puts == SyncPuts(sites, domain) && removes == SyncRemoves(sites, domain)
  {
    puts, removes := [], [];
    var i := 0;
    while i < |sites|
      invariant 0 <= i <= |sites|
      invariant puts == SyncPuts(sites[..i], domain) && removes == SyncRemoves(sites[..i], domain)
    {
      assert sites[..i + 1][..i] == sites[..i];
      var all := ListRecords(sites[i], domain);
      var somePuts, someRemoves := SplitRecords(all);
      puts, removes := puts + somePuts, removes + someRemoves;
      i := i + 1;
    }
    assert sites[..i] == sites;
  }

  /**
   * Writes the records of these sites, then removes the addresses that serve
   * nothing: `n` of the one, `m` of the other.
   */
  method SyncRows(kv: CloudflareKv, sites: seq<SiteState>, domain: string)
    returns (ok: bool, ghost n: nat, ghost m: nat)
    modifies kv
    ensures n <= |SyncPuts(sites, domain)| && m <= |SyncRemoves(sites, domain)|
    ensures kv.store
      == RemoveAll(PutAll(old(kv.store), kv.codec, SyncPuts(sites, domain)[..n]), SyncRemoves(sites, domain)[..m])
    ensures m > 0 ==> n == |SyncPuts(sites, domain)|
    ensures ok ==> n == |SyncPuts(sites, domain)| && m == |SyncRemoves(sites, domain)|
  {
    var puts, removes := CollectChanges(sites, domain);
    ok, n := kv.PutMany(puts);
    m := 0;
    if !ok {
      assert RemoveAll(kv.store, removes[..0]) == kv.store;
      return;
    }
    ok, m := kv.RemoveMany(removes);
  }

  // ---- Reconciling ----

  method CollectWanted(sites: seq<SiteState>, domain: string) returns (wanted: map<string, Record>)
    ensures wanted == Wanted(sites, domain)
  {
    wanted := map[];
    var i := 0;
    while i < |sites|
      invariant 0 <= i <= |sites| && wanted == Wanted(sites[..i], domain)
    {
      assert sites[..i + 1][..i] == sites[..i];
      var all := ListRecords(sites[i], domain);
      wanted := AddAll(wanted, all);
      i := i + 1;
    }
    assert sites[..i] == sites;
  }

  method AddAll(before: map<string, Record>, all: seq<Keyed>) returns (wanted: map<string, Record>)
    ensures wanted == AddRecords(before, all)
  {
    wanted := before;
    var i := 0;
    while i < |all|
      invariant 0 <= i <= |all| && wanted == AddRecords(before, all[..i])
    {
      assert all[..i + 1][..i] == all[..i];
      if all[i].record.Some? {
        wanted := wanted[all[i].key := all[i].record.value];
      }
      i := i + 1;
    }
    assert all[..i] == all;
  }

  function PutKeys(puts: seq<Put>): set<string> {
    set i | 0 <= i < |puts| :: puts[i].key
  }

  ghost predicate PutsWanted(puts: seq<Put>, wanted: map<string, Record>) {
    forall i :: 0 <= i < |puts| ==> puts[i].key in wanted && puts[i].record == wanted[puts[i].key]
  }

  predicate Differs(wanted: map<string, Record>, present: map<string, Option<string>>, codec: Codec, key: string) {
    key in wanted && (if key in present then present[key] else None) != Some(codec.hash(wanted[key]))
  }

  /** The wanted records whose key is missing or hashed differently. */
  method Differences(wanted: map<string, Record>, present: map<string, Option<string>>, codec: Codec)
    returns (puts: seq<Put>)
    ensures PutsWanted(puts, wanted) && |puts| == |PutKeys(puts)|
    ensures forall k :: k in PutKeys(puts) <==> Differs(wanted, present, codec, k)
  {
    puts := [];
    var todo := wanted.Keys;
    while todo != {}
      invariant todo <= wanted.Keys && PutsWanted(puts, wanted) && |puts| == |PutKeys(puts)|
      invariant forall k :: k in PutKeys(puts) <==> Differs(wanted, present, codec, k) && k !in todo
      decreases |todo|
    {
      var key :| key in todo;
      todo := todo - {key};
      if (if key in present then present[key] else None) != Some(codec.hash(wanted[key])) {
        PutKeysMore(puts, Put(key, wanted[key]));
        puts := puts + [Put(key, wanted[key])];
      }
    }
  }

  lemma PutKeysMore(puts: seq<Put>, p: Put)
    ensures PutKeys(puts + [p]) == PutKeys(puts) + {p.key}
  {
    var more := puts + [p];
    forall k | k in PutKeys(puts) + {p.key} ensures k in PutKeys(more) {
      if k == p.key {
        assert more[|puts|].key == k;
      } else {
        var i :| 0 <= i < |puts| && puts[i].key == k;
        assert more[i].key == k;
      }
    }
  }

  lemma RepairOneMore(kv: Kv, wanted: map<string, Record>, codec: Codec, written: set<string>, key: string)
    requires written <= wanted.Keys && key in wanted
    ensures Repaired(kv, wanted, codec, written + {key}, {})
         == Repaired(kv, wanted, codec, written, {})[key := Encode(codec, wanted[key])]
  {
    var more, less := Repaired(kv, wanted, codec, written + {key}, {}), Repaired(kv, wanted, codec, written, {});
    assert more.Keys == less.Keys + {key};
    forall k | k in more ensures more[k] == less[key := Encode(codec, wanted[key])][k] {
    }
  }

  /** Writing wanted records repairs exactly their keys. */
  lemma {:induction false} PutsRepair(kv: Kv, wanted: map<string, Record>, codec: Codec, puts: seq<Put>)
    requires PutsWanted(puts, wanted)
    ensures PutKeys(puts) <= wanted.Keys
    ensures PutAll(kv, codec, puts) == Repaired(kv, wanted, codec, PutKeys(puts), {})
  {
    if puts == [] {
      NothingWritten(kv, wanted, codec);
      assert PutKeys(puts) == {};
    } else {
      var before, last := puts[..|puts| - 1], puts[|puts| - 1];
      PutsRepair(kv, wanted, codec, before);
      PutKeysMore(before, last);
      assert puts == before + [last];
      RepairOneMore(kv, wanted, codec, PutKeys(before), last.key);
    }
  }

  lemma NothingWritten(kv: Kv, wanted: map<string, Record>, codec: Codec)
    ensures Repaired(kv, wanted, codec, {}, {}) == kv
  {
  }

  lemma RemovesRepair(kv: Kv, wanted: map<string, Record>, codec: Codec, written: set<string>, keys: seq<string>)
    requires written <= wanted.Keys
    ensures RemoveAll(Repaired(kv, wanted, codec, written, {}), keys)
      == Repaired(kv, wanted, codec, written, Keys(keys))
  {
  }

  datatype Tally = Tally(expected: nat, written: nat, removed: nat)

  /** The listing says what to write and what to remove, without a read. */
  lemma ListingIsEnough(kv: Kv, wanted: map<string, Record>, codec: Codec, present: map<string, Option<string>>)
    requires present == map k | k in kv && IsHost(k) :: kv[k].hash
    requires forall k :: k in wanted ==> IsHost(k)
    ensures forall k :: Differs(wanted, present, codec, k) <==> k in NeedsWrite(kv, wanted, codec)
    ensures forall k :: k in present && k !in wanted <==> k in NeedsRemoval(kv, wanted)
  {
  }

  lemma KeysMore(keys: seq<string>, key: string)
    ensures Keys(keys + [key]) == Keys(keys) + {key}
  {
  }

  method Surplus(wanted: map<string, Record>, present: map<string, Option<string>>) returns (removes: seq<string>)
    ensures |removes| == |Keys(removes)|
    ensures forall k :: k in Keys(removes) <==> k in present && k !in wanted
  {
    removes := [];
    var todo := present.Keys - wanted.Keys;
    while todo != {}
      invariant todo <= present.Keys - wanted.Keys && |removes| == |Keys(removes)|
      invariant forall k :: k in Keys(removes) <==> k in present && k !in wanted && k !in todo
      decreases |todo|
    {
      var key :| key in todo;
      KeysMore(removes, key);
      removes, todo := removes + [key], todo - {key};
    }
  }

  /** Writes, then removes, as far as the store lets it: what it got to is `written` and `removed`. */
  method Repair(kv: CloudflareKv, puts: seq<Put>, removes: seq<string>, ghost wanted: map<string, Record>)
    returns (ok: bool, ghost written: set<string>, ghost removed: set<string>)
    requires PutsWanted(puts, wanted)
    modifies kv
    ensures written <= PutKeys(puts) && removed <= Keys(removes) && written <= wanted.Keys
    ensures kv.store == Repaired(old(kv.store), wanted, kv.codec, written, removed)
    ensures removed != {} || ok ==> written == PutKeys(puts)
    ensures ok ==> removed == Keys(removes)
  {
    ghost var n, m: nat;
    ok, n := kv.PutMany(puts);
    PutsRepair(old(kv.store), wanted, kv.codec, puts[..n]);
    written, removed := PutKeys(puts[..n]), {};
    if ok {
      assert puts[..n] == puts;
      ok, m := kv.RemoveMany(removes);
      RemovesRepair(old(kv.store), wanted, kv.codec, written, removes[..m]);
      removed := Keys(removes[..m]);
      assert m == |removes| ==> removes[..m] == removes;
    }
  }

  /** Compares hashes and fixes the difference both ways; it says so only if it got to the end. */
  method ReconcileEdge(kv: CloudflareKv, db: Database, domain: string)
    returns (tally: Option<Tally>, ghost written: set<string>, ghost removed: set<string>)
    modifies kv
    ensures var wanted := Wanted(States(Query(db.rows), db.ready), domain);
      && written <= NeedsWrite(old(kv.store), wanted, kv.codec) && removed <= NeedsRemoval(old(kv.store), wanted)
      && kv.store == Repaired(old(kv.store), wanted, kv.codec, written, removed)
      && (removed != {} ==> written == NeedsWrite(old(kv.store), wanted, kv.codec))
      && (tally.Some? ==>
            && kv.store == Reconciled(old(kv.store), wanted, kv.codec)
            && tally.value == Tally(|wanted|, |NeedsWrite(old(kv.store), wanted, kv.codec)|,
                 |NeedsRemoval(old(kv.store), wanted)|))
  {
    var sites := States(Query(db.rows), db.ready);
    var wanted := CollectWanted(sites, domain);
    var present := kv.List();
    var puts := Differences(wanted, present, kv.codec);
    var removes := Surplus(wanted, present);
    WantedKeysAreHosts(sites, domain);
    ListingIsEnough(kv.store, wanted, kv.codec, present);
    assert PutKeys(puts) == NeedsWrite(kv.store, wanted, kv.codec);
    assert Keys(removes) == NeedsRemoval(kv.store, wanted);
    var ok;
    ok, written, removed := Repair(kv, puts, removes, wanted);
    tally := if ok then Some(Tally(|wanted|, |puts|, |removes|)) else None;
  }
}
