/**
 * Plugin records and the datastore. The datastore keeps record values; a
 * query hands out a fresh in-memory Plugin entity loaded from one of them,
 * and put() copies the entity's fields back under its key.
 */
module Records {
  import opened Wrappers
  import opened JsonValues
  import opened Seqs

  /** The persisted fields of one plugin. */
  datatype PluginRecord = PluginRecord(
    name: string,
    infoJson: Json,
    categories: seq<string>,
    iconUrl: Option<string>,
    screenshotUrl: Option<string>,
    zipUrl: string,
    zipMd5: string,
    secret: string,
    notes: string,
    downloads: nat,
    approved: bool)

  /** The field values of a freshly constructed Plugin(): no downloads yet, not approved. */
  const NewRecord: PluginRecord :=
    PluginRecord("", JNull, [], None, None, "", "", "", "", 0, false)

  /** A plugin entity in memory. `key` is its datastore index once it has been put. */
  class Plugin {
    var name: string
    var infoJson: Json
    var categories: seq<string>
    var iconUrl: Option<string>
    var screenshotUrl: Option<string>
    var zipUrl: string
    var zipMd5: string
    var secret: string
    var notes: string
    var downloads: nat
    var approved: bool
    var key: Option<nat>

    /** The values put() would store. */
    function Record(): PluginRecord
      reads this
    {
      PluginRecord(name, infoJson, categories, iconUrl, screenshotUrl, zipUrl, zipMd5, secret, notes, downloads, approved)
    }

    /** Plugin(): an entity that has never been stored. */
    constructor ()
      ensures Record() == NewRecord && key == None
    {
      name, infoJson, categories, iconUrl, screenshotUrl := "", JNull, [], None, None;
      zipUrl, zipMd5, secret, notes, downloads, approved := "", "", "", "", 0, false;
      key := None;
    }

    /** An entity loaded from the record stored under k. */
    constructor Load(k: nat, r: PluginRecord)
      ensures Record() == r && key == Some(k)
    {
      name, infoJson, categories, iconUrl, screenshotUrl := r.name, r.infoJson, r.categories, r.iconUrl, r.screenshotUrl;
      zipUrl, zipMd5, secret, notes, downloads, approved := r.zipUrl, r.zipMd5, r.secret, r.notes, r.downloads, r.approved;
      key := Some(k);
    }

    /** put(): overwrite the record under the entity's key, or store it under a new key. */
    method Put(store: Datastore)
      requires key.Some? ==> key.value < |store.records|
      modifies this`key, store`records
      ensures Record() == old(Record())
      ensures old(key).Some? ==> key == old(key) && store.records == old(store.records)[key.value := Record()]
      ensures old(key).None? ==> key == Some(|old(store.records)|) && store.records == old(store.records) + [Record()]
    {
      if key.Some? {
        store.records := store.records[key.value := Record()];
      } else {
        key := Some(|store.records|);
        store.records := store.records + [Record()];
      }
    }

    /** enable(): approve the plugin and store it. */
    method Enable(store: Datastore)
      requires key.Some? ==> key.value < |store.records|
      modifies this`approved, this`key, store`records
      ensures Record() == old(Record()).(approved := true)
      ensures old(key).Some? ==> key == old(key) && store.records == old(store.records)[key.value := Record()]
      ensures old(key).None? ==> key == Some(|old(store.records)|) && store.records == old(store.records) + [Record()]
    {
      approved := true;
      Put(store);
    }

    /** disable(): withdraw the approval and store it. */
    method Disable(store: Datastore)
      requires key.Some? ==> key.value < |store.records|
      modifies this`approved, this`key, store`records
      ensures Record() == old(Record()).(approved := false)
      ensures old(key).Some? ==> key == old(key) && store.records == old(store.records)[key.value := Record()]
      ensures old(key).None? ==> key == Some(|old(store.records)|) && store.records == old(store.records) + [Record()]
    {
      approved := false;
      Put(store);
    }
  }

  /** The index of the first record holding the secret. */
  function FindBySecret(records: seq<PluginRecord>, secret: string): (r: Option<nat>)
    ensures r.Some? ==> r.value < |records| && records[r.value].secret == secret
    ensures r.Some? ==> forall j :: 0 <= j < r.value ==> records[j].secret != secret
    ensures r.None? ==> forall j :: 0 <= j < |records| ==> records[j].secret != secret
  {
    FirstWhere(records, (p: PluginRecord) => p.secret == secret)
  }

  /** The index of the first approved record with the name: the record Plugin.by_name returns. */
  function FindApprovedByName(records: seq<PluginRecord>, name: string): (r: Option<nat>)
    ensures r.Some? ==> r.value < |records| && records[r.value].approved && records[r.value].name == name
    ensures r.Some? ==> forall j :: 0 <= j < r.value ==> !(records[j].approved && records[j].name == name)
    ensures r.None? ==> forall j :: 0 <= j < |records| ==> !(records[j].approved && records[j].name == name)
  {
    FirstWhere(records, (p: PluginRecord) => p.approved && p.name == name)
  }

  /** The sum of all download counters. */
  function TotalDownloads(records: seq<PluginRecord>): nat
  {
    if records == [] then 0 else TotalDownloads(records[..|records| - 1]) + records[|records| - 1].downloads
  }

  lemma {:induction false} TotalDownloadsAppend(records: seq<PluginRecord>, r: PluginRecord)
    ensures TotalDownloads(records + [r]) == TotalDownloads(records) + r.downloads
  {
    assert (records + [r])[..|records|] == records;
  }

  /** Replacing one record changes the total by the difference of the two counters. */
  lemma {:induction false} TotalDownloadsUpdate(records: seq<PluginRecord>, i: nat, r: PluginRecord)
    requires i < |records|
    ensures TotalDownloads(records[i := r]) + records[i].downloads == TotalDownloads(records) + r.downloads
    decreases |records|
  {
    var n := |records|;
    var updated := records[i := r];
    if i == n - 1 {
      assert updated[..n - 1] == records[..n - 1];
    } else {
      TotalDownloadsUpdate(records[..n - 1], i, r);
      assert updated[..n - 1] == records[..n - 1][i := r];
    }
  }

  /** At most one approved record per plugin name. */
  predicate ApprovedNamesUnique(records: seq<PluginRecord>)
  {
    forall i, j :: 0 <= i < |records| && 0 <= j < |records| && i != j && records[i].approved && records[j].approved ==>
      records[i].name != records[j].name
  }

  /** No two records hold the same secret. */
  predicate SecretsUnique(records: seq<PluginRecord>)
  {
    forall i, j :: 0 <= i < |records| && 0 <= j < |records| && i != j ==> records[i].secret != records[j].secret
  }

  /** The persisted plugins. */
  class Datastore {
    var records: seq<PluginRecord>

    constructor ()
      ensures records == []
    {
      records := [];
    }

    /** Plugin.query(Plugin.secret == secret).fetch()[0], or null when nothing matches. */
    method QueryBySecret(secret: string) returns (p: Plugin?)
      ensures p == null <==> FindBySecret(records, secret).None?
      ensures p != null ==> fresh(p) && p.key == FindBySecret(records, secret) && p.Record() == records[p.key.value]
    {
      var i := 0;
      while i < |records| && records[i].secret != secret
        invariant 0 <= i <= |records|
        invariant forall j :: 0 <= j < i ==> records[j].secret != secret
      {
        i := i + 1;
      }
      if i == |records| {
        p := null;
      } else {
        p := new Plugin.Load(i, records[i]);
      }
    }

    /** Plugin.by_name(name): the first approved plugin with that name, or null. */
    method ByName(name: string) returns (p: Plugin?)
      ensures p == null <==> FindApprovedByName(records, name).None?
      ensures p != null ==> fresh(p) && p.key == FindApprovedByName(records, name) && p.Record() == records[p.key.value]
    {
      var i := 0;
      while i < |records| && !(records[i].approved && records[i].name == name)
        invariant 0 <= i <= |records|
        invariant forall j :: 0 <= j < i ==> !(records[j].approved && records[j].name == name)
      {
        i := i + 1;
      }
      if i == |records| {
        p := null;
      } else {
        p := new Plugin.Load(i, records[i]);
      }
    }

    /** compute_categories: every category of every approved plugin. */
    method ComputeCategories() returns (categories: set<string>)
      ensures forall c :: c in categories <==>
                exists i :: 0 <= i < |records| && records[i].approved && c in records[i].categories
    {
      categories := {};
      for i := 0 to |records|
        invariant forall c :: c in categories <==>
                    exists k :: 0 <= k < i && records[k].approved && c in records[k].categories
      {
        var p := records[i];
        if p.approved {
          for j := 0 to |p.categories|
            invariant forall c :: c in categories <==>
                        (exists k :: 0 <= k < i && records[k].approved && c in records[k].categories) || c in p.categories[..j]
          {
            categories := categories + {p.categories[j]};
          }
          assert p.categories[..|p.categories|] == p.categories;
        }
      }
    }
  }
}
