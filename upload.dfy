/**
 * The upload handler (PostUploadHandler.post): look up the plugin to update
 * by its secret or start a new one, read the archive, rotate the secret,
 * and, for an administrator or a valid console key, retire the approved
 * plugin of the same name, carrying its download count over, and approve
 * the upload.
 */
module PostUploadHandler {
  import opened Wrappers
  import opened Seqs
  import opened JsonValues
  import opened Records
  import opened Archive

  /**
   * The request: the form's secret ("" when absent), the stored zip's entries,
   * URL and md5 digest, the notes, whether the current user is an
   * administrator, the console_key field and whether the cache holds that key.
   */
  datatype Request = Request(
    secret: string,
    entries: seq<Entry>,
    zipUrl: string,
    zipMd5: string,
    notes: string,
    userIsAdmin: bool,
    consoleKey: Option<string>,
    consoleKeyValid: bool)

  datatype UploadError = SecretNotFound | MissingInfoJson | BadPackage(reason: ArchiveError)

  /** A successful upload: the key of the stored plugin and whether it updated an existing one. */
  datatype Uploaded = Uploaded(key: nat, isUpdate: bool)

  /** The datastore after the request, and what the request reports. */
  datatype Outcome = Outcome(records: seq<PluginRecord>, result: Result<Uploaded, UploadError>)

  /** users.is_current_user_admin() or (console_key and console_key_is_valid(console_key)). */
  predicate Authorized(req: Request)
  {
    req.userIsAdmin || (req.consoleKey.Some? && req.consoleKey.value != "" && req.consoleKeyValid)
  }

  /** The record a non-empty secret selects. */
  function Lookup(records: seq<PluginRecord>, req: Request): (r: Option<nat>)
    ensures r.Some? ==> r.value < |records|
  {
    if req.secret == "" then None else FindBySecret(records, req.secret)
  }

  /** The plugin the upload starts from: the selected record, or a new one. */
  function Base(records: seq<PluginRecord>, req: Request): PluginRecord
  {
    match Lookup(records, req)
    case Some(k) => records[k]
    case None => NewRecord
  }

  /** A record after disable() and downloads = 0. */
  function Retired(r: PluginRecord): PluginRecord
  {
    r.(approved := false, downloads := 0)
  }

  /** What read_plugin_info makes of the archive, starting from Base with the new zip URL. */
  function Scanned(records: seq<PluginRecord>, req: Request, codecs: Codecs): Result<(PluginRecord, bool), ArchiveError>
  {
    Scan(Base(records, req).(zipUrl := req.zipUrl), req.entries, codecs)
  }

  /** The new secret, the notes and the zip digest written after a successful read. */
  function Stamp(p: PluginRecord, req: Request, freshSecret: string): PluginRecord
  {
    p.(secret := freshSecret, notes := req.notes, zipMd5 := req.zipMd5)
  }

  /**
   * The whole request as a function of the datastore before it. With
   * carryFromSelf the collision check is the source's: the approved
   * record of the same name is retired and its downloads carried over even
   * when it is the very record being updated. Without it, that record is
   * not treated as a collision with itself.
   */
  function UploadFlow(records: seq<PluginRecord>, req: Request, freshSecret: string, codecs: Codecs,
                      carryFromSelf: bool): Outcome
  {
    var lookup := Lookup(records, req);
    if req.secret != "" && lookup.None? then Outcome(records, Failure(SecretNotFound))
    else Received(records, lookup, Base(records, req), req, freshSecret, codecs, carryFromSelf)
  }

  /** The request from source line 118 on, for the plugin `base` found under `key` or new. */
  function Received(records: seq<PluginRecord>, key: Option<nat>, base: PluginRecord, req: Request, freshSecret: string,
                    codecs: Codecs, carryFromSelf: bool): Outcome
    requires key.Some? ==> key.value < |records|
  {
    match Scan(base.(zipUrl := req.zipUrl), req.entries, codecs)
    case Failure(err) => Outcome(records, Failure(BadPackage(err)))
    case Success(scanned) =>
      if !scanned.1 then Outcome(records, Failure(MissingInfoJson))
      else
        var (after, k) := Committed(records, key, Stamp(scanned.0, req, freshSecret), Authorized(req), carryFromSelf);
        Outcome(after, Success(Uploaded(k, key.Some?)))
  }

  /**
   * The record an approved upload takes over: the first approved record with
   * the plugin's name, except, without carryFromSelf, the plugin's own record.
   */
  function TakenOver(records: seq<PluginRecord>, key: Option<nat>, name: string, admin: bool, carryFromSelf: bool): (r: Option<nat>)
    ensures r.Some? ==> admin && r == FindApprovedByName(records, name) && (carryFromSelf || r != key)
    ensures r.None? && admin ==> FindApprovedByName(records, name).None? || (!carryFromSelf && FindApprovedByName(records, name) == key)
  {
    var found := if admin then FindApprovedByName(records, name) else None;
    if !carryFromSelf && found.Some? && found == key then None else found
  }

  /**
   * The datastore after the stamped plugin is stored (source lines 134-146):
   * with approval, the record taken over, if any, is retired and its
   * downloads are added to the plugin's, and the plugin is approved. Also
   * the key the plugin ends up under.
   */
  function Committed(records: seq<PluginRecord>, key: Option<nat>, stamped: PluginRecord, admin: bool,
                     carryFromSelf: bool): (seq<PluginRecord>, nat)
    requires key.Some? ==> key.value < |records|
  {
    var existing := TakenOver(records, key, stamped.name, admin, carryFromSelf);
    var carried :=
      if existing.Some? then stamped.(downloads := stamped.downloads + records[existing.value].downloads)
      else stamped;
    var final := if admin then carried.(approved := true) else carried;
    var retired := if existing.Some? then records[existing.value := Retired(records[existing.value])] else records;
    match key
    case Some(k) => (retired[k := final], k)
    case None => (retired + [final], |records|)
  }

  /** The request as the source performs it. */
  function Upload(records: seq<PluginRecord>, req: Request, freshSecret: string, codecs: Codecs): Outcome
  {
    UploadFlow(records, req, freshSecret, codecs, true)
  }

  /** The request with the self-collision excluded. */
  function UploadIntended(records: seq<PluginRecord>, req: Request, freshSecret: string, codecs: Codecs): Outcome
  {
    UploadFlow(records, req, freshSecret, codecs, false)
  }

  /**
   * PostUploadHandler.post, with the zip already fetched from its blob URL and
   * the new secret, the md5 digest and the console key's validity as inputs.
   */
  method PostUpload(store: Datastore, req: Request, freshSecret: string, codecs: Codecs)
    returns (result: Result<Uploaded, UploadError>)
    modifies store
    ensures Outcome(store.records, result) == Upload(old(store.records), req, freshSecret, codecs)
  {
    var plugin: Plugin;
    if |req.secret| > 0 {
      var found := store.QueryBySecret(req.secret);
      if found == null {
        return Failure(SecretNotFound);
      }
      plugin := found;
    } else {
      plugin := new Plugin();
    }
    result := ReceiveUpload(store, plugin, req, freshSecret, codecs);
  }

  /** post() from source line 118 on: read the archive into the plugin, stamp it and store it. */
  method ReceiveUpload(store: Datastore, plugin: Plugin, req: Request, freshSecret: string, codecs: Codecs)
    returns (result: Result<Uploaded, UploadError>)
    requires plugin.key.Some? ==> plugin.key.value < |store.records|
    modifies store, plugin
    ensures Outcome(store.records, result) ==
            Received(old(store.records), old(plugin.key), old(plugin.Record()), req, freshSecret, codecs, true)
  {
    ghost var scanned := Scan(plugin.Record().(zipUrl := req.zipUrl), req.entries, codecs);
    var isUpdate := plugin.key.Some?;
    var read := ReadUpload(plugin, req, codecs);
    if read.Failure? {
      return Failure(read.error);
    }
    plugin.secret := freshSecret;
    plugin.notes := req.notes;
    plugin.zipMd5 := req.zipMd5;
    assert plugin.Record() == Stamp(scanned.value.0, req, freshSecret);
    var key := SaveUpload(store, plugin, Authorized(req));
    result := Success(Uploaded(key, isUpdate));
  }

  /** Source lines 118-125: point the plugin at the new zip and read the archive into it; it must hold an info.json. */
  method ReadUpload(plugin: Plugin, req: Request, codecs: Codecs) returns (r: Result<(), UploadError>)
    modifies plugin`zipUrl, plugin`name, plugin`infoJson, plugin`categories, plugin`iconUrl, plugin`screenshotUrl
    ensures var scanned := Scan(old(plugin.Record()).(zipUrl := req.zipUrl), req.entries, codecs);
            match scanned
            case Failure(err) => r == Failure(BadPackage(err))
            case Success((q, hasInfo)) =>
              if hasInfo then r == Success(()) && plugin.Record() == q else r == Failure(MissingInfoJson)
  {
    plugin.zipUrl := req.zipUrl;
    var info := ReadPluginInfo(plugin, req.entries, codecs);
    if info.Failure? {
      return Failure(BadPackage(info.error));
    }
    if !info.value {
      return Failure(MissingInfoJson);
    }
    return Success(());
  }

  /** The part of post() from the approval check on: store the plugin and return its key. */
  method SaveUpload(store: Datastore, plugin: Plugin, admin: bool) returns (key: nat)
    requires plugin.key.Some? ==> plugin.key.value < |store.records|
    modifies store, plugin
    ensures (store.records, key) == Committed(old(store.records), old(plugin.key), old(plugin.Record()), admin, true)
  {
    ghost var records := store.records;
    ghost var stamped := plugin.Record();
    ghost var taken: Option<nat> := None;
    if admin {
      var existing := store.ByName(plugin.name);
      if existing != null {
        taken := existing.key;
        TakeOver(store, plugin, existing);
      }
    }
    ghost var retired := if taken.Some? then records[taken.value := Retired(records[taken.value])] else records;
    ghost var carried := plugin.Record();
    ghost var mid := store.records;
    assert taken == TakenOver(records, old(plugin.key), stamped.name, admin, true);
    Publish(store, plugin, admin);
    key := plugin.key.value;
    if old(plugin.key).Some? {
      assert store.records == retired[key := plugin.Record()];
    } else if taken.Some? {
      assert mid == retired + [carried];
      assert store.records == retired + [plugin.Record()];
    }
  }

  /** Source lines 144-146: store the plugin, then approve it when the upload is authorised. */
  method Publish(store: Datastore, plugin: Plugin, admin: bool)
    requires plugin.key.Some? ==> plugin.key.value < |store.records|
    modifies plugin`approved, plugin`key, store`records
    ensures plugin.Record() == old(plugin.Record()).(approved := admin || old(plugin.approved))
    ensures old(plugin.key).Some? ==> plugin.key == old(plugin.key) && store.records == old(store.records)[plugin.key.value := plugin.Record()]
    ensures old(plugin.key).None? ==> plugin.key == Some(|old(store.records)|) && store.records == old(store.records) + [plugin.Record()]
  {
    plugin.Put(store);
    if admin {
      plugin.Enable(store);
    }
  }

  /**
   * Source lines 139-143: add the existing plugin's downloads to the new one,
   * store the new one, then disable the existing one and zero its counter.
   */
  method TakeOver(store: Datastore, plugin: Plugin, existing: Plugin)
    requires plugin != existing
    requires plugin.key.Some? ==> plugin.key.value < |store.records|
    requires existing.key.Some? && existing.key.value < |store.records|
    modifies store`records, plugin, existing
    ensures plugin.Record() == old(plugin.Record()).(downloads := old(plugin.downloads) + old(existing.downloads))
    ensures existing.key == old(existing.key)
    ensures old(plugin.key).Some? ==> plugin.key == old(plugin.key)
    ensures old(plugin.key).None? ==> plugin.key == Some(|old(store.records)|)
    ensures old(plugin.key).Some? ==>
              store.records == old(store.records)[old(plugin.key).value := plugin.Record()][old(existing.key).value := Retired(old(existing.Record()))]
    ensures old(plugin.key).None? ==>
              store.records == (old(store.records) + [plugin.Record()])[old(existing.key).value := Retired(old(existing.Record()))]
  {
    plugin.downloads := plugin.downloads + existing.downloads;
    plugin.Put(store);
    existing.Disable(store);
    existing.downloads := 0;
    existing.Put(store);
  }
}
