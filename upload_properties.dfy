/** What an upload does to the datastore, for the flow as written and for the corrected one. */
module UploadProperties {
  import opened Wrappers
  import opened JsonValues
  import opened Records
  import opened Archive
  import opened PostUploadHandler

  /** Everything storing a stamped plugin does, record by record. */
  lemma CommittedEffect(records: seq<PluginRecord>, key: Option<nat>, stamped: PluginRecord, admin: bool, carryFromSelf: bool)
    requires key.Some? ==> key.value < |records|
    ensures var (after, k) := Committed(records, key, stamped, admin, carryFromSelf);
            var existing := TakenOver(records, key, stamped.name, admin, carryFromSelf);
            (key.Some? ==> k == key.value && |after| == |records|) &&
            (key.None? ==> k == |records| && |after| == |records| + 1) &&
            after[k] == stamped.(downloads := stamped.downloads + (if existing.Some? then records[existing.value].downloads else 0),
                                 approved := admin || stamped.approved) &&
            forall j :: 0 <= j < |records| && j != k ==>
              after[j] == (if existing == Some(j) then Retired(records[j]) else records[j])
  {
  }

  /** The scan keeps the fields the upload carries over from the record it starts from. */
  lemma ScannedKeepsBase(records: seq<PluginRecord>, req: Request, codecs: Codecs)
    requires Scanned(records, req, codecs).Success?
    ensures var q := Scanned(records, req, codecs).value.0;
            var b := Base(records, req);
            q.downloads == b.downloads && q.approved == b.approved && q.secret == b.secret && q.zipUrl == req.zipUrl
  {
    ScanOnlySetsRoleFields(Base(records, req).(zipUrl := req.zipUrl), req.entries, codecs);
  }

  /** A request that fails leaves the datastore as it was. */
  lemma FailedUploadChangesNothing(records: seq<PluginRecord>, req: Request, freshSecret: string, codecs: Codecs, carryFromSelf: bool)
    ensures var o := UploadFlow(records, req, freshSecret, codecs, carryFromSelf);
            o.result.Failure? ==> o.records == records
  {
  }

  /** The request fails for an unknown secret exactly when a secret is given and no record holds it. */
  lemma UnknownSecretIff(records: seq<PluginRecord>, req: Request, freshSecret: string, codecs: Codecs, carryFromSelf: bool)
    ensures UploadFlow(records, req, freshSecret, codecs, carryFromSelf).result == Failure(SecretNotFound) <==>
            req.secret != "" && forall j :: 0 <= j < |records| ==> records[j].secret != req.secret
  {
  }

  /** With the secret accepted, the request reports a missing info.json exactly when no entry is one. */
  lemma MissingInfoIff(records: seq<PluginRecord>, req: Request, freshSecret: string, codecs: Codecs, carryFromSelf: bool)
    requires req.secret != "" ==> Lookup(records, req).Some?
    ensures UploadFlow(records, req, freshSecret, codecs, carryFromSelf).result == Failure(MissingInfoJson) <==>
            forall i :: 0 <= i < |req.entries| ==> !IsInfo(req.entries[i])
  {
    var start := Base(records, req).(zipUrl := req.zipUrl);
    if forall i :: 0 <= i < |req.entries| ==> !IsInfo(req.entries[i]) {
      NoInfoEntryMeansNotFound(start, req.entries, codecs);
    } else if Scan(start, req.entries, codecs).Success? {
      ScanFindsInfo(start, req.entries, codecs);
    }
  }

  /**
   * With the secret accepted, the request reports a bad package exactly when
   * the contents of some info.json entry are not valid plugin metadata, and
   * the reason given is the error of the first such entry.
   */
  lemma BadPackageIff(records: seq<PluginRecord>, req: Request, freshSecret: string, codecs: Codecs, carryFromSelf: bool)
    requires req.secret != "" ==> Lookup(records, req).Some?
    ensures UploadFlow(records, req, freshSecret, codecs, carryFromSelf).result.Failure? &&
            UploadFlow(records, req, freshSecret, codecs, carryFromSelf).result.error.BadPackage? <==>
            exists i :: 0 <= i < |req.entries| && IsInfo(req.entries[i]) &&
              ReadMetadata(codecs.parseJson(req.entries[i].data)).Failure?
    ensures var r := UploadFlow(records, req, freshSecret, codecs, carryFromSelf).result;
            r.Failure? && r.error.BadPackage? ==>
              exists i :: 0 <= i < |req.entries| && IsInfo(req.entries[i]) &&
                ReadMetadata(codecs.parseJson(req.entries[i].data)) == Failure(r.error.reason) &&
                forall j :: 0 <= j < i ==> !(IsInfo(req.entries[j]) && ReadMetadata(codecs.parseJson(req.entries[j].data)).Failure?)
  {
    var start := Base(records, req).(zipUrl := req.zipUrl);
    ScanFailsOnBadMetadata(start, req.entries, codecs);
    if Scan(start, req.entries, codecs).Failure? {
      ScanErrorIsFirstBadInfo(start, req.entries, codecs);
    }
  }

  /**
   * A successful request stores the plugin read from the archive with the
   * new secret, the notes and the digest: over the record of the secret when
   * one was given, else as a new record at the end.
   */
  lemma UploadStoresPlugin(records: seq<PluginRecord>, req: Request, freshSecret: string, codecs: Codecs, carryFromSelf: bool)
    requires UploadFlow(records, req, freshSecret, codecs, carryFromSelf).result.Success?
    ensures var o := UploadFlow(records, req, freshSecret, codecs, carryFromSelf);
            var u := o.result.value;
            var q := o.records[u.key];
            (u.isUpdate <==> req.secret != "") &&
            (u.isUpdate ==> Some(u.key) == FindBySecret(records, req.secret) && |o.records| == |records|) &&
            (!u.isUpdate ==> u.key == |records| && |o.records| == |records| + 1) &&
            q.secret == freshSecret && q.notes == req.notes && q.zipMd5 == req.zipMd5 && q.zipUrl == req.zipUrl &&
            q.name == Scanned(records, req, codecs).value.0.name &&
            q.infoJson == Scanned(records, req, codecs).value.0.infoJson &&
            q.categories == Scanned(records, req, codecs).value.0.categories
  {
    var scanned := Scanned(records, req, codecs).value.0;
    ScannedKeepsBase(records, req, codecs);
    CommittedEffect(records, Lookup(records, req), Stamp(scanned, req, freshSecret), Authorized(req), carryFromSelf);
  }

  /** A successful request gives the stored plugin the new secret and leaves every other record's secret alone. */
  lemma UploadSecrets(records: seq<PluginRecord>, req: Request, freshSecret: string, codecs: Codecs, carryFromSelf: bool)
    requires UploadFlow(records, req, freshSecret, codecs, carryFromSelf).result.Success?
    ensures var o := UploadFlow(records, req, freshSecret, codecs, carryFromSelf);
            var k := o.result.value.key;
            |records| <= |o.records| <= |records| + 1 && k < |o.records| && (k == |records| || |o.records| == |records|) &&
            o.records[k].secret == freshSecret &&
            (req.secret != "" ==> records[k].secret == req.secret) &&
            forall j :: 0 <= j < |records| && j != k ==> o.records[j].secret == records[j].secret
  {
    var scanned := Scanned(records, req, codecs).value.0;
    CommittedEffect(records, Lookup(records, req), Stamp(scanned, req, freshSecret), Authorized(req), carryFromSelf);
  }

  /** When the new secret is not in use, it selects the uploaded plugin afterwards. */
  lemma NewSecretSelectsUpload(records: seq<PluginRecord>, req: Request, freshSecret: string, codecs: Codecs, carryFromSelf: bool)
    requires UploadFlow(records, req, freshSecret, codecs, carryFromSelf).result.Success?
    requires forall j :: 0 <= j < |records| ==> records[j].secret != freshSecret
    ensures var o := UploadFlow(records, req, freshSecret, codecs, carryFromSelf);
            FindBySecret(o.records, freshSecret) == Some(o.result.value.key)
  {
    var o := UploadFlow(records, req, freshSecret, codecs, carryFromSelf);
    UploadSecrets(records, req, freshSecret, codecs, carryFromSelf);
    var k := o.result.value.key;
    var after := o.records;
    forall j | 0 <= j < |after| && j != k
      ensures after[j].secret != freshSecret
    {
      assert j < |records|;
    }
  }

  /**
   * The secret of an update stops working: when secrets were unique and the
   * new one differs, no record holds the old one afterwards.
   */
  lemma OldSecretRevoked(records: seq<PluginRecord>, req: Request, freshSecret: string, codecs: Codecs, carryFromSelf: bool)
    requires UploadFlow(records, req, freshSecret, codecs, carryFromSelf).result.Success?
    requires req.secret != "" && freshSecret != req.secret
    requires SecretsUnique(records)
    ensures FindBySecret(UploadFlow(records, req, freshSecret, codecs, carryFromSelf).records, req.secret).None?
  {
    var o := UploadFlow(records, req, freshSecret, codecs, carryFromSelf);
    UploadSecrets(records, req, freshSecret, codecs, carryFromSelf);
    var k := o.result.value.key;
    var after := o.records;
    forall j | 0 <= j < |after|
      ensures after[j].secret != req.secret
    {
      if j != k {
        assert records[j].secret != records[k].secret;
      }
    }
  }

  /** A fresh secret keeps the secrets unique. */
  lemma SecretsStayUnique(records: seq<PluginRecord>, req: Request, freshSecret: string, codecs: Codecs, carryFromSelf: bool)
    requires SecretsUnique(records)
    requires forall j :: 0 <= j < |records| ==> records[j].secret != freshSecret
    ensures SecretsUnique(UploadFlow(records, req, freshSecret, codecs, carryFromSelf).records)
  {
    var o := UploadFlow(records, req, freshSecret, codecs, carryFromSelf);
    if o.result.Success? {
      UploadSecrets(records, req, freshSecret, codecs, carryFromSelf);
      var k := o.result.value.key;
      var after := o.records;
      forall i, j | 0 <= i < |after| && 0 <= j < |after| && i != j
        ensures after[i].secret != after[j].secret
      {
        if i != k && j != k {
          assert after[i].secret == records[i].secret && after[j].secret == records[j].secret;
        }
      }
    }
  }

  /**
   * An approved upload that finds another approved plugin of its name takes
   * it over: the other record is disabled with its counter zeroed, and its
   * downloads are added to the upload's, which is approved.
   */
  lemma AdminUploadTakesOver(records: seq<PluginRecord>, req: Request, freshSecret: string, codecs: Codecs, carryFromSelf: bool, e: nat)
    requires Authorized(req)
    requires UploadFlow(records, req, freshSecret, codecs, carryFromSelf).result.Success?
    requires FindApprovedByName(records, Scanned(records, req, codecs).value.0.name) == Some(e)
    requires Lookup(records, req) != Some(e)
    ensures var o := UploadFlow(records, req, freshSecret, codecs, carryFromSelf);
            var k := o.result.value.key;
            e != k && o.records[e] == Retired(records[e]) &&
            o.records[k].approved &&
            o.records[k].downloads == Base(records, req).downloads + records[e].downloads &&
            forall j :: 0 <= j < |records| && j != k && j != e ==> o.records[j] == records[j]
  {
    var scanned := Scanned(records, req, codecs).value.0;
    ScannedKeepsBase(records, req, codecs);
    CommittedEffect(records, Lookup(records, req), Stamp(scanned, req, freshSecret), Authorized(req), carryFromSelf);
  }

  /** An approved upload with no other approved plugin of its name only stores the plugin, approved. */
  lemma AdminUploadWithoutRival(records: seq<PluginRecord>, req: Request, freshSecret: string, codecs: Codecs, carryFromSelf: bool)
    requires Authorized(req)
    requires UploadFlow(records, req, freshSecret, codecs, carryFromSelf).result.Success?
    requires FindApprovedByName(records, Scanned(records, req, codecs).value.0.name).None?
    ensures var o := UploadFlow(records, req, freshSecret, codecs, carryFromSelf);
            var k := o.result.value.key;
            o.records[k].approved && o.records[k].downloads == Base(records, req).downloads &&
            forall j :: 0 <= j < |records| && j != k ==> o.records[j] == records[j]
  {
    var scanned := Scanned(records, req, codecs).value.0;
    ScannedKeepsBase(records, req, codecs);
    CommittedEffect(records, Lookup(records, req), Stamp(scanned, req, freshSecret), Authorized(req), carryFromSelf);
  }

  /**
   * An upload without approval touches no other record and keeps the
   * approval and downloads of the record it updates; a new one is not approved.
   */
  lemma PlainUploadChangesOnlyItself(records: seq<PluginRecord>, req: Request, freshSecret: string, codecs: Codecs, carryFromSelf: bool)
    requires !Authorized(req)
    requires UploadFlow(records, req, freshSecret, codecs, carryFromSelf).result.Success?
    ensures var o := UploadFlow(records, req, freshSecret, codecs, carryFromSelf);
            var k := o.result.value.key;
            o.records[k].approved == Base(records, req).approved &&
            o.records[k].downloads == Base(records, req).downloads &&
            (req.secret == "" ==> !o.records[k].approved && o.records[k].downloads == 0) &&
            forall j :: 0 <= j < |records| && j != k ==> o.records[j] == records[j]
  {
    var scanned := Scanned(records, req, codecs).value.0;
    ScannedKeepsBase(records, req, codecs);
    CommittedEffect(records, Lookup(records, req), Stamp(scanned, req, freshSecret), Authorized(req), carryFromSelf);
  }

  /** An approved upload keeps at most one approved plugin per name. */
  lemma AdminUploadKeepsNamesUnique(records: seq<PluginRecord>, req: Request, freshSecret: string, codecs: Codecs, carryFromSelf: bool)
    requires Authorized(req)
    requires ApprovedNamesUnique(records)
    ensures ApprovedNamesUnique(UploadFlow(records, req, freshSecret, codecs, carryFromSelf).records)
  {
    var o := UploadFlow(records, req, freshSecret, codecs, carryFromSelf);
    if o.result.Success? {
      var scanned := Scanned(records, req, codecs).value.0;
      var lookup := Lookup(records, req);
      var existing := TakenOver(records, lookup, scanned.name, true, carryFromSelf);
      CommittedEffect(records, lookup, Stamp(scanned, req, freshSecret), true, carryFromSelf);
      var k := o.result.value.key;
      forall i, j | 0 <= i < |o.records| && 0 <= j < |o.records| && i != j && o.records[i].approved && o.records[j].approved
        ensures o.records[i].name != o.records[j].name
      {
        if i != k && j != k {
          assert o.records[i] == records[i] && o.records[j] == records[j];
        }
      }
    }
  }

  /** A new upload without approval is stored unapproved, so it keeps the names unique. */
  lemma PlainNewUploadKeepsNamesUnique(records: seq<PluginRecord>, req: Request, freshSecret: string, codecs: Codecs, carryFromSelf: bool)
    requires !Authorized(req) && req.secret == ""
    requires ApprovedNamesUnique(records)
    ensures ApprovedNamesUnique(UploadFlow(records, req, freshSecret, codecs, carryFromSelf).records)
  {
    var o := UploadFlow(records, req, freshSecret, codecs, carryFromSelf);
    if o.result.Success? {
      PlainUploadChangesOnlyItself(records, req, freshSecret, codecs, carryFromSelf);
      var k := o.result.value.key;
      forall i, j | 0 <= i < |o.records| && 0 <= j < |o.records| && i != j && o.records[i].approved && o.records[j].approved
        ensures o.records[i].name != o.records[j].name
      {
        assert i != k && j != k;
        assert o.records[i] == records[i] && o.records[j] == records[j];
      }
    }
  }

  /**
   * An update without approval keeps its record approved even when the
   * archive renames it to the name of another approved plugin: the names
   * are then no longer unique.
   */
  lemma PlainRenameBreaksNamesUnique(records: seq<PluginRecord>, req: Request, freshSecret: string, codecs: Codecs, carryFromSelf: bool, j: nat)
    requires !Authorized(req)
    requires UploadFlow(records, req, freshSecret, codecs, carryFromSelf).result.Success?
    requires Lookup(records, req).Some? && records[Lookup(records, req).value].approved
    requires j < |records| && Some(j) != Lookup(records, req)
    requires records[j].approved && records[j].name == Scanned(records, req, codecs).value.0.name
    ensures !ApprovedNamesUnique(UploadFlow(records, req, freshSecret, codecs, carryFromSelf).records)
  {
    var o := UploadFlow(records, req, freshSecret, codecs, carryFromSelf);
    UploadStoresPlugin(records, req, freshSecret, codecs, carryFromSelf);
    PlainUploadChangesOnlyItself(records, req, freshSecret, codecs, carryFromSelf);
    var k := o.result.value.key;
    assert o.records[j] == records[j];
    assert o.records[k].approved && o.records[k].name == records[j].name;
  }

  /**
   * As written, an approved update names its own record when it looks for the
   * approved plugin of the same name. The record is retired and then
   * overwritten by the upload, and its downloads are counted twice.
   */
  lemma SelfCollisionDoublesDownloads(records: seq<PluginRecord>, req: Request, freshSecret: string, codecs: Codecs, k: nat)
    requires Authorized(req)
    requires Lookup(records, req) == Some(k)
    requires Upload(records, req, freshSecret, codecs).result.Success?
    requires FindApprovedByName(records, Scanned(records, req, codecs).value.0.name) == Some(k)
    ensures var o := Upload(records, req, freshSecret, codecs);
            o.result.value.key == k &&
            o.records[k].downloads == 2 * records[k].downloads &&
            TotalDownloads(o.records) == TotalDownloads(records) + records[k].downloads
  {
    var o := Upload(records, req, freshSecret, codecs);
    var scanned := Scanned(records, req, codecs).value.0;
    ScannedKeepsBase(records, req, codecs);
    CommittedEffect(records, Some(k), Stamp(scanned, req, freshSecret), true, true);
    var retired := records[k := Retired(records[k])];
    assert o.records == retired[k := o.records[k]];
    TotalDownloadsUpdate(records, k, Retired(records[k]));
    TotalDownloadsUpdate(retired, k, o.records[k]);
  }

  /** A concrete case: the approved plugin "clock", downloaded 5 times, with secret "s". */
  const ClockRecords: seq<PluginRecord> := [PluginRecord("clock", JNull, ["Other"], None, None, "old.zip", "m", "s", "", 5, true)]

  /** An administrator re-uploads it under its own secret, in an archive holding only clock/info.json. */
  const ClockRequest: Request := Request("s", [Entry("clock/info.json", [])], "new.zip", "m2", "", true, None, false)

  /** The metadata reads as {"name": "clock"}. */
  const ClockCodecs: Codecs := Codecs((b: Bytes) => Some(JObject(map["name" := JString("clock")])), (b: Bytes, n: nat) => "")

  lemma ClockScanned()
    ensures Scanned(ClockRecords, ClockRequest, ClockCodecs).Success?
    ensures Scanned(ClockRecords, ClockRequest, ClockCodecs).value.1
    ensures Scanned(ClockRecords, ClockRequest, ClockCodecs).value.0.name == "clock"
  {
    var e := ClockRequest.entries[0];
    assert e.name[|e.name| - |InfoSuffix|..] == InfoSuffix;
    assert IsInfo(e);
    assert ClockRequest.entries[..0] == [];
    var start := Base(ClockRecords, ClockRequest).(zipUrl := ClockRequest.zipUrl);
    assert Scan(start, ClockRequest.entries, ClockCodecs) == Step((start, false), e, ClockCodecs);
  }

  /** In the concrete case the re-upload leaves "clock" with 10 downloads. */
  lemma SelfCollisionExample()
    ensures var o := Upload(ClockRecords, ClockRequest, "t", ClockCodecs);
            o.result == Success(Uploaded(0, true)) && o.records[0].downloads == 10
  {
    assert FindBySecret(ClockRecords, "s") == Some(0);
    ClockScanned();
    assert FindApprovedByName(ClockRecords, "clock") == Some(0);
    SelfCollisionDoublesDownloads(ClockRecords, ClockRequest, "t", ClockCodecs, 0);
  }

  /** The corrected flow keeps the total number of downloads. */
  lemma IntendedUploadConservesDownloads(records: seq<PluginRecord>, req: Request, freshSecret: string, codecs: Codecs)
    ensures TotalDownloads(UploadIntended(records, req, freshSecret, codecs).records) == TotalDownloads(records)
  {
    var o := UploadIntended(records, req, freshSecret, codecs);
    if o.result.Success? {
      var scanned := Scanned(records, req, codecs).value.0;
      var lookup := Lookup(records, req);
      var stamped := Stamp(scanned, req, freshSecret);
      var existing := TakenOver(records, lookup, scanned.name, Authorized(req), false);
      ScannedKeepsBase(records, req, codecs);
      CommittedEffect(records, lookup, stamped, Authorized(req), false);
      var k := o.result.value.key;
      var final := o.records[k];
      var retired := if existing.Some? then records[existing.value := Retired(records[existing.value])] else records;
      if existing.Some? {
        TotalDownloadsUpdate(records, existing.value, Retired(records[existing.value]));
      }
      assert TotalDownloads(retired) + final.downloads == TotalDownloads(records) + stamped.downloads;
      if lookup.Some? {
        assert o.records == retired[k := final];
        TotalDownloadsUpdate(retired, k, final);
      } else {
        assert o.records == retired + [final];
        TotalDownloadsAppend(retired, final);
      }
    }
  }

  /** The two flows differ only on an approved update whose own record is the approved plugin of its name. */
  lemma UploadDiffersOnlyOnSelfCollision(records: seq<PluginRecord>, req: Request, freshSecret: string, codecs: Codecs)
    requires Upload(records, req, freshSecret, codecs) != UploadIntended(records, req, freshSecret, codecs)
    ensures Authorized(req) && Lookup(records, req).Some? && Scanned(records, req, codecs).Success? &&
            FindApprovedByName(records, Scanned(records, req, codecs).value.0.name) == Lookup(records, req)
  {
  }
}
