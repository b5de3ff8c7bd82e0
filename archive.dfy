/**
 * The archive inspector (read_plugin_info): one pass over the entry names of
 * the uploaded zip. An entry's role is decided by the end of its name; the
 * metadata entry sets the plugin's name, metadata blob and categories, the
 * two image entries set the icon and screenshot URLs. Later entries of a
 * role overwrite earlier ones.
 */
module Archive {
  import opened Wrappers
  import opened Text
  import opened Seqs
  import opened JsonValues
  import opened Records

  type Bytes = seq<bv8>

  /** One archive member: its name and its decompressed bytes. */
  datatype Entry = Entry(name: string, data: Bytes)

  /**
   * The foreign calls the inspector makes: json.load on an entry's bytes
   * (None when they are not JSON), and resize_and_store, which scales an
   * image to size x size, stores it as PNG and returns its URL.
   */
  datatype Codecs = Codecs(parseJson: Bytes -> Option<Json>, resizeAndStore: (Bytes, nat) -> string)

  datatype ArchiveError = MalformedJson | InvalidMetadata

  const InfoSuffix: string := "/info.json"
  const IconSuffix: string := "/Icon.png"
  const ScreenshotSuffix: string := "/Screenshot.png"
  const IconSize: nat := 128
  const ScreenshotSize: nat := 800
  const DefaultCategories: seq<string> := ["Other"]

  datatype Role = InfoRole | IconRole | ScreenshotRole | NoRole

  /** The if/elif chain on the entry name. */
  function RoleOf(e: Entry): Role
  {
    if EndsWith(e.name, InfoSuffix) then InfoRole
    else if EndsWith(e.name, IconSuffix) then IconRole
    else if EndsWith(e.name, ScreenshotSuffix) then ScreenshotRole
    else NoRole
  }

  predicate IsInfo(e: Entry) { RoleOf(e) == InfoRole }
  predicate IsIcon(e: Entry) { RoleOf(e) == IconRole }
  predicate IsScreenshot(e: Entry) { RoleOf(e) == ScreenshotRole }

  /** No name ends in two of the suffixes, so each role is decided by its own suffix whatever the order of the chain. */
  lemma RoleBySuffix(e: Entry)
    ensures IsInfo(e) <==> EndsWith(e.name, InfoSuffix)
    ensures IsIcon(e) <==> EndsWith(e.name, IconSuffix)
    ensures IsScreenshot(e) <==> EndsWith(e.name, ScreenshotSuffix)
  {
    var s := e.name;
    if EndsWith(s, InfoSuffix) {
      assert s[|s| - 1] == 'n';
    }
    if EndsWith(s, IconSuffix) {
      assert s[|s| - 1] == 'g' && s[|s| - 5] == 'n';
    }
    if EndsWith(s, ScreenshotSuffix) {
      assert s[|s| - 1] == 'g' && s[|s| - 5] == 't';
    }
  }

  /** What the metadata entry contributes to the plugin. */
  datatype Metadata = Metadata(name: string, json: Json, categories: seq<string>)

  function JsonStrings(strs: seq<string>): (r: seq<Json>)
    ensures |r| == |strs|
  {
    seq(|strs|, i requires 0 <= i < |strs| => JString(strs[i]))
  }

  /** The strings of a JSON list, when every item is a string. */
  function StringItems(items: seq<Json>): (r: Option<seq<string>>)
    ensures r.Some? ==> JsonStrings(r.value) == items
    ensures r.None? ==> exists i :: 0 <= i < |items| && !items[i].JString?
  {
    if items == [] then Some([])
    else if !items[0].JString? then None
    else match StringItems(items[1..])
      case None => None
      case Some(rest) =>
        assert JsonStrings([items[0].str] + rest) == [items[0]] + JsonStrings(rest);
        Some([items[0].str] + rest)
  }

  /**
   * data['name'] and data.get('categories', ['Other']) on the parsed
   * info.json: the name must be a string and the categories, when given, a
   * list of strings.
   */
  function ReadMetadata(parsed: Option<Json>): (r: Result<Metadata, ArchiveError>)
    ensures parsed.None? <==> r == Failure(MalformedJson)
    ensures r.Success? ==>
      && parsed == Some(r.value.json)
      && r.value.json.JObject?
      && "name" in r.value.json.fields
      && r.value.json.fields["name"] == JString(r.value.name)
      && (if "categories" in r.value.json.fields
          then r.value.json.fields["categories"] == JArray(JsonStrings(r.value.categories))
          else r.value.categories == DefaultCategories)
    ensures r == Failure(InvalidMetadata) ==>
      match parsed
      case Some(JObject(f)) =>
        || "name" !in f || !f["name"].JString?
        || ("categories" in f && (!f["categories"].JArray? || exists i :: 0 <= i < |f["categories"].items| && !f["categories"].items[i].JString?))
      case Some(_) => true
      case None => false
  {
    match parsed
    case None => Failure(MalformedJson)
    case Some(data) =>
      if !data.JObject? || "name" !in data.fields || !data.fields["name"].JString? then Failure(InvalidMetadata)
      else
        var categories :=
          if "categories" !in data.fields then Some(DefaultCategories)
          else if data.fields["categories"].JArray? then StringItems(data.fields["categories"].items)
          else None;
        if categories.None? then Failure(InvalidMetadata)
        else Success(Metadata(data.fields["name"].str, data, categories.value))
  }

  /** One turn of the loop: what an entry does to the plugin and to has_info. */
  function Step(state: (PluginRecord, bool), e: Entry, codecs: Codecs): Result<(PluginRecord, bool), ArchiveError>
  {
    var (p, hasInfo) := state;
    match RoleOf(e)
    case InfoRole =>
      (match ReadMetadata(codecs.parseJson(e.data))
       case Failure(err) => Failure(err)
       case Success(m) => Success((p.(name := m.name, infoJson := m.json, categories := m.categories), true)))
    case IconRole => Success((p.(iconUrl := Some(codecs.resizeAndStore(e.data, IconSize))), hasInfo))
    case ScreenshotRole => Success((p.(screenshotUrl := Some(codecs.resizeAndStore(e.data, ScreenshotSize))), hasInfo))
    case NoRole => Success((p, hasInfo))
  }

  /** The plugin's fields and has_info after the loop has seen the given entries, or the error that stopped it. */
  function Scan(p: PluginRecord, entries: seq<Entry>, codecs: Codecs): Result<(PluginRecord, bool), ArchiveError>
  {
    if entries == [] then Success((p, false))
    else match Scan(p, entries[..|entries| - 1], codecs)
      case Failure(err) => Failure(err)
      case Success(state) => Step(state, entries[|entries| - 1], codecs)
  }

  /**
   * read_plugin_info: walk the entries in archive order and set the fields of
   * the plugin for each entry whose name ends in a role's suffix. Returns
   * whether a metadata entry was seen; a metadata entry that cannot be read
   * stops the walk with an error.
   */
  method ReadPluginInfo(plugin: Plugin, entries: seq<Entry>, codecs: Codecs) returns (r: Result<bool, ArchiveError>)
    modifies plugin`name, plugin`infoJson, plugin`categories, plugin`iconUrl, plugin`screenshotUrl
    ensures Scan(old(plugin.Record()), entries, codecs).Failure? ==>
              r == Failure(Scan(old(plugin.Record()), entries, codecs).error)
    ensures Scan(old(plugin.Record()), entries, codecs).Success? ==>
              r.Success? && Scan(old(plugin.Record()), entries, codecs).value == (plugin.Record(), r.value)
  {
    ghost var start := plugin.Record();
    var hasInfo := false;
    var i := 0;
    while i < |entries|
      invariant 0 <= i <= |entries|
      invariant Scan(start, entries[..i], codecs) == Success((plugin.Record(), hasInfo))
    {
      var e := entries[i];
      ScanOneMore(start, entries, i, codecs);
      ghost var next := Step((plugin.Record(), hasInfo), e, codecs);
      var role := RoleOf(e);
      if role == InfoRole {
        var data := ReadMetadata(codecs.parseJson(e.data));
        if data.Failure? {
          ScanStaysFailed(start, entries, i + 1, codecs);
          return Failure(data.error);
        }
        plugin.name := data.value.name;
        plugin.infoJson := data.value.json;
        plugin.categories := data.value.categories;
        hasInfo := true;
      } else if role == IconRole {
        plugin.iconUrl := Some(codecs.resizeAndStore(e.data, IconSize));
      } else if role == ScreenshotRole {
        plugin.screenshotUrl := Some(codecs.resizeAndStore(e.data, ScreenshotSize));
      }
      assert next == Success((plugin.Record(), hasInfo));
      i := i + 1;
    }
    assert entries[..|entries|] == entries;
    return Success(hasInfo);
  }

  /** The walk over one more entry is one more step. */
  lemma ScanOneMore(p: PluginRecord, entries: seq<Entry>, i: nat, codecs: Codecs)
    requires i < |entries|
    ensures Scan(p, entries[..i + 1], codecs) ==
            match Scan(p, entries[..i], codecs)
            case Failure(err) => Failure(err)
            case Success(state) => Step(state, entries[i], codecs)
  {
    assert entries[..i + 1][..i] == entries[..i];
  }

  /** Once the walk has stopped with an error, later entries do not matter. */
  lemma {:induction false} ScanStaysFailed(p: PluginRecord, entries: seq<Entry>, k: nat, codecs: Codecs)
    requires k <= |entries|
    requires Scan(p, entries[..k], codecs).Failure?
    ensures Scan(p, entries, codecs) == Scan(p, entries[..k], codecs)
    decreases |entries|
  {
    if k < |entries| {
      var n := |entries|;
      assert entries[..n - 1][..k] == entries[..k];
      ScanStaysFailed(p, entries[..n - 1], k, codecs);
    } else {
      assert entries[..k] == entries;
    }
  }

  /** The walk changes only the role fields: name, metadata, categories, icon and screenshot. */
  lemma {:induction false} ScanOnlySetsRoleFields(p: PluginRecord, entries: seq<Entry>, codecs: Codecs)
    requires Scan(p, entries, codecs).Success?
    ensures var q := Scan(p, entries, codecs).value.0;
      q == p.(name := q.name, infoJson := q.infoJson, categories := q.categories,
              iconUrl := q.iconUrl, screenshotUrl := q.screenshotUrl)
  {
    if entries != [] {
      ScanOnlySetsRoleFields(p, entries[..|entries| - 1], codecs);
    }
  }

  /** One step fails exactly on a metadata entry that cannot be read, and otherwise records whether it saw one. */
  lemma StepFlags(state: (PluginRecord, bool), e: Entry, codecs: Codecs)
    ensures Step(state, e, codecs).Failure? <==> IsInfo(e) && ReadMetadata(codecs.parseJson(e.data)).Failure?
    ensures Step(state, e, codecs).Success? ==> Step(state, e, codecs).value.1 == (state.1 || IsInfo(e))
  {
  }

  /** The walk over a non-empty list is the walk over all but the last entry, then one step. */
  lemma ScanLast(p: PluginRecord, entries: seq<Entry>, codecs: Codecs)
    requires entries != []
    ensures Scan(p, entries, codecs) ==
            match Scan(p, entries[..|entries| - 1], codecs)
            case Failure(err) => Failure(err)
            case Success(state) => Step(state, entries[|entries| - 1], codecs)
  {
  }

  /** The walk reports a metadata entry exactly when some entry name ends in "/info.json". */
  lemma {:induction false} ScanFindsInfo(p: PluginRecord, entries: seq<Entry>, codecs: Codecs)
    requires Scan(p, entries, codecs).Success?
    ensures Scan(p, entries, codecs).value.1 <==> exists i :: 0 <= i < |entries| && IsInfo(entries[i])
  {
    if entries != [] {
      var n := |entries|;
      var front := entries[..n - 1];
      ScanLast(p, entries, codecs);
      assert Scan(p, front, codecs).Success?;
      var state := Scan(p, front, codecs).value;
      assert Scan(p, entries, codecs) == Step(state, entries[n - 1], codecs);
      ScanFindsInfo(p, front, codecs);
      StepFlags(state, entries[n - 1], codecs);
      InfoInFront(entries, front);
    }
  }

  /** Some entry is a metadata entry iff one among all but the last is, or the last is. */
  lemma InfoInFront(entries: seq<Entry>, front: seq<Entry>)
    requires entries != [] && front == entries[..|entries| - 1]
    ensures (exists i :: 0 <= i < |entries| && IsInfo(entries[i])) <==>
            (exists i :: 0 <= i < |front| && IsInfo(front[i])) || IsInfo(entries[|entries| - 1])
  {
    if exists i :: 0 <= i < |front| && IsInfo(front[i]) {
      var i :| 0 <= i < |front| && IsInfo(front[i]);
      assert entries[i] == front[i];
    }
    if exists i :: 0 <= i < |entries| && IsInfo(entries[i]) {
      var i :| 0 <= i < |entries| && IsInfo(entries[i]);
      if i < |front| {
        assert front[i] == entries[i];
      }
    }
  }

  /** The walk fails exactly when some metadata entry cannot be read. */
  lemma {:induction false} ScanFailsOnBadMetadata(p: PluginRecord, entries: seq<Entry>, codecs: Codecs)
    ensures Scan(p, entries, codecs).Failure? <==>
            exists i :: 0 <= i < |entries| && IsInfo(entries[i]) && ReadMetadata(codecs.parseJson(entries[i].data)).Failure?
  {
    if entries != [] {
      var n := |entries|;
      var front := entries[..n - 1];
      ScanLast(p, entries, codecs);
      ScanFailsOnBadMetadata(p, front, codecs);
      if Scan(p, front, codecs).Success? {
        StepFlags(Scan(p, front, codecs).value, entries[n - 1], codecs);
      }
      if exists i :: 0 <= i < n - 1 && IsInfo(front[i]) && ReadMetadata(codecs.parseJson(front[i].data)).Failure? {
        var i :| 0 <= i < n - 1 && IsInfo(front[i]) && ReadMetadata(codecs.parseJson(front[i].data)).Failure?;
        assert front[i] == entries[i];
      }
      if exists i :: 0 <= i < n && IsInfo(entries[i]) && ReadMetadata(codecs.parseJson(entries[i].data)).Failure? {
        var i :| 0 <= i < n && IsInfo(entries[i]) && ReadMetadata(codecs.parseJson(entries[i].data)).Failure?;
        if i < n - 1 {
          assert front[i] == entries[i];
        }
      }
    }
  }

  /** A failed walk reports the error of the first metadata entry that cannot be read. */
  lemma {:induction false} ScanErrorIsFirstBadInfo(p: PluginRecord, entries: seq<Entry>, codecs: Codecs)
    requires Scan(p, entries, codecs).Failure?
    ensures exists i :: 0 <= i < |entries| && IsInfo(entries[i]) &&
              ReadMetadata(codecs.parseJson(entries[i].data)) == Failure(Scan(p, entries, codecs).error) &&
              forall j :: 0 <= j < i ==> !(IsInfo(entries[j]) && ReadMetadata(codecs.parseJson(entries[j].data)).Failure?)
  {
    var n := |entries|;
    var front := entries[..n - 1];
    ScanLast(p, entries, codecs);
    if Scan(p, front, codecs).Failure? {
      ScanErrorIsFirstBadInfo(p, front, codecs);
      var i :| 0 <= i < |front| && IsInfo(front[i]) &&
               ReadMetadata(codecs.parseJson(front[i].data)) == Failure(Scan(p, front, codecs).error) &&
               forall j :: 0 <= j < i ==> !(IsInfo(front[j]) && ReadMetadata(codecs.parseJson(front[j].data)).Failure?);
      assert front[i] == entries[i];
      assert forall j :: 0 <= j < i ==> front[j] == entries[j];
    } else {
      ScanFailsOnBadMetadata(p, front, codecs);
      StepFlags(Scan(p, front, codecs).value, entries[n - 1], codecs);
      assert forall j :: 0 <= j < n - 1 ==> front[j] == entries[j];
      assert IsInfo(entries[n - 1]);
    }
  }

  /**
   * Last match wins for the metadata: name, metadata blob and categories come
   * from the last entry whose name ends in "/info.json" (categories ["Other"]
   * when it has none), and are untouched when there is no such entry.
   */
  lemma {:induction false} ScanLastInfoWins(p: PluginRecord, entries: seq<Entry>, codecs: Codecs)
    requires Scan(p, entries, codecs).Success?
    ensures var q := Scan(p, entries, codecs).value.0;
      match LastWhere(entries, IsInfo)
      case Some(i) =>
        ReadMetadata(codecs.parseJson(entries[i].data)).Success? &&
        var m := ReadMetadata(codecs.parseJson(entries[i].data)).value;
        q.name == m.name && q.infoJson == m.json && q.categories == m.categories
      case None =>
        q.name == p.name && q.infoJson == p.infoJson && q.categories == p.categories
  {
    if entries != [] {
      var n := |entries|;
      var front := entries[..n - 1];
      ScanLast(p, entries, codecs);
      ScanLastInfoWins(p, front, codecs);
      StepInfo(Scan(p, front, codecs).value, entries[n - 1], codecs);
      if !IsInfo(entries[n - 1]) {
        assert LastWhere(entries, IsInfo) == LastWhere(front, IsInfo);
      }
    }
  }

  /** One step on a metadata entry sets name, metadata and categories from it; any other entry leaves them. */
  lemma StepInfo(state: (PluginRecord, bool), e: Entry, codecs: Codecs)
    requires Step(state, e, codecs).Success?
    ensures var q := Step(state, e, codecs).value.0;
      if IsInfo(e) then
        ReadMetadata(codecs.parseJson(e.data)).Success? &&
        var m := ReadMetadata(codecs.parseJson(e.data)).value;
        q.name == m.name && q.infoJson == m.json && q.categories == m.categories
      else
        q.name == state.0.name && q.infoJson == state.0.infoJson && q.categories == state.0.categories
  {
  }

  /** Last match wins for the icon: its URL is that of the last "/Icon.png" entry, resized to 128. */
  lemma {:induction false} ScanLastIconWins(p: PluginRecord, entries: seq<Entry>, codecs: Codecs)
    requires Scan(p, entries, codecs).Success?
    ensures var q := Scan(p, entries, codecs).value.0;
      match LastWhere(entries, IsIcon)
      case Some(i) => q.iconUrl == Some(codecs.resizeAndStore(entries[i].data, IconSize))
      case None => q.iconUrl == p.iconUrl
  {
    if entries != [] {
      var n := |entries|;
      var front := entries[..n - 1];
      ScanLastIconWins(p, front, codecs);
      if !IsIcon(entries[n - 1]) {
        assert LastWhere(entries, IsIcon) == LastWhere(front, IsIcon);
      }
    }
  }

  /** Last match wins for the screenshot: its URL is that of the last "/Screenshot.png" entry, resized to 800. */
  lemma {:induction false} ScanLastScreenshotWins(p: PluginRecord, entries: seq<Entry>, codecs: Codecs)
    requires Scan(p, entries, codecs).Success?
    ensures var q := Scan(p, entries, codecs).value.0;
      match LastWhere(entries, IsScreenshot)
      case Some(i) => q.screenshotUrl == Some(codecs.resizeAndStore(entries[i].data, ScreenshotSize))
      case None => q.screenshotUrl == p.screenshotUrl
  {
    if entries != [] {
      var n := |entries|;
      var front := entries[..n - 1];
      ScanLastScreenshotWins(p, front, codecs);
      if !IsScreenshot(entries[n - 1]) {
        assert LastWhere(entries, IsScreenshot) == LastWhere(front, IsScreenshot);
      }
    }
  }

  /** An archive without a metadata entry never fails and reports no metadata, whatever else it holds. */
  lemma NoInfoEntryMeansNotFound(p: PluginRecord, entries: seq<Entry>, codecs: Codecs)
    requires forall i :: 0 <= i < |entries| ==> !IsInfo(entries[i])
    ensures Scan(p, entries, codecs).Success? && !Scan(p, entries, codecs).value.1
  {
    ScanFailsOnBadMetadata(p, entries, codecs);
    ScanFindsInfo(p, entries, codecs);
  }
}
