# Flashlight plugin directory, modelled in Dafny

This project models the server side of the Flashlight plugin directory, the
App Engine application in `flashlightplugins/main.py`. It covers these parts:

- **Plugin upload** (`PostUploadHandler.post`). A developer uploads a plugin
  zip, either new or as an update selected by the plugin's secret. The
  archive's `info.json`, icon and screenshot are read into the plugin entity.
  The plugin gets a new secret and is stored. When the uploader is an
  administrator, or holds a valid console key, the plugin is approved. If an
  approved plugin of the same name already exists, it is retired and its
  download count is carried over.
- **Archive reading** (`read_plugin_info`). Archive members whose names end
  in `/info.json`, `/Icon.png` or `/Screenshot.png` set the plugin's
  metadata, its 128-pixel icon and its 800-pixel screenshot. A later member
  overrides an earlier one.
- **Localisation** (`language_suffixes`, `get_localized_key`). Each requested
  language tag is tried in turn, from the most specific form down to its
  primary subtag, followed by the bare key. The tag `en` maps to the bare
  key.
- **Regional grouping** (`arrays_overlap`, `locales_overlap`,
  `group_plugins`). When the browser names its languages, plugins whose
  preferred locales share no primary subtag with them go to a separate
  "Plugins for other regions" group. This also covers the `languages` query
  parameter of the directory page and its default.
- **Categories** (`compute_categories`). This is the set of categories of
  approved plugins.

## Modules

- `Wrappers`: `Option` and `Result`.
- `JsonValues`: parsed JSON values.
- `Text` and `Seqs`: the string and sequence operations the source relies on:
  - `rfind`, `endswith`, `split` and `join`;
  - first and last matching index, and list comprehension filtering.
- `Localization`: the suffix generator is a function `SuffixSequence`, with
  the generator's loop as the method `LanguageSuffixes` proved against it.
  `get_localized_key` is the method `GetLocalizedKey`, proved against
  `Localize`.
- `Grouping`: the locale overlap tests, `group_plugins` as `GroupPlugins`,
  and the parsing and defaulting of the directory's `languages` value.
- `Records`: the datastore and the plugin entity:
  - the stored plugin as a value `PluginRecord`;
  - the in-memory entity as the class `Plugin`, whose `Put` writes it back
    under its key;
  - the datastore as the class `Datastore`, holding a sequence of records
    and offering the queries the handler uses.
- `Archive`: `read_plugin_info`. It is the method `ReadPluginInfo`, which
  updates a `Plugin` in place. It is proved against `Scan`, a fold of `Step`
  over the archive members.
- `PostUploadHandler`: the upload request.
  - `Upload` is a function from the records before the request to the
    records after it and the response.
  - `PostUpload` is the imperative handler. It uses the datastore and entity
    classes and is proved to produce exactly `Upload`.
- `UploadProperties`: what an upload guarantees:
  - the error cases;
  - what is stored;
  - the secret rotation;
  - the take-over of an approved plugin of the same name;
  - the approved-name invariant;
  - the download-count finding below.

## Inputs and environment

These parts of the environment are parameters of the model:

- **Archive members.** The request carries the zip's members in `namelist()`
  order, as `Entry(name, data)` values. Unzipping and fetching the zip back
  from the blob store are not modelled.
- **Services (`Codecs`).**
  - `json.load` is `codecs.parseJson`, which returns a `Json` value or fails.
  - `resize_and_store` is `codecs.resizeAndStore(data, size)`, which returns
    the stored image's URL.
- **Values.**
  - the zip's URL (`'http://' + HTTP_HOST + '/serve/' + blob key`);
  - the zip's MD5 digest;
  - the fresh secret (`base64.b64encode(os.urandom(128))`);
  - whether the current user is an administrator;
  - whether the console key is live in memcache. The key itself is in the
    request, so the source's truthiness test on it is modelled.

## Behaviour of the code worth knowing

The model follows the code as written. Where the effect differs from what the
surrounding code evidently aims at, the list says so:

- **Name collisions drop plugins.** Line 166 puts a plugin among the other
  regions only when it states `preferred_locales`, so a plugin without them
  is meant to be shown natively. Line 168, however, selects the native
  plugins by name. A plugin without `preferred_locales` therefore appears in
  neither group when it shares its name with a plugin for other regions
  (`Grouping.SharedNameDropsPlugin`). With unique names, every plugin that is
  not for other regions is shown in the unlabelled group
  (`Grouping.NativeGroupShown`).
- **English is always accepted.** Line 219 appends `en` to any `languages`
  parameter. A plugin whose preferred locales include any `en` tag is
  therefore never placed among the other regions, even when the browser
  asked only for `fr` (`Grouping.EnglishNeverOtherRegions`).
- **Approval survives an update without approval.** Line 114 loads the
  plugin together with its approval, and line 144 stores it back with that
  approval. An update by an ordinary uploader therefore leaves an approved
  plugin approved, with its new and unreviewed contents
  (`UploadProperties.PlainUploadChangesOnlyItself`). Without approval, an
  update keeps the approval its record had; only a new upload is then always
  stored unapproved. Line 151 nonetheless omits the approval note for every
  update, also for a plugin still awaiting approval.
- **"At most one approved plugin per name" is not always kept.** Lines
  136-143 retire the approved plugin of the same name, evidently so that a
  name has one approved plugin. Approved uploads and new unapproved uploads
  keep this. An update without approval may rename an approved plugin to
  the name of another approved plugin, and that breaks it
  (`UploadProperties.PlainRenameBreaksNamesUnique`).
- **Downloads are not always conserved.** Lines 139-142 move the retired
  plugin's downloads to the new one, evidently to keep the count. The code
  breaks this in the case listed under "## Findings".

## Model

| member | source | states |
|---|---|---|
| Localization.Suffix | flashlightplugins/main.py:86 | the suffix of a tag is empty exactly when the tag is `en` |
| Localization.CutLast | flashlightplugins/main.py:87-88 | for a tag containing `-`, the result is the part before the last `-`: one `-` fewer and strictly shorter |
| Localization.Candidates | flashlightplugins/main.py:85-90 | the forms tried for one tag are non-empty and start with the tag itself |
| Localization.CandidateIsPrefix | flashlightplugins/main.py:85-90 | every form tried for a tag is a prefix of the tag |
| Localization.CandidateShrinks | flashlightplugins/main.py:87-88 | each further form is strictly shorter than the one before and is cut just before a `-` of the tag |
| Localization.LastCandidateIsPrimary | flashlightplugins/main.py:87-90 | the inner loop stops at the first form without a `-`, the primary subtag |
| Localization.CandidateCount | flashlightplugins/main.py:85-90 | a tag with n hyphens yields exactly n+1 forms |
| Localization.CutIsCandidate | flashlightplugins/main.py:85-90 | every prefix of the tag that ends just before a `-` is tried |
| Localization.OneTagSuffixes | flashlightplugins/main.py:83-91 | for one tag, the generator yields one suffix per form, in order from longest to shortest, then the bare suffix |
| Localization.SuffixSequenceSplits | flashlightplugins/main.py:84-91 | the forms tried for a list of languages are those of its first k languages followed by those of the rest, so languages are tried in request order; the last suffix is `''` |
| Localization.LanguageSuffixes | flashlightplugins/main.py:83-91 | the loop over languages and their shortened forms yields exactly `SuffixSequence(languages)` |
| Localization.SuffixSequence | flashlightplugins/main.py:83-91 | the suffixes `language_suffixes` yields, as a sequence; specified by `LanguageSuffixes`, `OneTagSuffixes`, `SuffixSequenceSplits` and the candidate lemmas |
| Localization.FirstPresent | flashlightplugins/main.py:95-97 | finds the first suffix whose key is in the dictionary, with no earlier suffix present; or reports that none is present |
| Localization.GetLocalizedKey | flashlightplugins/main.py:94-99 | the early-return loop's result equals `Localize` |
| Localization.Localize | flashlightplugins/main.py:94-99 | `get_localized_key` as a function; specified by `LocalizeFirstMatch` and `BareKeyWins` |
| Localization.LocalizeFirstMatch | flashlightplugins/main.py:94-99 | the result is the dictionary's value for the first present key in suffix order, or the default exactly when no such key is present |
| Localization.BareKeyWins | flashlightplugins/main.py:91 | when the bare key is present, the default is never returned and the result is one of the dictionary's values |
| Localization.SuffixSequenceExample | flashlightplugins/main.py:83-91 | `["en-GB", "fr"]` yields `_en-GB`, `''`, `_fr`, `''`; the `en` primary subtag maps to the bare key |
| Localization.EnGBCandidates | flashlightplugins/main.py:85-90 | `en-GB` is tried as `en-GB`, then `en` |
| Localization.LocalizeRegionalExample | flashlightplugins/main.py:94-99 | a regional key is preferred to the bare key |
| Localization.LocalizeBareExample | flashlightplugins/main.py:94-99 | with no localised key, the bare key is used |
| Localization.LocalizeDefaultExample | flashlightplugins/main.py:94-99 | with no matching key, the default is returned |
| Grouping.PrimarySubtagIsLeadingPart | flashlightplugins/main.py:161 | `locale.split('-')[0]` is a prefix of the locale without `-`; it is either the whole locale or followed by `-` |
| Grouping.PrimarySubtag | flashlightplugins/main.py:161 | `locale.split('-')[0]`; specified by `PrimarySubtagIsLeadingPart` |
| Grouping.CommonCount | flashlightplugins/main.py:158 | the length of the comprehension in `arrays_overlap`; specified by `ArraysOverlapIff` |
| Grouping.ArraysOverlapIff | flashlightplugins/main.py:157-158 | the count of elements of the first list found in the second is positive iff some element is in both |
| Grouping.ArraysOverlap | flashlightplugins/main.py:157-158 | `arrays_overlap`; specified by `ArraysOverlapIff` |
| Grouping.LocalesOverlapIff | flashlightplugins/main.py:160-162 | two locale lists overlap iff some locale of each has the same primary subtag |
| Grouping.LocalesOverlapSymmetric | flashlightplugins/main.py:160-162 | locale overlap does not depend on argument order |
| Grouping.LocalesOverlap | flashlightplugins/main.py:160-162 | `locales_overlap`; specified by `LocalesOverlapIff` and `LocalesOverlapSymmetric` |
| Grouping.ForOtherRegions | flashlightplugins/main.py:166 | the condition of the first comprehension; specified by `OtherRegionsGroupExact` and `NoLocalesNeverOtherRegions` |
| Grouping.OtherRegionPlugins | flashlightplugins/main.py:166 | the plugins for other regions; specified by `OtherRegionsGroupExact` and `OtherRegionsCount` |
| Grouping.OtherRegionNames | flashlightplugins/main.py:167 | the names of the plugins for other regions; used by `NativeCount` and `SharedNameDropsPlugin` |
| Grouping.NativePlugins | flashlightplugins/main.py:168 | the plugins whose name no plugin for other regions has; specified by `NativeCount`, `NativePluginsExact` and `SharedNameDropsPlugin` |
| Grouping.NonEmptyGroups | flashlightplugins/main.py:175 | the groups that have plugins; specified by `NonEmptyGroupsOfTwo` |
| Grouping.NonEmptyGroupsOfTwo | flashlightplugins/main.py:175 | of the two candidate groups, exactly those with plugins are kept, in order |
| Grouping.GroupPlugins | flashlightplugins/main.py:164-175 | `group_plugins`; specified by `GroupingUnspecified`, `GroupingSpecifiedExact` and the group lemmas below |
| Seqs.Filter | flashlightplugins/main.py:166-168 | the list comprehensions: every result element is in the input and satisfies the condition, every input element satisfying it is kept, and the order is kept |
| Seqs.FilterCount | flashlightplugins/main.py:166-168 | a comprehension keeps each element satisfying the condition exactly as often as it occurs, and no other |
| Grouping.GroupingUnspecified | flashlightplugins/main.py:173-175 | without specified languages, the only group is all plugins, or there is no group when there are no plugins |
| Grouping.GroupingSpecifiedShape | flashlightplugins/main.py:164-175 | with languages, the groups are the native group, then the other-regions group with its header and CSS class; each appears only when non-empty |
| Grouping.GroupingSpecifiedExact | flashlightplugins/main.py:164-175 | with languages, the result is exactly the native group when it has plugins, followed by the other-regions group with its header and class when it has plugins |
| Grouping.OtherRegionsNotNative | flashlightplugins/main.py:166-168 | no plugin that is for other regions is listed as native |
| Grouping.OtherRegionsGroupExact | flashlightplugins/main.py:166 | a plugin is in the other-regions list iff it states preferred locales that do not overlap the languages |
| Grouping.OtherRegionsCount | flashlightplugins/main.py:166 | the other-regions list holds each plugin for other regions as often as the input does, and no other plugin |
| Grouping.NativeCount | flashlightplugins/main.py:167-168 | the native list holds each plugin whose name no plugin for other regions has, as often as the input does, and no other plugin |
| Grouping.OtherRegionsGroupPresent | flashlightplugins/main.py:166-175 | the other-regions group is shown iff some plugin is for other regions |
| Grouping.NoLocalesNeverOtherRegions | flashlightplugins/main.py:166 | a plugin without preferred locales is never for other regions |
| Grouping.NativePluginsExact | flashlightplugins/main.py:166-168 | with unique names, a plugin is in the native list iff it is in the input and not for other regions |
| Grouping.NativeGroupExact | flashlightplugins/main.py:166-170 | with unique names, the unlabelled group, when shown, holds exactly the plugins that are not for other regions |
| Grouping.NativeGroupShown | flashlightplugins/main.py:166-175 | with unique names, every plugin that is not for other regions is shown in the unlabelled group |
| Grouping.SharedNameDropsPlugin | flashlightplugins/main.py:167-168 | a plugin without locales, sharing its name with a plugin for other regions, is in neither group |
| Grouping.ParseLanguagesShape | flashlightplugins/main.py:219 | the parsed list has one entry per comma plus one, plus a final `en`; no entry has a comma; joining the entries gives the parameter back |
| Grouping.ParseLanguages | flashlightplugins/main.py:219 | the parse of the `languages` parameter; specified by `ParseLanguagesShape` and `ParseJoinedLanguages` |
| Grouping.ParseJoinedLanguages | flashlightplugins/main.py:219 | comma-free tags joined with commas into a non-empty parameter are parsed back in order, with `en` appended |
| Grouping.EnglishNeverOtherRegions | flashlightplugins/main.py:219 | with a `languages` parameter, a plugin preferring any `en` locale is never for other regions |
| Grouping.DirectoryWithoutLanguages | flashlightplugins/main.py:179-181 | without a `languages` parameter, the languages are `['en']` and the plugins form a single ungrouped group |
| Grouping.DirectoryLanguages | flashlightplugins/main.py:179-181 | no parsed list means `['en']` and languages not specified; specified by `DirectoryWithoutLanguages` |
| Grouping.DirectoryGroups | flashlightplugins/main.py:179-181 | the groups shown for a `languages` parameter; specified by `DirectoryWithoutLanguages` and `EnglishNeverOtherRegions` |
| Records.Plugin.constructor | flashlightplugins/main.py:117 | a new entity has no key, no downloads and is not approved |
| Records.Plugin.Load | flashlightplugins/main.py:114 | an entity loaded from a record holds exactly that record's values, under its key; used by `QueryBySecret` and `ByName` |
| Records.Plugin.Put | flashlightplugins/main.py:144 | writes the entity over its record, or appends it and assigns it the new key; other records are unchanged |
| Records.Plugin.Disable | flashlightplugins/main.py:141 | the record is stored unapproved; nothing else changes |
| Records.Plugin.Enable | flashlightplugins/main.py:146 | the record is stored approved; nothing else changes |
| Records.FindBySecret | flashlightplugins/main.py:107-114 | the first record with the secret, or no record has it |
| Records.FindApprovedByName | flashlightplugins/main.py:137 | the first approved record with the name, or no approved record has it |
| Records.Datastore.QueryBySecret | flashlightplugins/main.py:107-114 | returns a fresh entity loaded from the first record with the secret, under its key; returns null when no record has it |
| Records.Datastore.ByName | flashlightplugins/main.py:137 | returns a fresh entity loaded from the first approved record with the name, or null |
| Records.Datastore.ComputeCategories | flashlightplugins/main.py:235-240 | a category is in the result iff some approved record lists it |
| Archive.RoleOf | flashlightplugins/main.py:69-80 | the `if`/`elif` chain on the member name; specified by `RoleBySuffix` |
| Archive.RoleBySuffix | flashlightplugins/main.py:69-80 | a member is the metadata, the icon or the screenshot exactly when its name ends in that role's suffix, whatever the order of the tests |
| Archive.ReadMetadata | flashlightplugins/main.py:70-73 | takes the name and JSON from the parsed `info.json`; categories default to `["Other"]`; a missing or non-string name, non-string categories, or unparsable JSON is an error |
| Archive.Step | flashlightplugins/main.py:68-80 | one turn of the loop; specified by `StepFlags` and `StepInfo` |
| Archive.Scan | flashlightplugins/main.py:64-81 | the loop over all members; `ReadPluginInfo` is proved equal to it, and the `Scan` lemmas below specify it |
| Archive.ReadPluginInfo | flashlightplugins/main.py:64-81 | the loop's effect on the entity and its result equal `Scan`; on error, the error is returned |
| Archive.ScanOnlySetsRoleFields | flashlightplugins/main.py:68-80 | reading an archive changes only the name, info, categories, icon and screenshot |
| Archive.ScanFindsInfo | flashlightplugins/main.py:67-81 | a successful read reports `True` iff some member ends in `/info.json` |
| Archive.ScanFailsOnBadMetadata | flashlightplugins/main.py:69-73 | the read fails iff some `/info.json` member's metadata is invalid |
| Archive.ScanErrorIsFirstBadInfo | flashlightplugins/main.py:68-73 | a failed read reports the error of the first `/info.json` member whose metadata is invalid |
| Archive.ScanLastInfoWins | flashlightplugins/main.py:69-73 | the stored name, info and categories come from the last `/info.json` member |
| Archive.ScanLastIconWins | flashlightplugins/main.py:75-77 | the icon URL is that of the last `/Icon.png` member, resized to 128, or the old one when there is none |
| Archive.ScanLastScreenshotWins | flashlightplugins/main.py:78-80 | the screenshot URL is that of the last `/Screenshot.png` member, resized to 800, or the old one when there is none |
| Archive.NoInfoEntryMeansNotFound | flashlightplugins/main.py:67-81 | an archive with no `/info.json` member is read without error and reports `False` |
| PostUploadHandler.Authorized | flashlightplugins/main.py:134-135 | an administrator, or a non-empty console key that is live; used by `AdminUploadTakesOver`, `PlainUploadChangesOnlyItself` and the other approval lemmas |
| PostUploadHandler.Lookup | flashlightplugins/main.py:104-115 | a non-empty secret selects the first record with it; an index it returns is in range; specified by `UnknownSecretIff` and `UploadStoresPlugin` |
| PostUploadHandler.Base | flashlightplugins/main.py:104-117 | the plugin as loaded by the secret, or a new one; specified by `ScannedKeepsBase` |
| PostUploadHandler.Scanned | flashlightplugins/main.py:118-121 | the selected plugin with the new zip URL, read from the archive; specified by `ScannedKeepsBase` and the `Scan` lemmas |
| PostUploadHandler.Stamp | flashlightplugins/main.py:129-132 | the new secret, the notes and the digest; specified by `UploadStoresPlugin` and `UploadSecrets` |
| PostUploadHandler.Retired | flashlightplugins/main.py:141-142 | the rival disabled with no downloads; used by `AdminUploadTakesOver` |
| PostUploadHandler.TakenOver | flashlightplugins/main.py:134-138 | only an approved upload takes over a record, and that record is the first approved one with the plugin's name |
| PostUploadHandler.Committed | flashlightplugins/main.py:134-146 | the records after the stamped plugin is stored, and its key; specified by `CommittedEffect` |
| PostUploadHandler.Received | flashlightplugins/main.py:118-146 | the request from the zip URL on; specified by `MissingInfoIff`, `BadPackageIff` and `UploadStoresPlugin` |
| PostUploadHandler.UploadFlow | flashlightplugins/main.py:103-146 | the whole request, with or without the self-collision; specified by the `UploadProperties` lemmas |
| PostUploadHandler.Upload | flashlightplugins/main.py:103-146 | the request as written; `PostUpload` is proved equal to it, and `SelfCollisionDoublesDownloads` shows its flaw |
| PostUploadHandler.UploadIntended | flashlightplugins/main.py:103-146 | the corrected request; specified by `IntendedUploadConservesDownloads` and `UploadDiffersOnlyOnSelfCollision` |
| PostUploadHandler.PostUpload | flashlightplugins/main.py:103-146 | the handler's effect on the datastore and its response equal `Upload` |
| PostUploadHandler.ReceiveUpload | flashlightplugins/main.py:118-146 | from the entity selected or created on, the effect equals `Received` |
| PostUploadHandler.ReadUpload | flashlightplugins/main.py:118-125 | sets the zip URL, then reads the archive into the entity; the error or missing-info outcome matches `Scan` |
| PostUploadHandler.SaveUpload | flashlightplugins/main.py:134-146 | the stores of the take-over, the plugin and its approval give `Committed` |
| PostUploadHandler.TakeOver | flashlightplugins/main.py:139-143 | adds the rival's downloads to the plugin, stores the plugin, then stores the rival disabled with no downloads |
| PostUploadHandler.Publish | flashlightplugins/main.py:144-146 | stores the plugin, approved when the uploader is authorised |
| UploadProperties.CommittedEffect | flashlightplugins/main.py:134-146 | record by record: the plugin's new record, the retired rival and every other record unchanged |
| UploadProperties.ScannedKeepsBase | flashlightplugins/main.py:118-121 | an upload keeps the selected plugin's downloads, approval and secret until they are stamped; the zip URL is the new one |
| UploadProperties.FailedUploadChangesNothing | flashlightplugins/main.py:106-125 | a failed upload leaves the datastore unchanged |
| UploadProperties.UnknownSecretIff | flashlightplugins/main.py:106-112 | the upload fails for the secret iff a non-empty secret matches no record |
| UploadProperties.MissingInfoIff | flashlightplugins/main.py:121-125 | with an accepted secret, the upload fails for missing info iff the archive reads without error and has no `/info.json` member |
| UploadProperties.BadPackageIff | flashlightplugins/main.py:121 | with an accepted secret, the upload fails for a malformed package iff some `/info.json` member's metadata is invalid; the reason given is the error of the first such member |
| UploadProperties.UploadStoresPlugin | flashlightplugins/main.py:104-144 | a success is an update iff a secret was given. The plugin is stored under the secret's record, or appended. It carries the new secret, notes, digest and zip URL, and the name, info and categories read from the archive. |
| UploadProperties.NewSecretSelectsUpload | flashlightplugins/main.py:129 | after a success, the fresh secret selects exactly the uploaded plugin |
| UploadProperties.OldSecretRevoked | flashlightplugins/main.py:129 | when the secrets were pairwise distinct and the fresh secret differs from the old one, after an update the old secret selects no plugin |
| UploadProperties.SecretsStayUnique | flashlightplugins/main.py:129 | with a fresh secret, the secrets stay pairwise distinct |
| UploadProperties.AdminUploadTakesOver | flashlightplugins/main.py:134-146 | an approved upload colliding with another approved plugin of its name does two things. It retires that plugin with no downloads. It stores itself approved with both download counts, leaving every other record unchanged. |
| UploadProperties.AdminUploadWithoutRival | flashlightplugins/main.py:134-146 | without a rival, an approved upload changes only its own record, and stores it approved |
| UploadProperties.PlainUploadChangesOnlyItself | flashlightplugins/main.py:144 | an upload without approval changes only its own record and keeps its approval and downloads; a new one is stored unapproved with no downloads |
| UploadProperties.AdminUploadKeepsNamesUnique | flashlightplugins/main.py:136-146 | approved uploads keep the approved names pairwise distinct |
| UploadProperties.PlainNewUploadKeepsNamesUnique | flashlightplugins/main.py:117-144 | new unapproved uploads keep the approved names pairwise distinct |
| UploadProperties.PlainRenameBreaksNamesUnique | flashlightplugins/main.py:121-144 | an unapproved update renaming an approved plugin to another approved plugin's name leaves two approved plugins with that name |
| UploadProperties.SelfCollisionDoublesDownloads | flashlightplugins/main.py:137-144 | when the approved rival is the record being updated, its downloads double and the total grows by that count |
| UploadProperties.SelfCollisionExample | flashlightplugins/main.py:137-144 | an administrator re-uploading the approved plugin `clock` (5 downloads) under its own secret leaves it with 10 downloads |
| UploadProperties.IntendedUploadConservesDownloads | flashlightplugins/main.py:137-144 | with the self-collision excluded, every upload leaves the total download count unchanged |
| UploadProperties.UploadDiffersOnlyOnSelfCollision | flashlightplugins/main.py:137-143 | the upload as written and the corrected one differ only for an approved update whose rival is its own record |

## Left out

- Zip decoding, `urllib2.urlopen` of the zip's own blob URL, and the blob
  store: the archive members are given in the request, in `namelist()`
  order.
- Archive.Step: archive members with repeated names are not modelled as the
  source reads them. The source's `archive.open(name)` reads the last member
  of that name for every occurrence. The model reads each member's own
  bytes. The last member of a name is read alike in both. An earlier member
  of a repeated name can therefore fail in the model but not in the source.
  So `ScanFailsOnBadMetadata`, `ScanErrorIsFirstBadInfo` and `BadPackageIff`
  describe the source only for archives whose member names are distinct.
- `json.load`, image resizing and file storage: these are the `Codecs`
  parameters. Failures of the image service are not modelled, since
  `resizeAndStore` is total.
- Grouping.PluginInfo: `preferred_locales`, when present, is taken to be a
  list of strings. A `null` value (which raises at line 162) or a string
  (which line 161 iterates character by character) is not modelled.
- Archive.ReadMetadata: the stored `info_json` is the parsed value rather
  than its `json.dumps` text. JSON numbers are integers.
- Archive.ReadMetadata: a name that is not a string, or categories that are
  not a list of strings, are taken to be errors. This assumes the entity's
  property validation rejects them. A `null` category list is one such error.
- Property validation is not modelled elsewhere.
- PostUploadHandler.UploadError.BadPackage: stands for an exception the
  handler does not catch. It may be a `ValueError` from `json.load`, a
  `KeyError` or `TypeError` from `data['name']`, or the assumed validation
  error. The request then ends with a server error, not with a message on
  the upload form.
- `os.environ['HTTP_HOST']`, `hashlib.md5`, `os.urandom` and `base64`:
  the zip URL, the digest and the fresh secret are inputs.
- `users.is_current_user_admin()` and the memcache console-key lookup: the
  lookup's result is an input.
- A request without an uploaded zip (`get_uploads('zip')[0]` raising) is not
  modelled; every request carries one.
- Responses: the upload form, the templates and their messages, and the JSON
  reply for console uploads. The response is modelled as the upload's key and
  whether it was an update, or the error.
- The model's `Plugin.by_name` takes the first approved record with the name.
  Enable and disable set `approved` and store the entity. Query results come
  in storage order. `model.py` is not part of this model.
- Each request runs alone. Concurrent requests, transactions and ndb's entity
  cache are not modelled.
- In `directory_html`, the query that chooses the plugins is not modelled:
  by category, by search, by name, `stable_daily_shuffle`, and
  `search_plugins`. The plugin dictionaries are inputs of `GroupPlugins`.
- `info_dict_for_plugin`, `urlencode`, and the memcache caching in
  `categories()` are not core.
- The other handlers are not core: `LatestDownload`, `GenerateConsoleKey`,
  `ConsoleUpload`, `ServeHandler`, `LogInstall`, `BrowseHandler`,
  `PluginPageHandler` and `Login`.
- Strings are sequences of characters; Python 2's byte and Unicode strings
  are not distinguished.

## Findings

| source | as written | input that shows it | evidently intended | confidence | as-written member | corrected member |
|---|---|---|---|---|---|---|
| flashlightplugins/main.py:137-144 | With approval, `Plugin.by_name(plugin.name)` can return the record being updated. Its downloads are then added to the plugin's own count. The retired copy is then overwritten by `plugin.put()`. | An administrator re-uploads the approved plugin `clock`, which has 5 downloads, under its own secret. The plugin ends with 10 downloads. | A plugin is not its own rival. The downloads move from the retired plugin to the new one, and the total stays the same. | not executed | UploadProperties.SelfCollisionDoublesDownloads | UploadProperties.IntendedUploadConservesDownloads |

The model treats the two query results as separate entity objects. If the
datastore returned the same object twice, the final stored count would be
zero instead of doubled. In neither case is the total conserved.
`PostUploadHandler.UploadIntended` is the corrected request, and
`UploadProperties.UploadDiffersOnlyOnSelfCollision` shows the two requests
agree everywhere else.
