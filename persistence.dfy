/** Loading the asset manifest, merging it with the saved download state, the record <-> JSON
    layer of the state file, and the statistics and filters over a list of records. */
module Persistence {
  import opened Wrappers
  import opened Strings
  import opened Models

  /* ---------------------------------------------------------------- manifest text */

  /** The manifest text tidied before parsing: white space stripped, then the commas tidied. */
  function CleanManifest(text: string): string
  {
    TidyCommas(Strip(text))
  }

  /** `t.endswith(",")`. */
  predicate EndsInComma(t: string) {
    |t| >= 1 && t[|t| - 1] == ','
  }

  /** `t.endswith(",}")`. */
  predicate EndsInCommaBrace(t: string) {
    |t| >= 2 && t[|t| - 2] == ',' && t[|t| - 1] == '}'
  }

  /** A trailing ",}" becomes "}", or else a single trailing "," is dropped. */
  function TidyCommas(t: string): (r: string)
  {
    if EndsInCommaBrace(t) then t[..|t| - 2] + "}"
    else if EndsInComma(t) then t[..|t| - 1]
    else t
  }

  /** The tidying removes one comma at most: putting it back gives the text again. */
  lemma TidyRemovesOneComma(t: string)
    ensures var r := TidyCommas(t);
            r == t || t == r + "," || (r != [] && t == r[..|r| - 1] + ",}")
    ensures TidyCommas(t) == t <==> !EndsInComma(t) && !EndsInCommaBrace(t)
  {
    var r := TidyCommas(t);
    if EndsInCommaBrace(t) {
      assert r[..|r| - 1] == t[..|t| - 2];
      assert t == t[..|t| - 2] + ",}";
    } else if EndsInComma(t) {
      assert t == t[..|t| - 1] + ",";
    }
  }

  /** Stripped text that does not end in a comma or ",}" is parsed as it is. */
  lemma CleanManifestKeepsWellFormed(text: string)
    requires text == [] || (!IsSpace(text[0]) && !IsSpace(text[|text| - 1]))
    requires !EndsInComma(text) && !EndsInCommaBrace(text)
    ensures CleanManifest(text) == text
  {
    assert Strip(text) == text by {
      StripStripped(text);
    }
  }

  /** An object closed with a dangling comma, `{...,}`, loses exactly that comma. */
  lemma CleanManifestDanglingComma(t: string)
    requires EndsInCommaBrace(t) && !IsSpace(t[0])
    ensures CleanManifest(t) == t[..|t| - 2] + "}"
  {
    assert Strip(t) == t by {
      StripStripped(t);
    }
  }

  /** A text that ends in a comma (and does not start with white space) loses exactly that
      comma. */
  lemma CleanManifestTrailingComma(t: string)
    requires EndsInComma(t) && !IsSpace(t[0])
    ensures CleanManifest(t) == t[..|t| - 1]
  {
    assert Strip(t) == t by {
      StripStripped(t);
    }
  }

  /** The manifest, once parsed: its (filename, md5) entries in file order. Python's `json`
      module keeps object members in order, and each filename occurs once. */
  type Manifest = seq<(string, string)>

  const MappingError := "加载文件映射失败: "

  /** `load_file_mapping`: `content` is what reading the manifest file gave (or the error it
      raised) and `parse` stands for `json.loads` followed by `.items()`. Each entry becomes a
      new pending record, in manifest order; any failure is reported with the mapping-error
      prefix. */
  method LoadFileMapping(content: Result<string, string>, parse: string -> Result<Manifest, string>)
    returns (r: Result<seq<FileItem>, string>)
    ensures content.Err? ==> r == Err(MappingError + content.error)
    ensures content.Ok? && parse(CleanManifest(content.value)).Err? ==>
              r == Err(MappingError + parse(CleanManifest(content.value)).error)
    ensures content.Ok? && parse(CleanManifest(content.value)).Ok? ==>
              r.Ok? && var m := parse(CleanManifest(content.value)).value;
              |r.value| == |m|
              && forall i :: 0 <= i < |m| ==>
                   (r.value[i].filename == m[i].0 && r.value[i].md5 == m[i].1
                    && fresh(r.value[i]) && IsFreshRecord(r.value[i]))
  {
    if content.Err? {
      return Err(MappingError + content.error);
    }
    var parsed := parse(CleanManifest(content.value));
    if parsed.Err? {
      return Err(MappingError + parsed.error);
    }
    var items := NewRecords(parsed.value);
    return Ok(items);
  }

  /** The loop of `load_file_mapping`: one new pending record per manifest entry, in order. */
  method NewRecords(m: Manifest) returns (items: seq<FileItem>)
    ensures |items| == |m|
    ensures forall i :: 0 <= i < |m| ==>
              (items[i].filename == m[i].0 && items[i].md5 == m[i].1 && fresh(items[i]) && IsFreshRecord(items[i]))
  {
    items := [];
    ghost var made: set<FileItem> := {};
    var i := 0;
    while i < |m|
      invariant 0 <= i <= |m| && |items| == i
      invariant fresh(made) && forall j :: 0 <= j < i ==> items[j] in made
      invariant NewRecordsFor(m, map[], items)
    {
      var item := NewRecord(m[i]);
      NewRecordsForStep(m, map[], items, item);
      items, made := items + [item], made + {item};
      i := i + 1;
    }
  }

  /** `FileItem(filename, md5)` for a manifest entry, seen through the fields the loops use. */
  method NewRecord(entry: Key) returns (item: FileItem)
    ensures fresh(item) && item.filename == entry.0 && item.md5 == entry.1 && IsFreshRecord(item)
  {
    item := new FileItem(entry.0, entry.1);
  }

  /** A record as `FileItem(filename, md5)` creates it. */
  predicate IsFreshRecord(item: FileItem)
    reads item
  {
    item.status == Pending && item.progress == 0.0 && item.size == None && item.downloadedSize == 0
    && item.localPath == None && item.errorMessage == None && item.downloadUrl == None
    && item.mtime == None && !item.diskVerified && item.lastChecked == None
    && item.cacheVersion == DefaultCacheVersion
  }

  /* ---------------------------------------------------------------- state diff */

  type Key = (string, string)

  function KeyOf(item: FileItem): Key {
    (item.filename, item.md5)
  }

  /** The saved records, keyed by (filename, md5); a later record replaces an earlier one with
      the same key. */
  function PriorIndex(saved: seq<FileItem>): (r: map<Key, FileItem>)
    ensures forall i :: 0 <= i < |saved| ==> KeyOf(saved[i]) in r
    ensures forall k :: k in r ==> KeyOf(r[k]) == k && r[k] in saved
    ensures forall i :: 0 <= i < |saved| && (forall j :: i < j < |saved| ==> KeyOf(saved[j]) != KeyOf(saved[i]))
                        ==> r[KeyOf(saved[i])] == saved[i]
  {
    if saved == [] then map[]
    else
      var init := saved[..|saved| - 1];
      var last := saved[|saved| - 1];
      assert forall i :: 0 <= i < |init| ==> init[i] == saved[i];
      PriorIndex(init)[KeyOf(last) := last]
  }

  /** How a manifest entry relates to the saved state. */
  datatype EntryKind = Existing | Updated | New

  /** An entry is existing when its (filename, md5) was saved, updated when only its filename
      was saved (with another hash), and new otherwise. */
  function Classify(index: map<Key, FileItem>, entry: Key): EntryKind {
    if entry in index then Existing
    else if exists k :: k in index && k.0 == entry.0 then Updated
    else New
  }

  function ManifestKeys(m: Manifest): set<Key> {
    set i | 0 <= i < |m| :: m[i]
  }

  /** The counts `load_file_mapping_with_state_diff` reports. */
  datatype DiffInfo = DiffInfo(newFiles: nat, existing: nat, updated: nat, removed: nat)
  {
    /** The counts with one more entry of `kind`. */
    function Counted(kind: EntryKind): DiffInfo {
      match kind
      case Existing => this.(existing := existing + 1)
      case Updated => this.(updated := updated + 1)
      case New => this.(newFiles := newFiles + 1)
    }
  }

  /** The entries of each kind among the first `n` of the manifest, nothing removed yet. */
  function Tally(index: map<Key, FileItem>, m: Manifest, n: nat): (r: DiffInfo)
    requires n <= |m|
    ensures r.removed == 0
  {
    if n == 0 then DiffInfo(0, 0, 0, 0) else Tally(index, m, n - 1).Counted(Classify(index, m[n - 1]))
  }

  /** Every entry has exactly one kind, so the three counts add up to the number of entries. */
  lemma {:induction false} TallySum(index: map<Key, FileItem>, m: Manifest, n: nat)
    requires n <= |m|
    ensures Tally(index, m, n).existing + Tally(index, m, n).updated + Tally(index, m, n).newFiles == n
  {
    if n > 0 {
      TallySum(index, m, n - 1);
    }
  }

  /** No entry is counted as existing exactly when none of them was saved. */
  lemma {:induction false} TallyNoExisting(index: map<Key, FileItem>, m: Manifest, n: nat)
    requires n <= |m|
    ensures Tally(index, m, n).existing == 0 <==> forall j :: 0 <= j < n ==> m[j] !in index
  {
    if n > 0 {
      TallyNoExisting(index, m, n - 1);
    }
  }

  /** The merge loop of `load_file_mapping_with_state_diff` against `index`, the saved records
      keyed by (filename, md5): one record per manifest entry, in manifest order; a saved record
      is reused as it is when its (filename, md5) matches, and every other entry gets a new
      pending record. `removed` counts the saved keys that are no longer in the manifest. */
  method MergeWithState(m: Manifest, index: map<Key, FileItem>) returns (merged: seq<FileItem>, diff: DiffInfo)
    ensures |merged| == |m|
    ensures forall i :: 0 <= i < |m| && m[i] in index ==> merged[i] == index[m[i]]
    ensures forall i :: 0 <= i < |m| && m[i] !in index ==>
              fresh(merged[i]) && merged[i].filename == m[i].0 && merged[i].md5 == m[i].1 && IsFreshRecord(merged[i])
    ensures diff == Tally(index, m, |m|).(removed := |index.Keys - ManifestKeys(m)|)
    ensures diff.existing + diff.updated + diff.newFiles == |m|
  {
    merged := [];
    var tally := DiffInfo(0, 0, 0, 0);
    ghost var made: set<FileItem> := {};
    var i := 0;
    while i < |m|
      invariant 0 <= i <= |m| && |merged| == i
      invariant fresh(made) && Placed(m, index, merged, made)
      invariant NewRecordsFor(m, index, merged)
      invariant tally == Tally(index, m, i)
    {
      var item, kind := MergeEntry(index, m[i]);
      NewRecordsForStep(m, index, merged, item);
      ghost var made' := if m[i] in index then made else made + {item};
      PlacedStep(m, index, merged, made, made', item);
      merged, made := merged + [item], made';
      tally := tally.Counted(kind);
      i := i + 1;
    }
    TallySum(index, m, |m|);
    var removed := CountRemoved(index.Keys, ManifestKeys(m));
    diff := tally.(removed := removed);
  }

  /** Each record of `merged` is the saved record of its entry, or one of `made`. */
  predicate Placed(m: Manifest, index: map<Key, FileItem>, merged: seq<FileItem>, made: set<FileItem>) {
    forall j :: 0 <= j < |merged| && j < |m| ==>
      (m[j] in index ==> merged[j] == index[m[j]]) && (m[j] !in index ==> merged[j] in made)
  }

  lemma PlacedStep(m: Manifest, index: map<Key, FileItem>, merged: seq<FileItem>, made: set<FileItem>,
                   made': set<FileItem>, item: FileItem)
    requires |merged| < |m| && Placed(m, index, merged, made) && made <= made'
    requires m[|merged|] in index ==> item == index[m[|merged|]]
    requires m[|merged|] !in index ==> item in made'
    ensures Placed(m, index, merged + [item], made')
  {
  }

  /** The records of `merged` made for entries of `m` that were not saved are pending records
      for those entries. */
  predicate NewRecordsFor(m: Manifest, index: map<Key, FileItem>, merged: seq<FileItem>)
    reads merged
  {
    forall j :: 0 <= j < |merged| && j < |m| && m[j] !in index ==>
      merged[j].filename == m[j].0 && merged[j].md5 == m[j].1 && IsFreshRecord(merged[j])
  }

  lemma NewRecordsForStep(m: Manifest, index: map<Key, FileItem>, merged: seq<FileItem>, item: FileItem)
    requires |merged| < |m| && NewRecordsFor(m, index, merged)
    requires m[|merged|] !in index ==> item.filename == m[|merged|].0 && item.md5 == m[|merged|].1 && IsFreshRecord(item)
    ensures NewRecordsFor(m, index, merged + [item])
  {
  }

  /** One step of the merge: the record kept for a manifest entry, and the entry's kind. */
  method MergeEntry(index: map<Key, FileItem>, entry: Key) returns (item: FileItem, kind: EntryKind)
    ensures kind == Classify(index, entry)
    ensures entry in index ==> item == index[entry]
    ensures entry !in index ==>
              fresh(item) && item.filename == entry.0 && item.md5 == entry.1 && IsFreshRecord(item)
  {
    if entry in index {
      item, kind := index[entry], Existing;
    } else {
      var updated := SameNameSaved(index, entry.0);
      item := NewRecord(entry);
      kind := if updated then Updated else New;
    }
  }

  /** The inner search of the merge: some saved key has this filename. */
  method SameNameSaved(index: map<Key, FileItem>, filename: string) returns (found: bool)
    ensures found <==> exists k :: k in index && k.0 == filename
  {
    var rest := index.Keys;
    found := false;
    while rest != {}
      invariant rest <= index.Keys
      invariant !found ==> forall k :: k in index.Keys - rest ==> k.0 != filename
      invariant found ==> exists k :: k in index && k.0 == filename
      decreases |rest|
    {
      var k :| k in rest;
      if k.0 == filename {
        found := true;
        break;
      }
      rest := rest - {k};
    }
  }

  /** The removal count: the keys of `prior` that are not in `current`. */
  method CountRemoved(prior: set<Key>, current: set<Key>) returns (removed: nat)
    ensures removed == |prior - current|
  {
    var rest := prior;
    removed := 0;
    while rest != {}
      invariant rest <= prior
      invariant removed == |(prior - rest) - current|
      decreases |rest|
    {
      var k :| k in rest;
      RemovedStep(prior, rest, current, k);
      if k !in current {
        removed := removed + 1;
      }
      rest := rest - {k};
    }
    assert prior - rest == prior;
  }

  /** Moving one key out of `rest` adds it to the count when it is not in `current`. */
  lemma RemovedStep(prior: set<Key>, rest: set<Key>, current: set<Key>, k: Key)
    requires k in rest && rest <= prior
    ensures |(prior - (rest - {k})) - current| == |(prior - rest) - current| + (if k in current then 0 else 1)
  {
    var done := (prior - rest) - current;
    assert k !in done;
    if k !in current {
      assert (prior - (rest - {k})) - current == done + {k};
    } else {
      assert (prior - (rest - {k})) - current == done;
    }
  }

  /** `load_file_mapping_with_state_diff`: `prior` is what `load_state` gave; when it failed
      the merge proceeds as if nothing had been saved. */
  method LoadFileMappingWithStateDiff(content: Result<string, string>, parse: string -> Result<Manifest, string>,
                                      prior: Result<seq<FileItem>, string>)
    returns (r: Result<(seq<FileItem>, DiffInfo), string>)
    ensures content.Err? ==> r == Err(MappingError + content.error)
    ensures content.Ok? && parse(CleanManifest(content.value)).Err? ==>
              r == Err(MappingError + parse(CleanManifest(content.value)).error)
    ensures content.Ok? && parse(CleanManifest(content.value)).Ok? ==>
              r.Ok? && var m := parse(CleanManifest(content.value)).value;
              var saved := if prior.Ok? then prior.value else [];
              |r.value.0| == |m|
              && r.value.1 == Tally(PriorIndex(saved), m, |m|).(removed := |PriorIndex(saved).Keys - ManifestKeys(m)|)
              && (forall i :: 0 <= i < |m| && m[i] in PriorIndex(saved) ==> r.value.0[i] == PriorIndex(saved)[m[i]])
              && (forall i :: 0 <= i < |m| && m[i] !in PriorIndex(saved) ==>
                    r.value.0[i].filename == m[i].0 && r.value.0[i].md5 == m[i].1 && IsFreshRecord(r.value.0[i]))
    ensures r.Ok? && prior.Err? ==> r.value.1 == DiffInfo(|r.value.0|, 0, 0, 0)
  {
    if content.Err? {
      return Err(MappingError + content.error);
    }
    var parsed := parse(CleanManifest(content.value));
    if parsed.Err? {
      return Err(MappingError + parsed.error);
    }
    var saved := if prior.Ok? then prior.value else [];
    var merged, diff := MergeWithState(parsed.value, PriorIndex(saved));
    if prior.Err? {
      NothingSavedCounts(parsed.value, |parsed.value|);
    }
    return Ok((merged, diff));
  }

  /** Against an empty saved state every entry is new. */
  lemma {:induction false} NothingSavedCounts(m: Manifest, n: nat)
    requires n <= |m|
    ensures Tally(PriorIndex([]), m, n) == DiffInfo(n, 0, 0, 0)
  {
    if n > 0 {
      NothingSavedCounts(m, n - 1);
    }
  }

  /* ---------------------------------------------------------------- state file */

  /** A JSON value as `json.loads` returns it. */
  datatype Json = JNull | JBool(b: bool) | JInt(i: int) | JReal(x: real) | JStr(s: string)
                | JArr(elems: seq<Json>) | JObj(members: map<string, Json>)

  /** The name of the Python type `json.loads` gives for a JSON value. */
  function TypeName(j: Json): string {
    match j
    case JNull => "NoneType"
    case JBool(_) => "bool"
    case JInt(_) => "int"
    case JReal(_) => "float"
    case JStr(_) => "str"
    case JArr(_) => "list"
    case JObj(_) => "dict"
  }

  /** Python's truth value of a JSON value. */
  predicate Truthy(j: Json) {
    match j
    case JNull => false
    case JBool(b) => b
    case JInt(i) => i != 0
    case JReal(x) => x != 0.0
    case JStr(s) => s != ""
    case JArr(xs) => xs != []
    case JObj(ms) => ms != map[]
  }

  function OptStr(o: Option<string>): Json {
    match o
    case Some(s) => JStr(s)
    case None => JNull
  }

  function OptInt(o: Option<int>): Json {
    match o
    case Some(n) => JInt(n)
    case None => JNull
  }

  /** The dictionary `save_state` writes for one record. */
  function EncodeRecord(rec: ItemRecord): map<string, Json> {
    map["filename" := JStr(rec.filename),
        "md5" := JStr(rec.md5),
        "status" := JStr(rec.status.Label()),
        "progress" := JReal(rec.progress),
        "size" := OptInt(rec.size),
        "downloaded_size" := JInt(rec.downloadedSize),
        "local_path" := OptStr(rec.localPath),
        "error_message" := OptStr(rec.errorMessage),
        "download_url" := OptStr(rec.downloadUrl)]
  }

  /** The status a saved record is loaded with: the status whose label is saved, and PENDING for
      a missing or unknown label. */
  function DecodeStatus(d: map<string, Json>): (r: DownloadStatus)
    ensures ("status" in d && d["status"].JStr? && StatusOfLabel(d["status"].s).Some?) ==>
              r == StatusOfLabel(d["status"].s).value
    ensures !("status" in d && d["status"].JStr? && StatusOfLabel(d["status"].s).Some?) ==> r == Pending
  {
    match MapGet(d, "status", JStr(Pending.Label()))
    case JStr(text) => StatusOfLabel(text).GetOr(Pending)
    case _ => Pending
  }

  function DecodeOptStr(j: Json): Result<Option<string>, string> {
    match j
    case JNull => Ok(None)
    case JStr(s) => Ok(Some(s))
    case _ => Err("unexpected type")
  }

  /** One record read back from the state file. A missing "filename" or "md5" is an error, as is
      a field holding a JSON value of a type the record cannot hold. */
  function DecodeRecord(d: map<string, Json>): (r: Result<ItemRecord, string>)
    ensures r.Ok? ==> "filename" in d && d["filename"] == JStr(r.value.filename)
    ensures r.Ok? ==> "md5" in d && d["md5"] == JStr(r.value.md5)
    ensures r.Ok? ==> r.value.status == DecodeStatus(d)
    ensures r.Ok? ==> ("downloaded_size" !in d ==> r.value.downloadedSize == 0)
    ensures r.Ok? ==> (r.value.localPath.None? <==> !Truthy(MapGet(d, "local_path", JNull)))
  {
    if "filename" !in d then Err("'filename'")
    else if "md5" !in d then Err("'md5'")
    else if !d["filename"].JStr? || !d["md5"].JStr? then Err("unexpected type")
    else
      var progress := MapGet(d, "progress", JReal(0.0));
      var size := MapGet(d, "size", JNull);
      var downloaded := MapGet(d, "downloaded_size", JInt(0));
      var localPath := MapGet(d, "local_path", JNull);
      var error := DecodeOptStr(MapGet(d, "error_message", JNull));
      var url := DecodeOptStr(MapGet(d, "download_url", JNull));
      if !(progress.JReal? || progress.JInt?) then Err("unexpected type")
      else if !(size.JNull? || size.JInt?) then Err("unexpected type")
      else if !downloaded.JInt? then Err("unexpected type")
      else if Truthy(localPath) && !localPath.JStr? then Err("unexpected type")
      else if error.Err? || url.Err? then Err("unexpected type")
      else
        Ok(ItemRecord(
          d["filename"].s, d["md5"].s, DecodeStatus(d),
          if progress.JReal? then progress.x else progress.i as real,
          if size.JInt? then Some(size.i) else None,
          downloaded.i,
          if Truthy(localPath) then Some(localPath.s) else None,
          error.value, url.value))
  }

  /** Reading back what was written gives the record again, provided its local path is not the
      empty string (which is written as a path but read back as none). */
  lemma DecodeEncodeRecord(rec: ItemRecord)
    requires rec.localPath != Some("")
    ensures DecodeRecord(EncodeRecord(rec)) == Ok(rec)
  {
    EncodedFields(rec);
    DecodeFields(rec, EncodeRecord(rec));
  }

  /** The fields of an encoded record, one by one. */
  lemma EncodedFields(rec: ItemRecord)
    ensures HoldsFields(EncodeRecord(rec), rec)
  {
  }

  /** `d` holds the fields `save_state` writes for `rec`. */
  predicate HoldsFields(d: map<string, Json>, rec: ItemRecord) {
    "filename" in d && d["filename"] == JStr(rec.filename)
    && "md5" in d && d["md5"] == JStr(rec.md5)
    && "status" in d && d["status"] == JStr(rec.status.Label())
    && "progress" in d && d["progress"] == JReal(rec.progress)
    && "size" in d && d["size"] == OptInt(rec.size)
    && "downloaded_size" in d && d["downloaded_size"] == JInt(rec.downloadedSize)
    && "local_path" in d && d["local_path"] == OptStr(rec.localPath)
    && "error_message" in d && d["error_message"] == OptStr(rec.errorMessage)
    && "download_url" in d && d["download_url"] == OptStr(rec.downloadUrl)
  }

  /** Any dictionary holding those fields decodes to the record. */
  lemma DecodeFields(rec: ItemRecord, d: map<string, Json>)
    requires rec.localPath != Some("") && HoldsFields(d, rec)
    ensures DecodeRecord(d) == Ok(rec)
  {
    assert StatusOfLabel(rec.status.Label()) == Some(rec.status);
    var localPath := MapGet(d, "local_path", JNull);
    assert Truthy(localPath) <==> rec.localPath.Some?;
  }

  /** The whole state document. */
  function EncodeState(records: seq<ItemRecord>, outputDir: string): Json {
    JObj(map["output_dir" := JStr(outputDir), "files" := JArr(EncodeAll(records))])
  }

  function EncodeAll(records: seq<ItemRecord>): (r: seq<Json>)
    ensures |r| == |records|
    ensures forall i :: 0 <= i < |records| ==> r[i] == JObj(EncodeRecord(records[i]))
  {
    if records == [] then [] else [JObj(EncodeRecord(records[0]))] + EncodeAll(records[1..])
  }

  /** The records of the "files" list, in order; the first bad entry makes the whole load fail. */
  function DecodeAll(xs: seq<Json>): (r: Result<seq<ItemRecord>, string>)
    ensures r.Ok? ==> |r.value| == |xs|
    ensures r.Ok? ==> forall i :: 0 <= i < |xs| ==> xs[i].JObj? && DecodeRecord(xs[i].members) == Ok(r.value[i])
  {
    if xs == [] then Ok([])
    else if !xs[0].JObj? then Err("'" + TypeName(xs[0]) + "' object has no attribute 'get'")
    else match DecodeRecord(xs[0].members)
      case Err(e) => Err(e)
      case Ok(rec) =>
        match DecodeAll(xs[1..])
        case Err(e) => Err(e)
        case Ok(rest) => Ok([rec] + rest)
  }

  const StateError := "加载状态失败: "

  /** `load_state` after `json.loads`: the records and the output directory, which is absent
      when not saved or empty. A "files" value that is not a list fails, except an empty object
      or text, over which Python's loop runs zero times: `null`, a boolean or a number is not
      iterable, and the keys of a non-empty object or the characters of non-empty text have no
      `get`. */
  function DecodeState(doc: Json): (r: Result<(seq<ItemRecord>, Option<string>), string>)
    ensures r.Err? ==> |r.error| >= |StateError| && r.error[..|StateError|] == StateError
  {
    if !doc.JObj? then Err(StateError + "'" + TypeName(doc) + "' object has no attribute 'get'")
    else
      var d := doc.members;
      var od := MapGet(d, "output_dir", JNull);
      if Truthy(od) && !od.JStr? then Err(StateError + "unexpected type")
      else
        var outputDir := if Truthy(od) then Some(od.s) else None;
        var files := MapGet(d, "files", JArr([]));
        match files
        case JArr(xs) =>
          (match DecodeAll(xs)
           case Ok(recs) => Ok((recs, outputDir))
           case Err(e) => Err(StateError + e))
        case JObj(m) => if m == map[] then Ok(([], outputDir)) else Err(StateError + "'str' object has no attribute 'get'")
        case JStr(t) => if t == "" then Ok(([], outputDir)) else Err(StateError + "'str' object has no attribute 'get'")
        case _ => Err(StateError + "'" + TypeName(files) + "' object is not iterable")
  }

  /** A "files" value that is not a list loads no records when it is an empty object or empty
      text, and fails otherwise, `null`, `false` and zero included. */
  lemma NonListFiles(d: map<string, Json>)
    requires !Truthy(MapGet(d, "output_dir", JNull)) || MapGet(d, "output_dir", JNull).JStr?
    requires "files" in d && !d["files"].JArr?
    ensures DecodeState(JObj(d)).Ok? <==> d["files"] == JObj(map[]) || d["files"] == JStr("")
    ensures DecodeState(JObj(d)).Ok? ==> DecodeState(JObj(d)).value.0 == []
  {
  }

  /** Saving records and loading them back gives the same records and directory (local paths
      being non-empty and the directory a non-empty path). */
  lemma DecodeEncodeState(records: seq<ItemRecord>, outputDir: string)
    requires forall i :: 0 <= i < |records| ==> records[i].localPath != Some("")
    requires outputDir != ""
    ensures DecodeState(EncodeState(records, outputDir)) == Ok((records, Some(outputDir)))
  {
    var d := EncodeState(records, outputDir).members;
    assert "output_dir" in d && d["output_dir"] == JStr(outputDir);
    assert "files" in d && d["files"] == JArr(EncodeAll(records));
    DecodeEncodeAll(records);
    DecodeDocument(d, records, outputDir);
  }

  /** Any document holding the directory and a list that decodes to the records loads them. */
  lemma DecodeDocument(d: map<string, Json>, records: seq<ItemRecord>, outputDir: string)
    requires outputDir != "" && "output_dir" in d && d["output_dir"] == JStr(outputDir)
    requires "files" in d && d["files"].JArr? && DecodeAll(d["files"].elems) == Ok(records)
    ensures DecodeState(JObj(d)) == Ok((records, Some(outputDir)))
  {
  }

  lemma DecodeEncodeAll(records: seq<ItemRecord>)
    requires forall i :: 0 <= i < |records| ==> records[i].localPath != Some("")
    ensures DecodeAll(EncodeAll(records)) == Ok(records)
  {
    forall rec | rec in records
      ensures DecodeRecord(EncodeRecord(rec)) == Ok(rec)
    {
      DecodeEncodeRecord(rec);
    }
    DecodeAllOf(EncodeAll(records), records);
  }

  /** A list whose every entry decodes is read as those records, in order. */
  lemma {:induction false} DecodeAllOf(xs: seq<Json>, records: seq<ItemRecord>)
    requires |xs| == |records|
    requires forall i :: 0 <= i < |xs| ==> xs[i].JObj? && DecodeRecord(xs[i].members) == Ok(records[i])
    ensures DecodeAll(xs) == Ok(records)
  {
    if xs != [] {
      DecodeAllOf(xs[1..], records[1..]);
      assert [records[0]] + records[1..] == records;
    }
  }

  /** `save_state`: the document written for the records in list order. `writeError` is the
      error writing the file raised, if any. */
  method SaveState(items: seq<FileItem>, outputDir: string, writeError: Option<string>)
    returns (r: Result<Json, string>)
    ensures writeError.Some? ==> r == Err("保存状态失败: " + writeError.value)
    ensures writeError.None? ==> r == Ok(EncodeState(Snapshots(items), outputDir))
  {
    var files: seq<Json> := [];
    var i := 0;
    while i < |items|
      invariant 0 <= i <= |items|
      invariant files == EncodeAll(Snapshots(items[..i]))
    {
      assert items[..i + 1] == items[..i] + [items[i]];
      SnapshotsAppend(items[..i], items[i]);
      EncodeAllAppend(Snapshots(items[..i]), items[i].Snapshot());
      files := files + [JObj(EncodeRecord(items[i].Snapshot()))];
      i := i + 1;
    }
    assert items[..|items|] == items;
    if writeError.Some? {
      return Err("保存状态失败: " + writeError.value);
    }
    return Ok(JObj(map["output_dir" := JStr(outputDir), "files" := JArr(files)]));
  }

  /** The saved fields of each record, in order. */
  function Snapshots(items: seq<FileItem>): (r: seq<ItemRecord>)
    reads items
    ensures |r| == |items|
    ensures forall i :: 0 <= i < |items| ==> r[i] == items[i].Snapshot()
  {
    if items == [] then [] else [items[0].Snapshot()] + Snapshots(items[1..])
  }

  lemma SnapshotsAppend(items: seq<FileItem>, item: FileItem)
    ensures Snapshots(items + [item]) == Snapshots(items) + [item.Snapshot()]
  {
  }

  lemma EncodeAllAppend(records: seq<ItemRecord>, rec: ItemRecord)
    ensures EncodeAll(records + [rec]) == EncodeAll(records) + [JObj(EncodeRecord(rec))]
  {
  }

  /** `load_state`: `stateExists` says whether the state file exists and `parsed` is what
      reading and `json.loads` gave. A missing file loads as nothing saved. */
  method LoadState(stateExists: bool, parsed: Result<Json, string>)
    returns (r: Result<(seq<FileItem>, Option<string>), string>)
    ensures !stateExists ==> r == Ok(([], None))
    ensures stateExists && parsed.Err? ==> r == Err(StateError + parsed.error)
    ensures stateExists && parsed.Ok? ==>
              (r.Ok? <==> DecodeState(parsed.value).Ok?)
              && (r.Ok? ==> var (recs, dir) := DecodeState(parsed.value).value;
                            r.value.1 == dir && |r.value.0| == |recs|
                            && forall i :: 0 <= i < |recs| ==>
                                 fresh(r.value.0[i]) && r.value.0[i].Snapshot() == recs[i] && !r.value.0[i].diskVerified)
  {
    if !stateExists {
      return Ok(([], None));
    }
    if parsed.Err? {
      return Err(StateError + parsed.error);
    }
    var decoded := DecodeState(parsed.value);
    if decoded.Err? {
      return Err(decoded.error);
    }
    var (recs, dir) := decoded.value;
    var items := RestoreItems(recs);
    return Ok((items, dir));
  }

  /** The loop of `load_state` that makes one fresh record per saved entry. */
  method RestoreItems(recs: seq<ItemRecord>) returns (items: seq<FileItem>)
    ensures |items| == |recs|
    ensures forall i :: 0 <= i < |recs| ==> fresh(items[i])
    ensures forall i :: 0 <= i < |recs| ==> items[i].Snapshot() == recs[i] && !items[i].diskVerified
    ensures forall i :: 0 <= i < |recs| ==>
              items[i].mtime == None && items[i].lastChecked == None && items[i].cacheVersion == DefaultCacheVersion
  {
    items := [];
    ghost var made: set<FileItem> := {};
    var i := 0;
    while i < |recs|
      invariant 0 <= i <= |recs| && |items| == i
      invariant fresh(made) && forall j :: 0 <= j < i ==> items[j] in made
      invariant Restored(recs, items)
    {
      var item := Restore(recs[i]);
      RestoredStep(recs, items, item);
      items, made := items + [item], made + {item};
      i := i + 1;
    }
  }

  /** `FileItem(**data)` for one saved entry, seen through the fields the loop uses. */
  method Restore(rec: ItemRecord) returns (item: FileItem)
    ensures fresh(item) && item.Snapshot() == rec && !item.diskVerified
    ensures item.mtime == None && item.lastChecked == None && item.cacheVersion == DefaultCacheVersion
  {
    item := new FileItem.FromRecord(rec);
  }

  /** Each item holds the saved record at its position, not yet checked against the disk. */
  predicate Restored(recs: seq<ItemRecord>, items: seq<FileItem>)
    reads items
  {
    forall j :: 0 <= j < |items| && j < |recs| ==>
      items[j].Snapshot() == recs[j] && !items[j].diskVerified
      && items[j].mtime == None && items[j].lastChecked == None && items[j].cacheVersion == DefaultCacheVersion
  }

  lemma RestoredStep(recs: seq<ItemRecord>, items: seq<FileItem>, item: FileItem)
    requires |items| < |recs| && Restored(recs, items)
    requires item.Snapshot() == recs[|items|] && !item.diskVerified
    requires item.mtime == None && item.lastChecked == None && item.cacheVersion == DefaultCacheVersion
    ensures Restored(recs, items + [item])
  {
  }

  /* ---------------------------------------------------------------- statistics */

  function CountStatus(items: seq<FileItem>, s: DownloadStatus): (r: nat)
    reads items
    ensures r <= |items|
  {
    if items == [] then 0
    else CountStatus(items[..|items| - 1], s) + (if items[|items| - 1].status == s then 1 else 0)
  }

  /** Every record has exactly one of the six statuses. */
  lemma {:induction false} StatusCountsSum(items: seq<FileItem>)
    ensures CountStatus(items, Pending) + CountStatus(items, Downloading) + CountStatus(items, Completed)
            + CountStatus(items, Failed) + CountStatus(items, Cancelled) + CountStatus(items, Skipped) == |items|
  {
    if items != [] {
      StatusCountsSum(items[..|items| - 1]);
    }
  }

  datatype Statistics = Statistics(total: nat, pending: nat, downloading: nat, completed: nat,
                                   failed: nat, cancelled: nat, skipped: nat)

  /** `get_statistics`: the list length and the number of records in each status. */
  method GetStatistics(items: seq<FileItem>) returns (stats: Statistics)
    ensures stats.total == |items|
    ensures stats.pending == CountStatus(items, Pending) && stats.downloading == CountStatus(items, Downloading)
    ensures stats.completed == CountStatus(items, Completed) && stats.failed == CountStatus(items, Failed)
    ensures stats.cancelled == CountStatus(items, Cancelled) && stats.skipped == CountStatus(items, Skipped)
    ensures stats.pending + stats.downloading + stats.completed + stats.failed + stats.cancelled + stats.skipped
            == stats.total
  {
    stats := Statistics(|items|, 0, 0, 0, 0, 0, 0);
    var i := 0;
    while i < |items|
      invariant 0 <= i <= |items| && stats.total == |items|
      invariant stats.pending == CountStatus(items[..i], Pending)
      invariant stats.downloading == CountStatus(items[..i], Downloading)
      invariant stats.completed == CountStatus(items[..i], Completed)
      invariant stats.failed == CountStatus(items[..i], Failed)
      invariant stats.cancelled == CountStatus(items[..i], Cancelled)
      invariant stats.skipped == CountStatus(items[..i], Skipped)
    {
      assert items[..i + 1][..i] == items[..i];
      var s := items[i].status;
      if s == Pending {
        stats := stats.(pending := stats.pending + 1);
      } else if s == Downloading {
        stats := stats.(downloading := stats.downloading + 1);
      } else if s == Completed {
        stats := stats.(completed := stats.completed + 1);
      } else if s == Failed {
        stats := stats.(failed := stats.failed + 1);
      } else if s == Cancelled {
        stats := stats.(cancelled := stats.cancelled + 1);
      } else if s == Skipped {
        stats := stats.(skipped := stats.skipped + 1);
      }
      i := i + 1;
    }
    assert items[..|items|] == items;
    StatusCountsSum(items);
  }

  /** The sum of the known, non-zero sizes. */
  function SumSizes(items: seq<FileItem>): int
    reads items
  {
    if items == [] then 0
    else SumSizes(items[..|items| - 1]) + (if HasSize(items[|items| - 1]) then items[|items| - 1].size.value else 0)
  }

  function SumDownloaded(items: seq<FileItem>): int
    reads items
  {
    if items == [] then 0 else SumDownloaded(items[..|items| - 1]) + items[|items| - 1].downloadedSize
  }

  /** `get_total_size`: the total of the known sizes and the total downloaded. */
  method GetTotalSize(items: seq<FileItem>) returns (totalSize: int, downloadedSize: int)
    ensures totalSize == SumSizes(items) && downloadedSize == SumDownloaded(items)
  {
    totalSize, downloadedSize := 0, 0;
    var i := 0;
    while i < |items|
      invariant 0 <= i <= |items|
      invariant totalSize == SumSizes(items[..i]) && downloadedSize == SumDownloaded(items[..i])
    {
      assert items[..i + 1][..i] == items[..i];
      if HasSize(items[i]) {
        totalSize := totalSize + items[i].size.value;
      }
      downloadedSize := downloadedSize + items[i].downloadedSize;
      i := i + 1;
    }
    assert items[..|items|] == items;
  }

  /** When every record knows its size and has downloaded no more than that, the downloaded
      total does not exceed the total size. */
  lemma {:induction false} DownloadedWithinTotal(items: seq<FileItem>)
    requires forall i :: 0 <= i < |items| ==> items[i].size.Some? && 0 <= items[i].downloadedSize <= items[i].size.value
    ensures 0 <= SumDownloaded(items) <= SumSizes(items)
  {
    if items != [] {
      DownloadedWithinTotal(items[..|items| - 1]);
    }
  }

  /* ---------------------------------------------------------------- filtering */

  /** The search matches a record: `needle` occurs in the lower-cased filename or hash. */
  predicate MatchesSearch(item: FileItem, needle: string) {
    Contains(Lower(item.filename), needle) || Contains(Lower(item.md5), needle)
  }

  /** The status filter of `filter_files`. */
  function WithStatus(items: seq<FileItem>, s: DownloadStatus): (r: seq<FileItem>)
    reads items
    ensures |r| <= |items|
    ensures forall i :: 0 <= i < |r| ==> r[i] in items && r[i].status == s
    ensures forall i :: 0 <= i < |items| && items[i].status == s ==> items[i] in r
  {
    if items == [] then []
    else
      var rest := WithStatus(items[..|items| - 1], s);
      var last := items[|items| - 1];
      assert forall i :: 0 <= i < |items| - 1 ==> items[i] == items[..|items| - 1][i];
      if last.status == s then rest + [last] else rest
  }

  /** The search filter of `filter_files`. */
  function WithText(items: seq<FileItem>, needle: string): (r: seq<FileItem>)
    ensures |r| <= |items|
    ensures forall i :: 0 <= i < |r| ==> r[i] in items && MatchesSearch(r[i], needle)
    ensures forall i :: 0 <= i < |items| && MatchesSearch(items[i], needle) ==> items[i] in r
  {
    if items == [] then []
    else
      var rest := WithText(items[..|items| - 1], needle);
      var last := items[|items| - 1];
      assert forall i :: 0 <= i < |items| - 1 ==> items[i] == items[..|items| - 1][i];
      if MatchesSearch(last, needle) then rest + [last] else rest
  }

  /** A record passes the filters of `filter_files`: it has the status asked for, if any, and
      matches the lower-cased search text, if any. */
  predicate PassesFilters(item: FileItem, statusFilter: Option<DownloadStatus>, searchText: string)
    reads item
  {
    (statusFilter.Some? ==> item.status == statusFilter.value)
    && (searchText != "" ==> MatchesSearch(item, Lower(searchText)))
  }

  /** `filter_files(items, status_filter, search_text)`. */
  function FilterFiles(items: seq<FileItem>, statusFilter: Option<DownloadStatus>, searchText: string): (r: seq<FileItem>)
    reads items
    ensures forall i :: 0 <= i < |r| ==> r[i] in items && PassesFilters(r[i], statusFilter, searchText)
    ensures forall i :: 0 <= i < |items| && PassesFilters(items[i], statusFilter, searchText) ==> items[i] in r
    ensures statusFilter.None? && searchText == "" ==> r == items
  {
    var byStatus := if statusFilter.Some? then WithStatus(items, statusFilter.value) else items;
    if searchText != "" then WithText(byStatus, Lower(searchText)) else byStatus
  }

  /** Filtering keeps the order: filtering a concatenation is concatenating the filtered parts. */
  lemma {:induction false} FilterFilesConcat(a: seq<FileItem>, b: seq<FileItem>, statusFilter: Option<DownloadStatus>,
                                             searchText: string)
    ensures FilterFiles(a + b, statusFilter, searchText) == FilterFiles(a, statusFilter, searchText) + FilterFiles(b, statusFilter, searchText)
  {
    if statusFilter.Some? {
      WithStatusConcat(a, b, statusFilter.value);
    }
    var sa := if statusFilter.Some? then WithStatus(a, statusFilter.value) else a;
    var sb := if statusFilter.Some? then WithStatus(b, statusFilter.value) else b;
    if searchText != "" {
      WithTextConcat(sa, sb, Lower(searchText));
    }
  }

  /** Filtering a non-empty list is filtering all but its last record, then the last. */
  lemma FilterFilesSnoc(items: seq<FileItem>, statusFilter: Option<DownloadStatus>, searchText: string)
    requires items != []
    ensures FilterFiles(items, statusFilter, searchText)
            == FilterFiles(items[..|items| - 1], statusFilter, searchText) + FilterFiles([items[|items| - 1]], statusFilter, searchText)
  {
    assert items == items[..|items| - 1] + [items[|items| - 1]];
    FilterFilesConcat(items[..|items| - 1], [items[|items| - 1]], statusFilter, searchText);
  }

  lemma {:induction false} WithStatusConcat(a: seq<FileItem>, b: seq<FileItem>, s: DownloadStatus)
    ensures WithStatus(a + b, s) == WithStatus(a, s) + WithStatus(b, s)
    decreases |b|
  {
    if b == [] {
      assert a + b == a;
    } else {
      var b' := b[..|b| - 1];
      assert (a + b)[..|a + b| - 1] == a + b';
      WithStatusConcat(a, b', s);
    }
  }

  lemma {:induction false} WithTextConcat(a: seq<FileItem>, b: seq<FileItem>, needle: string)
    ensures WithText(a + b, needle) == WithText(a, needle) + WithText(b, needle)
    decreases |b|
  {
    if b == [] {
      assert a + b == a;
    } else {
      var b' := b[..|b| - 1];
      assert (a + b)[..|a + b| - 1] == a + b';
      WithTextConcat(a, b', needle);
    }
  }
}
