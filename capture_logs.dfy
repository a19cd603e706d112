/** The capture log: every analysed photo appends one summary entry (total,
    per-label counts with their categories, per-category totals, the photo's
    URI and caller-supplied extra fields) to a JSON array kept in a file, or in
    key-value storage on the web; clearing empties or removes that array and
    may delete the photos it refers to. */
module CaptureLogs {
  import opened Optional
  import opened Text
  import opened TrashMap
  import opened Detections
  import CaptureScreen

  // ---------------------------------------------------------------------------
  // Storage selection

  /** What the module reads from the device when it loads. */
  datatype Platform = Platform(isWeb: bool, documentDirectory: Option<string>, cacheDirectory: Option<string>) {
    /** `USE_ASYNC`: key-value storage on the web, or when the document
        directory is missing or empty. */
    predicate UseAsync() {
      isWeb || documentDirectory.GetOr("") == ""
    }

    /** `LOG_PATH`: the first directory that is not null, then the file name. */
    function LogPath(): (path: string)
      ensures EndsWith(path, "captures.json")
    {
      var dir := if documentDirectory.Some? then documentDirectory.value else cacheDirectory.GetOr("");
      dir + "captures.json"
    }

    /** `CAPTURE_LOG_PATH`: the log file's path, or null under key-value storage. */
    function CaptureLogPath(): (path: Option<string>)
      ensures path.None? <==> UseAsync()
      ensures path.Some? ==> path.value == LogPath()
    {
      if UseAsync() then None else Some(LogPath())
    }
  }

  // ---------------------------------------------------------------------------
  // JSON values and object fields

  datatype Json = JNull | JNum(n: int) | JStr(s: string) | JArr(elems: seq<Json>) | JObj(fields: seq<(string, Json)>)

  function Names(fields: seq<(string, Json)>): seq<string> {
    seq(|fields|, i requires 0 <= i < |fields| => fields[i].0)
  }

  /** Reading a property: the value stored under `k`, if any. */
  function Field(fields: seq<(string, Json)>, k: string): Option<Json> {
    if fields == [] then None
    else if fields[0].0 == k then Some(fields[0].1)
    else Field(fields[1..], k)
  }

  /** The value of the last `k` in a list of properties: the one an object
      literal ends up with. */
  function LastField(fields: seq<(string, Json)>, k: string): Option<Json> {
    if fields == [] then None
    else if fields[|fields| - 1].0 == k then Some(fields[|fields| - 1].1)
    else LastField(fields[..|fields| - 1], k)
  }

  /** Assigning a property: an existing property keeps its place and takes the
      new value; a new one is added at the end. */
  function Put(fields: seq<(string, Json)>, k: string, v: Json): (r: seq<(string, Json)>)
    ensures Field(r, k) == Some(v)
    ensures forall k' :: k' != k ==> Field(r, k') == Field(fields, k')
    ensures Names(r) == if k in Names(fields) then Names(fields) else Names(fields) + [k]
  {
    if fields == [] then [(k, v)]
    else if fields[0].0 == k then
      var r := [(k, v)] + fields[1..];
      assert Names(fields)[0] == k;
      assert Names(r) == Names(fields);
      r
    else
      var rest := Put(fields[1..], k, v);
      assert Names(fields) == [fields[0].0] + Names(fields[1..]);
      assert Names([fields[0]] + rest) == [fields[0].0] + Names(rest);
      [fields[0]] + rest
  }

  /** `{ ...base, ...extra }` for an object literal `base`: the properties of
      `extra` are assigned one by one, in order. */
  function Spread(base: seq<(string, Json)>, extra: seq<(string, Json)>): seq<(string, Json)> {
    if extra == [] then base
    else Put(Spread(base, extra[..|extra| - 1]), extra[|extra| - 1].0, extra[|extra| - 1].1)
  }

  /** The properties of `base` that `extra` does not name, in their order. */
  function NewNames(names: seq<string>, seen: seq<string>): seq<string> {
    if names == [] then []
    else
      var rest := NewNames(names[..|names| - 1], seen);
      var k := names[|names| - 1];
      if k in seen || k in rest then rest else rest + [k]
  }

  /** A spread property overrides a same-named one, whichever came first; the
      others keep their value. */
  lemma {:induction false} SpreadOverrides(base: seq<(string, Json)>, extra: seq<(string, Json)>)
    ensures forall k :: k in Names(extra) ==> Field(Spread(base, extra), k) == LastField(extra, k)
    ensures forall k :: k !in Names(extra) ==> Field(Spread(base, extra), k) == Field(base, k)
  {
    if extra != [] {
      var init, x := extra[..|extra| - 1], extra[|extra| - 1];
      SpreadOverrides(base, init);
      assert Names(extra) == Names(init) + [x.0];
    }
  }

  /** The spread object lists the properties of `base` first, then those
      `extra` adds, in order of first appearance. */
  lemma {:induction false} SpreadNames(base: seq<(string, Json)>, extra: seq<(string, Json)>)
    ensures Names(Spread(base, extra)) == Names(base) + NewNames(Names(extra), Names(base))
  {
    if extra != [] {
      var init, x := extra[..|extra| - 1], extra[|extra| - 1];
      SpreadNames(base, init);
      var rest := NewNames(Names(init), Names(base));
      assert Names(extra)[..|Names(extra)| - 1] == Names(init);
      assert Names(extra)[|Names(extra)| - 1] == x.0;
      assert NewNames(Names(extra), Names(base)) ==
        if x.0 in Names(base) || x.0 in rest then rest else rest + [x.0];
      assert x.0 in Names(Spread(base, init)) <==> x.0 in Names(base) || x.0 in rest;
    }
  }

  // ---------------------------------------------------------------------------
  // The entry

  /** A box's category in the log: the label lookup, and the class-id lookup
      only when that yields nothing (`lookup(label) ?? lookup(class_id) ?? null`). */
  function BoxCategory(b: Box, classify: ItemRef -> Option<Category>): (c: Option<Category>)
    ensures classify(ByName(b.name)).Some? ==> c == classify(ByName(b.name))
    ensures classify(ByName(b.name)).None? ==> c == classify(ById(b.classId))
  {
    match classify(ByName(b.name))
    case Some(c) => Some(c)
    case None => classify(ById(b.classId))
  }

  function LogCats(boxes: seq<Box>, classify: ItemRef -> Option<Category>): seq<Option<Category>> {
    seq(|boxes|, i requires 0 <= i < |boxes| => BoxCategory(boxes[i], classify))
  }

  function CategoryName(c: Category): string {
    match c
    case Recyclable => "recyclable"
    case Compostable => "compostable"
    case Trash => "trash"
    case Dropoff => "dropoff"
  }

  function CategoryJson(c: Option<Category>): Json {
    match c
    case Some(c) => JStr(CategoryName(c))
    case None => JNull
  }

  function TallyJson(t: Tally): Json {
    JObj([("recyclable", JNum(t.recyclable)), ("compostable", JNum(t.compostable)),
          ("trash", JNum(t.trash)), ("dropoff", JNum(t.dropoff))])
  }

  function ItemJson(name: string, count: nat, classify: ItemRef -> Option<Category>): Json {
    JObj([("label", JStr(name)), ("count", JNum(count)), ("category", CategoryJson(classify(ByName(name))))])
  }

  /** `items`: one object per label count, in the map's order; the category
      comes from the label alone. */
  function ItemsJson(counts: LabelCounts, classify: ItemRef -> Option<Category>): seq<Json> {
    seq(|counts|, i requires 0 <= i < |counts| => ItemJson(counts[i].0, counts[i].1, classify))
  }

  function UriJson(sourceUri: Option<string>): Json {
    match sourceUri
    case Some(u) => JStr(u)
    case None => JNull
  }

  /** The properties the entry literal writes before spreading `extra`. */
  function BaseEntry(timestamp: string, boxes: seq<Box>, counts: LabelCounts, totals: Tally,
                     sourceUri: Option<string>, classify: ItemRef -> Option<Category>): seq<(string, Json)> {
    [("timestamp", JStr(timestamp)), ("total", JNum(|boxes|)), ("items", JArr(ItemsJson(counts, classify))),
     ("categories", TallyJson(totals)), ("sourceUri", UriJson(sourceUri))]
  }

  /** The entry `appendCaptureLog` writes; `timestamp` is the clock reading. */
  function EntryOf(timestamp: string, boxes: seq<Box>, sourceUri: Option<string>,
                   extra: seq<(string, Json)>, classify: ItemRef -> Option<Category>): Json {
    var counts := CountLabels(Labels(boxes));
    var totals := TallyOf(LogCats(boxes, classify));
    JObj(Spread(BaseEntry(timestamp, boxes, counts, totals, sourceUri, classify), extra))
  }

  /** The entry holds the value `extra` gives every property it names, and
      the literal's own value for every other property: the clock reading,
      `total` the number of boxes, `items` one object per label count (see
      `CountLabelsSpec`), `categories` the four counters (see `TallyOfCounts`)
      and the URI or null. The literal's properties come first. */
  lemma EntryOverrides(timestamp: string, boxes: seq<Box>, sourceUri: Option<string>,
                       extra: seq<(string, Json)>, classify: ItemRef -> Option<Category>)
    ensures var fields := EntryOf(timestamp, boxes, sourceUri, extra, classify).fields;
      var base := BaseEntry(timestamp, boxes, CountLabels(Labels(boxes)), TallyOf(LogCats(boxes, classify)), sourceUri, classify);
      && (forall k :: k in Names(extra) ==> Field(fields, k) == LastField(extra, k))
      && (forall k :: k !in Names(extra) ==> Field(fields, k) == Field(base, k))
      && Names(fields) == Names(base) + NewNames(Names(extra), Names(base))
  {
    var base := BaseEntry(timestamp, boxes, CountLabels(Labels(boxes)), TallyOf(LogCats(boxes, classify)), sourceUri, classify);
    SpreadOverrides(base, extra);
    SpreadNames(base, extra);
  }

  /** The log's category of a box against the capture screen's lookup
      `b.label || b.class_id`: they agree when a non-empty label resolves, and
      when the label is empty and the empty name does not resolve. A non-empty
      label that does not resolve shows no category on the screen, while the
      log falls back to the class id. */
  lemma LogMatchesScreen(b: Box, classify: ItemRef -> Option<Category>)
    ensures b.name != [] && classify(ByName(b.name)).Some? ==>
      BoxCategory(b, classify) == classify(ByName(b.name))
    ensures b.name == [] && classify(ByName(b.name)).None? ==>
      BoxCategory(b, classify) == classify(ById(b.classId))
    ensures b.name != [] && classify(ByName(b.name)).Some? ==>
      BoxCategory(b, classify) == classify(CaptureScreen.LookupKey(b))
    ensures b.name == [] && classify(ByName([])).None? ==>
      BoxCategory(b, classify) == classify(CaptureScreen.LookupKey(b))
    ensures b.name != [] && classify(ByName(b.name)).None? ==>
      classify(CaptureScreen.LookupKey(b)) == None && BoxCategory(b, classify) == classify(ById(b.classId))
  {
  }

  /** Box by box, the logged categories against the screen's `cats`: they
      differ exactly where a non-empty label does not resolve while the class
      id does, or where the empty label itself resolves to something other
      than the class id's category. */
  lemma LogCatsVersusScreen(boxes: seq<Box>, classify: ItemRef -> Option<Category>)
    ensures |LogCats(boxes, classify)| == |CaptureScreen.Cats(boxes, classify)| == |boxes|
    ensures forall i :: 0 <= i < |boxes| ==>
      (LogCats(boxes, classify)[i] != CaptureScreen.Cats(boxes, classify)[i] <==>
        (boxes[i].name != [] && classify(ByName(boxes[i].name)).None? && classify(ById(boxes[i].classId)).Some?)
        || (boxes[i].name == [] && classify(ByName([])).Some? && classify(ByName([])) != classify(ById(boxes[i].classId))))
    ensures forall i :: 0 <= i < |boxes| && boxes[i].name != [] && classify(ByName(boxes[i].name)).None? ==>
      CaptureScreen.Cats(boxes, classify)[i] == None && LogCats(boxes, classify)[i] == classify(ById(boxes[i].classId))
  {
    var log, screen := LogCats(boxes, classify), CaptureScreen.Cats(boxes, classify);
    forall i | 0 <= i < |boxes|
      ensures log[i] == BoxCategory(boxes[i], classify)
    {
    }
  }

  // ---------------------------------------------------------------------------
  // The per-category loop of `appendCaptureLog`

  /** `catTotals`: counters start at zero and each box adds one to the counter
      of its category, if it has one. */
  method CategoryTotals(boxes: seq<Box>, classify: ItemRef -> Option<Category>) returns (t: Tally)
    ensures t == TallyOf(LogCats(boxes, classify))
    ensures forall c :: t.Get(c) == multiset(LogCats(boxes, classify))[Some(c)]
    ensures t.Total() <= |boxes|
  {
    ghost var cats := LogCats(boxes, classify);
    assert |cats| == |boxes|;
    t := NoCounts;
    for i := 0 to |boxes|
      invariant t == TallyOf(cats[..i])
    {
      var c := BoxCategory(boxes[i], classify);
      assert c == cats[i];
      TallyStep(cats, i);
      if c.Some? {
        t := t.Add(c.value);
      }
    }
    assert cats[..|boxes|] == cats;
    TallyOfCounts(cats);
    assert t.Total() == |cats| - multiset(cats)[None];
  }

  // ---------------------------------------------------------------------------
  // Clearing

  /** `candidateUris`: the `sourceUri` of each entry that has a non-empty
      string there, in log order. */
  function CandidateUris(entries: seq<Json>): (uris: seq<string>)
    ensures |uris| <= |entries|
    ensures forall u :: u in uris <==> u != "" && exists e :: e in entries && e.JObj? && Field(e.fields, "sourceUri") == Some(JStr(u))
  {
    if entries == [] then []
    else
      var rest := CandidateUris(entries[1..]);
      var e := entries[0];
      assert forall x :: x in entries <==> x == e || x in entries[1..];
      if e.JObj? && Field(e.fields, "sourceUri").Some? && Field(e.fields, "sourceUri").value.JStr?
         && Field(e.fields, "sourceUri").value.s != ""
      then [Field(e.fields, "sourceUri").value.s] + rest
      else rest
  }

  /** `isDeletableLocalFile`: only in file mode, only a non-empty `file://`
      URI, and only under the document or the cache directory, a missing one
      counting as the empty prefix. */
  predicate IsDeletableLocalFile(p: Platform, uri: string) {
    if p.UseAsync() then false
    else if uri == "" then false
    else
      var docDir := p.documentDirectory.GetOr("");
      var cacheDir := p.cacheDirectory.GetOr("");
      StartsWith(uri, "file://") && (StartsWith(uri, docDir) || StartsWith(uri, cacheDir))
  }

  /** Under key-value storage nothing is deletable; in file mode a deletable
      URI is a `file://` URI under one of the two directories. */
  lemma DeletableOnlyLocal(p: Platform, uri: string)
    ensures IsDeletableLocalFile(p, uri) ==> !p.UseAsync() && StartsWith(uri, "file://")
    ensures IsDeletableLocalFile(p, uri) ==>
      StartsWith(uri, p.documentDirectory.value) || StartsWith(uri, p.cacheDirectory.GetOr(""))
  {
  }

  /** With no cache directory the empty prefix matches every URI, so in file
      mode every `file://` URI counts as deletable, wherever it points. */
  lemma NoCacheDirectoryMatchesAnyFile(p: Platform, uri: string)
    requires !p.UseAsync() && p.cacheDirectory.None?
    requires StartsWith(uri, "file://")
    ensures IsDeletableLocalFile(p, uri)
  {
  }

  /** What `clearAllCapturedData` reports. */
  datatype ClearResult = ClearResult(ok: bool, deletedImages: nat, logCleared: bool, storage: string, logPath: Option<string>)

  /** The set of deletable candidates. */
  function DeletableAmong(p: Platform, uris: seq<string>): set<string> {
    if uris == [] then {}
    else
      var last := uris[|uris| - 1];
      DeletableAmong(p, uris[..|uris| - 1]) + if IsDeletableLocalFile(p, last) then {last} else {}
  }

  /** The deletable candidates are exactly the candidates that are deletable. */
  lemma {:induction false} DeletableAmongMembers(p: Platform, uris: seq<string>)
    ensures forall u :: u in DeletableAmong(p, uris) <==> u in uris && IsDeletableLocalFile(p, u)
  {
    if uris != [] {
      var init := uris[..|uris| - 1];
      DeletableAmongMembers(p, init);
      assert uris == init + [uris[|uris| - 1]];
    }
  }

  /** A list without repetitions that holds exactly the members of a set is
      as long as the set is large. */
  lemma {:induction false} SizeOfListed(list: seq<string>, members: set<string>)
    requires Unique(list) && forall u :: u in list <==> u in members
    ensures |members| == |list|
  {
    if list != [] {
      var init, last := list[..|list| - 1], list[|list| - 1];
      assert list == init + [last];
      assert last !in init by {
        forall k | 0 <= k < |init| ensures init[k] != last {
          assert list[k] != list[|list| - 1];
        }
      }
      SizeOfListed(init, members - {last});
    } else {
      assert members == {};
    }
  }

  /** The log store and the photo files on the device. */
  class CaptureStore {
    const platform: Platform
    /** The entries the log holds. */
    var entries: seq<Json>
    /** Whether the log file (or storage key) exists; a missing log reads as empty. */
    var logStored: bool
    /** The URIs of the files that exist on the device. */
    var files: set<string>

    /** With no log stored, reading the log gives `[]`: a store without a log
        holds no entries. */
    ghost predicate Valid()
      reads this
    {
      !logStored ==> entries == []
    }

    constructor (platform: Platform, files: set<string>)
      ensures Valid()
      ensures this.platform == platform && entries == [] && !logStored && this.files == files
    {
      this.platform := platform;
      entries := [];
      logStored := false;
      this.files := files;
    }

    /** `appendCaptureLog`: counts the boxes, builds the entry and appends it;
        the earlier entries stay as they were. `timestamp` is the clock, and
        `classify` the current region's classifier. */
    method Append(boxes: seq<Box>, sourceUri: Option<string>, extra: seq<(string, Json)>,
                  timestamp: string, classify: ItemRef -> Option<Category>) returns (entry: Json)
      requires Valid()
      modifies this
      ensures Valid()
      ensures entry == EntryOf(timestamp, boxes, sourceUri, extra, classify)
      ensures entries == old(entries) + [entry]
      ensures logStored && files == old(files)
    {
      var counts := CountByLabel(boxes);
      var totals := CategoryTotals(boxes, classify);
      var items := ItemsJson(counts, classify);
      var base := [("timestamp", JStr(timestamp)), ("total", JNum(|boxes|)), ("items", JArr(items)),
                   ("categories", TallyJson(totals)), ("sourceUri", UriJson(sourceUri))];
      entry := JObj(Spread(base, extra));
      entries := entries + [entry];
      logStored := true;
    }

    /** `clearCaptureLog`: the log is written back empty. */
    method Clear()
      requires Valid()
      modifies this
      ensures Valid()
      ensures entries == [] && logStored && files == old(files)
    {
      entries := [];
      logStored := true;
    }

    /** One turn of the deletion loop: a deletable URI whose file exists is
        deleted. */
    method DeleteOne(uri: string) returns (removed: bool)
      requires Valid()
      modifies this
      ensures Valid()
      ensures removed <==> IsDeletableLocalFile(platform, uri) && uri in old(files)
      ensures files == old(files) - if IsDeletableLocalFile(platform, uri) then {uri} else {}
      ensures entries == old(entries) && logStored == old(logStored)
    {
      removed := false;
      if IsDeletableLocalFile(platform, uri) && uri in files {
        files := files - {uri};
        removed := true;
      }
    }

    /** The deletion loop: every deletable candidate that exists is deleted and
        counted once, so the count is at most the number of candidates. */
    method DeleteImages(candidates: seq<string>) returns (deleted: nat)
      requires Valid()
      modifies this
      ensures Valid()
      ensures files == old(files) - DeletableAmong(platform, candidates)
      ensures deleted == |old(files) * DeletableAmong(platform, candidates)|
      ensures deleted <= |candidates|
      ensures entries == old(entries) && logStored == old(logStored)
    {
      deleted := 0;
      ghost var gone: set<string> := {};
      ghost var removedFiles: seq<string> := [];
      for i := 0 to |candidates|
        invariant gone == DeletableAmong(platform, candidates[..i])
        invariant files == old(files) - gone
        invariant Unique(removedFiles) && forall u :: u in removedFiles <==> u in old(files) && u in gone
        invariant deleted == |removedFiles| <= i
        invariant entries == old(entries) && logStored == old(logStored)
      {
        var uri := candidates[i];
        assert candidates[..i + 1][..i] == candidates[..i];
        var removed := DeleteOne(uri);
        if removed {
          removedFiles := removedFiles + [uri];
          deleted := deleted + 1;
        }
        gone := gone + if IsDeletableLocalFile(platform, uri) then {uri} else {};
      }
      assert candidates[..|candidates|] == candidates;
      SizeOfListed(removedFiles, old(files) * gone);
    }

    /** `clearAllCapturedData`: deletes the photos the log refers to when asked
        to and in file mode, then empties the log or removes it; the report
        always says `ok` and `logCleared`. */
    method ClearAll(deleteImages: bool, removeLogFile: bool) returns (result: ClearResult)
      requires Valid()
      modifies this
      ensures Valid()
      ensures entries == [] && logStored == !removeLogFile
      ensures deleteImages && !platform.UseAsync() ==>
        files == old(files) - DeletableAmong(platform, CandidateUris(old(entries)))
      ensures !(deleteImages && !platform.UseAsync()) ==> files == old(files)
      ensures result.ok && result.logCleared
      ensures result.deletedImages ==
        if deleteImages && !platform.UseAsync()
        then |old(files) * DeletableAmong(platform, CandidateUris(old(entries)))| else 0
      ensures result.deletedImages <= |CandidateUris(old(entries))|
      ensures result.storage == if platform.UseAsync() then "async" else "file"
      ensures result.logPath == platform.CaptureLogPath()
    {
      var candidates := CandidateUris(entries);
      var deleted := 0;
      if deleteImages && !platform.UseAsync() {
        deleted := DeleteImages(candidates);
      }
      entries := [];
      logStored := !removeLogFile;
      result := ClearResult(true, deleted, true, if platform.UseAsync() then "async" else "file", platform.CaptureLogPath());
    }

    /** `clearAllCapturedData()` with no options: `deleteImages` defaults to
        true and `removeLogFile` to false, so the images the log refers to are
        deleted (in file mode) and the log is kept, empty. */
    method ClearAllDefaults() returns (result: ClearResult)
      requires Valid()
      modifies this
      ensures Valid()
      ensures entries == [] && logStored
      ensures !platform.UseAsync() ==> files == old(files) - DeletableAmong(platform, CandidateUris(old(entries)))
      ensures platform.UseAsync() ==> files == old(files) && result.deletedImages == 0
      ensures result.ok && result.logCleared && result.logPath == platform.CaptureLogPath()
    {
      result := ClearAll(true, false);
    }
  }
}
