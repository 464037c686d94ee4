// The older catalog manager kept in `src/gui/widgets/folder_tree.py`. It
// shares the entries and queries of the newer one but has no folders on
// disk: moving an entry only relabels it. It adds the library import with
// id de-duplication, the batch migration report and the `.blend`
// validation report.

module LegacyLibrary {
  import opened Text
  import opened Collections
  import opened AnimationData
  import opened Catalog

  // ---------------------------------------------------------------------
  // Fresh ids for imported entries
  // ---------------------------------------------------------------------

  /** `f"{original_id}_{counter}"`. */
  function Suffixed(original: string, k: int): string
  {
    original + "_" + IntToString(k)
  }

  /** Different counters give different ids. */
  lemma SuffixedInjective(original: string, a: int, b: int)
    requires Suffixed(original, a) == Suffixed(original, b)
    ensures a == b
  {
    var n := |original| + 1;
    assert Suffixed(original, a)[n..] == IntToString(a);
    assert Suffixed(original, b)[n..] == IntToString(b);
    ParseIntToString(a);
    ParseIntToString(b);
  }

  /** The ids tried before counter `k`. */
  ghost function Tried(original: string, k: int): set<string>
  {
    set j | 1 <= j < k :: Suffixed(original, j)
  }

  lemma TriedStep(original: string, k: int)
    requires k >= 1
    ensures Tried(original, k + 1) == Tried(original, k) + {Suffixed(original, k)}
    ensures Suffixed(original, k) !in Tried(original, k)
  {
    if Suffixed(original, k) in Tried(original, k) {
      var j :| 1 <= j < k && Suffixed(original, j) == Suffixed(original, k);
      SuffixedInjective(original, j, k);
    }
  }

  /**
   * The counter `import_library` settles on: the smallest `r >= k` whose
   * suffixed id is free, given that the ids below `k` are all taken.
   */
  function FreeSuffix(taken: set<string>, original: string, k: int): (r: int)
    requires k >= 1
    requires forall j :: 1 <= j < k ==> Suffixed(original, j) in taken
    ensures r >= k && Suffixed(original, r) !in taken
    ensures forall j :: 1 <= j < r ==> Suffixed(original, j) in taken
    decreases taken - Tried(original, k)
  {
    if Suffixed(original, k) !in taken then k
    else
      TriedStep(original, k);
      FreeSuffix(taken, original, k + 1)
  }

  /** Starting the search later, past taken ids only, finds the same counter. */
  lemma FreeSuffixFrom(taken: set<string>, original: string, k: int)
    requires k >= 1
    requires forall j :: 1 <= j < k ==> Suffixed(original, j) in taken
    ensures FreeSuffix(taken, original, 1) == FreeSuffix(taken, original, k)
  {
    var r1 := FreeSuffix(taken, original, 1);
    var rk := FreeSuffix(taken, original, k);
  }

  // ---------------------------------------------------------------------
  // Importing another library
  // ---------------------------------------------------------------------

  /**
   * One record of the imported library: an unreadable record (`None`) is
   * skipped; a fresh key is stored as it is; a taken key is renamed with the
   * first free counter when merging, and skipped otherwise.
   */
  function ImportRecord(d: Dict<Entry>, key: string, decoded: Option<Entry>, merge: bool): Dict<Entry>
  {
    match decoded
    case None => d
    case Some(e) =>
      if key !in d.items then Put(d, key, e)
      else if merge then
        var newId := Suffixed(key, FreeSuffix(d.items.Keys, key, 1));
        Put(d, newId, e.(meta := e.meta.(id := newId)))
      else d
  }

  /** The records of the imported library, in its order. */
  function ImportRecords(d: Dict<Entry>, keys: seq<string>, records: map<string, Option<Entry>>, merge: bool): Dict<Entry>
    requires forall k :: k in keys ==> k in records
    decreases |keys|
  {
    if |keys| == 0 then d
    else ImportRecords(ImportRecord(d, keys[0], records[keys[0]], merge), keys[1..], records, merge)
  }

  /**
   * The `.blend` file one record brings along: a record that is stored (it
   * was readable and its key was free, or merging renamed it) and keeps its
   * animation in a `.blend` file has that file copied when the imported
   * library's `actions` folder holds it.
   */
  function CopiedFile(d: Dict<Entry>, key: string, decoded: Option<Entry>, merge: bool, incomingFiles: set<string>): set<string>
  {
    match decoded
    case None => {}
    case Some(e) =>
      if (key !in d.items || merge) && IsBlendStorage(e) && e.blendFile.Some? && e.blendFile.value in incomingFiles
      then {e.blendFile.value} else {}
  }

  /** The `.blend` files an import copies, record by record. */
  function CopiedFiles(d: Dict<Entry>, keys: seq<string>, records: map<string, Option<Entry>>, merge: bool, incomingFiles: set<string>): set<string>
    requires forall k :: k in keys ==> k in records
    decreases |keys|
  {
    if |keys| == 0 then {}
    else CopiedFile(d, keys[0], records[keys[0]], merge, incomingFiles)
         + CopiedFiles(ImportRecord(d, keys[0], records[keys[0]], merge), keys[1..], records, merge, incomingFiles)
  }

  /** Record `i` of an import, then the records after it. */
  lemma ImportStep(d: Dict<Entry>, keys: seq<string>, records: map<string, Option<Entry>>, merge: bool, incomingFiles: set<string>, i: nat)
    requires forall k :: k in keys ==> k in records
    requires i < |keys|
    ensures ImportRecords(d, keys[i..], records, merge) == ImportRecords(ImportRecord(d, keys[i], records[keys[i]], merge), keys[i + 1..], records, merge)
    ensures CopiedFiles(d, keys[i..], records, merge, incomingFiles) ==
      CopiedFile(d, keys[i], records[keys[i]], merge, incomingFiles) + CopiedFiles(ImportRecord(d, keys[i], records[keys[i]], merge), keys[i + 1..], records, merge, incomingFiles)
  {
    assert keys[i..][0] == keys[i];
    assert keys[i..][1..] == keys[i + 1..];
  }

  /**
   * A merging import copies exactly the `.blend` files of the readable
   * records kept in `.blend` files that the imported library holds.
   */
  lemma {:induction false} MergeCopiesEveryBlend(d: Dict<Entry>, keys: seq<string>, records: map<string, Option<Entry>>, incomingFiles: set<string>)
    requires forall k :: k in keys ==> k in records
    ensures forall f :: f in CopiedFiles(d, keys, records, true, incomingFiles) <==>
      f in incomingFiles && exists k :: k in keys && records[k].Some? && IsBlendStorage(records[k].value) && records[k].value.blendFile == Some(f)
    decreases |keys|
  {
    if |keys| > 0 {
      var d1 := ImportRecord(d, keys[0], records[keys[0]], true);
      MergeCopiesEveryBlend(d1, keys[1..], records, incomingFiles);
      forall f ensures f in CopiedFiles(d, keys, records, true, incomingFiles) <==>
        f in incomingFiles && exists k :: k in keys && records[k].Some? && IsBlendStorage(records[k].value) && records[k].value.blendFile == Some(f)
      {
        if f in incomingFiles && exists k :: k in keys && records[k].Some? && IsBlendStorage(records[k].value) && records[k].value.blendFile == Some(f) {
          var k :| k in keys && records[k].Some? && IsBlendStorage(records[k].value) && records[k].value.blendFile == Some(f);
          if k != keys[0] {
            var i :| 0 <= i < |keys| && keys[i] == k;
            assert keys[1..][i - 1] == k;
          }
        }
      }
    }
  }

  /** Without merging, a record whose key is taken brings no file along. */
  lemma {:induction false} NoMergeCopiesOnlyStored(d: Dict<Entry>, keys: seq<string>, records: map<string, Option<Entry>>, incomingFiles: set<string>)
    requires forall k :: k in keys ==> k in records
    ensures forall f :: f in CopiedFiles(d, keys, records, false, incomingFiles) ==>
      f in incomingFiles && exists k :: k in keys && k !in d.items && records[k].Some? && IsBlendStorage(records[k].value) && records[k].value.blendFile == Some(f)
    decreases |keys|
  {
    if |keys| > 0 {
      var d1 := ImportRecord(d, keys[0], records[keys[0]], false);
      NoMergeCopiesOnlyStored(d1, keys[1..], records, incomingFiles);
      assert d.items.Keys <= d1.items.Keys;
    }
  }

  /**
   * The counter loop of `import_library`: starting from a taken id, try
   * `original_1`, `original_2`, ... until one is free in the catalog `d`.
   */
  method FreshId(d: Dict<Entry>, original: string) returns (id: string)
    requires original in d.items
    ensures id == Suffixed(original, FreeSuffix(d.items.Keys, original, 1))
    ensures id !in d.items
  {
    var counter := 1;
    id := Suffixed(original, counter);
    counter := counter + 1;
    while id in d.items
      invariant counter >= 2 && id == Suffixed(original, counter - 1)
      invariant forall j :: 1 <= j < counter - 1 ==> Suffixed(original, j) in d.items
      decreases d.items.Keys - Tried(original, counter - 1)
    {
      TriedStep(original, counter - 1);
      id := Suffixed(original, counter);
      counter := counter + 1;
    }
    FreeSuffixFrom(d.items.Keys, original, counter - 1);
  }

  /**
   * The body of the `import_library` loop for one record: store it as
   * `ImportRecord` says, and copy its `.blend` file as `CopiedFile` says.
   */
  method ImportOne(catalog: Dict<Entry>, copied: set<string>, key: string, decoded: Option<Entry>, merge: bool, incomingFiles: set<string>)
    returns (catalog': Dict<Entry>, copied': set<string>)
    ensures catalog' == ImportRecord(catalog, key, decoded, merge)
    ensures copied' == copied + CopiedFile(catalog, key, decoded, merge, incomingFiles)
  {
    catalog', copied' := catalog, copied;
    if decoded.Some? {
      var e := decoded.value;
      var stored := true;
      if key in catalog.items {
        if merge {
          var newId := FreshId(catalog, key);
          catalog' := Put(catalog, newId, e.(meta := e.meta.(id := newId)));
        } else {
          stored := false;
        }
      } else {
        catalog' := Put(catalog, key, e);
      }
      if stored && IsBlendStorage(e) && e.blendFile.Some? && e.blendFile.value in incomingFiles {
        copied' := copied + {e.blendFile.value};
      }
    }
  }

  /** How many of the records could be read. */
  function Readable(keys: seq<string>, records: map<string, Option<Entry>>): nat
    requires forall k :: k in keys ==> k in records
  {
    if |keys| == 0 then 0 else (if records[keys[0]].Some? then 1 else 0) + Readable(keys[1..], records)
  }

  /**
   * A merging import never overwrites an entry and stores every readable
   * record: the catalog grows by exactly their number.
   */
  lemma {:induction false} MergeStoresEveryRecord(d: Dict<Entry>, keys: seq<string>, records: map<string, Option<Entry>>)
    requires forall k :: k in keys ==> k in records
    ensures Extends(d, ImportRecords(d, keys, records, true))
    ensures |ImportRecords(d, keys, records, true).keys| == |d.keys| + Readable(keys, records)
    decreases |keys|
  {
    if |keys| > 0 {
      var d1 := ImportRecord(d, keys[0], records[keys[0]], true);
      assert Extends(d, d1);
      MergeStoresEveryRecord(d1, keys[1..], records);
      ExtendsTrans(d, d1, ImportRecords(d, keys, records, true));
    }
  }

  /**
   * Without merging, an import never overwrites an entry, and the new ids
   * are exactly the readable records whose key was free, each stored as
   * read.
   */
  lemma {:induction false} NoMergeSkipsTaken(d: Dict<Entry>, keys: seq<string>, records: map<string, Option<Entry>>)
    requires forall k :: k in keys ==> k in records
    ensures Extends(d, ImportRecords(d, keys, records, false))
    ensures forall k :: k in ImportRecords(d, keys, records, false).items <==>
      k in d.items || (k in keys && records[k].Some?)
    ensures forall k :: k in ImportRecords(d, keys, records, false).items && k !in d.items ==>
      ImportRecords(d, keys, records, false).items[k] == records[k].value
    decreases |keys|
  {
    if |keys| > 0 {
      var d1 := ImportRecord(d, keys[0], records[keys[0]], false);
      var r := ImportRecords(d, keys, records, false);
      assert Extends(d, d1);
      NoMergeSkipsTaken(d1, keys[1..], records);
      ExtendsTrans(d, d1, r);
      forall k ensures k in r.items <==> k in d.items || (k in keys && records[k].Some?)
      {
        if k in keys && k != keys[0] {
          var i :| 0 <= i < |keys| && keys[i] == k;
          assert keys[1..][i - 1] == k;
        }
      }
    }
  }

  // ---------------------------------------------------------------------
  // Migration and validation reports
  // ---------------------------------------------------------------------

  /**
   * `migrate_animation_to_blend`: an unknown id fails, an entry already in a
   * `.blend` file succeeds, a JSON entry is marked for migration (success),
   * and any other storage method fails.
   */
  predicate MigrationSucceeds(d: Dict<Entry>, id: string)
  {
    id in d.items && (IsBlendStorage(d.items[id]) || IsLegacyStorage(d.items[id]))
  }

  /** How many of the listed entries `migrate_animation_to_blend` accepts. */
  function MigratedCount(entries: seq<Entry>, d: Dict<Entry>): nat
  {
    Count(entries, (e: Entry) => MigrationSucceeds(d, e.meta.id))
  }

  lemma MigratedCountSnoc(entries: seq<Entry>, e: Entry, d: Dict<Entry>)
    ensures MigratedCount(entries + [e], d) == MigratedCount(entries, d) + (if MigrationSucceeds(d, e.meta.id) then 1 else 0)
  {
    CountSnoc(entries, e, (e: Entry) => MigrationSucceeds(d, e.meta.id));
  }

  lemma MigratedCountPrefix(entries: seq<Entry>, i: nat, d: Dict<Entry>)
    requires i < |entries|
    ensures MigratedCount(entries[..i + 1], d) == MigratedCount(entries[..i], d) + (if MigrationSucceeds(d, entries[i].meta.id) then 1 else 0)
  {
    assert entries[..i + 1] == entries[..i] + [entries[i]];
    MigratedCountSnoc(entries[..i], entries[i], d);
  }

  /** The report of `batch_migrate_to_blend`. */
  datatype MigrationReport = MigrationReport(migrated: nat, failed: nat, total: nat)

  /** Every entry is stored under its own id. */
  ghost predicate IdsMatchKeys(d: Dict<Entry>)
  {
    forall k :: k in d.items ==> d.items[k].meta.id == k
  }

  /**
   * When every entry sits under its own id, the migration of each listed
   * JSON entry succeeds. (Entries renamed by a non-merging import can sit
   * under a key other than their id; their migration looks up the id and
   * may fail.)
   */
  lemma AllLegacyMigrate(d: Dict<Entry>, files: set<string>)
    requires IdsMatchKeys(d)
    ensures MigratedCount(LegacyAnimations(d, files), d) == |LegacyAnimations(d, files)|
  {
    var legacy := LegacyAnimations(d, files);
    forall i | 0 <= i < |legacy| ensures MigrationSucceeds(d, legacy[i].meta.id)
    {
      var e := legacy[i];
      assert e in AllAnimations(d, files);
      assert e in Values(d);
      var j :| 0 <= j < |Values(d)| && Values(d)[j] == e;
      assert d.items[d.keys[j]] == e;
    }
    FilterAll(legacy, (e: Entry) => MigrationSucceeds(d, e.meta.id));
  }

  /** The report of `validate_blend_files`. */
  datatype Validation = Validation(valid: seq<string>, missing: seq<string>, orphaned: set<string>)

  /** The `.blend` files the listed `.blend` entries refer to. */
  function ReferencedFiles(entries: seq<Entry>): (r: set<string>)
    ensures forall i :: 0 <= i < |entries| && entries[i].blendFile.Some? ==> entries[i].blendFile.value in r
    ensures forall f :: f in r ==> exists i :: 0 <= i < |entries| && entries[i].blendFile == Some(f)
  {
    set i | 0 <= i < |entries| && entries[i].blendFile.Some? :: entries[i].blendFile.value
  }

  /** Names of the listed entries whose `.blend` file exists, or does not. */
  function NamesWhere(entries: seq<Entry>, files: set<string>, exists_: bool): (r: seq<string>)
    ensures |r| <= |entries|
  {
    if |entries| == 0 then []
    else (if BlendExists(entries[0], files) == exists_ then [entries[0].meta.name] else []) + NamesWhere(entries[1..], files, exists_)
  }

  /** Every listed entry is reported exactly once, as valid or as missing. */
  lemma {:induction false} NamesWhereSplit(entries: seq<Entry>, files: set<string>)
    ensures |NamesWhere(entries, files, true)| + |NamesWhere(entries, files, false)| == |entries|
    decreases |entries|
  {
    if |entries| > 0 {
      NamesWhereSplit(entries[1..], files);
    }
  }

  /**
   * `validate_blend_files`: valid and missing entries, and the orphaned files.
   * Each `.blend` entry is reported once, and the orphans are files on disk.
   */
  function ValidateBlendFiles(d: Dict<Entry>, files: set<string>): (r: Validation)
    ensures |r.valid| + |r.missing| == |BlendFileAnimations(d, files)|
    ensures r.orphaned <= files
  {
    var blend := BlendFileAnimations(d, files);
    NamesWhereSplit(blend, files);
    Validation(NamesWhere(blend, files, true), NamesWhere(blend, files, false), files - ReferencedFiles(blend))
  }

  /** Every listed entry has its file, so nothing is reported missing and every listed entry is valid. */
  lemma {:induction false} AllListedValid(entries: seq<Entry>, files: set<string>)
    requires forall i :: 0 <= i < |entries| ==> BlendExists(entries[i], files)
    ensures NamesWhere(entries, files, false) == []
    ensures |NamesWhere(entries, files, true)| == |entries|
    decreases |entries|
  {
    if |entries| > 0 {
      AllListedValid(entries[1..], files);
    }
  }

  /**
   * An orphan is a file on disk that no listed `.blend` entry refers to, and
   * every file on disk is either referenced or orphaned. Because the listing
   * already drops entries whose file is gone, no entry is ever reported
   * missing.
   */
  lemma ValidationSpec(d: Dict<Entry>, files: set<string>)
    ensures ValidateBlendFiles(d, files).orphaned <= files
    ensures forall f :: f in ValidateBlendFiles(d, files).orphaned ==>
      forall e :: e in BlendFileAnimations(d, files) ==> e.blendFile != Some(f)
    ensures files <= ValidateBlendFiles(d, files).orphaned + ReferencedFiles(BlendFileAnimations(d, files))
    ensures ValidateBlendFiles(d, files).missing == []
    ensures |ValidateBlendFiles(d, files).valid| == |BlendFileAnimations(d, files)|
  {
    var blend := BlendFileAnimations(d, files);
    forall i | 0 <= i < |blend| ensures BlendExists(blend[i], files)
    {
      assert blend[i] in AllAnimations(d, files);
    }
    AllListedValid(blend, files);
  }

  // ---------------------------------------------------------------------
  // The manager
  // ---------------------------------------------------------------------

  class AnimationLibraryManager {
    /** `self.animations`: id to entry, in insertion order. */
    var animations: Dict<Entry>
    /** The `.blend` file names present in the `actions/` folder. */
    var files: set<string>

    constructor(diskFiles: set<string>)
      ensures animations == Empty() && files == diskFiles
    {
      animations := Empty();
      files := diskFiles;
    }

    /** `add_animation`: stored under its id with the given folder, replacing any entry with that id. */
    method AddAnimation(e: Entry, folder: string) returns (ok: bool)
      modifies this
      ensures ok
      ensures animations == Put(old(animations), e.meta.id, e.(folderPath := Some(folder)))
      ensures files == old(files)
    {
      animations := Put(animations, e.meta.id, e.(folderPath := Some(folder)));
      return true;
    }

    /** `remove_animation`. */
    method RemoveAnimation(id: string) returns (ok: bool)
      modifies this
      ensures ok <==> id in old(animations).items
      ensures !ok ==> animations == old(animations) && files == old(files)
      ensures ok ==> animations == Remove(old(animations), id) && files == FilesAfterRemoval(old(files), old(animations).items[id])
    {
      if id !in animations.items {
        return false;
      }
      var e := animations.items[id];
      animations := Remove(animations, id);
      files := FilesAfterRemoval(files, e);
      return true;
    }

    /** `move_animation_to_folder`: only the entry's folder changes. */
    method MoveAnimationToFolder(id: string, newFolder: string) returns (ok: bool)
      modifies this
      ensures ok <==> id in old(animations).items
      ensures ok ==> animations == Put(old(animations), id, old(animations).items[id].(folderPath := Some(newFolder)))
      ensures !ok ==> animations == old(animations)
      ensures files == old(files)
    {
      if id !in animations.items {
        return false;
      }
      animations := Put(animations, id, animations.items[id].(folderPath := Some(newFolder)));
      return true;
    }

    /** `get_folder_statistics`, the same pass as in the newer manager. */
    method GetFolderStatistics() returns (stats: Statistics)
      ensures stats == FolderStatistics(Values(animations))
      ensures RowsAddUp(stats) && SumTotals(stats.keys, stats.items) == |animations.keys|
    {
      var entries := Values(animations);
      stats := Empty();
      var i := 0;
      while i < |animations.keys|
        invariant 0 <= i <= |animations.keys|
        invariant stats == FolderStatistics(entries[..i])
      {
        assert entries[..i + 1][..i] == entries[..i];
        stats := CountEntry(stats, animations.items[animations.keys[i]]);
        i := i + 1;
      }
      assert entries[..i] == entries;
      FolderStatisticsTotals(entries);
    }

    /** `migrate_animation_to_blend`. */
    method MigrateAnimationToBlend(id: string) returns (ok: bool)
      ensures ok == MigrationSucceeds(animations, id)
    {
      if id !in animations.items {
        return false;
      }
      var e := animations.items[id];
      if IsBlendStorage(e) {
        return true;
      }
      if !IsLegacyStorage(e) {
        return false;
      }
      return true;
    }

    /**
     * `batch_migrate_to_blend`: every listed JSON entry is tried once by its
     * id, so the migrated and failed counts add up to the total.
     */
    method BatchMigrateToBlend() returns (r: MigrationReport)
      ensures r.migrated + r.failed == r.total
      ensures r.total == |LegacyAnimations(animations, files)|
      ensures r.migrated == MigratedCount(LegacyAnimations(animations, files), animations)
    {
      var legacy := LegacyAnimations(animations, files);
      if |legacy| == 0 {
        return MigrationReport(0, 0, 0);
      }
      var migrated := 0;
      var failed := 0;
      var i := 0;
      while i < |legacy|
        invariant 0 <= i <= |legacy|
        invariant migrated + failed == i
        invariant migrated == MigratedCount(legacy[..i], animations)
      {
        var ok := MigrateAnimationToBlend(legacy[i].meta.id);
        MigratedCountPrefix(legacy, i, animations);
        if ok {
          migrated := migrated + 1;
        } else {
          failed := failed + 1;
        }
        i := i + 1;
      }
      assert legacy[..i] == legacy;
      return MigrationReport(migrated, failed, |legacy|);
    }

    /**
     * `import_library`. `incoming` is the imported library's `animations`
     * dictionary with each record already read (`None` where reading it
     * raised), or `None` when the library has no readable metadata file.
     */
    method ImportLibrary(incoming: Option<OrderedDict<string, Option<Entry>>>, incomingFiles: set<string>, merge: bool) returns (ok: bool)
      modifies this
      ensures incoming.None? ==> !ok && animations == old(animations) && files == old(files)
      ensures incoming.Some? ==> ok && animations == ImportRecords(old(animations), incoming.value.keys, incoming.value.items, merge)
      ensures incoming.Some? ==> files == old(files) + CopiedFiles(old(animations), incoming.value.keys, incoming.value.items, merge, incomingFiles)
    {
      if incoming.None? {
        return false;
      }
      var records := incoming.value;
      var catalog := animations;
      var copied := files;
      var i := 0;
      while i < |records.keys|
        modifies {}
        invariant 0 <= i <= |records.keys|
        invariant ImportRecords(animations, records.keys, records.items, merge) == ImportRecords(catalog, records.keys[i..], records.items, merge)
        invariant files + CopiedFiles(animations, records.keys, records.items, merge, incomingFiles)
          == copied + CopiedFiles(catalog, records.keys[i..], records.items, merge, incomingFiles)
      {
        var key := records.keys[i];
        ghost var before := catalog;
        catalog, copied := ImportOne(catalog, copied, key, records.items[key], merge, incomingFiles);
        ImportStep(before, records.keys, records.items, merge, incomingFiles, i);
        i := i + 1;
      }
      animations := catalog;
      files := copied;
      return true;
    }
  }
}
