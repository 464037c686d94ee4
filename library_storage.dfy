// The catalog manager of `src/core/library_storage.py`: the in-memory
// dictionary of entries keyed by animation id, and the folders under the
// library's `animations/` directory. The disk is abstracted as the set of
// folder names and the set of `.blend` file names present; saving
// `library_metadata.json` is not part of this model.

module LibraryStorage {
  import opened Text
  import opened Collections
  import opened AnimationData
  import opened Catalog

  /** The folders `delete_folder` refuses to delete. */
  const ProtectedFolders: set<string> := {"Root", "All Animations", "Custom Folders"}

  /**
   * A stripped name that the `exists()` test of `create_folder` finds on disk
   * whatever folders there are: "." is the `animations/` directory itself and
   * ".." its parent; a name holding NUL makes the path test raise, and the
   * source reports the error as a refusal.
   */
  predicate PathSpecial(stripped: string)
  {
    stripped == "." || stripped == ".." || '\0' in stripped
  }

  /**
   * `create_folder`'s refusals: a name that is blank once stripped, a name
   * with a path separator, and a stripped name that already exists on disk,
   * either as a folder or as one of the path-special names.
   */
  predicate FolderNameAccepted(folders: set<string>, name: string)
  {
    Strip(name) != [] && '/' !in name && '\\' !in name && !PathSpecial(Strip(name)) && Strip(name) !in folders
  }

  /** An entry of a deleted folder goes to "Root"; any other entry stays where it is. */
  function RehomeEntry(e: Entry, folder: string): Entry
  {
    if e.folderPath == Some(folder) then e.(folderPath := Some("Root")) else e
  }

  /** The catalog after `delete_folder` has moved the folder's entries to "Root". */
  function Rehomed(d: Dict<Entry>, folder: string): Dict<Entry>
  {
    RawDict(d.keys, map k | k in d.items :: RehomeEntry(d.items[k], folder))
  }

  /**
   * Re-homing keeps the ids and their order, moves exactly the entries of
   * the folder to "Root", changes nothing else about any entry, and leaves
   * the folder's listing empty.
   */
  lemma RehomedSpec(d: Dict<Entry>, folder: string)
    requires folder != "Root"
    ensures Rehomed(d, folder).keys == d.keys
    ensures forall k :: k in d.items ==>
      Rehomed(d, folder).items[k].folderPath == (if d.items[k].folderPath == Some(folder) then Some("Root") else d.items[k].folderPath)
    ensures forall k :: k in d.items ==>
      Rehomed(d, folder).items[k] == d.items[k].(folderPath := Rehomed(d, folder).items[k].folderPath)
    ensures AnimationsInFolder(Rehomed(d, folder), folder) == []
  {
    var r := Rehomed(d, folder);
    forall i | 0 <= i < |Values(r)| ensures !InFolder(Values(r)[i], folder)
    {
      assert Values(r)[i] == RehomeEntry(d.items[d.keys[i]], folder);
    }
    NoneSelected(Values(r), folder);
  }

  /** A listing none of whose entries is in the folder selects nothing. */
  lemma {:induction false} NoneSelected(entries: seq<Entry>, folder: string)
    requires forall i :: 0 <= i < |entries| ==> !InFolder(entries[i], folder)
    ensures InFolderListing(entries, folder) == []
    decreases |entries|
  {
    if |entries| > 0 {
      NoneSelected(entries[1..], folder);
    }
  }

  /** The entries of a listing after re-homing. */
  function RehomeAll(entries: seq<Entry>, folder: string): (r: seq<Entry>)
    ensures |r| == |entries|
    ensures forall i :: 0 <= i < |r| ==> r[i] == RehomeEntry(entries[i], folder)
  {
    seq(|entries|, i requires 0 <= i < |entries| => RehomeEntry(entries[i], folder))
  }

  /**
   * Deleting a folder adds its entries to the exact-match count of "Root":
   * no entry is lost or counted twice.
   */
  lemma {:induction false} RehomeCounts(entries: seq<Entry>, folder: string)
    requires folder != "Root"
    ensures PathCount(RehomeAll(entries, folder), Some("Root")) == PathCount(entries, Some("Root")) + PathCount(entries, Some(folder))
    ensures PathCount(RehomeAll(entries, folder), Some(folder)) == 0
    decreases |entries|
  {
    if |entries| > 0 {
      assert RehomeAll(entries, folder)[1..] == RehomeAll(entries[1..], folder);
      RehomeCounts(entries[1..], folder);
    }
  }

  /** The catalog's values after re-homing are the re-homed values. */
  lemma RehomedValues(d: Dict<Entry>, folder: string)
    ensures Values(Rehomed(d, folder)) == RehomeAll(Values(d), folder)
  {
  }

  // ---------------------------------------------------------------------
  // Importing `.blend` files found on disk
  // ---------------------------------------------------------------------

  /** One directory under `animations/` and the `.blend` files it holds. */
  datatype FolderListing = FolderListing(name: string, blendFiles: seq<string>)

  /** `blend_filename.replace(".blend", "")`. */
  function ImportedId(fileName: string): string
  {
    ReplaceAll(fileName, ".blend", "")
  }

  /** The record `detect_and_import_existing_blend_files` builds for a file it finds. */
  function ImportedEntry(folder: string, fileName: string, now: string): (e: Entry)
    ensures e.meta.id == ImportedId(fileName) && e.folderPath == Some(folder)
    ensures IsBlendStorage(e) && e.blendFile == Some(fileName)
    ensures e.meta.durationFrames == 100.0
  {
    var id := ImportedId(fileName);
    var meta := AnimationMetadata(
      id, ReplaceAll(id, "_", " "), "Imported from existing .blend file", "Unknown",
      (1.0, 100.0), 1, 1, Empty(), now, "unknown", [], "extracted", 0.0, "", 0.0, 0, None);
    Entry(PostInit(meta), Some(folder), "blend_file", Some(fileName))
  }

  /** One file: catalogued unless its id is already present. */
  function ImportFile(d: Dict<Entry>, folder: string, fileName: string, now: string): Dict<Entry>
  {
    var id := ImportedId(fileName);
    if id in d.items then d else Put(d, id, ImportedEntry(folder, fileName, now))
  }

  /** The files of one folder, in listing order. */
  function ImportFolder(d: Dict<Entry>, folder: string, names: seq<string>, now: string): Dict<Entry>
    decreases |names|
  {
    if |names| == 0 then d else ImportFolder(ImportFile(d, folder, names[0], now), folder, names[1..], now)
  }

  /** Every folder of the scan, in listing order. */
  function ImportScan(d: Dict<Entry>, scan: seq<FolderListing>, now: string): Dict<Entry>
    decreases |scan|
  {
    if |scan| == 0 then d else ImportScan(ImportFolder(d, scan[0].name, scan[0].blendFiles, now), scan[1..], now)
  }

  /** Importing one folder's files keeps every existing entry and its place. */
  lemma {:induction false} ImportFolderExtends(d: Dict<Entry>, folder: string, names: seq<string>, now: string)
    ensures Extends(d, ImportFolder(d, folder, names, now))
    decreases |names|
  {
    if |names| > 0 {
      var d1 := ImportFile(d, folder, names[0], now);
      assert Extends(d, d1);
      ImportFolderExtends(d1, folder, names[1..], now);
      ExtendsTrans(d, d1, ImportFolder(d, folder, names, now));
    }
  }

  /**
   * Importing one folder's files keeps every existing entry, catalogues
   * every file of the folder, and adds nothing but imports of those files.
   */
  lemma ImportFolderSpec(d: Dict<Entry>, folder: string, names: seq<string>, now: string)
    ensures Extends(d, ImportFolder(d, folder, names, now))
    ensures forall b :: 0 <= b < |names| ==> ImportedId(names[b]) in ImportFolder(d, folder, names, now).items
    ensures forall k :: k in ImportFolder(d, folder, names, now).items && k !in d.items ==>
      exists b :: 0 <= b < |names| && k == ImportedId(names[b]) && ImportFolder(d, folder, names, now).items[k] == ImportedEntry(folder, names[b], now)
  {
    ImportFolderExtends(d, folder, names, now);
    ImportFolderCovers(d, folder, names, now);
    ImportFolderOnly(d, folder, names, now);
  }

  /** Every file of the folder is catalogued. */
  lemma {:induction false} ImportFolderCovers(d: Dict<Entry>, folder: string, names: seq<string>, now: string)
    ensures forall b :: 0 <= b < |names| ==> ImportedId(names[b]) in ImportFolder(d, folder, names, now).items
    decreases |names|
  {
    if |names| > 0 {
      var d1 := ImportFile(d, folder, names[0], now);
      var r := ImportFolder(d, folder, names, now);
      ImportFolderCovers(d1, folder, names[1..], now);
      ImportFolderExtends(d1, folder, names[1..], now);
      assert ImportedId(names[0]) in d1.items;
      forall b | 0 <= b < |names| ensures ImportedId(names[b]) in r.items
      {
        if b > 0 {
          assert names[b] == names[1..][b - 1];
        }
      }
    }
  }

  /** Every entry the folder adds is the import of one of its files. */
  lemma {:induction false} ImportFolderOnly(d: Dict<Entry>, folder: string, names: seq<string>, now: string)
    ensures forall k :: k in ImportFolder(d, folder, names, now).items && k !in d.items ==>
      exists b :: 0 <= b < |names| && k == ImportedId(names[b]) && ImportFolder(d, folder, names, now).items[k] == ImportedEntry(folder, names[b], now)
    decreases |names|
  {
    if |names| > 0 {
      var d1 := ImportFile(d, folder, names[0], now);
      var r := ImportFolder(d, folder, names, now);
      ImportFolderOnly(d1, folder, names[1..], now);
      ImportFolderExtends(d1, folder, names[1..], now);
      forall k | k in r.items && k !in d.items
        ensures exists b :: 0 <= b < |names| && k == ImportedId(names[b]) && r.items[k] == ImportedEntry(folder, names[b], now)
      {
        if k in d1.items {
          assert k == ImportedId(names[0]) && r.items[k] == ImportedEntry(folder, names[0], now);
        } else {
          var b :| 0 <= b < |names[1..]| && k == ImportedId(names[1..][b]) && r.items[k] == ImportedEntry(folder, names[1..][b], now);
          assert names[1..][b] == names[b + 1];
        }
      }
    }
  }

  /**
   * Importing a whole scan keeps every existing entry, catalogues every
   * scanned file, and adds nothing but imports of scanned files, each in
   * the folder it was found in.
   */
  lemma ImportScanSpec(d: Dict<Entry>, scan: seq<FolderListing>, now: string)
    ensures Extends(d, ImportScan(d, scan, now))
    ensures forall a, b :: 0 <= a < |scan| && 0 <= b < |scan[a].blendFiles| ==> ImportedId(scan[a].blendFiles[b]) in ImportScan(d, scan, now).items
    ensures forall k :: k in ImportScan(d, scan, now).items && k !in d.items ==>
      exists a, b :: 0 <= a < |scan| && 0 <= b < |scan[a].blendFiles| && k == ImportedId(scan[a].blendFiles[b]) &&
        ImportScan(d, scan, now).items[k] == ImportedEntry(scan[a].name, scan[a].blendFiles[b], now)
  {
    ImportScanCovers(d, scan, now);
    ImportScanOnly(d, scan, now);
  }

  /** A scan keeps every existing entry and catalogues every scanned file. */
  lemma {:induction false} ImportScanCovers(d: Dict<Entry>, scan: seq<FolderListing>, now: string)
    ensures Extends(d, ImportScan(d, scan, now))
    ensures forall a, b :: 0 <= a < |scan| && 0 <= b < |scan[a].blendFiles| ==> ImportedId(scan[a].blendFiles[b]) in ImportScan(d, scan, now).items
    decreases |scan|
  {
    if |scan| > 0 {
      var d1 := ImportFolder(d, scan[0].name, scan[0].blendFiles, now);
      var r := ImportScan(d, scan, now);
      ImportFolderSpec(d, scan[0].name, scan[0].blendFiles, now);
      ImportScanCovers(d1, scan[1..], now);
      ExtendsTrans(d, d1, r);
      forall a, b | 0 <= a < |scan| && 0 <= b < |scan[a].blendFiles| ensures ImportedId(scan[a].blendFiles[b]) in r.items
      {
        if a > 0 {
          assert scan[a] == scan[1..][a - 1];
        }
      }
    }
  }

  /** Every entry a scan adds is the import of a scanned file, in the folder it was found in. */
  lemma {:induction false} ImportScanOnly(d: Dict<Entry>, scan: seq<FolderListing>, now: string)
    ensures forall k :: k in ImportScan(d, scan, now).items && k !in d.items ==>
      exists a, b :: 0 <= a < |scan| && 0 <= b < |scan[a].blendFiles| && k == ImportedId(scan[a].blendFiles[b]) &&
        ImportScan(d, scan, now).items[k] == ImportedEntry(scan[a].name, scan[a].blendFiles[b], now)
    decreases |scan|
  {
    if |scan| > 0 {
      var d1 := ImportFolder(d, scan[0].name, scan[0].blendFiles, now);
      var r := ImportScan(d, scan, now);
      ImportFolderSpec(d, scan[0].name, scan[0].blendFiles, now);
      ImportScanOnly(d1, scan[1..], now);
      ImportScanCovers(d1, scan[1..], now);
      forall k | k in r.items && k !in d.items
        ensures exists a, b :: (0 <= a < |scan| && 0 <= b < |scan[a].blendFiles| && k == ImportedId(scan[a].blendFiles[b]) &&
                                r.items[k] == ImportedEntry(scan[a].name, scan[a].blendFiles[b], now))
      {
        ImportScanOnlyAt(d, d1, r, scan, now, k);
      }
    }
  }

  lemma ImportScanOnlyAt(d: Dict<Entry>, d1: Dict<Entry>, r: Dict<Entry>, scan: seq<FolderListing>, now: string, k: string)
    requires |scan| > 0
    requires k in r.items && k !in d.items
    requires Extends(d1, r)
    requires forall k :: k in d1.items && k !in d.items ==>
      exists b :: 0 <= b < |scan[0].blendFiles| && k == ImportedId(scan[0].blendFiles[b]) && d1.items[k] == ImportedEntry(scan[0].name, scan[0].blendFiles[b], now)
    requires forall k :: k in r.items && k !in d1.items ==>
      exists a, b :: 0 <= a < |scan[1..]| && 0 <= b < |scan[1..][a].blendFiles| && k == ImportedId(scan[1..][a].blendFiles[b]) &&
        r.items[k] == ImportedEntry(scan[1..][a].name, scan[1..][a].blendFiles[b], now)
    ensures exists a, b :: (0 <= a < |scan| && 0 <= b < |scan[a].blendFiles| && k == ImportedId(scan[a].blendFiles[b]) &&
                            r.items[k] == ImportedEntry(scan[a].name, scan[a].blendFiles[b], now))
  {
    if k in d1.items {
      var b :| 0 <= b < |scan[0].blendFiles| && k == ImportedId(scan[0].blendFiles[b]) && d1.items[k] == ImportedEntry(scan[0].name, scan[0].blendFiles[b], now);
      assert r.items[k] == d1.items[k];
    } else {
      var a, b :| 0 <= a < |scan[1..]| && 0 <= b < |scan[1..][a].blendFiles| && k == ImportedId(scan[1..][a].blendFiles[b]) &&
        r.items[k] == ImportedEntry(scan[1..][a].name, scan[1..][a].blendFiles[b], now);
      assert scan[1..][a] == scan[a + 1];
    }
  }

  /**
   * A scan read from the disk: every listed directory is a folder of the
   * library and every listed `.blend` file is present.
   */
  predicate ScanOnDisk(scan: seq<FolderListing>, folders: set<string>, files: set<string>)
  {
    forall a :: 0 <= a < |scan| ==> scan[a].name in folders && forall f :: f in scan[a].blendFiles ==> f in files
  }

  /**
   * Every entry the scan adds lies in a folder of the library and, its file
   * being on disk, is listed by `get_all_animations`.
   */
  lemma ImportScanListed(d: Dict<Entry>, scan: seq<FolderListing>, now: string, folders: set<string>, files: set<string>)
    requires ScanOnDisk(scan, folders, files)
    ensures forall k :: k in ImportScan(d, scan, now).items && k !in d.items ==>
      ImportScan(d, scan, now).items[k].folderPath.Some? && ImportScan(d, scan, now).items[k].folderPath.value in folders &&
      ImportScan(d, scan, now).items[k] in AllAnimations(ImportScan(d, scan, now), files)
  {
    var r := ImportScan(d, scan, now);
    ImportScanOnly(d, scan, now);
    AllAnimationsSpec(r, files);
    forall k | k in r.items && k !in d.items
      ensures r.items[k].folderPath.Some? && r.items[k].folderPath.value in folders && r.items[k] in AllAnimations(r, files)
    {
      var a, b :| 0 <= a < |scan| && 0 <= b < |scan[a].blendFiles| && k == ImportedId(scan[a].blendFiles[b]) &&
        r.items[k] == ImportedEntry(scan[a].name, scan[a].blendFiles[b], now);
      assert scan[a].blendFiles[b] in files;
      var i :| 0 <= i < |r.keys| && r.keys[i] == k;
      assert Values(r)[i] == r.items[k];
    }
  }

  // ---------------------------------------------------------------------
  // The manager
  // ---------------------------------------------------------------------

  class AnimationLibraryManager {
    /** `self.animations`: id to entry, in insertion order. */
    var animations: Dict<Entry>
    /** The folder names under `animations/`. */
    var folders: set<string>
    /** The `.blend` file names present on disk. */
    var files: set<string>

    /** A fresh manager: no entries yet, and the "Root" folder ensured on disk. */
    constructor(diskFolders: set<string>, diskFiles: set<string>)
      ensures animations == Empty() && folders == diskFolders + {"Root"} && files == diskFiles
    {
      animations := Empty();
      folders := diskFolders + {"Root"};
      files := diskFiles;
    }

    /** `create_folder`. */
    method CreateFolder(name: string) returns (ok: bool)
      modifies this
      ensures ok <==> FolderNameAccepted(old(folders), name)
      ensures folders == if ok then old(folders) + {Strip(name)} else old(folders)
      ensures animations == old(animations) && files == old(files)
    {
      if Strip(name) == [] {
        return false;
      }
      if '/' in name || '\\' in name {
        return false;
      }
      var stripped := Strip(name);
      if stripped in folders || PathSpecial(stripped) {
        return false;
      }
      folders := folders + {stripped};
      return true;
    }

    /**
     * `delete_folder`. `removeFails` stands for an error while removing the
     * directory from disk, which the source reports after it has already
     * moved the folder's entries to "Root".
     */
    method DeleteFolder(folder: string, removeFails: bool) returns (ok: bool)
      modifies this
      ensures folder in ProtectedFolders || folder !in old(folders) ==>
        !ok && animations == old(animations) && folders == old(folders)
      ensures folder !in ProtectedFolders && folder in old(folders) ==>
        animations == Rehomed(old(animations), folder) && ok == !removeFails &&
        folders == (if ok then old(folders) - {folder} else old(folders))
      ensures files == old(files)
    {
      if folder in ProtectedFolders || folder !in folders {
        return false;
      }
      var ids := FolderIds(folder);
      MoveToRoot(ids, folder);
      if removeFails {
        return false;
      }
      folders := folders - {folder};
      return true;
    }

    /**
     * The second loop of `delete_folder`: the entries listed in `ids`, all of
     * them in `folder`, are moved to "Root".
     */
    method MoveToRoot(ids: seq<string>, folder: string)
      requires forall k :: k in ids <==> k in animations.items && animations.items[k].folderPath == Some(folder)
      modifies this
      ensures animations == Rehomed(old(animations), folder)
      ensures folders == old(folders) && files == old(files)
    {
      var j := 0;
      while j < |ids|
        invariant 0 <= j <= |ids|
        invariant animations.keys == old(animations).keys
        invariant forall k :: k in animations.items <==> k in old(animations).items
        invariant forall k :: k in old(animations).items ==>
          animations.items[k] == if k in ids[..j] then RehomeEntry(old(animations).items[k], folder) else old(animations).items[k]
        invariant folders == old(folders) && files == old(files)
      {
        var k := ids[j];
        animations := Put(animations, k, animations.items[k].(folderPath := Some("Root")));
        assert ids[..j + 1] == ids[..j] + [k];
        j := j + 1;
      }
      assert ids[..j] == ids;
      assert animations.items == Rehomed(old(animations), folder).items;
    }

    /** The first loop of `delete_folder`: the ids of the entries stored in the folder. */
    method FolderIds(folder: string) returns (ids: seq<string>)
      ensures forall k :: k in ids <==> k in animations.items && animations.items[k].folderPath == Some(folder)
    {
      ids := [];
      var i := 0;
      while i < |animations.keys|
        invariant 0 <= i <= |animations.keys|
        invariant forall k :: k in ids <==> k in animations.keys[..i] && animations.items[k].folderPath == Some(folder)
      {
        var k := animations.keys[i];
        assert animations.keys[..i + 1] == animations.keys[..i] + [k];
        if animations.items[k].folderPath == Some(folder) {
          ids := ids + [k];
        }
        i := i + 1;
      }
      assert animations.keys[..i] == animations.keys;
    }

    /**
     * `add_animation`: the target folder is created if missing and the entry
     * is stored under its id with that folder, replacing any entry with the
     * same id.
     */
    method AddAnimation(e: Entry, folder: string) returns (ok: bool)
      modifies this
      ensures ok
      ensures animations == Put(old(animations), e.meta.id, e.(folderPath := Some(folder)))
      ensures folders == old(folders) + {folder} && files == old(files)
    {
      folders := folders + {folder};
      animations := Put(animations, e.meta.id, e.(folderPath := Some(folder)));
      return true;
    }

    /** `remove_animation`: an unknown id changes nothing; a known id is removed with its `.blend` file. */
    method RemoveAnimation(id: string) returns (ok: bool)
      modifies this
      ensures ok <==> id in old(animations).items
      ensures !ok ==> animations == old(animations) && files == old(files)
      ensures ok ==> animations == Remove(old(animations), id) && files == FilesAfterRemoval(old(files), old(animations).items[id])
      ensures folders == old(folders)
    {
      if id !in animations.items {
        return false;
      }
      var e := animations.items[id];
      animations := Remove(animations, id);
      files := FilesAfterRemoval(files, e);
      return true;
    }

    /**
     * `move_animation_to_folder`. The target folder is created before the
     * `.blend` file is moved; `blendMoveFails` stands for an error moving
     * it, after which the entry keeps its old folder.
     */
    method MoveAnimationToFolder(id: string, newFolder: string, blendMoveFails: bool) returns (ok: bool)
      modifies this
      ensures id !in old(animations).items ==> !ok && animations == old(animations) && folders == old(folders)
      ensures id in old(animations).items ==> folders == old(folders) + {newFolder}
      ensures id in old(animations).items ==>
        (ok <==> !(IsBlendStorage(old(animations).items[id]) && BlendExists(old(animations).items[id], old(files)) && blendMoveFails))
      ensures ok ==> animations == Put(old(animations), id, old(animations).items[id].(folderPath := Some(newFolder)))
      ensures !ok ==> animations == old(animations)
      ensures files == old(files)
    {
      if id !in animations.items {
        return false;
      }
      var e := animations.items[id];
      folders := folders + {newFolder};
      if IsBlendStorage(e) && BlendExists(e, files) && blendMoveFails {
        return false;
      }
      animations := Put(animations, id, e.(folderPath := Some(newFolder)));
      return true;
    }

    /** `_count_animations_in_folder`: the entries whose folder is exactly `folder`. */
    method CountAnimationsInFolder(folder: string) returns (count: nat)
      ensures count == PathCount(Values(animations), Some(folder))
    {
      var entries := Values(animations);
      count := 0;
      var i := 0;
      while i < |animations.keys|
        invariant 0 <= i <= |animations.keys|
        invariant count == PathCount(entries[..i], Some(folder))
      {
        var e := animations.items[animations.keys[i]];
        assert entries[..i + 1] == entries[..i] + [e];
        PathCountSnoc(entries[..i], e, Some(folder));
        if e.folderPath == Some(folder) {
          count := count + 1;
        }
        i := i + 1;
      }
      assert entries[..i] == entries;
    }

    /**
     * `get_folder_statistics`: a row per folder value, each adding up, the
     * totals adding up to the number of entries.
     */
    method GetFolderStatistics() returns (stats: Statistics)
      ensures stats == FolderStatistics(Values(animations))
      ensures RowsAddUp(stats) && SumTotals(stats.keys, stats.items) == |animations.keys|
      ensures forall k :: k in stats.items ==> stats.items[k].total == PathCount(Values(animations), k)
    {
      var entries := Values(animations);
      stats := Empty();
      var i := 0;
      while i < |animations.keys|
        invariant 0 <= i <= |animations.keys|
        invariant stats == FolderStatistics(entries[..i])
      {
        var e := animations.items[animations.keys[i]];
        assert entries[..i + 1][..i] == entries[..i];
        stats := CountEntry(stats, e);
        i := i + 1;
      }
      assert entries[..i] == entries;
      FolderStatisticsTotals(entries);
      FolderStatisticsCounts(entries);
    }

    /**
     * `detect_and_import_existing_blend_files`: every `.blend` file in every
     * folder whose id is not yet catalogued is added; the result is the
     * number added.
     */
    method DetectAndImportExistingBlendFiles(scan: seq<FolderListing>, now: string) returns (imported: nat)
      requires ScanOnDisk(scan, folders, files)
      modifies this
      ensures animations == ImportScan(old(animations), scan, now)
      ensures imported == |animations.keys| - |old(animations).keys|
      ensures folders == old(folders) && files == old(files)
      ensures forall k :: k in animations.items && k !in old(animations).items ==>
        animations.items[k] in AllAnimations(animations, files)
    {
      imported := 0;
      var i := 0;
      while i < |scan|
        invariant 0 <= i <= |scan|
        invariant ImportScan(old(animations), scan, now) == ImportScan(animations, scan[i..], now)
        invariant |old(animations).keys| + imported == |animations.keys|
        invariant folders == old(folders) && files == old(files)
      {
        var n := ImportFolderFiles(scan[i].name, scan[i].blendFiles, now);
        imported := imported + n;
        assert scan[i..][1..] == scan[i + 1..];
        i := i + 1;
      }
      ImportScanListed(old(animations), scan, now, folders, files);
    }

    /** The inner loop of the import: the `.blend` files of one folder. */
    method ImportFolderFiles(folder: string, names: seq<string>, now: string) returns (n: nat)
      requires folder in folders && forall f :: f in names ==> f in files
      modifies this
      ensures animations == ImportFolder(old(animations), folder, names, now)
      ensures |animations.keys| == |old(animations).keys| + n
      ensures folders == old(folders) && files == old(files)
    {
      n := 0;
      var j := 0;
      while j < |names|
        invariant 0 <= j <= |names|
        invariant ImportFolder(old(animations), folder, names, now) == ImportFolder(animations, folder, names[j..], now)
        invariant |animations.keys| == |old(animations).keys| + n
        invariant folders == old(folders) && files == old(files)
      {
        var id := ImportedId(names[j]);
        if id !in animations.items {
          animations := Put(animations, id, ImportedEntry(folder, names[j], now));
          n := n + 1;
        }
        assert names[j..][1..] == names[j + 1..];
        j := j + 1;
      }
    }
  }

  /** An added entry is listed in the folder it was added to. */
  lemma AddedIsListed(d: Dict<Entry>, e: Entry, folder: string)
    ensures e.(folderPath := Some(folder)) in AnimationsInFolder(Put(d, e.meta.id, e.(folderPath := Some(folder))), folder)
  {
    var r := Put(d, e.meta.id, e.(folderPath := Some(folder)));
    var i :| 0 <= i < |r.keys| && r.keys[i] == e.meta.id;
    assert Values(r)[i] == e.(folderPath := Some(folder));
  }

  /** The folder count of any folder but "Root" is the length of its listing; for "Root" it is at most that. */
  lemma FolderCountMatchesListing(d: Dict<Entry>, folder: string)
    ensures PathCount(Values(d), Some(folder)) <= |AnimationsInFolder(d, folder)|
    ensures folder != "Root" ==> PathCount(Values(d), Some(folder)) == |AnimationsInFolder(d, folder)|
  {
    CountAtMostListing(Values(d), folder);
  }
}
