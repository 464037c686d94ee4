// The catalog entries both library managers keep (`src/core/library_storage.py`
// and the older copy in `src/gui/widgets/folder_tree.py`), and the read-only
// queries the two copies share: the listing with missing `.blend` files
// skipped, the per-folder listing, search and the filters.
//
// `folder_path`, `storage_method` and `blend_reference` are attributes the
// managers read from each record; the record class shown in
// `src/core/animation_data.py` does not declare them, so an entry carries
// them next to the record.

module Catalog {
  import opened Text
  import opened Collections
  import opened AnimationData

  /**
   * One catalog entry: the animation record, its `folder_path` (`None` is
   * Python's `None`; an entry without the attribute reads as "Root"), its
   * `storage_method` and the file name of its `.blend` reference, if any.
   */
  datatype Entry = Entry(meta: AnimationMetadata, folderPath: Option<string>, storageMethod: string, blendFile: Option<string>)

  /** `is_blend_file_storage()`. */
  predicate IsBlendStorage(e: Entry)
  {
    e.storageMethod == "blend_file"
  }

  /** `is_legacy_storage()`: keyframes kept in the JSON record. */
  predicate IsLegacyStorage(e: Entry)
  {
    e.storageMethod == "json_keyframes"
  }

  /** The `.blend` file of the entry is among the files on disk. */
  predicate BlendExists(e: Entry, files: set<string>)
  {
    e.blendFile.Some? && e.blendFile.value in files
  }

  /** `get_all_animations` keeps a `.blend` entry only while its file exists. */
  predicate Available(e: Entry, files: set<string>)
  {
    !IsBlendStorage(e) || BlendExists(e, files)
  }

  /** `get_all_animations`. */
  function AllAnimations(d: Dict<Entry>, files: set<string>): seq<Entry>
  {
    Filter(Values(d), e => Available(e, files))
  }

  /** Listing keeps, in catalog order, exactly the entries that are available. */
  lemma AllAnimationsSpec(d: Dict<Entry>, files: set<string>)
    ensures IsSublist(AllAnimations(d, files), Values(d))
    ensures forall e :: e in AllAnimations(d, files) <==> e in Values(d) && Available(e, files)
  {
    FilterSpec(Values(d), e => Available(e, files));
  }

  /**
   * The folder test of `get_animations_in_folder`: "Root" also takes the
   * entries whose folder is `None` or empty; any other folder must match
   * exactly.
   */
  predicate InFolder(e: Entry, folder: string)
  {
    if folder == "Root" then e.folderPath == None || e.folderPath == Some("Root") || e.folderPath == Some("")
    else e.folderPath == Some(folder)
  }

  /** The entries of a listing that `get_animations_in_folder` keeps. */
  function InFolderListing(entries: seq<Entry>, folder: string): seq<Entry>
  {
    Filter(entries, e => InFolder(e, folder))
  }

  /** `get_animations_in_folder`. */
  function AnimationsInFolder(d: Dict<Entry>, folder: string): seq<Entry>
  {
    InFolderListing(Values(d), folder)
  }

  /**
   * The listing of a folder holds, in catalog order, exactly the entries in
   * that folder.
   */
  lemma AnimationsInFolderSpec(d: Dict<Entry>, folder: string)
    ensures IsSublist(AnimationsInFolder(d, folder), Values(d))
    ensures forall e :: e in AnimationsInFolder(d, folder) <==> e in Values(d) && InFolder(e, folder)
  {
    FilterIsSublist(Values(d), e => InFolder(e, folder));
  }

  /**
   * How many of the entries have exactly this folder value; with
   * `Some(folder)` this is the exact-match count of
   * `_count_animations_in_folder`.
   */
  function PathCount(entries: seq<Entry>, path: Option<string>): nat
  {
    Count(entries, (e: Entry) => e.folderPath == path)
  }

  /** Counting over one more entry at the end. */
  lemma PathCountSnoc(entries: seq<Entry>, e: Entry, path: Option<string>)
    ensures PathCount(entries + [e], path) == PathCount(entries, path) + (if e.folderPath == path then 1 else 0)
  {
    CountSnoc(entries, e, (e: Entry) => e.folderPath == path);
  }

  /**
   * The count of a folder never exceeds the length of its listing, and is
   * equal to it for every folder but "Root", whose listing also shows the
   * entries without a folder.
   */
  lemma {:induction false} CountAtMostListing(entries: seq<Entry>, folder: string)
    ensures PathCount(entries, Some(folder)) <= |InFolderListing(entries, folder)|
    ensures folder != "Root" ==> PathCount(entries, Some(folder)) == |InFolderListing(entries, folder)|
    decreases |entries|
  {
    if |entries| > 0 {
      CountAtMostListing(entries[1..], folder);
    }
  }

  /** `_remove_animation_files`: the entry's `.blend` file leaves the disk. */
  function FilesAfterRemoval(files: set<string>, e: Entry): (r: set<string>)
    ensures r <= files
    ensures e.blendFile.None? || !IsBlendStorage(e) ==> r == files
    ensures IsBlendStorage(e) && e.blendFile.Some? ==> e.blendFile.value !in r && files - r <= {e.blendFile.value}
  {
    if IsBlendStorage(e) && e.blendFile.Some? then files - {e.blendFile.value} else files
  }

  /** `r` only appends to `d`: the old ids keep their order and their entries. */
  ghost predicate Extends(d: Dict<Entry>, r: Dict<Entry>)
  {
    |d.keys| <= |r.keys| && r.keys[..|d.keys|] == d.keys &&
    forall k :: k in d.items ==> k in r.items && r.items[k] == d.items[k]
  }

  lemma ExtendsTrans(a: Dict<Entry>, b: Dict<Entry>, c: Dict<Entry>)
    requires Extends(a, b) && Extends(b, c)
    ensures Extends(a, c)
  {
    assert c.keys[..|b.keys|][..|a.keys|] == c.keys[..|a.keys|];
  }

  /** `query in name.lower() or query in description.lower() or any(query in tag.lower() ...)`. */
  predicate SearchMatch(e: Entry, query: string)
  {
    var q := Lower(query);
    Contains(Lower(e.meta.name), q) || Contains(Lower(e.meta.description), q) ||
    exists i :: 0 <= i < |e.meta.tags| && Contains(Lower(e.meta.tags[i]), q)
  }

  /** `search_animations`. */
  function SearchAnimations(d: Dict<Entry>, files: set<string>, query: string): seq<Entry>
  {
    Filter(AllAnimations(d, files), e => SearchMatch(e, query))
  }

  /** Searching selects, in catalog order, the available entries that match. */
  lemma SearchAnimationsSpec(d: Dict<Entry>, files: set<string>, query: string)
    ensures IsSublist(SearchAnimations(d, files, query), Values(d))
    ensures forall e :: e in SearchAnimations(d, files, query) <==> e in Values(d) && Available(e, files) && SearchMatch(e, query)
  {
    FilterTwice(Values(d), e => Available(e, files), e => SearchMatch(e, query));
  }

  /** Every string matches the empty query, so searching for it lists every available entry. */
  lemma SearchEmptyQuery(d: Dict<Entry>, files: set<string>)
    ensures SearchAnimations(d, files, "") == AllAnimations(d, files)
  {
    var all := AllAnimations(d, files);
    forall i | 0 <= i < |all| ensures SearchMatch(all[i], "")
    {
      assert OccursAt(Lower(all[i].meta.name), "", 0);
    }
    FilterAll(all, e => SearchMatch(e, ""));
  }

  /** Some lower-cased wanted tag is one of the entry's lower-cased tags. */
  predicate HasAnyTag(e: Entry, tags: seq<string>)
  {
    exists i, j :: 0 <= i < |tags| && 0 <= j < |e.meta.tags| && Lower(tags[i]) == Lower(e.meta.tags[j])
  }

  /** `filter_by_tags`. */
  function FilterByTags(d: Dict<Entry>, files: set<string>, tags: seq<string>): seq<Entry>
  {
    Filter(AllAnimations(d, files), e => HasAnyTag(e, tags))
  }

  /** `filter_by_rig_type`: the rig type compared without regard to case. */
  function FilterByRigType(d: Dict<Entry>, files: set<string>, rigType: string): seq<Entry>
  {
    Filter(AllAnimations(d, files), (e: Entry) => Lower(e.meta.rigType) == Lower(rigType))
  }

  /**
   * Filtering by tags selects, in catalog order, the available entries that
   * carry one of the wanted tags, compared without regard to case.
   */
  lemma FilterByTagsSpec(d: Dict<Entry>, files: set<string>, tags: seq<string>)
    ensures IsSublist(FilterByTags(d, files, tags), Values(d))
    ensures forall e :: e in FilterByTags(d, files, tags) <==>
      e in Values(d) && Available(e, files) &&
      exists i, j :: 0 <= i < |tags| && 0 <= j < |e.meta.tags| && Lower(tags[i]) == Lower(e.meta.tags[j])
  {
    FilterTwice(Values(d), e => Available(e, files), e => HasAnyTag(e, tags));
  }

  /** No wanted tag, no entry. */
  lemma FilterByNoTags(d: Dict<Entry>, files: set<string>)
    ensures FilterByTags(d, files, []) == []
  {
    FilterByTagsSpec(d, files, []);
  }

  /**
   * Filtering by rig type selects, in catalog order, the available entries
   * whose rig type equals the wanted one without regard to case.
   */
  lemma FilterByRigTypeSpec(d: Dict<Entry>, files: set<string>, rigType: string)
    ensures IsSublist(FilterByRigType(d, files, rigType), Values(d))
    ensures forall e :: e in FilterByRigType(d, files, rigType) <==>
      e in Values(d) && Available(e, files) && Lower(e.meta.rigType) == Lower(rigType)
  {
    FilterTwice(Values(d), e => Available(e, files), (e: Entry) => Lower(e.meta.rigType) == Lower(rigType));
  }

  /** Two spellings of a rig type that differ only in case select the same entries. */
  lemma FilterByRigTypeIgnoresCase(d: Dict<Entry>, files: set<string>, a: string, b: string)
    requires Lower(a) == Lower(b)
    ensures FilterByRigType(d, files, a) == FilterByRigType(d, files, b)
  {
    FilterSameCondition(AllAnimations(d, files), (e: Entry) => Lower(e.meta.rigType) == Lower(a),
      (e: Entry) => Lower(e.meta.rigType) == Lower(b));
  }

  /** The entries kept with the given storage method. */
  function WithStorage(entries: seq<Entry>, storage: string): seq<Entry>
  {
    Filter(entries, (e: Entry) => e.storageMethod == storage)
  }

  /** `filter_by_storage_method`. */
  function FilterByStorageMethod(d: Dict<Entry>, files: set<string>, storage: string): seq<Entry>
  {
    WithStorage(AllAnimations(d, files), storage)
  }

  /** Filtering by storage method selects, in catalog order, the available entries stored that way. */
  lemma FilterByStorageMethodSpec(d: Dict<Entry>, files: set<string>, storage: string)
    ensures IsSublist(FilterByStorageMethod(d, files, storage), Values(d))
    ensures forall e :: e in FilterByStorageMethod(d, files, storage) <==>
      e in Values(d) && Available(e, files) && e.storageMethod == storage
  {
    FilterTwice(Values(d), e => Available(e, files), (e: Entry) => e.storageMethod == storage);
  }

  /** `get_blend_file_animations`. */
  function BlendFileAnimations(d: Dict<Entry>, files: set<string>): seq<Entry>
  {
    FilterByStorageMethod(d, files, "blend_file")
  }

  /** `get_legacy_animations`. */
  function LegacyAnimations(d: Dict<Entry>, files: set<string>): seq<Entry>
  {
    FilterByStorageMethod(d, files, "json_keyframes")
  }

  /**
   * An entry is listed by at most one storage filter, and the two listings
   * together are no longer than the list of available entries.
   */
  lemma {:induction false} StorageListingsSplit(entries: seq<Entry>)
    ensures forall e :: e in WithStorage(entries, "blend_file") ==> e !in WithStorage(entries, "json_keyframes")
    ensures |WithStorage(entries, "blend_file")| + |WithStorage(entries, "json_keyframes")| <= |entries|
    decreases |entries|
  {
    if |entries| > 0 {
      StorageListingsSplit(entries[1..]);
    }
  }

  /** The blend and legacy listings never share an entry and never hold more than all available entries. */
  lemma BlendAndLegacySplit(d: Dict<Entry>, files: set<string>)
    ensures forall e :: e in BlendFileAnimations(d, files) ==> e !in LegacyAnimations(d, files)
    ensures |BlendFileAnimations(d, files)| + |LegacyAnimations(d, files)| <= |AllAnimations(d, files)|
  {
    StorageListingsSplit(AllAnimations(d, files));
  }

  // ---------------------------------------------------------------------
  // Folder statistics
  // ---------------------------------------------------------------------

  /** One folder's row of `get_folder_statistics`. */
  datatype FolderStats = FolderStats(total: nat, blendFiles: nat, jsonFiles: nat)

  /** The rows of the statistics, keyed by folder value (`None` included). */
  type Statistics = OrderedDict<Option<string>, FolderStats>

  /** The sum of the totals of the rows named by `keys`. */
  function SumTotals(keys: seq<Option<string>>, rows: map<Option<string>, FolderStats>): nat
    requires forall k :: k in keys ==> k in rows
  {
    if |keys| == 0 then 0 else SumTotals(keys[..|keys| - 1], rows) + rows[keys[|keys| - 1]].total
  }

  /** Raising one present row's total by one raises the sum by one. */
  lemma {:induction false} SumTotalsBump(keys: seq<Option<string>>, rows: map<Option<string>, FolderStats>, k: Option<string>, row: FolderStats)
    requires forall x :: x in keys ==> x in rows
    requires Distinct(keys) && k in keys && row.total == rows[k].total + 1
    ensures SumTotals(keys, rows[k := row]) == SumTotals(keys, rows) + 1
    decreases |keys|
  {
    var init := keys[..|keys| - 1];
    var last := keys[|keys| - 1];
    if last == k {
      assert k !in init by {
        forall a | 0 <= a < |init| ensures init[a] != k {
          assert init[a] == keys[a];
        }
      }
      SumTotalsUnchanged(init, rows, k, row);
    } else {
      assert k in init by {
        var a :| 0 <= a < |keys| && keys[a] == k;
        assert init[a] == k;
      }
      assert Distinct(init) by {
        forall a, b | 0 <= a < b < |init| ensures init[a] != init[b] {
          assert init[a] == keys[a] && init[b] == keys[b];
        }
      }
      SumTotalsBump(init, rows, k, row);
    }
  }

  /** Changing a row that `keys` does not name leaves the sum alone. */
  lemma {:induction false} SumTotalsUnchanged(keys: seq<Option<string>>, rows: map<Option<string>, FolderStats>, k: Option<string>, row: FolderStats)
    requires forall x :: x in keys ==> x in rows
    requires k !in keys
    ensures SumTotals(keys, rows[k := row]) == SumTotals(keys, rows)
    decreases |keys|
  {
    if |keys| > 0 {
      SumTotalsUnchanged(keys[..|keys| - 1], rows, k, row);
    }
  }

  /** The row for one more entry, in a folder seen before or not. */
  function CountEntry(stats: Statistics, e: Entry): (r: Statistics)
    ensures e.folderPath in r.items
    ensures forall k :: k in r.items <==> k in stats.items || k == e.folderPath
    ensures r.items[e.folderPath].total == (if e.folderPath in stats.items then stats.items[e.folderPath].total else 0) + 1
    ensures forall k :: k in stats.items && k != e.folderPath ==> r.items[k] == stats.items[k]
  {
    var row := if e.folderPath in stats.items then stats.items[e.folderPath] else FolderStats(0, 0, 0);
    var bumped := if IsBlendStorage(e) then FolderStats(row.total + 1, row.blendFiles + 1, row.jsonFiles)
                  else FolderStats(row.total + 1, row.blendFiles, row.jsonFiles + 1);
    Put(stats, e.folderPath, bumped)
  }

  /** Every row's total is its `.blend` count plus its JSON count. */
  ghost predicate RowsAddUp(stats: Statistics)
  {
    forall k :: k in stats.items ==> stats.items[k].total == stats.items[k].blendFiles + stats.items[k].jsonFiles
  }

  /** Counting one more entry keeps every row adding up. */
  lemma CountEntryAddsUp(stats: Statistics, e: Entry)
    requires RowsAddUp(stats)
    ensures RowsAddUp(CountEntry(stats, e))
  {
  }

  /** Counting one more entry raises the sum of the totals by one. */
  lemma CountEntryTotal(stats: Statistics, e: Entry)
    ensures SumTotals(CountEntry(stats, e).keys, CountEntry(stats, e).items) == SumTotals(stats.keys, stats.items) + 1
  {
    var r := CountEntry(stats, e);
    var row := r.items[e.folderPath];
    if e.folderPath in stats.items {
      assert r.keys == stats.keys && r.items == stats.items[e.folderPath := row];
      SumTotalsBump(stats.keys, stats.items, e.folderPath, row);
    } else {
      assert r.keys == stats.keys + [e.folderPath] && r.items == stats.items[e.folderPath := row];
      SumTotalsUnchanged(stats.keys, stats.items, e.folderPath, row);
      assert r.keys[..|r.keys| - 1] == stats.keys;
    }
  }

  /** `get_folder_statistics`: one pass over the entries in catalog order. */
  function FolderStatistics(entries: seq<Entry>): Statistics
  {
    if |entries| == 0 then Empty()
    else CountEntry(FolderStatistics(entries[..|entries| - 1]), entries[|entries| - 1])
  }

  /** Every row adds up, and the totals add up to the number of entries. */
  lemma {:induction false} FolderStatisticsTotals(entries: seq<Entry>)
    ensures RowsAddUp(FolderStatistics(entries))
    ensures SumTotals(FolderStatistics(entries).keys, FolderStatistics(entries).items) == |entries|
    decreases |entries|
  {
    if |entries| > 0 {
      var init := entries[..|entries| - 1];
      FolderStatisticsTotals(init);
      CountEntryAddsUp(FolderStatistics(init), entries[|entries| - 1]);
      CountEntryTotal(FolderStatistics(init), entries[|entries| - 1]);
    }
  }

  /** The folder values that occur among the entries. */
  function FolderPaths(entries: seq<Entry>): set<Option<string>>
  {
    set i | 0 <= i < |entries| :: entries[i].folderPath
  }

  /** The statistics have a row for exactly the folder values that occur. */
  lemma {:induction false} FolderStatisticsKeys(entries: seq<Entry>)
    ensures FolderStatistics(entries).items.Keys == FolderPaths(entries)
    decreases |entries|
  {
    if |entries| > 0 {
      var init := entries[..|entries| - 1];
      FolderStatisticsKeys(init);
      FolderPathsSnoc(entries);
    }
  }

  lemma FolderPathsSnoc(entries: seq<Entry>)
    requires |entries| > 0
    ensures FolderPaths(entries) == FolderPaths(entries[..|entries| - 1]) + {entries[|entries| - 1].folderPath}
  {
    var init := entries[..|entries| - 1];
    forall p | p in FolderPaths(entries)
      ensures p in FolderPaths(init) + {entries[|entries| - 1].folderPath}
    {
      var i :| 0 <= i < |entries| && entries[i].folderPath == p;
      if i < |init| {
        assert init[i] == entries[i];
      }
    }
    forall p | p in FolderPaths(init)
      ensures p in FolderPaths(entries)
    {
      var i :| 0 <= i < |init| && init[i].folderPath == p;
      assert entries[i] == init[i];
    }
  }

  /** Each row's total is the number of entries with that folder value. */
  lemma {:induction false} FolderStatisticsCounts(entries: seq<Entry>)
    ensures forall k :: k in FolderStatistics(entries).items ==> FolderStatistics(entries).items[k].total == PathCount(entries, k)
    decreases |entries|
  {
    if |entries| > 0 {
      var init := entries[..|entries| - 1];
      var last := entries[|entries| - 1];
      assert entries == init + [last];
      FolderStatisticsCounts(init);
      FolderStatisticsKeys(init);
      CountEntryCounts(FolderStatistics(init), init, last);
    }
  }

  /** Counting one more entry keeps every row's total equal to the number of entries with its folder value. */
  lemma CountEntryCounts(prev: Statistics, init: seq<Entry>, last: Entry)
    requires forall k :: k in prev.items ==> prev.items[k].total == PathCount(init, k)
    requires prev.items.Keys == FolderPaths(init)
    ensures forall k :: k in CountEntry(prev, last).items ==> CountEntry(prev, last).items[k].total == PathCount(init + [last], k)
  {
    var r := CountEntry(prev, last);
    forall k | k in r.items ensures r.items[k].total == PathCount(init + [last], k)
    {
      PathCountSnoc(init, last, k);
      if k !in prev.items {
        PathCountAbsent(init, k);
      }
    }
  }

  /** A folder value that does not occur is counted zero times. */
  lemma PathCountAbsent(entries: seq<Entry>, path: Option<string>)
    requires path !in FolderPaths(entries)
    ensures PathCount(entries, path) == 0
  {
    CountPositive(entries, (e: Entry) => e.folderPath == path);
    assert forall i :: 0 <= i < |entries| ==> entries[i].folderPath in FolderPaths(entries);
  }
}
