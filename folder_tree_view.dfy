// The flat folder tree of the desktop window: how a decorated tree key is
// cleaned back to a folder name, which keys become folders, how counts are
// kept current without rebuilding the tree, when a rebuild is needed, and
// which drops and deletions the tree lets through.

module FolderTreeView {
  import opened Text
  import opened Collections

  // ---------------------------------------------------------------------
  // Cleaning tree keys
  // ---------------------------------------------------------------------

  /** The key of the tree's top entry. */
  const AllAnimationsKey: string := "\U{1F3AC} All Animations"

  /** The decorations a folder key may carry, removed in this order. */
  const FolderPrefix: string := "\U{1F4C1} "
  const TestPrefix: string := "\U{1F9EA} "
  const DividersPrefix: string := "\U{1F5C2}\U{FE0F} "
  const OpenFolderPrefix: string := "\U{1F4C2} "

  /** A character of the Basic Multilingual Plane (`ord(char) < 65536`). */
  predicate InBmp(c: char)
  {
    (c as int) < 65536
  }

  predicate AllInBmp(s: string)
  {
    forall i :: 0 <= i < |s| ==> InBmp(s[i])
  }

  /** The characters of `s` that lie in the Basic Multilingual Plane, in order. */
  function KeepBmp(s: string): (r: string)
    ensures AllInBmp(r)
    ensures AllInBmp(s) ==> r == s
  {
    if |s| == 0 then ""
    else if InBmp(s[0]) then [s[0]] + KeepBmp(s[1..])
    else KeepBmp(s[1..])
  }

  /** `_extract_clean_path`: remove the four decorations, drop characters outside the BMP, strip. */
  function ExtractCleanPath(key: string): string
  {
    var bare := ReplaceAll(ReplaceAll(ReplaceAll(ReplaceAll(key, FolderPrefix, ""), TestPrefix, ""), DividersPrefix, ""),
      OpenFolderPrefix, "");
    Strip(KeepBmp(bare))
  }

  /** The characters of a stripped string come from the string. */
  lemma StripInBmp(s: string)
    requires AllInBmp(s)
    ensures AllInBmp(Strip(s))
  {
    StripSpec(s);
    var r := Strip(s);
    var i :| 0 <= i <= |s| - |r| && OccursAt(s, r, i);
    forall j | 0 <= j < |r| ensures InBmp(r[j]) {
      assert r[j] == s[i..i + |r|][j] == s[i + j];
    }
  }

  /** A name with no decoration, no character outside the BMP and no surrounding space. */
  predicate CleanName(s: string)
  {
    AllInBmp(s) && (s == [] || (!IsSpace(s[0]) && !IsSpace(s[|s| - 1])))
  }

  /** Every cleaned key is a clean name: nothing outside the BMP and no surrounding space. */
  lemma ExtractCleanPathIsClean(key: string)
    ensures CleanName(ExtractCleanPath(key))
  {
    var bare := ReplaceAll(ReplaceAll(ReplaceAll(ReplaceAll(key, FolderPrefix, ""), TestPrefix, ""), DividersPrefix, ""),
      OpenFolderPrefix, "");
    StripInBmp(KeepBmp(bare));
    StripSpec(KeepBmp(bare));
  }

  /** No decoration survives in a clean name: each one starts outside the BMP. */
  lemma CleanNameUndecorated(s: string)
    requires AllInBmp(s)
    ensures ReplaceAll(s, FolderPrefix, "") == s && ReplaceAll(s, TestPrefix, "") == s
    ensures ReplaceAll(s, DividersPrefix, "") == s && ReplaceAll(s, OpenFolderPrefix, "") == s
  {
    assert !InBmp(FolderPrefix[0]) && !InBmp(TestPrefix[0]);
    assert !InBmp(DividersPrefix[0]) && !InBmp(OpenFolderPrefix[0]);
    ReplaceAllMissingHead(s, FolderPrefix, "");
    ReplaceAllMissingHead(s, TestPrefix, "");
    ReplaceAllMissingHead(s, DividersPrefix, "");
    ReplaceAllMissingHead(s, OpenFolderPrefix, "");
  }

  /** Cleaning a clean name changes nothing. */
  lemma ExtractCleanPathOfClean(s: string)
    requires CleanName(s)
    ensures ExtractCleanPath(s) == s
  {
    CleanNameUndecorated(s);
    StripNoSpace(s);
  }

  /** Cleaning is idempotent. */
  lemma ExtractCleanPathIdempotent(key: string)
    ensures ExtractCleanPath(ExtractCleanPath(key)) == ExtractCleanPath(key)
  {
    ExtractCleanPathIsClean(key);
    ExtractCleanPathOfClean(ExtractCleanPath(key));
  }

  /** The key the tree shows for a folder, `"📁 " + name`, cleans back to the name. */
  lemma ExtractCleanPathOfFolderKey(name: string)
    requires CleanName(name)
    ensures ExtractCleanPath(FolderPrefix + name) == name
  {
    ReplaceAllLeading(FolderPrefix, name);
    ExtractCleanPathOfClean(name);
  }

  // ---------------------------------------------------------------------
  // The folder structure
  // ---------------------------------------------------------------------

  /** The entries of a folder record the tree reads: "type", "filter" and "count" (None when absent). */
  datatype FolderData = FolderData(kind: Option<string>, filter: Option<string>, count: Option<int>)

  /** `folder_data.get("count", 0)`. */
  function CountOr0(data: FolderData): int
  {
    if data.count.Some? then data.count.value else 0
  }

  /** A key that `_build_flat_folder_list` turns into a folder. */
  predicate FlatFolderKey(key: string)
  {
    key != AllAnimationsKey && ExtractCleanPath(key) != "" && '/' !in ExtractCleanPath(key)
  }

  /** The flat folders of a list of keys, in order: cleaned name and record. */
  function FlatFolders(keys: seq<string>, items: map<string, FolderData>): seq<(string, FolderData)>
    requires forall k :: k in keys ==> k in items
  {
    if |keys| == 0 then []
    else
      var rest := FlatFolders(keys[1..], items);
      if FlatFolderKey(keys[0]) then [(ExtractCleanPath(keys[0]), items[keys[0]])] + rest else rest
  }

  /**
   * A pair is listed exactly when it comes from a key other than the top
   * entry whose cleaned name is non-empty and has no "/".
   */
  lemma {:induction false} FlatFoldersSpec(keys: seq<string>, items: map<string, FolderData>, name: string, data: FolderData)
    requires forall k :: k in keys ==> k in items
    ensures (name, data) in FlatFolders(keys, items) <==>
      exists k :: k in keys && FlatFolderKey(k) && ExtractCleanPath(k) == name && items[k] == data
    decreases |keys|
  {
    if |keys| > 0 {
      FlatFoldersSpec(keys[1..], items, name, data);
      if (name, data) in FlatFolders(keys[1..], items) {
        var k :| k in keys[1..] && FlatFolderKey(k) && ExtractCleanPath(k) == name && items[k] == data;
        assert k in keys;
      }
      if exists k :: k in keys && FlatFolderKey(k) && ExtractCleanPath(k) == name && items[k] == data {
        var k :| k in keys && FlatFolderKey(k) && ExtractCleanPath(k) == name && items[k] == data;
        if k != keys[0] {
          assert k in keys[1..];
        }
      }
    }
  }

  /** Every listed name is a non-empty clean name without "/". */
  lemma {:induction false} FlatFolderNames(keys: seq<string>, items: map<string, FolderData>)
    requires forall k :: k in keys ==> k in items
    ensures forall p :: p in FlatFolders(keys, items) ==> p.0 != "" && '/' !in p.0 && CleanName(p.0)
    decreases |keys|
  {
    if |keys| > 0 {
      FlatFolderNames(keys[1..], items);
      ExtractCleanPathIsClean(keys[0]);
    }
  }

  /** One key of the list: its folder, if it makes one, then the rest. */
  lemma FlatFoldersStep(keys: seq<string>, items: map<string, FolderData>, i: nat)
    requires forall k :: k in keys ==> k in items
    requires i < |keys|
    ensures FlatFolders(keys[i..], items) ==
      (if FlatFolderKey(keys[i]) then [(ExtractCleanPath(keys[i]), items[keys[i]])] else []) + FlatFolders(keys[i + 1..], items)
  {
    assert keys[i..][0] == keys[i];
    assert keys[i..][1..] == keys[i + 1..];
  }

  /** `_build_flat_folder_list`. */
  method BuildFlatFolderList(structure: Dict<FolderData>) returns (folders: seq<(string, FolderData)>)
    ensures folders == FlatFolders(structure.keys, structure.items)
  {
    var keys, items := structure.keys, structure.items;
    folders := [];
    var i := 0;
    while i < |keys|
      invariant 0 <= i <= |keys|
      invariant folders + FlatFolders(keys[i..], items) == FlatFolders(keys, items)
    {
      var key := keys[i];
      FlatFoldersStep(keys, items, i);
      if key != AllAnimationsKey {
        var clean := ExtractCleanPath(key);
        if clean != "" && '/' !in clean {
          AppendAssoc(folders, [(clean, items[key])], FlatFolders(keys[i + 1..], items));
          folders := folders + [(clean, items[key])];
        }
      }
      i := i + 1;
    }
    assert keys[i..] == [];
    assert folders + [] == folders;
  }

  lemma AppendAssoc<T>(a: seq<T>, b: seq<T>, c: seq<T>)
    ensures (a + b) + c == a + (b + c)
  {
  }

  /** The filter `_add_flat_folders_to_tree` gives a folder. */
  function FolderFilter(name: string): string
  {
    "folder:" + name
  }

  /**
   * The folder name `delete_folder` takes from a folder item's filter:
   * what follows the 7-character "folder:" prefix; nothing for an item
   * that is not a folder or a filter without that prefix.
   */
  function DeleteFolderName(kind: Option<string>, filter: string): (r: Option<string>)
    ensures r.Some? ==> kind == Some("folder") && filter == FolderFilter(r.value)
  {
    if kind != Some("folder") then None
    else if StartsWith(filter, "folder:") then Some(filter[7..])
    else None
  }

  /** Deleting the item of a folder names that folder. */
  lemma DeleteFolderNameOfFilter(name: string)
    ensures DeleteFolderName(Some("folder"), FolderFilter(name)) == Some(name)
  {
    assert FolderFilter(name)[..7] == "folder:";
    assert FolderFilter(name)[7..] == name;
  }

  // ---------------------------------------------------------------------
  // Rebuild or not (`_structure_changed`)
  // ---------------------------------------------------------------------

  /** A key of the new structure that forces a rebuild against the old one. */
  predicate ChangedKey(key: string, newItems: map<string, FolderData>, oldItems: map<string, FolderData>)
    requires key in newItems
  {
    key !in oldItems || newItems[key].filter != oldItems[key].filter || newItems[key].kind != oldItems[key].kind
  }

  /** The first changed key among `keys`, or `|keys|`. */
  function FirstChanged(keys: seq<string>, newItems: map<string, FolderData>, oldItems: map<string, FolderData>): (i: nat)
    requires forall k :: k in keys ==> k in newItems
    ensures i <= |keys|
    ensures forall j :: 0 <= j < i ==> !ChangedKey(keys[j], newItems, oldItems)
    ensures i < |keys| ==> ChangedKey(keys[i], newItems, oldItems)
  {
    if |keys| == 0 then 0
    else if ChangedKey(keys[0], newItems, oldItems) then 0
    else 1 + FirstChanged(keys[1..], newItems, oldItems)
  }

  /**
   * `_structure_changed`: true exactly when the sizes differ, or some new
   * key is missing from the old structure or has another filter or type.
   */
  function StructureChanged(newStructure: Dict<FolderData>, oldStructure: Dict<FolderData>): (r: bool)
    ensures r <==> (|newStructure.keys| != |oldStructure.keys| ||
      exists k :: k in newStructure.items && ChangedKey(k, newStructure.items, oldStructure.items))
  {
    if |newStructure.keys| != |oldStructure.keys| then true
    else
      var i := FirstChanged(newStructure.keys, newStructure.items, oldStructure.items);
      if i < |newStructure.keys| then true
      else
        assert forall k :: k in newStructure.items ==> !ChangedKey(k, newStructure.items, oldStructure.items) by {
          forall k | k in newStructure.items ensures !ChangedKey(k, newStructure.items, oldStructure.items) {
            var j :| 0 <= j < |newStructure.keys| && newStructure.keys[j] == k;
          }
        }
        false
  }

  /** A structure compared with itself never forces a rebuild. */
  lemma StructureUnchangedBySelf(s: Dict<FolderData>)
    ensures !StructureChanged(s, s)
  {
  }

  /** Counts alone never force a rebuild. */
  lemma CountsDoNotChangeStructure(s: Dict<FolderData>, counts: map<string, Option<int>>)
    requires forall k :: k in s.items ==> k in counts
    ensures !StructureChanged(RawDict(s.keys, map k | k in s.items :: s.items[k].(count := counts[k])), s)
  {
    var t := RawDict(s.keys, map k | k in s.items :: s.items[k].(count := counts[k]));
    assert WellKeyed(t);
    assert forall k :: k in t.items ==> !ChangedKey(k, t.items, s.items);
  }

  // ---------------------------------------------------------------------
  // Drag and drop
  // ---------------------------------------------------------------------

  /** What a drop onto the tree does. */
  datatype DropOutcome = Ignored | AnimationMoved(animationId: string, folder: string) | FolderMoved(source: string, target: string)

  /**
   * `_get_folder_path_from_item`: a folder item gives its text up to " (",
   * without "📁 "; the root item gives "Root"; anything else gives nothing.
   */
  function FolderPathFromItem(kind: string, text: string): Option<string>
  {
    if kind == "folder" then Some(ReplaceAll(BeforeFirst(text, " ("), FolderPrefix, ""))
    else if kind == "root" then Some("Root")
    else None
  }

  /**
   * `tree_dropEvent` on an item of type `kind` showing `text`: an animation
   * goes to the item's folder; a folder is refused onto itself, onto anything
   * but a folder or the root, and when it is "All Animations".
   */
  function Drop(data: string, kind: string, text: string): DropOutcome
  {
    var target := FolderPathFromItem(kind, text);
    if StartsWith(data, "animation_id:") then
      if target.Some? && target.value != "" then AnimationMoved(ReplaceAll(data, "animation_id:", ""), target.value)
      else Ignored
    else if StartsWith(data, "folder:") then
      var source := ReplaceAll(data, "folder:", "");
      if target == Some(source) then Ignored
      else if kind != "folder" && kind != "root" then Ignored
      else if source == "All Animations" then Ignored
      else if target.Some? && target.value != "" then FolderMoved(source, target.value)
      else Ignored
    else Ignored
  }

  /**
   * A folder is moved only onto a folder or the root, never onto itself,
   * never when it is "All Animations", and always to a non-empty target.
   */
  lemma DropFolderRules(data: string, kind: string, text: string)
    ensures Drop(data, kind, text).FolderMoved? ==>
      var d := Drop(data, kind, text);
      (kind == "folder" || kind == "root") && d.source != d.target &&
      d.source != "All Animations" && d.target != "" && StartsWith(data, "folder:")
  {
  }

  /**
   * The text `_update_display_counts_only` shows for a folder item: the
   * folder's name, followed by " (count)" when the count is positive.
   */
  function FolderItemText(name: string, count: int): string
  {
    if count > 0 then name + " (" + IntToString(count) + ")" else name
  }

  /**
   * The folder name read back from a folder item is the name it shows, for
   * any count, provided the name itself holds neither " (" nor the folder
   * icon (a name holding " (" is cut short there).
   */
  lemma FolderPathOfItemText(name: string, count: int)
    requires !Contains(name, " (") && FolderPrefix[0] !in name
    ensures FolderPathFromItem("folder", FolderItemText(name, count)) == Some(name)
  {
    if count > 0 {
      assert name + " (" + IntToString(count) + ")" == name + " (" + (IntToString(count) + ")");
      BeforeOpenParen(name, IntToString(count) + ")");
    }
    ReplaceAllMissingHead(name, FolderPrefix, "");
  }

  /** Dropping an animation on a folder item sends it to the folder the item names. */
  lemma DropAnimationOnFolder(data: string, text: string)
    requires StartsWith(data, "animation_id:")
    requires FolderPathFromItem("folder", text).value != ""
    ensures Drop(data, "folder", text) == AnimationMoved(ReplaceAll(data, "animation_id:", ""), FolderPathFromItem("folder", text).value)
  {
  }

  /** An animation dropped on a shown folder item reaches that folder. */
  lemma DropAnimationOnShownFolder(data: string, name: string, count: int)
    requires StartsWith(data, "animation_id:")
    requires name != "" && !Contains(name, " (") && FolderPrefix[0] !in name
    ensures Drop(data, "folder", FolderItemText(name, count)) == AnimationMoved(ReplaceAll(data, "animation_id:", ""), name)
  {
    FolderPathOfItemText(name, count);
  }

  /** Dropping on the root item sends an animation to "Root". */
  lemma DropAnimationOnRoot(data: string, text: string)
    requires StartsWith(data, "animation_id:")
    ensures Drop(data, "root", text) == AnimationMoved(ReplaceAll(data, "animation_id:", ""), "Root")
  {
  }

  // ---------------------------------------------------------------------
  // Count bookkeeping
  // ---------------------------------------------------------------------

  /** `increment_folder_count` and `update_single_folder_count` match a key by its cleaned name or the key itself. */
  predicate Matches(key: string, folderName: string)
  {
    ExtractCleanPath(key) == folderName || key == folderName
  }

  /** The position of the first matching key, or `|keys|`. */
  function FirstMatch(keys: seq<string>, folderName: string): (i: nat)
    ensures i <= |keys|
    ensures forall j :: 0 <= j < i ==> !Matches(keys[j], folderName)
    ensures i < |keys| ==> Matches(keys[i], folderName)
  {
    if |keys| == 0 then 0
    else if Matches(keys[0], folderName) then 0
    else 1 + FirstMatch(keys[1..], folderName)
  }

  /** The first key that matches, after keys that do not, is the first match. */
  lemma {:induction false} FirstMatchAt(keys: seq<string>, folderName: string, i: nat)
    requires i < |keys| && Matches(keys[i], folderName)
    requires forall j :: 0 <= j < i ==> !Matches(keys[j], folderName)
    ensures FirstMatch(keys, folderName) == i
    decreases i
  {
    if i > 0 {
      FirstMatchAt(keys[1..], folderName, i - 1);
    }
  }

  /** With no matching key the first match is past the end. */
  lemma {:induction false} FirstMatchNone(keys: seq<string>, folderName: string)
    requires forall j :: 0 <= j < |keys| ==> !Matches(keys[j], folderName)
    ensures FirstMatch(keys, folderName) == |keys|
  {
  }

  /** A record with its count raised by `increment`, but never below zero. */
  function Bumped(data: FolderData, increment: int): (r: FolderData)
    ensures r.kind == data.kind && r.filter == data.filter
    ensures r.count.Some? && r.count.value >= 0
    ensures CountOr0(data) + increment >= 0 ==> r.count == Some(CountOr0(data) + increment)
  {
    data.(count := Some(if CountOr0(data) + increment > 0 then CountOr0(data) + increment else 0))
  }

  /** The structure after `increment_folder_count(folder_name, increment)`. */
  function Incremented(d: Dict<FolderData>, folderName: string, increment: int): Dict<FolderData>
  {
    var i := FirstMatch(d.keys, folderName);
    if i == |d.keys| then d else Put(d, d.keys[i], Bumped(d.items[d.keys[i]], increment))
  }

  /** When some key matches, the update lands on the first match. */
  lemma IncrementedAt(d: Dict<FolderData>, folderName: string, increment: int, i: nat)
    requires i == FirstMatch(d.keys, folderName) && i < |d.keys|
    ensures d.keys[i] in d.items
    ensures Incremented(d, folderName, increment) == Put(d, d.keys[i], Bumped(d.items[d.keys[i]], increment))
  {
  }

  /** The counts of a structure are all non-negative. */
  ghost predicate CountsNonNegative(d: Dict<FolderData>)
  {
    forall k :: k in d.items ==> CountOr0(d.items[k]) >= 0
  }

  /**
   * Incrementing changes only the first matching folder, leaves the key
   * order alone, and keeps counts non-negative.
   */
  lemma IncrementedSpec(d: Dict<FolderData>, folderName: string, increment: int)
    ensures Incremented(d, folderName, increment).keys == d.keys
    ensures forall k :: k in d.items && !Matches(k, folderName) ==> Incremented(d, folderName, increment).items[k] == d.items[k]
    ensures CountsNonNegative(d) ==> CountsNonNegative(Incremented(d, folderName, increment))
  {
    var i := FirstMatch(d.keys, folderName);
    if i < |d.keys| {
      assert d.keys[i] in d.items;
    }
  }

  /** No matching key: nothing changes. */
  lemma IncrementedNoMatch(d: Dict<FolderData>, folderName: string, increment: int)
    requires forall k :: k in d.items ==> !Matches(k, folderName)
    ensures Incremented(d, folderName, increment) == d
  {
    var i := FirstMatch(d.keys, folderName);
    if i < |d.keys| {
      assert false;
    }
  }

  /** The structure after `update_single_folder_count(folder_name, count)`. */
  function SingleCounted(d: Dict<FolderData>, folderName: string, count: int): Dict<FolderData>
  {
    var i := FirstMatch(d.keys, folderName);
    if i == |d.keys| then d else Put(d, d.keys[i], d.items[d.keys[i]].(count := Some(count)))
  }

  /**
   * Setting a single count changes only the count of the first matching
   * folder, to exactly `count`, and leaves the key order and every other
   * entry alone.
   */
  lemma SingleCountedSpec(d: Dict<FolderData>, folderName: string, count: int)
    ensures SingleCounted(d, folderName, count).keys == d.keys
    ensures forall k :: k in d.items && !Matches(k, folderName) ==> SingleCounted(d, folderName, count).items[k] == d.items[k]
    ensures var i := FirstMatch(d.keys, folderName);
            i < |d.keys| ==> SingleCounted(d, folderName, count).items[d.keys[i]] == d.items[d.keys[i]].(count := Some(count))
  {
    var i := FirstMatch(d.keys, folderName);
    if i < |d.keys| {
      assert d.keys[i] in d.items;
    }
  }

  /** `sum(...)` of a list of totals. */
  function Sum(xs: seq<int>): int
  {
    if |xs| == 0 then 0 else xs[0] + Sum(xs[1..])
  }

  /** The record of `key` after `update_folder_counts_only` with the given folder totals. */
  function CountedEntry(key: string, data: FolderData, totals: Dict<int>): FolderData
  {
    if key == AllAnimationsKey then data.(count := Some(Sum(Values(totals))))
    else if data.kind == Some("folder") && ExtractCleanPath(key) in totals.items then
      data.(count := Some(totals.items[ExtractCleanPath(key)]))
    else data
  }

  /** The structure after `update_folder_counts_only`. */
  function CountsUpdated(d: Dict<FolderData>, totals: Dict<int>): (r: Dict<FolderData>)
    ensures r.keys == d.keys
    ensures forall k :: k in d.items ==> k in r.items && r.items[k] == CountedEntry(k, d.items[k], totals)
  {
    var r := RawDict(d.keys, map k | k in d.items :: CountedEntry(k, d.items[k], totals));
    assert WellKeyed(r);
    r
  }

  /**
   * After `update_folder_counts_only` the top entry counts the sum of all
   * totals, a folder named in the totals shows its total, and every other
   * entry, and every type and filter, is unchanged.
   */
  lemma CountsUpdatedSpec(d: Dict<FolderData>, totals: Dict<int>, key: string)
    requires key in d.items
    ensures var e := CountsUpdated(d, totals).items[key];
      e.kind == d.items[key].kind && e.filter == d.items[key].filter &&
      (key == AllAnimationsKey ==> e.count == Some(Sum(Values(totals)))) &&
      (key != AllAnimationsKey && d.items[key].kind == Some("folder") && ExtractCleanPath(key) in totals.items ==>
        e.count == Some(totals.items[ExtractCleanPath(key)])) &&
      (key != AllAnimationsKey && (d.items[key].kind != Some("folder") || ExtractCleanPath(key) !in totals.items) ==>
        e == d.items[key])
  {
  }

  /** Updating counts never forces a rebuild. */
  lemma CountsUpdatedKeepsStructure(d: Dict<FolderData>, totals: Dict<int>)
    ensures !StructureChanged(CountsUpdated(d, totals), d)
  {
    var r := CountsUpdated(d, totals);
    assert forall k :: k in r.items ==> !ChangedKey(k, r.items, d.items);
  }

  /** The folder tree's model of its structure. */
  class FolderTree {
    var structure: Dict<FolderData>

    /** `setup_default_structure`: only the top entry, of type "root", filter "all" and count 0. */
    constructor()
      ensures structure.keys == [AllAnimationsKey]
      ensures structure.items == map[AllAnimationsKey := FolderData(Some("root"), Some("all"), Some(0))]
    {
      structure := Put(Empty(), AllAnimationsKey, FolderData(Some("root"), Some("all"), Some(0)));
    }

    /** `update_folder_structure`: whether or not the folder names changed, the new structure is taken. */
    method UpdateFolderStructure(newStructure: Dict<FolderData>)
      modifies this
      ensures structure == newStructure
    {
      structure := newStructure;
    }

    /** `increment_folder_count`: the first matching folder's count moves by `increment`, floored at 0. */
    method IncrementFolderCount(folderName: string, increment: int)
      modifies this
      ensures structure == Incremented(old(structure), folderName, increment)
    {
      var d := structure;
      var i := FindFolder(d.keys, folderName);
      if i < |d.keys| {
        IncrementedAt(d, folderName, increment, i);
        var bumped := BumpCount(d.items[d.keys[i]], increment);
        structure := Put(d, d.keys[i], bumped);
      }
    }

    /** The new count of `increment_folder_count`: the old one (0 when unset) plus `increment`, floored at 0. */
    static method BumpCount(data: FolderData, increment: int) returns (r: FolderData)
      ensures r == Bumped(data, increment)
    {
      var current := if data.count.Some? then data.count.value else 0;
      var updated := if current + increment > 0 then current + increment else 0;
      r := data.(count := Some(updated));
    }

    /** `update_single_folder_count`: the first matching folder's count becomes `count`. */
    method UpdateSingleFolderCount(folderName: string, count: int)
      modifies this
      ensures structure == SingleCounted(old(structure), folderName, count)
    {
      var i := FindFolder(structure.keys, folderName);
      if i < |structure.keys| {
        var key := structure.keys[i];
        structure := Put(structure, key, structure.items[key].(count := Some(count)));
      }
    }

    /**
     * The search loop shared by `increment_folder_count` and
     * `update_single_folder_count`: the keys in order until one matches;
     * `|keys|` when none does.
     */
    static method FindFolder(keys: seq<string>, folderName: string) returns (i: nat)
      ensures i == FirstMatch(keys, folderName)
    {
      i := 0;
      while i < |keys|
        invariant 0 <= i <= |keys|
        invariant forall j :: 0 <= j < i ==> !Matches(keys[j], folderName)
      {
        if ExtractCleanPath(keys[i]) == folderName || keys[i] == folderName {
          FirstMatchAt(keys, folderName, i);
          return;
        }
        i := i + 1;
      }
      FirstMatchNone(keys, folderName);
    }

    /**
     * `update_folder_counts_only`: the top entry takes the sum of the
     * totals, each folder found in the totals takes its own total.
     */
    method UpdateFolderCountsOnly(totals: Dict<int>)
      requires AllAnimationsKey in structure.items
      modifies this
      ensures structure == CountsUpdated(old(structure), totals)
    {
      var total := SumOf(Values(totals));
      var keys, items := structure.keys, structure.items;
      items := RecountFolders(keys, items[AllAnimationsKey := items[AllAnimationsKey].(count := Some(total))], totals);
      structure := RawDict(keys, items);
      assert structure.items == CountsUpdated(old(structure), totals).items;
    }

    /** The loop over the folders of `update_folder_counts_only`; the top entry is left as it is. */
    static method RecountFolders(keys: seq<string>, items: map<string, FolderData>, totals: Dict<int>)
      returns (r: map<string, FolderData>)
      requires forall k :: k in items <==> k in keys
      ensures r.Keys == items.Keys
      ensures forall k :: k in items ==> r[k] == if k == AllAnimationsKey then items[k] else CountedEntry(k, items[k], totals)
    {
      r := items;
      ghost var done: set<string> := {};
      var i := 0;
      while i < |keys|
        invariant 0 <= i <= |keys|
        invariant r.Keys == items.Keys
        invariant forall j :: 0 <= j < i ==> keys[j] in done
        invariant forall k :: k in items ==>
          r[k] == if k in done && k != AllAnimationsKey then CountedEntry(k, items[k], totals) else items[k]
      {
        var key := keys[i];
        if key != AllAnimationsKey {
          r := Recount(r, key, totals);
        }
        done := done + {key};
        i := i + 1;
      }
      forall k | k in items ensures k in done {
        var j :| 0 <= j < |keys| && keys[j] == k;
      }
    }

    /** The body of the loop over the folders: one folder found in the totals takes its total. */
    static method Recount(items: map<string, FolderData>, key: string, totals: Dict<int>) returns (r: map<string, FolderData>)
      requires key in items && key != AllAnimationsKey
      ensures r == items[key := CountedEntry(key, items[key], totals)]
    {
      var data := items[key];
      r := items;
      if data.kind == Some("folder") {
        var clean := ExtractCleanPath(key);
        if clean in totals.items {
          r := items[key := data.(count := Some(totals.items[clean]))];
        }
      }
      assert r == items[key := CountedEntry(key, items[key], totals)];
    }

    /** `sum(...)` over the totals. */
    static method SumOf(values: seq<int>) returns (total: int)
      ensures total == Sum(values)
    {
      total := 0;
      var n := 0;
      while n < |values|
        invariant 0 <= n <= |values|
        invariant total + Sum(values[n..]) == Sum(values)
      {
        assert values[n..][1..] == values[n + 1..];
        total := total + values[n];
        n := n + 1;
      }
    }
  }
}
