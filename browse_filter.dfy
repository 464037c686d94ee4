// The browse view of the main window (`src/gui/main.py`): the folder filter
// chosen in the tree, the search box and the tag and rig drop-downs narrow
// the catalog listing; the status line counts what is shown; and the rig of
// the selected armature is detected from its bones.
//
// The widgets' current texts are parameters here; the listing is the one
// the catalog manager returns.

module BrowseFilter {
  import opened Text
  import opened Collections
  import opened AnimationData
  import opened Catalog

  /** What the browse view currently filters by. */
  datatype View = View(folderFilter: string, searchText: string, selectedTag: string, selectedRig: string)

  /** The view that shows everything. */
  const ShowAll := View("all", "", "All Tags", "All Rigs")

  // ---------------------------------------------------------------------
  // The four filters
  // ---------------------------------------------------------------------

  /** `filter.split(":", 1)[1]` for a filter starting with `prefix`, whose only colon is its last character. */
  function AfterPrefix(filter: string, prefix: string): string
    requires StartsWith(filter, prefix)
  {
    filter[|prefix|..]
  }

  /** Some tag contains `category`, both lower-cased. */
  predicate HasCategory(e: Entry, category: string)
  {
    exists i :: 0 <= i < |e.meta.tags| && Contains(Lower(e.meta.tags[i]), Lower(category))
  }

  /**
   * The folder filter: "rig_type:", "storage:" and "tag:" need an exact
   * match, "category:" a case-insensitive substring of a tag; "all" and any
   * other filter keep every entry.
   */
  predicate FolderKeeps(filter: string, e: Entry)
  {
    if filter == "all" then true
    else if StartsWith(filter, "rig_type:") then e.meta.rigType == AfterPrefix(filter, "rig_type:")
    else if StartsWith(filter, "storage:") then e.storageMethod == AfterPrefix(filter, "storage:")
    else if StartsWith(filter, "tag:") then AfterPrefix(filter, "tag:") in e.meta.tags
    else if StartsWith(filter, "category:") then HasCategory(e, AfterPrefix(filter, "category:"))
    else true
  }

  /** The search box: an empty text keeps everything, any other must occur in a name, description or tag. */
  predicate SearchKeeps(searchText: string, e: Entry)
  {
    Lower(searchText) == "" || SearchMatch(e, searchText)
  }

  /** The tag drop-down: "All Tags", or one of the entry's tags, without regard to case. */
  predicate TagKeeps(selectedTag: string, e: Entry)
  {
    selectedTag == "All Tags" || exists i :: 0 <= i < |e.meta.tags| && Lower(e.meta.tags[i]) == Lower(selectedTag)
  }

  /** The rig drop-down: "All Rigs", or the entry's rig type, without regard to case. */
  predicate RigKeeps(selectedRig: string, e: Entry)
  {
    selectedRig == "All Rigs" || Lower(e.meta.rigType) == Lower(selectedRig)
  }

  /** An entry the view shows passes all four filters. */
  predicate Shows(view: View, e: Entry)
  {
    FolderKeeps(view.folderFilter, e) && SearchKeeps(view.searchText, e) &&
    TagKeeps(view.selectedTag, e) && RigKeeps(view.selectedRig, e)
  }

  // ---------------------------------------------------------------------
  // The pipeline
  // ---------------------------------------------------------------------

  /** `get_filtered_animations`: the folder filter, then search, tag and rig, each a list comprehension. */
  function FilteredAnimations(all: seq<Entry>, view: View): seq<Entry>
  {
    var byFolder := Filter(all, e => FolderKeeps(view.folderFilter, e));
    var bySearch := if Lower(view.searchText) != "" then Filter(byFolder, e => SearchMatch(e, view.searchText)) else byFolder;
    var byTag := if view.selectedTag != "All Tags" then Filter(bySearch, e => TagKeeps(view.selectedTag, e)) else bySearch;
    if view.selectedRig != "All Rigs" then Filter(byTag, e => RigKeeps(view.selectedRig, e)) else byTag
  }

  /** Each stage is the whole list or a selection from it. */
  lemma StageSpec(s: seq<Entry>, apply: bool, keep: Entry -> bool, r: seq<Entry>)
    requires r == if apply then Filter(s, keep) else s
    ensures IsSublist(r, s)
    ensures forall e :: e in r <==> e in s && (apply ==> keep(e))
  {
    if apply {
      FilterIsSublist(s, keep);
    } else {
      SublistRefl(s);
    }
  }

  /** Every sequence is a sublist of itself. */
  lemma {:induction false} SublistRefl(s: seq<Entry>)
    ensures IsSublist(s, s)
    decreases |s|
  {
    if |s| > 0 {
      SublistRefl(s[1..]);
    }
  }

  /** The view shows entries of the listing in catalog order. */
  lemma FilteredAnimationsSublist(all: seq<Entry>, view: View)
    ensures IsSublist(FilteredAnimations(all, view), all)
  {
    var byFolder := Filter(all, e => FolderKeeps(view.folderFilter, e));
    var bySearch := if Lower(view.searchText) != "" then Filter(byFolder, e => SearchMatch(e, view.searchText)) else byFolder;
    var byTag := if view.selectedTag != "All Tags" then Filter(bySearch, e => TagKeeps(view.selectedTag, e)) else bySearch;
    var byRig := if view.selectedRig != "All Rigs" then Filter(byTag, e => RigKeeps(view.selectedRig, e)) else byTag;
    StageSpec(all, true, e => FolderKeeps(view.folderFilter, e), byFolder);
    StageSpec(byFolder, Lower(view.searchText) != "", e => SearchMatch(e, view.searchText), bySearch);
    StageSpec(bySearch, view.selectedTag != "All Tags", e => TagKeeps(view.selectedTag, e), byTag);
    StageSpec(byTag, view.selectedRig != "All Rigs", e => RigKeeps(view.selectedRig, e), byRig);
    SublistTrans(bySearch, byFolder, all);
    SublistTrans(byTag, bySearch, all);
    SublistTrans(byRig, byTag, all);
  }

  /** The view shows exactly the listed entries that pass all four filters. */
  lemma FilteredAnimationsMembers(all: seq<Entry>, view: View)
    ensures forall e :: e in FilteredAnimations(all, view) <==> e in all && Shows(view, e)
  {
    var byFolder := Filter(all, e => FolderKeeps(view.folderFilter, e));
    var bySearch := if Lower(view.searchText) != "" then Filter(byFolder, e => SearchMatch(e, view.searchText)) else byFolder;
    var byTag := if view.selectedTag != "All Tags" then Filter(bySearch, e => TagKeeps(view.selectedTag, e)) else bySearch;
    var byRig := if view.selectedRig != "All Rigs" then Filter(byTag, e => RigKeeps(view.selectedRig, e)) else byTag;
    StageSpec(all, true, e => FolderKeeps(view.folderFilter, e), byFolder);
    StageSpec(byFolder, Lower(view.searchText) != "", e => SearchMatch(e, view.searchText), bySearch);
    StageSpec(bySearch, view.selectedTag != "All Tags", e => TagKeeps(view.selectedTag, e), byTag);
    StageSpec(byTag, view.selectedRig != "All Rigs", e => RigKeeps(view.selectedRig, e), byRig);
    forall e
      ensures e in byRig <==> e in all && Shows(view, e)
    {
      assert e in byFolder <==> e in all && FolderKeeps(view.folderFilter, e);
      assert e in bySearch <==> e in byFolder && SearchKeeps(view.searchText, e);
      assert e in byTag <==> e in bySearch && TagKeeps(view.selectedTag, e);
      assert e in byRig <==> e in byTag && RigKeeps(view.selectedRig, e);
    }
  }

  /** The view that filters by nothing shows the whole listing. */
  lemma ShowAllShowsEverything(all: seq<Entry>)
    ensures FilteredAnimations(all, ShowAll) == all
  {
    FilterAll(all, e => FolderKeeps("all", e));
  }

  /** A folder filter with no known prefix, such as a "folder:" one, filters nothing. */
  lemma FolderFilterIgnored(all: seq<Entry>, view: View)
    requires !StartsWith(view.folderFilter, "rig_type:") && !StartsWith(view.folderFilter, "storage:")
    requires !StartsWith(view.folderFilter, "tag:") && !StartsWith(view.folderFilter, "category:")
    ensures FilteredAnimations(all, view) == FilteredAnimations(all, view.(folderFilter := "all"))
  {
    FilterAll(all, e => FolderKeeps(view.folderFilter, e));
    FilterAll(all, e => FolderKeeps("all", e));
  }

  /** The search, tag and rig drop-downs do not depend on the case of their text. */
  lemma FiltersIgnoreCase(e: Entry, text: string, tag: string, rig: string)
    requires tag != "All Tags" && rig != "All Rigs"
    ensures SearchKeeps(text, e) == SearchKeeps(Lower(text), e)
    ensures TagKeeps(tag, e) == TagKeeps(Lower(tag), e)
    ensures RigKeeps(rig, e) == RigKeeps(Lower(rig), e)
  {
    LowerIdempotent(text);
    LowerIdempotent(tag);
    LowerIdempotent(rig);
    assert Lower(tag) != "All Tags" by {
      if |tag| == |"All Tags"| {
        assert Lower(tag)[0] != "All Tags"[0];
      }
    }
    assert Lower(rig) != "All Rigs" by {
      if |rig| == |"All Rigs"| {
        assert Lower(rig)[0] != "All Rigs"[0];
      }
    }
  }

  /** The "category:" filter matches a tag that contains the category, whatever the case of either. */
  lemma CategoryIgnoresCase(e: Entry, category: string)
    ensures FolderKeeps("category:" + category, e) == HasCategory(e, Lower(category))
  {
    var filter := "category:" + category;
    assert StartsWith(filter, "category:");
    assert AfterPrefix(filter, "category:") == category;
    assert !StartsWith(filter, "rig_type:") by { assert filter[0] == 'c'; }
    assert !StartsWith(filter, "storage:") by { assert filter[0] == 'c'; }
    assert !StartsWith(filter, "tag:") by { assert filter[0] == 'c'; }
    LowerIdempotent(category);
  }

  // ---------------------------------------------------------------------
  // The status line
  // ---------------------------------------------------------------------

  /**
   * `update_statistics`: "N animations" when nothing is hidden, else
   * "F of N animations", then the storage counts of what is shown when
   * either is non-zero.
   */
  function StatsText(total: nat, shown: nat, blendCount: nat, legacyCount: nat): string
  {
    var head := StatsHead(total, shown);
    if blendCount > 0 || legacyCount > 0 then
      head + " (⚡" + NatToString(blendCount) + " instant, ⏳" + NatToString(legacyCount) + " legacy)"
    else head
  }

  /** The counts part of the status line. */
  function StatsHead(total: nat, shown: nat): string
  {
    if total == shown then NatToString(total) + " animations"
    else NatToString(shown) + " of " + NatToString(total) + " animations"
  }

  /** The status line of a view over a listing. */
  function UpdateStatistics(all: seq<Entry>, view: View): string
  {
    var shown := FilteredAnimations(all, view);
    StatsText(|all|, |shown|, Count(shown, IsBlendStorage), Count(shown, IsLegacyStorage))
  }

  /**
   * The line opens with the number of entries shown, followed by a space;
   * " of " follows it exactly when some entries are hidden.
   */
  lemma StatsTextLeadingCount(total: nat, shown: nat, blendCount: nat, legacyCount: nat)
    ensures var text := StatsText(total, shown, blendCount, legacyCount);
            var n := |NatToString(shown)|;
            n < |text| && text[..n] == NatToString(shown) &&
            (StartsWith(text[n..], " of ") <==> total != shown) &&
            (total == shown ==> StartsWith(text[n..], " animations"))
  {
    var text := StatsText(total, shown, blendCount, legacyCount);
    var head := StatsHead(total, shown);
    assert StartsWith(text, head) by {
      assert text[..|head|] == head;
    }
    HeadLeadingCount(total, shown, text);
  }

  /** Any text that starts with the counts part opens with the number shown, then " of " exactly when some are hidden. */
  lemma HeadLeadingCount(total: nat, shown: nat, text: string)
    requires StartsWith(text, StatsHead(total, shown))
    ensures var n := |NatToString(shown)|;
            n < |text| && text[..n] == NatToString(shown) &&
            (StartsWith(text[n..], " of ") <==> total != shown) &&
            (total == shown ==> StartsWith(text[n..], " animations"))
  {
    var head := StatsHead(total, shown);
    var digits := NatToString(shown);
    if total == shown {
      HeadThenRest(digits, " animations", head, text);
      assert " animations"[1] != " of "[1];
    } else {
      var tail := " of " + NatToString(total) + " animations";
      HeadThenRest(digits, tail, head, text);
      assert tail[..4] == " of ";
    }
  }

  /** A text that starts with `head + tail` continues after `head` with `tail`. */
  lemma HeadThenRest(head: string, tail: string, whole: string, text: string)
    requires whole == head + tail && StartsWith(text, whole) && |tail| > 0
    ensures |head| < |text| && text[..|head|] == head && StartsWith(text[|head|..], tail)
  {
    assert text[..|head|] == whole[..|head|];
    assert text[|head|..][..|tail|] == whole[|head|..];
  }

  /** A view that hides nothing shows "N animations" plus the storage counts. */
  lemma StatsOfShowAll(all: seq<Entry>)
    ensures var blend := Count(all, IsBlendStorage);
            var legacy := Count(all, IsLegacyStorage);
            UpdateStatistics(all, ShowAll) == StatsText(|all|, |all|, blend, legacy)
    ensures Count(all, IsBlendStorage) + Count(all, IsLegacyStorage) <= |all|
  {
    ShowAllShowsEverything(all);
    StorageCountsBounded(all);
  }

  /** An entry is not both `.blend` and legacy, so the two counts add up to at most the list. */
  lemma {:induction false} StorageCountsBounded(s: seq<Entry>)
    ensures Count(s, IsBlendStorage) + Count(s, IsLegacyStorage) <= |s|
    decreases |s|
  {
    if |s| > 0 {
      StorageCountsBounded(s[1..]);
    }
  }

  // ---------------------------------------------------------------------
  // The rig of the selected armature
  // ---------------------------------------------------------------------

  /** One entry of the armatures Blender reports: its name and bone names. */
  datatype Armature = Armature(name: string, bones: seq<string>)

  /**
   * `detect_current_rig_type`: "Unknown" without a selected armature;
   * otherwise the rig detected from the bones of the first reported
   * armature of that name, or from no bones if none has it.
   */
  method DetectCurrentRigType(current: Option<string>, available: seq<Armature>) returns (r: string)
    ensures current.None? || current == Some("") ==> r == "Unknown"
    ensures current.Some? && current.value != "" ==>
      (exists i :: 0 <= i < |available| && available[i].name == current.value &&
         (forall j :: 0 <= j < i ==> available[j].name != current.value) &&
         r == DetectRigType(current.value, available[i].bones)) ||
      ((forall j :: 0 <= j < |available| ==> available[j].name != current.value) &&
         r == DetectRigType(current.value, []))
  {
    if current.None? || current.value == "" {
      return "Unknown";
    }
    var name := current.value;
    var bones: seq<string> := [];
    var i := 0;
    while i < |available|
      invariant 0 <= i <= |available|
      invariant bones == []
      invariant forall j :: 0 <= j < i ==> available[j].name != name
    {
      if available[i].name == name {
        bones := available[i].bones;
        r := DetectRigType(name, bones);
        return;
      }
      i := i + 1;
    }
    r := DetectRigType(name, bones);
  }
}
