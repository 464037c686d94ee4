# Blender animation library: a Dafny model of its catalog and message logic

The Blender animation library is a desktop catalog of character animations that talks to a Blender add-on. The desktop side is a Qt application, and the two sides exchange JSON messages over a socket.

- An animation is extracted from an armature's action and saved in its own `.blend` file.
- It is described by a metadata record: its bones, channels, frame range, rig type and tags.
- It is filed in a folder of the library.
- It is applied back to another armature under options: frame offset, channels, selected bones only, and a bone mapping.

This project models the logic of that system that does not depend on the disk, the network, Blender or Qt. It states and proves what each operation guarantees.

| module | file | what it holds |
|---|---|---|
| `Text`, `Collections`, `Json` | `text.dfy`, `collections.dfy`, `json.dfy` | Python's string methods on `seq<char>`, an insertion-ordered `dict` (`Dict<V>`: a key sequence plus a map, each key once), list filtering, and JSON values |
| `AnimationData` | `animation_data.dfy` | bones and channels (`add_channel`, the `name[index]` channel key and its parser), the metadata record and its `__post_init__`, rig-type detection and compatibility, automatic tags, and `should_apply_channel` |
| `AnimationCodec` | `animation_codec.dfy` | `to_dict`, `from_dict` and `from_blender_data`, with their round trip |
| `Catalog` | `catalog.dfy` | the catalog entry and the queries both library managers share: the folder listing and count, search, the storage filters, and folder statistics |
| `LibraryStorage` | `library_storage.dfy` | the current `AnimationLibraryManager`, a class over the entry dictionary plus the sets of folders and `.blend` files on disk |
| `LegacyLibrary` | `legacy_library.dfy` | the older `AnimationLibraryManager`, with id de-duplication on import, batch migration and `.blend` validation |
| `Communication` | `communication.dfy` | `MessageBuffer` framing, `Message` to and from its JSON object, and `PerformanceMonitor` |
| `FolderTreeView` | `folder_tree_view.dfy` | the folder tree of the window: cleaning keys, the flat folder list, change detection, count bookkeeping and drop rules |
| `BoneMapping` | `bone_mapping.dfy` | bone-name cleaning, the side test, and the mapping widget's dictionary and apply options |
| `BlenderConnection` | `blender_connection.dfy` | the normalisation of an animation record before an apply request, and the no-connection guard |
| `BrowseFilter` | `browse_filter.dfy` | the browse view's four filters, its status line, and the rig of the selected armature |
| `CardGrid` | `card_grid.dfy` | the grid of animation cards: its list of cards and the cell each card gets |
| `ActionStorage` | `action_storage.dfy` | the Blender side's F-curve helpers (frame range, bone names, channel and bone filters, frame offset) and the animation id |

Code that changes state in place is modelled as classes with methods. Each method's postcondition ties the new state to a specification function, and lemmas prove the properties of those functions. Pure code is modelled as functions and lemmas.

## Model

| member | source | states |
|---|---|---|
| AnimationData.ParseChannel | src/core/animation_data.py:97-112 | a string without both brackets is its own name with index 0; otherwise the split is at the last '[' and the text after it, trailing ']' stripped, parses as the index; any other outcome keeps the whole string with index 0 |
| AnimationData.ParseChannelKey | src/core/animation_data.py:97-112 | a key written as `name[index]` parses back into exactly that name and index (round trip with the key format of `add_channel`) |
| AnimationData.WithChannel | src/core/animation_data.py:31-40 | `add_channel` stores the channel under `name[index]`, overwriting one there, keeps every other channel, adds the count to the bone's total, and grows the key list only for a new key |
| AnimationData.BoneAnimationData.constructor | src/core/animation_data.py:25-29 | a new bone has its name, no channels and a zero total |
| AnimationData.BoneAnimationData.AddChannel | src/core/animation_data.py:31-40 | the bone after the in-place update is the bone after `add_channel` as a value |
| AnimationData.WithChannelKeepsKeys | src/core/animation_data.py:31-40 | if every stored channel sits under its own `name[index]` key, it still does after `add_channel` (invariant) |
| AnimationData.PostInit | src/core/animation_data.py:79-82 | a zero duration becomes end - start + 1; a non-zero duration and every other field are kept |
| AnimationData.PostInitIdempotent | src/core/animation_data.py:79-82 | running `__post_init__` twice gives the same record as once |
| AnimationData.NameRigType | src/core/animation_data.py:257-266 | the armature name alone can only decide Rigify, Auto-Rig Pro or Mixamo |
| AnimationData.DetectRigType | src/core/animation_data.py:255-285 | the result is one of the four rig types; a deciding armature name wins; otherwise Mixamo iff some bone holds `mixamorig:`; Rigify iff no Mixamo bone and at least three Rigify bones; Auto-Rig Pro iff no Mixamo bone, fewer than three Rigify bones and at least two Auto-Rig Pro bones; Unknown iff none of these, so Mixamo wins over Rigify and Rigify over Auto-Rig Pro |
| AnimationData.RigCompatibilitySymmetric | src/core/animation_data.py:288-292 | compatibility is symmetric, Unknown is compatible with everything, and two known rig types are compatible iff equal |
| AnimationData.TagGroupsApart | src/core/animation_data.py:343-388 | the body, motion, duration and density tag groups share no tag |
| AnimationData.BodyTags | src/core/animation_data.py:343-360 | every bone-dependent tag is one of locomotion, upper_body, facial, hands, spine |
| AnimationData.MotionTags | src/core/animation_data.py:380-388 | every channel-dependent tag is one of translation, rotation, scale |
| AnimationData.DurationTag | src/core/animation_data.py:363-369 | short iff the duration is under 10, long iff over 100, medium otherwise |
| AnimationData.DensityTag | src/core/animation_data.py:371-378 | dense iff keyframes per frame exceed 20, sparse iff under 5, moderate otherwise |
| AnimationData.GenerateTags | src/core/animation_data.py:338-390 | the tag list is never empty, so the `uncategorized` fallback never applies |
| AnimationData.TagsHaveOneDurationAndDensity | src/core/animation_data.py:362-378 | the tags hold exactly one duration tag and exactly one density tag |
| AnimationData.KeywordTagPerBone | src/core/animation_data.py:350-360 | a keyword tag is given iff some lower-cased bone name holds one of the keywords, whatever order the names are joined in |
| AnimationData.ShouldApplyChannel | src/core/animation_data.py:406-411 | true iff some enabled channel type occurs in the lower-cased channel name |
| AnimationCodec.FrameRangeValue | src/core/animation_data.py:153 | the list written for a frame range reads back as the same range |
| AnimationCodec.EncodeBones | src/core/animation_data.py:156-162 | `bone_data` has the bones' names in order, each written as its channel keys and keyframe total |
| AnimationCodec.RecordKeysDistinct | src/core/animation_data.py:148-175 | the sixteen field names of `to_dict` are distinct and differ from `_original_blender_data` |
| AnimationCodec.Encode | src/core/animation_data.py:146-177 | every field is written under its name, and `_original_blender_data` is present exactly when the record carries it |
| AnimationCodec.EncodeNames | src/core/animation_data.py:149-152 | id, name, description and armature_source are written as strings |
| AnimationCodec.EncodeAnimation | src/core/animation_data.py:153-162 | frame_range, the two counts and bone_data are written with their values |
| AnimationCodec.EncodeCatalogue | src/core/animation_data.py:163-166 | created_date, rig_type, tags and category are written with their values |
| AnimationCodec.EncodeUsage | src/core/animation_data.py:167-170 | duration_frames, author, quality_rating and usage_count are written with their values |
| AnimationCodec.DecodeChannels | src/core/animation_data.py:189-221 | a bone read back holds a channel under each of its channel strings, split as on extraction, with the bone's count and the record's range |
| AnimationCodec.DecodeChannelsKeys | src/core/animation_data.py:189-221 | distinct channel strings come back as keys in their own order |
| AnimationCodec.ReadChannels | src/core/animation_data.py:189-221 | the channel loop of `from_dict` builds exactly the decoded channels |
| AnimationCodec.ReadBones | src/core/animation_data.py:183-223 | the bone loop of `from_dict` reads the bones in order and fails as soon as one cannot be read |
| AnimationCodec.FromDict | src/core/animation_data.py:180-248 | `from_dict` with its loops returns the decoded record, or nothing when a required field is missing or ill-typed |
| AnimationCodec.ReloadBones | src/core/animation_data.py:183-223 | reloading keeps the bone names in order and rebuilds each bone from its written entry |
| AnimationCodec.DecodeEncodedBone | src/core/animation_data.py:156-223 | a bone entry written by `to_dict` always reads back, as the reloaded bone |
| AnimationCodec.DecodeEncodedBones | src/core/animation_data.py:156-223 | the `bone_data` object written by `to_dict` reads back as the reloaded bones |
| AnimationCodec.EncodeDecode | src/core/animation_data.py:146-248 | `from_dict(to_dict(m))` always succeeds and gives `m` with its bones reloaded and `__post_init__` applied (round trip) |
| AnimationCodec.ReloadBoneChannels | src/core/animation_data.py:184-221 | a bone whose channels sit under their own keys reloads with the same keys in order and each channel's name and index; the count becomes the bone total and the range the record's |
| AnimationCodec.ReloadKeepsChannels | src/core/animation_data.py:180-248 | a reloaded record keeps its bone names in order and, per bone, its channel keys and each channel's name and index |
| AnimationCodec.ExtractChannels | src/core/animation_data.py:91-112 | `add_channel` once per channel string keeps the bone's name and adds the per-bone count once per string to the total |
| AnimationCodec.ExtractChannelsShape | src/core/animation_data.py:91-112 | an extracted bone keeps every channel under its own key, with the bone's count and the record's range |
| AnimationCodec.StoredKeyOfKey | src/core/animation_data.py:97-112 | a channel string that is already a `name[index]` key is stored under itself |
| AnimationCodec.ExtractChannelsKeys | src/core/animation_data.py:91-112 | an extracted bone holds exactly its earlier channels plus one key per channel string |
| AnimationCodec.ExtractBoneChannels | src/core/animation_data.py:90-114 | the per-bone loop of `from_blender_data` builds the bone that `add_channel` on each string gives |
| AnimationCodec.AnimationId | src/core/animation_data.py:87-88 | the identifier holds no '\|' and no space |
| AnimationCodec.AssembleRecord | src/core/animation_data.py:124-139 | a built record carries exactly the extracted bones |
| AnimationCodec.FromBlenderData | src/core/animation_data.py:84-144 | `from_blender_data` with its loops returns the extracted record, or nothing when a required key is missing |
| AnimationCodec.ExtractAllBones | src/core/animation_data.py:91-121 | the bone loop of `from_blender_data` builds the bones in order and fails as soon as one cannot be built |
| AnimationCodec.ExtractedBonesMatchKeys | src/core/animation_data.py:89-114 | every extracted bone keeps its channels under their own keys |
| AnimationCodec.ExtractedRecordKeys | src/core/animation_data.py:84-144 | every bone of an extracted record keeps its channels under their own keys, so the reload round trip keeps them |
| Catalog.AnimationsInFolderSpec | src/core/library_storage.py:380-396 | the listing of a folder holds, in catalog order, exactly the entries in that folder ("Root" also taking entries with no or an empty folder) |
| Catalog.CountAtMostListing | src/core/library_storage.py:115-121 | a folder's exact-match count is at most the length of its listing, and equal to it for every folder but "Root" |
| Catalog.FilesAfterRemoval | src/core/library_storage.py:822-852 | removing an entry's files removes only its `.blend` file, and nothing for an entry kept as JSON |
| Catalog.SearchAnimationsSpec | src/core/library_storage.py:486-497 | search selects, in catalog order, exactly the available entries whose name, description or a tag holds the lower-cased query |
| Catalog.AllAnimationsSpec | src/core/library_storage.py:363-378 | the listing keeps, in catalog order, exactly the entries that are not stored in a `.blend` file or whose `.blend` file exists |
| Catalog.SearchEmptyQuery | src/core/library_storage.py:486-497 | searching for the empty string lists every available entry |
| Catalog.StorageListingsSplit | src/core/library_storage.py:516-519 | no entry is listed by both storage filters, and the two listings together are no longer than the list they filter |
| Catalog.FilterByTagsSpec | src/core/library_storage.py:499-509 | filtering by tags keeps, in catalog order, exactly the available entries with a tag equal to a wanted tag without regard to case |
| Catalog.FilterByNoTags | src/core/library_storage.py:499-509 | with no wanted tag nothing is listed |
| Catalog.FilterByRigTypeSpec | src/core/library_storage.py:511-514 | filtering by rig type keeps, in catalog order, exactly the available entries whose rig type equals the wanted one without regard to case |
| Catalog.FilterByRigTypeIgnoresCase | src/core/library_storage.py:511-514 | two spellings of a rig type that differ only in case list the same entries |
| Catalog.FilterByStorageMethodSpec | src/core/library_storage.py:516-527 | filtering by storage method (and so the `.blend` and legacy listings) keeps, in catalog order, exactly the available entries stored that way |
| Catalog.BlendAndLegacySplit | src/core/library_storage.py:521-527 | the `.blend` and legacy listings never share an entry and never hold more than all available entries |
| Catalog.CountEntry | src/core/library_storage.py:463-484 | counting one entry adds its folder row if new, raises that row's total by one and leaves every other row alone |
| Catalog.CountEntryAddsUp | src/core/library_storage.py:463-484 | counting one entry keeps every row's total equal to its `.blend` count plus its JSON count |
| Catalog.CountEntryTotal | src/core/library_storage.py:463-484 | counting one entry raises the sum of the totals by one |
| Catalog.FolderStatisticsTotals | src/core/library_storage.py:463-484 | every row adds up, and the totals add up to the number of animations |
| Catalog.FolderStatisticsKeys | src/core/library_storage.py:463-484 | there is a row for exactly the folder values that occur |
| Catalog.FolderStatisticsCounts | src/core/library_storage.py:463-484 | each row's total is the number of entries with that folder value |
| LibraryStorage.RehomedSpec | src/core/library_storage.py:172-185 | deleting a folder keeps the ids and their order, moves exactly that folder's entries to "Root", changes nothing else, and leaves the folder's listing empty |
| LibraryStorage.RehomeCounts | src/core/library_storage.py:172-185 | the deleted folder's entries are added to the "Root" count, none lost or counted twice, and the folder's count becomes zero |
| LibraryStorage.ImportedEntry | src/core/library_storage.py:909-935 | an imported file gives a `.blend` entry whose id is the file name without `.blend`, in the folder it was found in, lasting 100 frames |
| LibraryStorage.ImportFolderExtends | src/core/library_storage.py:908-939 | importing one folder keeps every existing entry and its place |
| LibraryStorage.ImportFolderSpec | src/core/library_storage.py:908-939 | importing one folder catalogues every file in it and adds nothing but imports of those files |
| LibraryStorage.ImportScanSpec | src/core/library_storage.py:892-955 | importing a scan keeps every existing entry, catalogues every scanned file, and adds only imports of scanned files in the folder each was found in |
| LibraryStorage.ImportScanListed | src/core/library_storage.py:901-932 | every entry a scan of the disk adds lies in one of the library's folders and, its `.blend` file being present, is listed by `get_all_animations` |
| LibraryStorage.AnimationLibraryManager.constructor | src/core/library_storage.py:23-52 | a new manager has no entries and the "Root" folder on disk |
| LibraryStorage.AnimationLibraryManager.CreateFolder | src/core/library_storage.py:123-153 | succeeds iff the stripped name is non-blank, has no '/' or '\\', is not "." or ".." and holds no NUL (which the `exists()` test refuses), and is not a folder yet; only then is the stripped name added |
| LibraryStorage.AnimationLibraryManager.DeleteFolder | src/core/library_storage.py:155-240 | refuses protected and missing folders without change; otherwise re-homes the folder's entries to "Root" and removes the folder unless removal fails |
| LibraryStorage.AnimationLibraryManager.FolderIds | src/core/library_storage.py:172-177 | the ids collected are exactly those of the entries stored in the folder |
| LibraryStorage.AnimationLibraryManager.MoveToRoot | src/core/library_storage.py:180-185 | moving the collected ids gives the re-homed catalog |
| LibraryStorage.AnimationLibraryManager.AddAnimation | src/core/library_storage.py:273-320 | the entry is stored under its id with the given folder, replacing an entry with that id, and the folder exists afterwards |
| LibraryStorage.AnimationLibraryManager.RemoveAnimation | src/core/library_storage.py:322-348 | an unknown id returns false and changes nothing; a known id removes exactly that key and its `.blend` file |
| LibraryStorage.AnimationLibraryManager.MoveAnimationToFolder | src/core/library_storage.py:398-461 | an unknown id returns false and changes nothing; otherwise the target folder is created and only that entry's folder changes, unless moving its `.blend` file fails |
| LibraryStorage.AnimationLibraryManager.CountAnimationsInFolder | src/core/library_storage.py:115-121 | the count is the number of entries whose folder is exactly the given one |
| LibraryStorage.AnimationLibraryManager.GetFolderStatistics | src/core/library_storage.py:463-484 | each folder row adds up, the totals add up to the number of animations, and each total counts that folder's entries |
| LibraryStorage.AnimationLibraryManager.DetectAndImportExistingBlendFiles | src/core/library_storage.py:892-955 | for a scan of the library's own folders and files, the catalog becomes the imported scan, the result is the number of entries added, and every added entry is listed by `get_all_animations` |
| LibraryStorage.AnimationLibraryManager.ImportFolderFiles | src/core/library_storage.py:908-939 | one folder's files, found on disk, are imported and the count grows by the number returned |
| LibraryStorage.AddedIsListed | src/core/library_storage.py:273-303 | an added entry is listed in the folder it was added to |
| LibraryStorage.FolderCountMatchesListing | src/core/library_storage.py:115-121 | a folder's count is the length of its listing, and for "Root" at most that |
| LegacyLibrary.SuffixedInjective | src/gui/widgets/folder_tree.py:627-630 | different counters give different `original_counter` ids |
| LegacyLibrary.TriedStep | src/gui/widgets/folder_tree.py:627-630 | each round of the counter loop tries one id not tried before |
| LegacyLibrary.FreeSuffix | src/gui/widgets/folder_tree.py:625-631 | the counter settled on names a free id, and every smaller counter names a taken one |
| LegacyLibrary.FreeSuffixFrom | src/gui/widgets/folder_tree.py:625-631 | starting the search past taken ids only finds the same counter |
| LegacyLibrary.MergeStoresEveryRecord | src/gui/widgets/folder_tree.py:619-651 | a merging import never overwrites an entry and stores every readable record, so the catalog grows by exactly their number |
| LegacyLibrary.NoMergeSkipsTaken | src/gui/widgets/folder_tree.py:619-651 | a non-merging import never overwrites an entry, and adds exactly the readable records whose key was free, each as read |
| LegacyLibrary.AllLegacyMigrate | src/gui/widgets/folder_tree.py:392-420 | when every entry sits under its own id, the migration of every listed JSON entry succeeds |
| LegacyLibrary.ReferencedFiles | src/gui/widgets/folder_tree.py:491 | the referenced set holds exactly the files the listed `.blend` entries name |
| LegacyLibrary.AllListedValid | src/gui/widgets/folder_tree.py:483-489 | when every listed entry has its file, none is reported missing and all are valid |
| LegacyLibrary.NamesWhereSplit | src/gui/widgets/folder_tree.py:483-489 | every listed `.blend` entry is reported exactly once, as valid or as missing |
| LegacyLibrary.ValidateBlendFiles | src/gui/widgets/folder_tree.py:474-497 | the valid and missing reports together have one name per listed `.blend` entry, and every orphan is a file on disk |
| LegacyLibrary.ValidationSpec | src/gui/widgets/folder_tree.py:474-497 | orphans are files on disk that no listed `.blend` entry refers to, every file is referenced or orphaned, and since the listing skips missing files nothing is reported missing |
| LegacyLibrary.AnimationLibraryManager.constructor | src/gui/widgets/folder_tree.py:23-47 | a new manager has no entries |
| LegacyLibrary.AnimationLibraryManager.AddAnimation | src/gui/widgets/folder_tree.py:58-83 | the entry is stored under its id with the given folder, replacing an entry with that id |
| LegacyLibrary.AnimationLibraryManager.RemoveAnimation | src/gui/widgets/folder_tree.py:85-111 | an unknown id returns false and changes nothing; a known id removes exactly that key and its `.blend` file |
| LegacyLibrary.AnimationLibraryManager.MoveAnimationToFolder | src/gui/widgets/folder_tree.py:161-179 | an unknown id returns false; otherwise only that entry's folder changes |
| LegacyLibrary.AnimationLibraryManager.GetFolderStatistics | src/gui/widgets/folder_tree.py:181-202 | each folder row adds up and the totals add up to the number of animations |
| LegacyLibrary.AnimationLibraryManager.MigrateAnimationToBlend | src/gui/widgets/folder_tree.py:392-420 | unknown id fails; `.blend` storage succeeds; JSON storage succeeds; any other storage fails |
| LegacyLibrary.AnimationLibraryManager.BatchMigrateToBlend | src/gui/widgets/folder_tree.py:422-452 | every listed JSON entry is tried once, the migrated and failed counts add up to the total, and the migrated count is the number accepted |
| LegacyLibrary.FreshId | src/gui/widgets/folder_tree.py:625-631 | the counter loop returns the first free `original_counter` id |
| LegacyLibrary.ImportOne | src/gui/widgets/folder_tree.py:621-650 | one record: an unreadable one is skipped, a free key is stored, a taken key is renamed when merging and skipped otherwise; a stored `.blend` record copies its file when the imported `actions` folder holds it |
| LegacyLibrary.MergeCopiesEveryBlend | src/gui/widgets/folder_tree.py:638-645 | a merging import copies exactly the `.blend` files, present in the imported library, of its readable `.blend` records |
| LegacyLibrary.NoMergeCopiesOnlyStored | src/gui/widgets/folder_tree.py:634-645 | without merging, a file is copied only for a readable `.blend` record whose key was free |
| LegacyLibrary.AnimationLibraryManager.ImportLibrary | src/gui/widgets/folder_tree.py:604-666 | without readable metadata nothing changes and false is returned; otherwise each record is imported in order as the merge flag says, and the set of `.blend` files grows by exactly the files those records copy |
| Communication.StripTrimmed | src/core/communication.py:156 | what `strip` leaves of a piece is empty or a message that stripping again would not change |
| Communication.FramesAsWrittenStep | src/core/communication.py:154-161 | one turn of the loop as written: the stripped piece before the first delimiter when not empty, then the messages of the stripped remainder |
| Communication.FramesAsWrittenRestClean | src/core/communication.py:154-161 | after the loop as written, the buffer holds no delimiter |
| Communication.FramesAsWrittenTrimmed | src/core/communication.py:154-161 | every message the loop as written delivers is non-empty and stripped |
| Communication.SplitAll | src/core/communication.py:154-157 | splitting at every delimiter gives at least one piece |
| Communication.SplitAllPiecesClean | src/core/communication.py:154-157 | no piece of the split holds the delimiter |
| Communication.SplitAllJoin | src/core/communication.py:154-157 | joining the pieces back with the delimiter gives the buffer again (round trip) |
| Communication.SplitAllAppend | src/core/communication.py:145-157 | splitting data that arrives later does not change the pieces already completed |
| Communication.KeptAppend | src/core/communication.py:156-161 | keeping the non-empty stripped pieces distributes over concatenation |
| Communication.KeptTrimmed | src/core/communication.py:156-161 | every kept piece is non-empty and stripped |
| Communication.FramesNone | src/core/communication.py:154 | without a delimiter in the buffer nothing is delivered and everything stays buffered |
| Communication.FramesStep | src/core/communication.py:154-161 | one turn of the corrected loop: the stripped piece before the first delimiter when not empty, then the messages of the unstripped remainder |
| Communication.FramesRestClean | src/core/communication.py:154-161 | after framing, the buffer holds no delimiter |
| Communication.FramesTrimmed | src/core/communication.py:154-161 | every framed message is non-empty and stripped |
| Communication.FramesAppend | src/core/communication.py:145-161 | how the stream is cut into chunks does not change the messages delivered or what stays buffered |
| Communication.AsWrittenLosesSecondMessage | src/core/communication.py:157 | two one-character messages in one chunk: the loop as written delivers only the first and keeps the second unframed |
| Communication.FramesDeliversBoth | src/core/communication.py:150-163 | the same chunk under the corrected framing delivers both messages and leaves nothing buffered |
| Communication.MessageBuffer.constructor | src/core/communication.py:138-143 | a new buffer is empty with both counters at zero |
| Communication.MessageBuffer.AddData | src/core/communication.py:145-148 | the data is appended and its length counted; the message count is unchanged |
| Communication.MessageBuffer.GetCompleteMessages | src/core/communication.py:150-163 | the messages returned and the buffer left are the framing of the old buffer, and each message delivered is counted |
| Communication.MessageBuffer.Clear | src/core/communication.py:175-180 | the buffer is emptied and both counters reset |
| Communication.AddPerformanceData | src/core/communication.py:76-78 | the performance data gains every keyword with its value, keeps its other keys, and nothing else of the message changes |
| Communication.ToDict | src/core/communication.py:80-92 | the keys are type, timestamp, the data's keys, and performance only when non-empty; type and timestamp keep their values unless the data overrides them |
| Communication.ToDictData | src/core/communication.py:80-92 | every entry of the data reaches the dictionary unchanged unless performance data replaces it |
| Communication.FromJson | src/core/communication.py:98-109 | fails without an object with a type; timestamp and performance default to the clock and an empty dictionary; the data is the rest of the object |
| Communication.WithoutEnvelope | src/core/communication.py:102-104 | the three `pop`s remove exactly type, timestamp and performance, keeping the order of the rest |
| Communication.ToDictKeys | src/core/communication.py:80-92 | for data free of the envelope keys, the key order is type, timestamp, the data's keys, then performance if present |
| Communication.WithoutEnvelopeToDict | src/core/communication.py:80-109 | `to_dict` followed by the `pop`s of `from_json` gives back the data with its keys in order |
| Communication.FromJsonToDict | src/core/communication.py:80-109 | a message whose data avoids the envelope keys comes back unchanged from `from_json(to_json())` (round trip) |
| Communication.ToDictFromJson | src/core/communication.py:80-109 | a received object with a type, a timestamp and non-empty or absent performance data is written back by `to_dict` with the same entries (round trip) |
| Communication.CommandMessage | src/core/communication.py:111-114 | a command message has type "command", the command, and every keyword |
| Communication.BlendFileCommandFields | src/core/communication.py:121-132 | a `.blend` command carries the command, the animation data and every keyword, and names the `.blend` storage type in its performance data |
| Communication.CreateBlendFileMessageFields | src/core/communication.py:662-669 | `create_blend_file_message` carries the command, the animation data and every keyword, and names the `.blend` storage method in its performance data |
| Communication.DetectMessagePerformanceLevel | src/core/communication.py:671-678 | instant iff the data's storage method is "blend_file", slow iff it is "json_keyframes", unknown otherwise |
| Communication.BlendFileCommandIsInstant | src/core/communication.py:121-132 | a `.blend` command without a storage keyword is detected as instant |
| Communication.CreatedBlendFileMessageIsUnknown | src/core/communication.py:662-669 | `create_blend_file_message` without a storage keyword is detected as unknown, because "blend_file" goes only into the performance data |
| Communication.RecordDictStorage | src/core/communication.py:207-220 | the operation record names the `.blend` storage exactly when its keywords do |
| Communication.RecordDictFields | src/core/communication.py:207-212 | the operation record holds every keyword, the success flag, and the duration and type unless a keyword replaces them |
| Communication.PerformanceMonitor.constructor | src/core/communication.py:186-193 | a new monitor has no running operations and no filed records |
| Communication.PerformanceMonitor.StartOperation | src/core/communication.py:195-200 | the operation is remembered, or restarted, under its id, and nothing is filed |
| Communication.PerformanceMonitor.EndOperation | src/core/communication.py:202-225 | an unknown id gives nothing and changes nothing; a known one is forgotten, its record returned, and an extraction or application filed by storage method |
| Communication.PerformanceMonitor.File | src/core/communication.py:214-220 | extractions and applications go to the `.blend` list when the storage method is "blend_file" and to the JSON list otherwise; other operations are not filed |
| Communication.PerformanceMonitor.GetPerformanceSummary | src/core/communication.py:227-237 | the total is the `.blend` count plus the JSON count |
| FolderTreeView.KeepBmp | src/gui/widgets/folder_tree_backup.py:243 | only characters below code point 65536 are kept, and a string made only of those is kept whole |
| FolderTreeView.StripInBmp | src/gui/widgets/folder_tree_backup.py:243-245 | stripping keeps the string inside the Basic Multilingual Plane |
| FolderTreeView.ExtractCleanPathIsClean | src/gui/widgets/folder_tree_backup.py:232-245 | a cleaned key has no character outside the Basic Multilingual Plane and no surrounding white space |
| FolderTreeView.CleanNameUndecorated | src/gui/widgets/folder_tree_backup.py:238-240 | none of the four decorations can occur in a string inside the Basic Multilingual Plane, so removing them changes nothing |
| FolderTreeView.ExtractCleanPathOfClean | src/gui/widgets/folder_tree_backup.py:232-245 | cleaning a clean name gives it back |
| FolderTreeView.ExtractCleanPathIdempotent | src/gui/widgets/folder_tree_backup.py:232-245 | cleaning twice is cleaning once |
| FolderTreeView.ExtractCleanPathOfFolderKey | src/gui/widgets/folder_tree_backup.py:232-245 | the folder key "📁 " + name cleans back to the name (round trip) |
| FolderTreeView.FlatFoldersSpec | src/gui/widgets/folder_tree_backup.py:214-230 | a (name, record) pair is listed iff it comes from a key other than "🎬 All Animations" whose cleaned name is non-empty and has no "/" |
| FolderTreeView.FlatFolderNames | src/gui/widgets/folder_tree_backup.py:223-226 | every listed name is non-empty, clean and free of "/" |
| FolderTreeView.FlatFoldersStep | src/gui/widgets/folder_tree_backup.py:219-226 | each key contributes its folder, if any, ahead of those of the later keys, so the list follows the key order |
| FolderTreeView.BuildFlatFolderList | src/gui/widgets/folder_tree_backup.py:214-230 | the loop returns the flat folders of the structure's keys, in order |
| FolderTreeView.DeleteFolderName | src/gui/widgets/folder_tree_backup.py:336-350 | a name is found only for a folder item whose filter is "folder:" followed by that name |
| FolderTreeView.DeleteFolderNameOfFilter | src/gui/widgets/folder_tree_backup.py:260-261 | the filter given to a folder's item leads `delete_folder` back to that folder (round trip) |
| FolderTreeView.FirstChanged | src/gui/widgets/folder_tree_backup.py:400-407 | the position of the first key that is new or whose filter or type differs, with every earlier key unchanged |
| FolderTreeView.StructureChanged | src/gui/widgets/folder_tree_backup.py:395-409 | true iff the sizes differ or some new key is missing from the old structure or has another filter or type |
| FolderTreeView.StructureUnchangedBySelf | src/gui/widgets/folder_tree_backup.py:395-409 | a structure never differs from itself |
| FolderTreeView.CountsDoNotChangeStructure | src/gui/widgets/folder_tree_backup.py:395-409 | changing counts alone never forces a rebuild |
| FolderTreeView.FolderPathOfItemText | src/gui/widgets/folder_tree_backup.py:445-449 | the name read back from a folder item is the name the item shows, with or without its count, for any name free of " (" and of the folder icon |
| FolderTreeView.DropFolderRules | src/gui/widgets/folder_tree_backup.py:610-638 | a folder is moved only when it was dragged as "folder:…", onto a folder or the root, never onto itself, never when it is "All Animations", and only to a non-empty target |
| FolderTreeView.DropAnimationOnFolder | src/gui/widgets/folder_tree_backup.py:593-605 | an animation dropped on a folder item whose read-back name is non-empty moves there under its id without the "animation_id:" prefix |
| FolderTreeView.DropAnimationOnShownFolder | src/gui/widgets/folder_tree_backup.py:593-605 | an animation dropped on a shown folder item moves to the folder's own name, whatever count the item shows |
| FolderTreeView.DropAnimationOnRoot | src/gui/widgets/folder_tree_backup.py:593-605 | an animation dropped on the root item moves to "Root" under its id without the "animation_id:" prefix |
| FolderTreeView.FirstMatch | src/gui/widgets/folder_tree_backup.py:517-519 | the first key whose cleaned name or the key itself is the folder name, every earlier key not matching |
| FolderTreeView.Bumped | src/gui/widgets/folder_tree_backup.py:520-521 | the count becomes old + increment floored at zero, so it is never negative; type and filter are kept |
| FolderTreeView.IncrementedSpec | src/gui/widgets/folder_tree_backup.py:515-523 | incrementing keeps the key order, leaves every non-matching folder alone, and keeps all counts non-negative |
| FolderTreeView.IncrementedNoMatch | src/gui/widgets/folder_tree_backup.py:515-523 | with no matching key nothing changes |
| FolderTreeView.SingleCountedSpec | src/gui/widgets/folder_tree_backup.py:502-509 | the first matching folder gets exactly the given count; key order and every non-matching folder are kept |
| FolderTreeView.CountsUpdated | src/gui/widgets/folder_tree_backup.py:411-424 | the key order is kept and every entry is updated on its own |
| FolderTreeView.CountsUpdatedSpec | src/gui/widgets/folder_tree_backup.py:416-424 | the top entry counts the sum of all totals; a folder whose cleaned name has a total shows it; every other entry and every type and filter is unchanged |
| FolderTreeView.CountsUpdatedKeepsStructure | src/gui/widgets/folder_tree_backup.py:411-424 | updating counts never forces a rebuild |
| FolderTreeView.FolderTree.constructor | src/gui/widgets/folder_tree_backup.py:151-155 | a new tree holds only the "🎬 All Animations" entry, of type "root", filter "all" and count 0 |
| FolderTreeView.FolderTree.UpdateFolderStructure | src/gui/widgets/folder_tree_backup.py:364-393 | the given structure is taken in both branches, whether or not its folder names changed |
| FolderTreeView.FolderTree.IncrementFolderCount | src/gui/widgets/folder_tree_backup.py:515-523 | the loop leaves the structure that `Incremented` describes |
| FolderTreeView.FolderTree.UpdateSingleFolderCount | src/gui/widgets/folder_tree_backup.py:502-509 | the loop leaves the structure that `SingleCounted` describes |
| FolderTreeView.FolderTree.FindFolder | src/gui/widgets/folder_tree_backup.py:517-519 | the search stops at the first key whose cleaned name or the key itself equals the folder name, and at the end when none does |
| FolderTreeView.FolderTree.BumpCount | src/gui/widgets/folder_tree_backup.py:520-521 | the new count is the old one (0 when unset) plus the increment, never below 0 |
| FolderTreeView.FolderTree.UpdateFolderCountsOnly | src/gui/widgets/folder_tree_backup.py:411-424 | the new structure is the one `CountsUpdated` describes |
| FolderTreeView.FolderTree.RecountFolders | src/gui/widgets/folder_tree_backup.py:420-424 | the loop updates every entry but the top one as `CountedEntry` says and keeps the key set |
| BoneMapping.FirstPrefixFrom | src/gui/widgets/bone_mapping.py:103-106 | the first listed prefix the name starts with, no earlier one matching |
| BoneMapping.FirstSuffixFrom | src/gui/widgets/bone_mapping.py:110-113 | the first listed suffix the name ends with, no earlier one matching |
| BoneMapping.DropFirstPrefixSpec | src/gui/widgets/bone_mapping.py:101-106 | the removed part followed by what is left is the name; the removed part is the first prefix in list order that matches, and nothing is removed when none matches |
| BoneMapping.DropFirstSuffixSpec | src/gui/widgets/bone_mapping.py:108-113 | what is left followed by the removed part is the name; the removed part is the first suffix in list order that matches, and nothing is removed when none matches |
| BoneMapping.CleanBoneNameSpec | src/gui/widgets/bone_mapping.py:97-115 | the lower-cased name is the removed prefix, the cleaned name and the removed suffix; at most one listed prefix and at most one listed suffix are removed |
| BoneMapping.CleanBoneNameExample | src/gui/widgets/bone_mapping.py:97-115 | "DEF_Forearm.L" cleans to "forearm" |
| BoneMapping.NoSuffixByLastChar | src/gui/widgets/bone_mapping.py:108-113 | a name ending in anything but 'l', 'r' or 't' keeps its end |
| BoneMapping.CleanBoneNameDefArm | src/gui/widgets/bone_mapping.py:101-106 | "def_arm" cleans to "arm" |
| BoneMapping.CleanBoneNameRemovesOnePrefix | src/gui/widgets/bone_mapping.py:103-106 | only one prefix goes, so "def_def_arm" cleans to "def_arm" and cleaning is not idempotent |
| BoneMapping.SameSideSymmetric | src/gui/widgets/bone_mapping.py:117-131 | the test is symmetric and is false for a name with no side indicator |
| BoneMapping.SameSideMatchesInsideWords | src/gui/widgets/bone_mapping.py:122-131 | indicators match anywhere, so "upper_leg.l" and "upper_leg.r" count as the same side ("_l" inside "_leg") |
| BoneMapping.PresetPairs | src/gui/widgets/bone_mapping.py:493-516 | an unknown preset name gives no pairs |
| BoneMapping.ApplyPresetOnlyKnownBones | src/gui/widgets/bone_mapping.py:519-521 | every entry after a preset either kept its earlier target or maps a source bone to a target bone |
| BoneMapping.ApplyPresetAddsAvailable | src/gui/widgets/bone_mapping.py:519-521 | a preset pair whose two bones are available is in the mapping afterwards |
| BoneMapping.ApplyPresetKeeps | src/gui/widgets/bone_mapping.py:519-521 | a source bone the preset does not name keeps its target |
| BoneMapping.ChannelFlags | src/gui/widgets/bone_mapping.py:559-563 | the channels dictionary has the keys location, rotation, scale in that order, holding the three check boxes |
| BoneMapping.ChannelFlagsOfRepresentable | src/gui/widgets/bone_mapping.py:559-574 | reading the three flags back out of a three-channel dictionary rebuilds it (round trip) |
| BoneMapping.BoneMappingWidget.constructor | src/gui/widgets/bone_mapping.py:139-148 | no bones and an empty mapping; the options read back are the default apply options |
| BoneMapping.BoneMappingWidget.UpdateBones | src/gui/widgets/bone_mapping.py:344-349 | the bones are replaced and the mapping is kept |
| BoneMapping.BoneMappingWidget.UpdateMapping | src/gui/widgets/bone_mapping.py:409-414 | a non-empty target maps the source bone to it; an empty one removes the source bone, a no-op when it was absent; no other bone changes |
| BoneMapping.BoneMappingWidget.OnAutoMappingCompleted | src/gui/widgets/bone_mapping.py:435-438 | `dict.update`: the found pairs are added or replace earlier targets, every other entry is kept |
| BoneMapping.BoneMappingWidget.ClearMapping | src/gui/widgets/bone_mapping.py:483-485 | the mapping is empty and the bones are kept |
| BoneMapping.BoneMappingWidget.LoadPreset | src/gui/widgets/bone_mapping.py:490-521 | the mapping is the preset applied to the old one; an unknown preset changes nothing |
| BoneMapping.BoneMappingWidget.GetApplyOptions | src/gui/widgets/bone_mapping.py:554-565 | the options read back are in the form the widget can show exactly iff the offset is within the spin box's range -1000..1000 |
| BoneMapping.BoneMappingWidget.SetApplyOptions | src/gui/widgets/bone_mapping.py:567-576 | the controls take the options, with the offset clamped to -1000..1000 and an absent channel on; the mapping is copied; options the widget can show exactly are read back unchanged (round trip) |
| BlenderConnection.BlendFieldsNotRequired | src/gui/utils/blender_connection.py:175-186 | "blend_file" and "blend_action_name" are not among the required fields, so only the blend-storage step adds them |
| BlenderConnection.NormalizedUnique | src/gui/utils/blender_connection.py:170-212 | the normalised record is fully determined by the record given |
| BlenderConnection.NormalizeIdempotent | src/gui/utils/blender_connection.py:170-212 | normalising a normalised record changes nothing |
| BlenderConnection.ActionNameTruthy | src/gui/utils/blender_connection.py:196-198 | a record with a truthy name leaves with a truthy action name |
| BlenderConnection.NormalizeEmpty | src/gui/utils/blender_connection.py:175-209 | an empty record gets id "unknown_id", action name "Unknown Animation", blend file "unknown_id.blend" and blend action name "Unknown Animation" |
| BlenderConnection.NormalizeAnimationData | src/gui/utils/blender_connection.py:170-212 | every required field is present, a field the record has keeps its value unless it is a falsy action name, a missing field takes its default, and blend storage adds the blend file and blend action name |
| BlenderConnection.AddBlendFields | src/gui/utils/blender_connection.py:201-209 | exactly the two blend fields are added; a missing blend file is the id with ".blend", a missing blend action name is the action name; every other field is kept |
| BlenderConnection.NormalizedOfSteps | src/gui/utils/blender_connection.py:188-209 | the fill loop, the falsy action-name fix and the blend fields together yield the normalised record |
| BlenderConnection.FillRequired | src/gui/utils/blender_connection.py:188-194 | the loop adds the required fields, a missing action name taking the record's name |
| BlenderConnection.FillFields | src/gui/utils/blender_connection.py:188-194 | for any table of distinct fields the loop adds exactly the table's missing fields with their defaults and keeps the rest |
| BlenderConnection.FillStep | src/gui/utils/blender_connection.py:189-194 | one turn of the loop keeps the filled-record invariant |
| BlenderConnection.BoolObject | src/gui/utils/blender_connection.py:126 | the channel flags keep their keys, in order, and their values |
| BlenderConnection.StringObject | src/gui/utils/blender_connection.py:127 | the bone mapping keeps its keys, in order, and its targets |
| BlenderConnection.ApplyData | src/gui/utils/blender_connection.py:123-128 | the apply dictionary holds selected_only, frame_offset, channels and bone_mapping, in that order, from the options |
| BlenderConnection.ApplyAnimation | src/gui/utils/blender_connection.py:112-133 | without a connection the answer is false and nothing is sent; otherwise the answer is the connection's to the normalised record and the apply dictionary |
| BrowseFilter.StageSpec | src/gui/main.py:529-568 | each filtering stage leaves the list whole or keeps, in order, exactly the entries that pass its test |
| BrowseFilter.FilteredAnimationsSublist | src/gui/main.py:523-570 | the entries shown are a selection from the listing, in catalog order |
| BrowseFilter.FilteredAnimationsMembers | src/gui/main.py:523-570 | an entry is shown iff it is listed and passes the folder filter, the search box, the tag drop-down and the rig drop-down |
| BrowseFilter.ShowAllShowsEverything | src/gui/main.py:529-568 | the view with folder "all", no search text, "All Tags" and "All Rigs" shows the whole listing |
| BrowseFilter.FolderFilterIgnored | src/gui/main.py:529-542 | a folder filter without a known prefix, such as "folder:…", filters nothing |
| BrowseFilter.FiltersIgnoreCase | src/gui/main.py:545-568 | the search, tag and rig filters do not depend on the case of their text |
| BrowseFilter.CategoryIgnoresCase | src/gui/main.py:539-542 | the "category:" filter matches a tag containing the category, whatever the case of either |
| BrowseFilter.StatsTextLeadingCount | src/gui/main.py:594-600 | the status line opens with the number shown, and " of " follows it iff some entries are hidden |
| BrowseFilter.StatsOfShowAll | src/gui/main.py:582-600 | a view that hides nothing reports the full count and the storage counts, which add up to at most the listing |
| BrowseFilter.StorageCountsBounded | src/gui/main.py:591-592 | no entry is both `.blend` and legacy, so the two counts add up to at most the list |
| BrowseFilter.DetectCurrentRigType | src/gui/main.py:605-617 | "Unknown" without a selected armature; otherwise the rig detected from the bones of the first armature of that name, or from no bones when none has it |
| CardGrid.Columns | src/gui/widgets/animation_card.py:429-431 | at least one column; for a width of at least one card, as many whole cards as fit and no more; one column below two cards' width |
| CardGrid.CellSpec | src/gui/widgets/animation_card.py:434-437 | a card's column is within the grid and its cell gives back its index in row-major order |
| CardGrid.CellsDistinct | src/gui/widgets/animation_card.py:434-437 | two cards never share a cell |
| CardGrid.StretchRowBelowCards | src/gui/widgets/animation_card.py:440-442 | the stretched row is the one just below the last occupied row |
| CardGrid.IndexOf | src/gui/widgets/animation_card.py:409-410 | the position of the first occurrence of the card |
| CardGrid.RemoveFirstSpec | src/gui/widgets/animation_card.py:409-410 | `list.remove` takes out one occurrence of the card, the first, and keeps the order of the rest |
| CardGrid.LaidOutCellsDistinct | src/gui/widgets/animation_card.py:420-442 | after a refresh no two cards share a cell and every column is in range |
| CardGrid.CardGrid.constructor | src/gui/widgets/animation_card.py:389-392 | a new grid has no cards, no cells and no stretched row |
| CardGrid.CardGrid.RefreshLayout | src/gui/widgets/animation_card.py:420-442 | every card gets its row-major cell at the current width; with cards, the row below the last is stretched |
| CardGrid.CardGrid.AddCard | src/gui/widgets/animation_card.py:402-405 | the card goes to the end and the layout is refreshed |
| CardGrid.CardGrid.RemoveCard | src/gui/widgets/animation_card.py:407-412 | an absent card changes nothing; otherwise its first occurrence is removed, every card is put in its cell and the row below the last card is the stretched one |
| CardGrid.CardGrid.ClearCards | src/gui/widgets/animation_card.py:414-418 | no cards and no cells remain; the stretched row is not reset |
| CardGrid.CardGrid.Resize | src/gui/widgets/animation_card.py:444-447 | the new width is taken, every card is put in its cell for that width and the row below the last card is the stretched one |
| ActionStorage.FrameRangeOrdered | src/blender_animation_library/storage.py:409-423 | the reported range never runs backwards, so the duration `end - start + 1` is at least one frame |
| ActionStorage.FrameRangeUnique | src/blender_animation_library/storage.py:409-423 | the reported range is determined by the frames |
| ActionStorage.FrameRange | src/blender_animation_library/storage.py:409-423 | (1, 1) when there is no keyframe, otherwise the least and the greatest keyframe frame, both actual frames |
| ActionStorage.VisitCurve | src/blender_animation_library/storage.py:418-421 | after one curve's keyframes the running least and greatest frame cover everything seen so far, and "seen" holds once any frame was |
| ActionStorage.RangeSoFarStep | src/blender_animation_library/storage.py:419-421 | `min` and `max` with one more frame give the range of the frames seen plus that one |
| ActionStorage.ShiftZero | src/blender_animation_library/storage.py:346-348 | an offset amount of zero changes nothing |
| ActionStorage.ShiftInverse | src/blender_animation_library/storage.py:352-356 | shifting back by the same amount restores the action (round trip) |
| ActionStorage.FramesShift | src/blender_animation_library/storage.py:352-356 | the shifted frames are the old ones plus the amount, one for one |
| ActionStorage.ShiftFrameRange | src/blender_animation_library/storage.py:344-356 | an offset moves the reported range of a keyed action by the same amount |
| ActionStorage.BoneName | src/blender_animation_library/storage.py:430-433 | the bone name is a slice of the path, never longer than it |
| ActionStorage.BoneNameOfPath | src/blender_animation_library/storage.py:430-433 | the name inside a pose-bone path `pose.bones["name"].channel` comes back out, and the path counts as a bone curve (round trip) |
| ActionStorage.BoneNameWithoutQuotes | src/blender_animation_library/storage.py:431-433 | a path without quotes gives its text without the last character, as Python's slice `[0:-1]` does |
| ActionStorage.BoneNamesMembers | src/blender_animation_library/storage.py:427-434 | a name is animated iff some bone curve carries it |
| ActionStorage.CountAnimatedBones | src/blender_animation_library/storage.py:425-436 | the number of distinct animated bone names |
| ActionStorage.BelowIrreflexive | src/blender_animation_library/storage.py:449 | no name sorts before itself |
| ActionStorage.BelowTransitive | src/blender_animation_library/storage.py:449 | the string order is transitive |
| ActionStorage.BelowTotal | src/blender_animation_library/storage.py:449 | of two different names one sorts first |
| ActionStorage.Insert | src/blender_animation_library/storage.py:447-449 | inserting into a strictly sorted list keeps it strictly sorted and adds exactly the new name |
| ActionStorage.SortedNames | src/blender_animation_library/storage.py:449 | `sorted(list(set))`: strictly sorted and holding exactly the given names |
| ActionStorage.StrictlySortedDistinct | src/blender_animation_library/storage.py:449 | a strictly sorted list holds no name twice |
| ActionStorage.AnimatedBoneNames | src/blender_animation_library/storage.py:438-449 | the animated bone names, each once, sorted |
| ActionStorage.CountMatchesNames | src/blender_animation_library/storage.py:425-449 | the bone count equals the length of the bone-name list |
| ActionStorage.ChannelsAllOff | src/blender_animation_library/storage.py:359-379 | with location, rotation and scale all off every curve is removed |
| ActionStorage.ChannelsLocationOnly | src/blender_animation_library/storage.py:367-372 | with only location on, a curve stays iff its path mentions location |
| ActionStorage.SelectingAllBonesKeepsAll | src/blender_animation_library/storage.py:393-405 | selecting every animated bone keeps the whole action |
| ActionStorage.BoneFilterAnimatesSelected | src/blender_animation_library/storage.py:393-405 | after the bone filter only selected bones are animated |
| ActionStorage.Action.constructor | src/blender_animation_library/storage.py:266-271 | the loaded action holds the stored curves |
| ActionStorage.Action.ApplyFrameOffset | src/blender_animation_library/storage.py:344-357 | every keyframe and both of its handles move by `frame_offset - 1` |
| ActionStorage.Action.FilterChannels | src/blender_animation_library/storage.py:359-379 | exactly the curves of switched-on channel groups remain, in order |
| ActionStorage.Action.FilterToSelectedBones | src/blender_animation_library/storage.py:384-405 | without a selection nothing changes; otherwise exactly the curves that are not bone curves or belong to a selected bone remain, in order |
| ActionStorage.Action.ApplyOptions | src/blender_animation_library/storage.py:280-305 | the offset when it is not 1, the channel filter when some channel is off, the bone filter when only selected bones are wanted; the counts are those of the result |
| ActionStorage.DefaultOptionsChangeNothing | src/blender_animation_library/storage.py:280-291 | offset 1, all channels on and not selected-only apply the action unchanged |
| ActionStorage.SelectedOnlyAnimatesSelected | src/blender_animation_library/storage.py:280-291 | a selected-only application with a selection animates no unselected bone |
| ActionStorage.RemoveUnkept | src/blender_animation_library/storage.py:374-379 | collecting the curves to drop and then removing them leaves the kept curves in order |
| ActionStorage.KeyframeCount | src/blender_animation_library/storage.py:65 | the number of keyframes of all curves |
| ActionStorage.Sanitize | src/blender_animation_library/storage.py:51 | the result holds no space and no bar |
| ActionStorage.ReplaceCharPointwise | src/blender_animation_library/storage.py:51 | replacing a character keeps the length and changes exactly its positions |
| ActionStorage.SanitizePointwise | src/blender_animation_library/storage.py:51 | each space and bar becomes `_` and every other character stays in place |
| ActionStorage.SanitizeIdempotent | src/blender_animation_library/storage.py:51 | sanitising a sanitised id changes nothing |
| ActionStorage.AnimationId | src/blender_animation_library/storage.py:50-51 | the id has no space and no bar and is as long as the three parts plus the two separators |
| ActionStorage.Extract | src/blender_animation_library/storage.py:49-82 | the id, the `.blend` file named after it, the frame range, duration at least one frame, the bone count matching the sorted bone names, and the keyframe count |

## Left out

- Real file-system I/O is not modelled: creating and removing directories, copying, moving and deleting files, the glob scans, and the JSON dump and load of `library_metadata.json` with its temporary-file replace. Its effect on the set of folder names and the set of `.blend` file names is modelled by every operation: each manager method states its new `folders` and `files`, and a scan is the list of file names it returns. The exceptions follow.
  - The folder a `.blend` file sits in is not tracked, only its name. The moves made by `add_animation`, `move_animation_to_folder` and `delete_folder` therefore leave the set of names as it was. A move that overwrites a file of the same name in `Root` is not seen.
  - `delete_folder` also moves the folder's other files and its previews folder to `Root`; neither is part of the state.
  - `create_folder` accepts some names the operating system refuses; the `LibraryStorage.AnimationLibraryManager.CreateFolder` line below says which.
  - `library_metadata.json` itself is not part of the state: `save_library` and `load_library` are not modelled.
- LibraryStorage.AnimationLibraryManager.CreateFolder: of the names the operating system refuses, only ".", ".." and names holding NUL are refused. A name that is too long, or that `mkdir` cannot create for another reason, is refused by the source through its `except` branch but accepted here. Folders that differ only in case on a case-insensitive file system are also distinct here.
- `backup_library`, `restore_library`, `export_library`, `cleanup_missing_blend_files`, `optimize_library`, `get_statistics` and `library_storage.py`'s own `validate_blend_files` and `validate_blend_file` are not modelled. They copy or rewrite the whole library on disk, or report on it.
- `folder_path`, `storage_method` and `blend_reference` are read from each record but are not declared by the record class of `src/core/animation_data.py`. `BlendFileReference` and `AnimationStorageDetector` are not part of this model. An entry carries these attributes as plain fields beside its record.
- Clocks are parameters (`now`, `timestamp`): `time.time()`, `datetime.now()` and the ISO dates. Each operation takes the reading its caller passes.
- Floating-point statistics are not modelled: averages, sizes in MB, performance ratios, `MessageBuffer.get_stats` rates, and the average times of `get_performance_summary`. Frame ranges and durations of the metadata record are `real`s with exact arithmetic, not IEEE floats.
- `BoneMappingWorker.run`, `find_best_match` and `calculate_similarity` are not modelled. They score names with `difflib.SequenceMatcher` ratios and floating-point bonuses. Only the two predicates they use, `clean_bone_name` and `same_side`, are modelled.
- Sockets, threads and the Blender-side server are not modelled. The Blender-side server's buffer loop repeats the one of `MessageBuffer`. `apply_animation` hands its request to a `send` function parameter, and its exception path is not modelled.
- Blender bindings are not modelled: operators, panels, library load and write of `.blend` files, the fallback to the first action in a file, viewport capture and thumbnails. An action is a sequence of F-curve records: a data path, and keyframes whose frame and two handles are integers.
- ActionStorage.FrameRange: frames are integers, so the `int()` truncation of Blender's float frames and the infinities the loop starts from do not appear.
- ActionStorage.Action.ApplyOptions: the options arrive as values. The defaults that `apply_options.get` supplies for absent keys are stated separately by `DefaultOptionsChangeNothing`. The selected pose bones are a parameter.
- Qt plumbing is not modelled: signals, widget texts and styles, tree item creation, `refresh_tree`, `_update_display_counts_only`, the table refreshes of the mapping widget, and the drag-enter and drag-move events. The browse view's widget texts are fields of a `View` value.
- CardGrid.CardGrid.RefreshLayout: the model keeps only the row stretched last. Qt keeps the stretch of every row stretched before, and the loop that empties the layout is not modelled.
- Python's `str.lower()` is modelled on ASCII letters only; Unicode case mapping is not modelled. `str.strip()` removes the full set of characters for which Python's `str.isspace()` holds.
- Json.Display: renders a float, a list or a dictionary as the empty string, where Python's f-string prints it. Identifiers such as `id + ".blend"` are only rendered from strings, integers, booleans and `None` in this model.
- Text.ParseInt: accepts ASCII digits, a sign and single underscores between digits. The other Unicode decimal digits that Python's `int()` accepts are rejected.
- The codec's decoders (`AnimationCodec.FromDict`, `ReadBones`, `ReadChannels`) give `None` for a missing required key or a value of the wrong JSON type. Python raises `KeyError` for the missing key; for a value of another type it either raises later or keeps the value as given. The model gives `None` in all these cases and does not distinguish them.
- `Message.to_json`/`from_json` work on the JSON object (`Json.Value`), not on JSON text. `json.dumps` and `json.loads` are not modelled.
- `Message.response` and `update_tag_filter` are not modelled. They only assemble a dictionary or a set for a widget.
- `_count_animations_for_filter` is not modelled because it returns 0 before its loop. The `OLD/` directory, `run_gui.py` and the two import-check scripts are not part of this model either.
- The caller's dictionary is left unchanged by `_normalize_animation_data` and by `get_apply_options`'s copy. This follows from Dafny's value semantics for maps and sequences rather than being stated as a contract.
- Communication.MessageBuffer.GetCompleteMessages: states the corrected framing, not the loop as written. The loop as written is `FramesAsWritten`; see Findings. It also requires a non-empty delimiter. With the empty delimiter the source's loop never ends: `"" in buffer` always holds, and `find` returns 0, so after its first strip the buffer stops shrinking. The constructor accepts any delimiter, as the source does; the default `"\n###END_MESSAGE###\n"` is non-empty.
- `same_side` finds side indicators anywhere in a name. The model keeps this behaviour and states it in `SameSideMatchesInsideWords`, but does not report it as a defect, since the name comparison is a heuristic.

## Findings

| source | as written | input that shows it | evidently intended | confidence | as-written member | corrected member |
|---|---|---|---|---|---|---|
| src/core/communication.py:150-163 | after cutting off a message, `get_complete_messages` strips the rest of the buffer (line 157). This removes the leading or trailing newline of a delimiter still in the buffer, so a second complete message is no longer framed | one chunk `"a\n###END_MESSAGE###\nb\n###END_MESSAGE###\n"` delivers only `"a"` and leaves `"b\n###END_MESSAGE###"` in the buffer, where it merges with the next message | every complete message in the buffer is delivered, whatever the chunking | not executed | Communication.AsWrittenLosesSecondMessage | Communication.FramesDeliversBoth |
