// The animation record of the library (`src/core/animation_data.py`):
// channels and bones, the metadata record and its post-initialisation,
// the rig-type detector, the automatic tagger and the apply options.

module AnimationData {
  import opened Text
  import opened Collections
  import opened Json

  /** A (start, end) frame pair; Blender reports frames as floats. */
  type FrameRange = (real, real)

  // ---------------------------------------------------------------------
  // Channels
  // ---------------------------------------------------------------------

  datatype ChannelData = ChannelData(channelName: string, arrayIndex: int, keyframeCount: int, frameRange: FrameRange)

  /** The key a channel is stored under: `"location[0]"`. */
  function ChannelKey(name: string, index: int): string
  {
    name + "[" + IntToString(index) + "]"
  }

  /**
   * Splits a channel string into its name and array index. The split is at
   * the last '['; the text after it, with trailing ']' removed, must parse as
   * an integer. Otherwise, or without both brackets, the whole string is the
   * name and the index is 0.
   */
  function ParseChannel(s: string): (r: (string, int))
    ensures !(Contains(s, "[") && Contains(s, "]")) ==> r == (s, 0)
    ensures r.0 == s ==> r.1 == 0
    ensures r.0 != s ==>
      |r.0| < |s| && r.0 == s[..|r.0|] && s[|r.0|] == '[' &&
      (forall j :: |r.0| < j < |s| ==> s[j] != '[') &&
      ParseInt(RStripChar(s[|r.0| + 1..], ']')) == Some(r.1)
  {
    if Contains(s, "[") && Contains(s, "]") then
      ContainsChar(s, '[');
      var lb := RFindChar(s, '[');
      match ParseInt(RStripChar(s[lb + 1..], ']'))
      case Some(i) => (s[..lb], i)
      case None => (s, 0)
    else (s, 0)
  }

  /** In a key written by `ChannelKey`, the last '[' is the one right after the name. */
  lemma ChannelKeyBrackets(name: string, index: int)
    ensures var s := ChannelKey(name, index);
      Contains(s, "[") && Contains(s, "]") && RFindChar(s, '[') == |name|
  {
    var d := IntToString(index);
    var s := ChannelKey(name, index);
    assert s == name + "[" + d + "]";
    assert s[|name|] == '[';
    assert OccursAt(s, "[", |name|);
    assert OccursAt(s, "]", |s| - 1);
    assert forall j :: |name| < j < |s| ==> s[j] != '[' by {
      forall j | |name| < j < |s| ensures s[j] != '[' {
        if j < |s| - 1 {
          assert s[j] == d[j - |name| - 1];
        }
      }
    }
    ContainsChar(s, '[');
  }

  lemma ParseChannelAt(s: string, lb: int, i: int)
    requires Contains(s, "[") && Contains(s, "]")
    requires 0 <= lb < |s| && RFindChar(s, '[') == lb
    requires ParseInt(RStripChar(s[lb + 1..], ']')) == Some(i)
    ensures ParseChannel(s) == (s[..lb], i)
  {
  }

  /** A key written by `ChannelKey` parses back into its name and index. */
  lemma ParseChannelKey(name: string, index: int)
    ensures ParseChannel(ChannelKey(name, index)) == (name, index)
  {
    var s := ChannelKey(name, index);
    var lb := |name|;
    ChannelKeyBrackets(name, index);
    assert ParseInt(RStripChar(s[lb + 1..], ']')) == Some(index) by {
      var d := IntToString(index);
      assert s[lb + 1..] == d + "]";
      assert RStripChar(d + "]", ']') == RStripChar(d, ']') by {
        assert (d + "]")[..|d + "]"| - 1] == d;
      }
      assert RStripChar(d, ']') == d;
      ParseIntToString(index);
    }
    ParseChannelAt(s, lb, index);
    assert s[..lb] == name;
  }

  // ---------------------------------------------------------------------
  // Bones
  // ---------------------------------------------------------------------

  /** The value held for one bone: its channels by key and its keyframe total. */
  datatype BoneRecord = BoneRecord(boneName: string, channels: Dict<ChannelData>, totalKeyframes: int)

  /**
   * The bone after `add_channel`: the channel is stored (or overwritten) under
   * its key, the other channels stay, and the total grows by the count.
   */
  function WithChannel(b: BoneRecord, name: string, index: int, count: int, range: FrameRange): (r: BoneRecord)
    ensures r.boneName == b.boneName
    ensures r.totalKeyframes == b.totalKeyframes + count
    ensures ChannelKey(name, index) in r.channels.items
    ensures r.channels.items[ChannelKey(name, index)] == ChannelData(name, index, count, range)
    ensures forall k :: k != ChannelKey(name, index) ==>
      (k in r.channels.items <==> k in b.channels.items) &&
      (k in b.channels.items ==> r.channels.items[k] == b.channels.items[k])
    ensures |r.channels.keys| == |b.channels.keys| + (if ChannelKey(name, index) in b.channels.items then 0 else 1)
  {
    var key := ChannelKey(name, index);
    BoneRecord(b.boneName, Put(b.channels, key, ChannelData(name, index, count, range)), b.totalKeyframes + count)
  }

  /** `any(channel_type in key for key in channels)`. */
  predicate HasChannelType(b: BoneRecord, channelType: string)
  {
    exists i :: 0 <= i < |b.channels.keys| && Contains(b.channels.keys[i], channelType)
  }

  /** A bone whose fields `add_channel` updates in place. */
  class BoneAnimationData {
    var boneName: string
    var channels: Dict<ChannelData>
    var totalKeyframes: int

    constructor(name: string)
      ensures boneName == name && channels == Empty() && totalKeyframes == 0
    {
      boneName := name;
      channels := Empty();
      totalKeyframes := 0;
    }

    /** The bone as a value, the form in which the metadata record keeps it. */
    function Record(): BoneRecord
      reads this
    {
      BoneRecord(boneName, channels, totalKeyframes)
    }

    method AddChannel(name: string, index: int, count: int, range: FrameRange)
      modifies this
      ensures Record() == WithChannel(old(Record()), name, index, count, range)
    {
      var key := ChannelKey(name, index);
      channels := Put(channels, key, ChannelData(name, index, count, range));
      totalKeyframes := totalKeyframes + count;
    }
  }

  /** The keys a bone gets when `add_channel` is called for every channel. */
  predicate KeysMatchChannels(b: BoneRecord)
  {
    forall k :: k in b.channels.items ==>
      k == ChannelKey(b.channels.items[k].channelName, b.channels.items[k].arrayIndex)
  }

  /** `add_channel` keeps every key equal to the key of the channel under it. */
  lemma WithChannelKeepsKeys(b: BoneRecord, name: string, index: int, count: int, range: FrameRange)
    requires KeysMatchChannels(b)
    ensures KeysMatchChannels(WithChannel(b, name, index, count, range))
  {
  }

  // ---------------------------------------------------------------------
  // The metadata record
  // ---------------------------------------------------------------------

  datatype AnimationMetadata = AnimationMetadata(
    id: string,
    name: string,
    description: string,
    armatureSource: string,
    frameRange: FrameRange,
    totalBonesAnimated: int,
    totalKeyframes: int,
    boneData: Dict<BoneRecord>,
    createdDate: string,
    rigType: string,
    tags: seq<string>,
    category: string,
    durationFrames: real,
    author: string,
    qualityRating: real,
    usageCount: int,
    originalBlenderData: Option<Value>)

  /**
   * `__post_init__`: a zero duration is replaced by end - start + 1; any other
   * duration, and every other field, is kept.
   */
  function PostInit(m: AnimationMetadata): (r: AnimationMetadata)
    ensures r == m.(durationFrames := r.durationFrames)
    ensures m.durationFrames != 0.0 ==> r.durationFrames == m.durationFrames
    ensures m.durationFrames == 0.0 ==> r.durationFrames == m.frameRange.1 - m.frameRange.0 + 1.0
  {
    if m.durationFrames == 0.0 then
      m.(durationFrames := m.frameRange.1 - m.frameRange.0 + 1.0)
    else m
  }

  /** A record that has been through `__post_init__` is left alone by a second pass. */
  lemma PostInitIdempotent(m: AnimationMetadata)
    ensures PostInit(PostInit(m)) == PostInit(m)
  {
  }

  // ---------------------------------------------------------------------
  // Rig-type detection (`RigTypeDetector`)
  // ---------------------------------------------------------------------

  const RigTypes: set<string> := {"Rigify", "Auto-Rig Pro", "Mixamo", "Unknown"}

  const RigifyPatterns: seq<string> := ["_fk.", "_ik.", "mch-", "def-", "org-"]
  const AutoRigPatterns: seq<string> := ["c_spine", "c_root", "_fk_", "_ik_"]

  predicate ContainsAny(s: string, patterns: seq<string>)
  {
    exists i :: 0 <= i < |patterns| && Contains(s, patterns[i])
  }

  /** The rig type the armature name alone decides, if any. */
  function NameRigType(armature: string): (r: Option<string>)
    ensures r.Some? ==> r.value in RigTypes - {"Unknown"}
  {
    var a := Lower(armature);
    if Contains(a, "rigify") then Some("Rigify")
    else if Contains(a, "autorig") || Contains(a, "auto_rig") || Contains(a, "auto-rig") then Some("Auto-Rig Pro")
    else if Contains(a, "mixamo") then Some("Mixamo")
    else None
  }

  predicate IsRigifyBone(b: string) { ContainsAny(Lower(b), RigifyPatterns) }
  predicate IsMixamoBone(b: string) { Contains(Lower(b), "mixamorig:") }
  predicate IsAutoRigBone(b: string) { ContainsAny(Lower(b), AutoRigPatterns) }

  /**
   * `detect_rig_type`: the armature name decides first; otherwise one Mixamo
   * bone, three Rigify bones or two Auto-Rig Pro bones, in that order, so
   * Mixamo wins over Rigify and Rigify over Auto-Rig Pro.
   */
  function DetectRigType(armature: string, bones: seq<string>): (r: string)
    ensures r in RigTypes
    ensures NameRigType(armature).Some? ==> r == NameRigType(armature).value
    ensures NameRigType(armature).None? ==>
      (r == "Mixamo" <==> exists i :: 0 <= i < |bones| && IsMixamoBone(bones[i]))
    ensures NameRigType(armature).None? ==>
      (r == "Unknown" <==>
        (forall i :: 0 <= i < |bones| ==> !IsMixamoBone(bones[i])) &&
        Count(bones, IsRigifyBone) < 3 && Count(bones, IsAutoRigBone) < 2)
    ensures NameRigType(armature).None? ==>
      (r == "Rigify" <==>
        (forall i :: 0 <= i < |bones| ==> !IsMixamoBone(bones[i])) && Count(bones, IsRigifyBone) >= 3)
    ensures NameRigType(armature).None? ==>
      (r == "Auto-Rig Pro" <==>
        (forall i :: 0 <= i < |bones| ==> !IsMixamoBone(bones[i])) &&
        Count(bones, IsRigifyBone) < 3 && Count(bones, IsAutoRigBone) >= 2)
  {
    CountPositive(bones, IsMixamoBone);
    match NameRigType(armature)
    case Some(t) => t
    case None =>
      if Count(bones, IsMixamoBone) > 0 then "Mixamo"
      else if Count(bones, IsRigifyBone) >= 3 then "Rigify"
      else if Count(bones, IsAutoRigBone) >= 2 then "Auto-Rig Pro"
      else "Unknown"
  }

  /** `are_rigs_compatible`. */
  predicate AreRigsCompatible(a: string, b: string)
  {
    a == "Unknown" || b == "Unknown" || a == b
  }

  lemma RigCompatibilitySymmetric(a: string, b: string)
    ensures AreRigsCompatible(a, b) == AreRigsCompatible(b, a)
    ensures AreRigsCompatible(a, "Unknown") && AreRigsCompatible("Unknown", a)
    ensures a != "Unknown" && b != "Unknown" ==> (AreRigsCompatible(a, b) <==> a == b)
  {
  }

  // ---------------------------------------------------------------------
  // Automatic tags (`AnimationTagger.generate_tags`)
  // ---------------------------------------------------------------------

  const LocomotionBones: set<string> := {
    "thigh_fk.L", "thigh_fk.R", "shin_fk.L", "shin_fk.R",
    "foot_fk.L", "foot_fk.R", "thigh_ik.L", "thigh_ik.R",
    "foot_ik.L", "foot_ik.R", "toe_fk.L", "toe_fk.R"}

  const UpperBodyBones: set<string> := {
    "upper_arm_fk.L", "upper_arm_fk.R", "forearm_fk.L", "forearm_fk.R",
    "hand_fk.L", "hand_fk.R", "upper_arm_ik.L", "upper_arm_ik.R",
    "shoulder.L", "shoulder.R"}

  const FacialKeywords: seq<string> := ["jaw", "eyes", "brow", "lip", "cheek", "nose", "ear", "tongue", "teeth"]
  const FingerKeywords: seq<string> := ["thumb", "f_index", "f_middle", "f_ring", "f_pinky"]
  const SpineKeywords: seq<string> := ["spine", "torso", "chest", "neck", "head"]

  const DurationTags: set<string> := {"short", "medium", "long"}
  const DensityTags: set<string> := {"dense", "sparse", "moderate"}
  const BodyTagNames: set<string> := {"locomotion", "upper_body", "facial", "hands", "spine"}
  const MotionTagNames: set<string> := {"translation", "rotation", "scale"}

  /** The four tag groups share no tag. */
  lemma TagGroupsApart()
    ensures (BodyTagNames + MotionTagNames) !! (DurationTags + DensityTags)
    ensures DurationTags !! DensityTags
  {
  }

  /** A tag if the condition holds, nothing otherwise. */
  function TagIf(c: bool, tag: string): seq<string>
  {
    if c then [tag] else []
  }

  /** The bone names of the animation, joined by spaces and lower-cased. */
  function BoneString(bones: Dict<BoneRecord>): string
  {
    Lower(Join(bones.keys, " "))
  }

  predicate KeywordIn(s: string, keywords: seq<string>)
  {
    exists i :: 0 <= i < |keywords| && Contains(s, keywords[i])
  }

  predicate AnyHasChannelType(bones: Dict<BoneRecord>, channelType: string)
  {
    exists i :: 0 <= i < |bones.keys| && HasChannelType(bones.items[bones.keys[i]], channelType)
  }

  /** Some bone of the animation is one of `group`. */
  predicate MovesAnyOf(bones: Dict<BoneRecord>, group: set<string>)
  {
    exists i :: 0 <= i < |bones.keys| && bones.keys[i] in group
  }

  /** The tags that depend on which bones move. */
  function BodyTags(bones: Dict<BoneRecord>): (tags: seq<string>)
    ensures forall i :: 0 <= i < |tags| ==> tags[i] in BodyTagNames
  {
    TagIf(MovesAnyOf(bones, LocomotionBones), "locomotion") +
    TagIf(MovesAnyOf(bones, UpperBodyBones), "upper_body") +
    TagIf(KeywordIn(BoneString(bones), FacialKeywords), "facial") +
    TagIf(KeywordIn(BoneString(bones), FingerKeywords), "hands") +
    TagIf(KeywordIn(BoneString(bones), SpineKeywords), "spine")
  }

  /** The tags that depend on the channel types that move. */
  function MotionTags(bones: Dict<BoneRecord>): (tags: seq<string>)
    ensures forall i :: 0 <= i < |tags| ==> tags[i] in MotionTagNames
  {
    TagIf(AnyHasChannelType(bones, "location"), "translation") +
    TagIf(AnyHasChannelType(bones, "rotation"), "rotation") +
    TagIf(AnyHasChannelType(bones, "scale"), "scale")
  }

  function DurationTag(duration: real): (t: string)
    ensures t in DurationTags
    ensures t == "short" <==> duration < 10.0
    ensures t == "long" <==> duration > 100.0
  {
    if duration < 10.0 then "short" else if duration > 100.0 then "long" else "medium"
  }

  function DensityTag(density: real): (t: string)
    ensures t in DensityTags
    ensures t == "dense" <==> density > 20.0
    ensures t == "sparse" <==> density < 5.0
  {
    if density > 20.0 then "dense" else if density < 5.0 then "sparse" else "moderate"
  }

  /**
   * `generate_tags` for the frame range and keyframe total of the extraction
   * (the caller supplies `(1, 1)` and 0 when the extraction has none).
   */
  function GenerateTags(range: FrameRange, totalKeyframes: int, bones: Dict<BoneRecord>): (tags: seq<string>)
    ensures |tags| > 0 && "uncategorized" !in tags
  {
    var body := BodyTags(bones);
    var motion := MotionTags(bones);
    TagListCategorized(body, range, totalKeyframes, motion);
    TagList(body, range, totalKeyframes, motion)
  }

  /** Built from group tags only, the list is never empty and never says "uncategorized". */
  lemma TagListCategorized(body: seq<string>, range: FrameRange, totalKeyframes: int, motion: seq<string>)
    requires forall i :: 0 <= i < |body| ==> body[i] in BodyTagNames
    requires forall i :: 0 <= i < |motion| ==> motion[i] in MotionTagNames
    ensures var tags := TagList(body, range, totalKeyframes, motion);
      |tags| > 0 && "uncategorized" !in tags
  {
    var tags := TagList(body, range, totalKeyframes, motion);
    var u := "uncategorized";
    assert u !in BodyTagNames + DurationTags + DensityTags + MotionTagNames by {
      assert |u| == 13;
    }
    assert forall i :: 0 <= i < |tags| ==> tags[i] in BodyTagNames + DurationTags + DensityTags + MotionTagNames;
  }

  /** The bone tags, the duration and density tags, then the motion tags. */
  function TagList(body: seq<string>, range: FrameRange, totalKeyframes: int, motion: seq<string>): seq<string>
  {
    var duration := range.1 - range.0 + 1.0;
    var density := totalKeyframes as real / (if duration > 1.0 then duration else 1.0);
    body + [DurationTag(duration), DensityTag(density)] + motion
  }

  /** Exactly one position of `tags` holds a tag from `group`. */
  ghost predicate ExactlyOne(tags: seq<string>, group: set<string>)
  {
    exists i :: 0 <= i < |tags| && tags[i] in group &&
      forall j :: 0 <= j < |tags| && j != i ==> tags[j] !in group
  }

  /** The tags hold exactly one duration tag and exactly one density tag. */
  lemma TagsHaveOneDurationAndDensity(range: FrameRange, totalKeyframes: int, bones: Dict<BoneRecord>)
    ensures ExactlyOne(GenerateTags(range, totalKeyframes, bones), DurationTags)
    ensures ExactlyOne(GenerateTags(range, totalKeyframes, bones), DensityTags)
  {
    TagListOneDurationAndDensity(BodyTags(bones), range, totalKeyframes, MotionTags(bones));
  }

  /** The same for any bone and motion tags. */
  lemma TagListOneDurationAndDensity(body: seq<string>, range: FrameRange, totalKeyframes: int, motion: seq<string>)
    requires forall i :: 0 <= i < |body| ==> body[i] in BodyTagNames
    requires forall i :: 0 <= i < |motion| ==> motion[i] in MotionTagNames
    ensures ExactlyOne(TagList(body, range, totalKeyframes, motion), DurationTags)
    ensures ExactlyOne(TagList(body, range, totalKeyframes, motion), DensityTags)
  {
    var duration := range.1 - range.0 + 1.0;
    var density := totalKeyframes as real / (if duration > 1.0 then duration else 1.0);
    TagGroupsApart();
    OneDurationOneDensity(body, DurationTag(duration), DensityTag(density), motion,
      BodyTagNames + MotionTagNames, DurationTags, DensityTags);
  }

  lemma OneDurationOneDensity(body: seq<string>, dur: string, dens: string, motion: seq<string>,
                              others: set<string>, durs: set<string>, denss: set<string>)
    requires others !! (durs + denss) && durs !! denss
    requires dur in durs && dens in denss
    requires forall i :: 0 <= i < |body| ==> body[i] in others
    requires forall i :: 0 <= i < |motion| ==> motion[i] in others
    ensures ExactlyOne(body + [dur, dens] + motion, durs)
    ensures ExactlyOne(body + [dur, dens] + motion, denss)
  {
    var tags := body + [dur, dens] + motion;
    assert tags == body + [dur] + ([dens] + motion);
    assert tags == (body + [dur]) + [dens] + motion;
    var after := [dens] + motion;
    assert forall i :: 0 <= i < |after| ==> after[i] !in durs by {
      forall i | 0 <= i < |after| ensures after[i] !in durs {
        if i > 0 {
          assert after[i] == motion[i - 1];
        }
      }
    }
    assert forall i :: 0 <= i < |body| ==> body[i] !in durs;
    OneInMiddle(body, dur, after, durs);
    var before := body + [dur];
    assert forall i :: 0 <= i < |before| ==> before[i] !in denss by {
      forall i | 0 <= i < |before| ensures before[i] !in denss {
        if i < |body| {
          assert before[i] == body[i];
        }
      }
    }
    assert forall i :: 0 <= i < |motion| ==> motion[i] !in denss;
    OneInMiddle(before, dens, motion, denss);
  }

  lemma OneInMiddle(a: seq<string>, x: string, b: seq<string>, group: set<string>)
    requires x in group
    requires forall i :: 0 <= i < |a| ==> a[i] !in group
    requires forall i :: 0 <= i < |b| ==> b[i] !in group
    ensures ExactlyOne(a + [x] + b, group)
  {
    var t := a + [x] + b;
    assert t[|a|] == x;
    forall j | 0 <= j < |t| && j != |a| ensures t[j] !in group {
      if j < |a| {
        assert t[j] == a[j];
      } else {
        assert t[j] == b[j - |a| - 1];
      }
    }
  }

  /**
   * A keyword tag does not depend on the order in which the bone names are
   * joined: it is given exactly when some lower-cased bone name holds one of
   * the keywords (none of which contains a space).
   */
  lemma KeywordTagPerBone(bones: Dict<BoneRecord>, keywords: seq<string>)
    requires forall i :: 0 <= i < |keywords| ==> |keywords[i]| > 0 && ' ' !in keywords[i]
    ensures KeywordIn(BoneString(bones), keywords) <==>
      exists b, i :: 0 <= b < |bones.keys| && 0 <= i < |keywords| && Contains(Lower(bones.keys[b]), keywords[i])
  {
    var lowered := LowerAll(bones.keys);
    LowerJoin(bones.keys);
    assert BoneString(bones) == Join(lowered, " ");
    if KeywordIn(BoneString(bones), keywords) {
      var i :| 0 <= i < |keywords| && Contains(BoneString(bones), keywords[i]);
      var b := JoinOccurrenceInPart(lowered, keywords[i]);
      assert Contains(Lower(bones.keys[b]), keywords[i]);
    }
    if exists b, i :: 0 <= b < |bones.keys| && 0 <= i < |keywords| && Contains(Lower(bones.keys[b]), keywords[i]) {
      var b, i :| 0 <= b < |bones.keys| && 0 <= i < |keywords| && Contains(Lower(bones.keys[b]), keywords[i]);
      JoinContainsPart(lowered, " ", b);
      ContainsTransitive(Join(lowered, " "), lowered[b], keywords[i]);
    }
  }

  function LowerAll(parts: seq<string>): (r: seq<string>)
    ensures |r| == |parts| && forall b :: 0 <= b < |parts| ==> r[b] == Lower(parts[b])
  {
    if |parts| == 0 then [] else [Lower(parts[0])] + LowerAll(parts[1..])
  }

  /** Lower-casing a space-joined list lower-cases each part. */
  lemma {:induction false} LowerJoin(parts: seq<string>)
    ensures Lower(Join(parts, " ")) == Join(LowerAll(parts), " ")
    decreases |parts|
  {
    if |parts| > 1 {
      LowerJoin(parts[1..]);
      assert LowerAll(parts)[1..] == LowerAll(parts[1..]);
      LowerConcat(parts[0] + " ", Join(parts[1..], " "));
      LowerConcat(parts[0], " ");
    }
  }

  lemma LowerConcat(a: string, b: string)
    ensures Lower(a + b) == Lower(a) + Lower(b)
  {
  }

  /** A needle with no space that occurs in a space-joined list occurs in one part. */
  lemma {:induction false} JoinOccurrenceInPart(parts: seq<string>, p: string) returns (b: nat)
    requires |p| > 0 && ' ' !in p
    requires Contains(Join(parts, " "), p)
    ensures b < |parts| && Contains(parts[b], p)
    decreases |parts|
  {
    var j := Join(parts, " ");
    var i :| 0 <= i <= |j| - |p| && OccursAt(j, p, i);
    if |parts| == 1 {
      b := 0;
    } else {
      var head := parts[0];
      var rest := Join(parts[1..], " ");
      assert j == head + " " + rest;
      assert j[|head|] == ' ';
      OccurrenceCovers(j, p, i, |head|);
      if i > |head| {
        var k := i - |head| - 1;
        assert rest[k..k + |p|] == j[i..i + |p|];
        assert OccursAt(rest, p, k);
        var b' := JoinOccurrenceInPart(parts[1..], p);
        b := b' + 1;
      } else {
        assert i + |p| <= |head|;
        assert head[i..i + |p|] == j[i..i + |p|];
        assert OccursAt(head, p, i);
        b := 0;
      }
    }
  }

  /** Every position an occurrence covers holds a character of the needle. */
  lemma OccurrenceCovers(s: string, p: string, i: int, pos: int)
    requires OccursAt(s, p, i) && 0 <= pos < |s|
    ensures i <= pos < i + |p| ==> s[pos] in p
  {
    if i <= pos < i + |p| {
      assert s[pos] == s[i..i + |p|][pos - i] == p[pos - i];
    }
  }

  /** An occurrence inside an occurrence is an occurrence. */
  lemma ContainsTransitive(s: string, mid: string, p: string)
    requires Contains(s, mid) && Contains(mid, p)
    ensures Contains(s, p)
  {
    var i :| 0 <= i <= |s| - |mid| && OccursAt(s, mid, i);
    var k :| 0 <= k <= |mid| - |p| && OccursAt(mid, p, k);
    forall t | 0 <= t < |p|
      ensures s[i + k + t] == p[t]
    {
      assert s[i + k + t] == s[i..i + |mid|][k + t] == mid[k + t];
      assert mid[k + t] == mid[k..k + |p|][t] == p[t];
    }
    assert s[i + k..i + k + |p|] == p;
    assert OccursAt(s, p, i + k);
  }

  // ---------------------------------------------------------------------
  // Apply options
  // ---------------------------------------------------------------------

  datatype ApplyOptions = ApplyOptions(
    selectedBonesOnly: bool,
    frameOffset: int,
    channels: Dict<bool>,
    boneMapping: Dict<string>,
    overwriteExisting: bool)

  /** The options a bare `ApplyOptions()` has. */
  function DefaultApplyOptions(): ApplyOptions
  {
    var c1 := Put(Empty(), "location", true);
    var c2 := Put(c1, "rotation", true);
    var c3 := Put(c2, "scale", true);
    ApplyOptions(true, 1, c3, Empty(), true)
  }

  /** The channel type at position `i` is enabled and occurs in the lower-cased name. */
  predicate Enables(options: ApplyOptions, i: int, channelName: string)
    requires 0 <= i < |options.channels.keys|
  {
    options.channels.items[options.channels.keys[i]] && Contains(Lower(channelName), options.channels.keys[i])
  }

  /**
   * `should_apply_channel`: true exactly when an enabled channel type occurs
   * in the lower-cased channel name.
   */
  method ShouldApplyChannel(options: ApplyOptions, channelName: string) returns (apply: bool)
    ensures apply <==> exists i :: 0 <= i < |options.channels.keys| && Enables(options, i, channelName)
  {
    var name := Lower(channelName);
    var keys := options.channels.keys;
    var i := 0;
    while i < |keys|
      invariant 0 <= i <= |keys|
      invariant forall j :: 0 <= j < i ==> !Enables(options, j, channelName)
    {
      if Contains(name, keys[i]) && options.channels.items[keys[i]] {
        assert Enables(options, i, channelName);
        return true;
      }
      i := i + 1;
    }
    return false;
  }
}
