// Retargeting support: how bone names are normalised and compared for
// automatic mapping, and the source-to-target bone mapping the mapping
// widget keeps, edits, fills from presets and hands out as apply options.

module BoneMapping {
  import opened Text
  import opened Collections
  import opened AnimationData

  // ---------------------------------------------------------------------
  // Bone-name cleaning
  // ---------------------------------------------------------------------

  const Prefixes: seq<string> := ["def_", "mch_", "org_", "ctrl_"]
  const Suffixes: seq<string> := [".l", ".r", "_l", "_r", ".left", ".right"]

  /** The index of the first of `ps[i..]` that `s` starts with, or `|ps|`. */
  function FirstPrefixFrom(s: string, ps: seq<string>, i: nat): (r: nat)
    requires i <= |ps|
    ensures i <= r <= |ps|
    ensures r < |ps| ==> StartsWith(s, ps[r])
    ensures forall j :: i <= j < r ==> !StartsWith(s, ps[j])
    decreases |ps| - i
  {
    if i == |ps| then |ps|
    else if StartsWith(s, ps[i]) then i
    else FirstPrefixFrom(s, ps, i + 1)
  }

  /** The index of the first of `ps[i..]` that `s` ends with, or `|ps|`. */
  function FirstSuffixFrom(s: string, ps: seq<string>, i: nat): (r: nat)
    requires i <= |ps|
    ensures i <= r <= |ps|
    ensures r < |ps| ==> EndsWith(s, ps[r])
    ensures forall j :: i <= j < r ==> !EndsWith(s, ps[j])
    decreases |ps| - i
  {
    if i == |ps| then |ps|
    else if EndsWith(s, ps[i]) then i
    else FirstSuffixFrom(s, ps, i + 1)
  }

  /** The part of `s` the loop over `ps` removes from its front: the first of `ps` that `s` starts with, or "". */
  function PrefixRemoved(s: string, ps: seq<string>): string
  {
    var i := FirstPrefixFrom(s, ps, 0);
    if i < |ps| then ps[i] else ""
  }

  /** The part of `s` the loop over `ps` removes from its end: the first of `ps` that `s` ends with, or "". */
  function SuffixRemoved(s: string, ps: seq<string>): string
  {
    var i := FirstSuffixFrom(s, ps, 0);
    if i < |ps| then ps[i] else ""
  }

  /** `s` without its first listed prefix, if it has one. */
  function DropFirstPrefix(s: string, ps: seq<string>): string
  {
    s[|PrefixRemoved(s, ps)|..]
  }

  /** `s` without its first listed suffix, if it has one. */
  function DropFirstSuffix(s: string, ps: seq<string>): string
  {
    s[..|s| - |SuffixRemoved(s, ps)|]
  }

  /**
   * What the prefix loop leaves, with the removed part in front, is `s`;
   * when some listed prefix matches, the removed part is the first one in
   * list order that matches, and otherwise nothing is removed.
   */
  lemma DropFirstPrefixSpec(s: string, ps: seq<string>)
    ensures s == PrefixRemoved(s, ps) + DropFirstPrefix(s, ps)
    ensures (forall j :: 0 <= j < |ps| ==> !StartsWith(s, ps[j])) ==> DropFirstPrefix(s, ps) == s
    ensures forall i :: 0 <= i < |ps| && StartsWith(s, ps[i]) && (forall j :: 0 <= j < i ==> !StartsWith(s, ps[j])) ==>
      PrefixRemoved(s, ps) == ps[i]
  {
    var i := FirstPrefixFrom(s, ps, 0);
    assert s == s[..|PrefixRemoved(s, ps)|] + DropFirstPrefix(s, ps);
  }

  /** The same for the suffix loop. */
  lemma DropFirstSuffixSpec(s: string, ps: seq<string>)
    ensures s == DropFirstSuffix(s, ps) + SuffixRemoved(s, ps)
    ensures (forall j :: 0 <= j < |ps| ==> !EndsWith(s, ps[j])) ==> DropFirstSuffix(s, ps) == s
    ensures forall i :: 0 <= i < |ps| && EndsWith(s, ps[i]) && (forall j :: 0 <= j < i ==> !EndsWith(s, ps[j])) ==>
      SuffixRemoved(s, ps) == ps[i]
  {
    var i := FirstSuffixFrom(s, ps, 0);
    assert s == DropFirstSuffix(s, ps) + s[|s| - |SuffixRemoved(s, ps)|..];
  }

  /** `clean_bone_name`: lower-case, then drop at most one prefix and at most one suffix. */
  function CleanBoneName(name: string): string
  {
    DropFirstSuffix(DropFirstPrefix(Lower(name), Prefixes), Suffixes)
  }

  /**
   * The lower-cased name is the removed prefix, the cleaned name and the
   * removed suffix, in that order; each removed part is one of the listed
   * ones or empty.
   */
  lemma CleanBoneNameSpec(name: string)
    ensures var rest := DropFirstPrefix(Lower(name), Prefixes);
      Lower(name) == PrefixRemoved(Lower(name), Prefixes) + CleanBoneName(name) + SuffixRemoved(rest, Suffixes)
    ensures PrefixRemoved(Lower(name), Prefixes) in Prefixes + [""]
    ensures SuffixRemoved(DropFirstPrefix(Lower(name), Prefixes), Suffixes) in Suffixes + [""]
  {
    var l := Lower(name);
    DropFirstPrefixSpec(l, Prefixes);
    DropFirstSuffixSpec(DropFirstPrefix(l, Prefixes), Suffixes);
  }

  /** A Rigify deform bone and its plain name clean to the same name. */
  lemma CleanBoneNameExample()
    ensures CleanBoneName("DEF_Forearm.L") == "forearm"
  {
    var l := Lower("DEF_Forearm.L");
    assert l == "def_forearm.l";
    assert StartsWith(l, Prefixes[0]);
    assert PrefixRemoved(l, Prefixes) == "def_";
    var rest := DropFirstPrefix(l, Prefixes);
    assert rest == "forearm.l";
    assert EndsWith(rest, Suffixes[0]);
    assert SuffixRemoved(rest, Suffixes) == ".l";
  }

  /** A name whose last character no listed suffix ends with keeps its end. */
  lemma NoSuffixByLastChar(s: string)
    requires |s| > 0 && s[|s| - 1] !in {'l', 'r', 't'}
    ensures DropFirstSuffix(s, Suffixes) == s
  {
    forall j | 0 <= j < |Suffixes| ensures !EndsWith(s, Suffixes[j]) {
      var q := Suffixes[j];
      assert q[|q| - 1] in {'l', 'r', 't'};
    }
    DropFirstSuffixSpec(s, Suffixes);
  }

  /** A deform prefix is removed. */
  lemma CleanBoneNameDefArm()
    ensures CleanBoneName("def_arm") == "arm"
  {
    assert Lower("def_arm") == "def_arm";
    assert StartsWith("def_arm", Prefixes[0]);
    assert DropFirstPrefix("def_arm", Prefixes) == "arm";
    NoSuffixByLastChar("arm");
  }

  /** Only one prefix is removed, so cleaning is not idempotent. */
  lemma CleanBoneNameRemovesOnePrefix()
    ensures CleanBoneName("def_def_arm") == "def_arm"
    ensures CleanBoneName(CleanBoneName("def_def_arm")) == "arm"
  {
    assert Lower("def_def_arm") == "def_def_arm";
    assert StartsWith("def_def_arm", Prefixes[0]);
    assert DropFirstPrefix("def_def_arm", Prefixes) == "def_arm";
    NoSuffixByLastChar("def_arm");
    CleanBoneNameDefArm();
  }

  // ---------------------------------------------------------------------
  // Sides
  // ---------------------------------------------------------------------

  const LeftIndicators: seq<string> := [".l", "_l", ".left", "left"]
  const RightIndicators: seq<string> := [".r", "_r", ".right", "right"]

  /** Some indicator of the list occurs anywhere in the lower-cased name. */
  predicate HasIndicator(name: string, indicators: seq<string>)
  {
    exists j :: 0 <= j < |indicators| && Contains(Lower(name), indicators[j])
  }

  /** `same_side`: both names carry a left indicator, or both carry a right one. */
  predicate SameSide(bone1: string, bone2: string)
  {
    (HasIndicator(bone1, LeftIndicators) && HasIndicator(bone2, LeftIndicators)) ||
    (HasIndicator(bone1, RightIndicators) && HasIndicator(bone2, RightIndicators))
  }

  /** The test is symmetric, and it fails for a name that carries no side indicator. */
  lemma SameSideSymmetric(bone1: string, bone2: string)
    ensures SameSide(bone1, bone2) <==> SameSide(bone2, bone1)
    ensures !HasIndicator(bone1, LeftIndicators) && !HasIndicator(bone1, RightIndicators) ==>
      !SameSide(bone1, bone2) && !SameSide(bone2, bone1)
  {
  }

  /**
   * The indicators are searched anywhere in the name, so "_l" inside
   * "upper_leg" counts as a left side: a left and a right leg bone are on
   * the same side by this test.
   */
  lemma SameSideMatchesInsideWords()
    ensures SameSide("upper_leg.l", "upper_leg.r")
  {
    assert Lower("upper_leg.l") == "upper_leg.l";
    assert Lower("upper_leg.r") == "upper_leg.r";
    assert LeftIndicators[1] == "_l";
    assert OccursAt("upper_leg.l", "_l", 5);
    assert OccursAt("upper_leg.r", "_l", 5);
    assert Contains(Lower("upper_leg.l"), LeftIndicators[1]);
    assert Contains(Lower("upper_leg.r"), LeftIndicators[1]);
  }

  // ---------------------------------------------------------------------
  // Presets
  // ---------------------------------------------------------------------

  /** The pairs of the named preset in the order the preset lists them; an unknown name has none. */
  function PresetPairs(presetName: string): (r: seq<(string, string)>)
    ensures presetName !in {"rigify", "makehuman_rigify", "mixamo_rigify"} ==> r == []
  {
    if presetName == "makehuman_rigify" then
      [("spine01", "spine_fk.001"), ("spine02", "spine_fk.002"), ("spine03", "spine_fk.003"),
       ("upperarm_l", "upper_arm_fk.L"), ("upperarm_r", "upper_arm_fk.R"),
       ("lowerarm_l", "forearm_fk.L"), ("lowerarm_r", "forearm_fk.R")]
    else if presetName == "mixamo_rigify" then
      [("mixamorig:Hips", "hips"), ("mixamorig:Spine", "spine_fk.001"), ("mixamorig:Spine1", "spine_fk.002"),
       ("mixamorig:Spine2", "spine_fk.003"), ("mixamorig:LeftArm", "upper_arm_fk.L"),
       ("mixamorig:RightArm", "upper_arm_fk.R")]
    else []
  }

  /** The mapping after the pairs are applied in order, each only when both of its bones are available. */
  function ApplyPreset(mapping: Dict<string>, pairs: seq<(string, string)>, sourceBones: seq<string>,
                       targetBones: seq<string>): Dict<string>
    decreases |pairs|
  {
    if |pairs| == 0 then mapping
    else
      var next := if pairs[0].0 in sourceBones && pairs[0].1 in targetBones then Put(mapping, pairs[0].0, pairs[0].1)
        else mapping;
      ApplyPreset(next, pairs[1..], sourceBones, targetBones)
  }

  /**
   * A preset only adds pairs whose source bone is a source bone and whose
   * target is a target bone; every other entry keeps its target.
   */
  lemma {:induction false} ApplyPresetOnlyKnownBones(mapping: Dict<string>, pairs: seq<(string, string)>,
                                                     sourceBones: seq<string>, targetBones: seq<string>)
    ensures var r := ApplyPreset(mapping, pairs, sourceBones, targetBones);
      forall k :: k in r.items ==>
        (k in mapping.items && r.items[k] == mapping.items[k]) || (k in sourceBones && r.items[k] in targetBones)
    decreases |pairs|
  {
    if |pairs| > 0 {
      var next := if pairs[0].0 in sourceBones && pairs[0].1 in targetBones then Put(mapping, pairs[0].0, pairs[0].1)
        else mapping;
      ApplyPresetOnlyKnownBones(next, pairs[1..], sourceBones, targetBones);
    }
  }

  /** Every pair of the preset whose bones are both available ends up in the mapping, when sources are not repeated. */
  lemma {:induction false} ApplyPresetAddsAvailable(mapping: Dict<string>, pairs: seq<(string, string)>,
                                                    sourceBones: seq<string>, targetBones: seq<string>, i: nat)
    requires i < |pairs| && pairs[i].0 in sourceBones && pairs[i].1 in targetBones
    requires forall j :: 0 <= j < |pairs| && j != i ==> pairs[j].0 != pairs[i].0
    ensures var r := ApplyPreset(mapping, pairs, sourceBones, targetBones);
      pairs[i].0 in r.items && r.items[pairs[i].0] == pairs[i].1
    decreases |pairs|
  {
    var next := if pairs[0].0 in sourceBones && pairs[0].1 in targetBones then Put(mapping, pairs[0].0, pairs[0].1)
      else mapping;
    if i == 0 {
      ApplyPresetKeeps(next, pairs[1..], sourceBones, targetBones, pairs[0].0);
    } else {
      ApplyPresetAddsAvailable(next, pairs[1..], sourceBones, targetBones, i - 1);
    }
  }

  /** A source bone no later pair names keeps its entry. */
  lemma {:induction false} ApplyPresetKeeps(mapping: Dict<string>, pairs: seq<(string, string)>,
                                            sourceBones: seq<string>, targetBones: seq<string>, k: string)
    requires k in mapping.items
    requires forall j :: 0 <= j < |pairs| ==> pairs[j].0 != k
    ensures var r := ApplyPreset(mapping, pairs, sourceBones, targetBones);
      k in r.items && r.items[k] == mapping.items[k]
    decreases |pairs|
  {
    if |pairs| > 0 {
      var next := if pairs[0].0 in sourceBones && pairs[0].1 in targetBones then Put(mapping, pairs[0].0, pairs[0].1)
        else mapping;
      ApplyPresetKeeps(next, pairs[1..], sourceBones, targetBones, k);
    }
  }

  // ---------------------------------------------------------------------
  // Apply options
  // ---------------------------------------------------------------------

  /** The `channels` dictionary built from the three check boxes. */
  function ChannelFlags(location: bool, rotation: bool, scale: bool): (r: Dict<bool>)
    ensures r.keys == ["location", "rotation", "scale"]
    ensures r.items == map["location" := location, "rotation" := rotation, "scale" := scale]
  {
    var r := RawDict(["location", "rotation", "scale"], map["location" := location, "rotation" := rotation, "scale" := scale]);
    assert WellKeyed(r);
    r
  }

  /** `channels.get(name, True)`. */
  function ChannelOr(channels: Dict<bool>, name: string): bool
  {
    if name in channels.items then channels.items[name] else true
  }

  /** Options the widget can show exactly: the three channels in order, an offset in the spin box's range, overwriting on. */
  predicate Representable(options: ApplyOptions)
  {
    options.channels.keys == ["location", "rotation", "scale"] && -1000 <= options.frameOffset <= 1000 &&
    options.overwriteExisting
  }

  /** Reading the three flags back out of a three-channel dictionary rebuilds it. */
  lemma ChannelFlagsOfRepresentable(channels: Dict<bool>)
    requires channels.keys == ["location", "rotation", "scale"]
    ensures ChannelFlags(ChannelOr(channels, "location"), ChannelOr(channels, "rotation"), ChannelOr(channels, "scale")) ==
      channels
  {
    assert "location" in channels.keys && "rotation" in channels.keys && "scale" in channels.keys;
    var f := ChannelFlags(ChannelOr(channels, "location"), ChannelOr(channels, "rotation"), ChannelOr(channels, "scale"));
    assert f.items == channels.items;
  }

  // ---------------------------------------------------------------------
  // The mapping widget
  // ---------------------------------------------------------------------

  /** The state of the bone-mapping widget: bones, mapping and the apply-option controls. */
  class BoneMappingWidget {
    var sourceBones: seq<string>
    var targetBones: seq<string>
    var boneMapping: Dict<string>
    var selectedOnly: bool
    var frameOffset: int
    var location: bool
    var rotation: bool
    var scale: bool

    /** A new widget: no bones, no mapping, the controls at their initial values. */
    constructor()
      ensures sourceBones == [] && targetBones == [] && boneMapping == Empty()
      ensures GetApplyOptions().boneMapping == DefaultApplyOptions().boneMapping
      ensures GetApplyOptions().channels.items == DefaultApplyOptions().channels.items
      ensures GetApplyOptions().(channels := DefaultApplyOptions().channels) == DefaultApplyOptions()
    {
      sourceBones, targetBones := [], [];
      boneMapping := Empty();
      selectedOnly, frameOffset := true, 1;
      location, rotation, scale := true, true, true;
    }

    /** `update_bones`. */
    method UpdateBones(sourceBones: seq<string>, targetBones: seq<string>)
      modifies this
      ensures this.sourceBones == sourceBones && this.targetBones == targetBones
      ensures boneMapping == old(boneMapping)
    {
      this.sourceBones := sourceBones;
      this.targetBones := targetBones;
    }

    /**
     * `update_mapping`: a non-empty target maps the source bone to it, an
     * empty one unmaps the source bone; no other bone changes.
     */
    method UpdateMapping(sourceBone: string, targetBone: string)
      modifies this
      ensures targetBone != "" ==> boneMapping.items == old(boneMapping.items)[sourceBone := targetBone]
      ensures targetBone == "" ==> boneMapping.items == old(boneMapping.items) - {sourceBone}
      ensures targetBone == "" && sourceBone !in old(boneMapping.items) ==> boneMapping == old(boneMapping)
      ensures sourceBones == old(sourceBones) && targetBones == old(targetBones)
    {
      if targetBone != "" {
        boneMapping := Put(boneMapping, sourceBone, targetBone);
      } else if sourceBone in boneMapping.items {
        boneMapping := Remove(boneMapping, sourceBone);
      }
    }

    /** `on_auto_mapping_completed`: the found pairs are merged in, replacing earlier targets. */
    method OnAutoMappingCompleted(mappings: Dict<string>)
      modifies this
      ensures boneMapping.items.Keys == old(boneMapping.items.Keys) + mappings.items.Keys
      ensures forall k :: k in mappings.items ==> boneMapping.items[k] == mappings.items[k]
      ensures forall k :: k in old(boneMapping.items) && k !in mappings.items ==>
        boneMapping.items[k] == old(boneMapping.items[k])
    {
      boneMapping := Update(boneMapping, mappings);
    }

    /** `clear_mapping`. */
    method ClearMapping()
      modifies this
      ensures boneMapping == Empty()
      ensures sourceBones == old(sourceBones) && targetBones == old(targetBones)
    {
      boneMapping := Empty();
    }

    /**
     * `load_preset`: the preset's pairs are applied in order, each only when
     * its source is a source bone and its target a target bone.
     */
    method LoadPreset(presetName: string)
      modifies this
      ensures boneMapping == ApplyPreset(old(boneMapping), PresetPairs(presetName), sourceBones, targetBones)
      ensures presetName !in {"rigify", "makehuman_rigify", "mixamo_rigify"} ==> boneMapping == old(boneMapping)
      ensures sourceBones == old(sourceBones) && targetBones == old(targetBones)
    {
      var pairs := PresetPairs(presetName);
      var i := 0;
      while i < |pairs|
        invariant 0 <= i <= |pairs|
        invariant ApplyPreset(boneMapping, pairs[i..], sourceBones, targetBones) ==
          ApplyPreset(old(boneMapping), pairs, sourceBones, targetBones)
        invariant sourceBones == old(sourceBones) && targetBones == old(targetBones)
      {
        assert pairs[i..][1..] == pairs[i + 1..];
        var (sourceBone, targetBone) := pairs[i];
        if sourceBone in sourceBones && targetBone in targetBones {
          boneMapping := Put(boneMapping, sourceBone, targetBone);
        }
        i := i + 1;
      }
    }

    /** `get_apply_options`: the controls' values and a copy of the mapping. */
    function GetApplyOptions(): (r: ApplyOptions)
      reads this
      ensures Representable(r) <==> -1000 <= frameOffset <= 1000
    {
      ApplyOptions(selectedOnly, frameOffset, ChannelFlags(location, rotation, scale), boneMapping, true)
    }

    /**
     * `set_apply_options`: the controls take the options' values (the spin
     * box clamps the offset, an absent channel reads as on) and the mapping
     * becomes a copy of the options' mapping; options the widget can show
     * are given back unchanged.
     */
    method SetApplyOptions(options: ApplyOptions)
      modifies this
      ensures selectedOnly == options.selectedBonesOnly
      ensures frameOffset == if options.frameOffset < -1000 then -1000
        else if options.frameOffset > 1000 then 1000 else options.frameOffset
      ensures location == ChannelOr(options.channels, "location")
      ensures rotation == ChannelOr(options.channels, "rotation")
      ensures scale == ChannelOr(options.channels, "scale")
      ensures boneMapping == options.boneMapping
      ensures sourceBones == old(sourceBones) && targetBones == old(targetBones)
      ensures Representable(options) ==> GetApplyOptions() == options
    {
      selectedOnly := options.selectedBonesOnly;
      frameOffset := if options.frameOffset < -1000 then -1000
        else if options.frameOffset > 1000 then 1000 else options.frameOffset;
      location := ChannelOr(options.channels, "location");
      rotation := ChannelOr(options.channels, "rotation");
      scale := ChannelOr(options.channels, "scale");
      boneMapping := options.boneMapping;
      if Representable(options) {
        ChannelFlagsOfRepresentable(options.channels);
      }
    }
  }
}
