// Serialisation of the animation record (`to_dict`/`from_dict` in
// `src/core/animation_data.py`) and its construction from a Blender
// extraction result (`from_blender_data`).
//
// A step that raises in Python (a missing required key, a value of the wrong
// JSON type) makes the whole decode `None`.

module AnimationCodec {
  import opened Text
  import opened Collections
  import opened Json
  import opened AnimationData

  // ---------------------------------------------------------------------
  // Reading single values
  // ---------------------------------------------------------------------

  function StrValue(v: Value): (r: Option<string>)
    ensures r.Some? <==> v.Str?
    ensures r.Some? ==> v == Str(r.value)
  {
    if v.Str? then Some(v.s) else None
  }

  function IntValue(v: Value): (r: Option<int>)
    ensures r.Some? <==> v.Int?
    ensures r.Some? ==> v == Int(r.value)
  {
    if v.Int? then Some(v.i) else None
  }

  function Required(d: Dict<Value>, k: string): (r: Option<Value>)
    ensures r.Some? <==> k in d.items
    ensures r.Some? ==> r.value == d.items[k]
  {
    Lookup(d, k)
  }

  /** `tuple(data['frame_range'])`: a list of two numbers. */
  function FrameRangeOf(v: Value): (r: Option<FrameRange>)
    ensures r.Some? ==> v.Arr? && |v.items| == 2
  {
    if v.Arr? && |v.items| == 2 then
      var a :- AsReal(v.items[0]);
      var b :- AsReal(v.items[1]);
      Some((a, b))
    else None
  }

  function FrameRangeValue(range: FrameRange): (v: Value)
    ensures FrameRangeOf(v) == Some(range)
  {
    Arr([Float(range.0), Float(range.1)])
  }

  // ---------------------------------------------------------------------
  // to_dict
  // ---------------------------------------------------------------------

  /** `{"channels": [keys...], "keyframe_count": total}`. */
  function EncodeBone(b: BoneRecord): Value
  {
    Obj(RawDict(["channels", "keyframe_count"],
      map["channels" := Strings(b.channels.keys), "keyframe_count" := Int(b.totalKeyframes)]))
  }

  function EncodeBones(bones: Dict<BoneRecord>): (r: Dict<Value>)
    ensures r.keys == bones.keys
    ensures forall k :: k in bones.items ==> k in r.items && r.items[k] == EncodeBone(bones.items[k])
  {
    RawDict(bones.keys, map k | k in bones.items :: EncodeBone(bones.items[k]))
  }

  /** The sixteen fields `to_dict` writes, in the order it writes them. */
  const RecordKeys: seq<string> := ["id", "name", "description", "armature_source", "frame_range",
    "total_bones_animated", "total_keyframes", "bone_data", "created_date", "rig_type", "tags",
    "category", "duration_frames", "author", "quality_rating", "usage_count"]

  const OriginalKey: string := "_original_blender_data"

  lemma RecordKeysDistinct()
    ensures Distinct(RecordKeys)
    ensures OriginalKey !in RecordKeys
  {
  }

  /** The value `to_dict` writes under the field name `k`. */
  function FieldValue(m: AnimationMetadata, k: string): Value
  {
    if k == "id" then Str(m.id)
    else if k == "name" then Str(m.name)
    else if k == "description" then Str(m.description)
    else if k == "armature_source" then Str(m.armatureSource)
    else if k == "frame_range" then FrameRangeValue(m.frameRange)
    else if k == "total_bones_animated" then Int(m.totalBonesAnimated)
    else if k == "total_keyframes" then Int(m.totalKeyframes)
    else if k == "bone_data" then Obj(EncodeBones(m.boneData))
    else if k == "created_date" then Str(m.createdDate)
    else if k == "rig_type" then Str(m.rigType)
    else if k == "tags" then Strings(m.tags)
    else if k == "category" then Str(m.category)
    else if k == "duration_frames" then Float(m.durationFrames)
    else if k == "author" then Str(m.author)
    else if k == "quality_rating" then Float(m.qualityRating)
    else Int(m.usageCount)
  }

  /**
   * `to_dict`: the sixteen fields in declaration order, then the original
   * extraction data when the record carries it.
   */
  function Encode(m: AnimationMetadata): (d: Dict<Value>)
    ensures forall k :: k in RecordKeys ==> k in d.items && d.items[k] == FieldValue(m, k)
    ensures Lookup(d, OriginalKey) == m.originalBlenderData
  {
    RecordKeysDistinct();
    var base: Dict<Value> := RawDict(RecordKeys, map k | k in RecordKeys :: FieldValue(m, k));
    match m.originalBlenderData
    case None => base
    case Some(v) => Put(base, OriginalKey, v)
  }

  // ---------------------------------------------------------------------
  // from_dict
  // ---------------------------------------------------------------------

  /** The channel stored for a channel string when a bone is read back. */
  function ChannelFrom(s: string, count: int, range: FrameRange): ChannelData
  {
    ChannelData(ParseChannel(s).0, ParseChannel(s).1, count, range)
  }

  /** The channels of a bone read back: each string is its own key, with the bone's count and the record's range. */
  function DecodeChannels(strs: seq<string>, count: int, range: FrameRange): (r: Dict<ChannelData>)
    ensures forall k :: k in r.items <==> k in strs
    ensures forall k :: k in r.items ==> r.items[k] == ChannelFrom(k, count, range)
  {
    if |strs| == 0 then Empty()
    else
      var init := strs[..|strs| - 1];
      var last := strs[|strs| - 1];
      var prev := DecodeChannels(init, count, range);
      InSnoc(strs);
      Put(prev, last, ChannelFrom(last, count, range))
  }

  /** Channel strings without repeats come back as keys in their own order. */
  lemma {:induction false} DecodeChannelsKeys(strs: seq<string>, count: int, range: FrameRange)
    requires Distinct(strs)
    ensures DecodeChannels(strs, count, range).keys == strs
    decreases |strs|
  {
    if |strs| > 0 {
      var init := strs[..|strs| - 1];
      var last := strs[|strs| - 1];
      assert Distinct(init) by {
        forall i, j | 0 <= i < j < |init| ensures init[i] != init[j] {
          assert init[i] == strs[i] && init[j] == strs[j];
        }
      }
      DecodeChannelsKeys(init, count, range);
      assert last !in init by {
        forall i | 0 <= i < |init| ensures init[i] != last {
          assert init[i] == strs[i];
        }
      }
    }
  }

  function DecodeBone(name: string, info: Value, range: FrameRange): Option<BoneRecord>
  {
    if !info.Obj? then None
    else
      var count :- IntValue(LookupOr(info.fields, "keyframe_count", Int(0)));
      var strs :- AsStrings(LookupOr(info.fields, "channels", Arr([])));
      Some(BoneRecord(name, DecodeChannels(strs, count, range), count))
  }

  /**
   * The bones named by `names`, read in order and added to `acc`; `None`
   * as soon as one of them cannot be read.
   */
  function DecodeBonesFrom(fields: Dict<Value>, names: seq<string>, acc: Dict<BoneRecord>, range: FrameRange): Option<Dict<BoneRecord>>
    requires forall k :: k in names ==> k in fields.items
    decreases |names|
  {
    if |names| == 0 then Some(acc)
    else
      var bone :- DecodeBone(names[0], fields.items[names[0]], range);
      DecodeBonesFrom(fields, names[1..], Put(acc, names[0], bone), range)
  }

  /** One step of `DecodeBonesFrom`: the first bone is read, then the rest. */
  lemma DecodeBonesFromStep(fields: Dict<Value>, names: seq<string>, acc: Dict<BoneRecord>, range: FrameRange)
    requires forall k :: k in names ==> k in fields.items
    requires |names| > 0
    ensures DecodeBone(names[0], fields.items[names[0]], range).None? ==>
              DecodeBonesFrom(fields, names, acc, range).None?
    ensures DecodeBone(names[0], fields.items[names[0]], range).Some? ==>
              DecodeBonesFrom(fields, names, acc, range)
                == DecodeBonesFrom(fields, names[1..], Put(acc, names[0], DecodeBone(names[0], fields.items[names[0]], range).value), range)
  {
  }

  function DecodeBones(v: Value, range: FrameRange): Option<Dict<BoneRecord>>
  {
    if v.Obj? then DecodeBonesFrom(v.fields, v.fields.keys, Empty(), range) else None
  }

  /**
   * `from_dict`: the bones are read back, the seven required fields must be
   * present, the others take their defaults, and `__post_init__` runs.
   */
  function DecodeRecord(d: Dict<Value>, now: string): Option<AnimationMetadata>
  {
    var rangeValue :- Required(d, "frame_range");
    var range :- FrameRangeOf(rangeValue);
    var bones :- DecodeBones(LookupOr(d, "bone_data", Obj(Empty())), range);
    BuildRecord(d, now, range, bones)
  }

  /** The inner loop of `from_dict`: one bone's channel strings stored one by one. */
  method ReadChannels(strs: seq<string>, count: int, range: FrameRange) returns (channels: Dict<ChannelData>)
    ensures channels == DecodeChannels(strs, count, range)
  {
    channels := Empty();
    var j := 0;
    while j < |strs|
      invariant 0 <= j <= |strs|
      invariant channels == DecodeChannels(strs[..j], count, range)
    {
      channels := Put(channels, strs[j], ChannelFrom(strs[j], count, range));
      assert strs[..j + 1][..j] == strs[..j];
      j := j + 1;
    }
    assert strs[..j] == strs;
  }

  /** `from_dict` with its loops over the bones and each bone's channels. */
  method FromDict(d: Dict<Value>, now: string) returns (r: Option<AnimationMetadata>)
    ensures r == DecodeRecord(d, now)
  {
    var rangeOpt: Option<FrameRange> := None;
    if "frame_range" in d.items {
      rangeOpt := FrameRangeOf(d.items["frame_range"]);
    }
    var bonesValue := LookupOr(d, "bone_data", Obj(Empty()));
    if !bonesValue.Obj? {
      return None;
    }
    var bones := ReadBones(bonesValue.fields, rangeOpt);
    if rangeOpt.None? || bones.None? {
      return None;
    }
    r := BuildRecord(d, now, rangeOpt.value, bones.value);
  }

  /** The loop of `from_dict` over the bones; `None` as soon as one cannot be read. */
  method ReadBones(fields: Dict<Value>, rangeOpt: Option<FrameRange>) returns (r: Option<Dict<BoneRecord>>)
    ensures rangeOpt.Some? ==> r == DecodeBonesFrom(fields, fields.keys, Empty(), rangeOpt.value)
  {
    var bones: Dict<BoneRecord> := Empty();
    var i := 0;
    while i < |fields.keys|
      invariant 0 <= i <= |fields.keys|
      invariant rangeOpt.Some? ==>
        DecodeBonesFrom(fields, fields.keys, Empty(), rangeOpt.value)
          == DecodeBonesFrom(fields, fields.keys[i..], bones, rangeOpt.value)
    {
      var key := fields.keys[i];
      var info := fields.items[key];
      if rangeOpt.Some? {
        DecodeBonesFromStep(fields, fields.keys[i..], bones, rangeOpt.value);
      }
      if !info.Obj? {
        return None;
      }
      var count := IntValue(LookupOr(info.fields, "keyframe_count", Int(0)));
      var strs := AsStrings(LookupOr(info.fields, "channels", Arr([])));
      if count.None? || strs.None? {
        return None;
      }
      if rangeOpt.None? {
        if |strs.value| > 0 {
          return None;
        }
        bones := Put(bones, key, BoneRecord(key, Empty(), count.value));
      } else {
        var channels := ReadChannels(strs.value, count.value, rangeOpt.value);
        bones := Put(bones, key, BoneRecord(key, channels, count.value));
      }
      assert fields.keys[i..][1..] == fields.keys[i + 1..];
      i := i + 1;
    }
    r := Some(bones);
  }

  /** The required and defaulted fields, once the bones are read. */
  function BuildRecord(d: Dict<Value>, now: string, range: FrameRange, bones: Dict<BoneRecord>): Option<AnimationMetadata>
  {
    var idV :- Required(d, "id");
    var id :- StrValue(idV);
    var nameV :- Required(d, "name");
    var name :- StrValue(nameV);
    var descV :- Required(d, "description");
    var desc :- StrValue(descV);
    var armV :- Required(d, "armature_source");
    var arm :- StrValue(armV);
    var bonesV :- Required(d, "total_bones_animated");
    var boneCount :- IntValue(bonesV);
    var keysV :- Required(d, "total_keyframes");
    var keyCount :- IntValue(keysV);
    var created :- StrValue(LookupOr(d, "created_date", Str(now)));
    var rig :- StrValue(LookupOr(d, "rig_type", Str("unknown")));
    var tags :- AsStrings(LookupOr(d, "tags", Arr([])));
    var category :- StrValue(LookupOr(d, "category", Str("extracted")));
    var duration :- AsReal(LookupOr(d, "duration_frames", Float(0.0)));
    var author :- StrValue(LookupOr(d, "author", Str("")));
    var rating :- AsReal(LookupOr(d, "quality_rating", Float(0.0)));
    var usage :- IntValue(LookupOr(d, "usage_count", Int(0)));
    Some(PostInit(AnimationMetadata(id, name, desc, arm, range, boneCount, keyCount, bones,
      created, rig, tags, category, duration, author, rating, usage, Lookup(d, OriginalKey))))
  }

  // ---------------------------------------------------------------------
  // from_blender_data
  // ---------------------------------------------------------------------

  /** `add_channel` for one channel string, split as `ParseChannel` splits it. */
  function AddChannelString(b: BoneRecord, s: string, count: int, range: FrameRange): BoneRecord
  {
    WithChannel(b, ParseChannel(s).0, ParseChannel(s).1, count, range)
  }

  /** A bone after `add_channel` for each of its channel strings in turn. */
  function ExtractChannels(b: BoneRecord, strs: seq<string>, count: int, range: FrameRange): (r: BoneRecord)
    ensures r.boneName == b.boneName
    ensures r.totalKeyframes == b.totalKeyframes + |strs| * count
  {
    if |strs| == 0 then b
    else
      var prev := ExtractChannels(b, strs[..|strs| - 1], count, range);
      assert |strs| * count == (|strs| - 1) * count + count;
      AddChannelString(prev, strs[|strs| - 1], count, range)
  }

  function ExtractBone(name: string, info: Value, range: FrameRange): Option<BoneRecord>
  {
    if !info.Obj? then None
    else
      var count :- IntValue(LookupOr(info.fields, "keyframe_count", Int(0)));
      var strs :- AsStrings(LookupOr(info.fields, "channels", Arr([])));
      Some(ExtractChannels(BoneRecord(name, Empty(), 0), strs, count, range))
  }

  /** The bones named by `names`, extracted in order and added to `acc`. */
  function ExtractBonesFrom(fields: Dict<Value>, names: seq<string>, acc: Dict<BoneRecord>, range: FrameRange): Option<Dict<BoneRecord>>
    requires forall k :: k in names ==> k in fields.items
    decreases |names|
  {
    if |names| == 0 then Some(acc)
    else
      var bone :- ExtractBone(names[0], fields.items[names[0]], range);
      ExtractBonesFrom(fields, names[1..], Put(acc, names[0], bone), range)
  }

  /** The animation identifier: armature, action and timestamp, with '|' and ' ' made '_'. */
  function AnimationId(armature: string, action: string, timestamp: int): (id: string)
    ensures '|' !in id && ' ' !in id
  {
    var raw := armature + "_" + action + "_" + IntToString(timestamp);
    ReplaceCharRemoves(raw, '|', "_");
    var once := ReplaceAll(raw, "|", "_");
    ReplaceCharKeepsAbsent(once, ' ', "_", '|');
    ReplaceCharRemoves(once, ' ', "_");
    ReplaceAll(once, " ", "_")
  }

  /**
   * `from_blender_data`: the record built from one extraction result, at
   * the given clock reading (`timestamp` for the identifier, `now` for the
   * creation date). The extraction result itself is kept with the record.
   */
  function ExtractRecord(data: Dict<Value>, timestamp: int, now: string): Option<AnimationMetadata>
  {
    var armV :- Required(data, "armature_name");
    var arm :- StrValue(armV);
    var actionV :- Required(data, "action_name");
    var action :- StrValue(actionV);
    var rangeV :- Required(data, "frame_range");
    var range :- FrameRangeOf(rangeV);
    var bones :- ExtractBones(data, range);
    AssembleRecord(data, timestamp, now, arm, action, range, bones)
  }

  /** The bones of an extraction result, one `BoneAnimationData` per entry of its `bone_data`. */
  function ExtractBones(data: Dict<Value>, range: FrameRange): Option<Dict<BoneRecord>>
  {
    var bonesValue := LookupOr(data, "bone_data", Obj(Empty()));
    if bonesValue.Obj? then ExtractBonesFrom(bonesValue.fields, bonesValue.fields.keys, Empty(), range) else None
  }

  /** The record once the bones are built: the counts must be present, the rest is derived. */
  function AssembleRecord(data: Dict<Value>, timestamp: int, now: string, arm: string, action: string,
                          range: FrameRange, bones: Dict<BoneRecord>): (r: Option<AnimationMetadata>)
    ensures r.Some? ==> r.value.boneData == bones
  {
    var boneCountV :- Required(data, "total_bones_animated");
    var boneCount :- IntValue(boneCountV);
    var keyCountV :- Required(data, "total_keyframes");
    var keyCount :- IntValue(keyCountV);
    var bonesValue := LookupOr(data, "bone_data", Obj(Empty()));
    var boneNames := if bonesValue.Obj? then bonesValue.fields.keys else [];
    Some(PostInit(AnimationMetadata(
      AnimationId(arm, action, timestamp), action, "Extracted from " + arm, arm, range,
      boneCount, keyCount, bones, now, DetectRigType(arm, boneNames),
      GenerateTags(range, keyCount, bones), "extracted", 0.0, "", 0.0, 0, Some(Obj(data)))))
  }

  /** The inner loop of `from_blender_data`: a new bone gets `add_channel` for each channel string. */
  method ExtractBoneChannels(name: string, strs: seq<string>, count: int, range: FrameRange) returns (b: BoneRecord)
    ensures b == ExtractChannels(BoneRecord(name, Empty(), 0), strs, count, range)
  {
    var bone := new BoneAnimationData(name);
    var j := 0;
    while j < |strs|
      invariant 0 <= j <= |strs|
      invariant bone.Record() == ExtractChannels(BoneRecord(name, Empty(), 0), strs[..j], count, range)
    {
      ghost var before := bone.Record();
      var parsed := ParseChannel(strs[j]);
      bone.AddChannel(parsed.0, parsed.1, count, range);
      assert bone.Record() == AddChannelString(before, strs[j], count, range);
      assert strs[..j + 1][..j] == strs[..j];
      assert ExtractChannels(BoneRecord(name, Empty(), 0), strs[..j + 1], count, range)
          == AddChannelString(before, strs[j], count, range);
      j := j + 1;
    }
    assert strs[..j] == strs;
    b := bone.Record();
  }

  /** `from_blender_data` with its loops, building each bone with `add_channel`. */
  method FromBlenderData(data: Dict<Value>, timestamp: int, now: string) returns (r: Option<AnimationMetadata>)
    ensures r == ExtractRecord(data, timestamp, now)
  {
    if "armature_name" !in data.items || !data.items["armature_name"].Str?
      || "action_name" !in data.items || !data.items["action_name"].Str?
      || "frame_range" !in data.items || FrameRangeOf(data.items["frame_range"]).None? {
      return None;
    }
    var range := FrameRangeOf(data.items["frame_range"]).value;
    var bonesValue := LookupOr(data, "bone_data", Obj(Empty()));
    if !bonesValue.Obj? {
      return None;
    }
    var fields := bonesValue.fields;
    var extracted := ExtractAllBones(fields, range);
    if extracted.None? {
      return None;
    }
    var bones := extracted.value;
    if "total_bones_animated" !in data.items || !data.items["total_bones_animated"].Int?
      || "total_keyframes" !in data.items || !data.items["total_keyframes"].Int? {
      return None;
    }
    var arm := data.items["armature_name"].s;
    var action := data.items["action_name"].s;
    var keyCount := data.items["total_keyframes"].i;
    r := Some(PostInit(AnimationMetadata(
      AnimationId(arm, action, timestamp), action, "Extracted from " + arm, arm, range,
      data.items["total_bones_animated"].i, keyCount, bones, now, DetectRigType(arm, fields.keys),
      GenerateTags(range, keyCount, bones), "extracted", 0.0, "", 0.0, 0, Some(Obj(data)))));
  }

  /** The loop of `from_blender_data` over the bones; `None` as soon as one cannot be built. */
  method ExtractAllBones(fields: Dict<Value>, range: FrameRange) returns (r: Option<Dict<BoneRecord>>)
    ensures r == ExtractBonesFrom(fields, fields.keys, Empty(), range)
  {
    var bones: Dict<BoneRecord> := Empty();
    var i := 0;
    while i < |fields.keys|
      invariant 0 <= i <= |fields.keys|
      invariant ExtractBonesFrom(fields, fields.keys, Empty(), range) == ExtractBonesFrom(fields, fields.keys[i..], bones, range)
    {
      var name := fields.keys[i];
      var info := fields.items[name];
      ExtractBonesFromStep(fields, fields.keys[i..], bones, range);
      if !info.Obj? {
        return None;
      }
      var count := IntValue(LookupOr(info.fields, "keyframe_count", Int(0)));
      var strs := AsStrings(LookupOr(info.fields, "channels", Arr([])));
      if count.None? || strs.None? {
        return None;
      }
      var bone := ExtractBoneChannels(name, strs.value, count.value, range);
      assert fields.keys[i..][1..] == fields.keys[i + 1..];
      bones := Put(bones, name, bone);
      i := i + 1;
    }
    r := Some(bones);
  }

  /** One step of `ExtractBonesFrom`: the first bone is built, then the rest. */
  lemma ExtractBonesFromStep(fields: Dict<Value>, names: seq<string>, acc: Dict<BoneRecord>, range: FrameRange)
    requires forall k :: k in names ==> k in fields.items
    requires |names| > 0
    ensures ExtractBone(names[0], fields.items[names[0]], range).None? ==>
              ExtractBonesFrom(fields, names, acc, range).None?
    ensures ExtractBone(names[0], fields.items[names[0]], range).Some? ==>
              ExtractBonesFrom(fields, names, acc, range)
                == ExtractBonesFrom(fields, names[1..], Put(acc, names[0], ExtractBone(names[0], fields.items[names[0]], range).value), range)
  {
  }

  // ---------------------------------------------------------------------
  // What extraction produces
  // ---------------------------------------------------------------------

  /** Every channel an extracted bone holds sits under its own `ChannelKey`, with the bone's count and the record's range. */
  lemma {:induction false} ExtractChannelsShape(b: BoneRecord, strs: seq<string>, count: int, range: FrameRange)
    requires KeysMatchChannels(b)
    requires forall k :: k in b.channels.items ==> b.channels.items[k].keyframeCount == count && b.channels.items[k].frameRange == range
    ensures KeysMatchChannels(ExtractChannels(b, strs, count, range))
    ensures forall k :: k in ExtractChannels(b, strs, count, range).channels.items ==>
      ExtractChannels(b, strs, count, range).channels.items[k].keyframeCount == count &&
      ExtractChannels(b, strs, count, range).channels.items[k].frameRange == range
    decreases |strs|
  {
    if |strs| > 0 {
      var prev := ExtractChannels(b, strs[..|strs| - 1], count, range);
      ExtractChannelsShape(b, strs[..|strs| - 1], count, range);
      WithChannelKeepsKeys(prev, ParseChannel(strs[|strs| - 1]).0, ParseChannel(strs[|strs| - 1]).1, count, range);
    }
  }

  /** The key `add_channel` stores a channel string under. */
  function StoredKey(s: string): string
  {
    ChannelKey(ParseChannel(s).0, ParseChannel(s).1)
  }

  /** The keys stored for a sequence of channel strings, in order. */
  function StoredKeys(strs: seq<string>): (r: seq<string>)
    ensures |r| == |strs|
  {
    if |strs| == 0 then [] else StoredKeys(strs[..|strs| - 1]) + [StoredKey(strs[|strs| - 1])]
  }

  /** A channel string that is already a channel key is stored under itself. */
  lemma StoredKeyOfKey(name: string, index: int)
    ensures StoredKey(ChannelKey(name, index)) == ChannelKey(name, index)
  {
    ParseChannelKey(name, index);
  }

  /** An extracted bone holds exactly the channels it started with plus one per stored key. */
  lemma {:induction false} ExtractChannelsKeys(b: BoneRecord, strs: seq<string>, count: int, range: FrameRange)
    ensures forall k :: k in ExtractChannels(b, strs, count, range).channels.items <==>
      k in b.channels.items || k in StoredKeys(strs)
    decreases |strs|
  {
    if |strs| > 0 {
      ExtractChannelsKeys(b, strs[..|strs| - 1], count, range);
    }
  }

  // ---------------------------------------------------------------------
  // to_dict followed by from_dict
  // ---------------------------------------------------------------------

  /** A bone as `from_dict` rebuilds it from its `to_dict` entry. */
  function ReloadBone(name: string, b: BoneRecord, range: FrameRange): BoneRecord
  {
    BoneRecord(name, DecodeChannels(b.channels.keys, b.totalKeyframes, range), b.totalKeyframes)
  }

  function ReloadBones(bones: Dict<BoneRecord>, range: FrameRange): (r: Dict<BoneRecord>)
    ensures r.keys == bones.keys
    ensures forall k :: k in r.items ==> k in bones.items && r.items[k] == ReloadBone(k, bones.items[k], range)
  {
    RawDict(bones.keys, map k | k in bones.items :: ReloadBone(k, bones.items[k], range))
  }

  lemma DecodeEncodedBone(name: string, b: BoneRecord, range: FrameRange)
    ensures DecodeBone(name, EncodeBone(b), range) == Some(ReloadBone(name, b, range))
  {
    StringsRoundTrip(b.channels.keys);
  }

  /** The first `i` bones, reloaded. */
  function ReloadedPrefix(bones: Dict<BoneRecord>, i: nat, range: FrameRange): Dict<BoneRecord>
    requires i <= |bones.keys|
  {
    var ks := bones.keys[..i];
    assert Distinct(ks) by {
      forall a, b | 0 <= a < b < |ks| ensures ks[a] != ks[b] {
        assert ks[a] == bones.keys[a] && ks[b] == bones.keys[b];
      }
    }
    RawDict(ks, map k | k in ks :: ReloadBone(k, bones.items[k], range))
  }

  lemma ReloadedPrefixAll(bones: Dict<BoneRecord>, range: FrameRange)
    ensures ReloadedPrefix(bones, |bones.keys|, range) == ReloadBones(bones, range)
  {
    assert bones.keys[..|bones.keys|] == bones.keys;
  }

  /** Reloading one more bone extends the reloaded prefix by that bone. */
  lemma ReloadedPrefixStep(bones: Dict<BoneRecord>, i: nat, range: FrameRange)
    requires i < |bones.keys|
    ensures Put(ReloadedPrefix(bones, i, range), bones.keys[i], ReloadBone(bones.keys[i], bones.items[bones.keys[i]], range))
      == ReloadedPrefix(bones, i + 1, range)
  {
    var k := bones.keys[i];
    var prefix := ReloadedPrefix(bones, i, range);
    assert k !in bones.keys[..i] by {
      forall a | 0 <= a < i ensures bones.keys[..i][a] != k {
        assert bones.keys[..i][a] == bones.keys[a];
      }
    }
    assert bones.keys[..i + 1] == bones.keys[..i] + [k];
    var next := Put(prefix, k, ReloadBone(k, bones.items[k], range));
    assert next.keys == ReloadedPrefix(bones, i + 1, range).keys;
    assert next.items == ReloadedPrefix(bones, i + 1, range).items;
  }

  lemma {:induction false} DecodeEncodedBonesFrom(bones: Dict<BoneRecord>, i: nat, range: FrameRange)
    requires i <= |bones.keys|
    ensures DecodeBonesFrom(EncodeBones(bones), bones.keys[i..], ReloadedPrefix(bones, i, range), range)
      == Some(ReloadBones(bones, range))
    decreases |bones.keys| - i
  {
    if i == |bones.keys| {
      ReloadedPrefixAll(bones, range);
    } else {
      var k := bones.keys[i];
      DecodeEncodedBone(k, bones.items[k], range);
      assert bones.keys[i..][1..] == bones.keys[i + 1..];
      ReloadedPrefixStep(bones, i, range);
      DecodeEncodedBonesFrom(bones, i + 1, range);
    }
  }

  /** The `bone_data` object written by `to_dict` reads back as the reloaded bones. */
  lemma DecodeEncodedBones(bones: Dict<BoneRecord>, range: FrameRange)
    ensures DecodeBones(Obj(EncodeBones(bones)), range) == Some(ReloadBones(bones, range))
  {
    DecodeEncodedBonesFrom(bones, 0, range);
    assert ReloadedPrefix(bones, 0, range) == Empty();
  }

  // Each field is found under its own name in the `to_dict` output; four
  // lemmas of four fields each keep the string comparisons small.

  lemma EncodeNames(m: AnimationMetadata)
    ensures "id" in Encode(m).items && Encode(m).items["id"] == Str(m.id)
    ensures "name" in Encode(m).items && Encode(m).items["name"] == Str(m.name)
    ensures "description" in Encode(m).items && Encode(m).items["description"] == Str(m.description)
    ensures "armature_source" in Encode(m).items && Encode(m).items["armature_source"] == Str(m.armatureSource)
  {
    assert RecordKeys[0] == "id";
    assert RecordKeys[1] == "name";
    assert RecordKeys[2] == "description";
    assert RecordKeys[3] == "armature_source";
  }

  lemma EncodeAnimation(m: AnimationMetadata)
    ensures "frame_range" in Encode(m).items && Encode(m).items["frame_range"] == FrameRangeValue(m.frameRange)
    ensures "total_bones_animated" in Encode(m).items && Encode(m).items["total_bones_animated"] == Int(m.totalBonesAnimated)
    ensures "total_keyframes" in Encode(m).items && Encode(m).items["total_keyframes"] == Int(m.totalKeyframes)
    ensures "bone_data" in Encode(m).items && Encode(m).items["bone_data"] == Obj(EncodeBones(m.boneData))
  {
    assert RecordKeys[4] == "frame_range";
    assert RecordKeys[5] == "total_bones_animated";
    assert RecordKeys[6] == "total_keyframes";
    assert RecordKeys[7] == "bone_data";
  }

  lemma EncodeCatalogue(m: AnimationMetadata)
    ensures "created_date" in Encode(m).items && Encode(m).items["created_date"] == Str(m.createdDate)
    ensures "rig_type" in Encode(m).items && Encode(m).items["rig_type"] == Str(m.rigType)
    ensures "tags" in Encode(m).items && Encode(m).items["tags"] == Strings(m.tags)
    ensures "category" in Encode(m).items && Encode(m).items["category"] == Str(m.category)
  {
    assert RecordKeys[8] == "created_date";
    assert RecordKeys[9] == "rig_type";
    assert RecordKeys[10] == "tags";
    assert RecordKeys[11] == "category";
  }

  lemma EncodeUsage(m: AnimationMetadata)
    ensures "duration_frames" in Encode(m).items && Encode(m).items["duration_frames"] == Float(m.durationFrames)
    ensures "author" in Encode(m).items && Encode(m).items["author"] == Str(m.author)
    ensures "quality_rating" in Encode(m).items && Encode(m).items["quality_rating"] == Float(m.qualityRating)
    ensures "usage_count" in Encode(m).items && Encode(m).items["usage_count"] == Int(m.usageCount)
  {
    EncodeDurationAuthor(m);
    EncodeRatingUsage(m);
  }

  lemma EncodeDurationAuthor(m: AnimationMetadata)
    ensures "duration_frames" in Encode(m).items && Encode(m).items["duration_frames"] == Float(m.durationFrames)
    ensures "author" in Encode(m).items && Encode(m).items["author"] == Str(m.author)
  {
    assert RecordKeys[12] == "duration_frames";
    assert RecordKeys[13] == "author";
  }

  lemma EncodeRatingUsage(m: AnimationMetadata)
    ensures "quality_rating" in Encode(m).items && Encode(m).items["quality_rating"] == Float(m.qualityRating)
    ensures "usage_count" in Encode(m).items && Encode(m).items["usage_count"] == Int(m.usageCount)
  {
    assert RecordKeys[14] == "quality_rating";
    assert RecordKeys[15] == "usage_count";
  }

  /** The record as `from_dict(to_dict(m))` rebuilds it: the bones reloaded, then `__post_init__`. */
  function Reloaded(m: AnimationMetadata): AnimationMetadata
  {
    PostInit(m.(boneData := ReloadBones(m.boneData, m.frameRange)))
  }

  /** Writing a record with `to_dict` and reading it with `from_dict` always succeeds, with the reloaded record. */
  lemma EncodeDecode(m: AnimationMetadata, now: string)
    ensures DecodeRecord(Encode(m), now) == Some(Reloaded(m))
  {
    EncodeNames(m);
    EncodeAnimation(m);
    EncodeCatalogue(m);
    EncodeUsage(m);
    DecodeEncodedBones(m.boneData, m.frameRange);
    StringsRoundTrip(m.tags);
  }

  /**
   * A bone whose channels sit under their own keys comes back with the same
   * keys in the same order, each channel with its name and index; the count
   * becomes the bone's total and the range the record's.
   */
  lemma ReloadBoneChannels(name: string, b: BoneRecord, range: FrameRange)
    requires KeysMatchChannels(b)
    ensures ReloadBone(name, b, range).channels.keys == b.channels.keys
    ensures forall k :: k in b.channels.items ==>
      k in ReloadBone(name, b, range).channels.items &&
      ReloadBone(name, b, range).channels.items[k] ==
        b.channels.items[k].(keyframeCount := b.totalKeyframes, frameRange := range)
  {
    DecodeChannelsKeys(b.channels.keys, b.totalKeyframes, range);
    forall k | k in b.channels.items
      ensures ChannelFrom(k, b.totalKeyframes, range) == b.channels.items[k].(keyframeCount := b.totalKeyframes, frameRange := range)
    {
      ParseChannelKey(b.channels.items[k].channelName, b.channels.items[k].arrayIndex);
    }
  }

  /** Every bone extraction produces keeps its channels under their own keys. */
  lemma {:induction false} ExtractedBonesMatchKeys(fields: Dict<Value>, names: seq<string>, acc: Dict<BoneRecord>, range: FrameRange)
    requires forall k :: k in names ==> k in fields.items
    requires forall k :: k in acc.items ==> KeysMatchChannels(acc.items[k])
    requires ExtractBonesFrom(fields, names, acc, range).Some?
    ensures forall k :: k in ExtractBonesFrom(fields, names, acc, range).value.items ==>
      KeysMatchChannels(ExtractBonesFrom(fields, names, acc, range).value.items[k])
    decreases |names|
  {
    if |names| > 0 {
      var bone := ExtractBone(names[0], fields.items[names[0]], range).value;
      var info := fields.items[names[0]];
      var count := IntValue(LookupOr(info.fields, "keyframe_count", Int(0))).value;
      var strs := AsStrings(LookupOr(info.fields, "channels", Arr([]))).value;
      ExtractChannelsShape(BoneRecord(names[0], Empty(), 0), strs, count, range);
      ExtractedBonesMatchKeys(fields, names[1..], Put(acc, names[0], bone), range);
    }
  }

  /** Every bone of an extracted record keeps its channels under their own keys. */
  lemma ExtractedRecordKeys(data: Dict<Value>, timestamp: int, now: string)
    requires ExtractRecord(data, timestamp, now).Some?
    ensures forall k :: k in ExtractRecord(data, timestamp, now).value.boneData.items ==>
      KeysMatchChannels(ExtractRecord(data, timestamp, now).value.boneData.items[k])
  {
    var range := ExtractedBones(data, timestamp, now);
    var bonesValue := LookupOr(data, "bone_data", Obj(Empty()));
    ExtractedBonesMatchKeys(bonesValue.fields, bonesValue.fields.keys, Empty(), range);
  }

  /** The bones of an extracted record are those built from its `bone_data` object at its frame range. */
  lemma ExtractedBones(data: Dict<Value>, timestamp: int, now: string) returns (range: FrameRange)
    requires ExtractRecord(data, timestamp, now).Some?
    ensures LookupOr(data, "bone_data", Obj(Empty())).Obj?
    ensures ExtractBones(data, range).Some?
    ensures ExtractRecord(data, timestamp, now).value.boneData == ExtractBones(data, range).value
  {
    range := FrameRangeOf(data.items["frame_range"]).value;
  }

  /**
   * Reloading keeps the bone names in order, and in every bone whose
   * channels sit under their own keys, the channel keys in order and each
   * channel's name and index.
   */
  lemma ReloadKeepsChannels(m: AnimationMetadata)
    requires forall k :: k in m.boneData.items ==> KeysMatchChannels(m.boneData.items[k])
    ensures Reloaded(m).boneData.keys == m.boneData.keys
    ensures forall k :: k in m.boneData.items ==>
      k in Reloaded(m).boneData.items &&
      Reloaded(m).boneData.items[k].channels.keys == m.boneData.items[k].channels.keys &&
      forall c :: c in m.boneData.items[k].channels.items ==>
        c in Reloaded(m).boneData.items[k].channels.items &&
        Reloaded(m).boneData.items[k].channels.items[c].channelName == m.boneData.items[k].channels.items[c].channelName &&
        Reloaded(m).boneData.items[k].channels.items[c].arrayIndex == m.boneData.items[k].channels.items[c].arrayIndex
  {
    forall k | k in m.boneData.items
      ensures k in Reloaded(m).boneData.items
      ensures Reloaded(m).boneData.items[k].channels.keys == m.boneData.items[k].channels.keys
      ensures forall c :: c in m.boneData.items[k].channels.items ==>
          c in Reloaded(m).boneData.items[k].channels.items &&
          Reloaded(m).boneData.items[k].channels.items[c].channelName == m.boneData.items[k].channels.items[c].channelName &&
          Reloaded(m).boneData.items[k].channels.items[c].arrayIndex == m.boneData.items[k].channels.items[c].arrayIndex
    {
      ReloadBoneChannels(k, m.boneData.items[k], m.frameRange);
    }
  }
}
