// The action helpers of the Blender-side .blend storage
// (`BlendFileAnimationStorage`, `src/blender_animation_library/storage.py`):
// the frame range, the animated bone names, the channel and bone filters,
// the frame offset, the generated animation id, and the statistics an
// extraction reports.
//
// An action is its list of F-curves. An F-curve is its data path and its
// keyframes; a keyframe is the frame coordinate of its point and of its
// two handles (the value coordinates are never touched by these helpers).
// Frames are integers here.

module ActionStorage {
  import opened Text
  import opened Collections

  datatype Keyframe = Keyframe(co: int, handleLeft: int, handleRight: int)

  datatype FCurve = FCurve(dataPath: string, keyframes: seq<Keyframe>)

  // ---------------------------------------------------------------------
  // Frame range (`_get_action_frame_range`)
  // ---------------------------------------------------------------------

  /** The frames of some keyframes, in order. */
  function KeyFrames(ks: seq<Keyframe>): (r: seq<int>)
    ensures |r| == |ks| && forall j :: 0 <= j < |ks| ==> r[j] == ks[j].co
  {
    seq(|ks|, j requires 0 <= j < |ks| => ks[j].co)
  }

  /** Every keyframe's frame, curve after curve. */
  function Frames(fcurves: seq<FCurve>): seq<int>
  {
    if |fcurves| == 0 then []
    else Frames(fcurves[..|fcurves| - 1]) + KeyFrames(fcurves[|fcurves| - 1].keyframes)
  }

  /** `r` is the range an action with these frames reports: `(1, 1)` when there are none, otherwise the least and the greatest frame. */
  ghost predicate IsFrameRange(frames: seq<int>, r: (int, int))
  {
    if |frames| == 0 then r == (1, 1)
    else r.0 in frames && r.1 in frames && forall f :: f in frames ==> r.0 <= f <= r.1
  }

  /** The reported range never runs backwards, so the reported duration is at least one frame. */
  lemma FrameRangeOrdered(frames: seq<int>, r: (int, int))
    requires IsFrameRange(frames, r)
    ensures r.0 <= r.1
    ensures r.1 - r.0 + 1 >= 1
  {
  }

  /** The range is determined by the frames. */
  lemma FrameRangeUnique(frames: seq<int>, r1: (int, int), r2: (int, int))
    requires IsFrameRange(frames, r1) && IsFrameRange(frames, r2)
    ensures r1 == r2
  {
  }

  /** `_get_action_frame_range`: the least and greatest keyframe frame, or `(1, 1)`. */
  method FrameRange(fcurves: seq<FCurve>) returns (r: (int, int))
    ensures IsFrameRange(Frames(fcurves), r)
  {
    if |fcurves| == 0 {
      return (1, 1);
    }
    // `seen` is false while the minimum is still `inf`.
    var seen := false;
    var lo, hi := 0, 0;
    var i := 0;
    while i < |fcurves|
      invariant 0 <= i <= |fcurves|
      invariant RangeSoFar(Frames(fcurves[..i]), seen, lo, hi)
    {
      seen, lo, hi := VisitCurve(Frames(fcurves[..i]), fcurves[i].keyframes, seen, lo, hi);
      FramesPrefixStep(fcurves, i);
      i := i + 1;
    }
    assert fcurves[..i] == fcurves;
    r := if seen then (lo, hi) else (1, 1);
  }

  /** The inner loop of `_get_action_frame_range`: one curve's keyframes, frame by frame. */
  method VisitCurve(before: seq<int>, keys: seq<Keyframe>, seen: bool, lo: int, hi: int)
    returns (seen': bool, lo': int, hi': int)
    requires RangeSoFar(before, seen, lo, hi)
    ensures RangeSoFar(before + KeyFrames(keys), seen', lo', hi')
  {
    seen', lo', hi' := seen, lo, hi;
    assert before + KeyFrames(keys[..0]) == before;
    var k := 0;
    while k < |keys|
      invariant 0 <= k <= |keys|
      invariant RangeSoFar(before + KeyFrames(keys[..k]), seen', lo', hi')
    {
      var frame := keys[k].co;
      var newLo := if !seen' || frame < lo' then frame else lo';
      var newHi := if !seen' || frame > hi' then frame else hi';
      VisitKeyframe(before, keys, k, seen', lo', hi');
      lo', hi', seen' := newLo, newHi, true;
      k := k + 1;
    }
    assert keys[..k] == keys;
  }

  /** The loop's state after visiting `frames`. */
  ghost predicate RangeSoFar(frames: seq<int>, seen: bool, lo: int, hi: int)
  {
    (seen <==> |frames| > 0) && (seen ==> IsFrameRange(frames, (lo, hi)))
  }

  /** One more frame: the least and greatest so far take it into account. */
  lemma RangeSoFarStep(frames: seq<int>, seen: bool, lo: int, hi: int, frame: int)
    requires RangeSoFar(frames, seen, lo, hi)
    ensures RangeSoFar(frames + [frame], true,
                       if !seen || frame < lo then frame else lo,
                       if !seen || frame > hi then frame else hi)
  {
    var lo', hi' := if !seen || frame < lo then frame else lo, if !seen || frame > hi then frame else hi;
    var fs := frames + [frame];
    assert frame in fs;
    forall f | f in fs ensures lo' <= f <= hi' {
      if f != frame {
        assert f in frames;
      }
    }
    assert lo' in fs && hi' in fs;
  }

  /** The inner loop's step: the `k`-th keyframe's frame is taken into account. */
  lemma VisitKeyframe(before: seq<int>, keys: seq<Keyframe>, k: nat, seen: bool, lo: int, hi: int)
    requires k < |keys|
    requires RangeSoFar(before + KeyFrames(keys[..k]), seen, lo, hi)
    ensures RangeSoFar(before + KeyFrames(keys[..k + 1]), true,
                       if !seen || keys[k].co < lo then keys[k].co else lo,
                       if !seen || keys[k].co > hi then keys[k].co else hi)
  {
    KeyFramesSnoc(before, keys, k);
    RangeSoFarStep(before + KeyFrames(keys[..k]), seen, lo, hi, keys[k].co);
  }

  /** The frames seen after `k + 1` keyframes of the current curve. */
  lemma KeyFramesSnoc(before: seq<int>, keys: seq<Keyframe>, k: nat)
    requires k < |keys|
    ensures before + KeyFrames(keys[..k + 1]) == before + KeyFrames(keys[..k]) + [keys[k].co]
  {
    assert KeyFrames(keys[..k + 1]) == KeyFrames(keys[..k]) + [keys[k].co];
  }

  /** The frames of the first `i + 1` curves, once the `i`-th curve's keyframes are all visited. */
  lemma FramesPrefixStep(fcurves: seq<FCurve>, i: nat)
    requires i < |fcurves|
    ensures Frames(fcurves[..i + 1]) == Frames(fcurves[..i]) + KeyFrames(fcurves[i].keyframes)
  {
    assert fcurves[..i + 1][..i] == fcurves[..i];
  }

  // ---------------------------------------------------------------------
  // Frame offset (`_apply_frame_offset`)
  // ---------------------------------------------------------------------

  function ShiftKey(k: Keyframe, d: int): Keyframe
  {
    Keyframe(k.co + d, k.handleLeft + d, k.handleRight + d)
  }

  function ShiftCurve(c: FCurve, d: int): FCurve
  {
    c.(keyframes := seq(|c.keyframes|, j requires 0 <= j < |c.keyframes| => ShiftKey(c.keyframes[j], d)))
  }

  /** Every keyframe and both of its handles moved by `d` frames. */
  function Shift(fcurves: seq<FCurve>, d: int): seq<FCurve>
  {
    seq(|fcurves|, i requires 0 <= i < |fcurves| => ShiftCurve(fcurves[i], d))
  }

  /** A shift by zero frames changes nothing. */
  lemma ShiftZero(fcurves: seq<FCurve>)
    ensures Shift(fcurves, 0) == fcurves
  {
    forall i | 0 <= i < |fcurves|
      ensures Shift(fcurves, 0)[i] == fcurves[i]
    {
      assert ShiftCurve(fcurves[i], 0).keyframes == fcurves[i].keyframes;
    }
  }

  /** Shifting back by the same amount restores the action. */
  lemma ShiftInverse(fcurves: seq<FCurve>, d: int)
    ensures Shift(Shift(fcurves, d), -d) == fcurves
  {
    forall i | 0 <= i < |fcurves|
      ensures Shift(Shift(fcurves, d), -d)[i] == fcurves[i]
    {
      assert ShiftCurve(ShiftCurve(fcurves[i], d), -d).keyframes == fcurves[i].keyframes;
    }
  }

  /** The shifted frames are the old frames plus `d`, one for one. */
  lemma {:induction false} FramesShift(fcurves: seq<FCurve>, d: int)
    ensures |Frames(Shift(fcurves, d))| == |Frames(fcurves)|
    ensures forall j :: 0 <= j < |Frames(fcurves)| ==> Frames(Shift(fcurves, d))[j] == Frames(fcurves)[j] + d
    decreases |fcurves|
  {
    if |fcurves| > 0 {
      var n := |fcurves|;
      assert Shift(fcurves, d)[..n - 1] == Shift(fcurves[..n - 1], d);
      FramesShift(fcurves[..n - 1], d);
    }
  }

  /** An offset moves the reported range by the same amount. */
  lemma ShiftFrameRange(fcurves: seq<FCurve>, d: int, r: (int, int))
    requires |Frames(fcurves)| > 0 && IsFrameRange(Frames(fcurves), r)
    ensures IsFrameRange(Frames(Shift(fcurves, d)), (r.0 + d, r.1 + d))
  {
    FramesShift(fcurves, d);
    RangeOfShifted(Frames(fcurves), Frames(Shift(fcurves, d)), d, r);
  }

  /** Frames moved one for one by `d` have their range moved by `d`. */
  lemma RangeOfShifted(fs: seq<int>, gs: seq<int>, d: int, r: (int, int))
    requires |fs| > 0 && IsFrameRange(fs, r)
    requires |gs| == |fs| && forall j :: 0 <= j < |fs| ==> gs[j] == fs[j] + d
    ensures IsFrameRange(gs, (r.0 + d, r.1 + d))
  {
    var a :| 0 <= a < |fs| && fs[a] == r.0;
    var b :| 0 <= b < |fs| && fs[b] == r.1;
    assert gs[a] == r.0 + d && gs[b] == r.1 + d;
    forall g | g in gs
      ensures r.0 + d <= g <= r.1 + d
    {
      var j :| 0 <= j < |gs| && gs[j] == g;
      assert fs[j] in fs;
    }
  }

  // ---------------------------------------------------------------------
  // Bone names (`_count_animated_bones`, `_get_animated_bone_names`)
  // ---------------------------------------------------------------------

  /** The curve animates a pose bone: its path holds `pose.bones[`. */
  predicate IsBoneCurve(path: string)
  {
    Contains(path, "pose.bones[")
  }

  /** The text from after the first `"` up to the next `"`, with Python's slicing when a quote is missing. */
  function BoneName(path: string): (name: string)
    ensures |name| <= |path|
  {
    var start := Find(path, "\"") + 1;
    var end := FindAfter(path, "\"", start);
    PySlice(path, start, end)
  }

  /** The data path Blender gives a channel of a pose bone. */
  function BonePath(name: string, channel: string): string
  {
    "pose.bones[\"" + name + "\"]." + channel
  }

  /** The name between the quotes of a pose-bone path comes back out. */
  lemma BoneNameOfPath(name: string, channel: string)
    requires '"' !in name
    ensures IsBoneCurve(BonePath(name, channel))
    ensures BoneName(BonePath(name, channel)) == name
  {
    var p := BonePath(name, channel);
    var q := |name|;
    assert OccursAt(p, "pose.bones[", 0);
    assert OccursAt(p, "\"", 11);
    assert p[12..12 + q] == name;
    assert OccursAt(p, "\"", 12 + q);
    forall j | 0 <= j < 11
      ensures !OccursAt(p, "\"", j)
    {
      assert p[j..j + 1][0] == p[j] != '"';
    }
    assert Find(p, "\"") == 11;
    forall j | 12 <= j < 12 + q
      ensures !OccursAt(p, "\"", j)
    {
      assert p[j] == name[j - 12];
      assert p[j..j + 1][0] == p[j];
    }
    assert FindAfter(p, "\"", 12) == 12 + q;
  }

  /** Without any quote the slice runs from the start to the last character, which it leaves out. */
  lemma BoneNameWithoutQuotes(path: string)
    requires '"' !in path && |path| > 0
    ensures BoneName(path) == path[..|path| - 1]
  {
    ContainsChar(path, '"');
    assert Find(path, "\"") == -1;
  }

  /** The set of bone names the F-curves animate. */
  function BoneNames(fcurves: seq<FCurve>): set<string>
  {
    if |fcurves| == 0 then {}
    else
      var c := fcurves[|fcurves| - 1];
      BoneNames(fcurves[..|fcurves| - 1]) + (if IsBoneCurve(c.dataPath) then {BoneName(c.dataPath)} else {})
  }

  /** Some bone curve of `fcurves` carries `name`. */
  ghost predicate Carried(fcurves: seq<FCurve>, name: string)
  {
    exists i :: 0 <= i < |fcurves| && IsBoneCurve(fcurves[i].dataPath) && BoneName(fcurves[i].dataPath) == name
  }

  /** A name is animated exactly when some bone curve carries it. */
  lemma {:induction false} BoneNamesMembers(fcurves: seq<FCurve>, name: string)
    ensures name in BoneNames(fcurves) <==> Carried(fcurves, name)
    decreases |fcurves|
  {
    if |fcurves| > 0 {
      var n := |fcurves|;
      var init := fcurves[..n - 1];
      BoneNamesMembers(init, name);
      var carries := (c: FCurve) => IsBoneCurve(c.dataPath) && BoneName(c.dataPath) == name;
      AnySnoc(fcurves, carries);
      assert Carried(fcurves, name) == Any(fcurves, carries);
      assert Carried(init, name) == Any(init, carries);
    }
  }

  /** Some element of `s` satisfies `p`. */
  ghost predicate Any<T>(s: seq<T>, p: T -> bool)
  {
    exists i :: 0 <= i < |s| && p(s[i])
  }

  /** Some element satisfies `p` exactly when one of the front does or the last one does. */
  lemma AnySnoc<T>(s: seq<T>, p: T -> bool)
    requires |s| > 0
    ensures Any(s, p) <==> Any(s[..|s| - 1], p) || p(s[|s| - 1])
  {
    var init := s[..|s| - 1];
    if Any(init, p) {
      var i :| 0 <= i < |init| && p(init[i]);
      assert s[i] == init[i];
    }
    if Any(s, p) {
      var i :| 0 <= i < |s| && p(s[i]);
      if i < |s| - 1 {
        assert init[i] == s[i];
      }
    }
  }

  /** `_count_animated_bones`: the number of distinct animated bone names. */
  method CountAnimatedBones(fcurves: seq<FCurve>) returns (count: nat)
    ensures count == |BoneNames(fcurves)|
  {
    var names: set<string> := {};
    var i := 0;
    while i < |fcurves|
      invariant 0 <= i <= |fcurves|
      invariant names == BoneNames(fcurves[..i])
    {
      var path := fcurves[i].dataPath;
      if Contains(path, "pose.bones[") {
        names := names + {BoneName(path)};
      }
      assert fcurves[..i + 1][..i] == fcurves[..i];
      i := i + 1;
    }
    assert fcurves[..i] == fcurves;
    count := |names|;
  }

  /** Python's string order: code point by code point, a proper prefix first. */
  predicate Below(a: string, b: string)
    decreases |a|
  {
    if |a| == 0 then |b| > 0
    else if |b| == 0 then false
    else a[0] < b[0] || (a[0] == b[0] && Below(a[1..], b[1..]))
  }

  lemma {:induction false} BelowIrreflexive(a: string)
    ensures !Below(a, a)
    decreases |a|
  {
    if |a| > 0 {
      BelowIrreflexive(a[1..]);
    }
  }

  lemma {:induction false} BelowTransitive(a: string, b: string, c: string)
    requires Below(a, b) && Below(b, c)
    ensures Below(a, c)
    decreases |a|
  {
    if |a| > 0 && a[0] == b[0] && b[0] == c[0] {
      BelowTransitive(a[1..], b[1..], c[1..]);
    }
  }

  lemma {:induction false} BelowTotal(a: string, b: string)
    requires a != b
    ensures Below(a, b) || Below(b, a)
    decreases |a|
  {
    if |a| > 0 && |b| > 0 && a[0] == b[0] {
      assert a == [a[0]] + a[1..] && b == [b[0]] + b[1..];
      BelowTotal(a[1..], b[1..]);
    }
  }

  /** Strictly increasing: sorted, and so without duplicates. */
  predicate StrictlySorted(s: seq<string>)
  {
    forall i, j :: 0 <= i < j < |s| ==> Below(s[i], s[j])
  }

  /** `x` put into its place in a sorted list, unless it is already there. */
  function Insert(x: string, s: seq<string>): (r: seq<string>)
    requires StrictlySorted(s)
    ensures StrictlySorted(r)
    ensures forall y :: y in r <==> y == x || y in s
  {
    if |s| == 0 then [x]
    else if x == s[0] then s
    else if Below(x, s[0]) then
      var r := [x] + s;
      assert StrictlySorted(r) by {
        forall i, j | 0 <= i < j < |r|
          ensures Below(r[i], r[j])
        {
          if i == 0 && j > 1 {
            BelowTransitive(x, s[0], s[j - 1]);
          }
        }
      }
      r
    else
      var rest := Insert(x, s[1..]);
      var r := [s[0]] + rest;
      assert StrictlySorted(r) by {
        BelowTotal(x, s[0]);
        forall i, j | 0 <= i < j < |r|
          ensures Below(r[i], r[j])
        {
          if i == 0 {
            assert rest[j - 1] in rest;
            if rest[j - 1] != x {
              assert rest[j - 1] in s[1..];
              var k :| 0 <= k < |s| - 1 && s[1..][k] == rest[j - 1];
              assert s[k + 1] == rest[j - 1];
            }
          }
        }
      }
      r
  }

  /** `sorted(...)` of the distinct names in `s`. */
  function SortedNames(s: seq<string>): (r: seq<string>)
    ensures StrictlySorted(r)
    ensures forall y :: y in r <==> y in s
  {
    if |s| == 0 then [] else Insert(s[0], SortedNames(s[1..]))
  }

  /** A strictly increasing list has no name twice. */
  lemma StrictlySortedDistinct(s: seq<string>)
    requires StrictlySorted(s)
    ensures Distinct(s)
  {
    forall i, j | 0 <= i < j < |s|
      ensures s[i] != s[j]
    {
      if s[i] == s[j] {
        BelowIrreflexive(s[i]);
      }
    }
  }

  /** `_get_animated_bone_names`: the distinct animated bone names, sorted. */
  method AnimatedBoneNames(fcurves: seq<FCurve>) returns (names: seq<string>)
    ensures StrictlySorted(names)
    ensures forall n :: n in names <==> n in BoneNames(fcurves)
  {
    var found: seq<string> := [];
    var i := 0;
    while i < |fcurves|
      invariant 0 <= i <= |fcurves|
      invariant forall n :: n in found <==> n in BoneNames(fcurves[..i])
    {
      var path := fcurves[i].dataPath;
      if Contains(path, "pose.bones[") {
        found := found + [BoneName(path)];
      }
      assert fcurves[..i + 1][..i] == fcurves[..i];
      i := i + 1;
    }
    assert fcurves[..i] == fcurves;
    names := SortedNames(found);
  }

  /** The count and the list agree: the list holds each animated name once. */
  lemma CountMatchesNames(fcurves: seq<FCurve>, names: seq<string>)
    requires StrictlySorted(names) && forall n :: n in names <==> n in BoneNames(fcurves)
    ensures |names| == |BoneNames(fcurves)|
  {
    StrictlySortedDistinct(names);
    DistinctCard(names);
    assert (set n | n in names) == BoneNames(fcurves);
  }

  // ---------------------------------------------------------------------
  // Channel and bone filters
  // ---------------------------------------------------------------------

  /** `channels_filter.get(key, True)`. */
  function Flag(channels: map<string, bool>, key: string): bool
  {
    if key in channels then channels[key] else true
  }

  /** The curve belongs to a channel group that is switched on. */
  predicate KeepsChannel(channels: map<string, bool>, path: string)
  {
    (Flag(channels, "location") && Contains(path, "location"))
    || (Flag(channels, "rotation") && (Contains(path, "rotation") || Contains(path, "quaternion")))
    || (Flag(channels, "scale") && Contains(path, "scale"))
  }

  function ChannelKeep(channels: map<string, bool>): FCurve -> bool
  {
    (c: FCurve) => KeepsChannel(channels, c.dataPath)
  }

  /** With every group switched off nothing is kept. */
  lemma {:induction false} ChannelsAllOff(fcurves: seq<FCurve>, channels: map<string, bool>)
    requires channels == map["location" := false, "rotation" := false, "scale" := false]
    ensures Filter(fcurves, ChannelKeep(channels)) == []
    decreases |fcurves|
  {
    if |fcurves| > 0 {
      ChannelsAllOff(fcurves[1..], channels);
    }
  }

  /** With only location on, a curve stays exactly when its path mentions location. */
  lemma ChannelsLocationOnly(channels: map<string, bool>, path: string)
    requires channels == map["location" := true, "rotation" := false, "scale" := false]
    ensures KeepsChannel(channels, path) <==> Contains(path, "location")
  {
  }

  /** The curve stays under the selected-bones filter: it is not a bone curve, or its bone is selected. */
  predicate KeepsBone(selected: set<string>, path: string)
  {
    !IsBoneCurve(path) || BoneName(path) in selected
  }

  function BoneKeep(selected: set<string>): FCurve -> bool
  {
    (c: FCurve) => KeepsBone(selected, c.dataPath)
  }

  /** Selecting every animated bone keeps the whole action. */
  lemma SelectingAllBonesKeepsAll(fcurves: seq<FCurve>, selected: set<string>)
    requires BoneNames(fcurves) <= selected
    ensures Filter(fcurves, BoneKeep(selected)) == fcurves
  {
    forall i | 0 <= i < |fcurves|
      ensures BoneKeep(selected)(fcurves[i])
    {
      if IsBoneCurve(fcurves[i].dataPath) {
        BoneNamesMembers(fcurves, BoneName(fcurves[i].dataPath));
      }
    }
    FilterAll(fcurves, BoneKeep(selected));
  }

  /** After the bone filter the action animates only selected bones. */
  lemma {:induction false} BoneFilterAnimatesSelected(fcurves: seq<FCurve>, selected: set<string>)
    ensures BoneNames(Filter(fcurves, BoneKeep(selected))) <= selected
  {
    var kept := Filter(fcurves, BoneKeep(selected));
    forall n | n in BoneNames(kept)
      ensures n in selected
    {
      BoneNamesMembers(kept, n);
      var i :| 0 <= i < |kept| && IsBoneCurve(kept[i].dataPath) && BoneName(kept[i].dataPath) == n;
      assert BoneKeep(selected)(kept[i]);
    }
  }

  /** The action as a mutable object: its F-curve list. */
  class Action {
    var fcurves: seq<FCurve>

    constructor (fcurves: seq<FCurve>)
      ensures this.fcurves == fcurves
    {
      this.fcurves := fcurves;
    }

    /** `_apply_frame_offset`: every keyframe and both handles move by `frameOffset - 1`. */
    method ApplyFrameOffset(frameOffset: int)
      modifies this
      ensures fcurves == Shift(old(fcurves), frameOffset - 1)
    {
      var offset := frameOffset - 1;
      if offset == 0 {
        ShiftZero(fcurves);
        return;
      }
      ghost var original := fcurves;
      var i := 0;
      while i < |fcurves|
        invariant 0 <= i <= |fcurves| && |fcurves| == |original|
        invariant forall j :: 0 <= j < i ==> fcurves[j] == ShiftCurve(original[j], offset)
        invariant forall j :: i <= j < |fcurves| ==> fcurves[j] == original[j]
      {
        var keys := fcurves[i].keyframes;
        var k := 0;
        while k < |keys|
          invariant 0 <= k <= |keys| && |keys| == |original[i].keyframes|
          invariant forall j :: 0 <= j < k ==> keys[j] == ShiftKey(original[i].keyframes[j], offset)
          invariant forall j :: k <= j < |keys| ==> keys[j] == original[i].keyframes[j]
        {
          keys := keys[k := Keyframe(keys[k].co + offset, keys[k].handleLeft + offset, keys[k].handleRight + offset)];
          k := k + 1;
        }
        assert keys == ShiftCurve(original[i], offset).keyframes;
        fcurves := fcurves[i := fcurves[i].(keyframes := keys)];
        i := i + 1;
      }
      assert fcurves == Shift(original, offset);
    }

    /** `_filter_action_channels`: the curves of switched-off channel groups are removed. */
    method FilterChannels(channels: map<string, bool>)
      modifies this
      ensures fcurves == Filter(old(fcurves), ChannelKeep(channels))
    {
      var kept := RemoveUnkept(fcurves, ChannelKeep(channels));
      fcurves := kept;
    }

    /** `_filter_action_to_selected_bones`: without a selection nothing changes; otherwise the curves of unselected bones are removed. */
    method FilterToSelectedBones(selected: set<string>)
      modifies this
      ensures selected == {} ==> fcurves == old(fcurves)
      ensures selected != {} ==> fcurves == Filter(old(fcurves), BoneKeep(selected))
    {
      if selected == {} {
        return;
      }
      var kept := RemoveUnkept(fcurves, BoneKeep(selected));
      fcurves := kept;
    }

    /**
     * The options step of applying a stored action: the frame offset when it
     * is not 1, the channel filter when some group is off, the bone filter
     * when only selected bones are wanted; then the bones and keyframes now
     * animated are counted.
     */
    method ApplyOptions(frameOffset: int, channels: map<string, bool>, selectedOnly: bool, selected: set<string>)
      returns (bonesApplied: nat, keyframesApplied: nat)
      modifies this
      ensures fcurves == OptionsApplied(old(fcurves), frameOffset, channels, selectedOnly, selected)
      ensures bonesApplied == |BoneNames(fcurves)| && keyframesApplied == |Frames(fcurves)|
    {
      if frameOffset != 1 {
        ApplyFrameOffset(frameOffset);
      }
      if !AllOn(channels) {
        FilterChannels(channels);
      }
      if selectedOnly {
        FilterToSelectedBones(selected);
      }
      bonesApplied := CountAnimatedBones(fcurves);
      keyframesApplied := KeyframeCount(fcurves);
    }
  }

  /** `all(channels_filter.values())`. */
  predicate AllOn(channels: map<string, bool>)
  {
    forall k :: k in channels ==> channels[k]
  }

  /** The curves left after the apply options, step by step. */
  function OptionsApplied(fcurves: seq<FCurve>, frameOffset: int, channels: map<string, bool>,
                          selectedOnly: bool, selected: set<string>): seq<FCurve>
  {
    var shifted := if frameOffset != 1 then Shift(fcurves, frameOffset - 1) else fcurves;
    var channelled := if !AllOn(channels) then Filter(shifted, ChannelKeep(channels)) else shifted;
    if selectedOnly && selected != {} then Filter(channelled, BoneKeep(selected)) else channelled
  }

  /** With the default options the action is applied unchanged. */
  lemma DefaultOptionsChangeNothing(fcurves: seq<FCurve>, selected: set<string>)
    ensures OptionsApplied(fcurves, 1, map["location" := true, "rotation" := true, "scale" := true], false, selected) == fcurves
  {
  }

  /** After the options a selected-only application animates no unselected bone. */
  lemma SelectedOnlyAnimatesSelected(fcurves: seq<FCurve>, frameOffset: int, channels: map<string, bool>, selected: set<string>)
    requires selected != {}
    ensures BoneNames(OptionsApplied(fcurves, frameOffset, channels, true, selected)) <= selected
  {
    var shifted := if frameOffset != 1 then Shift(fcurves, frameOffset - 1) else fcurves;
    var channelled := if !AllOn(channels) then Filter(shifted, ChannelKeep(channels)) else shifted;
    BoneFilterAnimatesSelected(channelled, selected);
  }

  /** The curves of `fcurves` that `keep` accepts, in order: the collected removals taken out. */
  method RemoveUnkept(fcurves: seq<FCurve>, keep: FCurve -> bool) returns (kept: seq<FCurve>)
    ensures kept == Filter(fcurves, keep)
  {
    kept := [];
    var i := 0;
    while i < |fcurves|
      invariant 0 <= i <= |fcurves|
      invariant kept == Filter(fcurves[..i], keep)
    {
      FilterSnoc(fcurves[..i], fcurves[i], keep);
      assert fcurves[..i + 1] == fcurves[..i] + [fcurves[i]];
      if keep(fcurves[i]) {
        kept := kept + [fcurves[i]];
      }
      i := i + 1;
    }
    assert fcurves[..i] == fcurves;
  }

  /** `sum(len(fcurve.keyframe_points) for fcurve in action.fcurves)`. */
  method KeyframeCount(fcurves: seq<FCurve>) returns (n: nat)
    ensures n == |Frames(fcurves)|
  {
    n := 0;
    var i := 0;
    while i < |fcurves|
      invariant 0 <= i <= |fcurves|
      invariant n == |Frames(fcurves[..i])|
    {
      assert fcurves[..i + 1][..i] == fcurves[..i];
      n := n + |fcurves[i].keyframes|;
      i := i + 1;
    }
    assert fcurves[..i] == fcurves;
  }

  // ---------------------------------------------------------------------
  // Animation id and extraction statistics
  // ---------------------------------------------------------------------

  /** `.replace(" ", "_").replace("|", "_")`. */
  function Sanitize(s: string): (r: string)
    ensures ' ' !in r && '|' !in r
  {
    ReplaceCharRemoves(s, ' ', "_");
    ReplaceCharRemoves(ReplaceAll(s, " ", "_"), '|', "_");
    ReplaceCharKeepsAbsent(ReplaceAll(s, " ", "_"), '|', "_", ' ');
    ReplaceAll(ReplaceAll(s, " ", "_"), "|", "_")
  }

  /** Replacing one character by another, position by position. */
  lemma {:induction false} ReplaceCharPointwise(s: string, c: char, d: char)
    ensures |ReplaceAll(s, [c], [d])| == |s|
    ensures forall i :: 0 <= i < |s| ==> ReplaceAll(s, [c], [d])[i] == if s[i] == c then d else s[i]
    decreases |s|
  {
    if |s| >= 1 {
      ReplaceCharPointwise(s[1..], c, d);
      assert s[..1] == [c] <==> s[0] == c;
    }
  }

  /** Sanitising turns each space and bar into `_` and keeps every other character in place. */
  lemma SanitizePointwise(s: string)
    ensures |Sanitize(s)| == |s|
    ensures forall i :: 0 <= i < |s| ==> Sanitize(s)[i] == if s[i] == ' ' || s[i] == '|' then '_' else s[i]
  {
    ReplaceCharPointwise(s, ' ', '_');
    ReplaceCharPointwise(ReplaceAll(s, " ", "_"), '|', '_');
  }

  /** An id that is already clean is left as it is. */
  lemma SanitizeIdempotent(s: string)
    ensures Sanitize(Sanitize(s)) == Sanitize(s)
  {
    SanitizePointwise(s);
    SanitizePointwise(Sanitize(s));
  }

  /** `f"{armature_name}_{action_name}_{timestamp}"`, sanitised; the timestamp is the caller's clock reading. */
  function AnimationId(armatureName: string, actionName: string, timestamp: string): (id: string)
    ensures ' ' !in id && '|' !in id
    ensures |id| == |armatureName| + |actionName| + |timestamp| + 2
  {
    SanitizePointwise(armatureName + "_" + actionName + "_" + timestamp);
    Sanitize(armatureName + "_" + actionName + "_" + timestamp)
  }

  /** The statistics an extraction records about the action it stores. */
  datatype Extraction = Extraction(
    animationId: string,
    blendFile: string,
    frameRange: (int, int),
    totalBonesAnimated: nat,
    totalKeyframes: nat,
    animatedBones: seq<string>,
    durationFrames: int)

  /** The id, file name and statistics of `extract_animation_to_blend`, without the file it writes. */
  method Extract(armatureName: string, actionName: string, timestamp: string, fcurves: seq<FCurve>)
    returns (e: Extraction)
    ensures e.animationId == AnimationId(armatureName, actionName, timestamp)
    ensures e.blendFile == e.animationId + ".blend"
    ensures IsFrameRange(Frames(fcurves), e.frameRange)
    ensures e.durationFrames == e.frameRange.1 - e.frameRange.0 + 1 >= 1
    ensures e.totalBonesAnimated == |e.animatedBones| == |BoneNames(fcurves)|
    ensures StrictlySorted(e.animatedBones) && forall n :: n in e.animatedBones <==> n in BoneNames(fcurves)
    ensures e.totalKeyframes == |Frames(fcurves)|
  {
    var id := AnimationId(armatureName, actionName, timestamp);
    var range := FrameRange(fcurves);
    var boneCount := CountAnimatedBones(fcurves);
    var keyframeCount := KeyframeCount(fcurves);
    var bones := AnimatedBoneNames(fcurves);
    CountMatchesNames(fcurves, bones);
    FrameRangeOrdered(Frames(fcurves), range);
    e := Extraction(id, id + ".blend", range, boneCount, keyframeCount, bones, range.1 - range.0 + 1);
  }
}
