// The desktop side of an "apply animation" request: the animation record is
// normalised so that every field the Blender side reads is present, the
// apply options are flattened into a plain dictionary, and nothing is sent
// without a connection.

module BlenderConnection {
  import opened Text
  import opened Collections
  import opened Json
  import opened AnimationData

  // ---------------------------------------------------------------------
  // Filling required fields
  // ---------------------------------------------------------------------

  /** The required fields with their defaults, in the order they are filled; "action_name" has no fixed default. */
  const RequiredFields: seq<(string, Value)> := [
    ("id", Str("unknown_id")),
    ("name", Str("Unknown Animation")),
    ("action_name", Null),
    ("armature_source", Str("Unknown Armature")),
    ("frame_range", Arr([Int(1), Int(30)])),
    ("total_bones_animated", Int(0)),
    ("total_keyframes", Int(0)),
    ("storage_method", Str("blend_file")),
    ("created_date", Str("")),
    ("rig_type", Str("Unknown"))
  ]

  /** `fields.get(key, default)` on the fields of a record. */
  function FieldOr(fields: map<string, Value>, key: string, default: Value): Value
  {
    if key in fields then fields[key] else default
  }

  /** `normalized.get('name', 'Unknown Animation')`. */
  function NameIn(fields: map<string, Value>): Value
  {
    FieldOr(fields, "name", Str("Unknown Animation"))
  }

  /** The record stores its animation in a blend file, once defaults are filled. */
  predicate StoresBlendFile(given: map<string, Value>)
  {
    FieldOr(given, "storage_method", Str("blend_file")) == Str("blend_file")
  }

  /** The action name the normalised record carries: the record's own if truthy, else its name. */
  function ActionNameOf(given: map<string, Value>): Value
  {
    var action := FieldOr(given, "action_name", NameIn(given));
    if Truthy(action) then action else NameIn(given)
  }

  /** The names of a field table. */
  function FieldNames(fields: seq<(string, Value)>): set<string>
  {
    set j | 0 <= j < |fields| :: fields[j].0
  }

  /** The blend-file fields are not among the required ones. */
  lemma BlendFieldsNotRequired()
    ensures "blend_file" !in FieldNames(RequiredFields) && "blend_action_name" !in FieldNames(RequiredFields)
  {
    forall j | 0 <= j < |RequiredFields|
      ensures RequiredFields[j].0 != "blend_file" && RequiredFields[j].0 != "blend_action_name"
    {
    }
  }

  /**
   * `normalized` holds the fields of the record `given` normalised: every
   * required field is present, and for blend-file storage also "blend_file"
   * and "blend_action_name", and no other field is added; fields the record
   * has keep their values, except a falsy "action_name", which becomes the
   * name; a missing field takes its default, a missing "action_name" the
   * name, a missing "blend_file" the id with ".blend" and a missing
   * "blend_action_name" the action name.
   */
  ghost predicate IsNormalized(given: map<string, Value>, normalized: map<string, Value>)
  {
    normalized.Keys == given.Keys + FieldNames(RequiredFields) +
      (if StoresBlendFile(given) then {"blend_file", "blend_action_name"} else {}) &&
    (forall k :: k in given && k != "action_name" ==> k in normalized && normalized[k] == given[k]) &&
    "action_name" in normalized && normalized["action_name"] == ActionNameOf(given) &&
    (forall j :: 0 <= j < |RequiredFields| && RequiredFields[j].0 != "action_name" &&
                 RequiredFields[j].0 !in given ==>
      RequiredFields[j].0 in normalized && normalized[RequiredFields[j].0] == RequiredFields[j].1) &&
    (StoresBlendFile(given) && "blend_file" !in given ==>
      "blend_file" in normalized &&
      normalized["blend_file"] == Str(Display(FieldOr(given, "id", Str("unknown_id"))) + ".blend")) &&
    (StoresBlendFile(given) && "blend_action_name" !in given ==>
      "blend_action_name" in normalized && normalized["blend_action_name"] == ActionNameOf(given))
  }

  /** The normalised fields are determined by the record: `IsNormalized` leaves nothing open. */
  lemma NormalizedUnique(given: map<string, Value>, n1: map<string, Value>, n2: map<string, Value>)
    requires IsNormalized(given, n1) && IsNormalized(given, n2)
    ensures n1 == n2
  {
    forall k | k in n1
      ensures n1[k] == n2[k]
    {
      if k !in given && k in FieldNames(RequiredFields) && k != "action_name" {
        var j :| 0 <= j < |RequiredFields| && RequiredFields[j].0 == k;
      }
    }
  }

  /** Normalising a normalised record changes nothing. */
  lemma {:induction false} NormalizeIdempotent(given: map<string, Value>, once: map<string, Value>,
                                               twice: map<string, Value>)
    requires IsNormalized(given, once) && IsNormalized(once, twice)
    ensures twice == once
  {
    NormalizedKeepsName(given, once);
    BlendFieldsNotRequired();
    forall k | k in once
      ensures k in twice && twice[k] == once[k]
    {
    }
  }

  /** A normalised record has the name, the storage and, as its own, the action name normalisation gave it. */
  lemma NormalizedKeepsName(given: map<string, Value>, once: map<string, Value>)
    requires IsNormalized(given, once)
    ensures NameIn(once) == NameIn(given)
    ensures StoresBlendFile(once) == StoresBlendFile(given)
    ensures ActionNameOf(once) == once["action_name"]
  {
    BlendFieldsNotRequired();
    assert RequiredFields[1].0 == "name" && RequiredFields[7].0 == "storage_method";
    assert NameIn(once) == NameIn(given);
    assert StoresBlendFile(once) == StoresBlendFile(given);
  }

  /** A record with a truthy name leaves normalisation with a truthy action name. */
  lemma ActionNameTruthy(given: map<string, Value>, normalized: map<string, Value>)
    requires IsNormalized(given, normalized) && Truthy(NameIn(given))
    ensures Truthy(normalized["action_name"])
  {
  }

  /** An empty record normalises to the defaults, with "unknown_id.blend" as its blend file. */
  lemma NormalizeEmpty(normalized: map<string, Value>)
    requires IsNormalized(map[], normalized)
    ensures "id" in normalized && normalized["id"] == Str("unknown_id")
    ensures "action_name" in normalized && normalized["action_name"] == Str("Unknown Animation")
    ensures "blend_file" in normalized && normalized["blend_file"] == Str("unknown_id.blend")
    ensures "blend_action_name" in normalized && normalized["blend_action_name"] == Str("Unknown Animation")
  {
    assert RequiredFields[0] == ("id", Str("unknown_id"));
    assert StoresBlendFile(map[]);
    assert "unknown_id" + ".blend" == "unknown_id.blend";
  }

  /** `_normalize_animation_data`, on a copy of the caller's record. */
  method NormalizeAnimationData(animationData: Dict<Value>) returns (normalized: Dict<Value>)
    ensures IsNormalized(animationData.items, normalized.items)
  {
    var filled := FillRequired(animationData);
    normalized := filled;
    if !Truthy(LookupOr(normalized, "action_name", Null)) {
      normalized := Put(normalized, "action_name", LookupOr(normalized, "name", Str("Unknown Animation")));
    }
    ghost var fixed := normalized.items;
    assert fixed == filled.items["action_name" := ActionNameOf(animationData.items)];
    if Lookup(normalized, "storage_method") == Some(Str("blend_file")) {
      normalized := AddBlendFields(normalized);
    }
    NormalizedOfSteps(animationData.items, filled.items, fixed, normalized.items);
  }

  /**
   * The blend-file fields of a record stored in a blend file: a missing
   * "blend_file" is the id (or "unknown") with ".blend", a missing
   * "blend_action_name" the action name; the other fields are kept.
   */
  method AddBlendFields(record: Dict<Value>) returns (r: Dict<Value>)
    requires "action_name" in record.items
    ensures r.items.Keys == record.items.Keys + {"blend_file", "blend_action_name"}
    ensures forall k :: k in record.items ==> k in r.items && r.items[k] == record.items[k]
    ensures "blend_file" !in record.items ==>
      r.items["blend_file"] == Str(Display(LookupOr(record, "id", Str("unknown"))) + ".blend")
    ensures "blend_action_name" !in record.items ==> r.items["blend_action_name"] == record.items["action_name"]
  {
    r := record;
    if "blend_file" !in r.items {
      r := Put(r, "blend_file", Str(Display(LookupOr(r, "id", Str("unknown"))) + ".blend"));
    }
    if "blend_action_name" !in r.items {
      r := Put(r, "blend_action_name", r.items["action_name"]);
    }
  }

  /** The last two steps of the normalisation, on a filled record, yield a normalised one. */
  lemma NormalizedOfSteps(given: map<string, Value>, filled: map<string, Value>, fixed: map<string, Value>,
                          normalized: map<string, Value>)
    requires IsFilled(given, RequiredFields, filled) && "action_name" in filled
    requires fixed == filled["action_name" := ActionNameOf(given)]
    requires normalized.Keys == fixed.Keys + (if StoresBlendFile(given) then {"blend_file", "blend_action_name"} else {})
    requires forall k :: k in fixed ==> k in normalized && normalized[k] == fixed[k]
    requires "blend_file" !in fixed && "blend_file" in normalized ==>
      normalized["blend_file"] == Str(Display(FieldOr(given, "id", Str("unknown_id"))) + ".blend")
    requires "blend_action_name" !in fixed && "blend_action_name" in normalized ==>
      normalized["blend_action_name"] == ActionNameOf(given)
    ensures IsNormalized(given, normalized)
  {
    BlendFieldsNotRequired();
    forall j | 0 <= j < |RequiredFields| && RequiredFields[j].0 != "action_name" && RequiredFields[j].0 !in given
      ensures RequiredFields[j].0 in normalized && normalized[RequiredFields[j].0] == RequiredFields[j].1
    {
      var (k, default) := RequiredFields[j];
      assert k in filled && filled[k] == default;
      assert k in fixed && fixed[k] == default;
    }
  }

  /** The loop over the required fields: a missing field takes its default, a missing "action_name" the name. */
  method FillRequired(animationData: Dict<Value>) returns (filled: Dict<Value>)
    ensures IsFilled(animationData.items, RequiredFields, filled.items) && "action_name" in filled.items
    ensures "id" in filled.items && filled.items["id"] == FieldOr(animationData.items, "id", Str("unknown_id"))
    ensures "storage_method" in filled.items &&
            filled.items["storage_method"] == FieldOr(animationData.items, "storage_method", Str("blend_file"))
  {
    filled := FillFields(animationData, RequiredFields);
    assert RequiredFields[0].0 == "id" && RequiredFields[2].0 == "action_name" && RequiredFields[7].0 == "storage_method";
  }

  /**
   * `items` holds the record `given` with the table `fields` filled in: the
   * table's fields are added and no other; fields the record has keep their
   * values; a missing field takes its default, and a missing "action_name"
   * the record's name; the name itself is unchanged.
   */
  ghost predicate IsFilled(given: map<string, Value>, fields: seq<(string, Value)>, items: map<string, Value>)
  {
    items.Keys == given.Keys + FieldNames(fields) &&
    (forall k :: k in given ==> k in items && items[k] == given[k]) &&
    DefaultsFilled(given, fields, items) &&
    NameIn(items) == NameIn(given) &&
    ("action_name" in items && "action_name" !in given ==> items["action_name"] == NameIn(given))
  }

  /** Every field of the table other than "action_name" that the record lacks holds its default. */
  ghost predicate DefaultsFilled(given: map<string, Value>, fields: seq<(string, Value)>, items: map<string, Value>)
  {
    forall j :: 0 <= j < |fields| && fields[j].0 != "action_name" && fields[j].0 !in given ==>
      fields[j].0 in items && items[fields[j].0] == fields[j].1
  }

  /**
   * The loop over any table of distinct fields whose "name" entry, if any,
   * defaults to "Unknown Animation".
   */
  method FillFields(animationData: Dict<Value>, fields: seq<(string, Value)>) returns (filled: Dict<Value>)
    requires forall j :: 0 <= j < |fields| ==> fields[j].0 !in FieldNames(fields[..j])
    requires forall j :: 0 <= j < |fields| && fields[j].0 == "name" ==> fields[j].1 == Str("Unknown Animation")
    ensures IsFilled(animationData.items, fields, filled.items)
  {
    var keys, items := animationData.keys, animationData.items;
    var i := 0;
    assert fields[..0] == [];
    while i < |fields|
      invariant 0 <= i <= |fields|
      invariant WellKeyed(RawDict(keys, items))
      invariant IsFilled(animationData.items, fields[..i], items)
    {
      var (field, default) := fields[i];
      ghost var before := items;
      if field !in items {
        var value := if field == "action_name" then NameIn(items) else default;
        DistinctSnoc(keys, field);
        keys, items := keys + [field], items[field := value];
      }
      FillStep(animationData.items, fields, i, before, items);
      i := i + 1;
    }
    assert fields[..i] == fields;
    filled := RawDict(keys, items);
  }

  /** One turn of the loop keeps its invariant. */
  lemma FillStep(given: map<string, Value>, fields: seq<(string, Value)>, i: nat,
                 before: map<string, Value>, items: map<string, Value>)
    requires i < |fields|
    requires fields[i].0 !in FieldNames(fields[..i])
    requires fields[i].0 == "name" ==> fields[i].1 == Str("Unknown Animation")
    requires IsFilled(given, fields[..i], before)
    requires items == if fields[i].0 in before then before
      else before[fields[i].0 := if fields[i].0 == "action_name" then NameIn(before) else fields[i].1]
    ensures IsFilled(given, fields[..i + 1], items)
  {
    var field := fields[i].0;
    assert fields[..i + 1] == fields[..i] + [fields[i]];
    FieldNamesSnoc(fields[..i], fields[i]);
    if field in before {
      DefaultsStep(given, fields, i, before, items);
    } else {
      assert field !in given;
      assert forall k :: k in before ==> k in items && items[k] == before[k];
      DefaultsStep(given, fields, i, before, items);
      assert items.Keys == before.Keys + {field};
      NameKept(given, before, field, items[field]);
    }
  }

  /** Adding a missing field keeps the record's name, and a missing "action_name" takes it. */
  lemma NameKept(given: map<string, Value>, before: map<string, Value>, field: string, value: Value)
    requires field !in before && given.Keys <= before.Keys
    requires NameIn(before) == NameIn(given)
    requires field == "name" ==> value == Str("Unknown Animation")
    ensures NameIn(before[field := value]) == NameIn(given)
  {
  }

  /** One turn of the loop adds the current field's default when the record lacks it. */
  lemma DefaultsStep(given: map<string, Value>, fields: seq<(string, Value)>, i: nat,
                     before: map<string, Value>, items: map<string, Value>)
    requires i < |fields|
    requires DefaultsFilled(given, fields[..i], before)
    requires forall k :: k in before ==> k in items && items[k] == before[k]
    requires fields[i].0 != "action_name" && fields[i].0 !in given ==> fields[i].0 in items && items[fields[i].0] == fields[i].1
    ensures DefaultsFilled(given, fields[..i + 1], items)
  {
    var front, ext := fields[..i], fields[..i + 1];
    forall j | 0 <= j < i + 1 && ext[j].0 != "action_name" && ext[j].0 !in given
      ensures ext[j].0 in items && items[ext[j].0] == ext[j].1
    {
      if j < i {
        assert ext[j] == front[j];
      }
    }
  }

  /** Appending a field to a table adds its name. */
  lemma FieldNamesSnoc(fields: seq<(string, Value)>, field: (string, Value))
    ensures FieldNames(fields + [field]) == FieldNames(fields) + {field.0}
  {
    var extended := fields + [field];
    assert extended[|fields|] == field;
    forall name | name in FieldNames(fields)
      ensures name in FieldNames(extended)
    {
      var j :| 0 <= j < |fields| && fields[j].0 == name;
      assert extended[j] == fields[j];
    }
  }

  // ---------------------------------------------------------------------
  // The apply request
  // ---------------------------------------------------------------------

  /** A dictionary of flags as JSON. */
  function BoolObject(d: Dict<bool>): (r: Dict<Value>)
    ensures r.keys == d.keys
    ensures forall k :: k in d.items ==> k in r.items && r.items[k] == Bool(d.items[k])
  {
    var r := RawDict(d.keys, map k | k in d.items :: Bool(d.items[k]));
    assert WellKeyed(r);
    r
  }

  /** A dictionary of names as JSON. */
  function StringObject(d: Dict<string>): (r: Dict<Value>)
    ensures r.keys == d.keys
    ensures forall k :: k in d.items ==> k in r.items && r.items[k] == Str(d.items[k])
  {
    var r := RawDict(d.keys, map k | k in d.items :: Str(d.items[k]));
    assert WellKeyed(r);
    r
  }

  /** The `apply_data` dictionary: selection, offset, channels and mapping of the options. */
  function ApplyData(options: ApplyOptions): (r: Dict<Value>)
    ensures r.keys == ["selected_only", "frame_offset", "channels", "bone_mapping"]
    ensures r.items == map["selected_only" := Bool(options.selectedBonesOnly), "frame_offset" := Int(options.frameOffset),
      "channels" := Obj(BoolObject(options.channels)), "bone_mapping" := Obj(StringObject(options.boneMapping))]
  {
    var r := RawDict(["selected_only", "frame_offset", "channels", "bone_mapping"],
      map["selected_only" := Bool(options.selectedBonesOnly), "frame_offset" := Int(options.frameOffset),
        "channels" := Obj(BoolObject(options.channels)), "bone_mapping" := Obj(StringObject(options.boneMapping))]);
    assert WellKeyed(r);
    r
  }

  /**
   * `apply_animation`: without a connection nothing is sent and the answer
   * is false; otherwise the normalised record and the options go to the
   * connection, whose answer is returned.
   */
  method ApplyAnimation(connected: bool, animationData: Dict<Value>, options: ApplyOptions,
                        send: (Dict<Value>, Dict<Value>) -> bool) returns (r: bool)
    ensures !connected ==> !r
    ensures connected ==>
      exists normalized: Dict<Value> ::
        IsNormalized(animationData.items, normalized.items) && r == send(normalized, ApplyData(options))
  {
    if !connected {
      return false;
    }
    var normalized := NormalizeAnimationData(animationData);
    r := send(normalized, ApplyData(options));
  }
}
