/**
 * The dialog that edits one attribute's translations, one per supported
 * region. It opens with a map from region code to the current translation,
 * and on saving hands back the localizations to store: the existing ones
 * with the attribute updated in place, and new ones for regions that had
 * none.
 */
module LocalizableInputDialog {
  import opened Common
  import opened AbstractModel

  /** A localization model: the translations of one entity for one region. */
  class Localization {
    const localizableId: Value
    const localizableType: Value
    const regionCode: string
    var localizations: map<string, Value>

    constructor (localizableId: Value, localizableType: Value, localizations: map<string, Value>, regionCode: string)
      ensures this.localizableId == localizableId && this.localizableType == localizableType
      ensures this.localizations == localizations && this.regionCode == regionCode
    {
      this.localizableId := localizableId;
      this.localizableType := localizableType;
      this.localizations := localizations;
      this.regionCode := regionCode;
    }
  }

  /** `_.find(localizations, {regionCode: code})`: the first localization
      for the region. */
  function Find(locs: seq<Localization>, code: string): (r: Option<nat>)
    ensures r.Some? ==> r.value < |locs| && locs[r.value].regionCode == code
  {
    if |locs| == 0 then None
    else if locs[0].regionCode == code then Some(0)
    else
      match Find(locs[1..], code)
      case None => None
      case Some(j) => Some(j + 1)
  }

  /** `_.find` finds nothing exactly when no localization is for the
      region, and otherwise the first one that is. */
  lemma {:induction false} FindFirst(locs: seq<Localization>, code: string)
    ensures Find(locs, code).None? <==> forall i :: 0 <= i < |locs| ==> locs[i].regionCode != code
    ensures Find(locs, code).Some? ==> forall i :: 0 <= i < Find(locs, code).value ==> locs[i].regionCode != code
  {
    if |locs| > 0 && locs[0].regionCode != code {
      FindFirst(locs[1..], code);
      assert forall i :: 1 <= i < |locs| ==> locs[i] == locs[1..][i - 1];
    }
  }

  /** `getLocalizationValueForRegion(code)`: the first localization's
      translation of the attribute, or null when the region has none. */
  function ValueFor(locs: seq<Localization>, attributeKey: string, code: string): (v: Value)
    reads locs
    ensures (forall i :: 0 <= i < |locs| ==> locs[i].regionCode != code) ==> v == Null
    ensures forall j ::
      (0 <= j < |locs| && locs[j].regionCode == code &&
       forall i :: 0 <= i < j ==> locs[i].regionCode != code) ==>
        v == JsGet(locs[j].localizations, attributeKey)
  {
    FindFirst(locs, code);
    match Find(locs, code)
    case None => Null
    case Some(j) => JsGet(locs[j].localizations, attributeKey)
  }

  /** A plain object as an ordered list of entries. */
  type Entries = seq<(string, Value)>

  predicate HasKey(entries: Entries, key: string) {
    exists i :: 0 <= i < |entries| && entries[i].0 == key
  }

  predicate DistinctKeys(entries: Entries) {
    forall i, j :: 0 <= i < j < |entries| ==> entries[i].0 != entries[j].0
  }

  /** The position of a key. */
  function KeyIndex(entries: Entries, key: string): (r: Option<nat>)
    ensures r.None? <==> !HasKey(entries, key)
    ensures r.Some? ==> r.value < |entries| && entries[r.value].0 == key
  {
    if |entries| == 0 then None
    else if entries[|entries| - 1].0 == key then Some(|entries| - 1)
    else
      var r := KeyIndex(entries[..|entries| - 1], key);
      assert forall i :: 0 <= i < |entries| - 1 ==> entries[i] == entries[..|entries| - 1][i];
      r
  }

  /** `object[key] = v`: an existing key keeps its place, a new one goes last. */
  function Assign(entries: Entries, key: string, v: Value): Entries {
    match KeyIndex(entries, key)
    case Some(i) => entries[i := (key, v)]
    case None => entries + [(key, v)]
  }

  /** The `_.reduce` that builds `localizationMap` over the supported regions. */
  function LocalizationMap(codes: seq<string>, locs: seq<Localization>, attributeKey: string): Entries
    reads locs
  {
    if |codes| == 0 then []
    else
      var code := codes[|codes| - 1];
      Assign(LocalizationMap(codes[..|codes| - 1], locs, attributeKey), code, ValueFor(locs, attributeKey, code))
  }

  /** Assigning replaces the entry with that key in place, or appends one. */
  lemma AssignEntries(entries: Entries, key: string, v: Value)
    requires DistinctKeys(entries)
    ensures var r := Assign(entries, key, v);
      |r| == (if HasKey(entries, key) then |entries| else |entries| + 1) &&
      (forall i :: 0 <= i < |entries| ==> r[i] == if entries[i].0 == key then (key, v) else entries[i]) &&
      (!HasKey(entries, key) ==> r[|entries|] == (key, v))
  {
  }

  /** Assigning keeps keys distinct and adds the key. */
  lemma AssignKeys(entries: Entries, key: string, v: Value)
    requires DistinctKeys(entries)
    ensures var r := Assign(entries, key, v);
      DistinctKeys(r) && forall k :: HasKey(r, k) <==> HasKey(entries, k) || k == key
  {
    var r := Assign(entries, key, v);
    AssignEntries(entries, key, v);
    forall k | HasKey(entries, k)
      ensures HasKey(r, k)
    {
      var j :| 0 <= j < |entries| && entries[j].0 == k;
      assert r[j].0 == k;
    }
    if HasKey(entries, key) {
      var j :| 0 <= j < |entries| && entries[j].0 == key;
      assert r[j].0 == key;
    } else {
      assert r[|entries|].0 == key;
    }
  }

  /** `localizationMap` has exactly one entry per supported region code. */
  lemma {:induction false} LocalizationMapKeys(codes: seq<string>, locs: seq<Localization>, attributeKey: string)
    ensures var r := LocalizationMap(codes, locs, attributeKey);
      DistinctKeys(r) && forall c :: HasKey(r, c) <==> c in codes
  {
    if |codes| > 0 {
      var init := codes[..|codes| - 1];
      var code := codes[|codes| - 1];
      LocalizationMapKeys(init, locs, attributeKey);
      AssignKeys(LocalizationMap(init, locs, attributeKey), code, ValueFor(locs, attributeKey, code));
      assert codes == init + [code];
    }
  }

  /** Each entry of `localizationMap` holds that region's translation. */
  lemma {:induction false} LocalizationMapValues(codes: seq<string>, locs: seq<Localization>, attributeKey: string)
    ensures var r := LocalizationMap(codes, locs, attributeKey);
      forall i :: 0 <= i < |r| ==> r[i].1 == ValueFor(locs, attributeKey, r[i].0)
  {
    if |codes| > 0 {
      var init := codes[..|codes| - 1];
      var code := codes[|codes| - 1];
      LocalizationMapValues(init, locs, attributeKey);
      LocalizationMapKeys(init, locs, attributeKey);
      AssignEntries(LocalizationMap(init, locs, attributeKey), code, ValueFor(locs, attributeKey, code));
    }
  }

  /** `localizationMap` has exactly one entry per supported region code, and
      each entry holds that region's translation (null when it has none). */
  lemma LocalizationMapEntries(codes: seq<string>, locs: seq<Localization>, attributeKey: string)
    ensures var r := LocalizationMap(codes, locs, attributeKey);
      DistinctKeys(r) &&
      (forall c :: HasKey(r, c) <==> c in codes) &&
      (forall i :: 0 <= i < |r| ==> r[i].1 == ValueFor(locs, attributeKey, r[i].0))
  {
    LocalizationMapKeys(codes, locs, attributeKey);
    LocalizationMapValues(codes, locs, attributeKey);
  }

  /** The entries `saveLocalizations` acts on: those whose translation is
      not empty, in order. */
  function Chosen(entries: Entries): Entries {
    if |entries| == 0 then []
    else
      var last := entries[|entries| - 1];
      Chosen(entries[..|entries| - 1]) + (if JsTruthy(last.1) then [last] else [])
  }

  /** The chosen entries are exactly the entries with a non-empty
      translation, and there are no more of them than entries. */
  lemma {:induction false} ChosenMembers(entries: Entries)
    ensures |Chosen(entries)| <= |entries|
    ensures forall x :: x in Chosen(entries) <==> x in entries && JsTruthy(x.1)
  {
    if |entries| > 0 {
      var init := entries[..|entries| - 1];
      ChosenMembers(init);
      assert entries == init + [entries[|entries| - 1]];
    }
  }

  /** The last chosen translation for a region. */
  function Last(chosen: Entries, code: string): Option<Value> {
    if |chosen| == 0 then None
    else if chosen[|chosen| - 1].0 == code then Some(chosen[|chosen| - 1].1)
    else Last(chosen[..|chosen| - 1], code)
  }

  /** The attributes of a localization after the translation is written. */
  function Apply(attributes: map<string, Value>, attributeKey: string, translation: Option<Value>): map<string, Value> {
    if translation.Some? then attributes[attributeKey := translation.value] else attributes
  }

  /** A later write to the attribute replaces an earlier one. */
  lemma ApplyAgain(attributes: map<string, Value>, attributeKey: string, translation: Option<Value>, v: Value)
    ensures Apply(attributes, attributeKey, translation)[attributeKey := v] == attributes[attributeKey := v]
  {
  }

  /** Whether `locs[j]` is the localization `_.find` picks for its region. */
  predicate Picked(locs: seq<Localization>, j: nat)
    requires j < |locs|
  {
    match Find(locs, locs[j].regionCode)
    case None => false
    case Some(f) => locs[f] == locs[j]
  }

  /** The attributes of each localization. */
  function Attributes(locs: seq<Localization>): (r: seq<map<string, Value>>)
    reads locs
    ensures |r| == |locs|
  {
    if |locs| == 0 then [] else [locs[0].localizations] + Attributes(locs[1..])
  }

  /** Each position's attributes. */
  lemma {:induction false} AttributesAt(locs: seq<Localization>)
    ensures forall j :: 0 <= j < |locs| ==> Attributes(locs)[j] == locs[j].localizations
  {
    if |locs| > 0 {
      AttributesAt(locs[1..]);
    }
  }

  /** The attributes after one chosen translation is written: to every
      position holding the localization `_.find` picks for its region, if any. */
  function Written(snap: seq<map<string, Value>>, locs: seq<Localization>, attributeKey: string, entry: (string, Value)): (r: seq<map<string, Value>>)
    requires |snap| == |locs|
    ensures |r| == |locs|
  {
    match Find(locs, entry.0)
    case None => snap
    case Some(f) =>
      seq(|snap|, j requires 0 <= j < |snap| => if locs[j] == locs[f] then snap[j][attributeKey := entry.1] else snap[j])
  }

  /** The attributes after the chosen translations are written, in order. */
  function Saved(before: seq<map<string, Value>>, locs: seq<Localization>, attributeKey: string, chosen: Entries): (r: seq<map<string, Value>>)
    requires |before| == |locs|
    ensures |r| == |locs|
  {
    if |chosen| == 0 then before
    else Written(Saved(before, locs, attributeKey, chosen[..|chosen| - 1]), locs, attributeKey, chosen[|chosen| - 1])
  }

  lemma SavedExtend(before: seq<map<string, Value>>, locs: seq<Localization>, attributeKey: string, chosen: Entries, entry: (string, Value))
    requires |before| == |locs|
    ensures Saved(before, locs, attributeKey, chosen + [entry]) ==
      Written(Saved(before, locs, attributeKey, chosen), locs, attributeKey, entry)
  {
    assert (chosen + [entry])[..|chosen|] == chosen;
  }

  /** After saving, the localization each region picks holds the region's
      last chosen translation under the attribute, its other translations
      kept; every other localization is as before. */
  lemma {:induction false} SavedAt(before: seq<map<string, Value>>, locs: seq<Localization>, attributeKey: string, chosen: Entries)
    requires |before| == |locs|
    ensures forall j :: 0 <= j < |locs| ==>
      Saved(before, locs, attributeKey, chosen)[j] ==
        if Picked(locs, j) then Apply(before[j], attributeKey, Last(chosen, locs[j].regionCode)) else before[j]
  {
    if |chosen| > 0 {
      var init := chosen[..|chosen| - 1];
      var (code, t) := chosen[|chosen| - 1];
      var prev := Saved(before, locs, attributeKey, init);
      SavedAt(before, locs, attributeKey, init);
      FindFirst(locs, code);
      forall j | 0 <= j < |locs|
        ensures Saved(before, locs, attributeKey, chosen)[j] ==
          if Picked(locs, j) then Apply(before[j], attributeKey, Last(chosen, locs[j].regionCode)) else before[j]
      {
        match Find(locs, code)
        case None =>
          assert locs[j].regionCode != code;
        case Some(f) =>
          if locs[j] == locs[f] {
            assert Picked(locs, j);
            ApplyAgain(before[j], attributeKey, Last(init, code), t);
          }
      }
    }
  }

  /** Nothing chosen changes nothing. */
  lemma SavedNothing(before: seq<map<string, Value>>, locs: seq<Localization>, attributeKey: string)
    requires |before| == |locs|
    ensures Saved(before, locs, attributeKey, []) == before
  {
  }

  /** Adding an entry to the object adds it to the chosen ones when its
      translation is not empty. */
  lemma ChosenStep(entries: Entries, i: nat)
    requires i < |entries|
    ensures Chosen(entries[..i + 1]) == Chosen(entries[..i]) + (if JsTruthy(entries[i].1) then [entries[i]] else [])
  {
    assert entries[..i + 1][..i] == entries[..i];
  }

  /** Each chosen entry whose region already has a localization is
      answered with that localization. */
  predicate ReusesExisting(updated: seq<Localization>, locs: seq<Localization>, chosen: Entries) {
    |updated| == |chosen| &&
    forall k :: 0 <= k < |updated| && Find(locs, chosen[k].0).Some? ==>
      updated[k] == locs[Find(locs, chosen[k].0).value]
  }

  lemma ReusesExtend(updated: seq<Localization>, locs: seq<Localization>, chosen: Entries,
                     l: Localization, entry: (string, Value))
    requires ReusesExisting(updated, locs, chosen)
    requires Find(locs, entry.0).Some? ==> l == locs[Find(locs, entry.0).value]
    ensures ReusesExisting(updated + [l], locs, chosen + [entry])
  {
  }

  /** A localization `saveLocalizations` creates for a region that had none:
      only this translation, and a new id. */
  predicate Created(out: Localization, attributeKey: string, uuids: string -> string, entry: (string, Value))
    reads out
  {
    out.regionCode == entry.0 && out.localizableId == Str(uuids(entry.0)) && out.localizableType == Null &&
    out.localizations == map[attributeKey := entry.1]
  }

  class Dialog {
    const localizations: seq<Localization>
    const attributeKey: string
    var localizationMap: Entries

    /** The constructor's map: one entry per supported region. */
    constructor (localizations: seq<Localization>, attributeKey: string, supportedRegions: seq<string>)
      ensures this.localizations == localizations && this.attributeKey == attributeKey
      ensures localizationMap == LocalizationMap(supportedRegions, localizations, attributeKey)
    {
      this.localizations := localizations;
      this.attributeKey := attributeKey;
      localizationMap := LocalizationMap(supportedRegions, localizations, attributeKey);
    }

    /** `saveLocalizations()`: one localization per non-empty translation,
        in the map's order. A region with a localization gets that one, its
        attribute overwritten in place and its other translations kept. A
        region without one gets a new localization holding only this
        translation, with a new id (the id generator is `uuids`). No other
        localization changes. */
    method SaveLocalizations(uuids: string -> string) returns (updated: seq<Localization>)
      modifies set l | l in localizations
      ensures |updated| == |Chosen(localizationMap)|
      ensures forall k :: 0 <= k < |updated| && Find(localizations, Chosen(localizationMap)[k].0).Some? ==>
        updated[k] == localizations[Find(localizations, Chosen(localizationMap)[k].0).value]
      ensures forall k :: 0 <= k < |updated| && Find(localizations, Chosen(localizationMap)[k].0).None? ==>
        fresh(updated[k]) && Created(updated[k], attributeKey, uuids, Chosen(localizationMap)[k])
      ensures Attributes(localizations) == Saved(old(Attributes(localizations)), localizations, attributeKey, Chosen(localizationMap))
    {
      var entries := localizationMap;
      ghost var before := Attributes(localizations);
      ghost var chosen: Entries := [];
      updated := [];
      SavedNothing(before, localizations, attributeKey);
      for i := 0 to |entries|
        invariant chosen == Chosen(entries[..i])
        invariant ReusesExisting(updated, localizations, chosen)
        invariant forall k :: 0 <= k < |updated| && Find(localizations, chosen[k].0).None? ==> fresh(updated[k])
        invariant forall k :: 0 <= k < |updated| && Find(localizations, chosen[k].0).None? ==>
          Created(updated[k], attributeKey, uuids, chosen[k])
        invariant Attributes(localizations) == Saved(before, localizations, attributeKey, chosen)
      {
        var (code, translation) := entries[i];
        ChosenStep(entries, i);
        if JsTruthy(translation) {
          var l := SaveEntry(code, translation, uuids, before, chosen);
          ReusesExtend(updated, localizations, chosen, l, (code, translation));
          forall k | 0 <= k < |updated| && Find(localizations, chosen[k].0).None?
            ensures Created(updated[k], attributeKey, uuids, chosen[k])
          {
            assert updated[k] !in localizations;
          }
          updated := updated + [l];
          chosen := chosen + [(code, translation)];
        }
      }
      assert entries[..|entries|] == entries;
    }

    /** One non-empty translation: the localization it lands in. */
    method SaveEntry(code: string, translation: Value, uuids: string -> string,
                     ghost before: seq<map<string, Value>>, ghost chosen: Entries)
      returns (l: Localization)
      requires |before| == |localizations|
      requires Attributes(localizations) == Saved(before, localizations, attributeKey, chosen)
      modifies set l | l in localizations
      ensures Find(localizations, code).Some? ==> l == localizations[Find(localizations, code).value]
      ensures Find(localizations, code).None? ==> fresh(l) && Created(l, attributeKey, uuids, (code, translation))
      ensures Attributes(localizations) == Saved(before, localizations, attributeKey, chosen + [(code, translation)])
    {
      var existing := Find(localizations, code);
      SavedExtend(before, localizations, attributeKey, chosen, (code, translation));
      if existing.Some? {
        var f := existing.value;
        l := localizations[f];
        ghost var current := Attributes(localizations);
        AttributesAt(localizations);
        l.localizations := l.localizations[attributeKey := translation];
        AttributesAt(localizations);
        assert Attributes(localizations) == Written(current, localizations, attributeKey, (code, translation));
      } else {
        l := new Localization(Str(uuids(code)), Null, map[attributeKey := translation], code);
      }
    }
  }
}
