/**
 * The mixin that saves the content sections of a sectionable entity (an
 * article, say): one PUT of every section that is new or changed, skipped
 * when an existing entity's sections did not change.
 */
module SectionableApiService {
  import opened Common
  import opened AbstractModel

  /** A section as the mixin sees it: whether it exists in the API, its own
      properties, and the properties changed since it was loaded. */
  datatype Section = Section(existsFlag: bool, attributes: map<string, Value>, changes: map<string, Value>)

  /** A section is sent when it is new or `getChanged()` is not empty. */
  predicate NeedsSaving(s: Section) {
    !s.existsFlag || |PublicAttributes(s.changes, false)| > 0
  }

  /** The request body: `getAttributes()` of each section that needs saving,
      in section order. */
  function SectionsBody(sections: seq<Section>): seq<Value> {
    if |sections| == 0 then []
    else
      var last := sections[|sections| - 1];
      SectionsBody(sections[..|sections| - 1]) + (if NeedsSaving(last) then [Obj(PublicAttributes(last.attributes, false))] else [])
  }

  /** The indices of the sections that need saving, in order. */
  function SavedIndices(sections: seq<Section>): (r: seq<nat>)
    ensures forall j :: 0 <= j < |r| ==> r[j] < |sections| && NeedsSaving(sections[r[j]])
    ensures forall j, k :: 0 <= j < k < |r| ==> r[j] < r[k]
  {
    if |sections| == 0 then []
    else
      var n := |sections| - 1;
      SavedIndices(sections[..n]) + (if NeedsSaving(sections[n]) then [n] else [])
  }

  /** The body is made of the sections that need saving, in order: its j-th
      element is the attributes of the j-th such section. */
  lemma {:induction false} SectionsBodyOrder(sections: seq<Section>)
    ensures |SectionsBody(sections)| == |SavedIndices(sections)|
    ensures forall j :: 0 <= j < |SavedIndices(sections)| ==>
      SectionsBody(sections)[j] == Obj(PublicAttributes(sections[SavedIndices(sections)[j]].attributes, false))
  {
    if |sections| > 0 {
      var n := |sections| - 1;
      var init := sections[..n];
      SectionsBodyOrder(init);
      var body, idx := SectionsBody(init), SavedIndices(init);
      forall j | 0 <= j < |idx|
        ensures sections[idx[j]] == init[idx[j]]
      {
      }
    }
  }

  /** Every section that needs saving is among the saved ones. */
  lemma {:induction false} SavedIndicesComplete(sections: seq<Section>)
    ensures forall i :: 0 <= i < |sections| && NeedsSaving(sections[i]) ==> i in SavedIndices(sections)
  {
    if |sections| > 0 {
      var n := |sections| - 1;
      var init := sections[..n];
      SavedIndicesComplete(init);
      assert forall i :: 0 <= i < n ==> init[i] == sections[i];
    }
  }

  /** `saveEntitySections(entity)`: skipped (false) for an existing entity
      whose changes do not touch `_sections`; otherwise one PUT to the
      entity's endpoint with the sections that need saving. */
  function SaveEntitySections(endpoint: string, exists_: bool, changes: map<string, Value>, sections: seq<Section>): (p: Planned)
    ensures p.Skipped? <==> exists_ && "_sections" !in changes
    ensures p.Skipped? ==> !p.resolved
    ensures p.Sent? ==> p.request == HttpRequest("put", endpoint + "/sections", List(SectionsBody(sections)))
  {
    if exists_ && "_sections" !in changes then Skipped(false)
    else Sent(HttpRequest("put", endpoint + "/sections", List(SectionsBody(sections))))
  }

  lemma {:induction false} NothingToSave(sections: seq<Section>)
    requires forall i :: 0 <= i < |sections| ==> !NeedsSaving(sections[i])
    ensures SectionsBody(sections) == []
  {
    if |sections| > 0 {
      NothingToSave(sections[..|sections| - 1]);
    }
  }

  /** Sections that exist and did not change are not sent. */
  lemma UnchangedSectionsNotSent(endpoint: string, changes: map<string, Value>, sections: seq<Section>)
    requires "_sections" in changes
    requires forall i :: 0 <= i < |sections| ==> sections[i].existsFlag && sections[i].changes == map[]
    ensures SaveEntitySections(endpoint, true, changes, sections) == Sent(HttpRequest("put", endpoint + "/sections", List([])))
  {
    assert PublicAttributes(map[], false) == map[];
    NothingToSave(sections);
  }

  /** `deleteSection(entity, section)`: one DELETE of the section. */
  function DeleteSection(endpoint: string, sectionId: Value): (r: HttpRequest)
    ensures r.verb == "remove" && r.body == Undefined
    ensures r.url == endpoint + "/sections/" + JsToString(sectionId)
  {
    HttpRequest("remove", endpoint + "/sections/" + JsToString(sectionId), Undefined)
  }
}
