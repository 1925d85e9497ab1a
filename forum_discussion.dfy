/**
 * The forum's discussion lookup by foreign id: the id must look like a UUID
 * (section 3 of RFC 4122, lower-case hexadecimal, no braces), anything else
 * is looked up as 0; a discussion that is not found is a 404.
 */
module ForumDiscussion {
  import opened Common
  import opened SpiraValidator

  /** `isValidUuid` with the pattern's anchors read as "start and end of the
      string". */
  predicate IsForumUuid(s: string) {
    UuidShape(s, IsLowerHex)
  }

  /** `preg_match('/^…$/')` as written: `$` also matches before a final
      line feed. */
  predicate IsForumUuidAsWritten(s: string) {
    IsForumUuid(s) || (|s| > 0 && s[|s| - 1] == '\n' && IsForumUuid(s[..|s| - 1]))
  }

  lemma ForumUuidAcceptsTrailingNewline()
    ensures IsForumUuidAsWritten(NilUuid + "\n")
    ensures !IsForumUuid(NilUuid + "\n")
  {
    NilUuidShape(IsLowerHex);
    assert (NilUuid + "\n")[..36] == NilUuid;
  }

  /** The forum's check is the stricter one: every id it accepts passes the
      API's `uuid` rule as well. */
  lemma ForumUuidIsSpiraUuid(s: string)
    requires IsForumUuid(s)
    ensures IsSpiraUuid(s)
  {
    assert s[0] != '{' && s[35] != '}';
    assert s[0..36] == s;
  }

  /** `z0000000-0000-0000-0000-000000000000`: the nil id with a `z` first. */
  const ZUuid: string := ['z'] + NilUuid[1..]

  /** Changing the first character to another of the class keeps the shape. */
  lemma FirstReplaced(t: string, c: char, cls: char -> bool)
    requires UuidShape(t, cls) && cls(c)
    ensures UuidShape([c] + t[1..], cls)
  {
    var s := [c] + t[1..];
    forall i | 0 <= i < 36
      ensures if IsHyphenPos(i) then s[i] == '-' else cls(s[i])
    {
      if i > 0 {
        assert s[i] == t[i];
      }
    }
  }

  /** ... and strictly so: a `z` passes the API's rule, not the forum's. */
  lemma ForumStricterThanSpira()
    ensures IsSpiraUuid(ZUuid)
    ensures !IsForumUuid(ZUuid)
  {
    NilUuidShape(IsLowerAlnum);
    FirstReplaced(NilUuid, 'z', IsLowerAlnum);
    assert ZUuid[35] == NilUuid[35] == '0';
    assert ZUuid[0..36] == ZUuid;
  }

  /** The forum's id check, corrected to end at the end of the string. */
  function IsValidUuid(id: string): (ok: bool)
    ensures ok ==> |id| == 36 && IsSpiraUuid(id)
    ensures (|id| == 0 || id[|id| - 1] != '\n') ==> (ok <==> IsForumUuidAsWritten(id))
    ensures ok <==> exists g1, g2, g3, g4, g5 :: GroupsOk(g1, g2, g3, g4, g5, IsLowerHex) && id == Hyphenated(g1, g2, g3, g4, g5)
  {
    if IsForumUuid(id) then
      ForumUuidIsSpiraUuid(id);
      GroupsOfShape(id, IsLowerHex);
      true
    else
      NoGroupsWithoutShape(id);
      false
  }

  lemma NoGroupsWithoutShape(id: string)
    requires !IsForumUuid(id)
    ensures !exists g1, g2, g3, g4, g5 :: GroupsOk(g1, g2, g3, g4, g5, IsLowerHex) && id == Hyphenated(g1, g2, g3, g4, g5)
  {
    forall g1, g2, g3, g4, g5 | GroupsOk(g1, g2, g3, g4, g5, IsLowerHex)
      ensures id != Hyphenated(g1, g2, g3, g4, g5)
    {
      ShapeOfGroups(g1, g2, g3, g4, g5, IsLowerHex);
    }
  }

  /** The id the forum looks up: the given one when valid, else 0. */
  datatype ForeignId = Uuid(text: string) | Zero

  function LookupId(id: string): (r: ForeignId)
    ensures r.Uuid? <==> IsValidUuid(id)
    ensures r.Uuid? ==> r.text == id
  {
    if IsValidUuid(id) then Uuid(id) else Zero
  }

  datatype Discussion = Discussion(discussionId: int)

  /** What `getByForeignId` renders: the discussion's index page. */
  datatype DiscussionPage = DiscussionPage(discussionId: int, page: string)

  datatype NotFoundError = DiscussionNotFound

  /** `getByForeignId(foreignId, page)`. A discussion already in the
      controller's data is used as is; otherwise the one with the looked-up
      id. `preset` is Some(d) when the data holds `Discussion`, d being None
      when the value held is not an object. */
  function GetByForeignId(foreignId: string, page: string, preset: Option<Option<Discussion>>,
                          getForeignId: ForeignId -> Option<Discussion>): (r: Result<DiscussionPage, NotFoundError>)
    ensures preset.None? && !IsValidUuid(foreignId) ==>
      r == (if getForeignId(Zero).Some? then Ok(DiscussionPage(getForeignId(Zero).value.discussionId, page))
            else Err(DiscussionNotFound))
    ensures preset.None? && IsValidUuid(foreignId) && getForeignId(Uuid(foreignId)).None? ==> r == Err(DiscussionNotFound)
    ensures preset.Some? ==> (r.Ok? <==> preset.value.Some?)
    ensures r.Ok? ==> r.value.page == page
  {
    var d := if preset.Some? then preset.value else getForeignId(LookupId(foreignId));
    if d.Some? then Ok(DiscussionPage(d.value.discussionId, page)) else Err(DiscussionNotFound)
  }
}
