/**
 * The dashboard's list state: the conversation list, the tag list and the selected tag filter, and
 * how the select / create-tag / delete-tag handlers update them, including their rollbacks.
 */
module DashboardPage {
  import opened Wrappers
  import opened Lists
  import opened Types

  datatype State = State(conversations: seq<Conversation>, tags: seq<Tag>, selectedTagId: Option<string>)

  predicate HasConversation(list: seq<Conversation>, id: string) {
    exists i :: 0 <= i < |list| && list[i].id == id
  }

  /** `replaceConversation`: replace in place when the id is listed, otherwise prepend. */
  function ReplaceConversation(list: seq<Conversation>, updated: Conversation): seq<Conversation> {
    if !HasConversation(list, updated.id) then [updated] + list
    else seq(|list|, i requires 0 <= i < |list| => if list[i].id == updated.id then updated else list[i])
  }

  /** `handleSelect`: a conversation with unread messages is replaced by a copy with no unread messages. */
  function Select(list: seq<Conversation>, conv: Conversation): seq<Conversation> {
    if conv.unreadCount > 0 then ReplaceConversation(list, conv.(unreadCount := 0)) else list
  }

  lemma ReplaceAbsentPrepends(list: seq<Conversation>, updated: Conversation)
    requires forall i :: 0 <= i < |list| ==> list[i].id != updated.id
    ensures ReplaceConversation(list, updated) == [updated] + list
    ensures |ReplaceConversation(list, updated)| == |list| + 1
  {
  }

  lemma ReplacePresentInPlace(list: seq<Conversation>, updated: Conversation, k: nat)
    requires k < |list| && list[k].id == updated.id
    ensures |ReplaceConversation(list, updated)| == |list|
    ensures forall i :: 0 <= i < |list| && list[i].id == updated.id ==> ReplaceConversation(list, updated)[i] == updated
    ensures forall i :: 0 <= i < |list| && list[i].id != updated.id ==> ReplaceConversation(list, updated)[i] == list[i]
  {
  }

  /** Selecting resets the unread count to 0 only when it was positive. */
  lemma SelectResetsUnread(list: seq<Conversation>, conv: Conversation, k: nat)
    requires k < |list| && list[k].id == conv.id
    ensures conv.unreadCount > 0 ==> Select(list, conv)[k] == conv.(unreadCount := 0)
    ensures conv.unreadCount <= 0 ==> Select(list, conv) == list
    ensures |Select(list, conv)| == |list|
  {
  }

  // ---------------------------------------------------------------------------------------------
  // Deleting a tag

  function WithoutTag(tags: seq<Tag>, tagId: string): seq<Tag> {
    Filter(tags, NotTag(tagId))
  }

  function NotTag(tagId: string): Tag -> bool {
    (t: Tag) => t.id != tagId
  }

  /** The optimistic state after deleting a tag: gone from the tag list and from every conversation. */
  function RemoveTag(s: State, tagId: string): State {
    State(
      seq(|s.conversations|, i requires 0 <= i < |s.conversations| =>
        s.conversations[i].(tags := WithoutTag(s.conversations[i].tags, tagId))),
      WithoutTag(s.tags, tagId),
      if s.selectedTagId == Some(tagId) then None else s.selectedTagId)
  }

  /** `handleDeleteTag`: the optimistic removal, then on failure the two list snapshots are written back. */
  function DeleteTag(s: State, tagId: string, deleted: bool): State {
    var optimistic := RemoveTag(s, tagId);
    if deleted then optimistic else optimistic.(conversations := s.conversations, tags := s.tags)
  }

  /** A successful delete removes the tag everywhere and keeps every other tag, in order. */
  lemma DeleteRemovesEverywhere(s: State, tagId: string)
    ensures var r := DeleteTag(s, tagId, true);
      (forall t :: t in r.tags <==> t in s.tags && t.id != tagId)
      && |r.conversations| == |s.conversations|
      && (forall i :: 0 <= i < |s.conversations| ==>
            r.conversations[i] == s.conversations[i].(tags := r.conversations[i].tags)
            && (forall t :: t in r.conversations[i].tags <==> t in s.conversations[i].tags && t.id != tagId)
            && IsSubsequence(r.conversations[i].tags, s.conversations[i].tags))
      && IsSubsequence(r.tags, s.tags)
  {
    var r := DeleteTag(s, tagId, true);
    FilterMembers(s.tags, NotTag(tagId));
    FilterIsSubsequence(s.tags, NotTag(tagId));
    forall i | 0 <= i < |s.conversations|
      ensures (forall t :: t in r.conversations[i].tags <==> t in s.conversations[i].tags && t.id != tagId)
      ensures IsSubsequence(r.conversations[i].tags, s.conversations[i].tags)
    {
      FilterMembers(s.conversations[i].tags, NotTag(tagId));
      FilterIsSubsequence(s.conversations[i].tags, NotTag(tagId));
    }
  }

  /** A failed delete restores both lists exactly; the tag-filter selection stays cleared. */
  lemma FailedDeleteRestores(s: State, tagId: string)
    ensures DeleteTag(s, tagId, false).conversations == s.conversations
    ensures DeleteTag(s, tagId, false).tags == s.tags
    ensures s.selectedTagId == Some(tagId) ==> DeleteTag(s, tagId, false).selectedTagId == None
  {
  }

  // ---------------------------------------------------------------------------------------------
  // Creating a tag

  /** The optimistic tag list: the temporary tag appended. */
  function AddTemporaryTag(tags: seq<Tag>, tempId: string, name: string, color: string): seq<Tag> {
    tags + [Tag(tempId, name, color)]
  }

  /** On success the temporary tag is swapped for the server's tag; on failure it is dropped. */
  function FinishCreateTag(tags: seq<Tag>, tempId: string, created: Option<Tag>): seq<Tag> {
    match created
    case Some(server) => seq(|tags|, i requires 0 <= i < |tags| => if tags[i].id == tempId then server else tags[i])
    case None => WithoutTag(tags, tempId)
  }

  /** With a fresh temporary id, a create ends with the server tag appended, or with the list unchanged. */
  lemma CreateTagOutcome(tags: seq<Tag>, tempId: string, name: string, color: string, created: Option<Tag>)
    requires forall i :: 0 <= i < |tags| ==> tags[i].id != tempId
    ensures created.Some? ==> FinishCreateTag(AddTemporaryTag(tags, tempId, name, color), tempId, created) == tags + [created.value]
    ensures created.None? ==> FinishCreateTag(AddTemporaryTag(tags, tempId, name, color), tempId, created) == tags
  {
    var optimistic := AddTemporaryTag(tags, tempId, name, color);
    if created.None? {
      FilterAppend(tags, Tag(tempId, name, color), NotTag(tempId));
      FilterKeepsAll(tags, NotTag(tempId));
    }
  }
}
