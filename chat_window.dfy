/**
 * The message-list and tag/assignee computations of the chat window. Each handler computes a new
 * list or a new conversation value from the current one; the network calls around them are left out.
 */
module ChatWindow {
  import opened Wrappers
  import opened Types
  import opened Lists

  /** `m.id === next.id || (next.wamid && m.wamid === next.wamid)`: an empty or null wamid never matches. */
  predicate SameMessage(m: Message, next: Message) {
    m.id == next.id || (next.wamid.Some? && next.wamid.value != "" && m.wamid == next.wamid)
  }

  /** `list.findIndex(m => SameMessage(m, next))`: the first matching position, or -1. */
  function FindIndex(list: seq<Message>, next: Message): (r: int)
    ensures -1 <= r < |list|
    ensures r >= 0 ==> SameMessage(list[r], next) && forall j :: 0 <= j < r ==> !SameMessage(list[j], next)
    ensures r == -1 ==> forall j :: 0 <= j < |list| ==> !SameMessage(list[j], next)
  {
    if list == [] then -1
    else if SameMessage(list[0], next) then 0
    else
      var k := FindIndex(list[1..], next);
      if k == -1 then -1 else k + 1
  }

  /** Insert a realtime message, replacing the first element it matches by id or by wamid. */
  function UpsertMessage(list: seq<Message>, next: Message): seq<Message> {
    var idx := FindIndex(list, next);
    if idx == -1 then list + [next] else list[idx := next]
  }

  /** With no match, `next` is appended: one more element, `next` last, the others untouched. */
  lemma UpsertAppendsNew(list: seq<Message>, next: Message)
    requires forall j :: 0 <= j < |list| ==> !SameMessage(list[j], next)
    ensures UpsertMessage(list, next) == list + [next]
    ensures |UpsertMessage(list, next)| == |list| + 1
  {
  }

  /** With a match, the first matching position is replaced and nothing else moves. */
  lemma UpsertReplacesFirstMatch(list: seq<Message>, next: Message, k: nat)
    requires k < |list| && SameMessage(list[k], next)
    requires forall j :: 0 <= j < k ==> !SameMessage(list[j], next)
    ensures |UpsertMessage(list, next)| == |list|
    ensures UpsertMessage(list, next)[k] == next
    ensures forall j :: 0 <= j < |list| && j != k ==> UpsertMessage(list, next)[j] == list[j]
  {
  }

  /** A message without a wamid can only match by id. */
  lemma UpsertWithoutWamid(list: seq<Message>, next: Message)
    requires next.wamid.None?
    ensures UpsertMessage(list, next) == list + [next] <==> forall m :: m in list ==> m.id != next.id
  {
    var idx := FindIndex(list, next);
    if idx != -1 {
      assert list[idx] in list;
      assert UpsertMessage(list, next) == list[idx := next];
      assert |list[idx := next]| != |list + [next]|;
    } else {
      forall m | m in list ensures m.id != next.id {
        var j :| 0 <= j < |list| && list[j] == m;
      }
    }
  }

  /** Delivering the same realtime INSERT twice leaves the list as after the first delivery. */
  lemma UpsertIdempotent(list: seq<Message>, next: Message)
    ensures UpsertMessage(UpsertMessage(list, next), next) == UpsertMessage(list, next)
  {
    var idx := FindIndex(list, next);
    var once := UpsertMessage(list, next);
    var k := if idx == -1 then |list| else idx;
    assert once[k] == next && SameMessage(once[k], next);
    assert forall j :: 0 <= j < k ==> once[j] == list[j];
    assert FindIndex(once, next) == k;
    assert once[k := next] == once;
  }

  /**
   * The realtime copy of a sent message does not replace its optimistic placeholder: the
   * placeholder has a temporary id and no wamid, so the real message is appended beside it.
   */
  lemma RealMessageDoesNotReplacePlaceholder(list: seq<Message>, placeholder: Message, delivered: Message)
    requires placeholder in list && placeholder.wamid.None? && placeholder.id != delivered.id
    requires forall j :: 0 <= j < |list| ==> !SameMessage(list[j], delivered)
    ensures placeholder in UpsertMessage(list, delivered)
    ensures |UpsertMessage(list, delivered)| == |list| + 1
  {
    UpsertAppendsNew(list, delivered);
  }

  // ---------------------------------------------------------------------------------------------
  // Realtime UPDATE and the optimistic send

  /** `prev.map(m => m.id === updated.id ? updated : m)` */
  function ApplyUpdate(list: seq<Message>, updated: Message): seq<Message> {
    seq(|list|, i requires 0 <= i < |list| => if list[i].id == updated.id then updated else list[i])
  }

  lemma ApplyUpdateReplacesById(list: seq<Message>, updated: Message)
    ensures |ApplyUpdate(list, updated)| == |list|
    ensures forall i :: 0 <= i < |list| && list[i].id == updated.id ==> ApplyUpdate(list, updated)[i] == updated
    ensures forall i :: 0 <= i < |list| && list[i].id != updated.id ==> ApplyUpdate(list, updated)[i] == list[i]
  {
  }

  /** The placeholder appended while a text is being sent. */
  function Placeholder(tempId: string, conversationId: string, text: string, now: string): Message {
    Message(tempId, conversationId, None, Outbound, "text",
            Content(Some(text), None, None, None, None), "sending", now)
  }

  /** On a failed send, the placeholder alone is marked "failed". */
  function MarkFailed(list: seq<Message>, tempId: string): seq<Message> {
    seq(|list|, i requires 0 <= i < |list| =>
      if list[i].id == tempId then list[i].(status := "failed") else list[i])
  }

  /** The delayed cleanup after a successful send: drop the placeholder if it is still "sending". */
  function Cleanup(list: seq<Message>, tempId: string): seq<Message> {
    Filter(list, KeptByCleanup(tempId))
  }

  function KeptByCleanup(tempId: string): Message -> bool {
    (m: Message) => m.id != tempId || m.status != "sending"
  }

  lemma MarkFailedOnlyTouchesPlaceholder(list: seq<Message>, tempId: string)
    ensures |MarkFailed(list, tempId)| == |list|
    ensures forall i :: 0 <= i < |list| && list[i].id != tempId ==> MarkFailed(list, tempId)[i] == list[i]
    ensures forall i :: 0 <= i < |list| && list[i].id == tempId ==>
      MarkFailed(list, tempId)[i] == list[i].(status := "failed")
  {
  }

  /** The cleanup keeps, in order, exactly the messages that are not the still-sending placeholder. */
  lemma CleanupKeeps(list: seq<Message>, tempId: string)
    ensures forall m :: m in Cleanup(list, tempId) <==> m in list && !(m.id == tempId && m.status == "sending")
    ensures IsSubsequence(Cleanup(list, tempId), list)
  {
    FilterMembers(list, KeptByCleanup(tempId));
    FilterIsSubsequence(list, KeptByCleanup(tempId));
  }

  /** A send that nothing else interleaves with leaves the list as it was before, once cleaned up. */
  lemma SendThenCleanupRestores(list: seq<Message>, tempId: string, conversationId: string, text: string, now: string)
    requires forall m :: m in list ==> m.id != tempId
    ensures Cleanup(list + [Placeholder(tempId, conversationId, text, now)], tempId) == list
  {
    var p := Placeholder(tempId, conversationId, text, now);
    FilterAppend(list, p, KeptByCleanup(tempId));
    forall i | 0 <= i < |list| ensures KeptByCleanup(tempId)(list[i]) {
      assert list[i] in list;
    }
    FilterKeepsAll(list, KeptByCleanup(tempId));
  }

  /** A failed placeholder survives the cleanup. */
  lemma FailedPlaceholderSurvivesCleanup(list: seq<Message>, tempId: string, i: nat)
    requires i < |list| && list[i].id == tempId
    ensures MarkFailed(list, tempId)[i] in Cleanup(MarkFailed(list, tempId), tempId)
  {
    var failed := MarkFailed(list, tempId);
    FilterMembers(failed, KeptByCleanup(tempId));
    assert failed[i] in failed;
  }

  // ---------------------------------------------------------------------------------------------
  // Tag and assignee toggles

  /** The ids sent to the tags endpoint after toggling `tagId`. */
  function NextTagIds(conversation: Conversation, tagId: string): seq<string> {
    Toggle(TagIds(conversation.tags), tagId)
  }

  function TagIds(tags: seq<Tag>): (ids: seq<string>)
    ensures |ids| == |tags| && forall i :: 0 <= i < |tags| ==> ids[i] == tags[i].id
  {
    seq(|tags|, i requires 0 <= i < |tags| => tags[i].id)
  }

  /** The optimistic tag list: the known tags whose ids are selected, in the known tags' order. */
  function NextTags(allTags: seq<Tag>, nextIds: seq<string>): seq<Tag> {
    Filter(allTags, (t: Tag) => t.id in nextIds)
  }

  /** The optimistic assignee list after toggling `uid`. */
  function NextAssignees(conversation: Conversation, uid: string): seq<string> {
    Toggle(conversation.assignees, uid)
  }

  /** The optimistic tags are known tags, in their order, exactly those whose id was selected. */
  lemma NextTagsSelectsById(allTags: seq<Tag>, nextIds: seq<string>)
    ensures forall t :: t in NextTags(allTags, nextIds) <==> t in allTags && t.id in nextIds
    ensures IsSubsequence(NextTags(allTags, nextIds), allTags)
  {
    FilterMembers(allTags, (t: Tag) => t.id in nextIds);
    FilterIsSubsequence(allTags, (t: Tag) => t.id in nextIds);
  }
}
