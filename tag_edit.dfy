/** Adding one tag to, or removing one tag from, one annotation
    (src/gooseberry/tag.rs): the record's tag list, the local index writes
    and the update sent to the service. */
module TagEdit {
  import opened Wrappers
  import opened Errors
  import opened Strings
  import opened Utils
  import opened Hypothesis
  import opened Database

  /** The record carries `tag`; an absent tag list carries nothing. */
  predicate HasTag(a: RemoteAnnotation, tag: string)
  {
    tag in a.tags.GetOr([])
  }

  /** The tag list after `push`: only a present list grows. */
  function PushTag(tags: Option<seq<string>>, tag: string): (r: Option<seq<string>>)
    ensures r.Some? <==> tags.Some?
    ensures r.Some? ==> |r.value| == |tags.value| + 1 && r.value[..|tags.value|] == tags.value
                        && r.value[|tags.value|] == tag
  {
    match tags
    case Some(x) => Some(x + [tag])
    case None => None
  }

  /** Pushing a tag the list lacks and then retaining everything but that tag
      gives the original list back. */
  lemma AddThenDeleteTag(tags: seq<string>, tag: string)
    requires tag !in tags
    ensures RemoveAll(PushTag(Some(tags), tag).value, tag) == tags
  {
    RemoveAllAppend(tags, [tag], tag);
    RemoveAllAbsent(tags, tag);
  }

  /** Removing a fresh id from the list it was just appended to gives the
      old list. */
  lemma RemoveMerged(tree: IndexTree, tag: string, id: string)
    requires NonEmptyEntries(tree) && ValidId(id)
    requires id !in IdList(tree, tag)
    ensures RemoveAll(SplitIds(MergeInto(tree, tag, id)[tag]), id) == IdList(tree, tag)
  {
    var ids := IdList(tree, tag);
    MergeAppends(tree, tag, id);
    RemoveAllAppend(ids, [id], id);
    RemoveAllAbsent(ids, id);
  }

  /** Merging a fresh id into a tag's entry and then queuing its removal from
      that entry leaves the tags tree exactly as it was. */
  lemma IndexRoundTrip(tree: IndexTree, tag: string, id: string)
    requires NonEmptyEntries(tree) && ValidId(id)
    requires id !in IdList(tree, tag)
    ensures var merged := MergeInto(tree, tag, id);
      ApplyOp(merged, DeleteFromTagOp(merged, tag, id).value) == tree
  {
    RemoveMerged(tree, tag, id);
    if tag in tree {
      RoundTripPresent(tree, tag, id);
    } else {
      RoundTripAbsent(tree, tag, id);
    }
  }

  lemma RoundTripPresent(tree: IndexTree, tag: string, id: string)
    requires tag in tree
    requires RemoveAll(SplitIds(MergeInto(tree, tag, id)[tag]), id) == IdList(tree, tag)
    ensures var merged := MergeInto(tree, tag, id);
      ApplyOp(merged, DeleteFromTagOp(merged, tag, id).value) == tree
  {
    EntryRoundTrip(tree[tag]);
  }

  lemma RoundTripAbsent(tree: IndexTree, tag: string, id: string)
    requires tag !in tree
    requires RemoveAll(SplitIds(MergeInto(tree, tag, id)[tag]), id) == IdList(tree, tag)
    ensures var merged := MergeInto(tree, tag, id);
      ApplyOp(merged, DeleteFromTagOp(merged, tag, id).value) == tree
  {
    var merged := MergeInto(tree, tag, id);
    assert merged - {tag} == tree;
  }

  /** `add_tag_to_annotation`: nothing happens when the record already
      carries the tag; otherwise the tag is pushed onto a present list, the id
      is merged into the tag's entry, the new list is sent upstream and the
      answer is true. */
  method AddTagToAnnotation(db: Db, api: Api, a: RemoteAnnotation, newTag: string) returns (r: bool)
    modifies db`tags, api`updates
    ensures r == !HasTag(a, newTag)
    ensures !r ==> db.tags == old(db.tags) && api.updates == old(api.updates)
    ensures r ==> db.tags == MergeInto(old(db.tags), newTag, a.id)
    ensures r ==> api.updates == old(api.updates) + [TagUpdate(a.id, PushTag(a.tags, newTag))]
  {
    if newTag in a.tags.GetOr([]) {
      return false;
    }
    var tags := a.tags;
    if tags.Some? {
      tags := Some(tags.value + [newTag]);
    }
    db.AddToTag(newTag, a.id);
    api.UpdateAnnotation(a.id, tags);
    r := true;
  }

  /** `delete_tag_from_annotation`: nothing happens when the record does not
      carry the tag; otherwise every copy of the tag is dropped from the list,
      the id's remaining tags are queued in `annotationBatch`, the id's removal
      from the tag's entry is queued in `tagBatch` (which fails when the tag
      has no entry), the new list is sent upstream and the answer is true. */
  method DeleteTagFromAnnotation(db: Db, api: Api, a: RemoteAnnotation, annotationBatch: Batch,
                                 removeTag: string, tagBatch: Batch)
    returns (r: Result<bool, Error>)
    requires annotationBatch != tagBatch
    modifies annotationBatch, tagBatch, api`updates
    ensures !HasTag(a, removeTag) ==>
      && r == Ok(false)
      && annotationBatch.ops == old(annotationBatch.ops)
      && tagBatch.ops == old(tagBatch.ops)
      && api.updates == old(api.updates)
    ensures HasTag(a, removeTag) ==>
      && annotationBatch.ops == old(annotationBatch.ops) + [Insert(a.id, JoinIds(RemoveAll(a.tags.value, removeTag)))]
      && (removeTag !in db.tags ==>
            r == Err(TagNotFound(removeTag)) && tagBatch.ops == old(tagBatch.ops) && api.updates == old(api.updates))
      && (removeTag in db.tags ==>
            && r == Ok(true)
            && tagBatch.ops == old(tagBatch.ops) + [DeleteFromTagOp(db.tags, removeTag, a.id).value]
            && api.updates == old(api.updates) + [TagUpdate(a.id, Some(RemoveAll(a.tags.value, removeTag)))])
  {
    if a.tags.None? {
      return Ok(false);
    }
    var tags := a.tags.value;
    if removeTag !in tags {
      return Ok(false);
    }
    tags := RemoveAll(tags, removeTag);
    annotationBatch.Insert(a.id, JoinIds(tags));
    var queued := db.DeleteFromTag(removeTag, a.id, tagBatch);
    if queued.Err? {
      return Err(queued.error);
    }
    api.UpdateAnnotation(a.id, Some(tags));
    r := Ok(true);
  }
}
