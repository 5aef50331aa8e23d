/** The local store of src/gooseberry/database.rs: an `annotations` tree
    (id -> encoded record), a `tags` tree (tag -> `;`-joined ids, kept by the
    append-only merge operator) and the last sync date. Sled trees are maps
    and a `sled::Batch` is a list of pending writes applied in order. */
module Database {
  import opened Wrappers
  import opened Errors
  import opened Strings
  import opened Lex
  import opened Utils
  import opened Hypothesis

  /** A value of the annotations tree: an encoded record, or bytes that do
      not decode as one. */
  datatype Stored = Serialized(annotation: Annotation) | Corrupt

  type AnnotationsTree = map<string, Stored>

  /** A tree whose values are `;`-joined lists (the `tags` tree, and the
      tree from annotation id to joined tags). */
  type IndexTree = map<string, string>

  datatype BatchOp = Insert(key: string, value: string) | Remove(key: string)

  /** `sled::Batch`: writes queued for one later `apply_batch`. */
  class Batch {
    var ops: seq<BatchOp>

    constructor ()
      ensures ops == []
    {
      ops := [];
    }

    method Insert(key: string, value: string)
      modifies this
      ensures ops == old(ops) + [BatchOp.Insert(key, value)]
    {
      ops := ops + [BatchOp.Insert(key, value)];
    }

    method Remove(key: string)
      modifies this
      ensures ops == old(ops) + [BatchOp.Remove(key)]
    {
      ops := ops + [BatchOp.Remove(key)];
    }
  }

  function ApplyOp(tree: IndexTree, op: BatchOp): IndexTree
  {
    match op
    case Insert(k, v) => tree[k := v]
    case Remove(k) => tree - {k}
  }

  /** `apply_batch`: the queued writes, first to last. */
  function ApplyBatch(tree: IndexTree, ops: seq<BatchOp>): IndexTree
  {
    if ops == [] then tree else ApplyOp(ApplyBatch(tree, ops[..|ops| - 1]), ops[|ops| - 1])
  }

  /** Two trees agree on key `k`. */
  predicate SameAt(t1: IndexTree, t2: IndexTree, k: string)
  {
    (k in t1 <==> k in t2) && (k in t1 ==> t1[k] == t2[k])
  }

  /** A key no queued write names keeps its entry. */
  lemma {:induction false} ApplyBatchUntouched(tree: IndexTree, ops: seq<BatchOp>, k: string)
    requires forall i :: 0 <= i < |ops| ==> ops[i].key != k
    ensures SameAt(ApplyBatch(tree, ops), tree, k)
  {
    if ops != [] {
      ApplyBatchUntouched(tree, ops[..|ops| - 1], k);
    }
  }

  /** When every queued write to `k` is the same write `o`, the batch leaves
      `k` as that one write does. */
  lemma {:induction false} ApplyBatchSameOps(tree: IndexTree, ops: seq<BatchOp>, k: string, o: BatchOp)
    requires o.key == k && o in ops
    requires forall i :: 0 <= i < |ops| && ops[i].key == k ==> ops[i] == o
    ensures SameAt(ApplyBatch(tree, ops), ApplyOp(tree, o), k)
  {
    var init := ops[..|ops| - 1];
    var last := ops[|ops| - 1];
    if last.key != k {
      assert o in init by {
        var i :| 0 <= i < |ops| && ops[i] == o;
        assert i < |ops| - 1 && init[i] == o;
      }
      ApplyBatchSameOps(tree, init, k, o);
    }
  }

  /** The last write to a key decides its entry. */
  lemma {:induction false} ApplyBatchLastWrite(tree: IndexTree, ops: seq<BatchOp>, i: nat)
    requires i < |ops|
    requires forall j :: i < j < |ops| ==> ops[j].key != ops[i].key
    ensures SameAt(ApplyBatch(tree, ops), ApplyOp(tree, ops[i]), ops[i].key)
  {
    if i < |ops| - 1 {
      ApplyBatchLastWrite(tree, ops[..|ops| - 1], i);
    }
  }

  function Lookup(tree: IndexTree, key: string): (v: Option<string>)
    ensures v.Some? <==> key in tree
    ensures v.Some? ==> v.value == tree[key]
  {
    if key in tree then Some(tree[key]) else None
  }

  /** `merge_index`: the old list, a semicolon if it was non-empty, and the
      new id. The key is never deleted. */
  function MergeIndex(oldIndices: Option<string>, newIndex: string): (r: Option<string>)
    ensures r.Some?
    ensures oldIndices.None? ==> r.value == newIndex
    ensures oldIndices.Some? && oldIndices.value != [] ==> r.value == oldIndices.value + [Semicolon] + newIndex
  {
    var ret := oldIndices.GetOr([]);
    Some(if ret != [] then ret + [Semicolon] + newIndex else newIndex)
  }

  /** A sled `merge` of `id` into the entry of `key`. */
  function MergeInto(tree: IndexTree, key: string, id: string): (t: IndexTree)
    ensures t.Keys == tree.Keys + {key}
  {
    tree[key := MergeIndex(Lookup(tree, key), id).value]
  }

  /** The loop of `add_to_tags`: one merge per tag, in order. */
  function MergeAll(tree: IndexTree, tags: seq<string>, id: string): IndexTree
  {
    if tags == [] then tree
    else MergeInto(MergeAll(tree, tags[..|tags| - 1], id), tags[|tags| - 1], id)
  }

  /** An id that can sit in an index entry: non-empty and free of `;`. */
  predicate ValidId(id: string)
  {
    id != [] && Semicolon !in id
  }

  /** No index entry is the empty string. */
  predicate NonEmptyEntries(tree: IndexTree)
  {
    forall k :: k in tree ==> tree[k] != []
  }

  /** The ids listed under `tag`, none when the tag has no entry. */
  function IdList(tree: IndexTree, tag: string): seq<string>
  {
    if tag in tree then SplitIds(tree[tag]) else []
  }

  /** Merging appends the id to the tag's list. */
  lemma MergeAppends(tree: IndexTree, tag: string, id: string)
    requires NonEmptyEntries(tree) && ValidId(id)
    ensures NonEmptyEntries(MergeInto(tree, tag, id))
    ensures IdList(MergeInto(tree, tag, id), tag) == IdList(tree, tag) + [id]
  {
    SplitWithoutSeparator(id, Semicolon);
    if tag in tree {
      SplitAround(tree[tag], id, Semicolon);
    }
  }

  /** After merging `id` under each of `tags`, every tag's list is its old
      list followed by one copy of `id` per occurrence of the tag: merging is
      append-only and never drops a duplicate. */
  lemma {:induction false} MergeAllNonEmpty(tree: IndexTree, tags: seq<string>, id: string)
    requires NonEmptyEntries(tree) && ValidId(id)
    ensures NonEmptyEntries(MergeAll(tree, tags, id))
  {
    if tags != [] {
      MergeAllNonEmpty(tree, tags[..|tags| - 1], id);
      MergeAppends(MergeAll(tree, tags[..|tags| - 1], id), tags[|tags| - 1], id);
    }
  }

  /** One merge adds the id to the merged tag's list and to no other list. */
  lemma MergeStep(m: IndexTree, tag: string, id: string, t: string)
    requires NonEmptyEntries(m) && ValidId(id)
    ensures IdList(MergeInto(m, tag, id), t) == IdList(m, t) + (if t == tag then [id] else [])
  {
    if t == tag {
      MergeAppends(m, tag, id);
    }
  }

  lemma {:induction false} MergeAllIdList(tree: IndexTree, tags: seq<string>, id: string, t: string)
    requires NonEmptyEntries(tree) && ValidId(id)
    ensures IdList(MergeAll(tree, tags, id), t) == IdList(tree, t) + Repeat(id, Occurrences(tags, t))
  {
    if tags == [] {
      assert IdList(tree, t) + Repeat(id, 0) == IdList(tree, t);
    } else {
      var init := tags[..|tags| - 1];
      var last := tags[|tags| - 1];
      var m := MergeAll(tree, init, id);
      MergeAllIdList(tree, init, id, t);
      MergeAllNonEmpty(tree, init, id);
      MergeStep(m, last, id, t);
      OccurrencesSnoc(tags, t);
      RepeatSnoc(IdList(tree, t), IdList(m, t), id, Occurrences(init, t), last == t);
    }
  }

  /** Once a record is added, each of its tags lists its id. */
  lemma AddedIdListed(tree: IndexTree, tags: seq<string>, id: string)
    requires NonEmptyEntries(tree) && ValidId(id)
    ensures forall t :: t in tags ==> id in IdList(MergeAll(tree, tags, id), t)
  {
    forall t | t in tags
      ensures id in IdList(MergeAll(tree, tags, id), t)
    {
      MergeAllIdList(tree, tags, id, t);
      var n := Occurrences(tags, t);
      assert Repeat(id, n)[0] == id;
    }
  }

  /** Adding the same record twice lists its id twice under each tag. */
  lemma AddTwiceDuplicates(tree: IndexTree, tags: seq<string>, id: string, t: string)
    requires NonEmptyEntries(tree) && ValidId(id)
    ensures IdList(MergeAll(MergeAll(tree, tags, id), tags, id), t)
         == IdList(tree, t) + Repeat(id, 2 * Occurrences(tags, t))
  {
    var n := Occurrences(tags, t);
    var once := MergeAll(tree, tags, id);
    MergeAllIdList(tree, tags, id, t);
    MergeAllNonEmpty(tree, tags, id);
    MergeAllIdList(once, tags, id, t);
    RepeatAppend(id, n, n);
    assert IdList(tree, t) + Repeat(id, n) + Repeat(id, n) == IdList(tree, t) + Repeat(id, 2 * n);
  }

  /** `get_tagged_annotations`. */
  function GetTaggedAnnotations(tree: IndexTree, tag: string): (r: Result<seq<string>, Error>)
    ensures r.Err? <==> tag !in tree
    ensures r.Err? ==> r.error == TagNotFound(tag)
    ensures r.Ok? ==> r.value == IdList(tree, tag) && r.value != []
  {
    if tag in tree then Ok(SplitIds(tree[tag])) else Err(TagNotFound(tag))
  }

  /** `get_annotation`: a missing key and an undecodable value are errors. */
  function GetAnnotation(tree: AnnotationsTree, id: string): (r: Result<Annotation, Error>)
    ensures id !in tree ==> r == Err(AnnotationNotFound(id))
    ensures id in tree && tree[id].Corrupt? ==> r == Err(Deserialize(id))
    ensures r.Ok? <==> id in tree && tree[id].Serialized?
    ensures r.Ok? ==> tree[id] == Serialized(r.value)
  {
    if id !in tree then Err(AnnotationNotFound(id))
    else match tree[id]
      case Serialized(a) => Ok(a)
      case Corrupt => Err(Deserialize(id))
  }

  /** `get_annotations`: all or nothing. Either every id resolves and the
      records come back in the order of the ids, or the first id that fails
      decides the error. */
  function GetAnnotations(tree: AnnotationsTree, ids: seq<string>): (r: Result<seq<Annotation>, Error>)
    ensures r.Ok? <==> forall i :: 0 <= i < |ids| ==> GetAnnotation(tree, ids[i]).Ok?
    ensures r.Ok? ==> |r.value| == |ids|
                      && forall i :: 0 <= i < |ids| ==> tree[ids[i]] == Serialized(r.value[i])
    ensures r.Err? ==> exists i :: 0 <= i < |ids| && GetAnnotation(tree, ids[i]) == Err(r.error)
                        && forall j :: 0 <= j < i ==> GetAnnotation(tree, ids[j]).Ok?
  {
    if ids == [] then Ok([])
    else match GetAnnotation(tree, ids[0])
      case Err(e) => Err(e)
      case Ok(a) =>
        match GetAnnotations(tree, ids[1..])
        case Err(e) =>
          ghost var i :| 0 <= i < |ids[1..]| && GetAnnotation(tree, ids[1..][i]) == Err(e)
                         && forall j :: 0 <= j < i ==> GetAnnotation(tree, ids[1..][j]).Ok?;
          assert GetAnnotation(tree, ids[i + 1]) == Err(e);
          Err(e)
        case Ok(rest) =>
          assert forall i :: 1 <= i < |ids| ==> ids[i] == ids[1..][i - 1];
          Ok([a] + rest)
  }

  /** The date a range scan looks at lies in `[from, to)`. */
  predicate InRange(a: Annotation, from: Timestamp, to: Timestamp, includeUpdated: bool)
  {
    var d := if includeUpdated then a.updated else a.created;
    from <= d < to
  }

  /** The filter chain of `list_annotations_in_date_range` over the entries
      named by `keys`, undecodable values skipped. */
  function RangeScan(tree: AnnotationsTree, keys: seq<string>, from: Timestamp, to: Timestamp, includeUpdated: bool): (r: seq<Annotation>)
    requires forall i :: 0 <= i < |keys| ==> keys[i] in tree
    ensures |r| <= |keys|
    ensures forall a :: a in r <==>
      InRange(a, from, to, includeUpdated) && exists i :: 0 <= i < |keys| && tree[keys[i]] == Serialized(a)
  {
    if keys == [] then []
    else
      var rest := RangeScan(tree, keys[1..], from, to, includeUpdated);
      assert forall i :: 1 <= i < |keys| ==> keys[i] == keys[1..][i - 1];
      match tree[keys[0]]
      case Serialized(a) => if InRange(a, from, to, includeUpdated) then [a] + rest else rest
      case Corrupt => rest
  }

  /** `list_annotations_in_date_range`: the decodable records whose date lies
      in `[from, to)`. */
  ghost function ListAnnotationsInDateRange(tree: AnnotationsTree, from: Timestamp, to: Timestamp, includeUpdated: bool): (r: seq<Annotation>)
    ensures |r| <= |tree|
    ensures forall a :: a in r <==> Serialized(a) in tree.Values && InRange(a, from, to, includeUpdated)
  {
    var keys := SortedKeys(tree.Keys);
    var r := RangeScan(tree, keys, from, to, includeUpdated);
    assert forall a :: Serialized(a) in tree.Values ==> exists i :: 0 <= i < |keys| && tree[keys[i]] == Serialized(a) by {
      forall a | Serialized(a) in tree.Values
        ensures exists i :: 0 <= i < |keys| && tree[keys[i]] == Serialized(a)
      {
        var k :| k in tree && tree[k] == Serialized(a);
        assert k in keys;
        var i :| 0 <= i < |keys| && keys[i] == k;
      }
    }
    r
  }

  /** The write `delete_from_tag` queues: an error if the tag has no entry,
      else a removal of the key when no other id remains, else a rewrite of
      the remaining ids. */
  function DeleteFromTagOp(tree: IndexTree, tag: string, id: string): (r: Result<BatchOp, Error>)
    ensures r.Err? <==> tag !in tree
    ensures r.Err? ==> r.error == TagNotFound(tag)
    ensures r.Ok? ==> r.value.key == tag
  {
    if tag !in tree then Err(TagNotFound(tag))
    else
      var rest := RemoveAll(SplitIds(tree[tag]), id);
      if rest == [] then Ok(Remove(tag)) else Ok(Insert(tag, JoinIds(rest)))
  }

  /** Applying the queued write drops every occurrence of the id from the
      tag's list, keeps the other ids in order, and removes the entry when
      nothing remains. */
  lemma DeleteFromTagEffect(tree: IndexTree, tag: string, id: string)
    requires tag in tree
    ensures var t := ApplyOp(tree, DeleteFromTagOp(tree, tag, id).value);
      && id !in IdList(t, tag)
      && (tag !in t <==> RemoveAll(IdList(tree, tag), id) == [])
      && (tag in t ==> IdList(t, tag) == RemoveAll(IdList(tree, tag), id))
      && forall k :: k != tag ==> SameAt(t, tree, k)
  {
    var ids := SplitIds(tree[tag]);
    var rest := RemoveAll(ids, id);
    var t := ApplyOp(tree, DeleteFromTagOp(tree, tag, id).value);
    if rest == [] {
      assert t == tree - {tag};
    } else {
      assert t == tree[tag := JoinIds(rest)];
      forall i | 0 <= i < |rest| ensures Semicolon !in rest[i] {
        assert rest[i] in ids;
        var j :| 0 <= j < |ids| && ids[j] == rest[i];
      }
      IdsRoundTrip(rest);
      assert IdList(t, tag) == rest;
    }
  }

  /** The writes the loop of `delete_annotation` queues for `tags`, or the
      error of the first tag without an entry. */
  function DeleteOps(tree: IndexTree, tags: seq<string>, id: string): (r: Result<seq<BatchOp>, Error>)
    ensures r.Ok? <==> forall i :: 0 <= i < |tags| ==> tags[i] in tree
    ensures r.Ok? ==> |r.value| == |tags|
                      && forall i :: 0 <= i < |tags| ==> DeleteFromTagOp(tree, tags[i], id) == Ok(r.value[i])
    ensures r.Err? ==> exists i :: 0 <= i < |tags| && tags[i] !in tree && r.error == TagNotFound(tags[i])
                        && forall j :: 0 <= j < i ==> tags[j] in tree
  {
    if tags == [] then Ok([])
    else
      var init := tags[..|tags| - 1];
      var last := tags[|tags| - 1];
      assert forall i :: 0 <= i < |init| ==> init[i] == tags[i];
      match DeleteOps(tree, init, id)
      case Err(e) => Err(e)
      case Ok(ops) =>
        match DeleteFromTagOp(tree, last, id)
        case Err(e) => assert last !in tree; Err(e)
        case Ok(op) =>
          assert forall i :: 0 <= i < |init| ==> (ops + [op])[i] == ops[i];
          Ok(ops + [op])
  }

  /** Once the ops for a prefix of the tags fail, the whole loop fails with
      the same error. */
  lemma {:induction false} DeleteOpsPrefixErr(tree: IndexTree, tags: seq<string>, id: string, n: nat)
    requires n <= |tags| && DeleteOps(tree, tags[..n], id).Err?
    ensures DeleteOps(tree, tags, id) == DeleteOps(tree, tags[..n], id)
    decreases |tags| - n
  {
    if n < |tags| {
      assert tags[..n + 1][..n] == tags[..n];
      DeleteOpsPrefixErr(tree, tags, id, n + 1);
    } else {
      assert tags[..n] == tags;
    }
  }

  /** What `delete_annotation` returns and leaves in both trees. */
  datatype Deletion = Deletion(result: Result<Annotation, Error>, annotations: AnnotationsTree, tags: IndexTree)

  /** `delete_annotation`: the record is removed first (even when it does
      not decode), then one write per tag is queued, and the batch is applied
      only when every tag had an entry. */
  function DeletionOf(annotations: AnnotationsTree, tags: IndexTree, id: string): (d: Deletion)
    ensures d.annotations == annotations - {id}
    ensures d.result.Ok? ==> id in annotations && annotations[id] == Serialized(d.result.value)
    ensures d.result.Err? ==> d.tags == tags
  {
    if id !in annotations then Deletion(Err(AnnotationNotFound(id)), annotations, tags)
    else
      var removed := annotations - {id};
      match annotations[id]
      case Corrupt => Deletion(Err(Deserialize(id)), removed, tags)
      case Serialized(a) =>
        match DeleteOps(tags, a.tags, id)
        case Err(e) => Deletion(Err(e), removed, tags)
        case Ok(ops) => Deletion(Ok(a), removed, ApplyBatch(tags, ops))
  }

  /** Deleting an unknown id fails with `AnnotationNotFound` and changes nothing. */
  lemma DeleteUnknown(annotations: AnnotationsTree, tags: IndexTree, id: string)
    requires id !in annotations
    ensures DeletionOf(annotations, tags, id) == Deletion(Err(AnnotationNotFound(id)), annotations, tags)
  {
    assert annotations - {id} == annotations;
  }

  /** Deleting a stored record whose tags all have entries returns the record,
      leaves no tag list naming its id, and leaves the entries of every other
      tag as they were. */
  lemma DeleteKnown(annotations: AnnotationsTree, tags: IndexTree, id: string)
    requires id in annotations && annotations[id].Serialized?
    requires forall t :: t in annotations[id].annotation.tags ==> t in tags
    ensures var d := DeletionOf(annotations, tags, id);
      && d.result == Ok(annotations[id].annotation)
      && id !in d.annotations
      && (forall t :: t in annotations[id].annotation.tags ==> id !in IdList(d.tags, t))
      && (forall t :: t in annotations[id].annotation.tags ==> IdList(d.tags, t) == RemoveAll(IdList(tags, t), id))
      && (forall k :: k !in annotations[id].annotation.tags ==> SameAt(d.tags, tags, k))
  {
    var a := annotations[id].annotation;
    var ops := DeleteOps(tags, a.tags, id).value;
    var d := DeletionOf(annotations, tags, id);
    assert d.tags == ApplyBatch(tags, ops);
    forall t | t in a.tags
      ensures IdList(d.tags, t) == RemoveAll(IdList(tags, t), id)
    {
      var i :| 0 <= i < |a.tags| && a.tags[i] == t;
      var o := ops[i];
      assert o.key == t;
      forall j | 0 <= j < |ops| && ops[j].key == t
        ensures ops[j] == o
      {
        assert a.tags[j] == t;
      }
      ApplyBatchSameOps(tags, ops, t, o);
      DeleteFromTagEffect(tags, t, id);
    }
    forall k | k !in a.tags
      ensures SameAt(d.tags, tags, k)
    {
      forall j | 0 <= j < |ops|
        ensures ops[j].key != k
      {
        assert ops[j].key == a.tags[j];
      }
      ApplyBatchUntouched(tags, ops, k);
    }
  }

  /** A deletion succeeds only for a stored record whose tags all have entries. */
  lemma DeletionOk(annotations: AnnotationsTree, tags: IndexTree, id: string)
    requires DeletionOf(annotations, tags, id).result.Ok?
    ensures id in annotations && annotations[id].Serialized?
    ensures forall t :: t in annotations[id].annotation.tags ==> t in tags
  {
    var a := annotations[id].annotation;
    assert DeleteOps(tags, a.tags, id).Ok?;
    forall t | t in a.tags
      ensures t in tags
    {
      var i :| 0 <= i < |a.tags| && a.tags[i] == t;
    }
  }

  /** A successful deletion never brings an id into a tag's list. */
  lemma DeletionKeepsOut(annotations: AnnotationsTree, tags: IndexTree, id: string, x: string, t: string)
    requires DeletionOf(annotations, tags, id).result.Ok? && x !in IdList(tags, t)
    ensures x !in IdList(DeletionOf(annotations, tags, id).tags, t)
  {
    DeletionOk(annotations, tags, id);
    DeleteKnown(annotations, tags, id);
    var after := DeletionOf(annotations, tags, id).tags;
    if t in annotations[id].annotation.tags {
      var r := RemoveAll(IdList(tags, t), id);
      assert IdList(after, t) == r;
      assert forall j :: 0 <= j < |r| ==> r[j] in IdList(tags, t);
    } else {
      assert SameAt(after, tags, t);
    }
  }

  /** When one of the record's tags has no entry, the record is gone but the
      tags tree is untouched and the first such tag is reported. */
  lemma DeleteMissingTag(annotations: AnnotationsTree, tags: IndexTree, id: string)
    requires id in annotations && annotations[id].Serialized?
    requires exists t :: t in annotations[id].annotation.tags && t !in tags
    ensures var d := DeletionOf(annotations, tags, id);
      && d.annotations == annotations - {id}
      && d.tags == tags
      && d.result.Err? && d.result.error.TagNotFound?
      && d.result.error.tag in annotations[id].annotation.tags
      && d.result.error.tag !in tags
  {
    var a := annotations[id].annotation;
    var t :| t in a.tags && t !in tags;
    var i :| 0 <= i < |a.tags| && a.tags[i] == t;
    assert DeleteOps(tags, a.tags, id).Err?;
  }

  /** The sled database of one user. */
  class Db {
    var annotations: AnnotationsTree
    var tags: IndexTree
    /** Annotation id -> `;`-joined tags (the tree written by tag deletion). */
    var annotationToTags: IndexTree
    var lastSyncDate: Cursor

    constructor (annotations: AnnotationsTree, tags: IndexTree, annotationToTags: IndexTree, lastSyncDate: Cursor)
      ensures this.annotations == annotations && this.tags == tags
      ensures this.annotationToTags == annotationToTags && this.lastSyncDate == lastSyncDate
    {
      this.annotations := annotations;
      this.tags := tags;
      this.annotationToTags := annotationToTags;
      this.lastSyncDate := lastSyncDate;
    }

    /** `reset_sync_date`: the sync date goes back to `MIN_DATE`. */
    method ResetSyncDate()
      modifies this`lastSyncDate
      ensures lastSyncDate == MinDate
    {
      lastSyncDate := MinDate;
    }

    /** `set_sync_date`. */
    method SetSyncDate(date: Timestamp)
      modifies this`lastSyncDate
      ensures lastSyncDate == At(date)
    {
      lastSyncDate := At(date);
    }

    /** Stores the `search_after` text of a finished sync as the sync time. */
    method SetSyncTime(cursor: Cursor)
      modifies this`lastSyncDate
      ensures lastSyncDate == cursor
    {
      lastSyncDate := cursor;
    }

    /** One sled `merge` of an id into a tag's entry. */
    method AddToTag(tag: string, id: string)
      modifies this`tags
      ensures tags == MergeInto(old(tags), tag, id)
    {
      tags := tags[tag := MergeIndex(Lookup(tags, tag), id).value];
    }

    /** `add_to_tags`. */
    method AddToTags(tagList: seq<string>, id: string)
      modifies this`tags
      ensures tags == MergeAll(old(tags), tagList, id)
    {
      var i := 0;
      while i < |tagList|
        invariant 0 <= i <= |tagList|
        invariant tags == MergeAll(old(tags), tagList[..i], id)
      {
        assert tagList[..i + 1][..i] == tagList[..i];
        AddToTag(tagList[i], id);
        i := i + 1;
      }
      assert tagList[..i] == tagList;
    }

    /** `add_annotation`: the id goes into every tag's entry, then the record
      is stored under its id. */
    method AddAnnotation(a: Annotation)
      modifies this`tags, this`annotations
      ensures tags == MergeAll(old(tags), a.tags, a.id)
      ensures annotations == old(annotations)[a.id := Serialized(a)]
    {
      AddToTags(a.tags, a.id);
      annotations := annotations[a.id := Serialized(a)];
    }

    /** `delete_from_tag`: reads the tags tree, writes only the batch. */
    method DeleteFromTag(tag: string, id: string, batch: Batch) returns (r: Result<(), Error>)
      modifies batch
      ensures DeleteFromTagOp(tags, tag, id).Err? ==>
        r == Err(DeleteFromTagOp(tags, tag, id).error) && batch.ops == old(batch.ops)
      ensures DeleteFromTagOp(tags, tag, id).Ok? ==>
        r == Ok(()) && batch.ops == old(batch.ops) + [DeleteFromTagOp(tags, tag, id).value]
    {
      if tag !in tags {
        return Err(TagNotFound(tag));
      }
      var newIndices := RemoveAll(SplitIds(tags[tag]), id);
      if newIndices == [] {
        batch.Remove(tag);
      } else {
        batch.Insert(tag, JoinIds(newIndices));
      }
      r := Ok(());
    }

    /** `delete_from_annotations_tree`: the key is removed whatever it held. */
    method DeleteFromAnnotationsTree(id: string) returns (r: Result<Annotation, Error>)
      modifies this`annotations
      ensures annotations == old(annotations) - {id}
      ensures r == GetAnnotation(old(annotations), id)
    {
      if id !in annotations {
        return Err(AnnotationNotFound(id));
      }
      var stored := annotations[id];
      annotations := annotations - {id};
      match stored
      case Serialized(a) => r := Ok(a);
      case Corrupt => r := Err(Deserialize(id));
    }

    /** `apply_batch` on the tags tree. */
    method ApplyToTags(batch: Batch)
      modifies this`tags
      ensures tags == ApplyBatch(old(tags), batch.ops)
    {
      tags := ApplyBatch(tags, batch.ops);
    }

    /** `apply_batch` on the annotation-to-tags tree. */
    method ApplyToAnnotationToTags(batch: Batch)
      modifies this`annotationToTags
      ensures annotationToTags == ApplyBatch(old(annotationToTags), batch.ops)
    {
      annotationToTags := ApplyBatch(annotationToTags, batch.ops);
    }

    /** `delete_annotation`. */
    method DeleteAnnotation(id: string) returns (r: Result<Annotation, Error>)
      modifies this`annotations, this`tags
      ensures Deletion(r, annotations, tags) == DeletionOf(old(annotations), old(tags), id)
    {
      r := DeleteFromAnnotationsTree(id);
      if r.Err? {
        return;
      }
      var a := r.value;
      var batch := new Batch();
      var i := 0;
      while i < |a.tags|
        invariant 0 <= i <= |a.tags|
        invariant annotations == old(annotations) - {id} && tags == old(tags)
        invariant DeleteOps(tags, a.tags[..i], id) == Ok(batch.ops)
      {
        assert a.tags[..i + 1][..i] == a.tags[..i];
        var step := DeleteFromTag(a.tags[i], id, batch);
        if step.Err? {
          DeleteOpsPrefixErr(tags, a.tags, id, i + 1);
          return Err(step.error);
        }
        i := i + 1;
      }
      assert a.tags[..i] == a.tags;
      ApplyToTags(batch);
    }
  }
}
