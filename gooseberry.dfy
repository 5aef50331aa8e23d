/** The commands of src/gooseberry/mod.rs that reach the local store: the
    paginated fetch, `sync`, `tag` (add or delete a tag on a selection) and
    `delete`. The remote search is a function from query to page; the fuzzy
    search window and the confirmation prompt are inputs. */
module Gooseberry {
  import opened Wrappers
  import opened Errors
  import opened Strings
  import opened Utils
  import opened Hypothesis
  import opened Database
  import opened TagEdit
  import opened Cli

  /** How a run of page requests ended: all pages and the final query, the
      first error, or out of requests. */
  datatype Fetch =
    | Fetched(annotations: seq<RemoteAnnotation>, query: SearchQuery)
    | FetchFailed(error: Error)
    | Unfinished

  /** The query for the page after a non-empty `page`. */
  function Advance(q: SearchQuery, page: seq<RemoteAnnotation>): SearchQuery
    requires page != []
  {
    q.(searchAfter := At(page[|page| - 1].updated))
  }

  function Prepend(page: seq<RemoteAnnotation>, f: Fetch): Fetch
  {
    match f
    case Fetched(rest, q) => Fetched(page + rest, q)
    case _ => f
  }

  /** The pages `search` answers from `q` on, up to and excluding the first
      empty one, at most `fuel` requests. */
  function Pull(search: SearchQuery -> Result<seq<RemoteAnnotation>, Error>, q: SearchQuery, fuel: nat): Fetch
    decreases fuel
  {
    if fuel == 0 then Unfinished
    else match search(q)
      case Err(e) => FetchFailed(e)
      case Ok(page) =>
        if page == [] then Fetched([], q)
        else Prepend(page, Pull(search, Advance(q, page), fuel - 1))
  }

  /** Paging moves only the cursor: it ends at the `updated` time of the last
      record fetched, and stays where it was when the first page is empty. */
  lemma {:induction false} PullCursor(search: SearchQuery -> Result<seq<RemoteAnnotation>, Error>, q: SearchQuery, fuel: nat)
    requires Pull(search, q, fuel).Fetched?
    decreases fuel
    ensures var f := Pull(search, q, fuel);
      && f.query == q.(searchAfter := f.query.searchAfter)
      && (f.annotations == [] ==> f.query == q)
      && (f.annotations != [] ==> f.query.searchAfter == At(f.annotations[|f.annotations| - 1].updated))
  {
    var page := search(q).value;
    if page != [] {
      var next := Advance(q, page);
      PullCursor(search, next, fuel - 1);
    }
  }

  /** The records of a selection that carry the tag when `delete` is set, or
      that do not carry it otherwise, in input order. */
  function SelectByTag(anns: seq<RemoteAnnotation>, tag: string, delete: bool): (r: seq<RemoteAnnotation>)
    ensures |r| <= |anns|
    ensures forall a :: a in r <==> a in anns && HasTag(a, tag) == delete
  {
    if anns == [] then []
    else
      assert forall a :: a in anns <==> a == anns[0] || a in anns[1..];
      (if HasTag(anns[0], tag) == delete then [anns[0]] else []) + SelectByTag(anns[1..], tag, delete)
  }

  /** The two selections split the input: every record goes to exactly one. */
  lemma {:induction false} SelectPartition(anns: seq<RemoteAnnotation>, tag: string)
    ensures |SelectByTag(anns, tag, true)| + |SelectByTag(anns, tag, false)| == |anns|
  {
    if anns != [] {
      SelectPartition(anns[1..], tag);
    }
  }

  /** The selection is a filter: a record is kept or dropped on its own, so
      the kept records stay in input order, duplicates included. */
  lemma {:induction false} SelectByTagFilter(a: seq<RemoteAnnotation>, b: seq<RemoteAnnotation>, tag: string, delete: bool)
    ensures SelectByTag(a + b, tag, delete) == SelectByTag(a, tag, delete) + SelectByTag(b, tag, delete)
  {
    if a == [] {
      assert a + b == b;
    } else {
      var ab := a + b;
      var head := if HasTag(a[0], tag) == delete then [a[0]] else [];
      assert ab[0] == a[0] && ab[1..] == a[1..] + b;
      assert SelectByTag(ab, tag, delete) == head + SelectByTag(a[1..] + b, tag, delete);
      SelectByTagFilter(a[1..], b, tag, delete);
      Associative(head, SelectByTag(a[1..], tag, delete), SelectByTag(b, tag, delete));
    }
  }

  lemma SelectByTagOne(x: RemoteAnnotation, tag: string, delete: bool)
    ensures SelectByTag([x], tag, delete) == if HasTag(x, tag) == delete then [x] else []
  {
    assert [x][1..] == [];
  }


  /** The records whose ids were picked, in input order. */
  function NarrowToIds(anns: seq<RemoteAnnotation>, ids: set<string>): (r: seq<RemoteAnnotation>)
    ensures |r| <= |anns|
    ensures forall a :: a in r <==> a in anns && a.id in ids
  {
    if anns == [] then []
    else
      assert forall a :: a in anns <==> a == anns[0] || a in anns[1..];
      (if anns[0].id in ids then [anns[0]] else []) + NarrowToIds(anns[1..], ids)
  }

  /** Narrowing is a filter: a record is kept or dropped on its own, so the
      picked records stay in input order, duplicates included. */
  lemma {:induction false} NarrowToIdsFilter(a: seq<RemoteAnnotation>, b: seq<RemoteAnnotation>, ids: set<string>)
    ensures NarrowToIds(a + b, ids) == NarrowToIds(a, ids) + NarrowToIds(b, ids)
  {
    if a == [] {
      assert a + b == b;
    } else {
      var ab := a + b;
      var head := if a[0].id in ids then [a[0]] else [];
      assert ab[0] == a[0] && ab[1..] == a[1..] + b;
      assert NarrowToIds(ab, ids) == head + NarrowToIds(a[1..] + b, ids);
      NarrowToIdsFilter(a[1..], b, ids);
      Associative(head, NarrowToIds(a[1..], ids), NarrowToIds(b, ids));
    }
  }

  lemma NarrowToIdsOne(x: RemoteAnnotation, ids: set<string>)
    ensures NarrowToIds([x], ids) == if x.id in ids then [x] else []
  {
    assert [x][1..] == [];
  }


  /** Picking every id keeps the selection as it is. */
  lemma {:induction false} NarrowToAllIds(anns: seq<RemoteAnnotation>, ids: set<string>)
    requires forall i :: 0 <= i < |anns| ==> anns[i].id in ids
    ensures NarrowToIds(anns, ids) == anns
  {
    if anns != [] {
      NarrowToAllIds(anns[1..], ids);
    }
  }

  /** The selection after the search window, when it ran. */
  function Picked(anns: seq<RemoteAnnotation>, picked: Option<set<string>>): seq<RemoteAnnotation>
  {
    if picked.Some? then NarrowToIds(anns, picked.value) else anns
  }

  function Ids(anns: seq<RemoteAnnotation>): (ids: seq<string>)
    ensures |ids| == |anns|
    ensures forall i :: 0 <= i < |anns| ==> ids[i] == anns[i].id
  {
    seq(|anns|, i requires 0 <= i < |anns| => anns[i].id)
  }

  /** The id merged under `tag` once per id, in order. */
  function MergeEach(tree: IndexTree, tag: string, ids: seq<string>): IndexTree
  {
    if ids == [] then tree
    else MergeInto(MergeEach(tree, tag, ids[..|ids| - 1]), tag, ids[|ids| - 1])
  }

  /** Tagging appends the tagged ids to the tag's list, in order. */
  lemma {:induction false} MergeEachIdList(tree: IndexTree, tag: string, ids: seq<string>)
    requires NonEmptyEntries(tree)
    requires forall i :: 0 <= i < |ids| ==> ValidId(ids[i])
    ensures NonEmptyEntries(MergeEach(tree, tag, ids))
    ensures IdList(MergeEach(tree, tag, ids), tag) == IdList(tree, tag) + ids
  {
    if ids != [] {
      var init := ids[..|ids| - 1];
      MergeEachIdList(tree, tag, init);
      MergeAppends(MergeEach(tree, tag, init), tag, ids[|ids| - 1]);
      AppendSnoc(IdList(tree, tag), ids);
    }
  }

  /** The updates sent when adding `tag` to each record. */
  function AddUpdates(anns: seq<RemoteAnnotation>, tag: string): (u: seq<TagUpdate>)
    ensures |u| == |anns|
  {
    seq(|anns|, i requires 0 <= i < |anns| => TagUpdate(anns[i].id, PushTag(anns[i].tags, tag)))
  }

  /** The annotation-batch writes of a bulk tag deletion: each id's
      remaining tags. */
  function AnnotationOps(anns: seq<RemoteAnnotation>, tag: string): (ops: seq<BatchOp>)
    ensures |ops| == |anns|
  {
    seq(|anns|, i requires 0 <= i < |anns| => Insert(anns[i].id, JoinIds(RemoveAll(anns[i].tags.GetOr([]), tag))))
  }

  /** The updates sent by a bulk tag deletion. */
  function DeleteUpdates(anns: seq<RemoteAnnotation>, tag: string): (u: seq<TagUpdate>)
    ensures |u| == |anns|
  {
    seq(|anns|, i requires 0 <= i < |anns| => TagUpdate(anns[i].id, Some(RemoveAll(anns[i].tags.GetOr([]), tag))))
  }

  /** The tag-batch writes of a bulk tag deletion as the code queues them:
      every write is computed from the tags tree as it was before the batch. */
  function BulkDeleteTagOps(tree: IndexTree, tag: string, ids: seq<string>): (ops: seq<BatchOp>)
    requires tag in tree || ids == []
    ensures |ops| == |ids|
    ensures forall i :: 0 <= i < |ids| ==> ops[i].key == tag
  {
    seq(|ids|, i requires 0 <= i < |ids| && tag in tree => DeleteFromTagOp(tree, tag, ids[i]).value)
  }

  /** Since every write of the bulk deletion names the same key, only the
      write for the last id survives the batch. */
  lemma BulkDeleteLastWins(tree: IndexTree, tag: string, ids: seq<string>)
    requires tag in tree && ids != []
    ensures SameAt(ApplyBatch(tree, BulkDeleteTagOps(tree, tag, ids)),
                   ApplyOp(tree, DeleteFromTagOp(tree, tag, ids[|ids| - 1]).value), tag)
  {
    ApplyBatchLastWrite(tree, BulkDeleteTagOps(tree, tag, ids), |ids| - 1);
  }

  /** The entry `a1;a2` holds the two ids. */
  lemma SplitPair()
    ensures SplitIds("a1;a2") == ["a1", "a2"]
  {
    assert "a1;a2" == "a1" + [Semicolon] + "a2";
    SplitAround("a1", "a2", Semicolon);
    SplitWithoutSeparator("a1", Semicolon);
    SplitWithoutSeparator("a2", Semicolon);
  }

  /** Removing `a2` from `a1;a2` queues the entry `a1`. */
  lemma StaleLastOp()
    ensures DeleteFromTagOp(map["T" := "a1;a2"], "T", "a2").value == Insert("T", "a1")
  {
    SplitPair();
    assert RemoveAll(["a1", "a2"], "a2") == ["a1"] by {
      assert ["a1", "a2"][1..] == ["a2"];
      assert RemoveAll(["a2"], "a2") == [];
    }
  }

  /** Deleting a tag from two records that share it leaves the first record's
      id in the tag's list. */
  lemma BulkDeleteStaleId()
    ensures var tree := map["T" := "a1;a2"];
      "a1" in IdList(ApplyBatch(tree, BulkDeleteTagOps(tree, "T", ["a1", "a2"])), "T")
  {
    var tree := map["T" := "a1;a2"];
    BulkDeleteLastWins(tree, "T", ["a1", "a2"]);
    StaleLastOp();
    SplitWithoutSeparator("a1", Semicolon);
  }

  /** The tag-batch writes as intended: each write computed from the tree as
      the writes queued before it leave it. */
  function BulkDeleteTagOpsCorrected(tree: IndexTree, tag: string, ids: seq<string>): seq<BatchOp>
  {
    if ids == [] then []
    else
      var prev := BulkDeleteTagOpsCorrected(tree, tag, ids[..|ids| - 1]);
      var pending := ApplyBatch(tree, prev);
      if tag in pending then prev + [DeleteFromTagOp(pending, tag, ids[|ids| - 1]).value] else prev
  }

  /** A queued removal never brings an id back into the tag's list, and
      touches no other entry. */
  lemma DeleteFromTagKeepsOut(pending: IndexTree, tag: string, id: string, x: string)
    requires tag in pending && x !in IdList(pending, tag)
    ensures var t := ApplyOp(pending, DeleteFromTagOp(pending, tag, id).value);
      x !in IdList(t, tag) && forall k :: k != tag ==> SameAt(t, pending, k)
  {
    DeleteFromTagEffect(pending, tag, id);
    assert x !in RemoveAll(IdList(pending, tag), id);
  }

  lemma ApplyBatchSnoc(tree: IndexTree, prev: seq<BatchOp>, op: BatchOp)
    ensures ApplyBatch(tree, prev + [op]) == ApplyOp(ApplyBatch(tree, prev), op)
  {
    assert (prev + [op])[..|prev|] == prev;
  }

  /** With the intended writes the tag's list becomes the old list without
      the selected ids, in order, and the entry stays exactly when that list
      is not empty; so no selected id stays in it. */
  lemma {:induction false} BulkDeleteCorrectedRemovesAll(tree: IndexTree, tag: string, ids: seq<string>)
    ensures var t := ApplyBatch(tree, BulkDeleteTagOpsCorrected(tree, tag, ids));
      && IdList(t, tag) == Without(IdList(tree, tag), ids)
      && (tag in t <==> Without(IdList(tree, tag), ids) != [])
    ensures forall i :: 0 <= i < |ids| ==> ids[i] !in IdList(ApplyBatch(tree, BulkDeleteTagOpsCorrected(tree, tag, ids)), tag)
  {
    var t := ApplyBatch(tree, BulkDeleteTagOpsCorrected(tree, tag, ids));
    if ids == [] {
      WithoutNone(IdList(tree, tag));
    } else {
      var init := ids[..|ids| - 1];
      var last := ids[|ids| - 1];
      var prev := BulkDeleteTagOpsCorrected(tree, tag, init);
      var pending := ApplyBatch(tree, prev);
      BulkDeleteCorrectedRemovesAll(tree, tag, init);
      assert init + [last] == ids;
      WithoutSnoc(IdList(tree, tag), init, last);
      if tag in pending {
        var op := DeleteFromTagOp(pending, tag, last).value;
        ApplyBatchSnoc(tree, prev, op);
        DeleteFromTagEffect(pending, tag, last);
      }
    }
    assert forall i :: 0 <= i < |ids| ==> ids[i] in ids;
  }

  /** The intended writes touch no entry but the tag's. */
  lemma {:induction false} BulkDeleteCorrectedOthers(tree: IndexTree, tag: string, ids: seq<string>, k: string)
    requires k != tag
    ensures SameAt(ApplyBatch(tree, BulkDeleteTagOpsCorrected(tree, tag, ids)), tree, k)
  {
    if ids != [] {
      var init := ids[..|ids| - 1];
      var prev := BulkDeleteTagOpsCorrected(tree, tag, init);
      var pending := ApplyBatch(tree, prev);
      BulkDeleteCorrectedOthers(tree, tag, init, k);
      if tag in pending {
        var op := DeleteFromTagOp(pending, tag, ids[|ids| - 1]).value;
        ApplyBatchSnoc(tree, prev, op);
        assert op.key == tag;
      }
    }
  }

  lemma Snoc<T>(s: seq<T>, i: nat)
    requires i < |s|
    ensures s[..i + 1] == s[..i] + [s[i]]
  {
  }

  /** One more record of a bulk tag addition merges its id and sends its
      update after those of the records before it. */
  lemma AddStep(anns: seq<RemoteAnnotation>, tag: string, i: nat)
    requires i < |anns|
    ensures Ids(anns)[..i + 1][..i] == Ids(anns)[..i] && Ids(anns)[..i + 1][i] == anns[i].id
    ensures AddUpdates(anns, tag)[..i + 1] == AddUpdates(anns, tag)[..i] + [TagUpdate(anns[i].id, PushTag(anns[i].tags, tag))]
  {
    Snoc(AddUpdates(anns, tag), i);
  }

  /** One more record of a bulk tag deletion adds its annotation write and
      its update at the end. */
  lemma QueueStep(anns: seq<RemoteAnnotation>, tag: string, i: nat)
    requires i < |anns| && anns[i].tags.Some?
    ensures AnnotationOps(anns, tag)[..i + 1] == AnnotationOps(anns, tag)[..i] + [Insert(anns[i].id, JoinIds(RemoveAll(anns[i].tags.value, tag)))]
    ensures DeleteUpdates(anns, tag)[..i + 1] == DeleteUpdates(anns, tag)[..i] + [TagUpdate(anns[i].id, Some(RemoveAll(anns[i].tags.value, tag)))]
  {
    Snoc(AnnotationOps(anns, tag), i);
    Snoc(DeleteUpdates(anns, tag), i);
  }

  lemma BulkDeleteTagOpsSnoc(tree: IndexTree, tag: string, ids: seq<string>, i: nat)
    requires tag in tree && i < |ids|
    ensures BulkDeleteTagOps(tree, tag, ids[..i + 1]) == BulkDeleteTagOps(tree, tag, ids[..i]) + [DeleteFromTagOp(tree, tag, ids[i]).value]
  {
  }
  /** One attempt of the `delete` loop: what it reported, both trees after
      it, and how many records were deleted locally and remotely. */
  datatype DeleteRun = DeleteRun(result: Result<(), Error>, annotations: AnnotationsTree, tags: IndexTree, done: nat)

  /** One more `delete_annotation` after `run`, unless `run` already failed. */
  function DeleteNext(run: DeleteRun, id: string): (next: DeleteRun)
    ensures run.result.Err? ==> next == run
    ensures run.result.Ok? ==> next.annotations == run.annotations - {id}
  {
    if run.result.Err? then run
    else
      var d := DeletionOf(run.annotations, run.tags, id);
      if d.result.Err? then DeleteRun(Err(d.result.error), d.annotations, d.tags, run.done)
      else DeleteRun(Ok(()), d.annotations, d.tags, run.done + 1)
  }

  /** `delete_annotation` for each id in order, stopping at the first error. */
  function DeleteEach(annotations: AnnotationsTree, tags: IndexTree, ids: seq<string>): (run: DeleteRun)
    ensures run.done <= |ids|
    ensures run.result.Ok? ==> run.done == |ids|
    ensures run.result.Err? ==> run.done < |ids|
  {
    if ids == [] then DeleteRun(Ok(()), annotations, tags, 0)
    else DeleteNext(DeleteEach(annotations, tags, ids[..|ids| - 1]), ids[|ids| - 1])
  }

  lemma DeleteEachSnoc(annotations: AnnotationsTree, tags: IndexTree, ids: seq<string>, i: nat)
    requires i < |ids|
    ensures DeleteEach(annotations, tags, ids[..i + 1]) == DeleteNext(DeleteEach(annotations, tags, ids[..i]), ids[i])
  {
    assert ids[..i + 1][..i] == ids[..i];
  }

  /** Every id the loop reached is gone from the annotations tree, the one
      whose deletion failed included; every other record is still there,
      those of the ids after a failure among them. */
  lemma {:induction false} DeleteEachRemoves(annotations: AnnotationsTree, tags: IndexTree, ids: seq<string>)
    ensures var run := DeleteEach(annotations, tags, ids);
      forall i :: 0 <= i < |ids| && i <= run.done ==> ids[i] !in run.annotations
    ensures var run := DeleteEach(annotations, tags, ids);
      forall k :: k in annotations && (forall i :: 0 <= i < |ids| && i <= run.done ==> ids[i] != k) ==> k in run.annotations
  {
    if ids != [] {
      var init := ids[..|ids| - 1];
      DeleteEachRemoves(annotations, tags, init);
      var prev := DeleteEach(annotations, tags, init);
      var run := DeleteEach(annotations, tags, ids);
      assert forall i :: 0 <= i < |init| ==> init[i] == ids[i];
      forall i | 0 <= i < |ids| && i <= run.done
        ensures ids[i] !in run.annotations
      {
        if i < |ids| - 1 {
          assert ids[i] == init[i];
        }
      }
      forall k | k in annotations && (forall i :: 0 <= i < |ids| && i <= run.done ==> ids[i] != k)
        ensures k in run.annotations
      {
        if prev.result.Ok? {
          assert ids[|ids| - 1] != k;
        }
      }
    }
  }

  /** `after` is `annotations` with some records removed and none changed. */
  ghost predicate OnlyRemoved(annotations: AnnotationsTree, after: AnnotationsTree)
  {
    forall k :: k in after ==> k in annotations && after[k] == annotations[k]
  }

  /** Each of the first `done` ids named a stored, decodable record of
      `annotations`, and no tag of that record lists the id in `tags`. */
  ghost predicate DoneUnlisted(annotations: AnnotationsTree, ids: seq<string>, done: nat, tags: IndexTree)
  {
    && done <= |ids|
    && (forall i :: 0 <= i < done ==> ids[i] in annotations && annotations[ids[i]].Serialized?)
    && forall i, t :: 0 <= i < done && t in annotations[ids[i]].annotation.tags ==> ids[i] !in IdList(tags, t)
  }

  /** A successful deletion keeps every earlier deleted id out of the lists,
      and adds its own id to the deleted ones. */
  lemma DeletedUnlisted(annotations: AnnotationsTree, ids: seq<string>, prev: DeleteRun, last: string)
    requires prev.result.Ok? && prev.done == |ids|
    requires OnlyRemoved(annotations, prev.annotations) && DoneUnlisted(annotations, ids, prev.done, prev.tags)
    requires DeletionOf(prev.annotations, prev.tags, last).result.Ok?
    ensures DoneUnlisted(annotations, ids + [last], |ids| + 1, DeletionOf(prev.annotations, prev.tags, last).tags)
  {
    var after := DeletionOf(prev.annotations, prev.tags, last).tags;
    var all := ids + [last];
    DeletionOk(prev.annotations, prev.tags, last);
    DeleteKnown(prev.annotations, prev.tags, last);
    assert all[|ids|] == last;
    forall i | 0 <= i < |ids|
      ensures all[i] in annotations && annotations[all[i]].Serialized?
    {
      assert all[i] == ids[i];
    }
    forall i, t | 0 <= i < |all| && t in annotations[all[i]].annotation.tags
      ensures all[i] !in IdList(after, t)
    {
      if i < |ids| {
        assert all[i] == ids[i];
        DeletionKeepsOut(prev.annotations, prev.tags, last, ids[i], t);
      }
    }
  }

  /** One more turn of the loop keeps both facts. */
  lemma DeleteNextUnlisted(annotations: AnnotationsTree, ids: seq<string>, prev: DeleteRun, last: string)
    requires prev.done <= |ids| && (prev.result.Ok? ==> prev.done == |ids|)
    requires OnlyRemoved(annotations, prev.annotations) && DoneUnlisted(annotations, ids, prev.done, prev.tags)
    ensures var run := DeleteNext(prev, last);
      OnlyRemoved(annotations, run.annotations) && DoneUnlisted(annotations, ids + [last], run.done, run.tags)
  {
    var all := ids + [last];
    assert forall i :: 0 <= i < |ids| ==> all[i] == ids[i];
    if prev.result.Ok? {
      var d := DeletionOf(prev.annotations, prev.tags, last);
      if d.result.Ok? {
        DeletedUnlisted(annotations, ids, prev, last);
      }
    }
  }

  /** The loop only removes records, and every record it deleted was stored
      and decodable; afterwards none of that record's tags lists its id. */
  lemma {:induction false} DeleteEachUnlisted(annotations: AnnotationsTree, tags: IndexTree, ids: seq<string>)
    ensures var run := DeleteEach(annotations, tags, ids);
      OnlyRemoved(annotations, run.annotations) && DoneUnlisted(annotations, ids, run.done, run.tags)
  {
    if ids != [] {
      var init := ids[..|ids| - 1];
      var last := ids[|ids| - 1];
      DeleteEachUnlisted(annotations, tags, init);
      DeleteNextUnlisted(annotations, init, DeleteEach(annotations, tags, init), last);
      assert init + [last] == ids;
    }
  }

  /** Once the loop fails on a prefix of the ids, it fails the same way on all of them. */
  lemma {:induction false} DeleteEachPrefixErr(annotations: AnnotationsTree, tags: IndexTree, ids: seq<string>, n: nat)
    requires n <= |ids| && DeleteEach(annotations, tags, ids[..n]).result.Err?
    ensures DeleteEach(annotations, tags, ids) == DeleteEach(annotations, tags, ids[..n])
    decreases |ids| - n
  {
    if n < |ids| {
      assert ids[..n + 1][..n] == ids[..n];
      DeleteEachPrefixErr(annotations, tags, ids, n + 1);
    } else {
      assert ids[..n] == ids;
    }
  }

  class Gooseberry {
    const db: Db
    const api: Api
    /** The configured group, unwrapped (a panic when unset) by every query. */
    const group: Option<string>
    /** `SearchQuery::default()` of the client crate. */
    const defaults: SearchQuery

    constructor (db: Db, api: Api, group: Option<string>, defaults: SearchQuery)
      ensures this.db == db && this.api == api && this.group == group && this.defaults == defaults
    {
      this.db := db;
      this.api := api;
      this.group := group;
      this.defaults := defaults;
    }

    /** The query `sync` starts from: 200 per page, oldest first, after the
      stored sync time, for this user and group. */
    function SyncQuery(cursor: Cursor): (q: SearchQuery)
      requires group.Some?
      ensures q.limit == 200 && q.order == Asc && q.searchAfter == cursor
      ensures q.user == api.user && q.group == group.value
      ensures q.sort == defaults.sort && q.tags == defaults.tags
    {
      defaults.(limit := 200, order := Asc, searchAfter := cursor, user := api.user, group := group.value)
    }

    /** `filter_annotations`'s query: the filters' query for this user and group. */
    function FilterQuery(f: Filters): (q: SearchQuery)
      requires group.Some? && Admissible(f)
      ensures q.user == api.user && q.group == group.value
      ensures q.limit == 200
      ensures f.from.Some? ==> q.searchAfter == At(f.from.value)
      ensures f.before.Some? ==> q.searchAfter == At(f.before.value)
      ensures f.from.None? && f.before.None? ==> q.searchAfter == MinDate
      ensures q.order == Desc <==> f.before.Some?
      ensures q.sort == Updated <==> f.includeUpdated
      ensures q.uriParts == f.uri && q.any == f.any && q.tags == f.tags
      ensures FiltersOf(q) == f
    {
      IntoSearchQuery(f, defaults).(user := api.user, group := group.value)
    }

    /** `api_fetch_annotations`: pages are requested until an empty one
      comes back; after each page the cursor moves to its last record. */
    method ApiFetchAnnotations(query: SearchQuery, ghost fuel: nat) returns (r: Result<seq<RemoteAnnotation>, Error>, q: SearchQuery)
      requires !Pull(api.search, query, fuel).Unfinished?
      ensures Pull(api.search, query, fuel).FetchFailed? ==> r == Err(Pull(api.search, query, fuel).error)
      ensures Pull(api.search, query, fuel).Fetched? ==>
        r == Ok(Pull(api.search, query, fuel).annotations) && q == Pull(api.search, query, fuel).query
    {
      var annotations := [];
      q := query;
      ghost var f := fuel;
      while true
        invariant Pull(api.search, query, fuel) == Prepend(annotations, Pull(api.search, q, f))
        invariant !Pull(api.search, q, f).Unfinished?
        decreases f
      {
        var next := api.search(q);
        if next.Err? {
          return Err(next.error), q;
        }
        if next.value == [] {
          assert Pull(api.search, q, f) == Fetched([], q);
          assert annotations + [] == annotations;
          break;
        }
        assert Pull(api.search, q, f) == Prepend(next.value, Pull(api.search, Advance(q, next.value), f - 1));
        q := q.(searchAfter := At(next.value[|next.value| - 1].updated));
        annotations := annotations + next.value;
        f := f - 1;
      }
      r := Ok(annotations);
    }

    /** `sync`: fetch everything after the stored sync time, hand it to
      `syncAnnotations` (the part of the sync not modelled here), and only
      when both succeed store the advanced cursor: the updated time of the
      last record fetched, or the old sync time when nothing was new. */
    method Sync(syncAnnotations: seq<RemoteAnnotation> -> Result<(nat, nat), Error>, ghost fuel: nat)
      returns (r: Result<(nat, nat), Error>)
      requires group.Some?
      requires !Pull(api.search, SyncQuery(db.lastSyncDate), fuel).Unfinished?
      modifies db`lastSyncDate
      ensures var f := Pull(api.search, SyncQuery(old(db.lastSyncDate)), fuel);
        && (f.FetchFailed? ==> r == Err(f.error) && db.lastSyncDate == old(db.lastSyncDate))
        && (f.Fetched? && syncAnnotations(f.annotations).Err? ==>
              r == syncAnnotations(f.annotations) && db.lastSyncDate == old(db.lastSyncDate))
        && (f.Fetched? && syncAnnotations(f.annotations).Ok? ==>
              && r == syncAnnotations(f.annotations)
              && (f.annotations == [] ==> db.lastSyncDate == old(db.lastSyncDate))
              && (f.annotations != [] ==> db.lastSyncDate == At(f.annotations[|f.annotations| - 1].updated)))
    {
      var query := SyncQuery(db.lastSyncDate);
      var fetched, advanced := ApiFetchAnnotations(query, fuel);
      if fetched.Err? {
        return Err(fetched.error);
      }
      var counts := syncAnnotations(fetched.value);
      if counts.Err? {
        return counts;
      }
      PullCursor(api.search, query, fuel);
      db.SetSyncTime(advanced.searchAfter);
      r := counts;
    }

    /** `filter_annotations`: every page matching the filters for this user
      and group. */
    method FilterAnnotations(filters: Filters, ghost fuel: nat) returns (r: Result<seq<RemoteAnnotation>, Error>)
      requires group.Some? && Admissible(filters)
      requires !Pull(api.search, FilterQuery(filters), fuel).Unfinished?
      ensures var f := Pull(api.search, FilterQuery(filters), fuel);
        && (f.FetchFailed? ==> r == Err(f.error))
        && (f.Fetched? ==> r == Ok(f.annotations))
    {
      var q;
      r, q := ApiFetchAnnotations(FilterQuery(filters), fuel);
    }

    /** The add branch of `tag`: the tag is added to each record in turn. */
    method AddTagToAll(annotations: seq<RemoteAnnotation>, tag: string)
      requires forall i :: 0 <= i < |annotations| ==> !HasTag(annotations[i], tag)
      modifies db`tags, api`updates
      ensures db.tags == MergeEach(old(db.tags), tag, Ids(annotations))
      ensures api.updates == old(api.updates) + AddUpdates(annotations, tag)
    {
      ghost var ids, sent := Ids(annotations), AddUpdates(annotations, tag);
      var i := 0;
      while i < |annotations|
        invariant 0 <= i <= |annotations|
        invariant db.tags == MergeEach(old(db.tags), tag, ids[..i])
        invariant api.updates == old(api.updates) + sent[..i]
      {
        var added := AddTagToAnnotation(db, api, annotations[i], tag);
        AddStep(annotations, tag, i);
        Associative(old(api.updates), sent[..i], [sent[i]]);
        i := i + 1;
      }
      assert sent[..i] == sent;
      assert Ids(annotations)[..i] == Ids(annotations);
    }

    /** One pass of that loop: record `i`'s writes and update are queued
      after those of the records before it. */
    method QueueOne(annotations: seq<RemoteAnnotation>, tag: string, i: nat, annotationBatch: Batch, tagBatch: Batch,
                    ghost ops0: seq<BatchOp>, ghost tagOps0: seq<BatchOp>, ghost updates0: seq<TagUpdate>)
      returns (r: Result<bool, Error>)
      requires annotationBatch != tagBatch
      requires i < |annotations| && HasTag(annotations[i], tag)
      requires tag !in db.tags ==> i == 0
      requires annotationBatch.ops == ops0 + AnnotationOps(annotations, tag)[..i]
      requires tagBatch.ops == tagOps0 + BulkDeleteTagOps(db.tags, tag, Ids(annotations)[..i])
      requires api.updates == updates0 + DeleteUpdates(annotations, tag)[..i]
      modifies annotationBatch, tagBatch, api`updates
      ensures tag !in db.tags ==>
        && r == Err(TagNotFound(tag))
        && annotationBatch.ops == ops0 + [AnnotationOps(annotations, tag)[0]]
        && tagBatch.ops == tagOps0
        && api.updates == updates0
      ensures tag in db.tags ==>
        && r.Ok?
        && annotationBatch.ops == ops0 + AnnotationOps(annotations, tag)[..i + 1]
        && tagBatch.ops == tagOps0 + BulkDeleteTagOps(db.tags, tag, Ids(annotations)[..i + 1])
        && api.updates == updates0 + DeleteUpdates(annotations, tag)[..i + 1]
    {
      var a := annotations[i];
      QueueStep(annotations, tag, i);
      r := DeleteTagFromAnnotation(db, api, a, annotationBatch, tag, tagBatch);
      if tag in db.tags {
        BulkDeleteTagOpsSnoc(db.tags, tag, Ids(annotations), i);
      }
    }

    /** The loop of the delete branch of `tag`: each record's removal is
      queued in the two batches. A tag without an entry fails at the first
      record, once its annotation write is queued and before anything else
      is. */
    method QueueTagDeletions(annotations: seq<RemoteAnnotation>, tag: string, annotationBatch: Batch, tagBatch: Batch)
      returns (r: Result<(), Error>)
      requires annotationBatch != tagBatch
      requires forall i :: 0 <= i < |annotations| ==> HasTag(annotations[i], tag)
      modifies annotationBatch, tagBatch, api`updates
      ensures annotations != [] && tag !in db.tags ==>
        && r == Err(TagNotFound(tag))
        && annotationBatch.ops == old(annotationBatch.ops) + [AnnotationOps(annotations, tag)[0]]
        && tagBatch.ops == old(tagBatch.ops)
        && api.updates == old(api.updates)
      ensures annotations == [] || tag in db.tags ==>
        && r == Ok(())
        && annotationBatch.ops == old(annotationBatch.ops) + AnnotationOps(annotations, tag)
        && tagBatch.ops == old(tagBatch.ops) + BulkDeleteTagOps(db.tags, tag, Ids(annotations))
        && api.updates == old(api.updates) + DeleteUpdates(annotations, tag)
    {
      var i := 0;
      while i < |annotations|
        invariant 0 <= i <= |annotations|
        invariant tag !in db.tags ==> i == 0
        invariant annotationBatch.ops == old(annotationBatch.ops) + AnnotationOps(annotations, tag)[..i]
        invariant tagBatch.ops == old(tagBatch.ops) + BulkDeleteTagOps(db.tags, tag, Ids(annotations)[..i])
        invariant api.updates == old(api.updates) + DeleteUpdates(annotations, tag)[..i]
      {
        var done := QueueOne(annotations, tag, i, annotationBatch, tagBatch, old(annotationBatch.ops), old(tagBatch.ops), old(api.updates));
        if done.Err? {
          return Err(done.error);
        }
        i := i + 1;
      }
      assert AnnotationOps(annotations, tag)[..i] == AnnotationOps(annotations, tag);
      assert DeleteUpdates(annotations, tag)[..i] == DeleteUpdates(annotations, tag);
      assert Ids(annotations)[..i] == Ids(annotations);
      r := Ok(());
    }

    /** The delete branch of `tag`: the removals are queued in two fresh
      batches, which are applied after the loop, the annotation batch
      first; nothing is written when queuing fails. */
    method DeleteTagFromAll(annotations: seq<RemoteAnnotation>, tag: string) returns (r: Result<(), Error>)
      requires forall i :: 0 <= i < |annotations| ==> HasTag(annotations[i], tag)
      modifies db`tags, db`annotationToTags, api`updates
      ensures annotations != [] && tag !in old(db.tags) ==>
        && r == Err(TagNotFound(tag))
        && db.tags == old(db.tags) && db.annotationToTags == old(db.annotationToTags)
        && api.updates == old(api.updates)
      ensures annotations == [] || tag in old(db.tags) ==>
        && r == Ok(())
        && db.annotationToTags == ApplyBatch(old(db.annotationToTags), AnnotationOps(annotations, tag))
        && db.tags == ApplyBatch(old(db.tags), BulkDeleteTagOps(old(db.tags), tag, Ids(annotations)))
        && api.updates == old(api.updates) + DeleteUpdates(annotations, tag)
    {
      var tagBatch := new Batch();
      var annotationBatch := new Batch();
      r := QueueTagDeletions(annotations, tag, annotationBatch, tagBatch);
      if r.Err? {
        return;
      }
      assert [] + AnnotationOps(annotations, tag) == AnnotationOps(annotations, tag);
      assert annotationBatch.ops == AnnotationOps(annotations, tag);
      ghost var tagOps := BulkDeleteTagOps(db.tags, tag, Ids(annotations));
      assert [] + tagOps == tagOps;
      assert tagBatch.ops == tagOps;
      db.ApplyToAnnotationToTags(annotationBatch);
      db.ApplyToTags(tagBatch);
    }

    /** `tag`: fetch the filtered records, keep those carrying the tag
      (delete) or lacking it (add), narrow to the picked ids, then add the
      tag to each or delete it from each. */
    method Tag(filters: Filters, delete: bool, picked: Option<set<string>>, tag: string, ghost fuel: nat)
      returns (r: Result<(), Error>)
      requires group.Some? && Admissible(filters)
      requires !Pull(api.search, FilterQuery(filters), fuel).Unfinished?
      modifies db`tags, db`annotationToTags, api`updates
      ensures var f := Pull(api.search, FilterQuery(filters), fuel);
        f.FetchFailed? ==>
          && r == Err(f.error)
          && db.tags == old(db.tags) && db.annotationToTags == old(db.annotationToTags)
          && api.updates == old(api.updates)
      ensures var f := Pull(api.search, FilterQuery(filters), fuel);
        f.Fetched? && !delete ==>
          var sel := Picked(SelectByTag(f.annotations, tag, false), picked);
          && r == Ok(())
          && db.tags == MergeEach(old(db.tags), tag, Ids(sel))
          && db.annotationToTags == old(db.annotationToTags)
          && api.updates == old(api.updates) + AddUpdates(sel, tag)
      ensures var f := Pull(api.search, FilterQuery(filters), fuel);
        f.Fetched? && delete ==>
          var sel := Picked(SelectByTag(f.annotations, tag, true), picked);
          if sel != [] && tag !in old(db.tags) then
            && r == Err(TagNotFound(tag))
            && db.tags == old(db.tags) && db.annotationToTags == old(db.annotationToTags)
            && api.updates == old(api.updates)
          else
            && r == Ok(())
            && db.annotationToTags == ApplyBatch(old(db.annotationToTags), AnnotationOps(sel, tag))
            && db.tags == ApplyBatch(old(db.tags), BulkDeleteTagOps(old(db.tags), tag, Ids(sel)))
            && api.updates == old(api.updates) + DeleteUpdates(sel, tag)
    {
      var fetched := FilterAnnotations(filters, fuel);
      if fetched.Err? {
        return Err(fetched.error);
      }
      var annotations := Picked(SelectByTag(fetched.value, tag, delete), picked);
      forall i | 0 <= i < |annotations|
        ensures HasTag(annotations[i], tag) == delete
      {
        assert annotations[i] in annotations;
      }
      if delete {
        r := DeleteTagFromAll(annotations, tag);
      } else {
        AddTagToAll(annotations, tag);
        r := Ok(());
      }
    }

    /** The loop of `delete`: each record deleted locally and then remotely,
      stopping at the first local error. */
    method DeleteAll(annotations: seq<RemoteAnnotation>) returns (r: Result<(), Error>)
      modifies db`annotations, db`tags, api`deletions
      ensures var run := DeleteEach(old(db.annotations), old(db.tags), Ids(annotations));
        && r == run.result
        && db.annotations == run.annotations && db.tags == run.tags
        && api.deletions == old(api.deletions) + Ids(annotations)[..run.done]
    {
      var ids := Ids(annotations);
      var i := 0;
      while i < |annotations|
        invariant 0 <= i <= |annotations|
        invariant DeleteEach(old(db.annotations), old(db.tags), ids[..i]) == DeleteRun(Ok(()), db.annotations, db.tags, i)
        invariant api.deletions == old(api.deletions) + ids[..i]
      {
        DeleteEachSnoc(old(db.annotations), old(db.tags), ids, i);
        Snoc(ids, i);
        var deleted := db.DeleteAnnotation(ids[i]);
        if deleted.Err? {
          DeleteEachPrefixErr(old(db.annotations), old(db.tags), ids, i + 1);
          return Err(deleted.error);
        }
        api.DeleteAnnotation(ids[i]);
        i := i + 1;
      }
      assert ids[..i] == ids;
      r := Ok(());
    }

    /** `delete`: fetch the filtered records, narrow to the picked ids, and
      delete them when something is left and deletion is forced or
      confirmed. */
    method Delete(filters: Filters, picked: Option<set<string>>, force: bool, confirmed: bool, ghost fuel: nat)
      returns (r: Result<(), Error>)
      requires group.Some? && Admissible(filters)
      requires !Pull(api.search, FilterQuery(filters), fuel).Unfinished?
      modifies db`annotations, db`tags, api`deletions
      ensures var f := Pull(api.search, FilterQuery(filters), fuel);
        f.FetchFailed? ==>
          && r == Err(f.error)
          && db.annotations == old(db.annotations) && db.tags == old(db.tags)
          && api.deletions == old(api.deletions)
      ensures var f := Pull(api.search, FilterQuery(filters), fuel);
        f.Fetched? ==>
          var sel := Picked(f.annotations, picked);
          if sel == [] || !(force || confirmed) then
            && r == Ok(())
            && db.annotations == old(db.annotations) && db.tags == old(db.tags)
            && api.deletions == old(api.deletions)
          else
            var run := DeleteEach(old(db.annotations), old(db.tags), Ids(sel));
            && r == run.result
            && db.annotations == run.annotations && db.tags == run.tags
            && api.deletions == old(api.deletions) + Ids(sel)[..run.done]
    {
      var fetched := FilterAnnotations(filters, fuel);
      if fetched.Err? {
        return Err(fetched.error);
      }
      var annotations := Picked(fetched.value, picked);
      if annotations != [] && (force || confirmed) {
        r := DeleteAll(annotations);
      } else {
        r := Ok(());
      }
    }
  }
}
