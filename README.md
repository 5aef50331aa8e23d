# gooseberry, modelled in Dafny

gooseberry keeps a local mirror of a user's Hypothesis annotations. The mirror is a sled database with three parts:

- an `annotations` tree, mapping each id to its record;
- a `tags` index, mapping each tag to a `;`-joined list of ids;
- a last-sync date.

From the mirror, gooseberry writes a knowledge base and an mdBook wiki. This project models the core of that program as Dafny. It covers:

- **Store and index** (`database.dfy`). `Database.Db` is a class holding the sled trees as maps. `Database.Batch` holds the writes queued for one `apply_batch`. The module has the append-only `merge_index` operator and the insert, merge, lookup, date-range scan and delete operations, with their `TagNotFound` and `AnnotationNotFound` errors.
- **Id-list codec** (`utils.dfy`). `split_ids` and `join_ids` over `;`, with both round trips.
- **One-annotation tag edits** (`tag_edit.dfy`). `add_tag_to_annotation` and `delete_tag_from_annotation`, with their index writes and the remote update they send.
- **Commands** (`gooseberry.dfy`):
  - the paginated fetch loop;
  - `sync`, with the order of its cursor reads and writes;
  - selection by tag presence and by picked ids;
  - the add and delete branches of `tag`;
  - the deletion loop of `delete`.
- **Filters to query** (`cli.dfy`). `Into<SearchQuery> for Filters`.
- **Knowledge base** (`knowledge_base.dfy`):
  - `replace_spaces`;
  - the `AnnotationTemplate` defaults;
  - grouping by tag, URI, title, base URI or id;
  - the stable lexicographic multi-key sort;
  - the 250-character leaf page name.
- **Markdown** (`markdown.dfy`):
  - quote and tag-row formatting;
  - the layout choice of `to_md`;
  - the page loop of `make_book`, which writes the tag pages, the note counts and the tag co-occurrence graph;
  - the mermaid index text.
- **Support modules.** `wrappers.dfy` (`Option`, `Result`), `errors.dfy` (the error kinds), `strings.dfy` (join, split, trim, replace and decimal formatting, as the Rust standard library provides them), `lex.dfy` (string ordering), and `hypothesis.dfy` (the service's records and an abstract client).

The remote service is modelled as follows:

- A search is a function from query to page, or to an error.
- Updates and deletions sent to the service are appended to logs on `Hypothesis.Api`.

The following are function-valued inputs rather than code:

- other crates: `url` parsing, chrono date text, `uri_to_filename`, `sanitize`, `clean_uri`;
- `sync_annotations` and `get_sync_time`, whose code is not part of this model;
- the skim fuzzy-search window;
- the `Confirm` prompt.

## Model

| member | source | states |
|---|---|---|
| Database.MergeIndex | src/gooseberry/database.rs:10-17 | Always `Some`, so the key is never deleted. With no old value the result is exactly the new id. With a non-empty old value it is old, `;`, new. |
| Database.MergeAppends | src/gooseberry/database.rs:10-17 | A merge appends the id at the end of the tag's id list, and no entry becomes empty. |
| Database.MergeStep | src/gooseberry/database.rs:57-64 | One merge extends the merged tag's list by the id and leaves every other tag's list unchanged. |
| Database.MergeAllIdList | src/gooseberry/database.rs:57-64 | After `add_to_tags`, each tag's list is its old list followed by one copy of the id per occurrence of the tag. |
| Database.AddedIdListed | src/gooseberry/database.rs:67-74 | After a record is added, each of its tags lists its id. |
| Database.AddTwiceDuplicates | src/gooseberry/database.rs:57-64 | Merging is append-only: adding the same record twice lists its id twice under each tag, with no dedup. |
| Database.Db.AddToTag | src/gooseberry/database.rs:57-64 | One merge of the id into the tag's entry; only the tags tree changes. |
| Database.Db.AddToTags | src/gooseberry/database.rs:57-64 | The loop merges the id under every tag in order, and the tags tree equals `MergeAll`. |
| Database.Db.AddAnnotation | src/gooseberry/database.rs:67-74 | The record is stored under its id, and its id is merged under each of its tags. |
| Database.GetTaggedAnnotations | src/gooseberry/database.rs:127-136 | Fails with `TagNotFound` exactly when the tag has no entry. Otherwise returns the entry's non-empty id list. |
| Database.GetAnnotation | src/gooseberry/database.rs:139-147 | A missing id gives `AnnotationNotFound` and an undecodable value gives a decode error. Otherwise it returns the stored record. |
| Database.GetAnnotations | src/gooseberry/database.rs:150-155 | All or nothing: it succeeds exactly when every id resolves, giving one record per id in id order. Otherwise it fails with the error of a failing id. |
| Database.RangeScan | src/gooseberry/database.rs:164-177 | Keeps exactly the decodable records whose date lies in `[from, to)`. The date is `updated` when `include_updated` is set, else `created`. |
| Database.ListAnnotationsInDateRange | src/gooseberry/database.rs:158-178 | A record is listed exactly when it is stored decodable and its date is in range. |
| Database.DeleteFromTagOp | src/gooseberry/database.rs:77-99 | `TagNotFound` exactly when the tag has no entry. Otherwise it gives one write for that tag key. |
| Database.DeleteFromTagEffect | src/gooseberry/database.rs:84-97 | Applying the write drops every occurrence of the id and keeps the other ids in order. The entry is removed when nothing remains. |
| Database.Db.DeleteFromTag | src/gooseberry/database.rs:77-99 | Only the batch changes. On success it gains exactly the write above; on a missing tag it stays as it was and `TagNotFound` is returned. |
| Database.ApplyBatchLastWrite | src/gooseberry/database.rs:122 | Of several queued writes to one key, the last decides the key's entry after `apply_batch`. |
| Database.ApplyBatchUntouched | src/gooseberry/database.rs:122 | A key that no queued write names keeps its entry. |
| Database.DeleteOps | src/gooseberry/database.rs:118-121 | The loop succeeds exactly when every tag has an entry, giving one write per tag. Otherwise the first missing tag's `TagNotFound` is returned. |
| Database.Db.DeleteFromAnnotationsTree | src/gooseberry/database.rs:102-113 | The id is removed from the annotations tree whether or not it decodes. The result is what `get_annotation` would have returned. |
| Database.DeleteUnknown | src/gooseberry/database.rs:102-117 | Deleting an unknown id fails with `AnnotationNotFound` and leaves both trees unchanged. |
| Database.DeleteKnown | src/gooseberry/database.rs:116-124 | Deleting a stored record whose tags all have entries returns the record and removes it. Each of its tags' lists loses exactly that id, keeping the rest in order, so none holds it. Other tags' entries are unchanged. |
| Database.DeletionOk | src/gooseberry/database.rs:102-124 | A deletion succeeds only when the id names a stored, decodable record and every tag of that record has an entry. |
| Database.DeletionKeepsOut | src/gooseberry/database.rs:116-124 | A successful deletion never brings any id into any tag's list. |
| Database.DeleteMissingTag | src/gooseberry/database.rs:117-122 | When one of the record's tags has no entry, the record is already gone, the tags tree is untouched, and `TagNotFound` names that tag. |
| Database.Db.DeleteAnnotation | src/gooseberry/database.rs:116-124 | The result and both trees afterwards are those `DeletionOf` describes. |
| Database.Db.ResetSyncDate | src/gooseberry/database.rs:33-37 | The sync date becomes `MIN_DATE`, and nothing else changes. |
| Database.Db.SetSyncDate | src/gooseberry/database.rs:40-44 | The sync date becomes the given instant, and nothing else changes. |
| Utils.SplitIds | src/utils.rs:21-27 | One more piece than there are `;` in the input, so an empty input gives one empty id. No piece contains `;`. |
| Utils.JoinIdsSeparators | src/utils.rs:30-35 | `n` ids free of `;` are joined with exactly `n - 1` semicolons. |
| Utils.IdsRoundTrip | src/utils.rs:21-35 | `split_ids(join_ids(xs)) == xs` for non-empty `xs` whose ids contain no `;`. |
| Utils.EntryRoundTrip | src/utils.rs:21-35 | `join_ids(split_ids(s)) == s` for every entry. |
| TagEdit.AddTagToAnnotation | src/gooseberry/tag.rs:7-35 | Returns false, with no index write and no update, exactly when the tag is already present. Otherwise: the id is merged under the tag; the upstream update carries the list with the tag appended (still `None` when there was no list); the result is true. |
| TagEdit.DeleteTagFromAnnotation | src/gooseberry/tag.rs:38-70 | Returns false, with no queued writes, when the list is `None` or lacks the tag. Otherwise: the annotation batch gains id to the joined remaining tags; the tag batch gains the index removal; the update carries the tags without the removed one; the result is true. |
| TagEdit.PushTag | src/gooseberry/tag.rs:22-24 | The tag is appended at the end of an existing list, and a `None` list stays `None`. |
| TagEdit.AddThenDeleteTag | src/gooseberry/tag.rs:22-24 | Adding a fresh tag and then removing it gives back the original tag list. |
| TagEdit.IndexRoundTrip | src/gooseberry/tag.rs:26 | Merging a fresh id under a tag and then deleting it from that tag restores the tag's entry, including removing an entry the merge created. |
| Gooseberry.PullCursor | src/gooseberry/mod.rs:221-230 | After the loop the cursor is the `updated` time of the last record of the last non-empty page. It is unchanged when the first page is empty, and no other query field changes. |
| Gooseberry.Gooseberry.ApiFetchAnnotations | src/gooseberry/mod.rs:216-231 | Returns the pages in fetch order, concatenated and stopped at the first empty page, together with the advanced query. The first failing request's error is returned instead. |
| Gooseberry.Gooseberry.SyncQuery | src/gooseberry/mod.rs:84-91 | The sync query asks for 200 per page, ascending, after the stored cursor, for this user and group. |
| Gooseberry.Gooseberry.Sync | src/gooseberry/mod.rs:83-99 | The sync date is written only after every page was fetched and handed over successfully, and then it is the advanced cursor. On any error it stays as it was. |
| Gooseberry.Gooseberry.FilterQuery | src/gooseberry/mod.rs:101-104 | This user and group, 200 per page, and `search_after` from `from`, from `before` or `MIN_DATE`. The order is `Desc` exactly when `before` is set, and the sort is `Updated` exactly when `include_updated` is set. `uri`, `any` and `tags` pass through, so the filters can be read back from the query. |
| Gooseberry.Gooseberry.FilterAnnotations | src/gooseberry/mod.rs:101-109 | Every page matching the filter query, in fetch order, or the fetch error. |
| Gooseberry.SelectByTag | src/gooseberry/mod.rs:118-136 | In delete mode it keeps exactly the records carrying the tag; in add mode exactly those without it. A missing list counts as not carrying it. |
| Gooseberry.SelectByTagFilter | src/gooseberry/mod.rs:118-136 | The selection distributes over concatenation, so each record is kept or dropped on its own and the kept ones stay in input order, duplicates included. |
| Gooseberry.SelectByTagOne | src/gooseberry/mod.rs:118-136 | A single record is kept exactly when its tag presence matches the mode. |
| Gooseberry.SelectPartition | src/gooseberry/mod.rs:118-136 | The two modes split the fetched records between them: their sizes add up to the input size. |
| Gooseberry.NarrowToIds | src/gooseberry/mod.rs:137-144 | Keeps exactly the records whose ids were picked. |
| Gooseberry.NarrowToIdsFilter | src/gooseberry/mod.rs:137-144 | Narrowing distributes over concatenation, so the picked records stay in their original order, duplicates included. |
| Gooseberry.NarrowToIdsOne | src/gooseberry/mod.rs:137-144 | A single record is kept exactly when its id was picked. |
| Gooseberry.Gooseberry.AddTagToAll | src/gooseberry/mod.rs:159-163 | Every selected record's id is merged under the tag, in order, and one update per record is logged. |
| Gooseberry.Gooseberry.QueueTagDeletions | src/gooseberry/mod.rs:146-156 | The loop fills the two batches. If the tag has no index entry, it stops with `TagNotFound` after queueing only the first record's tag rewrite. Otherwise every record's rewrite and index removal are queued in order. |
| Gooseberry.Gooseberry.DeleteTagFromAll | src/gooseberry/mod.rs:146-158 | Both batches are filled before anything is applied. On success the annotation batch is applied first and the tag batch second. On an error neither is applied. |
| Gooseberry.Gooseberry.Tag | src/gooseberry/mod.rs:111-165 | Fetches, selects by tag presence, narrows to picked ids, and then runs the delete or the add branch. Each outcome and each tree afterwards is stated per case. |
| Gooseberry.BulkDeleteTagOps | src/gooseberry/mod.rs:146-158 | The tag batch as written holds one write per selected record, each for the deleted tag's key. |
| Gooseberry.BulkDeleteLastWins | src/gooseberry/database.rs:84-96 | Each of those writes is computed from the tree before the batch, so the last one alone decides the entry. |
| Gooseberry.BulkDeleteStaleId | src/gooseberry/mod.rs:146-158 | Counterexample: with entry `T -> a1;a2` and both records selected, `a1` is still listed under `T` after the batch. |
| Gooseberry.BulkDeleteCorrectedRemovesAll | src/gooseberry/mod.rs:146-158 | Each write is computed from the tree as the earlier writes leave it. The tag's list then becomes the old list without the selected ids, in order. The entry stays exactly when that list is not empty, and no selected id remains under the tag. |
| Gooseberry.BulkDeleteCorrectedOthers | src/gooseberry/mod.rs:146-158 | The corrected batch leaves every other tag's entry unchanged. |
| Gooseberry.DeleteEachRemoves | src/gooseberry/mod.rs:184-187 | Every id the loop reached is gone from the annotations tree, the failing one included. Every other record is still there, including those of ids after the point where the loop stopped. |
| Gooseberry.DeleteEachUnlisted | src/gooseberry/mod.rs:184-187 | The loop only removes records. Every record it deleted was stored and decodable, and afterwards none of that record's tags lists its id. |
| Gooseberry.DeleteEachPrefixErr | src/gooseberry/mod.rs:184-187 | The first failing deletion stops the loop, and later ids are never touched. |
| Gooseberry.Gooseberry.DeleteAll | src/gooseberry/mod.rs:184-187 | Each record is deleted locally and then remotely, in order, up to the first error. |
| Gooseberry.Gooseberry.Delete | src/gooseberry/mod.rs:167-190 | Nothing changes on an empty selection or without force or confirmation. Otherwise the selected records go through the deletion loop. |
| Cli.IntoSearchQuery | src/gooseberry/cli.rs:141-165 | The limit is 200. `search_after` is the `from` date, the `before` date, or `MIN_DATE`. The order is `Desc` exactly when `before` is set. The sort is `Updated` exactly when `include_updated` is set. `uri`, `any` and `tags` pass through. |
| Cli.FiltersRoundTrip | src/gooseberry/cli.rs:141-165 | The mapping loses nothing: the filters can be read back from the query. |
| KnowledgeBase.ReplaceSpacesEscapes | src/gooseberry/knowledge_base.rs:40-42 | `replace_spaces` equals the per-character reference: each space becomes backslash-space, and every other character is kept. |
| KnowledgeBase.EscapeSpacesInsertsBackslashes | src/gooseberry/knowledge_base.rs:40-42 | Removing the inserted backslashes gives the input back (when the input has none). |
| KnowledgeBase.EscapedSpacesFollowBackslash | src/gooseberry/knowledge_base.rs:40-42 | In the output, every space is preceded by a backslash. |
| KnowledgeBase.EscapeSpacesLength | src/gooseberry/knowledge_base.rs:40-42 | The output is longer than the input by the number of spaces. |
| KnowledgeBase.FromAnnotation | src/gooseberry/knowledge_base.rs:45-79 | The title is "Untitled document" unless a document with a non-empty title list exists, in which case it is the first title. `incontext` is `links["incontext"]`, else the uri. `display_name` comes from `user_info`, else `None`. |
| KnowledgeBase.BucketKeys | src/gooseberry/knowledge_base.rs:167-221 | For `Tag`, an untagged record has the one key `EMPTY_TAG`, and a tagged one has one key per tag with the nesting marker replaced by the path separator. Each other order gives one key. |
| KnowledgeBase.GroupedBuckets | src/gooseberry/knowledge_base.rs:161-226 | Each bucket holds, in input order, exactly the records that have its key. A key has a bucket exactly when some record has it. |
| KnowledgeBase.UntaggedOnlyInEmptyTag | src/gooseberry/knowledge_base.rs:171-175 | An untagged record lands in the `EMPTY_TAG` bucket and in no other. |
| KnowledgeBase.TaggedInEachTagBucket | src/gooseberry/knowledge_base.rs:176-186 | A tagged record lands in the bucket of each of its (nested) tags. |
| KnowledgeBase.SingleKeyBuckets | src/gooseberry/knowledge_base.rs:190-221 | For the URI, Title, BaseURI and ID orders, a bucket is the input filtered by that key, in input order. |
| KnowledgeBase.SingleKeyPartition | src/gooseberry/knowledge_base.rs:190-221 | For those orders, over distinct keys that cover every record, the bucket sizes add up to the input length. |
| KnowledgeBase.GroupAnnotationsByOrder | src/gooseberry/knowledge_base.rs:161-226 | The nested push loops build exactly the grouping above. |
| KnowledgeBase.CompareLexicographic | src/gooseberry/knowledge_base.rs:229-247 | The comparator fold is lexicographic order on the list of key texts: a later key decides only when all earlier keys tie. |
| KnowledgeBase.CompareFlip | src/gooseberry/knowledge_base.rs:229-247 | The comparator is antisymmetric. |
| KnowledgeBase.CompareTransitive | src/gooseberry/knowledge_base.rs:229-247 | The comparator is transitive. |
| KnowledgeBase.SortPermutes | src/gooseberry/knowledge_base.rs:228-249 | The sorted list is a permutation of the input. |
| KnowledgeBase.SortOrdered | src/gooseberry/knowledge_base.rs:228-249 | The sorted list is ordered by the comparator. |
| KnowledgeBase.SortStable | src/gooseberry/knowledge_base.rs:228-249 | The sort is stable: records that tie on every key keep their input order. |
| KnowledgeBase.SortWithoutFields | src/gooseberry/knowledge_base.rs:228-249 | An empty key list leaves the order unchanged. |
| KnowledgeBase.LeafPageName | src/gooseberry/knowledge_base.rs:372-376 | The folder path cut to at most 250 characters, then ".", then the extension. |
| Markdown.QuoteLines | src/gooseberry/markdown.rs:27-36 | One "> "-prefixed line per text-quote selector. The result is empty exactly when no selector quotes text. |
| Markdown.QuoteLinesExact | src/gooseberry/markdown.rs:27-36 | A line "> e" is written exactly when some selector quotes `e`; other selectors are dropped. |
| Markdown.QuoteBlank | src/gooseberry/markdown.rs:22-41 | The joined quote is blank after trimming exactly when no target carries a text-quote selector. |
| Markdown.FormatTags | src/gooseberry/markdown.rs:43-67 | The row is empty exactly when there are no tags. |
| Markdown.FormatTagsCells | src/gooseberry/markdown.rs:43-67 | Cut at `\|`, the row gives back one ` **t** ` (or linked) cell per tag, in order, between two empty ends. It holds one more `\|` than there are tags. |
| Markdown.ToMd | src/gooseberry/markdown.rs:69-95 | Fails with the uri's parse error exactly when the uri does not parse, whether or not links are written. |
| Markdown.ToMdLayout | src/gooseberry/markdown.rs:83-93 | The block is the heading, the tag row, the quote block (only when some selector quotes text), the note and the context line. |
| Markdown.SortByCreated | src/gooseberry/markdown.rs:168 | A permutation of the fetched notes, ordered by creation time. |
| Markdown.RenderAll | src/gooseberry/markdown.rs:177-179 | Succeeds exactly when every note's uri parses. |
| Markdown.TagPage | src/gooseberry/markdown.rs:168-179 | The `EMPTY_TAG` page has no heading, and every other page is "# tag" and a newline. Either way the rest is the notes' blocks in creation order. The page fails exactly when a note's uri does not parse. |
| Markdown.BuildCountsLookup | src/gooseberry/markdown.rs:176 | `tag_counts` has one entry per tag page, holding the number of notes fetched for that tag. |
| Markdown.BuildGraphWellFormed | src/gooseberry/markdown.rs:180-190 | No tag is paired with itself, no pair is counted in both directions, and every count is at least one. |
| Markdown.AddEdgesCount | src/gooseberry/markdown.rs:180-190 | Over one note's tags, the edge (tag, other) gains one per occurrence of `other`, unless the reverse pair already exists. |
| Markdown.PageEdgeCount | src/gooseberry/markdown.rs:177-191 | Over a page, the edge (tag, other) grows by the number of the page's notes carrying `other`. It stays unchanged when (other, tag) was counted on an earlier page. |
| Markdown.CountEdges | src/gooseberry/markdown.rs:180-190 | The inner loop builds exactly `AddEdges`. |
| Markdown.WritePage | src/gooseberry/markdown.rs:171-191 | The page loop gives the page text and the updated graph, or the first parse error. |
| Markdown.MakeBookPages | src/gooseberry/markdown.rs:161-195 | Fails exactly when some page has a note whose uri does not parse. Otherwise: the counts and graph equal `BuildCounts` and `BuildGraph`; page `i`'s text is `TagPage` of page `i`. |
| Markdown.NotesLabelReadsBack | src/gooseberry/markdown.rs:212-224 | A label reads back as its count. "1 note" is used exactly for a count of one. |
| Markdown.MermaidText | src/gooseberry/markdown.rs:207-234 | The text begins with the mermaid header and ends with the closing fence. |
| Markdown.MakeMermaidGraph | src/gooseberry/markdown.rs:203-235 | The `push_str` sequence builds exactly the mermaid text: node lines, edge lines and click lines, in the maps' iteration order. |
| Markdown.MermaidLineCount | src/gooseberry/markdown.rs:207-234 | With line-free tag names, the text has 3 + 2 × (number of tags) + (number of pairs) lines: one node and one click line per tag, one edge line per pair, and three frame lines. |

## Left out

- UTF-8 decoding: a string here is already decoded text, so the `from_utf8` failures of `split_ids` and `u8_to_str` are not modelled.
- sled itself: trees are maps, and a batch is a list of writes applied in order. Durability, atomicity, I/O errors and the merge-operator registration are not modelled.
- bincode encoding: a stored value is either a record or `Corrupt` bytes.
- `Gooseberry.Gooseberry.Tag` and `Gooseberry.Gooseberry.Delete`: the fuzzy-search window is an input (`picked`), and so is the `Confirm` prompt (`confirmed`).
- Remote errors of `update_annotation` and `delete_annotation`: each call appends to a log and always succeeds. A failure part-way through the loops is not modelled.
- `sync_annotations` and `get_sync_time`: their code is not part of this model. The first is a function parameter of `Sync`. The second is the stored cursor.
- Gooseberry.Gooseberry.Sync: the writes `sync_annotations` makes to the annotations and tags trees are not modelled. The handover is a pure function, so the contract names only the sync date among the database's fields.
- Database.Db.AddToTag: `add_to_tag`, called from `tag.rs:26`, is not defined in the files modelled. It is taken to be one merge of the id into the tag's entry, as `add_to_tags` does for each tag.
- Database.Db: no class invariant keeps the tags tree free of empty entries. The merge lemmas take that as a precondition on the tree. Keeping it through deletion would need a stronger invariant: every listed id is non-empty.
- Database.ListAnnotationsInDateRange: states which records are listed, not their order (sled's key order).
- The textual form of `search_after` (`MIN_DATE.to_string()`, `to_rfc3339`): a cursor is `MinDate` or an instant.
- `Gooseberry.Gooseberry.ApiFetchAnnotations`: termination is not proved for every remote. Callers supply a ghost bound on the number of pages and require that the fetch finishes within it.
- Panics become preconditions:
  - both `--from` and `--before` (`Cli.IntoSearchQuery`);
  - an unset group (`group.Some?`);
  - the `Empty`, `Created` and `Updated` orders in grouping;
  - `Empty` among the sort keys.
- `KnowledgeBase.SortAnnotations`: `sort_by` works in place; the model sorts a value.
- `Markdown.SortByCreated`: the same, and its stability is not stated. The page order of ties between equal creation times is therefore not pinned down.
- Hash-map iteration order is an input. This covers the grouping result, the mermaid node, edge and click order, and the sled key order of tag pages.
- The knowledge-base and wiki output:
  - file and directory creation;
  - handlebars rendering;
  - `make`, `configure_kb`, `get_link_data`, `format_date`;
  - the `SUMMARY.md` link list;
  - `start_mermaid`, `make_book_toml`, the mdBook build.
- Of the hierarchy recursion in the knowledge base, only the leaf-page name truncation is modelled.
- `url::Url::parse`, `utils::base_url`, `uri_to_filename`, `sanitize`, `clean_uri` and chrono's date text are uninterpreted functions.
- `mod.rs` uses the trees `annotation_to_tags` and `tag_to_annotations`, which `database.rs` does not define. The first is the `annotationToTags` field of `Database.Db`. The second is the `tags` tree.
- The fetch of each tag's notes in `make_book` is an input (`Pages`), as is the `EMPTY_TAG` constant (a parameter).
- `clear`, `start`, `run`, configuration, search display strings and the async plumbing are not modelled.
- `Gooseberry.Gooseberry.Tag` models the delete branch as written, including the stale-id behaviour under Findings. The corrected batch is proved separately.

## Findings

| source | as written | input that shows it | evidently intended | confidence | as-written member | corrected member |
|---|---|---|---|---|---|---|
| src/gooseberry/mod.rs:146-158 with src/gooseberry/database.rs:84-96 | Each record's index write is computed from the tags tree before the batch, and queued as an insert of the same key. `apply_batch` keeps only the last write to a key, so only the last record's id is dropped. | Tag `T` with entry `a1;a2`, and both records selected for `tag --delete T` | Every selected record's id leaves `T`'s entry (the entry goes when none remain) | not executed | Gooseberry.BulkDeleteStaleId | Gooseberry.BulkDeleteCorrectedRemovesAll |
