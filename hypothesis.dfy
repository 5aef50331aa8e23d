/** The records the Hypothesis service hands out, the search query the core
    builds, and the remote client the core calls. The client is abstract:
    a search is a function from query to page, and every write it sends is
    appended to a log. */
module Hypothesis {
  import opened Wrappers
  import opened Errors

  /** An instant (chrono's `DateTime<Utc>`), ordered as time runs. */
  type Timestamp = int

  datatype Selector =
    | TextQuoteSelector(exact: string)
    | OtherSelector

  datatype Target = Target(source: string, selector: seq<Selector>)

  datatype Document = Document(title: seq<string>)

  datatype UserInfo = UserInfo(displayName: Option<string>)

  /** A stored annotation, as the local database, the knowledge base and the
      markdown writer see it (a tag list that is always present). */
  datatype Annotation = Annotation(
    id: string,
    uri: string,
    text: string,
    tags: seq<string>,
    created: Timestamp,
    updated: Timestamp,
    links: map<string, string>,
    target: seq<Target>,
    document: Option<Document>,
    userInfo: Option<UserInfo>)

  /** An annotation as the tagging and syncing commands receive it from the
      service, whose tag list may be absent. */
  datatype RemoteAnnotation = RemoteAnnotation(
    id: string,
    tags: Option<seq<string>>,
    updated: Timestamp)

  /** The `search_after` field: chrono's `MIN_DATE` text or the RFC 3339 text
      of an instant; the textual formats are left abstract. */
  datatype Cursor = MinDate | At(time: Timestamp)

  datatype Order = Asc | Desc

  datatype Sort = Created | Updated

  datatype SearchQuery = SearchQuery(
    limit: nat,
    searchAfter: Cursor,
    uriParts: string,
    any: string,
    tags: seq<string>,
    order: Order,
    sort: Sort,
    user: string,
    group: string)

  /** An `AnnotationMaker` carrying only a new tag list, as the core sends it. */
  datatype TagUpdate = TagUpdate(id: string, tags: Option<seq<string>>)

  /** The remote client. `search` answers a query with one page of records or
      an error; `updates` and `deletions` record, in order, the writes sent to
      the service. */
  class Api {
    const user: string
    const search: SearchQuery -> Result<seq<RemoteAnnotation>, Error>
    var updates: seq<TagUpdate>
    var deletions: seq<string>

    constructor (user: string, search: SearchQuery -> Result<seq<RemoteAnnotation>, Error>)
      ensures this.user == user && this.search == search
      ensures updates == [] && deletions == []
    {
      this.user := user;
      this.search := search;
      updates := [];
      deletions := [];
    }

    /** `update_annotation` with a new tag list. */
    method UpdateAnnotation(id: string, tags: Option<seq<string>>)
      modifies this`updates
      ensures updates == old(updates) + [TagUpdate(id, tags)]
    {
      updates := updates + [TagUpdate(id, tags)];
    }

    /** `delete_annotation`. */
    method DeleteAnnotation(id: string)
      modifies this`deletions
      ensures deletions == old(deletions) + [id]
    {
      deletions := deletions + [id];
    }
  }
}
