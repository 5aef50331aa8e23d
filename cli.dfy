/** The filter options shared by the commands and the search query they
    become (`impl Into<SearchQuery> for Filters`, src/gooseberry/cli.rs). */
module Cli {
  import opened Wrappers
  import opened Hypothesis

  /** `--from`, `--before`, `--include-updated`, `--uri`, `--any`, `--tags`;
      dates already parsed. */
  datatype Filters = Filters(
    from: Option<Timestamp>,
    before: Option<Timestamp>,
    includeUpdated: bool,
    uri: string,
    any: string,
    tags: seq<string>)

  /** `--from` and `--before` are never both given: the argument parser
      declares them conflicting and the conversion panics on the pair. */
  predicate Admissible(f: Filters)
  {
    !(f.from.Some? && f.before.Some?)
  }

  /** The conversion. Fields the filters do not set come from `defaults`,
      the client crate's default query. */
  function IntoSearchQuery(f: Filters, defaults: SearchQuery): (q: SearchQuery)
    requires Admissible(f)
    ensures q.limit == 200
    ensures f.from.Some? ==> q.searchAfter == At(f.from.value)
    ensures f.before.Some? ==> q.searchAfter == At(f.before.value)
    ensures f.from.None? && f.before.None? ==> q.searchAfter == MinDate
    ensures q.order == Desc <==> f.before.Some?
    ensures q.sort == Updated <==> f.includeUpdated
    ensures q.uriParts == f.uri && q.any == f.any && q.tags == f.tags
    ensures q.user == defaults.user && q.group == defaults.group
  {
    defaults.(
      limit := 200,
      searchAfter := match (f.from, f.before)
        case (Some(date), None) => At(date)
        case (None, Some(date)) => At(date)
        case (None, None) => MinDate,
      uriParts := f.uri,
      any := f.any,
      tags := f.tags,
      order := if f.before.Some? then Desc else Asc,
      sort := if f.includeUpdated then Updated else Created)
  }

  /** The filters a query was built from, read back from its fields: an
      ascending query after an instant came from `--from`, a descending one
      from `--before`. */
  function FiltersOf(q: SearchQuery): (f: Filters)
    ensures Admissible(f)
  {
    Filters(
      if q.searchAfter.At? && q.order == Asc then Some(q.searchAfter.time) else None,
      if q.searchAfter.At? && q.order == Desc then Some(q.searchAfter.time) else None,
      q.sort == Updated,
      q.uriParts,
      q.any,
      q.tags)
  }

  /** The conversion loses nothing: every admissible set of filters can be
      read back from its query. */
  lemma FiltersRoundTrip(f: Filters, defaults: SearchQuery)
    requires Admissible(f)
    ensures FiltersOf(IntoSearchQuery(f, defaults)) == f
  {
  }
}
