/** The id-list codec of src/utils.rs: a tag's index entry is the list of
    annotation ids joined with `;`. */
module Utils {
  import opened Strings

  /** `SEMICOLON`, ASCII 59. */
  const Semicolon: char := 59 as char

  /** `split_ids`: the pieces of an index entry between semicolons. */
  function SplitIds(s: string): (ids: seq<string>)
    ensures |ids| == Occurrences(s, Semicolon) + 1
    ensures forall i :: 0 <= i < |ids| ==> Semicolon !in ids[i]
  {
    Split(s, Semicolon)
  }

  /** `join_ids`: the ids with one semicolon between consecutive ones. */
  function JoinIds(ids: seq<string>): (s: string)
    ensures ids == [] ==> s == []
    ensures |ids| == 1 ==> s == ids[0]
  {
    Join(ids, [Semicolon])
  }

  /** Joining puts exactly one semicolon between consecutive ids and none
      elsewhere: the entry holds `|ids| - 1` semicolons. */
  lemma JoinIdsSeparators(ids: seq<string>)
    requires ids != []
    requires forall i :: 0 <= i < |ids| ==> Semicolon !in ids[i]
    ensures Occurrences(JoinIds(ids), Semicolon) == |ids| - 1
  {
    JoinSeparators(ids, Semicolon);
  }

  /** Ids without semicolons survive a join and a split. */
  lemma IdsRoundTrip(ids: seq<string>)
    requires ids != []
    requires forall i :: 0 <= i < |ids| ==> Semicolon !in ids[i]
    ensures SplitIds(JoinIds(ids)) == ids
  {
    SplitJoin(ids, Semicolon);
  }

  /** Every index entry is the join of its own split. */
  lemma EntryRoundTrip(s: string)
    ensures JoinIds(SplitIds(s)) == s
  {
    JoinSplit(s, Semicolon);
  }
}
