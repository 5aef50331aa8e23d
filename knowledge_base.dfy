/** The data shaping of src/gooseberry/knowledge_base.rs: escaping spaces,
    the per-annotation template with its defaults, grouping annotations into
    folders for one level of the hierarchy, the multi-key sort, and the name
    of a leaf page. URL parsing, `get_quotes`, `uri_to_filename`, `sanitize`,
    `clean_uri` and chrono's time formatting are uninterpreted functions
    passed in as `Helpers`. */
module KnowledgeBase {
  import opened Wrappers
  import opened Strings
  import opened Lex
  import opened Hypothesis

  /** The functions of other crates (and of files outside this model) that
      the knowledge base calls. */
  datatype Helpers = Helpers(
    /** The scheme-and-host prefix of a URI, `None` when `Url::parse` fails. */
    baseOf: string -> Option<string>,
    /** `utils::get_quotes`. */
    quotes: Annotation -> seq<string>,
    uriToFilename: string -> string,
    sanitize: string -> string,
    cleanUri: string -> string,
    /** chrono's `%+` formatting of an instant. */
    timeText: Timestamp -> string)

  const Space: char := ' '
  const Backslash: char := 92 as char

  /** Every space preceded by a backslash, one character at a time. */
  function EscapeSpaces(s: string): string
  {
    if s == [] then []
    else (if s[0] == Space then [Backslash, Space] else [s[0]]) + EscapeSpaces(s[1..])
  }

  /** `replace_spaces`. */
  function ReplaceSpaces(s: string): string
  {
    ReplaceAll(s, [Space], [Backslash, Space])
  }

  /** `replace(' ', "\\ ")` escapes exactly the spaces. */
  lemma {:induction false} ReplaceSpacesEscapes(s: string)
    ensures ReplaceSpaces(s) == EscapeSpaces(s)
  {
    if s != [] {
      assert s[..1] == [Space] <==> s[0] == Space;
      ReplaceSpacesEscapes(s[1..]);
    }
  }

  /** Escaping only inserts backslashes: without them the text is unchanged. */
  lemma {:induction false} EscapeSpacesInsertsBackslashes(s: string)
    ensures RemoveAll(EscapeSpaces(s), Backslash) == RemoveAll(s, Backslash)
  {
    if s != [] {
      var piece := if s[0] == Space then [Backslash, Space] else [s[0]];
      calc {
        RemoveAll(EscapeSpaces(s), Backslash);
        RemoveAll(piece + EscapeSpaces(s[1..]), Backslash);
        { RemoveAllAppend(piece, EscapeSpaces(s[1..]), Backslash); }
        RemoveAll(piece, Backslash) + RemoveAll(EscapeSpaces(s[1..]), Backslash);
        { EscapePieceBackslashes(s[0]); EscapeSpacesInsertsBackslashes(s[1..]); }
        RemoveAll([s[0]], Backslash) + RemoveAll(s[1..], Backslash);
        { RemoveAllAppend([s[0]], s[1..], Backslash); }
        RemoveAll([s[0]] + s[1..], Backslash);
        { assert [s[0]] + s[1..] == s; }
        RemoveAll(s, Backslash);
      }
    }
  }

  lemma EscapePieceBackslashes(c: char)
    ensures RemoveAll(if c == Space then [Backslash, Space] else [c], Backslash) == RemoveAll([c], Backslash)
  {
    if c == Space {
      assert [Backslash, Space][1..] == [Space];
      assert [Space][1..] == [];
    }
  }

  /** Escaping adds one character per space. */
  lemma {:induction false} EscapeSpacesLength(s: string)
    ensures |EscapeSpaces(s)| == |s| + Occurrences(s, Space)
  {
    if s != [] {
      EscapeSpacesLength(s[1..]);
    }
  }

  /** Every space follows a backslash. */
  predicate SpacesEscaped(r: string)
  {
    forall i :: 0 <= i < |r| && r[i] == Space ==> 0 < i && r[i - 1] == Backslash
  }

  lemma SpacesEscapedAppend(p: string, q: string)
    requires SpacesEscaped(p) && SpacesEscaped(q)
    ensures SpacesEscaped(p + q)
  {
    var r := p + q;
    forall i | 0 <= i < |r| && r[i] == Space
      ensures 0 < i && r[i - 1] == Backslash
    {
      if i >= |p| {
        assert r[i] == q[i - |p|];
        assert r[i - 1] == q[i - |p| - 1];
      } else {
        assert r[i] == p[i];
      }
    }
  }

  /** In the escaped text every space follows a backslash. */
  lemma {:induction false} EscapedSpacesFollowBackslash(s: string)
    ensures SpacesEscaped(EscapeSpaces(s))
  {
    if s != [] {
      EscapedSpacesFollowBackslash(s[1..]);
      var piece := if s[0] == Space then [Backslash, Space] else [s[0]];
      assert SpacesEscaped(piece);
      SpacesEscapedAppend(piece, EscapeSpaces(s[1..]));
    }
  }

  /** The record a page template renders: the annotation and the values
      derived from it. */
  datatype AnnotationTemplate = AnnotationTemplate(
    annotation: Annotation,
    baseUri: string,
    title: string,
    incontext: string,
    highlight: seq<string>,
    displayName: Option<string>)

  const UntitledDocument: string := "Untitled document"
  const InContextLink: string := "incontext"

  /** `AnnotationTemplate::from_annotation`. */
  function FromAnnotation(a: Annotation, h: Helpers): (t: AnnotationTemplate)
    ensures t.annotation == a && t.highlight == h.quotes(a)
    ensures h.baseOf(a.uri).Some? ==> t.baseUri == h.baseOf(a.uri).value
    ensures h.baseOf(a.uri).None? ==> t.baseUri == a.uri
    ensures InContextLink in a.links ==> t.incontext == a.links[InContextLink]
    ensures InContextLink !in a.links ==> t.incontext == a.uri
    ensures a.userInfo.None? ==> t.displayName.None?
    ensures a.userInfo.Some? ==> t.displayName == a.userInfo.value.displayName
    ensures a.document.Some? && a.document.value.title != [] ==> t.title == a.document.value.title[0]
    ensures a.document.None? || a.document.value.title == [] ==> t.title == UntitledDocument
  {
    var baseUri := match h.baseOf(a.uri)
      case Some(b) => b
      case None => a.uri;
    var incontext := if InContextLink in a.links then a.links[InContextLink] else a.uri;
    var displayName := match a.userInfo
      case Some(info) => info.displayName
      case None => None;
    var title := match a.document
      case Some(d) => if d.title != [] then d.title[0] else UntitledDocument
      case None => UntitledDocument;
    AnnotationTemplate(a, baseUri, title, incontext, h.quotes(a), displayName)
  }

  /** The folder and sort keys of the configuration (`OrderBy`). */
  datatype OrderBy = Tag | URI | Title | BaseURI | ID | Created | Updated | Empty

  /** The orders a hierarchy level may use; the others panic. */
  predicate Hierarchical(order: OrderBy)
  {
    order.Tag? || order.URI? || order.Title? || order.BaseURI? || order.ID?
  }

  /** The path separator (`std::path::MAIN_SEPARATOR` on Unix). */
  const PathSeparator: string := "/"

  /** A tag as a folder name: every `nestedTag` becomes a path separator. */
  function Nest(tag: string, nestedTag: Option<string>): string
  {
    if nestedTag.Some? then ReplaceAll(tag, nestedTag.value, PathSeparator) else tag
  }

  /** The folders one annotation goes into, one push per entry. */
  function BucketKeys(order: OrderBy, t: AnnotationTemplate, nestedTag: Option<string>, emptyTag: string, h: Helpers): (keys: seq<string>)
    requires Hierarchical(order)
    ensures keys != []
    ensures order.Tag? && t.annotation.tags == [] ==> keys == [emptyTag]
    ensures order.Tag? && t.annotation.tags != [] ==>
      |keys| == |t.annotation.tags| && forall i :: 0 <= i < |keys| ==> keys[i] == Nest(t.annotation.tags[i], nestedTag)
    ensures !order.Tag? ==> |keys| == 1
  {
    match order
    case Tag =>
      var tags := t.annotation.tags;
      if tags == [] then [emptyTag]
      else seq(|tags|, i requires 0 <= i < |tags| => Nest(tags[i], nestedTag))
    case URI => [h.uriToFilename(t.annotation.uri)]
    case Title => [h.sanitize(t.title)]
    case BaseURI => [h.uriToFilename(t.baseUri)]
    case ID => [t.annotation.id]
  }

  type Buckets = map<string, seq<AnnotationTemplate>>

  function Bucket(m: Buckets, k: string): seq<AnnotationTemplate>
  {
    if k in m then m[k] else []
  }

  /** `entry(k).or_insert_with(Vec::new).push(t)`. */
  function Push(m: Buckets, k: string, t: AnnotationTemplate): (r: Buckets)
    ensures r.Keys == m.Keys + {k}
  {
    m[k := Bucket(m, k) + [t]]
  }

  /** `t` pushed under each key in turn. */
  function PushAll(m: Buckets, keys: seq<string>, t: AnnotationTemplate): Buckets
  {
    if keys == [] then m else Push(PushAll(m, keys[..|keys| - 1], t), keys[|keys| - 1], t)
  }

  /** The map the grouping loop builds. */
  function Grouped(order: OrderBy, anns: seq<AnnotationTemplate>, nestedTag: Option<string>, emptyTag: string, h: Helpers): Buckets
    requires Hierarchical(order)
  {
    if anns == [] then map[]
    else
      var t := anns[|anns| - 1];
      PushAll(Grouped(order, anns[..|anns| - 1], nestedTag, emptyTag, h), BucketKeys(order, t, nestedTag, emptyTag, h), t)
  }

  /** What bucket `k` should hold: each annotation, in input order, once for
      every time `k` is among its keys. */
  function BucketOf(order: OrderBy, anns: seq<AnnotationTemplate>, k: string, nestedTag: Option<string>, emptyTag: string, h: Helpers): seq<AnnotationTemplate>
    requires Hierarchical(order)
  {
    if anns == [] then []
    else
      var t := anns[|anns| - 1];
      BucketOf(order, anns[..|anns| - 1], k, nestedTag, emptyTag, h) + Repeat(t, Occurrences(BucketKeys(order, t, nestedTag, emptyTag, h), k))
  }

  /** One push changes only the bucket it names, by one element at the end. */
  lemma PushBucket(m: Buckets, key: string, t: AnnotationTemplate, k: string)
    ensures Bucket(Push(m, key, t), k) == Bucket(m, k) + (if key == k then [t] else [])
  {
  }

  lemma {:induction false} PushAllBucket(m: Buckets, keys: seq<string>, t: AnnotationTemplate, k: string)
    ensures Bucket(PushAll(m, keys, t), k) == Bucket(m, k) + Repeat(t, Occurrences(keys, k))
  {
    if keys != [] {
      var init := keys[..|keys| - 1];
      var last := keys[|keys| - 1];
      PushAllBucket(m, init, t, k);
      PushBucket(PushAll(m, init, t), last, t, k);
      OccurrencesSnoc(keys, k);
      RepeatSnoc(Bucket(m, k), Bucket(PushAll(m, init, t), k), t, Occurrences(init, k), last == k);
    }
  }

  /** Pushing under one more key extends `PushAll` by one `Push`. */
  lemma PushAllSnoc(m: Buckets, keys: seq<string>, j: nat, t: AnnotationTemplate)
    requires j < |keys|
    ensures PushAll(m, keys[..j + 1], t) == Push(PushAll(m, keys[..j], t), keys[j], t)
  {
    assert keys[..j + 1][..j] == keys[..j];
  }

  /** Grouping one more annotation pushes it under each of its keys. */
  lemma GroupedSnoc(order: OrderBy, anns: seq<AnnotationTemplate>, i: nat, nestedTag: Option<string>, emptyTag: string, h: Helpers)
    requires Hierarchical(order) && i < |anns|
    ensures Grouped(order, anns[..i + 1], nestedTag, emptyTag, h)
         == PushAll(Grouped(order, anns[..i], nestedTag, emptyTag, h), BucketKeys(order, anns[i], nestedTag, emptyTag, h), anns[i])
  {
    assert anns[..i + 1][..i] == anns[..i];
  }

  lemma {:induction false} PushAllKeys(m: Buckets, keys: seq<string>, t: AnnotationTemplate)
    ensures PushAll(m, keys, t).Keys == m.Keys + set k | k in keys
  {
    if keys != [] {
      var init := keys[..|keys| - 1];
      PushAllKeys(m, init, t);
      assert keys == init + [keys[|keys| - 1]];
    }
  }

  /** Grouping puts into each bucket exactly the annotations that belong
      there, in input order, and makes no empty bucket. */
  lemma {:induction false} GroupedBuckets(order: OrderBy, anns: seq<AnnotationTemplate>, k: string, nestedTag: Option<string>, emptyTag: string, h: Helpers)
    requires Hierarchical(order)
    ensures Bucket(Grouped(order, anns, nestedTag, emptyTag, h), k) == BucketOf(order, anns, k, nestedTag, emptyTag, h)
    ensures k in Grouped(order, anns, nestedTag, emptyTag, h) <==> BucketOf(order, anns, k, nestedTag, emptyTag, h) != []
  {
    if anns != [] {
      var init := anns[..|anns| - 1];
      var t := anns[|anns| - 1];
      var keys := BucketKeys(order, t, nestedTag, emptyTag, h);
      GroupedBuckets(order, init, k, nestedTag, emptyTag, h);
      PushAllBucket(Grouped(order, init, nestedTag, emptyTag, h), keys, t, k);
      PushAllKeys(Grouped(order, init, nestedTag, emptyTag, h), keys, t);
    }
  }

  /** An annotation is in bucket `k` exactly when it is in the input and `k`
      is one of its keys. */
  lemma {:induction false} BucketMembership(order: OrderBy, anns: seq<AnnotationTemplate>, k: string, x: AnnotationTemplate,
                                            nestedTag: Option<string>, emptyTag: string, h: Helpers)
    requires Hierarchical(order)
    ensures x in BucketOf(order, anns, k, nestedTag, emptyTag, h) <==> x in anns && k in BucketKeys(order, x, nestedTag, emptyTag, h)
  {
    if anns != [] {
      var init := anns[..|anns| - 1];
      var t := anns[|anns| - 1];
      BucketMembership(order, init, k, x, nestedTag, emptyTag, h);
      assert anns == init + [t];
      assert x in anns <==> x in init || x == t;
      var n := Occurrences(BucketKeys(order, t, nestedTag, emptyTag, h), k);
      assert x in Repeat(t, n) <==> x == t && n > 0;
    }
  }

  /** Grouping by tag puts an untagged annotation into the `EMPTY_TAG`
      bucket and into no other. */
  lemma UntaggedOnlyInEmptyTag(anns: seq<AnnotationTemplate>, x: AnnotationTemplate, nestedTag: Option<string>, emptyTag: string, h: Helpers)
    requires x in anns && x.annotation.tags == []
    ensures var m := Grouped(Tag, anns, nestedTag, emptyTag, h);
      x in Bucket(m, emptyTag) && forall k :: x in Bucket(m, k) ==> k == emptyTag
  {
    var m := Grouped(Tag, anns, nestedTag, emptyTag, h);
    GroupedBuckets(Tag, anns, emptyTag, nestedTag, emptyTag, h);
    BucketMembership(Tag, anns, emptyTag, x, nestedTag, emptyTag, h);
    forall k | x in Bucket(m, k)
      ensures k == emptyTag
    {
      GroupedBuckets(Tag, anns, k, nestedTag, emptyTag, h);
      BucketMembership(Tag, anns, k, x, nestedTag, emptyTag, h);
    }
  }

  /** Grouping by tag puts a tagged annotation into the bucket of each of its
      tags, nested tags turned into paths, and into no other. */
  lemma TaggedInEachTagBucket(anns: seq<AnnotationTemplate>, x: AnnotationTemplate, k: string, nestedTag: Option<string>, emptyTag: string, h: Helpers)
    requires x in anns && x.annotation.tags != []
    ensures x in Bucket(Grouped(Tag, anns, nestedTag, emptyTag, h), k) <==>
      exists i :: 0 <= i < |x.annotation.tags| && k == Nest(x.annotation.tags[i], nestedTag)
  {
    GroupedBuckets(Tag, anns, k, nestedTag, emptyTag, h);
    BucketMembership(Tag, anns, k, x, nestedTag, emptyTag, h);
    var keys := BucketKeys(Tag, x, nestedTag, emptyTag, h);
    assert k in keys <==> exists i :: 0 <= i < |keys| && keys[i] == k;
  }

  /** For the single-key orders (URI, title, base URI, id) every annotation
      is pushed once: each bucket is the input filtered by key, in input order. */
  lemma {:induction false} SingleKeyBuckets(order: OrderBy, anns: seq<AnnotationTemplate>, k: string, nestedTag: Option<string>, emptyTag: string, h: Helpers)
    requires Hierarchical(order) && !order.Tag?
    ensures BucketOf(order, anns, k, nestedTag, emptyTag, h)
         == FilterByKey(order, anns, k, nestedTag, emptyTag, h)
  {
    if anns != [] {
      var t := anns[|anns| - 1];
      SingleKeyBuckets(order, anns[..|anns| - 1], k, nestedTag, emptyTag, h);
      var keys := BucketKeys(order, t, nestedTag, emptyTag, h);
      assert keys == [keys[0]];
      assert Occurrences(keys, k) == (if keys[0] == k then 1 else 0);
    }
  }

  /** The annotations whose only key is `k`, in input order. */
  function FilterByKey(order: OrderBy, anns: seq<AnnotationTemplate>, k: string, nestedTag: Option<string>, emptyTag: string, h: Helpers): (r: seq<AnnotationTemplate>)
    requires Hierarchical(order) && !order.Tag?
    ensures |r| <= |anns|
  {
    if anns == [] then []
    else
      var t := anns[|anns| - 1];
      FilterByKey(order, anns[..|anns| - 1], k, nestedTag, emptyTag, h)
        + (if BucketKeys(order, t, nestedTag, emptyTag, h)[0] == k then [t] else [])
  }

  /** The sizes of the buckets of `keys`, added up. */
  function SizeSum(order: OrderBy, anns: seq<AnnotationTemplate>, keys: seq<string>, nestedTag: Option<string>, emptyTag: string, h: Helpers): nat
    requires Hierarchical(order) && !order.Tag?
  {
    if keys == [] then 0
    else SizeSum(order, anns, keys[..|keys| - 1], nestedTag, emptyTag, h) + |FilterByKey(order, anns, keys[|keys| - 1], nestedTag, emptyTag, h)|
  }

  lemma {:induction false} SizeSumStep(order: OrderBy, anns: seq<AnnotationTemplate>, keys: seq<string>, nestedTag: Option<string>, emptyTag: string, h: Helpers)
    requires Hierarchical(order) && !order.Tag? && anns != []
    ensures var t := anns[|anns| - 1];
      SizeSum(order, anns, keys, nestedTag, emptyTag, h)
        == SizeSum(order, anns[..|anns| - 1], keys, nestedTag, emptyTag, h) + Occurrences(keys, BucketKeys(order, t, nestedTag, emptyTag, h)[0])
  {
    if keys != [] {
      var init := keys[..|keys| - 1];
      SizeSumStep(order, anns, init, nestedTag, emptyTag, h);
      assert keys == init + [keys[|keys| - 1]];
      OccurrencesAppend(init, [keys[|keys| - 1]], BucketKeys(order, anns[|anns| - 1], nestedTag, emptyTag, h)[0]);
    }
  }

  /** For the single-key orders the buckets partition the input: over
      distinct keys that cover every annotation's key, the bucket sizes add
      up to the input length. */
  lemma {:induction false} SingleKeyPartition(order: OrderBy, anns: seq<AnnotationTemplate>, keys: seq<string>, nestedTag: Option<string>, emptyTag: string, h: Helpers)
    requires Hierarchical(order) && !order.Tag? && Distinct(keys)
    requires forall i :: 0 <= i < |anns| ==> BucketKeys(order, anns[i], nestedTag, emptyTag, h)[0] in keys
    ensures SizeSum(order, anns, keys, nestedTag, emptyTag, h) == |anns|
  {
    if anns == [] {
      SizeSumEmpty(order, keys, nestedTag, emptyTag, h);
    } else {
      var t := anns[|anns| - 1];
      SingleKeyPartition(order, anns[..|anns| - 1], keys, nestedTag, emptyTag, h);
      SizeSumStep(order, anns, keys, nestedTag, emptyTag, h);
      OccurrencesDistinct(keys, BucketKeys(order, t, nestedTag, emptyTag, h)[0]);
    }
  }

  lemma {:induction false} SizeSumEmpty(order: OrderBy, keys: seq<string>, nestedTag: Option<string>, emptyTag: string, h: Helpers)
    requires Hierarchical(order) && !order.Tag?
    ensures SizeSum(order, [], keys, nestedTag, emptyTag, h) == 0
  {
    if keys != [] {
      SizeSumEmpty(order, keys[..|keys| - 1], nestedTag, emptyTag, h);
    }
  }

  /** `group_annotations_by_order`: the annotations pushed one by one into
      the buckets of their keys. */
  method GroupAnnotationsByOrder(order: OrderBy, annotations: seq<AnnotationTemplate>, nestedTag: Option<string>, emptyTag: string, h: Helpers)
    returns (m: Buckets)
    requires Hierarchical(order)
    ensures m == Grouped(order, annotations, nestedTag, emptyTag, h)
  {
    m := map[];
    var i := 0;
    while i < |annotations|
      invariant 0 <= i <= |annotations|
      invariant m == Grouped(order, annotations[..i], nestedTag, emptyTag, h)
    {
      var t := annotations[i];
      var keys := BucketKeys(order, t, nestedTag, emptyTag, h);
      ghost var m0 := m;
      var j := 0;
      while j < |keys|
        invariant 0 <= j <= |keys|
        invariant m == PushAll(m0, keys[..j], t)
      {
        PushAllSnoc(m0, keys, j, t);
        m := m[keys[j] := Bucket(m, keys[j]) + [t]];
        j := j + 1;
      }
      assert keys[..j] == keys;
      GroupedSnoc(order, annotations, i, nestedTag, emptyTag, h);
      i := i + 1;
    }
    assert annotations[..i] == annotations;
  }

  /** One sort field of one template. */
  function Key(field: OrderBy, t: AnnotationTemplate, h: Helpers): string
    requires !field.Empty?
  {
    match field
    case Tag => Join(t.annotation.tags, ",")
    case URI => h.cleanUri(t.annotation.uri)
    case BaseURI => h.cleanUri(t.baseUri)
    case Title => t.title
    case ID => t.annotation.id
    case Created => h.timeText(t.annotation.created)
    case Updated => h.timeText(t.annotation.updated)
  }

  predicate NoEmptyField(sort: seq<OrderBy>)
  {
    forall i :: 0 <= i < |sort| ==> !sort[i].Empty?
  }

  function Keys(sort: seq<OrderBy>, t: AnnotationTemplate, h: Helpers): (ks: seq<string>)
    requires NoEmptyField(sort)
    ensures |ks| == |sort|
  {
    seq(|sort|, i requires 0 <= i < |sort| && NoEmptyField(sort) => Key(sort[i], t, h))
  }

  /** The comparator of `sort_annotations`: a fold over the sort fields,
      each consulted through `then_with`. */
  function Compare(sort: seq<OrderBy>, a: AnnotationTemplate, b: AnnotationTemplate, h: Helpers): Ordering
    requires NoEmptyField(sort)
  {
    if sort == [] then Equal
    else
      var f := sort[|sort| - 1];
      Compare(sort[..|sort| - 1], a, b, h).Then(Cmp(Key(f, a, h), Key(f, b, h)))
  }

  /** The fold orders lexicographically by the list of keys: a later field
      decides only when all earlier ones tie. */
  lemma {:induction false} CompareLexicographic(sort: seq<OrderBy>, a: AnnotationTemplate, b: AnnotationTemplate, h: Helpers)
    requires NoEmptyField(sort)
    ensures Compare(sort, a, b, h) == CmpSeq(Keys(sort, a, h), Keys(sort, b, h))
  {
    if sort != [] {
      var init := sort[..|sort| - 1];
      var f := sort[|sort| - 1];
      CompareLexicographic(init, a, b, h);
      assert Keys(sort, a, h) == Keys(init, a, h) + [Key(f, a, h)];
      assert Keys(sort, b, h) == Keys(init, b, h) + [Key(f, b, h)];
      CmpSeqSnoc(Keys(init, a, h), Keys(init, b, h), Key(f, a, h), Key(f, b, h));
    }
  }

  lemma CompareFlip(sort: seq<OrderBy>, a: AnnotationTemplate, b: AnnotationTemplate, h: Helpers)
    requires NoEmptyField(sort)
    ensures Compare(sort, b, a, h) == Compare(sort, a, b, h).Flip()
    ensures Compare(sort, a, b, h) == Equal <==> Keys(sort, a, h) == Keys(sort, b, h)
  {
    CompareLexicographic(sort, a, b, h);
    CompareLexicographic(sort, b, a, h);
    CmpSeqFlip(Keys(sort, a, h), Keys(sort, b, h));
  }

  lemma CompareTransitive(sort: seq<OrderBy>, a: AnnotationTemplate, b: AnnotationTemplate, c: AnnotationTemplate, h: Helpers)
    requires NoEmptyField(sort)
    requires Compare(sort, a, b, h) != Greater && Compare(sort, b, c, h) != Greater
    ensures Compare(sort, a, c, h) != Greater
  {
    CompareLexicographic(sort, a, b, h);
    CompareLexicographic(sort, b, c, h);
    CompareLexicographic(sort, a, c, h);
    CmpSeqTransitive(Keys(sort, a, h), Keys(sort, b, h), Keys(sort, c, h));
  }

  /** Consecutive elements are in order. */
  predicate Ordered(sort: seq<OrderBy>, s: seq<AnnotationTemplate>, h: Helpers)
    requires NoEmptyField(sort)
  {
    forall i :: 0 < i < |s| ==> Compare(sort, s[i - 1], s[i], h) != Greater
  }

  /** `x` placed before the first element greater than it, so after every
      element that ties with it. */
  function Insert(sort: seq<OrderBy>, s: seq<AnnotationTemplate>, x: AnnotationTemplate, h: Helpers): (r: seq<AnnotationTemplate>)
    requires NoEmptyField(sort)
    ensures |r| == |s| + 1
  {
    if s == [] then [x]
    else if Compare(sort, x, s[0], h) == Less then [x] + s
    else
      assert s == [s[0]] + s[1..];
      [s[0]] + Insert(sort, s[1..], x, h)
  }

  /** `sort_annotations`: the standard library's stable sort with the folded
      comparator, written as an insertion sort. */
  function SortAnnotations(sort: seq<OrderBy>, anns: seq<AnnotationTemplate>, h: Helpers): (r: seq<AnnotationTemplate>)
    requires NoEmptyField(sort)
    ensures |r| == |anns|
  {
    if anns == [] then []
    else Insert(sort, SortAnnotations(sort, anns[..|anns| - 1], h), anns[|anns| - 1], h)
  }

  lemma {:induction false} InsertPermutes(sort: seq<OrderBy>, s: seq<AnnotationTemplate>, x: AnnotationTemplate, h: Helpers)
    requires NoEmptyField(sort)
    ensures multiset(Insert(sort, s, x, h)) == multiset(s) + multiset{x}
  {
    if s != [] && Compare(sort, x, s[0], h) != Less {
      InsertPermutes(sort, s[1..], x, h);
      assert s == [s[0]] + s[1..];
    }
  }

  /** The sort's output is a permutation of its input. */
  lemma {:induction false} SortPermutes(sort: seq<OrderBy>, anns: seq<AnnotationTemplate>, h: Helpers)
    requires NoEmptyField(sort)
    ensures multiset(SortAnnotations(sort, anns, h)) == multiset(anns)
  {
    if anns != [] {
      var init := anns[..|anns| - 1];
      SortPermutes(sort, init, h);
      InsertPermutes(sort, SortAnnotations(sort, init, h), anns[|anns| - 1], h);
      assert anns == init + [anns[|anns| - 1]];
    }
  }

  lemma {:induction false} InsertOrdered(sort: seq<OrderBy>, s: seq<AnnotationTemplate>, x: AnnotationTemplate, h: Helpers)
    requires NoEmptyField(sort) && Ordered(sort, s, h)
    ensures Ordered(sort, Insert(sort, s, x, h), h)
    ensures s != [] && Compare(sort, x, s[0], h) != Less ==> Insert(sort, s, x, h)[0] == s[0]
  {
    if s != [] && Compare(sort, x, s[0], h) != Less {
      var rest := Insert(sort, s[1..], x, h);
      InsertOrdered(sort, s[1..], x, h);
      var r := [s[0]] + rest;
      CompareFlip(sort, x, s[0], h);
      forall i | 0 < i < |r|
        ensures Compare(sort, r[i - 1], r[i], h) != Greater
      {
        if i == 1 {
          if s[1..] != [] && Compare(sort, x, s[1..][0], h) == Less {
            assert rest[0] == x;
          } else if s[1..] != [] {
            assert rest[0] == s[1];
          } else {
            assert rest[0] == x;
          }
        } else {
          assert r[i - 1] == rest[i - 2] && r[i] == rest[i - 1];
        }
      }
    } else if s != [] {
      var r := [x] + s;
      forall i | 0 < i < |r|
        ensures Compare(sort, r[i - 1], r[i], h) != Greater
      {
        if i > 1 {
          assert r[i - 1] == s[i - 2] && r[i] == s[i - 1];
        }
      }
    }
  }

  /** The sort's output is in order. */
  lemma {:induction false} SortOrdered(sort: seq<OrderBy>, anns: seq<AnnotationTemplate>, h: Helpers)
    requires NoEmptyField(sort)
    ensures Ordered(sort, SortAnnotations(sort, anns, h), h)
  {
    if anns != [] {
      SortOrdered(sort, anns[..|anns| - 1], h);
      InsertOrdered(sort, SortAnnotations(sort, anns[..|anns| - 1], h), anns[|anns| - 1], h);
    }
  }

  /** The annotations whose sort keys are `ks`, in order. */
  function WithKeys(sort: seq<OrderBy>, s: seq<AnnotationTemplate>, ks: seq<string>, h: Helpers): seq<AnnotationTemplate>
    requires NoEmptyField(sort)
  {
    if s == [] then []
    else (if Keys(sort, s[0], h) == ks then [s[0]] else []) + WithKeys(sort, s[1..], ks, h)
  }

  lemma {:induction false} WithKeysAppend(sort: seq<OrderBy>, a: seq<AnnotationTemplate>, b: seq<AnnotationTemplate>, ks: seq<string>, h: Helpers)
    requires NoEmptyField(sort)
    ensures WithKeys(sort, a + b, ks, h) == WithKeys(sort, a, ks, h) + WithKeys(sort, b, ks, h)
  {
    if a == [] {
      assert a + b == b;
    } else {
      assert (a + b)[0] == a[0];
      assert (a + b)[1..] == a[1..] + b;
      WithKeysAppend(sort, a[1..], b, ks, h);
    }
  }

  /** In an ordered list everything is at least its first element. */
  lemma {:induction false} OrderedFromHead(sort: seq<OrderBy>, s: seq<AnnotationTemplate>, h: Helpers)
    requires NoEmptyField(sort) && Ordered(sort, s, h) && s != []
    ensures forall j :: 0 <= j < |s| ==> Compare(sort, s[0], s[j], h) != Greater
  {
    CompareFlip(sort, s[0], s[0], h);
    if |s| > 1 {
      assert Ordered(sort, s[1..], h) by {
        forall i | 0 < i < |s[1..]| ensures Compare(sort, s[1..][i - 1], s[1..][i], h) != Greater {
          assert s[1..][i - 1] == s[i] && s[1..][i] == s[i + 1];
        }
      }
      OrderedFromHead(sort, s[1..], h);
      forall j | 1 <= j < |s|
        ensures Compare(sort, s[0], s[j], h) != Greater
      {
        assert s[j] == s[1..][j - 1];
        CompareTransitive(sort, s[0], s[1], s[j], h);
      }
    }
  }

  /** No element at or after one strictly greater than `x` ties with `x`. */
  lemma AboveHeadNoTie(sort: seq<OrderBy>, s: seq<AnnotationTemplate>, x: AnnotationTemplate, h: Helpers)
    requires NoEmptyField(sort) && Ordered(sort, s, h) && s != []
    requires Compare(sort, x, s[0], h) == Less
    ensures WithKeys(sort, s, Keys(sort, x, h), h) == []
  {
    OrderedFromHead(sort, s, h);
    forall j | 0 <= j < |s|
      ensures Keys(sort, s[j], h) != Keys(sort, x, h)
    {
      CompareFlip(sort, x, s[0], h);
      if Keys(sort, s[j], h) == Keys(sort, x, h) {
        CompareFlip(sort, s[j], x, h);
        CompareTransitive(sort, s[0], s[j], x, h);
      }
    }
    NoTieEmpty(sort, s, Keys(sort, x, h), h);
  }

  lemma {:induction false} NoTieEmpty(sort: seq<OrderBy>, s: seq<AnnotationTemplate>, ks: seq<string>, h: Helpers)
    requires NoEmptyField(sort)
    requires forall j :: 0 <= j < |s| ==> Keys(sort, s[j], h) != ks
    ensures WithKeys(sort, s, ks, h) == []
  {
    if s != [] {
      NoTieEmpty(sort, s[1..], ks, h);
    }
  }

  lemma OrderedTail(sort: seq<OrderBy>, s: seq<AnnotationTemplate>, h: Helpers)
    requires NoEmptyField(sort) && Ordered(sort, s, h) && s != []
    ensures Ordered(sort, s[1..], h)
  {
    forall i | 0 < i < |s[1..]| ensures Compare(sort, s[1..][i - 1], s[1..][i], h) != Greater {
      assert s[1..][i - 1] == s[i] && s[1..][i] == s[i + 1];
    }
  }

  lemma WithKeysCons(sort: seq<OrderBy>, y: AnnotationTemplate, rest: seq<AnnotationTemplate>, ks: seq<string>, h: Helpers)
    requires NoEmptyField(sort)
    ensures WithKeys(sort, [y] + rest, ks, h) == (if Keys(sort, y, h) == ks then [y] else []) + WithKeys(sort, rest, ks, h)
  {
    assert ([y] + rest)[0] == y && ([y] + rest)[1..] == rest;
  }

  /** Inserting adds `x` after every element that ties with it. */
  lemma {:induction false} InsertWithKeys(sort: seq<OrderBy>, s: seq<AnnotationTemplate>, x: AnnotationTemplate, ks: seq<string>, h: Helpers)
    requires NoEmptyField(sort) && Ordered(sort, s, h)
    ensures WithKeys(sort, Insert(sort, s, x, h), ks, h)
         == WithKeys(sort, s, ks, h) + (if Keys(sort, x, h) == ks then [x] else [])
  {
    var tie := if Keys(sort, x, h) == ks then [x] else [];
    if s == [] {
      WithKeysCons(sort, x, [], ks, h);
    } else if Compare(sort, x, s[0], h) == Less {
      WithKeysCons(sort, x, s, ks, h);
      if Keys(sort, x, h) == ks {
        AboveHeadNoTie(sort, s, x, h);
      }
    } else {
      var head := if Keys(sort, s[0], h) == ks then [s[0]] else [];
      OrderedTail(sort, s, h);
      InsertWithKeys(sort, s[1..], x, ks, h);
      WithKeysCons(sort, s[0], Insert(sort, s[1..], x, h), ks, h);
      Associative(head, WithKeys(sort, s[1..], ks, h), tie);
    }
  }

  /** The sort is stable: the annotations that tie on every key keep their
      input order. */
  lemma {:induction false} SortStable(sort: seq<OrderBy>, anns: seq<AnnotationTemplate>, ks: seq<string>, h: Helpers)
    requires NoEmptyField(sort)
    ensures WithKeys(sort, SortAnnotations(sort, anns, h), ks, h) == WithKeys(sort, anns, ks, h)
  {
    if anns != [] {
      var init := anns[..|anns| - 1];
      var x := anns[|anns| - 1];
      var tail := if Keys(sort, x, h) == ks then [x] else [];
      calc {
        WithKeys(sort, SortAnnotations(sort, anns, h), ks, h);
        WithKeys(sort, Insert(sort, SortAnnotations(sort, init, h), x, h), ks, h);
        { SortOrdered(sort, init, h); InsertWithKeys(sort, SortAnnotations(sort, init, h), x, ks, h); }
        WithKeys(sort, SortAnnotations(sort, init, h), ks, h) + tail;
        { SortStable(sort, init, ks, h); }
        WithKeys(sort, init, ks, h) + tail;
        { assert WithKeys(sort, [x], ks, h) == tail + WithKeys(sort, [], ks, h); }
        WithKeys(sort, init, ks, h) + WithKeys(sort, [x], ks, h);
        { WithKeysAppend(sort, init, [x], ks, h); }
        WithKeys(sort, init + [x], ks, h);
        { assert init + [x] == anns; }
        WithKeys(sort, anns, ks, h);
      }
    }
  }

  /** With no sort fields everything ties, and the order is left unchanged. */
  lemma {:induction false} SortWithoutFields(anns: seq<AnnotationTemplate>, h: Helpers)
    ensures SortAnnotations([], anns, h) == anns
  {
    if anns != [] {
      var init := anns[..|anns| - 1];
      SortWithoutFields(init, h);
      InsertAtEnd(init, anns[|anns| - 1], h);
      assert anns == init + [anns[|anns| - 1]];
    }
  }

  lemma {:induction false} InsertAtEnd(s: seq<AnnotationTemplate>, x: AnnotationTemplate, h: Helpers)
    ensures Insert([], s, x, h) == s + [x]
  {
    if s != [] {
      InsertAtEnd(s[1..], x, h);
      assert s == [s[0]] + s[1..];
    }
  }

  /** The number of bytes of a character's UTF-8 encoding. */
  function Utf8Width(c: char): nat
  {
    if c as int < 0x80 then 1 else if c as int < 0x800 then 2 else if c as int < 0x10000 then 3 else 4
  }

  /** `str::len`: the length of the UTF-8 encoding. */
  function Utf8Len(s: string): (n: nat)
    ensures n >= |s|
  {
    if s == [] then 0 else Utf8Width(s[0]) + Utf8Len(s[1..])
  }

  const LeafNameLimit: nat := 250

  /** `chars().take(n)`. */
  function TakeChars(s: string, n: nat): string
  {
    if n < |s| then s[..n] else s
  }

  /** The file a leaf of the hierarchy is written to: the folder path cut
      to `min(250, byte length)` characters, a dot and the extension. */
  function LeafPageName(folder: string, extension: string): (name: string)
    ensures name == folder[..if |folder| < LeafNameLimit then |folder| else LeafNameLimit] + "." + extension
  {
    var cut := if LeafNameLimit < Utf8Len(folder) then LeafNameLimit else Utf8Len(folder);
    TakeChars(folder, cut) + "." + extension
  }
}
