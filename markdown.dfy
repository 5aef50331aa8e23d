/** The markdown writer (src/gooseberry/markdown.rs): one annotation as a
    markdown block, a tag page of the wiki, the tag co-occurrence counts and
    the mermaid graph of the index page. `Url::parse` with `base_url`, and
    chrono's `%c` date text, are uninterpreted functions; files, `cargo
    mdbook-mermaid` and the book build are outside the model. */
module Markdown {
  import opened Wrappers
  import opened Errors
  import opened Strings
  import opened Hypothesis

  /** The functions of other crates that the writer calls. `baseUrl` is
      `Url::parse` followed by `utils::base_url`: `None` when the uri does not
      parse, else the base url (if any) as text. `dateText` is `%c`. */
  datatype Formatters = Formatters(
    baseUrl: string -> Option<Option<string>>,
    dateText: Timestamp -> string)

  // ---------------------------------------------------------------------
  // Quotes

  /** The selectors' `TextQuoteSelector` texts, each behind "> ", in order;
      other selectors are dropped. */
  function QuoteLines(selectors: seq<Selector>): (lines: seq<string>)
    ensures |lines| <= |selectors|
    ensures forall i :: 0 <= i < |lines| ==> |lines[i]| >= 2 && lines[i][..2] == "> "
    ensures lines == [] <==> forall j :: 0 <= j < |selectors| ==> !selectors[j].TextQuoteSelector?
  {
    if selectors == [] then []
    else
      var n := |selectors| - 1;
      var init := QuoteLines(selectors[..n]);
      assert forall j :: 0 <= j < n ==> selectors[..n][j] == selectors[j];
      match selectors[n]
      case TextQuoteSelector(exact) => init + ["> " + exact]
      case OtherSelector => init
  }

  /** A line "> e" is written exactly when some selector quotes `e`. */
  lemma {:induction false} QuoteLinesExact(selectors: seq<Selector>, e: string)
    ensures "> " + e in QuoteLines(selectors) <==> TextQuoteSelector(e) in selectors
  {
    if selectors != [] {
      var n := |selectors| - 1;
      QuoteLinesExact(selectors[..n], e);
      assert selectors == selectors[..n] + [selectors[n]];
      match selectors[n]
      case TextQuoteSelector(exact) =>
        assert ("> " + e == "> " + exact) <==> e == exact by {
          if "> " + e == "> " + exact {
            assert e == ("> " + e)[2..] == ("> " + exact)[2..] == exact;
          }
        }
      case OtherSelector =>
    }
  }

  function TargetQuote(t: Target): string
  {
    Join(QuoteLines(t.selector), "\n")
  }

  /** `format_quote`: the quote lines of each target joined by newlines, and
      the targets joined by newlines. */
  function FormatQuote(a: Annotation): string
  {
    Join(seq(|a.target|, i requires 0 <= i < |a.target| => TargetQuote(a.target[i])), "\n")
  }

  predicate HasTextQuote(a: Annotation)
  {
    exists i, j :: 0 <= i < |a.target| && 0 <= j < |a.target[i].selector| && a.target[i].selector[j].TextQuoteSelector?
  }

  predicate Blank(s: string)
  {
    forall i :: 0 <= i < |s| ==> IsWhitespace(s[i])
  }

  lemma {:induction false} JoinBlank(parts: seq<string>, sep: string)
    requires Blank(sep)
    requires forall i :: 0 <= i < |parts| ==> Blank(parts[i])
    ensures Blank(Join(parts, sep))
  {
    if |parts| > 1 {
      JoinBlank(parts[1..], sep);
      var rest := Join(parts[1..], sep);
      var s := parts[0] + sep + rest;
      forall k | 0 <= k < |s| ensures IsWhitespace(s[k]) {
        if k < |parts[0]| {
          assert s[k] == parts[0][k];
        } else if k < |parts[0]| + |sep| {
          assert s[k] == sep[k - |parts[0]|];
        } else {
          assert s[k] == rest[k - |parts[0]| - |sep|];
        }
      }
    }
  }

  lemma {:induction false} JoinContains(parts: seq<string>, sep: string, i: nat, c: char)
    requires i < |parts| && c in parts[i]
    ensures c in Join(parts, sep)
  {
    if i > 0 {
      JoinContains(parts[1..], sep, i - 1, c);
    }
  }

  /** `to_md`'s layout test: the quote is blank after trimming exactly when
      no target carries a text-quote selector. */
  lemma QuoteBlank(a: Annotation)
    ensures Trim(FormatQuote(a)) == [] <==> !HasTextQuote(a)
  {
    var parts := seq(|a.target|, i requires 0 <= i < |a.target| => TargetQuote(a.target[i]));
    TrimEmpty(FormatQuote(a));
    if HasTextQuote(a) {
      var i, j :| 0 <= i < |a.target| && 0 <= j < |a.target[i].selector| && a.target[i].selector[j].TextQuoteSelector?;
      var lines := QuoteLines(a.target[i].selector);
      assert lines[0][0] == '>';
      JoinContains(lines, "\n", 0, '>');
      JoinContains(parts, "\n", i, '>');
      assert !IsWhitespace('>');
    } else {
      forall i | 0 <= i < |parts| ensures Blank(parts[i]) {
        assert QuoteLines(a.target[i].selector) == [];
      }
      JoinBlank(parts, "\n");
    }
  }

  // ---------------------------------------------------------------------
  // Tags

  function TagCell(tag: string, withLinks: bool): string
  {
    if withLinks then " **[" + tag + "](" + tag + ".md)** " else " **" + tag + "** "
  }

  function TagCells(tags: seq<string>, withLinks: bool): (cells: seq<string>)
    ensures |cells| == |tags|
  {
    seq(|tags|, i requires 0 <= i < |tags| => TagCell(tags[i], withLinks))
  }

  /** `format_tags`: a table row with one cell per tag, or nothing. */
  function FormatTags(tags: seq<string>, withLinks: bool): (row: string)
    ensures row == [] <==> tags == []
  {
    if tags == [] then [] else "|" + Join(TagCells(tags, withLinks), "|") + "|"
  }

  lemma TagCellNoBar(tag: string, withLinks: bool)
    requires '|' !in tag
    ensures '|' !in TagCell(tag, withLinks)
  {
    assert '|' !in " **[" && '|' !in "](" && '|' !in ".md)** " && '|' !in " **" && '|' !in "** ";
  }

  /** Cutting a tag row at '|' gives back one cell per tag, in order, between
      an empty piece at each end (tags never contain '|'). */
  lemma FormatTagsCells(tags: seq<string>, withLinks: bool)
    requires tags != []
    requires forall i :: 0 <= i < |tags| ==> '|' !in tags[i]
    ensures Split(FormatTags(tags, withLinks), '|') == [[]] + TagCells(tags, withLinks) + [[]]
    ensures Occurrences(FormatTags(tags, withLinks), '|') == |tags| + 1
  {
    var cells := TagCells(tags, withLinks);
    forall i | 0 <= i < |cells| ensures '|' !in cells[i] {
      TagCellNoBar(tags[i], withLinks);
    }
    SplitJoin(cells, '|');
    var body := Join(cells, "|");
    SplitFramed(body, '|');
    assert "|" + body + "|" == ['|'] + body + ['|'];
  }

  // ---------------------------------------------------------------------
  // One annotation

  function InContext(a: Annotation): string
  {
    if "incontext" in a.links then a.links["incontext"] else a.uri
  }

  function ContextLine(a: Annotation, withLinks: bool, base: Option<string>): string
  {
    if !withLinks then "Source - *" + a.uri + "*"
    else match base
      case Some(url) => "[[*see in context at " + url + "*](" + InContext(a) + ")]"
      case None => "[[*see in context*](" + InContext(a) + ")]"
  }

  function Heading(date: string, id: string): string
  {
    "##### " + date + " - *" + id + "*\n\n"
  }

  /** `to_md`: fails exactly when the uri does not parse (the parse happens
      whether or not links are written). */
  function ToMd(a: Annotation, withLinks: bool, f: Formatters): (r: Result<string, Error>)
    ensures r.Err? <==> f.baseUrl(a.uri).None?
    ensures r.Err? ==> r.error == UrlParse(a.uri)
  {
    var quote := FormatQuote(a);
    var tags := FormatTags(a.tags, withLinks);
    var date := f.dateText(a.created);
    match f.baseUrl(a.uri)
    case None => Err(UrlParse(a.uri))
    case Some(base) =>
      var incontext := ContextLine(a, withLinks, base);
      if Trim(quote) == [] then
        Ok(Heading(date, a.id) + tags + "\n" + a.text + "\n\n" + incontext + "\n")
      else
        Ok(Heading(date, a.id) + tags + "\n" + quote + "\n\n" + a.text + "\n\n" + incontext + "\n")
  }

  /** The layout of a block: the heading, the tag row, the quote block only
      when some selector quotes text, the note and the context line. */
  lemma ToMdLayout(a: Annotation, withLinks: bool, f: Formatters)
    requires f.baseUrl(a.uri).Some?
    ensures ToMd(a, withLinks, f).value ==
      Heading(f.dateText(a.created), a.id) + FormatTags(a.tags, withLinks) + "\n"
      + (if HasTextQuote(a) then FormatQuote(a) + "\n\n" else "")
      + a.text + "\n\n" + ContextLine(a, withLinks, f.baseUrl(a.uri).value) + "\n"
  {
    QuoteBlank(a);
  }

  // ---------------------------------------------------------------------
  // A tag page

  predicate CreatedOrder(s: seq<Annotation>)
  {
    forall i, j :: 0 <= i < j < |s| ==> s[i].created <= s[j].created
  }

  function InsertByCreated(s: seq<Annotation>, x: Annotation): (r: seq<Annotation>)
    ensures multiset(r) == multiset(s) + multiset{x}
    ensures |r| == |s| + 1
    ensures forall i :: 0 <= i < |r| ==> r[i] in s || r[i] == x
    ensures CreatedOrder(s) ==> CreatedOrder(r)
  {
    if s == [] || s[|s| - 1].created <= x.created then s + [x]
    else
      var front := InsertByCreated(s[..|s| - 1], x);
      InsertAbove(s, x, front, front + [s[|s| - 1]]);
      front + [s[|s| - 1]]
  }

  /** The recursive case of `InsertByCreated`: the last element goes back
      after the insertion into the rest. */
  lemma InsertAbove(s: seq<Annotation>, x: Annotation, front: seq<Annotation>, r: seq<Annotation>)
    requires s != [] && x.created < s[|s| - 1].created
    requires multiset(front) == multiset(s[..|s| - 1]) + multiset{x}
    requires forall i :: 0 <= i < |front| ==> front[i] in s[..|s| - 1] || front[i] == x
    requires CreatedOrder(s[..|s| - 1]) ==> CreatedOrder(front)
    requires r == front + [s[|s| - 1]]
    ensures multiset(r) == multiset(s) + multiset{x}
    ensures forall i :: 0 <= i < |r| ==> r[i] in s || r[i] == x
    ensures CreatedOrder(s) ==> CreatedOrder(r)
  {
    var n := |s| - 1;
    assert s[..n] + [s[n]] == s;
    forall i | 0 <= i < |r|
      ensures r[i] in s || r[i] == x
    {
      if i < |front| && front[i] != x {
        assert front[i] in s[..n];
      }
    }
    if CreatedOrder(s) {
      assert CreatedOrder(s[..n]);
      InsertBelowLast(s, x, front);
    }
  }

  /** Inserting below the last element of a sorted run keeps it sorted. */
  lemma InsertBelowLast(s: seq<Annotation>, x: Annotation, front: seq<Annotation>)
    requires s != [] && CreatedOrder(s) && x.created < s[|s| - 1].created
    requires CreatedOrder(front)
    requires forall i :: 0 <= i < |front| ==> front[i] in s[..|s| - 1] || front[i] == x
    ensures CreatedOrder(front + [s[|s| - 1]])
  {
    var n := |s| - 1;
    var r := front + [s[n]];
    forall i | 0 <= i < |front| ensures front[i].created <= s[n].created {
      if front[i] != x {
        var k :| 0 <= k < n && s[..n][k] == front[i];
        assert s[k] == front[i];
      }
    }
  }

  /** `annotations.sort_by(|a, b| a.created.cmp(&b.created))`. */
  function SortByCreated(s: seq<Annotation>): (r: seq<Annotation>)
    ensures multiset(r) == multiset(s)
    ensures forall a :: a in r <==> a in s
    ensures |r| == |s|
    ensures CreatedOrder(r)
  {
    if s == [] then []
    else
      var n := |s| - 1;
      assert s == s[..n] + [s[n]];
      var r := InsertByCreated(SortByCreated(s[..n]), s[n]);
      assert forall a :: a in r <==> a in s by {
        forall a ensures a in r <==> a in s {
          assert a in r <==> a in multiset(r);
          assert a in s <==> a in multiset(s);
        }
      }
      r
  }

  predicate Renderable(anns: seq<Annotation>, f: Formatters)
  {
    forall a :: a in anns ==> f.baseUrl(a.uri).Some?
  }

  /** Every annotation's block followed by a "---" rule, in order; the first
      uri that does not parse stops the page. */
  function RenderAll(anns: seq<Annotation>, f: Formatters): (r: Result<string, Error>)
    ensures r.Ok? <==> Renderable(anns, f)
    ensures r.Err? ==> r.error.UrlParse?
  {
    if anns == [] then Ok([])
    else
      var n := |anns| - 1;
      assert anns == anns[..n] + [anns[n]];
      match RenderAll(anns[..n], f)
      case Err(e) => Err(e)
      case Ok(s) =>
        match ToMd(anns[n], true, f)
        case Err(e) => Err(e)
        case Ok(md) => Ok(s + md + "\n---\n")
  }

  function PageHeading(tag: string, emptyTag: string): string
  {
    if tag == emptyTag then [] else "# " + tag + "\n"
  }

  /** The text `make_book` writes to "<tag>.md": no heading on the page of
      untagged annotations, "# tag" on every other; then the blocks of the
      annotations in creation order. */
  function TagPage(tag: string, anns: seq<Annotation>, emptyTag: string, f: Formatters): (r: Result<string, Error>)
    ensures r.Ok? <==> Renderable(anns, f)
    ensures r.Ok? && tag == emptyTag ==> r.value == RenderAll(SortByCreated(anns), f).value
    ensures r.Ok? && tag != emptyTag ==>
      |r.value| >= |tag| + 3 && r.value[..|tag| + 3] == "# " + tag + "\n"
    ensures r.Ok? && tag != emptyTag ==> r.value == "# " + tag + "\n" + RenderAll(SortByCreated(anns), f).value
  {
    var sorted := SortByCreated(anns);
    assert forall a :: a in sorted <==> a in anns by {
      forall a ensures a in sorted <==> a in anns {
        assert a in sorted <==> a in multiset(sorted);
        assert a in anns <==> a in multiset(anns);
      }
    }
    match RenderAll(sorted, f)
    case Err(e) => Err(e)
    case Ok(body) => Ok(PageHeading(tag, emptyTag) + body)
  }

  // ---------------------------------------------------------------------
  // Tag counts and the co-occurrence graph

  /** `tag_graph`: (tag, other) to the number of notes of `tag` carrying `other`. */
  type Graph = map<(string, string), nat>

  function EdgeCount(g: Graph, e: (string, string)): nat
  {
    if e in g then g[e] else 0
  }

  /** One step of the inner loop: skip the page's own tag and pairs whose
      reverse is already counted, else count one more note. */
  function AddEdge(g: Graph, tag: string, other: string): Graph
  {
    if other == tag || (other, tag) in g then g
    else g[(tag, other) := EdgeCount(g, (tag, other)) + 1]
  }

  function AddEdges(g: Graph, tag: string, others: seq<string>): Graph
  {
    if others == [] then g
    else AddEdge(AddEdges(g, tag, others[..|others| - 1]), tag, others[|others| - 1])
  }

  function PageGraph(g: Graph, tag: string, anns: seq<Annotation>): Graph
  {
    if anns == [] then g
    else AddEdges(PageGraph(g, tag, anns[..|anns| - 1]), tag, anns[|anns| - 1].tags)
  }

  /** One page per tag entry of the index, as (tag, its fetched annotations),
      in the index's key order. */
  type Pages = seq<(string, seq<Annotation>)>

  function BuildGraph(pages: Pages): Graph
  {
    if pages == [] then map[]
    else
      var n := |pages| - 1;
      PageGraph(BuildGraph(pages[..n]), pages[n].0, SortByCreated(pages[n].1))
  }

  function BuildCounts(pages: Pages): map<string, nat>
  {
    if pages == [] then map[]
    else
      var n := |pages| - 1;
      BuildCounts(pages[..n])[pages[n].0 := |pages[n].1|]
  }

  function PageTags(pages: Pages): seq<string>
  {
    seq(|pages|, i requires 0 <= i < |pages| => pages[i].0)
  }

  /** `tag_counts` has one entry per page, holding the number of notes
      fetched for that tag. */
  lemma {:induction false} BuildCountsLookup(pages: Pages)
    requires Distinct(PageTags(pages))
    ensures BuildCounts(pages).Keys == set i | 0 <= i < |pages| :: pages[i].0
    ensures forall i :: 0 <= i < |pages| ==> BuildCounts(pages)[pages[i].0] == |pages[i].1|
  {
    if pages != [] {
      var n := |pages| - 1;
      var init := pages[..n];
      assert Distinct(PageTags(init)) by {
        forall i, j | 0 <= i < j < n ensures PageTags(init)[i] != PageTags(init)[j] {
          assert PageTags(init)[i] == PageTags(pages)[i] && PageTags(init)[j] == PageTags(pages)[j];
        }
      }
      BuildCountsLookup(init);
      assert forall i :: 0 <= i < n ==> init[i] == pages[i];
      assert forall i :: 0 <= i < n ==> pages[i].0 != pages[n].0 by {
        forall i | 0 <= i < n ensures pages[i].0 != pages[n].0 {
          assert PageTags(pages)[i] == pages[i].0 && PageTags(pages)[n] == pages[n].0;
        }
      }
    }
  }

  /** No tag is paired with itself, no pair is counted in both directions,
      and every count is positive. */
  predicate WellFormed(g: Graph)
  {
    forall e :: e in g ==> e.0 != e.1 && (e.1, e.0) !in g && g[e] >= 1
  }

  lemma AddEdgeWellFormed(g: Graph, tag: string, other: string)
    requires WellFormed(g)
    ensures WellFormed(AddEdge(g, tag, other))
  {
  }

  lemma {:induction false} AddEdgesWellFormed(g: Graph, tag: string, others: seq<string>)
    requires WellFormed(g)
    ensures WellFormed(AddEdges(g, tag, others))
  {
    if others != [] {
      AddEdgesWellFormed(g, tag, others[..|others| - 1]);
      AddEdgeWellFormed(AddEdges(g, tag, others[..|others| - 1]), tag, others[|others| - 1]);
    }
  }

  lemma {:induction false} PageGraphWellFormed(g: Graph, tag: string, anns: seq<Annotation>)
    requires WellFormed(g)
    ensures WellFormed(PageGraph(g, tag, anns))
  {
    if anns != [] {
      PageGraphWellFormed(g, tag, anns[..|anns| - 1]);
      AddEdgesWellFormed(PageGraph(g, tag, anns[..|anns| - 1]), tag, anns[|anns| - 1].tags);
    }
  }

  lemma {:induction false} BuildGraphWellFormed(pages: Pages)
    ensures WellFormed(BuildGraph(pages))
  {
    if pages != [] {
      var n := |pages| - 1;
      BuildGraphWellFormed(pages[..n]);
      PageGraphWellFormed(BuildGraph(pages[..n]), pages[n].0, SortByCreated(pages[n].1));
    }
  }

  /** Over a run of tags, the edge (tag, other) gains one per occurrence of
      `other`, unless the reverse pair is already counted. */
  lemma {:induction false} AddEdgesCount(g: Graph, tag: string, others: seq<string>, other: string)
    requires other != tag
    ensures (other, tag) in AddEdges(g, tag, others) <==> (other, tag) in g
    ensures (other, tag) !in g ==>
      EdgeCount(AddEdges(g, tag, others), (tag, other)) == EdgeCount(g, (tag, other)) + Occurrences(others, other)
    ensures (other, tag) in g ==>
      EdgeCount(AddEdges(g, tag, others), (tag, other)) == EdgeCount(g, (tag, other))
  {
    if others != [] {
      var n := |others| - 1;
      AddEdgesCount(g, tag, others[..n], other);
      assert others == others[..n] + [others[n]];
      OccurrencesAppend(others[..n], [others[n]], other);
    }
  }

  /** Number of tags equal to `other` over all the notes. */
  function TagHits(anns: seq<Annotation>, other: string): nat
  {
    if anns == [] then 0
    else TagHits(anns[..|anns| - 1], other) + Occurrences(anns[|anns| - 1].tags, other)
  }

  /** Over one tag page, the edge (tag, other) grows by the number of notes
      of the page carrying `other` (counted per occurrence), unless the
      reverse pair (other, tag) was counted on an earlier page, in which case
      it stays as it was. */
  lemma {:induction false} PageEdgeCount(g: Graph, tag: string, anns: seq<Annotation>, other: string)
    requires other != tag
    ensures (other, tag) in PageGraph(g, tag, anns) <==> (other, tag) in g
    ensures EdgeCount(PageGraph(g, tag, anns), (tag, other))
      == EdgeCount(g, (tag, other)) + (if (other, tag) in g then 0 else TagHits(anns, other))
  {
    if anns != [] {
      var n := |anns| - 1;
      PageEdgeCount(g, tag, anns[..n], other);
      AddEdgesCount(PageGraph(g, tag, anns[..n]), tag, anns[n].tags, other);
    }
  }

  // ---------------------------------------------------------------------
  // The page loop of `make_book`

  datatype Book = Book(pages: seq<string>, counts: map<string, nat>, graph: Graph)

  /** The innermost loop over one note's tags. */
  method CountEdges(graph: Graph, tag: string, others: seq<string>) returns (g: Graph)
    ensures g == AddEdges(graph, tag, others)
  {
    g := graph;
    var k := 0;
    while k < |others|
      invariant 0 <= k <= |others|
      invariant g == AddEdges(graph, tag, others[..k])
    {
      var other := others[k];
      assert others[..k + 1][..k] == others[..k];
      if other == tag || (other, tag) in g {
        k := k + 1;
        continue;
      }
      var count := if (tag, other) in g then g[(tag, other)] else 0;
      g := g[(tag, other) := count + 1];
      k := k + 1;
    }
    assert others[..k] == others;
  }

  /** The loop over one tag's notes: render each, then count its edges. */
  lemma RenderAllSnoc(anns: seq<Annotation>, j: nat, f: Formatters)
    requires j < |anns|
    requires RenderAll(anns[..j], f).Ok? && ToMd(anns[j], true, f).Ok?
    ensures RenderAll(anns[..j + 1], f) == Ok(RenderAll(anns[..j], f).value + (ToMd(anns[j], true, f).value + "\n---\n"))
  {
    assert anns[..j + 1][..j] == anns[..j];
    Associative(RenderAll(anns[..j], f).value, ToMd(anns[j], true, f).value, "\n---\n");
  }

  method WritePage(graph: Graph, tag: string, anns: seq<Annotation>, emptyTag: string, f: Formatters)
    returns (r: Result<(string, Graph), Error>)
    ensures r.Ok? <==> Renderable(anns, f)
    ensures r.Err? ==> r.error.UrlParse?
    ensures r.Ok? ==> r.value.0 == PageHeading(tag, emptyTag) + RenderAll(anns, f).value
    ensures r.Ok? ==> r.value.1 == PageGraph(graph, tag, anns)
  {
    var text := PageHeading(tag, emptyTag);
    var g := graph;
    var j := 0;
    while j < |anns|
      invariant 0 <= j <= |anns|
      invariant RenderAll(anns[..j], f).Ok?
      invariant text == PageHeading(tag, emptyTag) + RenderAll(anns[..j], f).value
      invariant g == PageGraph(graph, tag, anns[..j])
    {
      var md := ToMd(anns[j], true, f);
      if md.Err? {
        assert anns[j] in anns;
        return Err(md.error);
      }
      RenderAllSnoc(anns, j, f);
      Associative(PageHeading(tag, emptyTag), RenderAll(anns[..j], f).value, md.value + "\n---\n");
      text := text + (md.value + "\n---\n");
      assert anns[..j + 1][..j] == anns[..j];
      g := CountEdges(g, tag, anns[j].tags);
      j := j + 1;
    }
    assert anns[..j] == anns;
    r := Ok((text, g));
  }

  lemma BookStep(pages: Pages, i: nat, emptyTag: string, f: Formatters)
    requires i < |pages| && Renderable(pages[i].1, f)
    ensures BuildCounts(pages[..i + 1]) == BuildCounts(pages[..i])[pages[i].0 := |pages[i].1|]
    ensures BuildGraph(pages[..i + 1]) == PageGraph(BuildGraph(pages[..i]), pages[i].0, SortByCreated(pages[i].1))
    ensures TagPage(pages[i].0, pages[i].1, emptyTag, f)
      == Ok(PageHeading(pages[i].0, emptyTag) + RenderAll(SortByCreated(pages[i].1), f).value)
  {
    assert pages[..i + 1][..i] == pages[..i];
  }

  /** The loop of `make_book` over the tag index: each page's text, the
      per-tag note counts and the co-occurrence graph; the first note whose
      uri does not parse aborts the whole book. */
  method MakeBookPages(pages: Pages, emptyTag: string, f: Formatters) returns (r: Result<Book, Error>)
    ensures r.Err? <==> exists i :: 0 <= i < |pages| && !Renderable(pages[i].1, f)
    ensures r.Err? ==> r.error.UrlParse?
    ensures r.Ok? ==> r.value.counts == BuildCounts(pages) && r.value.graph == BuildGraph(pages)
    ensures r.Ok? ==> |r.value.pages| == |pages|
    ensures r.Ok? ==> forall i :: 0 <= i < |pages| ==> TagPage(pages[i].0, pages[i].1, emptyTag, f) == Ok(r.value.pages[i])
  {
    var counts: map<string, nat> := map[];
    var graph: Graph := map[];
    var texts: seq<string> := [];
    var i := 0;
    while i < |pages|
      invariant 0 <= i <= |pages|
      invariant counts == BuildCounts(pages[..i]) && graph == BuildGraph(pages[..i])
      invariant |texts| == i
      invariant forall k :: 0 <= k < i ==> TagPage(pages[k].0, pages[k].1, emptyTag, f) == Ok(texts[k])
      invariant forall k :: 0 <= k < i ==> Renderable(pages[k].1, f)
    {
      var (tag, fetched) := pages[i];
      var anns := SortByCreated(fetched);
      counts := counts[tag := |anns|];
      var page := WritePage(graph, tag, anns, emptyTag, f);
      if page.Err? {
        return Err(page.error);
      }
      BookStep(pages, i, emptyTag, f);
      ghost var before := texts;
      texts := texts + [page.value.0];
      forall k | 0 <= k < i + 1 ensures TagPage(pages[k].0, pages[k].1, emptyTag, f) == Ok(texts[k]) {
        if k < i {
          assert texts[k] == before[k];
        }
      }
      graph := page.value.1;
      i := i + 1;
    }
    assert pages[..i] == pages;
    r := Ok(Book(texts, counts, graph));
  }

  // ---------------------------------------------------------------------
  // The mermaid graph

  /** "1 note" for a count of one, "<n> notes" otherwise. */
  function NotesLabel(count: nat): string
  {
    if count == 1 then "1 note" else NatToString(count) + " notes"
  }

  /** The decimal digits at the head of `s`. */
  function LeadingDigits(s: string): (d: string)
    ensures forall i :: 0 <= i < |d| ==> '0' <= d[i] <= '9'
  {
    if s != [] && '0' <= s[0] <= '9' then [s[0]] + LeadingDigits(s[1..]) else []
  }

  lemma {:induction false} LeadingDigitsAppend(digits: string, rest: string)
    requires forall i :: 0 <= i < |digits| ==> '0' <= digits[i] <= '9'
    requires rest != [] && !('0' <= rest[0] <= '9')
    ensures LeadingDigits(digits + rest) == digits
  {
    if digits == [] {
      assert digits + rest == rest;
    } else {
      assert (digits + rest)[1..] == digits[1..] + rest;
      LeadingDigitsAppend(digits[1..], rest);
    }
  }

  /** A label reads back as its count: its leading digits denote it, and the
      singular is used exactly for one. */
  lemma NotesLabelReadsBack(count: nat)
    ensures ParseDecimal(LeadingDigits(NotesLabel(count))) == count
    ensures NotesLabel(count) == "1 note" <==> count == 1
  {
    if count == 1 {
      LeadingDigitsAppend("1", " note");
      assert "1" + " note" == "1 note";
    } else {
      LeadingDigitsAppend(NatToString(count), " notes");
      ParseNatToString(count);
      assert |NotesLabel(count)| != |"1 note"|;
    }
  }

  function NodeLine(tag: string, count: nat): string
  {
    "    " + tag + "[\"" + tag + "<br/>" + NotesLabel(count) + "\"];\n"
  }

  function EdgeLine(edge: (string, string), count: nat): string
  {
    "    " + edge.0 + "-- " + NotesLabel(count) + " ---" + edge.1 + ";\n"
  }

  function ClickLine(tag: string): string
  {
    "    click " + tag + " \"/" + tag + ".html\";\n"
  }

  const MermaidHeader: string := "```mermaid" + "\n" + "graph TD;" + "\n"
  const MermaidFooter: string := "```" + "\n"

  function NodeLines(counts: map<string, nat>, order: seq<string>): string
    requires forall t :: t in order ==> t in counts
  {
    if order == [] then []
    else NodeLines(counts, order[..|order| - 1]) + NodeLine(order[|order| - 1], counts[order[|order| - 1]])
  }

  function EdgeLines(graph: Graph, order: seq<(string, string)>): string
    requires forall e :: e in order ==> e in graph
  {
    if order == [] then []
    else EdgeLines(graph, order[..|order| - 1]) + EdgeLine(order[|order| - 1], graph[order[|order| - 1]])
  }

  function ClickLines(order: seq<string>): string
  {
    if order == [] then [] else ClickLines(order[..|order| - 1]) + ClickLine(order[|order| - 1])
  }

  /** `make_mermaid_graph`, with the hash maps' iteration orders as inputs:
      the header, a node per tag, an edge per pair, a click per tag, the
      closing fence. */
  function MermaidText(counts: map<string, nat>, graph: Graph, tagOrder: seq<string>, edgeOrder: seq<(string, string)>): (text: string)
    requires forall t :: t in tagOrder ==> t in counts
    requires forall e :: e in edgeOrder ==> e in graph
    ensures |text| >= |MermaidHeader| + |MermaidFooter|
    ensures text[..|MermaidHeader|] == MermaidHeader
    ensures text[|text| - |MermaidFooter|..] == MermaidFooter
  {
    var text := MermaidHeader + NodeLines(counts, tagOrder) + EdgeLines(graph, edgeOrder) + ClickLines(tagOrder) + MermaidFooter;
    assert text[..|MermaidHeader|] == MermaidHeader;
    assert text[|text| - |MermaidFooter|..] == MermaidFooter;
    text
  }

  /** The node lines of `make_mermaid_graph`, collected over the counts. */
  method NodeSection(counts: map<string, nat>, order: seq<string>) returns (nodes: string)
    requires forall t :: t in order ==> t in counts
    ensures nodes == NodeLines(counts, order)
  {
    nodes := "";
    for i := 0 to |order|
      invariant nodes == NodeLines(counts, order[..i])
    {
      assert order[..i + 1][..i] == order[..i];
      nodes := nodes + NodeLine(order[i], counts[order[i]]);
    }
    assert order[..|order|] == order;
  }

  /** The click lines of `make_mermaid_graph`, collected over the count keys. */
  method ClickSection(order: seq<string>) returns (clicks: string)
    ensures clicks == ClickLines(order)
  {
    clicks := "";
    for i := 0 to |order|
      invariant clicks == ClickLines(order[..i])
    {
      assert order[..i + 1][..i] == order[..i];
      clicks := clicks + ClickLine(order[i]);
    }
    assert order[..|order|] == order;
  }

  /** The edge loop of `make_mermaid_graph`: one line pushed per pair. */
  method PushEdges(start: string, graph: Graph, order: seq<(string, string)>) returns (text: string)
    requires forall e :: e in order ==> e in graph
    ensures text == start + EdgeLines(graph, order)
  {
    text := start;
    for i := 0 to |order|
      invariant text == start + EdgeLines(graph, order[..i])
    {
      assert order[..i + 1][..i] == order[..i];
      var line := EdgeLine(order[i], graph[order[i]]);
      Associative(start, EdgeLines(graph, order[..i]), line);
      text := text + line;
    }
    assert order[..|order|] == order;
  }

  method MakeMermaidGraph(counts: map<string, nat>, graph: Graph, tagOrder: seq<string>, edgeOrder: seq<(string, string)>)
    returns (text: string)
    requires Enumerates(tagOrder, counts.Keys)
    requires Enumerates(edgeOrder, graph.Keys)
    ensures text == MermaidText(counts, graph, tagOrder, edgeOrder)
  {
    text := MermaidHeader;
    var nodes := NodeSection(counts, tagOrder);
    text := text + nodes;
    text := PushEdges(text, graph, edgeOrder);
    var clicks := ClickSection(tagOrder);
    text := text + clicks;
    text := text + MermaidFooter;
  }

  predicate NoNewline(s: string)
  {
    '\n' !in s
  }

  lemma NotesLabelNoNewline(count: nat)
    ensures '\n' !in NotesLabel(count)
  {
    if count != 1 {
      var d := NatToString(count);
      assert '\n' !in d by {
        forall i | 0 <= i < |d| ensures d[i] != '\n' {
          assert '0' <= d[i] <= '9';
        }
      }
    }
  }

  lemma OneLine(body: string)
    requires '\n' !in body
    ensures Occurrences(body + "\n", '\n') == 1
  {
    OccurrencesAppend(body, "\n", '\n');
  }

  lemma NodeLineNewlines(t: string, count: nat)
    requires NoNewline(t)
    ensures Occurrences(NodeLine(t, count), '\n') == 1
  {
    NotesLabelNoNewline(count);
    var body := "    " + t + "[\"" + t + "<br/>" + NotesLabel(count) + "\"];";
    assert '\n' !in "    " && '\n' !in "[\"" && '\n' !in "<br/>" && '\n' !in "\"];";
    OneLine(body);
    assert NodeLine(t, count) == body + "\n";
  }

  lemma EdgeLineNewlines(e: (string, string), count: nat)
    requires NoNewline(e.0) && NoNewline(e.1)
    ensures Occurrences(EdgeLine(e, count), '\n') == 1
  {
    NotesLabelNoNewline(count);
    var body := "    " + e.0 + "-- " + NotesLabel(count) + " ---" + e.1 + ";";
    assert '\n' !in "    " && '\n' !in "-- " && '\n' !in " ---" && '\n' !in ";";
    OneLine(body);
    assert EdgeLine(e, count) == body + "\n";
  }

  lemma ClickLineNewlines(t: string)
    requires NoNewline(t)
    ensures Occurrences(ClickLine(t), '\n') == 1
  {
    var body := "    click " + t + " \"/" + t + ".html\";";
    assert '\n' !in "    click " && '\n' !in " \"/" && '\n' !in ".html\";";
    OneLine(body);
    assert ClickLine(t) == body + "\n";
  }

  lemma {:induction false} NodeLinesNewlines(counts: map<string, nat>, order: seq<string>)
    requires forall t :: t in order ==> t in counts && NoNewline(t)
    ensures Occurrences(NodeLines(counts, order), '\n') == |order|
  {
    if order != [] {
      var n := |order| - 1;
      var t := order[n];
      assert t in order;
      NodeLinesNewlines(counts, order[..n]);
      NodeLineNewlines(t, counts[t]);
      OccurrencesAppend(NodeLines(counts, order[..n]), NodeLine(t, counts[t]), '\n');
    }
  }

  lemma {:induction false} EdgeLinesNewlines(graph: Graph, order: seq<(string, string)>)
    requires forall e :: e in order ==> e in graph && NoNewline(e.0) && NoNewline(e.1)
    ensures Occurrences(EdgeLines(graph, order), '\n') == |order|
  {
    if order != [] {
      var n := |order| - 1;
      var e := order[n];
      assert e in order;
      EdgeLinesNewlines(graph, order[..n]);
      EdgeLineNewlines(e, graph[e]);
      OccurrencesAppend(EdgeLines(graph, order[..n]), EdgeLine(e, graph[e]), '\n');
    }
  }

  lemma {:induction false} ClickLinesNewlines(order: seq<string>)
    requires forall t :: t in order ==> NoNewline(t)
    ensures Occurrences(ClickLines(order), '\n') == |order|
  {
    if order != [] {
      var n := |order| - 1;
      var t := order[n];
      assert t in order;
      ClickLinesNewlines(order[..n]);
      ClickLineNewlines(t);
      OccurrencesAppend(ClickLines(order[..n]), ClickLine(t), '\n');
    }
  }

  lemma FrameLines()
    ensures Occurrences(MermaidHeader, '\n') == 2
    ensures Occurrences(MermaidFooter, '\n') == 1
  {
    OneLine("```mermaid");
    assert '\n' !in "graph TD;";
    OccurrencesAppend("```mermaid" + "\n", "graph TD;", '\n');
    OccurrencesAppend("```mermaid" + "\n" + "graph TD;", "\n", '\n');
    OneLine("```");
  }

  /** The mermaid text has one line per tag node, one per counted pair, one
      click line per tag, and three lines of frame, when no tag contains a
      line break. */
  lemma MermaidLineCount(counts: map<string, nat>, graph: Graph, tagOrder: seq<string>, edgeOrder: seq<(string, string)>)
    requires Enumerates(tagOrder, counts.Keys)
    requires Enumerates(edgeOrder, graph.Keys)
    requires forall t :: t in counts ==> NoNewline(t)
    requires forall e :: e in graph ==> NoNewline(e.0) && NoNewline(e.1)
    ensures Occurrences(MermaidText(counts, graph, tagOrder, edgeOrder), '\n') == 3 + 2 * |counts.Keys| + |graph.Keys|
  {
    EnumeratesCard(tagOrder, counts.Keys);
    EnumeratesCard(edgeOrder, graph.Keys);
    NodeLinesNewlines(counts, tagOrder);
    EdgeLinesNewlines(graph, edgeOrder);
    ClickLinesNewlines(tagOrder);
    var nodes := NodeLines(counts, tagOrder);
    var edges := EdgeLines(graph, edgeOrder);
    var clicks := ClickLines(tagOrder);
    OccurrencesAppend(MermaidHeader, nodes, '\n');
    OccurrencesAppend(MermaidHeader + nodes, edges, '\n');
    OccurrencesAppend(MermaidHeader + nodes + edges, clicks, '\n');
    OccurrencesAppend(MermaidHeader + nodes + edges + clicks, MermaidFooter, '\n');
    FrameLines();
  }
}
