/** Reading back what `serialize_to_tgf` wrote gives the graph back, and writing
    out what was read reproduces a dense document. */
module TgfRoundTrip {
  import opened Wrappers
  import opened Seqs
  import opened Text
  import opened Adjacency
  import opened Compaction
  import opened Tgf
  import opened TgfParsing
  import opened TgfRendering

  // ------------------------------------------------------------ canonical labels

  /** A label that survives a line of its own: no `#`, no line break, nothing to trim. */
  predicate CleanLabel(l: string)
  {
    '#' !in l && '\n' !in l && Trimmed(l)
  }

  /** A vertex label the parser gives back: none, or a non-empty clean text (an
      empty label is read back as none). */
  predicate CanonicalVertexTag(tag: Option<string>)
  {
    tag.None? || (tag.value != [] && CleanLabel(tag.value))
  }

  /** An edge label the parser gives back: always present (a missing one is read
      back as the empty text), and clean. */
  predicate CanonicalEdgeTag(tag: Option<string>)
  {
    tag.Some? && CleanLabel(tag.value)
  }

  predicate LabelsCanonical(ls: seq<Option<string>>)
  {
    forall i :: 0 <= i < |ls| ==> CanonicalEdgeTag(ls[i])
  }

  ghost predicate VertexTagsCanonical(s: Store<string, string>)
  {
    forall k | k in s.data :: CanonicalVertexTag(s.data[k].tag)
  }

  ghost predicate EdgeTagsCanonical(s: Store<string, string>)
  {
    forall f, t | f in s.data && t in s.data[f].out :: LabelsCanonical(s.data[f].out[t])
  }

  /** A store the text format can carry exactly: well formed, compacted (as `fit`
      leaves it, with the counter at the number of vertices), and with labels the
      parser reads back unchanged. */
  ghost predicate Canonical(s: Store<string, string>)
  {
    WellFormed(s) && Dense(s) && s.last == |s.data| && VertexTagsCanonical(s) && EdgeTagsCanonical(s)
  }

  // ------------------------------------------------------------ one line

  /** A numeral followed by a space and a clean label is one line without `#`. */
  lemma JoinedLinePlain(a: string, l: string)
    requires '\n' !in a && '#' !in a && CleanLabel(l)
    ensures PlainLine(a + " " + l) && '#' !in a + " " + l
  {
    var line := a + " " + l;
    if l != [] {
      assert line[|line| - 1] == l[|l| - 1];
    }
  }

  /** The one record of `k ` is the id alone. */
  lemma VertexUnlabelled(a: string)
    requires ' ' !in a && a != []
    ensures Tokens(a + " " + [], 2) == [Trim(a)]
  {
    SplitNCons(a, ' ', [], 2);
    NonEmptyPiecesAppend([a], [[]]);
    NonEmptyPiecesKept([a]);
    assert [a, []] == [a] + [[]];
  }

  /** The fields of a written vertex line read back as its id and label. */
  lemma VertexFields(a: string, k: nat, tag: Option<string>)
    requires ' ' !in a && a != [] && Trim(a) == a && ParseNat(a) == Some(k)
    requires CanonicalVertexTag(tag)
    ensures Tokens(a + " " + LabelText(tag), 2) != []
    ensures VertexEntryOf(Tokens(a + " " + LabelText(tag), 2)) == Some(VertexEntry(k, tag))
  {
    match tag
    case None =>
      VertexUnlabelled(a);
    case Some(l) =>
      VertexLabelIsRest(a, l);
      TrimIsTrimmed(l);
  }

  /** A written vertex line is a plain line whose one record reads back as the vertex. */
  lemma VertexLineParsed(k: nat, tag: Option<string>)
    requires CanonicalVertexTag(tag)
    ensures PlainLine(VertexLine(k, tag)) && '#' !in VertexLine(k, tag)
    ensures Tokens(VertexLine(k, tag), 2) != []
    ensures VertexEntryOf(Tokens(VertexLine(k, tag), 2)) == Some(VertexEntry(k, tag))
  {
    var d := NatToString(k);
    NumeralIsPlain(k);
    ParseNatToString(k);
    JoinedLinePlain(d, LabelText(tag));
    VertexFields(d, k, tag);
  }

  /** An empty vertex label does not survive the text format: a vertex line padded
      with two spaces reads as the label `Some("")`, but the writer emits that
      vertex as `k `, which reads back with no label. */
  lemma EmptyVertexLabelLost(k: nat)
    ensures VertexEntryOf(Tokens(NatToString(k) + "  ", 2)) == Some(VertexEntry(k, Some([])))
    ensures VertexLine(k, Some([])) == NatToString(k) + " "
    ensures VertexEntryOf(Tokens(VertexLine(k, Some([])), 2)) == Some(VertexEntry(k, None))
  {
    var d := NatToString(k);
    NumeralIsPlain(k);
    ParseNatToString(k);
    PaddedVertexLine(d, k);
    VertexFields(d, k, None);
    assert VertexLine(k, Some([])) == d + " " + [];
  }

  lemma PaddedVertexLine(d: string, k: nat)
    requires ' ' !in d && d != [] && Trim(d) == d && ParseNat(d) == Some(k)
    ensures VertexEntryOf(Tokens(d + "  ", 2)) == Some(VertexEntry(k, Some([])))
  {
    var sp := " ";
    VertexLabelIsRest(d, sp);
    assert Trim(sp) == [] by {
      assert TrimStart(sp) == TrimStart(sp[1..]);
    }
    assert d + "  " == d + " " + sp;
  }

  /** The fields of `a b ` are `a` and `b`. */
  lemma EdgeUnlabelled(a: string, b: string)
    requires ' ' !in a && ' ' !in b && a != [] && b != []
    ensures Tokens(a + " " + b + " " + [], 3) == TrimEach([a, b])
  {
    SplitThree(a, b, []);
    TwoPiecesAndBlank(a, b);
  }

  lemma TwoPiecesAndBlank(a: string, b: string)
    requires a != [] && b != []
    ensures NonEmptyPieces([a, b, []]) == [a, b]
  {
    var blank: seq<string> := [[]];
    assert [a, b, []] == [a, b] + blank;
    NonEmptyPiecesAppend([a, b], blank);
    NonEmptyPiecesKept([a, b]);
    assert NonEmptyPieces(blank) == [] by {
      assert blank[1..] == [];
    }
  }

  /** The fields of a written edge line read back as its endpoints and label. */
  lemma EdgeFields(a: string, b: string, x: nat, y: nat, l: string)
    requires ' ' !in a && a != [] && Trim(a) == a && ParseNat(a) == Some(x)
    requires ' ' !in b && b != [] && Trim(b) == b && ParseNat(b) == Some(y)
    requires CleanLabel(l)
    ensures EdgeEntryOf(Tokens(a + " " + b + " " + l, 3)) == Some(EdgeEntry(x, y, l))
  {
    if l == [] {
      EdgeUnlabelled(a, b);
      TrimEachTwo(a, b);
    } else {
      EdgeLabelIsRest(a, b, l);
      TrimIsTrimmed(l);
    }
  }

  /** A written edge line is a plain line whose one record reads back as the edge. */
  lemma EdgeLineParsed(f: nat, t: nat, tag: Option<string>)
    requires CanonicalEdgeTag(tag)
    ensures PlainLine(EdgeLine(f, t, tag)) && '#' !in EdgeLine(f, t, tag)
    ensures EdgeEntryOf(Tokens(EdgeLine(f, t, tag), 3)) == Some(EdgeEntry(f, t, tag.value))
  {
    var a := NatToString(f);
    var b := NatToString(t);
    NumeralIsPlain(f);
    NumeralIsPlain(t);
    ParseNatToString(f);
    ParseNatToString(t);
    JoinedLinePlain(a + " " + b, tag.value);
    EdgeFields(a, b, f, t, tag.value);
  }

  // ------------------------------------------------------------ the two sections

  /** The vertex entries the parser should find: ids `1..N` with their labels. */
  function ParsedVertices(s: Store<string, string>): (r: seq<VertexEntry>)
    requires Dense(s)
    ensures |r| == |s.data|
  {
    seq(|s.data|, i requires 0 <= i < |s.data| => VertexEntry(i + 1, s.data[i + 1].tag))
  }

  /** The edge entries the parser should find: one per written edge line. */
  function ParsedEdges(items: seq<(nat, nat, Option<string>)>): (r: seq<EdgeEntry>)
    ensures |r| == |items|
  {
    seq(|items|, i requires 0 <= i < |items| => EdgeEntry(items[i].0, items[i].1, LabelText(items[i].2)))
  }

  lemma VertexSection(s: Store<string, string>)
    requires Dense(s) && VertexTagsCanonical(s)
    ensures '#' !in VertexText(s)
    ensures Lines(VertexText(s)) == VertexLines(VertexRows(s, |s.data|))
    ensures VertexEntries(Records(Lines(VertexText(s)), 2)) == Some(ParsedVertices(s))
  {
    var ls := VertexLines(VertexRows(s, |s.data|));
    VertexLinesRead(s);
    UnlinesWithout(ls, '#');
    LinesUnlines(ls);
    VertexRecordsRead(s);
  }

  /** Each written vertex line is plain, has no `#` and reads back as its entry. */
  lemma VertexLinesRead(s: Store<string, string>)
    requires Dense(s) && VertexTagsCanonical(s)
    ensures var ls := VertexLines(VertexRows(s, |s.data|));
      forall i :: 0 <= i < |ls| ==>
        && PlainLine(ls[i]) && '#' !in ls[i] && Tokens(ls[i], 2) != []
        && VertexEntryOf(Tokens(ls[i], 2)) == Some(ParsedVertices(s)[i])
  {
    var ls := VertexLines(VertexRows(s, |s.data|));
    forall i | 0 <= i < |ls|
      ensures PlainLine(ls[i]) && '#' !in ls[i] && Tokens(ls[i], 2) != []
      ensures VertexEntryOf(Tokens(ls[i], 2)) == Some(ParsedVertices(s)[i])
    {
      assert ls[i] == VertexLine(i + 1, s.data[i + 1].tag);
      assert ParsedVertices(s)[i] == VertexEntry(i + 1, s.data[i + 1].tag);
      VertexLineParsed(i + 1, s.data[i + 1].tag);
    }
  }

  lemma VertexRecordsRead(s: Store<string, string>)
    requires Dense(s) && VertexTagsCanonical(s)
    ensures VertexEntries(Records(VertexLines(VertexRows(s, |s.data|)), 2)) == Some(ParsedVertices(s))
  {
    var ls := VertexLines(VertexRows(s, |s.data|));
    var pv := ParsedVertices(s);
    VertexLinesRead(s);
    RecordsOfLines(ls, 2);
    var recs := Records(ls, 2);
    assert forall i :: 0 <= i < |recs| ==> recs[i] == Tokens(ls[i], 2);
    VertexEntriesOf(recs, pv);
  }

  /** Every item of rows with canonical labels has a canonical label. */
  lemma {:induction false} ItemsCanonical(rows: seq<(nat, nat, seq<Option<string>>)>)
    requires forall i :: 0 <= i < |rows| ==> LabelsCanonical(rows[i].2)
    ensures forall i :: 0 <= i < |EdgeItems(rows)| ==> CanonicalEdgeTag(EdgeItems(rows)[i].2)
  {
    if rows != [] {
      ItemsCanonical(rows[1..]);
      var a := RowItems(rows[0]);
      var b := EdgeItems(rows[1..]);
      var c: seq<(nat, nat, Option<string>)> := a + b;
      forall i | 0 <= i < |c|
        ensures CanonicalEdgeTag(c[i].2)
      {
        if i < |a| {
          assert c[i] == a[i];
        } else {
          assert c[i] == b[i - |a|];
        }
      }
    }
  }

  /** The items written for a compacted store. */
  function RenderedItems(s: Store<string, string>): seq<(nat, nat, Option<string>)>
    requires Dense(s)
  {
    EdgeItems(EdgeRows(s, 1, |s.data|))
  }

  /** Every written row holds canonical labels. */
  lemma RowsCanonical(s: Store<string, string>)
    requires Dense(s) && EdgeTagsCanonical(s)
    ensures forall i :: 0 <= i < |EdgeRows(s, 1, |s.data|)| ==> LabelsCanonical(EdgeRows(s, 1, |s.data|)[i].2)
  {
    var rows := EdgeRows(s, 1, |s.data|);
    EdgeRowsMembers(s, 1, |s.data|);
    forall i | 0 <= i < |rows|
      ensures LabelsCanonical(rows[i].2)
    {
      var p := rows[i];
      assert p in rows;
      assert IsEdgeRow(s, p);
    }
  }

  lemma RenderedItemsCanonical(s: Store<string, string>)
    requires Dense(s) && EdgeTagsCanonical(s)
    ensures forall i :: 0 <= i < |RenderedItems(s)| ==> CanonicalEdgeTag(RenderedItems(s)[i].2)
  {
    RowsCanonical(s);
    ItemsCanonical(EdgeRows(s, 1, |s.data|));
  }

  lemma EdgeSection(s: Store<string, string>)
    requires Dense(s) && EdgeTagsCanonical(s)
    ensures '#' !in EdgeText(s)
    ensures Lines(EdgeText(s)) == EdgeLines(RenderedItems(s))
    ensures EdgeEntries(Records(Lines(EdgeText(s)), 3)) == Some(ParsedEdges(RenderedItems(s)))
  {
    var items := RenderedItems(s);
    var ls := EdgeLines(items);
    var pe := ParsedEdges(items);
    RenderedItemsCanonical(s);
    forall i | 0 <= i < |items|
      ensures PlainLine(ls[i]) && '#' !in ls[i] && Tokens(ls[i], 3) != []
      ensures EdgeEntryOf(Tokens(ls[i], 3)) == Some(pe[i])
    {
      EdgeLineParsed(items[i].0, items[i].1, items[i].2);
    }
    UnlinesWithout(ls, '#');
    LinesUnlines(ls);
    RecordsOfLines(ls, 3);
    EdgeEntriesOf(Records(ls, 3), pe);
  }

  /** Two `#`-free sections joined by `#` and a line break are read from those
      sections. */
  lemma JoinedSections(vt: string, et: string)
    requires '#' !in vt && '#' !in et
    ensures ParseTgf(vt + "#\n" + et) == ParseSections(vt, "\n" + et)
  {
    JoinedSplit(vt, et);
    SectionsParsed(vt + "#\n" + et, vt, "\n" + et);
  }

  lemma JoinedSplit(vt: string, et: string)
    requires '#' !in vt && '#' !in et
    ensures Split(vt + "#\n" + et, '#') == [vt, "\n" + et]
  {
    var rest := "\n" + et;
    assert '#' !in rest;
    assert vt + "#\n" + et == vt + ['#'] + rest;
    SplitCons(vt, '#', rest);
    SplitWithout(rest, '#');
  }

  /** The line break after `#` opens the edge section with an empty line, which
      has no fields and is dropped. */
  lemma LeadingBreakSkipped(et: string)
    ensures Records(Lines("\n" + et), 3) == Records(Lines(et), 3)
  {
    LinesCons([], et);
    assert [] + "\n" + et == "\n" + et;
    BlankLineHasNoFields(3);
    RecordsSkipLine([], Lines(et), 3);
  }

  lemma SectionsRead(vt: string, et: string, vs: seq<VertexEntry>, es: seq<EdgeEntry>)
    requires VertexEntries(Records(Lines(vt), 2)) == Some(vs)
    requires EdgeEntries(Records(Lines(et), 3)) == Some(es)
    ensures ParseSections(vt, "\n" + et) == Some(InsertEdges(Start(vs), es))
  {
    LeadingBreakSkipped(et);
  }

  /** The written text parses to the edge loop over the written entries. */
  lemma RenderSections(s: Store<string, string>)
    requires Dense(s) && VertexTagsCanonical(s) && EdgeTagsCanonical(s)
    ensures ParseTgf(Render(s)) == Some(InsertEdges(Start(ParsedVertices(s)), ParsedEdges(RenderedItems(s))))
  {
    VertexSection(s);
    EdgeSection(s);
    JoinedSections(VertexText(s), EdgeText(s));
    SectionsRead(VertexText(s), EdgeText(s), ParsedVertices(s), ParsedEdges(RenderedItems(s)));
  }

  // ------------------------------------------------------------ the vertex map

  lemma RenderedIds(s: Store<string, string>)
    requires Dense(s)
    ensures EntryIds(ParsedVertices(s)) == s.data.Keys
  {
    var pv := ParsedVertices(s);
    forall k | k in s.data
      ensures k in EntryIds(pv)
    {
      assert pv[k - 1].id == k;
    }
  }

  lemma RenderedTags(s: Store<string, string>)
    requires Dense(s)
    ensures forall k | k in s.data ::
      k in VertexMap(ParsedVertices(s)) && VertexMap(ParsedVertices(s))[k] == Vertex(s.data[k].tag, map[])
  {
    var pv := ParsedVertices(s);
    forall k | k in s.data
      ensures k in VertexMap(pv) && VertexMap(pv)[k] == Vertex(s.data[k].tag, map[])
    {
      assert pv[k - 1].id == k;
      VertexMapLastWins(pv, k - 1);
    }
  }

  /** Before the edges are read, the store has the written vertices with their
      labels, no edges, empty reverse sets and the counter at N. */
  lemma StartOfRendered(s: Store<string, string>)
    requires Dense(s)
    ensures var s0 := Start(ParsedVertices(s));
      && s0.data.Keys == s.data.Keys && s0.rev.Keys == s.data.Keys && s0.last == |s.data|
      && (forall k | k in s.data :: s0.data[k] == Vertex(s.data[k].tag, map[]))
      && (forall k | k in s.data :: s0.rev[k] == {})
  {
    var pv := ParsedVertices(s);
    RenderedIds(s);
    RenderedTags(s);
    StartShape(pv);
    assert |s.data| == |s.data.Keys|;
  }

  /** The store before the edges: the vertex map, an empty reverse set per id,
      and the counter at the number of distinct ids. */
  lemma StartShape(vs: seq<VertexEntry>)
    ensures var s0 := Start(vs);
      && s0.data == VertexMap(vs)
      && s0.rev.Keys == EntryIds(vs)
      && (forall k | k in s0.rev :: s0.rev[k] == {})
      && s0.last == |EntryIds(vs)|
  {
    var m := VertexMap(vs);
    assert |m| == |m.Keys|;
  }

  // ------------------------------------------------------------ the edge lists

  /** The labels of the rows at the pair `(f, t)`, in row order. */
  function RowsSelect<E>(rows: seq<(nat, nat, seq<Option<E>>)>, f: nat, t: nat): seq<Option<E>>
  {
    if rows == [] then []
    else (if rows[0].0 == f && rows[0].1 == t then rows[0].2 else []) + RowsSelect(rows[1..], f, t)
  }

  lemma {:induction false} RowsSelectAppend<E>(a: seq<(nat, nat, seq<Option<E>>)>, b: seq<(nat, nat, seq<Option<E>>)>, f: nat, t: nat)
    ensures RowsSelect(a + b, f, t) == RowsSelect(a, f, t) + RowsSelect(b, f, t)
  {
    if a != [] {
      assert (a + b)[0] == a[0];
      assert (a + b)[1..] == a[1..] + b;
      RowsSelectAppend(a[1..], b, f, t);
    } else {
      assert a + b == b;
    }
  }

  lemma RowsSelectOne<E>(row: (nat, nat, seq<Option<E>>), f: nat, t: nat)
    ensures RowsSelect([row], f, t) == if row.0 == f && row.1 == t then row.2 else []
  {
    assert [row][1..] == [];
  }

  lemma {:induction false} TargetRowsSelect<V, E>(s: Store<V, E>, g: nat, u: nat, n: nat, f: nat, t: nat)
    requires g in s.data
    ensures RowsSelect(TargetRows(s, g, u, n), f, t)
         == if g == f && u <= t <= n && t in s.data[g].out then s.data[g].out[t] else []
    decreases n + 1 - u
  {
    if u <= n {
      var head: seq<(nat, nat, seq<Option<E>>)> := if u in s.data[g].out then [(g, u, s.data[g].out[u])] else [];
      assert TargetRows(s, g, u, n) == head + TargetRows(s, g, u + 1, n);
      RowsSelectAppend(head, TargetRows(s, g, u + 1, n), f, t);
      if u in s.data[g].out {
        RowsSelectOne((g, u, s.data[g].out[u]), f, t);
      }
      assert RowsSelect(head, f, t) == if g == f && u == t && u in s.data[g].out then s.data[g].out[u] else [];
      TargetRowsSelect(s, g, u + 1, n, f, t);
    }
  }

  lemma {:induction false} EdgeRowsSelect<V, E>(s: Store<V, E>, g: nat, n: nat, f: nat, t: nat)
    requires forall k :: g <= k <= n ==> k in s.data
    ensures RowsSelect(EdgeRows(s, g, n), f, t)
         == if g <= f <= n && 1 <= t <= n && t in s.data[f].out then s.data[f].out[t] else []
    decreases n + 1 - g
  {
    if g <= n {
      var here := TargetRows(s, g, 1, n);
      var later := EdgeRows(s, g + 1, n);
      assert EdgeRows(s, g, n) == here + later;
      RowsSelectAppend(here, later, f, t);
      TargetRowsSelect(s, g, 1, n, f, t);
      EdgeRowsSelect(s, g + 1, n, f, t);
    }
  }

  lemma {:induction false} SelectAppend(a: seq<EdgeEntry>, b: seq<EdgeEntry>, f: nat, t: nat)
    ensures Select(a + b, f, t) == Select(a, f, t) + Select(b, f, t)
    decreases |b|
  {
    if b == [] {
      assert a + b == a;
    } else {
      var p := b[..|b| - 1];
      var e := b[|b| - 1];
      assert b == p + [e];
      assert a + b == (a + p) + [e];
      SelectStep(a + p, e, f, t);
      SelectStep(p, e, f, t);
      SelectAppend(a, p, f, t);
    }
  }

  /** Entries that all name one pair give that pair their labels in order. */
  lemma {:induction false} SelectOnePair(es: seq<EdgeEntry>, a: nat, b: nat, f: nat, t: nat)
    requires forall i :: 0 <= i < |es| ==> es[i].from == a && es[i].to == b
    ensures Select(es, f, t) == if a == f && b == t then seq(|es|, i requires 0 <= i < |es| => Some(es[i].tag)) else []
  {
    if es != [] {
      var p := es[..|es| - 1];
      assert forall i :: 0 <= i < |p| ==> p[i] == es[i];
      SelectOnePair(p, a, b, f, t);
    }
  }

  lemma SelectRow(row: (nat, nat, seq<Option<string>>), f: nat, t: nat)
    requires LabelsCanonical(row.2)
    ensures Select(ParsedEdges(RowItems(row)), f, t) == if row.0 == f && row.1 == t then row.2 else []
  {
    var es := ParsedEdges(RowItems(row));
    SelectOnePair(es, row.0, row.1, f, t);
    assert seq(|es|, i requires 0 <= i < |es| => Some(es[i].tag)) == row.2;
  }

  lemma ParsedEdgesAppend(x: seq<(nat, nat, Option<string>)>, y: seq<(nat, nat, Option<string>)>)
    ensures ParsedEdges(x + y) == ParsedEdges(x) + ParsedEdges(y)
  {
  }

  lemma {:induction false} SelectRows(rows: seq<(nat, nat, seq<Option<string>>)>, f: nat, t: nat)
    requires forall i :: 0 <= i < |rows| ==> LabelsCanonical(rows[i].2)
    ensures Select(ParsedEdges(EdgeItems(rows)), f, t) == RowsSelect(rows, f, t)
  {
    if rows != [] {
      ParsedEdgesAppend(RowItems(rows[0]), EdgeItems(rows[1..]));
      SelectAppend(ParsedEdges(RowItems(rows[0])), ParsedEdges(EdgeItems(rows[1..])), f, t);
      SelectRow(rows[0], f, t);
      SelectRows(rows[1..], f, t);
    }
  }

  /** Reading the written edge lines gives every pair its stored list. */
  lemma RenderedSelect(s: Store<string, string>, f: nat, t: nat)
    requires Dense(s) && TargetsIn(s.data, s.data.Keys) && EdgeTagsCanonical(s)
    ensures Select(ParsedEdges(RenderedItems(s)), f, t)
         == if f in s.data && t in s.data[f].out then s.data[f].out[t] else []
  {
    var n := |s.data|;
    RowsCanonical(s);
    SelectRows(EdgeRows(s, 1, n), f, t);
    EdgeRowsSelect(s, 1, n, f, t);
    if f in s.data && t in s.data[f].out {
      assert t in s.data;
    }
  }

  /** A target map is rebuilt from the labels the entries give each target. */
  lemma OutOfMatches(es: seq<EdgeEntry>, out: map<nat, seq<Option<string>>>, f: nat)
    requires forall t :: Select(es, f, t) == if t in out then out[t] else []
    requires forall t | t in out :: out[t] != []
    ensures OutOf(es, f) == out
  {
    forall t | t in out
      ensures t in AllTargets(es)
    {
      SelectNamed(es, f, t);
    }
  }

  /** A reverse set is rebuilt from the sources the entries give the target. */
  lemma SourcesOfMatches(es: seq<EdgeEntry>, srcs: set<nat>, t: nat)
    requires forall f :: Select(es, f, t) != [] <==> f in srcs
    ensures SourcesOf(es, t) == srcs
  {
    forall f | f in srcs
      ensures f in AllSources(es)
    {
      SelectNamed(es, f, t);
    }
  }

  lemma RebuildOut(s: Store<string, string>, f: nat)
    requires Canonical(s) && f in s.data
    ensures OutOf(ParsedEdges(RenderedItems(s)), f) == s.data[f].out
  {
    var es := ParsedEdges(RenderedItems(s));
    forall t
      ensures Select(es, f, t) == if t in s.data[f].out then s.data[f].out[t] else []
    {
      RenderedSelect(s, f, t);
    }
    OutOfMatches(es, s.data[f].out, f);
  }

  lemma RebuildSources(s: Store<string, string>, t: nat)
    requires Canonical(s) && t in s.rev
    ensures SourcesOf(ParsedEdges(RenderedItems(s)), t) == s.rev[t]
  {
    var es := ParsedEdges(RenderedItems(s));
    forall f
      ensures Select(es, f, t) != [] <==> f in s.rev[t]
    {
      RenderedSelect(s, f, t);
    }
    SourcesOfMatches(es, s.rev[t], t);
  }

  // ------------------------------------------------------------ the round trips

  /** The edge loop from label-only vertices yields the target maps the entries name. */
  lemma DataRebuilt(s0: Store<string, string>, es: seq<EdgeEntry>, data: map<nat, Vertex<string, string>>)
    requires s0.data.Keys == data.Keys
    requires forall f | f in s0.data :: s0.data[f] == Vertex(data[f].tag, map[])
    requires forall f | f in data :: OutOf(es, f) == data[f].out
    ensures InsertEdges(s0, es).data == data
  {
    InsertEdgesData(s0, es);
  }

  /** The edge loop from empty reverse sets yields the sources the entries name. */
  lemma RevRebuilt(s0: Store<string, string>, es: seq<EdgeEntry>, rev: map<nat, set<nat>>)
    requires s0.rev.Keys == rev.Keys
    requires forall t | t in rev :: s0.rev[t] == {} && SourcesOf(es, t) == rev[t]
    ensures InsertEdges(s0, es).rev == rev
  {
    InsertEdgesRev(s0, es);
    var r := InsertEdges(s0, es).rev;
    forall t | t in rev
      ensures r[t] == rev[t]
    {
      assert r[t] == {} + SourcesOf(es, t);
    }
  }

  lemma RebuildData(s: Store<string, string>)
    requires Canonical(s)
    ensures InsertEdges(Start(ParsedVertices(s)), ParsedEdges(RenderedItems(s))).data == s.data
  {
    var es := ParsedEdges(RenderedItems(s));
    StartOfRendered(s);
    forall f | f in s.data
      ensures OutOf(es, f) == s.data[f].out
    {
      RebuildOut(s, f);
    }
    DataRebuilt(Start(ParsedVertices(s)), es, s.data);
  }

  lemma RebuildRev(s: Store<string, string>)
    requires Canonical(s)
    ensures InsertEdges(Start(ParsedVertices(s)), ParsedEdges(RenderedItems(s))).rev == s.rev
  {
    var es := ParsedEdges(RenderedItems(s));
    StartOfRendered(s);
    forall t | t in s.rev
      ensures SourcesOf(es, t) == s.rev[t]
    {
      RebuildSources(s, t);
    }
    RevRebuilt(Start(ParsedVertices(s)), es, s.rev);
  }

  /** The edge loop over the written entries rebuilds both maps. */
  lemma RenderedEdgesRebuild(s: Store<string, string>)
    requires Canonical(s)
    ensures InsertEdges(Start(ParsedVertices(s)), ParsedEdges(RenderedItems(s))) == s
  {
    var s0 := Start(ParsedVertices(s));
    var es := ParsedEdges(RenderedItems(s));
    RebuildData(s);
    RebuildRev(s);
    StartOfRendered(s);
    InsertEdgesKeepsVertices(s0, es);
  }

  /** Parsing what the serializer wrote gives back the store. */
  lemma ParseRender(s: Store<string, string>)
    requires Canonical(s)
    ensures ParseTgf(Render(s)) == Some(s)
  {
    RenderSections(s);
    RenderedEdgesRebuild(s);
  }

  /** A document the serializer wrote is reproduced exactly when it is read and
      written again: the parsed graph is already compacted, so `fit` leaves it as
      it is. */
  lemma DocumentRoundTrip(s: Store<string, string>)
    requires Canonical(s)
    ensures ParseTgf(Render(s)).Some?
    ensures var g := ParseTgf(Render(s)).value;
      && IdsLive(g) && FitStore(g) == g && Dense(g) && Render(FitStore(g)) == Render(s)
  {
    ParseRender(s);
    FitOfDenseIsIdentity(s);
  }
}
