/** The outputs the unit tests at the head of `src/lib.rs` expect, and a few small
    documents, worked through the model. */
module Scenarios {
  import opened Wrappers
  import opened Text
  import opened Adjacency
  import opened Compaction
  import opened Operations
  import opened Tgf
  import opened TgfParsing
  import opened TgfRendering
  import opened TgfRoundTrip

  /** The output the first test expects: five vertices, four unlabelled edges. */
  const Doc1: string := "1 ROOT\n2 2\n3 3\n4 4\n5 5\n#\n1 2 \n1 3 \n2 4 \n2 5 \n"

  /** The graph that document describes. */
  function Graph1(): Store<string, string>
  {
    Store(
      map[1 := Vertex(Some("ROOT"), map[2 := [Some("")], 3 := [Some("")]]),
          2 := Vertex(Some("2"), map[4 := [Some("")], 5 := [Some("")]]),
          3 := Vertex(Some("3"), map[]),
          4 := Vertex(Some("4"), map[]),
          5 := Vertex(Some("5"), map[])],
      map[1 := {}, 2 := {1}, 3 := {1}, 4 := {2}, 5 := {2}],
      5)
  }

  lemma Graph1Dense()
    ensures Graph1().data.Keys == Interval(5) && |Graph1().data| == 5 && Dense(Graph1())
  {
    assert Graph1().data.Keys == Interval(5);
    IntervalIsDense(Graph1());
  }

  lemma Graph1Canonical()
    ensures Canonical(Graph1())
  {
    var s := Graph1();
    Graph1Dense();
    Graph1SameKeys();
    Graph1Indexed();
    Graph1Tags();
    assert WellFormed(s);
  }

  lemma Graph1SameKeys()
    ensures Graph1().rev.Keys == Graph1().data.Keys
  {
    assert Graph1().rev.Keys == {1, 2, 3, 4, 5};
    assert Graph1().data.Keys == {1, 2, 3, 4, 5};
  }

  lemma Graph1Indexed()
    ensures IdsLive(Graph1()) && ForwardIndexed(Graph1()) && ReverseIndexed(Graph1()) && NoEmptyLists(Graph1())
  {
    Graph1Forward();
    Graph1Reverse();
    Graph1SameKeys();
    IndexedFromLinks(Graph1());
  }

  /** The store invariants follow from the two directions of the edge links. */
  lemma IndexedFromLinks(s: Store<string, string>)
    requires s.rev.Keys == s.data.Keys
    requires forall f, t | f in s.data && t in s.data[f].out ::
      t in s.data && t in s.rev && f in s.rev[t] && s.data[f].out[t] != []
    requires forall t, f | t in s.rev && f in s.rev[t] :: f in s.data && t in s.data[f].out
    ensures IdsLive(s) && ForwardIndexed(s) && ReverseIndexed(s) && NoEmptyLists(s)
  {
    forall f, t | f in s.data && t in s.data[f].out
      ensures s.data[f].out[t] != []
    {
      assert t in s.data && s.data[f].out[t] != [];
    }
    forall f, t | f in s.data && t in s.data[f].out
      ensures t in s.data.Keys
    {
      assert t in s.data;
    }
    forall t, f | t in s.rev && f in s.rev[t]
      ensures f in s.data.Keys
    {
      assert f in s.data;
    }
  }

  lemma Graph1OutKeys()
    ensures Graph1().data.Keys == {1, 2, 3, 4, 5}
    ensures Graph1().data[1].out.Keys == {2, 3} && Graph1().data[2].out.Keys == {4, 5}
    ensures Graph1().data[3].out.Keys == {} && Graph1().data[4].out.Keys == {} && Graph1().data[5].out.Keys == {}
  {
  }

  lemma Graph1Forward()
    ensures forall f, t | f in Graph1().data && t in Graph1().data[f].out ::
      t in Graph1().data && t in Graph1().rev && f in Graph1().rev[t] && Graph1().data[f].out[t] != []
  {
    var s := Graph1();
    Graph1OutKeys();
    forall f, t | f in s.data && t in s.data[f].out
      ensures t in s.data && t in s.rev && f in s.rev[t] && s.data[f].out[t] != []
    {
      assert f == 1 || f == 2;
    }
  }

  lemma Graph1Reverse()
    ensures forall t, f | t in Graph1().rev && f in Graph1().rev[t] :: f in Graph1().data && t in Graph1().data[f].out
  {
    var s := Graph1();
    Graph1OutKeys();
    assert s.rev.Keys == {1, 2, 3, 4, 5};
    forall t, f | t in s.rev && f in s.rev[t]
      ensures f in s.data && t in s.data[f].out
    {
      assert t in {2, 3, 4, 5};
    }
  }

  lemma Graph1Tags()
    ensures VertexTagsCanonical(Graph1()) && EdgeTagsCanonical(Graph1())
  {
    var s := Graph1();
    assert CleanLabel("ROOT") && CleanLabel("2") && CleanLabel("3") && CleanLabel("4") && CleanLabel("5");
    assert CleanLabel("");
    assert LabelsCanonical([Some("")]);
  }

  lemma RenderGraph1()
    ensures Dense(Graph1()) && Render(Graph1()) == Doc1
  {
    Graph1VertexText();
    Graph1EdgeText();
    Doc1Sections();
  }

  lemma Doc1Sections()
    ensures "1 ROOT\n2 2\n3 3\n4 4\n5 5\n" + "#\n" + "1 2 \n1 3 \n2 4 \n2 5 \n" == Doc1
  {
  }

  lemma Graph1VertexText()
    ensures Dense(Graph1()) && VertexText(Graph1()) == "1 ROOT\n2 2\n3 3\n4 4\n5 5\n"
  {
    Graph1VertexSection();
    VertexLinesJoined();
  }

  lemma Graph1VertexSection()
    ensures Dense(Graph1()) && VertexText(Graph1()) == Unlines(["1 ROOT", "2 2", "3 3", "4 4", "5 5"])
  {
    Graph1Dense();
    Graph1VertexRows();
    Graph1VertexLines();
  }

  lemma VertexLinesJoined()
    ensures Unlines(["1 ROOT", "2 2", "3 3", "4 4", "5 5"]) == "1 ROOT\n2 2\n3 3\n4 4\n5 5\n"
  {
    UnlinesFive("1 ROOT", "2 2", "3 3", "4 4", "5 5");
  }

  lemma Graph1VertexRows()
    ensures Dense(Graph1())
    ensures VertexRows(Graph1(), 5) == [(1, Some("ROOT")), (2, Some("2")), (3, Some("3")), (4, Some("4")), (5, Some("5"))]
  {
    Graph1Dense();
    var g := Graph1();
    var r := VertexRows(g, 5);
    assert g.data[1].tag == Some("ROOT") && g.data[2].tag == Some("2") && g.data[3].tag == Some("3");
    assert g.data[4].tag == Some("4") && g.data[5].tag == Some("5");
    SeqOfFive(r, (1, Some("ROOT")), (2, Some("2")), (3, Some("3")), (4, Some("4")), (5, Some("5")));
  }

  /** A sequence known slot by slot; kept apart so that the solver does not unfold `VertexRows`. */
  lemma SeqOfFive<T>(r: seq<T>, a: T, b: T, c: T, d: T, e: T)
    requires |r| == 5 && r[0] == a && r[1] == b && r[2] == c && r[3] == d && r[4] == e
    ensures r == [a, b, c, d, e]
  {
  }

  lemma SmallNumerals()
    ensures NatToString(1) == "1" && NatToString(2) == "2" && NatToString(3) == "3"
    ensures NatToString(4) == "4" && NatToString(5) == "5"
  {
  }

  lemma Graph1VertexLines()
    ensures VertexLines([(1, Some("ROOT")), (2, Some("2")), (3, Some("3")), (4, Some("4")), (5, Some("5"))])
         == ["1 ROOT", "2 2", "3 3", "4 4", "5 5"]
  {
    SmallNumerals();
    assert VertexLine(1, Some("ROOT")) == "1 ROOT";
    assert VertexLine(2, Some("2")) == "2 2";
    assert VertexLine(3, Some("3")) == "3 3";
    assert VertexLine(4, Some("4")) == "4 4";
    assert VertexLine(5, Some("5")) == "5 5";
  }

  lemma UnlinesFive(a: string, b: string, c: string, d: string, e: string)
    ensures Unlines([a, b, c, d, e]) == a + "\n" + b + "\n" + c + "\n" + d + "\n" + e + "\n"
  {
    assert [a, b, c, d, e][1..] == [b, c, d, e];
    UnlinesFour(b, c, d, e);
  }

  lemma UnlinesFour(a: string, b: string, c: string, d: string)
    ensures Unlines([a, b, c, d]) == a + "\n" + b + "\n" + c + "\n" + d + "\n"
  {
    assert [a, b, c, d][1..] == [b, c, d];
    assert [b, c, d][1..] == [c, d];
    assert [c, d][1..] == [d];
    assert [d][1..] == [];
    assert Unlines([d]) == d + "\n";
    assert Unlines([c, d]) == c + "\n" + d + "\n";
    assert Unlines([b, c, d]) == b + "\n" + c + "\n" + d + "\n";
  }

  lemma Graph1EdgeText()
    ensures Dense(Graph1()) && EdgeText(Graph1()) == "1 2 \n1 3 \n2 4 \n2 5 \n"
  {
    Graph1EdgeSection();
    EdgeLinesJoined();
  }

  lemma Graph1EdgeSection()
    ensures Dense(Graph1()) && EdgeText(Graph1()) == Unlines(["1 2 ", "1 3 ", "2 4 ", "2 5 "])
  {
    Graph1Dense();
    Graph1EdgeRows();
    Graph1EdgeItems();
    Graph1EdgeLines();
  }

  lemma EdgeLinesJoined()
    ensures Unlines(["1 2 ", "1 3 ", "2 4 ", "2 5 "]) == "1 2 \n1 3 \n2 4 \n2 5 \n"
  {
    UnlinesFour("1 2 ", "1 3 ", "2 4 ", "2 5 ");
  }

  lemma Graph1EdgeItems()
    ensures EdgeItems([(1, 2, [Some("")]), (1, 3, [Some("")]), (2, 4, [Some("")]), (2, 5, [Some("")])])
         == [(1, 2, Some("")), (1, 3, Some("")), (2, 4, Some("")), (2, 5, Some(""))]
  {
    var rows: seq<(nat, nat, seq<Option<string>>)> := [(1, 2, [Some("")]), (1, 3, [Some("")]), (2, 4, [Some("")]), (2, 5, [Some("")])];
    assert RowItems(rows[0]) == [(1, 2, Some(""))];
    assert RowItems(rows[1]) == [(1, 3, Some(""))];
    assert RowItems(rows[2]) == [(2, 4, Some(""))];
    assert RowItems(rows[3]) == [(2, 5, Some(""))];
    assert rows[3..][1..] == [];
    assert EdgeItems(rows[3..]) == [(2, 5, Some(""))];
    assert rows[2..][1..] == rows[3..];
    assert EdgeItems(rows[2..]) == [(2, 4, Some("")), (2, 5, Some(""))];
    assert rows[1..][1..] == rows[2..];
    assert EdgeItems(rows[1..]) == [(1, 3, Some("")), (2, 4, Some("")), (2, 5, Some(""))];
  }

  lemma Graph1EdgeLines()
    ensures EdgeLines([(1, 2, Some("")), (1, 3, Some("")), (2, 4, Some("")), (2, 5, Some(""))])
         == ["1 2 ", "1 3 ", "2 4 ", "2 5 "]
  {
    SmallNumerals();
    assert EdgeLine(1, 2, Some("")) == "1 2 ";
    assert EdgeLine(1, 3, Some("")) == "1 3 ";
    assert EdgeLine(2, 4, Some("")) == "2 4 ";
    assert EdgeLine(2, 5, Some("")) == "2 5 ";
  }

  lemma Graph1EdgeRows()
    ensures Dense(Graph1())
    ensures EdgeRows(Graph1(), 1, 5) == [(1, 2, [Some("")]), (1, 3, [Some("")]), (2, 4, [Some("")]), (2, 5, [Some("")])]
  {
    var s := Graph1();
    Graph1Dense();
    Graph1RowsOf1();
    Graph1RowsOf2();
    Graph1RowsOfLeaves();
    assert EdgeRows(s, 3, 5) == [];
  }

  lemma Graph1RowsOf1()
    ensures 1 in Graph1().data
    ensures TargetRows(Graph1(), 1, 1, 5) == [(1, 2, [Some("")]), (1, 3, [Some("")])]
  {
    var s := Graph1();
    assert s.data[1].out == map[2 := [Some("")], 3 := [Some("")]];
    assert TargetRows(s, 1, 4, 5) == [];
    assert TargetRows(s, 1, 3, 5) == [(1, 3, [Some("")])];
  }

  lemma Graph1RowsOf2()
    ensures 2 in Graph1().data
    ensures TargetRows(Graph1(), 2, 1, 5) == [(2, 4, [Some("")]), (2, 5, [Some("")])]
  {
    var s := Graph1();
    assert s.data[2].out == map[4 := [Some("")], 5 := [Some("")]];
    assert TargetRows(s, 2, 5, 5) == [(2, 5, [Some("")])];
    assert TargetRows(s, 2, 3, 5) == [(2, 4, [Some("")]), (2, 5, [Some("")])];
  }

  lemma Graph1RowsOfLeaves()
    ensures 3 in Graph1().data && 4 in Graph1().data && 5 in Graph1().data
    ensures TargetRows(Graph1(), 3, 1, 5) == [] && TargetRows(Graph1(), 4, 1, 5) == []
    ensures TargetRows(Graph1(), 5, 1, 5) == []
  {
    var s := Graph1();
    NoTargets(s, 3);
    NoTargets(s, 4);
    NoTargets(s, 5);
  }

  /** A vertex without targets contributes no edge rows. */
  lemma {:induction false} NoTargets<V, E>(s: Store<V, E>, f: nat)
    requires f in s.data && s.data[f].out == map[]
    ensures forall t, n :: TargetRows(s, f, t, n) == []
  {
    forall t, n
      ensures TargetRows(s, f, t, n) == []
    {
      NoTargetsFrom(s, f, t, n);
    }
  }

  lemma {:induction false} NoTargetsFrom<V, E>(s: Store<V, E>, f: nat, t: nat, n: nat)
    requires f in s.data && s.data[f].out == map[]
    ensures TargetRows(s, f, t, n) == []
    decreases n + 1 - t
  {
    if t <= n {
      NoTargetsFrom(s, f, t + 1, n);
    }
  }

  /** The output the first test expects, read back and written again, gives the
      same text, because the parsed graph is already compacted. */
  lemma Test1RoundTrip()
    ensures ParseTgf(Doc1) == Some(Graph1())
    ensures IdsLive(Graph1()) && FitStore(Graph1()) == Graph1()
    ensures Dense(Graph1()) && Render(FitStore(Graph1())) == Doc1
  {
    Graph1Canonical();
    RenderGraph1();
    ParseRender(Graph1());
    FitOfDenseIsIdentity(Graph1());
  }

  // ------------------------------------------------------------ the empty document

  /** The graph `new` makes. */
  function EmptyGraph(): Store<string, string>
  {
    Store(map[], map[], 0)
  }

  /** The output the seventh and eighth tests expect, read back, is the empty
      graph, and the empty graph is written again as a lone `#` line. */
  lemma EmptyDocument()
    ensures ParseTgf("#\n") == Some(EmptyGraph())
    ensures Dense(EmptyGraph()) && Render(EmptyGraph()) == "#\n"
  {
    var e := EmptyGraph();
    RenderEmpty(e);
    assert Canonical(e);
    ParseRender(e);
  }

  // ------------------------------------------------------------ a sparse document

  /** A document whose ids are not 1..N: vertices 1 and 3. */
  const Sparse: string := "1 a\n3 b\n#\n"

  /** The graph read from it: counter 2, the number of vertices, below the id 3. */
  function SparseGraph(): Store<string, string>
  {
    Store(map[1 := Vertex(Some("a"), map[]), 3 := Vertex(Some("b"), map[])], map[1 := {}, 3 := {}], 2)
  }

  /** Reading a sparse document leaves the counter below the largest id, so the
      next `add_vertex` issues the id 3 again and its `insert` replaces the vertex
      labelled `b`: the graph still has two vertices. */
  lemma SparseCounterLags()
    ensures ParseTgf(Sparse) == Some(SparseGraph())
    ensures WellFormed(SparseGraph()) && !CounterCovers(SparseGraph())
    ensures var r := AddedVertex(SparseGraph(), "c");
      && r.last == 3 && r.data.Keys == {1, 3} && r.data[3].tag == Some("c")
  {
    SparseParsed();
    SparseGraphWellFormed();
    SparseOverwrite();
  }

  lemma SparseGraphWellFormed()
    ensures WellFormed(SparseGraph()) && !CounterCovers(SparseGraph())
  {
    var g := SparseGraph();
    assert g.data.Keys == {1, 3} == g.rev.Keys;
    assert g.data[1].out == map[] && g.data[3].out == map[];
    assert g.rev[1] == {} && g.rev[3] == {};
    assert 3 in g.data && 3 > g.last;
  }

  lemma SparseOverwrite()
    ensures var r := AddedVertex(SparseGraph(), "c");
      && r.last == 3 && r.data.Keys == {1, 3} && r.data[3].tag == Some("c")
  {
    var g := SparseGraph();
    assert g.last + 1 == 3;
    var r := AddedVertex(g, "c");
    assert r.data == g.data[3 := Vertex(Some("c"), map[])];
  }

  lemma SparseParsed()
    ensures ParseTgf(Sparse) == Some(SparseGraph())
  {
    var vs := [VertexEntry(1, Some("a")), VertexEntry(3, Some("b"))];
    SparseSplit();
    SparseSectionsRead(vs);
    SparseStart(vs);
  }

  lemma SparseSplit()
    ensures ParseTgf(Sparse) == ParseSections("1 a\n3 b\n", "\n")
  {
    SparseSections();
  }

  lemma SparseSectionsRead(vs: seq<VertexEntry>)
    requires vs == [VertexEntry(1, Some("a")), VertexEntry(3, Some("b"))]
    ensures ParseSections("1 a\n3 b\n", "\n") == Some(InsertEdges(Start(vs), []))
  {
    SparseVertexRecords(vs);
    SparseEdgeRecords();
  }

  lemma SparseStart(vs: seq<VertexEntry>)
    requires vs == [VertexEntry(1, Some("a")), VertexEntry(3, Some("b"))]
    ensures InsertEdges(Start(vs), []) == SparseGraph()
  {
    assert vs[1..] == [VertexEntry(3, Some("b"))];
    assert vs[1..][1..] == [];
    assert VertexMap(vs[1..]) == map[3 := Vertex(Some("b"), map[])];
    assert VertexMap(vs) == map[1 := Vertex(Some("a"), map[]), 3 := Vertex(Some("b"), map[])];
    assert EntryIds(vs) == {1, 3} by {
      assert vs[0].id == 1 && vs[1].id == 3;
    }
    assert |VertexMap(vs)| == 2 by {
      assert VertexMap(vs).Keys == {1, 3};
    }
  }

  lemma SparseSections()
    ensures Split(Sparse, '#') == ["1 a\n3 b\n", "\n"]
  {
    SparseText();
    OnlySections("1 a\n3 b\n", "\n");
  }

  lemma SparseText()
    ensures Sparse == "1 a\n3 b\n" + "#" + "\n"
    ensures '#' !in "1 a\n3 b\n" && '#' !in "\n"
  {
  }

  /** The edge section is a single empty line, which has no fields. */
  lemma SparseEdgeRecords()
    ensures EdgeEntries(Records(Lines("\n"), 3)) == Some([])
  {
    LinesCons([], []);
    assert [] + "\n" + [] == "\n";
    BlankLineHasNoFields(3);
    RecordsSkipLine([], [], 3);
  }

  lemma SparseVertexRecords(vs: seq<VertexEntry>)
    requires vs == [VertexEntry(1, Some("a")), VertexEntry(3, Some("b"))]
    ensures VertexEntries(Records(Lines("1 a\n3 b\n"), 2)) == Some(vs)
  {
    SparseLines();
    FirstSparseLine();
    SecondSparseLine();
    TwoVertexRecords("1 a", "3 b", Tokens("1 a", 2), Tokens("3 b", 2), vs);
  }

  lemma FirstSparseLine()
    ensures Tokens("1 a", 2) != [] && VertexEntryOf(Tokens("1 a", 2)) == Some(VertexEntry(1, Some("a")))
  {
    assert NatToString(1) == "1";
    assert VertexLine(1, Some("a")) == "1 a";
    assert CanonicalVertexTag(Some("a"));
    VertexLineParsed(1, Some("a"));
  }

  lemma SecondSparseLine()
    ensures Tokens("3 b", 2) != [] && VertexEntryOf(Tokens("3 b", 2)) == Some(VertexEntry(3, Some("b")))
  {
    assert NatToString(3) == "3";
    assert VertexLine(3, Some("b")) == "3 b";
    assert CanonicalVertexTag(Some("b"));
    VertexLineParsed(3, Some("b"));
  }

  lemma TwoVertexRecords(x: string, y: string, rx: seq<string>, ry: seq<string>, vs: seq<VertexEntry>)
    requires |vs| == 2
    requires Tokens(x, 2) == rx && rx != [] && VertexEntryOf(rx) == Some(vs[0])
    requires Tokens(y, 2) == ry && ry != [] && VertexEntryOf(ry) == Some(vs[1])
    ensures VertexEntries(Records([x, y], 2)) == Some(vs)
  {
    TwoRecords(x, y, rx, ry);
    TwoVertexEntries(rx, ry, vs);
  }

  lemma TwoVertexEntries(rx: seq<string>, ry: seq<string>, vs: seq<VertexEntry>)
    requires |vs| == 2
    requires rx != [] && VertexEntryOf(rx) == Some(vs[0])
    requires ry != [] && VertexEntryOf(ry) == Some(vs[1])
    ensures VertexEntries([rx, ry]) == Some(vs)
  {
    var recs := [rx, ry];
    assert recs[0] == rx && recs[1] == ry;
    VertexEntriesOf(recs, vs);
  }

  lemma TwoRecords(x: string, y: string, rx: seq<string>, ry: seq<string>)
    requires Tokens(x, 2) == rx && rx != []
    requires Tokens(y, 2) == ry && ry != []
    ensures Records([x, y], 2) == [rx, ry]
  {
    RecordsOfLines([x, y], 2);
    var r := seq(2, i requires 0 <= i < 2 => Tokens([x, y][i], 2));
    assert r[0] == rx && r[1] == ry;
  }

  lemma SparseLines()
    ensures Lines("1 a\n3 b\n") == ["1 a", "3 b"]
  {
    assert "1 a\n3 b\n" == "1 a" + "\n" + ("3 b" + "\n" + []);
    TwoLines("1 a", "3 b");
  }

  /** Two terminated plain lines read back as those two lines. */
  lemma TwoLines(x: string, y: string)
    requires PlainLine(x) && PlainLine(y)
    ensures Lines(x + "\n" + (y + "\n" + [])) == [x, y]
  {
    LinesCons(x, y + "\n" + []);
    LinesCons(y, []);
  }

  // ------------------------------------------------------------ ids that do not parse

  /** A vertex id with a letter or a sign in it is refused (the `unwrap` panics):
      the documents `x\n#…`, `-1\n#…` and `1a\n#…` do not parse. */
  lemma NonNumericIdsFail(x: string, signed: string, mixed: string, rest: string)
    requires x == "x" && signed == "-1" && mixed == "1a"
    ensures ParseTgf(x + "\n#" + rest) == None
    ensures ParseTgf(signed + "\n#" + rest) == None
    ensures ParseTgf(mixed + "\n#" + rest) == None
  {
    LetterIdFails(x, rest);
    SignedIdFails(signed, rest);
    MixedIdFails(mixed, rest);
  }

  lemma LetterIdFails(id: string, rest: string)
    requires |id| == 1 && id[0] == 'x'
    ensures ParseTgf(id + "\n#" + rest) == None
  {
    PlainId(id);
    NonDigitIdFails(id, 0, rest);
  }

  lemma SignedIdFails(id: string, rest: string)
    requires |id| == 2 && id[0] == '-' && id[1] == '1'
    ensures ParseTgf(id + "\n#" + rest) == None
  {
    PlainId(id);
    NonDigitIdFails(id, 0, rest);
  }

  lemma MixedIdFails(id: string, rest: string)
    requires |id| == 2 && id[0] == '1' && id[1] == 'a'
    ensures ParseTgf(id + "\n#" + rest) == None
  {
    PlainId(id);
    NonDigitIdFails(id, 1, rest);
  }

  lemma PlainId(id: string)
    requires id != [] && forall k :: 0 <= k < |id| ==> id[k] in {'-', '1', 'a', 'x'}
    ensures Trimmed(id) && PlainLine(id) && ' ' !in id && '#' !in id
  {
    assert !IsWhitespace(id[0]) && !IsWhitespace(id[|id| - 1]);
  }
}
