/** The Trivial Graph Format codec of a `Graph<String, String>`: a vertex section,
    a `#`, and an edge section, one record per line. */
module Tgf {
  import opened Wrappers
  import opened Seqs
  import opened Text
  import opened Adjacency
  import opened Compaction
  import opened Graphs

  /** A parsed vertex record: its id and, when the line has one, its label. */
  datatype VertexEntry = VertexEntry(id: nat, tag: Option<string>)

  /** A parsed edge record: its endpoints and its label (empty when the line has none). */
  datatype EdgeEntry = EdgeEntry(from: nat, to: nat, tag: string)

  // ------------------------------------------------------------------ parsing

  /** `filter(|p| p != "")` over the pieces of a line. */
  function NonEmptyPieces(ps: seq<string>): (r: seq<string>)
    ensures |r| <= |ps|
    ensures forall i :: 0 <= i < |r| ==> r[i] != []
  {
    if ps == [] then []
    else (if ps[0] == [] then [] else [ps[0]]) + NonEmptyPieces(ps[1..])
  }

  /** `map(|p| p.trim())` over the pieces of a line. */
  function TrimEach(ps: seq<string>): seq<string>
  {
    seq(|ps|, i requires 0 <= i < |ps| => Trim(ps[i]))
  }

  /** The fields of one line: `splitn(n, " ")`, drop the empty pieces, trim the rest. */
  function Tokens(line: string, n: nat): (r: seq<string>)
    requires n >= 1
    ensures |r| <= n
  {
    TrimEach(NonEmptyPieces(SplitN(line, n, ' ')))
  }

  /** The records of a section: the fields of each line, keeping the lines that
      have at least one field (`retain(|v| !v.is_empty())`). */
  function Records(lines: seq<string>, n: nat): (r: seq<seq<string>>)
    requires n >= 1
    ensures forall i :: 0 <= i < |r| ==> 1 <= |r[i]| <= n
  {
    if lines == [] then []
    else
      var t := Tokens(lines[0], n);
      (if t == [] then [] else [t]) + Records(lines[1..], n)
  }

  /** A vertex record: the id must parse; the second field, if any, is the label. */
  function VertexEntryOf(rec: seq<string>): Option<VertexEntry>
    requires rec != []
  {
    match ParseNat(rec[0])
    case None => None
    case Some(k) => Some(VertexEntry(k, if |rec| >= 2 then Some(rec[1]) else None))
  }

  /** An edge record: it needs two fields that parse as ids; the third, if any, is
      the label, otherwise the label is empty. */
  function EdgeEntryOf(rec: seq<string>): Option<EdgeEntry>
  {
    if |rec| < 2 then None
    else
      match (ParseNat(rec[0]), ParseNat(rec[1]))
      case (Some(a), Some(b)) => Some(EdgeEntry(a, b, if |rec| >= 3 then rec[2] else []))
      case _ => None
  }

  /** All vertex records, or `None` if any of them fails (the `unwrap` panics). */
  function VertexEntries(recs: seq<seq<string>>): (r: Option<seq<VertexEntry>>)
    requires forall i :: 0 <= i < |recs| ==> recs[i] != []
    ensures r.Some? ==> |r.value| == |recs|
  {
    if recs == [] then Some([])
    else
      match (VertexEntryOf(recs[0]), VertexEntries(recs[1..]))
      case (Some(v), Some(vs)) => Some([v] + vs)
      case _ => None
  }

  /** All edge records, or `None` if any of them fails. */
  function EdgeEntries(recs: seq<seq<string>>): (r: Option<seq<EdgeEntry>>)
    ensures r.Some? ==> |r.value| == |recs|
  {
    if recs == [] then Some([])
    else
      match (EdgeEntryOf(recs[0]), EdgeEntries(recs[1..]))
      case (Some(e), Some(es)) => Some([e] + es)
      case _ => None
  }

  /** The ids of the vertex records. */
  function EntryIds(vs: seq<VertexEntry>): set<nat>
  {
    set i | 0 <= i < |vs| :: vs[i].id
  }

  /** The vertex map collected from the records: each id once, with no edges and
      the label of its last record (a later `insert` replaces an earlier one). */
  function VertexMap(vs: seq<VertexEntry>): (r: map<nat, Vertex<string, string>>)
    ensures r.Keys == EntryIds(vs)
  {
    if vs == [] then map[]
    else
      var m := VertexMap(vs[1..]);
      assert EntryIds(vs) == {vs[0].id} + EntryIds(vs[1..]) by {
        assert forall i | 1 <= i < |vs| :: vs[i].id == vs[1..][i - 1].id;
      }
      if vs[0].id in m then m else m[vs[0].id := Vertex(vs[0].tag, map[])]
  }

  /** The reverse index collected from the records: an empty set per id. */
  function EmptyRev(vs: seq<VertexEntry>): map<nat, set<nat>>
  {
    map k | k in EntryIds(vs) :: {}
  }

  /** The store before any edge is read; the counter is the number of vertices. */
  function Start(vs: seq<VertexEntry>): Store<string, string>
  {
    Store(VertexMap(vs), EmptyRev(vs), |VertexMap(vs)|)
  }

  /** One step of the edge loop: append the label to the `(from, to)` list when
      `from` is a vertex, and add `from` to the reverse set of `to` when `to` has
      one. The two updates are independent, so an undeclared endpoint leaves the
      other side's update dangling. */
  function InsertEdge(s: Store<string, string>, e: EdgeEntry): Store<string, string>
  {
    var data :=
      if e.from in s.data then
        var v := s.data[e.from];
        var ls := if e.to in v.out then v.out[e.to] else [];
        s.data[e.from := Vertex(v.tag, v.out[e.to := ls + [Some(e.tag)]])]
      else s.data;
    var rev := if e.to in s.rev then s.rev[e.to := s.rev[e.to] + {e.from}] else s.rev;
    Store(data, rev, s.last)
  }

  /** The edge loop over a prefix of the edge records. */
  function InsertEdges(s: Store<string, string>, es: seq<EdgeEntry>): Store<string, string>
  {
    if es == [] then s else InsertEdge(InsertEdges(s, es[..|es| - 1]), es[|es| - 1])
  }

  /** Reading edges never adds or removes a vertex, and keeps the counter. */
  lemma {:induction false} InsertEdgesKeepsVertices(s: Store<string, string>, es: seq<EdgeEntry>)
    ensures InsertEdges(s, es).data.Keys == s.data.Keys
    ensures InsertEdges(s, es).last == s.last
  {
    if es != [] {
      InsertEdgesKeepsVertices(s, es[..|es| - 1]);
    }
  }

  /** The store read from a vertex section and an edge section. */
  function ParseSections(vertices: string, edges: string): Option<Store<string, string>>
  {
    match (VertexEntries(Records(Lines(vertices), 2)), EdgeEntries(Records(Lines(edges), 3)))
    case (Some(vs), Some(es)) => Some(InsertEdges(Start(vs), es))
    case _ => None
  }

  /** `deserialize_from_tgf` on the value level: `None` where the source panics (no
      `#`, an id that does not parse, an edge record with fewer than two fields). */
  function ParseTgf(contents: string): Option<Store<string, string>>
  {
    var sections := Split(contents, '#');
    if |sections| < 2 then None else ParseSections(sections[0], sections[1])
  }

  /** `deserialize_from_tgf`: the pipelines build the records and the vertex and
      reverse maps, then a loop reads the edges one by one into them. */
  method Deserialize(contents: string) returns (r: Option<Graph<string, string>>)
    ensures r.None? <==> ParseTgf(contents).None?
    ensures r.Some? ==> fresh(r.value) && r.value.Value() == ParseTgf(contents).value
  {
    var sections := Split(contents, '#');
    if |sections| < 2 {
      return None;
    }
    var vo := VertexEntries(Records(Lines(sections[0]), 2));
    var eo := EdgeEntries(Records(Lines(sections[1]), 3));
    if vo.None? || eo.None? {
      return None;
    }
    var data, rev := ReadEdges(VertexMap(vo.value), EmptyRev(vo.value), |VertexMap(vo.value)|, eo.value);
    InsertEdgesKeepsVertices(Start(vo.value), eo.value);
    var g := new Graph.Of(data, rev, |data|);
    return Some(g);
  }

  /** The `for_each` over the edge records, updating the two maps in place. */
  method ReadEdges(data0: map<nat, Vertex<string, string>>, rev0: map<nat, set<nat>>, n: nat, es: seq<EdgeEntry>)
    returns (data: map<nat, Vertex<string, string>>, rev: map<nat, set<nat>>)
    ensures Store(data, rev, n) == InsertEdges(Store(data0, rev0, n), es)
  {
    data, rev := data0, rev0;
    var i := 0;
    while i < |es|
      invariant i <= |es|
      invariant Store(data, rev, n) == InsertEdges(Store(data0, rev0, n), es[..i])
    {
      assert es[..i + 1][..i] == es[..i];
      var e := es[i];
      if e.from in data {
        var v := data[e.from];
        var ls := if e.to in v.out then v.out[e.to] else [];
        data := data[e.from := Vertex(v.tag, v.out[e.to := ls + [Some(e.tag)]])];
      }
      if e.to in rev {
        rev := rev[e.to := rev[e.to] + {e.from}];
      }
      i := i + 1;
    }
    assert es[..i] == es;
  }

  // ------------------------------------------------------------ serializing

  /** A label as the serializer writes it: the text, or nothing. */
  function LabelText(tag: Option<string>): string
  {
    match tag
    case Some(l) => l
    case None => []
  }

  /** `[id, label].join(" ")`, without the line break. */
  function VertexLine(id: nat, tag: Option<string>): string
  {
    NatToString(id) + " " + LabelText(tag)
  }

  /** `[from, to, label].join(" ")`, without the line break. */
  function EdgeLine(f: nat, t: nat, tag: Option<string>): string
  {
    NatToString(f) + " " + NatToString(t) + " " + LabelText(tag)
  }

  /** The vertex pairs of ids `1..n`, in ascending order. */
  function VertexRows<V, E>(s: Store<V, E>, n: nat): (r: seq<(nat, Option<V>)>)
    requires forall k :: 1 <= k <= n ==> k in s.data
    ensures |r| == n
  {
    seq(n, i requires 0 <= i < n => (i + 1, s.data[i + 1].tag))
  }

  /** The edge triples of source `f` whose targets lie in `t..n`, by ascending target. */
  function TargetRows<V, E>(s: Store<V, E>, f: nat, t: nat, n: nat): seq<(nat, nat, seq<Option<E>>)>
    requires f in s.data
    decreases n + 1 - t
  {
    if t > n then []
    else (if t in s.data[f].out then [(f, t, s.data[f].out[t])] else []) + TargetRows(s, f, t + 1, n)
  }

  /** The edge triples of sources `f..n` and targets `1..n`, by ascending (source, target). */
  function EdgeRows<V, E>(s: Store<V, E>, f: nat, n: nat): seq<(nat, nat, seq<Option<E>>)>
    requires forall k :: f <= k <= n ==> k in s.data
    decreases n + 1 - f
  {
    if f > n then [] else TargetRows(s, f, 1, n) + EdgeRows(s, f + 1, n)
  }

  /** The items of one row: one (source, target, label) per parallel edge, in list order. */
  function RowItems<E>(row: (nat, nat, seq<Option<E>>)): (r: seq<(nat, nat, Option<E>)>)
    ensures |r| == |row.2|
  {
    seq(|row.2|, j requires 0 <= j < |row.2| => (row.0, row.1, row.2[j]))
  }

  /** The items of all rows, row after row. */
  function EdgeItems<E>(rows: seq<(nat, nat, seq<Option<E>>)>): seq<(nat, nat, Option<E>)>
  {
    if rows == [] then [] else RowItems(rows[0]) + EdgeItems(rows[1..])
  }

  /** The vertex lines. */
  function VertexLines(rows: seq<(nat, Option<string>)>): (r: seq<string>)
    ensures |r| == |rows|
  {
    seq(|rows|, i requires 0 <= i < |rows| => VertexLine(rows[i].0, rows[i].1))
  }

  /** The edge lines. */
  function EdgeLines(items: seq<(nat, nat, Option<string>)>): (r: seq<string>)
    ensures |r| == |items|
  {
    seq(|items|, i requires 0 <= i < |items| => EdgeLine(items[i].0, items[i].1, items[i].2))
  }

  /** The vertex section: one line per id `1..N`, ascending. */
  function VertexText(s: Store<string, string>): string
    requires Dense(s)
  {
    Unlines(VertexLines(VertexRows(s, |s.data|)))
  }

  /** The edge section: one line per label, pairs by ascending (source, target). */
  function EdgeText(s: Store<string, string>): string
    requires Dense(s)
  {
    Unlines(EdgeLines(EdgeItems(EdgeRows(s, 1, |s.data|))))
  }

  /** The text of a compacted store: the vertex section, `#`, the edge section. */
  function Render(s: Store<string, string>): string
    requires Dense(s)
  {
    VertexText(s) + "#\n" + EdgeText(s)
  }

  /** `serialize_to_tgf`: compact the graph, then write it out. */
  method Serialize(g: Graph<string, string>) returns (text: string)
    requires IdsLive(g.Value())
    modifies g
    ensures g.Value() == FitStore(old(g.Value()))
    ensures Dense(g.Value())
    ensures text == Render(g.Value())
  {
    g.Fit();
    text := Render(g.Value());
  }
}
