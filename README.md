# GraphRust multigraph and its TGF codec, in Dafny

This project models the `Graph<V, E>` type of `src/lib.rs`. It is a directed
multigraph whose vertices carry an optional label and whose ordered vertex pairs
carry a list of optional edge labels. It also models the Trivial Graph Format (TGF)
reader and writer for `Graph<String, String>`.

The graph is kept in three fields:

- `data`: vertex id ↦ (label, target id ↦ list of edge labels);
- `reversed_edges`: vertex id ↦ the set of sources that have edges into it;
- `last_vertex_id`: the id allocator.

The model has these modules:

- `Adjacency` — the `Store` value, with those three fields as `data`, `rev` and
  `last`. It also holds the invariants the mutation methods rely on:
  - every id mentioned is a vertex (`IdsLive`);
  - forward and reverse indices agree (`ForwardIndexed`, `ReverseIndexed`);
  - no empty label list is kept (`NoEmptyLists`);
  - the counter is at least every id (`CounterCovers`).

  Separately, `Dense` says the ids are exactly `1..N`. No mutation method relies
  on it and `remove_vertex` does not keep it; it is what `fit` establishes and
  what the writer's enumeration of `1..N` assumes.

  It also models the two accessors `get_vertices_vec` and `get_edges_vec`, as the
  sets of tuples they enumerate.
- `Operations` — the specification functions `AddedVertex`, `RemovedVertex`,
  `AddedEdge` and `RemovedEdge`, and what each one does to the graph.
- `Compaction` — the renumbering of `fit`: the rank map of the live ids
  (`RankMap`), the renaming of every id (`Renamed`) and `FitStore`.
- `Graphs` — class `Graph`, whose methods update `data`, `rev` and `last` in place.
  Each method is proved against the matching specification function.
- `Text` — the Rust `str` operations the codec uses: `split`, `splitn`, `lines`,
  `trim` (Unicode white space), `parse::<usize>` and `to_string`.
- `Tgf` — `ParseTgf` and `Render`, together with the methods `Deserialize` and
  `Serialize`.
- `TgfParsing`, `TgfRendering` and `TgfRoundTrip` — what the parser accepts and
  builds, the order the writer emits, and the round trip between the two.
- `Scenarios` — concrete documents from the unit tests of `src/lib.rs`.

The following calls of `src/lib.rs` panic. The model treats each as follows:

- `unwrap()` on an id that does not parse, and indexing a missing `#` section:
  `ParseTgf` returns `None`.
- `edge_info[1]` on an edge record with a single field (`src/lib.rs:248-249`):
  `ParseTgf` returns `None` (`EdgeWithOneField`).
- `new_ids[..]` on an endpoint that is not a vertex: `Fit` and `Serialize`
  require `IdsLive`.

Behaviours of the code worth knowing, which the model follows:

- Separators: a second `#` is not an error. The text after it is ignored
  (`SecondSeparatorIgnored`).
- Splitting: fields are split on single spaces, not on runs of white space.
  Empty pieces are dropped and each piece is trimmed. As a result, a vertex line
  of two spaces is a record whose only field is empty, which the parser rejects
  (`TwoSpacesAreNoVertexLine`). In the edge section the same line splits into
  three empty pieces, so it is blank and dropped; it takes three spaces to make a
  one-field edge record, which is refused (`EdgeLineAfterTwoSpaces`,
  `EdgeWithOneField`).
- The counter after parsing: it is the number of vertices, not the largest id
  (`ParsedIsWellFormed`). In a document with gaps in its ids, the next
  `add_vertex` reuses an id that is still live and overwrites that vertex
  (`SparseCounterLags`).
- Duplicate vertex ids: when a document declares the same id twice, the later
  record's label wins (`VertexMapLastWins`).
- Empty vertex labels: a vertex line padded with two spaces, such as `"1  "`, has
  the fields `["1", ""]` and so the label `Some("")`. The writer emits that vertex
  as `"1 "`, which reads back with no label (`EmptyVertexLabelLost`). Parsing,
  writing and parsing again therefore does not return the same graph for such a
  document. This is why the round trip `ParseRender` is stated for stores whose
  vertex labels are none or non-empty (`CanonicalVertexTag`).

## Model

| member | source | states |
|---|---|---|
| Seqs.IndexOf | src/lib.rs:140 | `position(..).unwrap_or(len)`: the index of the first matching label, or the length exactly when there is none |
| Seqs.SwapRemove | src/lib.rs:144 | `swap_remove`: one element shorter, the last element moved into the vacated slot, every other slot unchanged |
| Seqs.SwapRemoveMultiset | src/lib.rs:144 | `swap_remove` takes out exactly one occurrence of the removed element and keeps all others |
| Text.TrimIsTrimmed | src/lib.rs:222 | `trim` leaves no leading or trailing white space and leaves an already trimmed text alone |
| Text.JoinSplit | src/lib.rs:215 | the pieces of `split('#')` joined with `#` give back the document |
| Text.JoinSplitN | src/lib.rs:221 | the at most `n` pieces of `splitn(n, ' ')` joined with spaces give back the line |
| Text.Lines | src/lib.rs:216 | `lines()` yields pieces without line breaks, and yields none exactly for the empty text |
| Text.LinesUnlines | src/lib.rs:303 | lines each ended by `\n` are read back by `lines()` as the same lines |
| Text.ParseNat | src/lib.rs:239 | `parse::<usize>` refuses the empty text, a lone `+` and any text with a character other than a digit (save one leading `+`), and reads a numeral in the form `to_string` writes as the number whose decimal text it is |
| Text.ParseNatToString | src/lib.rs:298 | parsing the decimal text of a number written by `to_string` gives the number back |
| Adjacency.VerticesVec | src/lib.rs:193-197 | `get_vertices_vec` enumerates exactly the (id, label) pairs of the vertices |
| Adjacency.EdgesVec | src/lib.rs:199-210 | `get_edges_vec` enumerates exactly the (source, target, label list) triples of the forward index |
| Operations.AddVertexEffect | src/lib.rs:83-88 | `add_vertex` bumps the counter and puts (counter + 1, label) in place of any vertex under that id, with no outgoing edges; every other vertex and edge stays |
| Operations.AddVertexPreservesWellFormed | src/lib.rs:83-88 | when the counter covers every id, the new id is unused and the invariants and the cover survive |
| Operations.RemoveVertexEffect | src/lib.rs:90-112 | `remove_vertex` drops the vertex and every edge into or out of it, keeps everything else and the counter, and keeps the invariant |
| Operations.RemoveVertexForgetsId | src/lib.rs:90-112 | after `remove_vertex` the id is neither a key nor a target nor a member of any reverse set |
| Operations.RemoveVertexKeepsValid | src/lib.rs:90-112 | `remove_vertex` keeps the invariants and the counter's cover |
| Operations.AddThenRemoveVertex | src/lib.rs:83-112 | removing a freshly added vertex restores the graph, except that the counter stays advanced |
| Operations.AddEdgeEffect | src/lib.rs:114-131 | `add_edge` appends the label to the (from, to) list when both vertices exist, touches no other pair, vertex or counter, and changes nothing otherwise |
| Operations.AddEdgePreservesWellFormed | src/lib.rs:114-131 | `add_edge` keeps forward index, reverse index and non-empty lists consistent |
| Operations.AddEdgeTimesCopies | src/lib.rs:119-124 | adding the same edge `k` times keeps `k` duplicates, with no deduplication |
| Operations.RemoveEdgeEffect | src/lib.rs:133-158 | `remove_edge` swap-removes the first matching label, taking exactly one occurrence; every other list, vertex and the counter stay; with no match or a missing endpoint nothing changes |
| Operations.RemoveEdgeTakesOne | src/lib.rs:140-148 | the removed list is the swap-removal at the first match and holds one occurrence fewer of the label |
| Operations.RemoveEdgePreservesWellFormed | src/lib.rs:133-158 | `remove_edge` keeps the invariants, deleting an emptied list together with its reverse-index entry |
| Operations.AddThenRemoveEdge | src/lib.rs:114-158 | on a well-formed graph, `remove_edge` undoes `add_edge` with the same label |
| Compaction.SortedKeys | src/lib.rs:161-165 | the collected and sorted ids: as many as the vertices, all of them vertex ids, strictly ascending |
| Compaction.SortedKeysCover | src/lib.rs:161-165 | every vertex id appears in the sorted list |
| Compaction.RankMapIsOrderBijection | src/lib.rs:160-172 | the new-id map is defined on every id, maps onto `1..N`, and preserves order in both directions |
| Compaction.FitIsDense | src/lib.rs:174-191 | after `fit` the ids are exactly `1..N`, no vertex is lost, and the counter is `N` |
| Compaction.FitRenames | src/lib.rs:183-188 | each vertex keeps its label and moves to its rank, and its targets are renamed with their lists unchanged |
| Compaction.FitRenamesReverse | src/lib.rs:176-181 | each reverse set moves to its renamed target and holds the renamed sources |
| Compaction.FitKeepsValid | src/lib.rs:174-191 | `fit` keeps a well-formed graph well formed and makes the counter cover the ids |
| Compaction.FitOfDenseIsIdentity | src/lib.rs:174-191 | on a graph already numbered `1..N`, `fit` changes only the counter, setting it to `N` |
| Compaction.FitIsIdempotent | src/lib.rs:174-191 | compacting twice is the same as compacting once |
| Graphs.Graph.constructor | src/lib.rs:75-81 | `new` is the empty graph with counter 0, and it is valid |
| Graphs.Graph.AddVertex | src/lib.rs:83-88 | returns the new counter, which is the old one plus 1; the new state is `AddedVertex`, and validity is kept |
| Graphs.Graph.RemoveVertex | src/lib.rs:90-112 | the new state is `RemovedVertex` of the old one, and validity is kept |
| Graphs.Graph.UnlinkTargets | src/lib.rs:93-95 | the first loop takes the id out of the reverse set of each of its targets |
| Graphs.Graph.UnlinkSources | src/lib.rs:103-110 | the second loop deletes the id's list from each of its sources |
| Graphs.Graph.AddEdge | src/lib.rs:114-131 | the new state is `AddedEdge` of the old one, and validity is kept |
| Graphs.Graph.RemoveEdge | src/lib.rs:133-158 | the new state is `RemovedEdge` of the old one, and validity is kept |
| Graphs.Graph.AscendingIds | src/lib.rs:161-165 | collecting and sorting the ids yields `SortedKeys` of the vertex ids |
| Graphs.Graph.NewIdsAfterFit | src/lib.rs:160-172 | numbering the sorted ids from 1 yields the rank map |
| Graphs.Graph.Fit | src/lib.rs:174-191 | the new state is `FitStore` of the old one, dense and with a covering counter, and validity is kept |
| Graphs.Graph.Of | src/lib.rs:268-272 | builds the graph from the three parsed fields |
| Tgf.Tokens | src/lib.rs:221-223 | a line gives at most `n` fields |
| Tgf.Records | src/lib.rs:225 | after dropping blank lines, every record has between 1 and `n` fields |
| Tgf.VertexMap | src/lib.rs:233-240 | the vertex map has exactly the ids of the vertex records as keys |
| Tgf.InsertEdgesKeepsVertices | src/lib.rs:247-264 | inserting the edge records adds no vertex and leaves the counter alone |
| Tgf.ReadEdges | src/lib.rs:247-264 | the `for_each` loop over edge records builds the same state as `InsertEdges` |
| Tgf.Deserialize | src/lib.rs:214-273 | yields a fresh graph holding `ParseTgf(contents)`, or none exactly when parsing panics |
| Tgf.Serialize | src/lib.rs:287-322 | compacts the graph in place (`FitStore`, dense) and returns `Render` of the result |
| TgfParsing.NoSeparatorFails | src/lib.rs:215-226 | a document without `#` has no edge section, so parsing fails |
| TgfParsing.BadVertexIdFails | src/lib.rs:233-239 | a document whose first vertex line is one field that `parse::<usize>` refuses fails to parse, whatever follows the `#` |
| TgfParsing.NonDigitIdFails | src/lib.rs:233-239 | the same for a vertex id holding a character that is neither a digit nor a leading `+` |
| TgfParsing.SecondSeparatorIgnored | src/lib.rs:215-226 | anything after a second `#` does not affect the result |
| TgfParsing.BlankLineHasNoFields | src/lib.rs:225 | an empty line, or a line of one space, gives no fields and is dropped |
| TgfParsing.TwoSpacesAreNoVertexLine | src/lib.rs:221-239 | a vertex line of two spaces gives a record whose only field is empty, and parsing it fails |
| TgfParsing.EdgeLineAfterTwoSpaces | src/lib.rs:225-249 | an edge line that starts with two spaces has at most one field: alone it is blank and dropped, and with anything after it it is a one-field record, which fails to parse |
| TgfParsing.VertexWithoutLabel | src/lib.rs:235-238 | a vertex line without a space is a single field and gets no label |
| TgfParsing.VertexLabelIsRest | src/lib.rs:221-224 | a vertex line splits at its first space into the trimmed id and the trimmed rest as label |
| TgfParsing.EdgeWithoutLabel | src/lib.rs:250-253 | an edge line with two fields gets the empty label, not a missing one |
| TgfParsing.EdgeLabelIsRest | src/lib.rs:227-230 | an edge line splits at its first two spaces, and the trimmed rest is the label |
| TgfParsing.EdgeWithOneField | src/lib.rs:248-249 | an edge record with a single field fails to parse |
| TgfParsing.VertexEntriesFail | src/lib.rs:239 | the vertex records fail exactly when some record's id does not parse |
| TgfParsing.EdgeEntriesFail | src/lib.rs:248-249 | the edge records fail exactly when some record lacks a parsable source or target |
| TgfParsing.VertexMapLastWins | src/lib.rs:233-240 | for a duplicated id, the vertex gets the label of its last record, with no edges yet |
| TgfParsing.InsertEdgesData | src/lib.rs:254-262 | each source's adjacency holds, per target, the labels of its edge records in document order; records from undeclared sources are dropped |
| TgfParsing.InsertEdgesRev | src/lib.rs:263 | each declared target's reverse set gains the sources of its edge records |
| TgfParsing.ParsedShape | src/lib.rs:233-266 | the parsed graph has the declared ids as keys of both maps and the number of vertices as counter; its lists and reverse sets are those of the edge records |
| TgfParsing.ParsedIsWellFormed | src/lib.rs:233-272 | a parsed graph has counter `|data|`; it is well formed when its ids are live, and the counter covers the ids when they are `1..N` |
| TgfParsing.DeclaredEndpointsAreLive | src/lib.rs:233-270 | when every edge record names a declared source and a declared target, the ids of the parsed graph are live |
| TgfRendering.VertexRowsSorted | src/lib.rs:289-290 | the vertex rows the writer emits are the pairs of `get_vertices_vec`, in strictly ascending id order |
| TgfRendering.EdgeRowsSorted | src/lib.rs:292-293 | the edge rows the writer emits are the triples of `get_edges_vec`, in ascending (source, target) order |
| TgfRendering.EdgeItemsCount | src/lib.rs:307-320 | one output line per label: the number of edge lines is the total number of labels |
| TgfRendering.RenderEmpty | src/lib.rs:53-62 | a graph without vertices is written as `#\n` |
| TgfRoundTrip.VertexLineParsed | src/lib.rs:295-304 | a written vertex line is read back as the same id and label |
| TgfRoundTrip.EmptyVertexLabelLost | src/lib.rs:221-239 | a vertex line padded with two spaces reads as the label `Some("")`, the writer emits that vertex as `k `, and that line reads back with no label |
| TgfRoundTrip.EdgeLineParsed | src/lib.rs:307-318 | a written edge line is read back as the same source, target and label |
| TgfRoundTrip.RenderedSelect | src/lib.rs:307-320 | the edge lines written for a pair, read back, give that pair's label list in order |
| TgfRoundTrip.RenderedEdgesRebuild | src/lib.rs:247-264 | reading the written edge lines rebuilds both the forward and the reverse index exactly |
| TgfRoundTrip.ParseRender | src/lib.rs:214-322 | parsing what the writer emits for a compacted graph with clean labels gives the same graph back |
| TgfRoundTrip.DocumentRoundTrip | src/lib.rs:287-322 | the read-back graph is valid for `fit`, already compact, and compacting and writing it out gives the same document |
| Scenarios.Test1RoundTrip | src/lib.rs:10-15 | the output the first test expects, read back, is the five-vertex tree, which `fit` leaves alone and which is written back as the same document |
| Scenarios.EmptyDocument | src/lib.rs:53-62 | `#\n`, the output the seventh and eighth tests expect, read back is the empty graph, which is written again as `#\n` |
| Scenarios.SparseCounterLags | src/lib.rs:266 | a document with ids 1 and 3 parses with counter 2; the next `add_vertex` takes id 3 and overwrites that vertex |
| Scenarios.NonNumericIdsFail | src/lib.rs:233-239 | documents whose vertex id is `x`, `-1` or `1a` fail to parse |

## Left out

- `read_from_file` and `write_to_file` (`src/lib.rs:275-285`, `324-337`): file I/O. The model starts from, and ends with, the document text.
- `display`, `dfs` and `display_vertex_info`: diagnostic printing of the graph to the console.
- `src/main.rs`: demonstration code that prints and reads files.
- The `println!` diagnostics on missing vertices, pairs or labels: the model keeps only their effect, which is that the state does not change.
- `HashMap` iteration order: the maps and sets of the model have no order. The accessors are modelled as sets. The writer enumerates ids `1..N` after `fit`, and `VertexRowsSorted` and `EdgeRowsSorted` show that this is the order `sort()` produces.
- `usize` bounds: ids and the counter are unbounded naturals. An overflowing `last_vertex_id + 1`, and a numeral too large for `parse::<usize>`, are not modelled.
- Graphs.Graph.AddVertex: the `old(Valid()) ==> Valid()` clause is stated only for graphs whose counter covers every id, because `Valid` includes that cover. Without the cover, `add_vertex` can overwrite a live vertex (see `SparseCounterLags`).
- Graphs.Graph.Fit: requires that every edge endpoint is a vertex (`IdsLive`). Otherwise `new_ids[..]` panics, and that panic is not modelled.
- Tgf.Serialize: requires `IdsLive` for the same reason as `fit`.
- Label types: the mutation operations and `fit` are generic in `V` and `E`, while the codec is modelled for `String` labels only, as in the source. `clone()` is the identity on values.
- Text: text is a sequence of characters. `lines()` splits at `\n` and strips a `\r` only when it comes just before a `\n`; a final line without `\n` keeps its `\r`. `trim()` uses the Unicode `White_Space` set.
