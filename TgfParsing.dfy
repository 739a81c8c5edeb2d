/** What `deserialize_from_tgf` does with lines, fields and records, and what
    the edge loop leaves in the two maps. */
module TgfParsing {
  import opened Wrappers
  import opened Seqs
  import opened Text
  import opened Adjacency
  import opened Tgf

  // ------------------------------------------------------------ text facts

  /** A text without the separator is one piece. */
  lemma SplitWithout(s: string, c: char)
    requires c !in s
    ensures Split(s, c) == [s]
  {
  }

  lemma SplitNWithout(s: string, n: nat, c: char)
    requires n >= 1 && c !in s
    ensures SplitN(s, n, c) == [s]
  {
  }

  /** `splitn` takes off the separator-free prefix as its first piece. */
  lemma SplitNCons(a: string, c: char, b: string, n: nat)
    requires n >= 2 && c !in a
    ensures SplitN(a + [c] + b, n, c) == [a] + SplitN(b, n - 1, c)
  {
    var s := a + [c] + b;
    IndexOfPastPrefix(a, c, b);
    assert s[..|a|] == a && s[|a| + 1..] == b;
  }

  /** Lines free of a character other than `\n` stay free of it once joined. */
  lemma {:induction false} UnlinesWithout(ls: seq<string>, c: char)
    requires c != '\n'
    requires forall k :: 0 <= k < |ls| ==> c !in ls[k]
    ensures c !in Unlines(ls)
  {
    if ls != [] {
      UnlinesWithout(ls[1..], c);
    }
  }

  /** A decimal numeral has no space, `#` or line break, and trimming keeps it. */
  lemma NumeralIsPlain(k: nat)
    ensures ' ' !in NatToString(k) && '#' !in NatToString(k) && '\n' !in NatToString(k)
    ensures Trim(NatToString(k)) == NatToString(k)
  {
    var d := NatToString(k);
    assert !IsWhitespace(d[0]) && !IsWhitespace(d[|d| - 1]);
    TrimIsTrimmed(d);
  }

  // ---------------------------------------------------------- fields of a line

  /** Two fields with the separator-free first one. */
  lemma TokensOfTwo(a: string, b: string, n: nat)
    requires n >= 2 && ' ' !in a && a != [] && b != []
    requires n == 2 || ' ' !in b
    ensures Tokens(a + " " + b, n) == [Trim(a), Trim(b)]
  {
    SplitNCons(a, ' ', b, n);
    if n > 2 {
      SplitNWithout(b, n - 1, ' ');
    }
    assert SplitN(a + " " + b, n, ' ') == [a, b];
    NonEmptyPiecesKept([a, b]);
    TrimEachTwo(a, b);
  }

  /** An empty line, or one made of a single space, has no fields. */
  lemma BlankLineHasNoFields(n: nat)
    requires n >= 1
    ensures Tokens([], n) == []
    ensures n >= 2 ==> Tokens(" ", n) == []
  {
    if n >= 2 {
      SplitNCons([], ' ', [], n);
      assert SplitN(" ", n, ' ') == [[], []];
      assert NonEmptyPieces([[], []]) == [];
    }
  }

  /** A line without fields is dropped from the records. */
  lemma RecordsSkipLine(l: string, ls: seq<string>, n: nat)
    requires n >= 1 && Tokens(l, n) == []
    ensures Records([l] + ls, n) == Records(ls, n)
  {
    assert ([l] + ls)[1..] == ls;
  }

  /** A line of two spaces is not dropped: its one field is empty and is no id,
      so the whole document is refused. */
  lemma TwoSpacesAreNoVertexLine()
    ensures Records(["  "], 2) == [[[]]]
    ensures VertexEntries(Records(["  "], 2)) == None
  {
    SplitNCons([], ' ', " ", 2);
    assert SplitN("  ", 2, ' ') == [[], " "];
    assert NonEmptyPieces([[], " "]) == [" "] by {
      assert [[], " "][1..] == [" "];
    }
    assert Trim(" ") == [] by {
      assert TrimStart(" ") == TrimStart(" "[1..]);
    }
    assert Tokens("  ", 2) == [[]];
    assert ParseNat([]) == None;
  }

  /** In the edge section a line that starts with two spaces has at most one field:
      a line of two spaces alone is blank and dropped, and anything longer (three
      spaces, say) is a one-field record, refused as the `edge_info[1]` panic. */
  lemma EdgeLineAfterTwoSpaces(rest: string)
    ensures Records([[' ', ' '] + rest], 3) == (if rest == [] then [] else [[Trim(rest)]])
    ensures rest != [] ==> EdgeEntries(Records([[' ', ' '] + rest], 3)) == None
  {
    var line := [' ', ' '] + rest;
    var t := Tokens(line, 3);
    TwoLeadingSpacesTokens(rest);
    assert Records([line][1..], 3) == [] by {
      assert [line][1..] == [];
    }
    if rest != [] {
      var recs := Records([line], 3);
      assert recs == [t];
      assert EdgeEntryOf(recs[0]) == None;
    }
  }

  lemma TwoLeadingSpacesTokens(rest: string)
    ensures Tokens([' ', ' '] + rest, 3) == (if rest == [] then [] else [Trim(rest)])
  {
    var blank: string := [];
    TwoLeadingSpacesSplit(rest);
    TwoBlanksDropped(rest);
    if rest != [] {
      assert TrimEach([rest]) == [Trim(rest)];
    }
  }

  lemma TwoLeadingSpacesSplit(rest: string)
    ensures SplitN([' ', ' '] + rest, 3, ' ') == [[], [], rest]
  {
    var blank: string := [];
    var tail := [' '] + rest;
    assert [' ', ' '] + rest == blank + [' '] + tail;
    SplitNCons(blank, ' ', tail, 3);
    OneSpaceSplit(rest);
  }

  lemma OneSpaceSplit(rest: string)
    ensures SplitN([' '] + rest, 2, ' ') == [[], rest]
  {
    var blank: string := [];
    assert [' '] + rest == blank + [' '] + rest;
    SplitNCons(blank, ' ', rest, 2);
  }

  lemma TwoBlanksDropped(rest: string)
    ensures NonEmptyPieces([[], [], rest]) == (if rest == [] then [] else [rest])
  {
    var blank: string := [];
    assert [blank, blank, rest] == [blank, blank] + [rest];
    BlankPiecesDropped([blank, blank]);
    NonEmptyPiecesAppend([blank, blank], [rest]);
    if rest == [] {
      BlankPiecesDropped([rest]);
    } else {
      NonEmptyPiecesKept([rest]);
    }
  }

  /** Empty pieces are all filtered out. */
  lemma {:induction false} BlankPiecesDropped(ps: seq<string>)
    requires forall i :: 0 <= i < |ps| ==> ps[i] == []
    ensures NonEmptyPieces(ps) == []
  {
    if ps != [] {
      BlankPiecesDropped(ps[1..]);
    }
  }

  /** A vertex line with only an id gets no label. */
  lemma VertexWithoutLabel(line: string)
    requires ' ' !in line && line != []
    ensures Tokens(line, 2) == [Trim(line)]
    ensures VertexEntryOf(Tokens(line, 2))
         == match ParseNat(Trim(line))
            case Some(k) => Some(VertexEntry(k, None))
            case None => None
  {
    SplitNWithout(line, 2, ' ');
    assert NonEmptyPieces([line]) == [line];
  }

  /** The label of a vertex line is everything after the first space, trimmed. */
  lemma VertexLabelIsRest(id: string, rest: string)
    requires ' ' !in id && id != [] && rest != []
    ensures Tokens(id + " " + rest, 2) == [Trim(id), Trim(rest)]
    ensures VertexEntryOf(Tokens(id + " " + rest, 2))
         == match ParseNat(Trim(id))
            case Some(k) => Some(VertexEntry(k, Some(Trim(rest))))
            case None => None
  {
    TokensOfTwo(id, rest, 2);
  }

  /** An edge line with only two ids gets the empty label. */
  lemma EdgeWithoutLabel(a: string, b: string)
    requires ' ' !in a && ' ' !in b && a != [] && b != []
    ensures Tokens(a + " " + b, 3) == [Trim(a), Trim(b)]
    ensures EdgeEntryOf(Tokens(a + " " + b, 3))
         == match (ParseNat(Trim(a)), ParseNat(Trim(b)))
            case (Some(x), Some(y)) => Some(EdgeEntry(x, y, []))
            case _ => None
  {
    TokensOfTwo(a, b, 3);
  }

  /** The label of an edge line is everything after the second space, trimmed. */
  lemma EdgeLabelIsRest(a: string, b: string, rest: string)
    requires ' ' !in a && ' ' !in b && a != [] && b != [] && rest != []
    ensures Tokens(a + " " + b + " " + rest, 3) == [Trim(a), Trim(b), Trim(rest)]
    ensures EdgeEntryOf(Tokens(a + " " + b + " " + rest, 3))
         == match (ParseNat(Trim(a)), ParseNat(Trim(b)))
            case (Some(x), Some(y)) => Some(EdgeEntry(x, y, Trim(rest)))
            case _ => None
  {
    SplitThree(a, b, rest);
    TokensOfPieces(a + " " + b + " " + rest, 3, [a, b, rest]);
    TrimEachThree(a, b, rest);
    EdgeEntryOfThree(Trim(a), Trim(b), Trim(rest));
  }

  lemma EdgeEntryOfThree(x: string, y: string, z: string)
    ensures EdgeEntryOf([x, y, z])
         == match (ParseNat(x), ParseNat(y))
            case (Some(p), Some(q)) => Some(EdgeEntry(p, q, z))
            case _ => None
  {
  }

  lemma TrimEachThree(a: string, b: string, c: string)
    ensures TrimEach([a, b, c]) == [Trim(a), Trim(b), Trim(c)]
  {
    var ps := [a, b, c];
    TrimEachAt(ps, 0);
    TrimEachAt(ps, 1);
    TrimEachAt(ps, 2);
    SeqOfThree(TrimEach(ps), Trim(a), Trim(b), Trim(c));
  }

  /** A sequence known slot by slot; kept apart so that the solver does not unfold `Trim`. */
  lemma SeqOfThree<T>(r: seq<T>, x: T, y: T, z: T)
    requires |r| == 3 && r[0] == x && r[1] == y && r[2] == z
    ensures r == [x, y, z]
  {
  }

  lemma TrimEachAt(ps: seq<string>, i: nat)
    requires i < |ps|
    ensures |TrimEach(ps)| == |ps| && TrimEach(ps)[i] == Trim(ps[i])
  {
  }

  /** The fields of a line whose pieces are all non-empty: each piece, trimmed. */
  lemma TokensOfPieces(line: string, n: nat, ps: seq<string>)
    requires n >= 1 && SplitN(line, n, ' ') == ps
    requires forall i :: 0 <= i < |ps| ==> ps[i] != []
    ensures Tokens(line, n) == TrimEach(ps)
  {
    NonEmptyPiecesKept(ps);
  }

  /** Pieces that are all non-empty are all kept. */
  lemma {:induction false} NonEmptyPiecesKept(ps: seq<string>)
    requires forall i :: 0 <= i < |ps| ==> ps[i] != []
    ensures NonEmptyPieces(ps) == ps
  {
    if ps != [] {
      NonEmptyPiecesKept(ps[1..]);
    }
  }

  /** Filtering the pieces works piece by piece. */
  lemma {:induction false} NonEmptyPiecesAppend(ps: seq<string>, qs: seq<string>)
    ensures NonEmptyPieces(ps + qs) == NonEmptyPieces(ps) + NonEmptyPieces(qs)
  {
    if ps != [] {
      assert (ps + qs)[0] == ps[0];
      assert (ps + qs)[1..] == ps[1..] + qs;
      NonEmptyPiecesAppend(ps[1..], qs);
    } else {
      assert ps + qs == qs;
    }
  }

  lemma TrimEachTwo(a: string, b: string)
    ensures TrimEach([a, b]) == [Trim(a), Trim(b)]
  {
    var ps := [a, b];
    TrimEachAt(ps, 0);
    TrimEachAt(ps, 1);
    SeqOfTwo(TrimEach(ps), Trim(a), Trim(b));
  }

  /** The two-slot form of `SeqOfThree`. */
  lemma SeqOfTwo<T>(r: seq<T>, x: T, y: T)
    requires |r| == 2 && r[0] == x && r[1] == y
    ensures r == [x, y]
  {
  }

  lemma SplitThree(a: string, b: string, rest: string)
    requires ' ' !in a && ' ' !in b
    ensures SplitN(a + " " + b + " " + rest, 3, ' ') == [a, b, rest]
  {
    var tail := b + " " + rest;
    assert a + " " + b + " " + rest == a + [' '] + tail;
    SplitNCons(a, ' ', tail, 3);
    SplitNCons(b, ' ', rest, 2);
  }

  /** An edge line with a single field makes the whole document fail. */
  lemma EdgeWithOneField(line: string)
    requires ' ' !in line
    ensures EdgeEntryOf(Tokens(line, 3)) == None
  {
    SplitNWithout(line, 3, ' ');
    assert |NonEmptyPieces([line])| <= 1;
  }

  // ------------------------------------------------------------ sections

  /** A document without `#` is refused. */
  lemma NoSeparatorFails(contents: string)
    requires '#' !in contents
    ensures ParseTgf(contents) == None
  {
    SplitWithout(contents, '#');
  }

  /** A document whose first line is a vertex id that does not parse is refused,
      whatever follows the `#`. */
  lemma BadVertexIdFails(id: string, rest: string)
    requires id != [] && ' ' !in id && '#' !in id && PlainLine(id)
    requires Trim(id) == id && ParseNat(id).None?
    ensures ParseTgf(id + "\n#" + rest) == None
  {
    var v := id + "\n";
    assert id + "\n#" + rest == v + ['#'] + rest;
    assert '#' !in v;
    SplitCons(v, '#', rest);
    var sections := Split(id + "\n#" + rest, '#');
    assert |sections| >= 2 && sections[0] == v;
    BadIdRecords(id);
  }

  /** The same, for an id with a character that is neither a digit nor a leading `+`. */
  lemma NonDigitIdFails(id: string, k: nat, rest: string)
    requires id != [] && ' ' !in id && '#' !in id && PlainLine(id) && Trimmed(id)
    requires k < |id| && !IsDigit(id[k]) && (k > 0 || id[k] != '+')
    ensures ParseTgf(id + "\n#" + rest) == None
  {
    TrimIsTrimmed(id);
    NonDigitRefused(id, k);
    BadVertexIdFails(id, rest);
  }

  lemma BadIdRecords(id: string)
    requires id != [] && ' ' !in id && PlainLine(id)
    requires Trim(id) == id && ParseNat(id).None?
    ensures VertexEntries(Records(Lines(id + "\n"), 2)) == None
  {
    LinesCons(id, []);
    assert id + "\n" + [] == id + "\n";
    assert Lines(id + "\n") == [id];
    VertexWithoutLabel(id);
    var recs := Records([id], 2);
    var t := Tokens(id, 2);
    assert t == [Trim(id)];
    assert Records([id][1..], 2) == [] by {
      assert [id][1..] == [];
    }
    assert recs == [t];
    VertexEntriesFail(recs);
    assert VertexEntryOf(recs[0]).None?;
  }

  /** Whatever follows a second `#` is ignored. */
  lemma SecondSeparatorIgnored(v: string, e: string, rest: string)
    requires '#' !in v && '#' !in e
    ensures ParseTgf(v + "#" + e + "#" + rest) == ParseTgf(v + "#" + e)
  {
    FirstSections(v, e, rest);
    SectionsParsed(v + "#" + e + "#" + rest, v, e);
    OnlySections(v, e);
    SectionsParsed(v + "#" + e, v, e);
  }

  lemma FirstSections(v: string, e: string, rest: string)
    requires '#' !in v && '#' !in e
    ensures var p := Split(v + "#" + e + "#" + rest, '#'); |p| >= 2 && p[0] == v && p[1] == e
  {
    assert v + "#" + e + "#" + rest == v + ['#'] + (e + ['#'] + rest);
    SplitCons(v, '#', e + ['#'] + rest);
    SplitCons(e, '#', rest);
  }

  lemma OnlySections(v: string, e: string)
    requires '#' !in v && '#' !in e
    ensures Split(v + "#" + e, '#') == [v, e]
  {
    SplitCons(v, '#', e);
    SplitWithout(e, '#');
  }

  /** The document is read from its first two sections only. */
  lemma SectionsParsed(d: string, v: string, e: string)
    requires |Split(d, '#')| >= 2 && Split(d, '#')[0] == v && Split(d, '#')[1] == e
    ensures ParseTgf(d) == ParseSections(v, e)
  {
  }

  // ------------------------------------------------------------ records

  /** When every line has a field, the records are the fields line by line. */
  lemma {:induction false} RecordsOfLines(ls: seq<string>, n: nat)
    requires n >= 1
    requires forall i :: 0 <= i < |ls| ==> Tokens(ls[i], n) != []
    ensures Records(ls, n) == seq(|ls|, i requires 0 <= i < |ls| => Tokens(ls[i], n))
  {
    if ls != [] {
      RecordsOfLines(ls[1..], n);
    }
  }

  /** The vertex records fail exactly when one of them fails. */
  lemma {:induction false} VertexEntriesFail(recs: seq<seq<string>>)
    requires forall i :: 0 <= i < |recs| ==> recs[i] != []
    ensures VertexEntries(recs).None? <==> exists i :: 0 <= i < |recs| && VertexEntryOf(recs[i]).None?
  {
    if recs != [] {
      VertexEntriesFail(recs[1..]);
      assert forall i | 1 <= i < |recs| :: recs[1..][i - 1] == recs[i];
    }
  }

  /** Otherwise they are the entries record by record. */
  lemma {:induction false} VertexEntriesOf(recs: seq<seq<string>>, vs: seq<VertexEntry>)
    requires |recs| == |vs|
    requires forall i :: 0 <= i < |recs| ==> recs[i] != [] && VertexEntryOf(recs[i]) == Some(vs[i])
    ensures VertexEntries(recs) == Some(vs)
  {
    if recs != [] {
      VertexEntriesOf(recs[1..], vs[1..]);
      assert vs == [vs[0]] + vs[1..];
    }
  }

  /** The edge records fail exactly when one of them fails. */
  lemma {:induction false} EdgeEntriesFail(recs: seq<seq<string>>)
    ensures EdgeEntries(recs).None? <==> exists i :: 0 <= i < |recs| && EdgeEntryOf(recs[i]).None?
  {
    if recs != [] {
      EdgeEntriesFail(recs[1..]);
      assert forall i | 1 <= i < |recs| :: recs[1..][i - 1] == recs[i];
    }
  }

  lemma {:induction false} EdgeEntriesOf(recs: seq<seq<string>>, es: seq<EdgeEntry>)
    requires |recs| == |es|
    requires forall i :: 0 <= i < |recs| ==> EdgeEntryOf(recs[i]) == Some(es[i])
    ensures EdgeEntries(recs) == Some(es)
  {
    if recs != [] {
      forall i | 0 <= i < |recs| - 1
        ensures EdgeEntryOf(recs[1..][i]) == Some(es[1..][i])
      {
        assert recs[1..][i] == recs[i + 1];
      }
      EdgeEntriesOf(recs[1..], es[1..]);
      EdgeEntriesCons(recs, es[0], es[1..]);
      assert es == [es[0]] + es[1..];
    }
  }

  lemma EdgeEntriesCons(recs: seq<seq<string>>, e: EdgeEntry, rest: seq<EdgeEntry>)
    requires recs != [] && EdgeEntryOf(recs[0]) == Some(e) && EdgeEntries(recs[1..]) == Some(rest)
    ensures EdgeEntries(recs) == Some([e] + rest)
  {
  }

  // ------------------------------------------------------------ vertex map

  /** The collected vertex map holds, for each id, the label of its last record. */
  lemma {:induction false} VertexMapLastWins(vs: seq<VertexEntry>, i: nat)
    requires i < |vs|
    requires forall j | i < j < |vs| :: vs[j].id != vs[i].id
    ensures vs[i].id in VertexMap(vs)
    ensures VertexMap(vs)[vs[i].id] == Vertex(vs[i].tag, map[])
  {
    var m := VertexMap(vs[1..]);
    if i == 0 {
      assert forall j | 0 <= j < |vs| - 1 :: vs[1..][j] == vs[j + 1];
      assert vs[0].id !in EntryIds(vs[1..]);
    } else {
      assert vs[1..][i - 1] == vs[i];
      assert forall j | i - 1 < j < |vs| - 1 :: vs[1..][j] == vs[j + 1];
      VertexMapLastWins(vs[1..], i - 1);
    }
  }

  // ------------------------------------------------------------ edge loop

  /** The labels the entries give to the pair `(f, t)`, in reading order. */
  function Select(es: seq<EdgeEntry>, f: nat, t: nat): seq<Option<string>>
  {
    if es == [] then []
    else
      var e := es[|es| - 1];
      Select(es[..|es| - 1], f, t) + (if e.from == f && e.to == t then [Some(e.tag)] else [])
  }

  function AllSources(es: seq<EdgeEntry>): set<nat>
  {
    set i | 0 <= i < |es| :: es[i].from
  }

  function AllTargets(es: seq<EdgeEntry>): set<nat>
  {
    set i | 0 <= i < |es| :: es[i].to
  }

  /** The target map the entries give to source `f`. */
  function OutOf(es: seq<EdgeEntry>, f: nat): map<nat, seq<Option<string>>>
  {
    map t | t in AllTargets(es) && Select(es, f, t) != [] :: Select(es, f, t)
  }

  /** The sources the entries give to target `t`. */
  function SourcesOf(es: seq<EdgeEntry>, t: nat): set<nat>
  {
    set f | f in AllSources(es) && Select(es, f, t) != []
  }

  lemma SelectStep(es: seq<EdgeEntry>, e: EdgeEntry, f: nat, t: nat)
    ensures Select(es + [e], f, t) == Select(es, f, t) + (if e.from == f && e.to == t then [Some(e.tag)] else [])
  {
    assert (es + [e])[..|es|] == es;
  }

  /** A pair with labels is named by some entry. */
  lemma {:induction false} SelectNamed(es: seq<EdgeEntry>, f: nat, t: nat)
    ensures Select(es, f, t) != [] ==> f in AllSources(es) && t in AllTargets(es)
  {
    if es != [] {
      var e := es[|es| - 1];
      var p := es[..|es| - 1];
      SelectNamed(p, f, t);
      assert forall i | 0 <= i < |p| :: p[i] == es[i];
    }
  }

  lemma OutOfStep(es: seq<EdgeEntry>, e: EdgeEntry, f: nat)
    ensures OutOf(es + [e], f)
         == if e.from == f then OutOf(es, f)[e.to := Select(es, f, e.to) + [Some(e.tag)]] else OutOf(es, f)
  {
    var es' := es + [e];
    assert AllTargets(es') == AllTargets(es) + {e.to} by {
      assert forall i | 0 <= i < |es| :: es'[i] == es[i];
      assert es'[|es|] == e;
    }
    var l := OutOf(es', f);
    var r := if e.from == f then OutOf(es, f)[e.to := Select(es, f, e.to) + [Some(e.tag)]] else OutOf(es, f);
    forall t
      ensures (t in l <==> t in r) && (t in l ==> l[t] == r[t])
    {
      SelectStep(es, e, f, t);
      SelectNamed(es, f, t);
    }
    assert l == r;
  }

  lemma SourcesOfStep(es: seq<EdgeEntry>, e: EdgeEntry, t: nat)
    ensures SourcesOf(es + [e], t) == SourcesOf(es, t) + (if e.to == t then {e.from} else {})
  {
    var es' := es + [e];
    assert AllSources(es') == AllSources(es) + {e.from} by {
      assert forall i | 0 <= i < |es| :: es'[i] == es[i];
      assert es'[|es|] == e;
    }
    var l := SourcesOf(es', t);
    var r := SourcesOf(es, t) + (if e.to == t then {e.from} else {});
    forall f
      ensures f in l <==> f in r
    {
      SelectStep(es, e, f, t);
      SelectNamed(es, f, t);
    }
    assert l == r;
  }

  /** The edge loop, started from vertices without edges, leaves each vertex its
      label and the target map the entries name for it. */
  lemma {:induction false} InsertEdgesData(s0: Store<string, string>, es: seq<EdgeEntry>)
    requires forall f | f in s0.data :: s0.data[f].out == map[]
    ensures InsertEdges(s0, es).data.Keys == s0.data.Keys
    ensures forall f | f in s0.data :: InsertEdges(s0, es).data[f] == Vertex(s0.data[f].tag, OutOf(es, f))
  {
    if es != [] {
      var p := es[..|es| - 1];
      var e := es[|es| - 1];
      assert es == p + [e];
      InsertEdgesData(s0, p);
      var r := InsertEdges(s0, p);
      forall f | f in s0.data
        ensures InsertEdges(s0, es).data[f] == Vertex(s0.data[f].tag, OutOf(es, f))
      {
        OutOfStep(p, e, f);
        if f == e.from {
          SelectNamed(p, f, e.to);
          assert (if e.to in r.data[f].out then r.data[f].out[e.to] else []) == Select(p, f, e.to);
        }
      }
    } else {
      forall f | f in s0.data
        ensures s0.data[f] == Vertex(s0.data[f].tag, OutOf(es, f))
      {
        assert OutOf(es, f) == map[];
      }
    }
  }

  /** The edge loop adds to each reverse set exactly the sources the entries name. */
  lemma {:induction false} InsertEdgesRev(s0: Store<string, string>, es: seq<EdgeEntry>)
    ensures InsertEdges(s0, es).rev.Keys == s0.rev.Keys
    ensures forall t | t in s0.rev :: InsertEdges(s0, es).rev[t] == s0.rev[t] + SourcesOf(es, t)
  {
    if es != [] {
      var p := es[..|es| - 1];
      var e := es[|es| - 1];
      assert es == p + [e];
      InsertEdgesRev(s0, p);
      forall t | t in s0.rev
        ensures InsertEdges(s0, es).rev[t] == s0.rev[t] + SourcesOf(es, t)
      {
        SourcesOfStep(p, e, t);
      }
    } else {
      forall t | t in s0.rev
        ensures s0.rev[t] == s0.rev[t] + SourcesOf(es, t)
      {
        assert SourcesOf(es, t) == {};
      }
    }
  }

  // ------------------------------------------------------------ the parsed store

  /** The collected vertex map gives every vertex an empty target map. */
  lemma {:induction false} VertexMapNoEdges(vs: seq<VertexEntry>)
    ensures forall k | k in VertexMap(vs) :: VertexMap(vs)[k].out == map[]
  {
    if vs != [] {
      VertexMapNoEdges(vs[1..]);
    }
  }

  /** The shape of what the edge loop leaves behind, before anything is known
      about the endpoints: both maps keyed by the declared ids, each vertex with
      its label and the targets the entries name for it, each reverse set the
      sources the entries name, and the counter the number of vertices. */
  lemma ParsedShape(vs: seq<VertexEntry>, es: seq<EdgeEntry>)
    ensures var g := InsertEdges(Start(vs), es);
      && g.data.Keys == EntryIds(vs) && g.rev.Keys == EntryIds(vs)
      && g.last == |g.data|
      && (forall f | f in g.data :: g.data[f].out == OutOf(es, f))
      && (forall t | t in g.rev :: g.rev[t] == SourcesOf(es, t))
  {
    var s0 := Start(vs);
    VertexMapNoEdges(vs);
    InsertEdgesData(s0, es);
    InsertEdgesRev(s0, es);
    InsertEdgesKeepsVertices(s0, es);
    var g := InsertEdges(s0, es);
    assert |g.data| == |g.data.Keys| == |s0.data.Keys| == |s0.data|;
    forall t | t in g.rev
      ensures g.rev[t] == SourcesOf(es, t)
    {
      assert g.rev[t] == {} + SourcesOf(es, t);
    }
  }

  /** The edge loop from the declared vertices yields a well-formed store as soon
      as every id it mentions is declared: the forward lists and the reverse sets
      are filled from the same entries, and no list is ever empty. */
  lemma ParsedStoreWellFormed(vs: seq<VertexEntry>, es: seq<EdgeEntry>)
    requires IdsLive(InsertEdges(Start(vs), es))
    ensures WellFormed(InsertEdges(Start(vs), es))
  {
    var g := InsertEdges(Start(vs), es);
    ParsedShape(vs, es);
    FilledForward(g, es);
    FilledReverse(g, es);
  }

  /** A document whose edge records name only declared vertices parses to a store
      whose ids are live (and so, by `ParsedStoreWellFormed`, a well-formed one). */
  lemma DeclaredEndpointsAreLive(vs: seq<VertexEntry>, es: seq<EdgeEntry>)
    requires AllSources(es) <= EntryIds(vs) && AllTargets(es) <= EntryIds(vs)
    ensures IdsLive(InsertEdges(Start(vs), es))
  {
    var g := InsertEdges(Start(vs), es);
    ParsedShape(vs, es);
    forall f, t | f in g.data && t in g.data[f].out
      ensures t in g.data
    {
      assert t in OutOf(es, f);
    }
    forall t, f | t in g.rev && f in g.rev[t]
      ensures f in g.data
    {
      assert f in SourcesOf(es, t);
    }
  }

  /** A store whose target maps and reverse sets are the ones the entries name. */
  ghost predicate FilledFrom(g: Store<string, string>, es: seq<EdgeEntry>)
  {
    && g.data.Keys == g.rev.Keys
    && (forall f | f in g.data :: g.data[f].out == OutOf(es, f))
    && (forall t | t in g.rev :: g.rev[t] == SourcesOf(es, t))
  }

  lemma FilledForward(g: Store<string, string>, es: seq<EdgeEntry>)
    requires IdsLive(g) && FilledFrom(g, es)
    ensures ForwardIndexed(g) && NoEmptyLists(g)
  {
    forall f, t | f in g.data && t in g.data[f].out
      ensures t in g.rev && f in g.rev[t] && g.data[f].out[t] != []
    {
      assert t in OutOf(es, f);
      SelectNamed(es, f, t);
      assert f in SourcesOf(es, t);
    }
  }

  lemma FilledReverse(g: Store<string, string>, es: seq<EdgeEntry>)
    requires IdsLive(g) && FilledFrom(g, es)
    ensures ReverseIndexed(g)
  {
    forall t, f | t in g.rev && f in g.rev[t]
      ensures f in g.data && t in g.data[f].out
    {
      assert f in SourcesOf(es, t);
      SelectNamed(es, f, t);
      assert t in OutOf(es, f);
    }
  }

  /** A parsed graph whose ids are live is well formed. Its
      counter is the number of vertices (not the largest id), so it covers the
      ids when they are 1..N. */
  lemma ParsedIsWellFormed(contents: string)
    requires ParseTgf(contents).Some?
    ensures var g := ParseTgf(contents).value;
      && g.last == |g.data|
      && (IdsLive(g) ==> WellFormed(g))
      && (Dense(g) ==> CounterCovers(g))
  {
    var sections := Split(contents, '#');
    var vo := VertexEntries(Records(Lines(sections[0]), 2));
    var eo := EdgeEntries(Records(Lines(sections[1]), 3));
    assert vo.Some? && eo.Some?;
    var g := InsertEdges(Start(vo.value), eo.value);
    assert ParseTgf(contents).value == g;
    ParsedShape(vo.value, eo.value);
    if IdsLive(g) {
      ParsedStoreWellFormed(vo.value, eo.value);
    }
  }
}
