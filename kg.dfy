/**
 * The knowledge-graph service: the triple filter in front of the Neo4j
 * write, the case-insensitive subgraph search, the context text built from
 * its rows, and the node-and-link view of a collection's graph.  Neo4j
 * itself is an input: what a query returns, or the exception it raised.
 * Record values are strings or None (`Option<string>`).
 */
module KnowledgeGraph {
  import opened Wrappers
  import opened Strings

  /** `str(v)` inside an f-string: None prints as "None". */
  function Show(v: Option<string>): string {
    match v
    case None => "None"
    case Some(s) => s
  }

  // ------------------------------------------------------------ insert_triples

  /** An extracted triple (`relation` is its `predicate` key); a key the extractor left out reads as None. */
  datatype Triple = Triple(
    subject: Option<string>, relation: Option<string>, obj: Option<string>,
    subjectType: Option<string>, objectType: Option<string>)

  /** `t.get("subject") and t.get("object") and t.get("predicate")` */
  predicate Complete(t: Triple) {
    Truthy(t.subject) && Truthy(t.obj) && Truthy(t.relation)
  }

  /** The `valid_triples` comprehension. */
  function ValidTriples(ts: seq<Triple>): (vs: seq<Triple>)
    ensures |vs| <= |ts|
    ensures forall k :: 0 <= k < |vs| ==> Complete(vs[k])
  {
    if ts == [] then []
    else (if Complete(ts[0]) then [ts[0]] else []) + ValidTriples(ts[1..])
  }

  lemma {:induction false} ValidTriplesAppend(a: seq<Triple>, b: seq<Triple>)
    ensures ValidTriples(a + b) == ValidTriples(a) + ValidTriples(b)
  {
    if a == [] {
      assert a + b == b;
    } else {
      assert (a + b)[0] == a[0] && (a + b)[1..] == a[1..] + b;
      ValidTriplesAppend(a[1..], b);
    }
  }

  lemma {:induction false} ValidTriplesMembers(ts: seq<Triple>, t: Triple)
    ensures t in ValidTriples(ts) <==> t in ts && Complete(t)
  {
    if ts != [] {
      ValidTriplesMembers(ts[1..], t);
      assert ts == [ts[0]] + ts[1..];
    }
  }

  /**
   * The filter keeps a triple exactly when its subject, object and
   * predicate are all set and non-empty, and keeps the survivors in their
   * original order: the survivors of a split list are those of each part.
   */
  lemma ValidTriplesFilter(a: seq<Triple>, b: seq<Triple>, t: Triple)
    ensures t in ValidTriples(a) <==> t in a && Complete(t)
    ensures ValidTriples(a + b) == ValidTriples(a) + ValidTriples(b)
  {
    ValidTriplesMembers(a, t);
    ValidTriplesAppend(a, b);
  }

  /**
   * `insert_triples`: the batch handed to the driver, or None when nothing
   * is written (no input, or no complete triple).  A failing write is only
   * logged, so the call never raises.
   */
  function InsertTriples(triples: Option<seq<Triple>>): (written: Option<seq<Triple>>)
    ensures triples.None? || triples.value == [] ==> written.None?
    ensures written.Some? ==> triples.Some? && written.value == ValidTriples(triples.value) && written.value != []
    ensures triples.Some? && ValidTriples(triples.value) != [] ==> written.Some?
  {
    if triples.None? || triples.value == [] then None
    else
      var valid := ValidTriples(triples.value);
      if valid == [] then None else Some(valid)
  }

  /** Nothing is written exactly when no triple has a subject, an object and a predicate. */
  lemma NothingWrittenIffNoneComplete(triples: seq<Triple>)
    ensures InsertTriples(Some(triples)).None? <==> forall t :: t in triples ==> !Complete(t)
  {
    if InsertTriples(Some(triples)).Some? {
      var t := ValidTriples(triples)[0];
      ValidTriplesMembers(triples, t);
    } else {
      forall t | t in triples ensures !Complete(t) {
        ValidTriplesMembers(triples, t);
      }
    }
  }

  // -------------------------------------------------------- search_subgraph

  /** One row of the subgraph query: `source`, `rel`, `target`, `target_type`. */
  datatype SearchRow = SearchRow(source: Option<string>, rel: Option<string>, target: Option<string>, targetType: Option<string>)

  /**
   * `search_subgraph(query)`, given what the driver answers for each
   * question: the rows for the lower-cased query, or [] when the driver raised.
   */
  function SearchSubgraph(query: string, run: string -> Result<seq<SearchRow>, string>): (rows: seq<SearchRow>)
    ensures run(Lower(query)).Err? ==> rows == []
  {
    match run(Lower(query))
    case Ok(rs) => rs
    case Err(_) => []
  }

  lemma {:induction false} LowerIdempotent(s: string)
    ensures Lower(Lower(s)) == Lower(s)
  {
    forall i | 0 <= i < |s| ensures Lower(Lower(s))[i] == Lower(s)[i] {
      var c := s[i];
      assert Lower(s)[i] == LowerChar(c);
    }
  }

  /** Queries that differ only in ASCII case search the same question, and so get the same rows. */
  lemma SearchIgnoresCase(q1: string, q2: string, run: string -> Result<seq<SearchRow>, string>)
    requires Lower(q1) == Lower(q2)
    ensures SearchSubgraph(q1, run) == SearchSubgraph(q2, run)
    ensures SearchSubgraph(Lower(q1), run) == SearchSubgraph(q1, run)
  {
    LowerIdempotent(q1);
  }

  // ------------------------------------------------------------ search_graph

  /** The line `search_graph` writes for one row. */
  function Line(r: SearchRow): string {
    Show(r.source) + " " + Show(r.rel) + " " + Show(r.target)
  }

  /** The context text: one line per row, each ended by a newline. */
  function Context(rows: seq<SearchRow>): string {
    if rows == [] then "" else Line(rows[0]) + "\n" + Context(rows[1..])
  }

  datatype GraphSearch = GraphSearch(context: string, raw: seq<SearchRow>)

  /** `search_graph`: the context accumulated row by row, and the rows themselves. */
  method SearchGraph(query: string, run: string -> Result<seq<SearchRow>, string>) returns (g: GraphSearch)
    ensures g.raw == SearchSubgraph(query, run)
    ensures g.context == Context(g.raw)
  {
    var results := SearchSubgraph(query, run);
    var contextStr := "";
    for i := 0 to |results|
      invariant contextStr + Context(results[i..]) == Context(results)
    {
      assert results[i..][1..] == results[i + 1..];
      contextStr := contextStr + (Show(results[i].source) + " " + Show(results[i].rel) + " " + Show(results[i].target) + "\n");
    }
    return GraphSearch(contextStr, results);
  }

  predicate NoNewline(v: Option<string>) {
    forall j :: 0 <= j < |Show(v)| ==> Show(v)[j] != '\n'
  }

  predicate OneLine(r: SearchRow) {
    NoNewline(r.source) && NoNewline(r.rel) && NoNewline(r.target)
  }

  lemma LineHasNoNewline(r: SearchRow)
    requires OneLine(r)
    ensures forall j :: 0 <= j < |Line(r)| ==> Line(r)[j] != '\n'
  {
    var a, b, c := Show(r.source), Show(r.rel), Show(r.target);
    assert Line(r) == a + " " + b + " " + c;
    forall j | 0 <= j < |Line(r)| ensures Line(r)[j] != '\n' {
      if j < |a| { assert Line(r)[j] == a[j]; }
      else if j == |a| {}
      else if j < |a| + 1 + |b| { assert Line(r)[j] == b[j - |a| - 1]; }
      else if j == |a| + 1 + |b| {}
      else { assert Line(r)[j] == c[j - |a| - |b| - 2]; }
    }
  }

  /** The rows' lines, in row order. */
  function Lines(rows: seq<SearchRow>): (ls: seq<string>)
    ensures |ls| == |rows|
  {
    if rows == [] then [] else [Line(rows[0])] + Lines(rows[1..])
  }

  lemma {:induction false} LinesAt(rows: seq<SearchRow>)
    ensures forall k :: 0 <= k < |rows| ==> Lines(rows)[k] == Line(rows[k])
  {
    if rows != [] {
      LinesAt(rows[1..]);
    }
  }

  lemma {:induction false} SplitContext(rows: seq<SearchRow>)
    requires forall k :: 0 <= k < |rows| ==> OneLine(rows[k])
    ensures SplitOn(Context(rows), '\n') == Lines(rows) + [""]
  {
    if rows == [] {
      assert SplitOn("", '\n') == [""];
    } else {
      var head, rest := Line(rows[0]), Context(rows[1..]);
      LineHasNoNewline(rows[0]);
      SplitContext(rows[1..]);
      SplitOnFirst(head, rest, '\n');
      assert Context(rows) == head + ['\n'] + rest;
    }
  }

  /**
   * When no value holds a newline, splitting the context at newlines gives
   * back exactly one line per row, in row order, and the empty text after
   * the final newline.
   */
  lemma ContextLines(rows: seq<SearchRow>)
    requires forall k :: 0 <= k < |rows| ==> OneLine(rows[k])
    ensures var lines := SplitOn(Context(rows), '\n');
            |lines| == |rows| + 1 && lines[|rows|] == ""
            && forall k :: 0 <= k < |rows| ==> lines[k] == Show(rows[k].source) + " " + Show(rows[k].rel) + " " + Show(rows[k].target)
  {
    SplitContext(rows);
    LinesAt(rows);
  }

  // ---------------------------------------------------------- get_full_graph

  /** One row of the collection query: `source`, `rel`, `target`, `source_type`, `target_type`. */
  datatype GraphRow = GraphRow(
    source: Option<string>, rel: Option<string>, target: Option<string>,
    sourceType: Option<string>, targetType: Option<string>)

  /**
   * A node: id, group and type.  Every record carries both type columns,
   * so `row.get(..., 'Unknown')` yields the stored value, None included.
   */
  datatype Node = Node(id: Option<string>, group: string, nodeType: Option<string>)

  datatype Link = Link(source: Option<string>, target: Option<string>, rel: Option<string>)

  datatype Graph = Graph(nodes: seq<Node>, links: seq<Link>)

  /** A name and its type, as a row mentions it: the source, then the target. */
  type Mention = (Option<string>, Option<string>)

  /** Every mention of the rows, in the order the loop meets them. */
  function Mentions(rows: seq<GraphRow>): (ms: seq<Mention>)
    ensures |ms| == 2 * |rows|
  {
    if rows == [] then []
    else
      var r := rows[|rows| - 1];
      Mentions(rows[..|rows| - 1]) + [(r.source, r.sourceType), (r.target, r.targetType)]
  }

  /** The `nodes` dictionary: its keys in insertion order, and its entries. */
  datatype Table = Table(order: seq<Option<string>>, entries: map<Option<string>, Node>)

  /** The `if name not in nodes` step. */
  function Add(t: Table, m: Mention): Table {
    if m.0 in t.entries then t else Table(t.order + [m.0], t.entries[m.0 := Node(m.0, "Entity", m.1)])
  }

  function TableOf(ms: seq<Mention>): Table {
    if ms == [] then Table([], map[]) else Add(TableOf(ms[..|ms| - 1]), ms[|ms| - 1])
  }

  predicate Mentioned(ms: seq<Mention>, name: Option<string>) {
    exists i :: 0 <= i < |ms| && ms[i].0 == name
  }

  /** Where a name is first mentioned. */
  function FirstMention(ms: seq<Mention>, name: Option<string>): (i: nat)
    requires Mentioned(ms, name)
    ensures i < |ms| && ms[i].0 == name
    ensures forall j :: 0 <= j < i ==> ms[j].0 != name
  {
    if ms[0].0 == name then 0
    else
      assert Mentioned(ms[1..], name) by {
        var i :| 0 <= i < |ms| && ms[i].0 == name;
        assert ms[1..][i - 1].0 == name;
      }
      1 + FirstMention(ms[1..], name)
  }

  /** The keys are exactly the mentioned names. */
  ghost predicate KeysMentioned(t: Table, ms: seq<Mention>) {
    forall name :: name in t.entries <==> Mentioned(ms, name)
  }

  /** `order` lists every key once. */
  ghost predicate OrderListsKeys(t: Table) {
    && (forall k :: 0 <= k < |t.order| ==> t.order[k] in t.entries)
    && (forall name :: name in t.entries ==> name in t.order)
    && (forall i, j :: 0 <= i < j < |t.order| ==> t.order[i] != t.order[j])
  }

  /** Each node carries the type of its name's first mention. */
  ghost predicate TypedByFirst(t: Table, ms: seq<Mention>)
    requires KeysMentioned(t, ms)
  {
    forall name :: name in t.entries ==> t.entries[name] == Node(name, "Entity", ms[FirstMention(ms, name)].1)
  }

  /** Keys are in order of first mention. */
  ghost predicate OrderedByFirst(t: Table, ms: seq<Mention>)
    requires KeysMentioned(t, ms) && OrderListsKeys(t)
  {
    forall i, j :: 0 <= i < j < |t.order| ==> FirstMention(ms, t.order[i]) < FirstMention(ms, t.order[j])
  }

  /** What the node table promises: unique keys in order of first mention, each typed by its first mention. */
  ghost predicate TableFits(t: Table, ms: seq<Mention>) {
    KeysMentioned(t, ms) && OrderListsKeys(t) && TypedByFirst(t, ms) && OrderedByFirst(t, ms)
  }

  lemma FirstMentionKept(ms: seq<Mention>, m: Mention, name: Option<string>)
    requires Mentioned(ms, name)
    ensures Mentioned(ms + [m], name) && FirstMention(ms + [m], name) == FirstMention(ms, name)
  {
    var i := FirstMention(ms, name);
    assert (ms + [m])[i].0 == name;
  }

  lemma FirstMentionNew(ms: seq<Mention>, m: Mention)
    requires !Mentioned(ms, m.0)
    ensures Mentioned(ms + [m], m.0) && FirstMention(ms + [m], m.0) == |ms|
  {
    assert (ms + [m])[|ms|].0 == m.0;
  }

  lemma MentionedSnoc(ms: seq<Mention>, m: Mention, name: Option<string>)
    ensures Mentioned(ms + [m], name) <==> Mentioned(ms, name) || name == m.0
  {
    if Mentioned(ms + [m], name) && name != m.0 {
      var i :| 0 <= i < |ms| + 1 && (ms + [m])[i].0 == name;
      assert ms[i].0 == name;
    }
    if Mentioned(ms, name) {
      var i :| 0 <= i < |ms| && ms[i].0 == name;
      assert (ms + [m])[i].0 == name;
    }
    if name == m.0 {
      assert (ms + [m])[|ms|].0 == name;
    }
  }

  lemma AddKeysMentioned(t: Table, ms: seq<Mention>, m: Mention)
    requires KeysMentioned(t, ms)
    ensures KeysMentioned(Add(t, m), ms + [m])
  {
    forall name ensures name in Add(t, m).entries <==> Mentioned(ms + [m], name) {
      MentionedSnoc(ms, m, name);
    }
  }

  lemma AddOrderListsKeys(t: Table, m: Mention)
    requires OrderListsKeys(t)
    ensures OrderListsKeys(Add(t, m))
  {
  }

  lemma AddTypedByFirst(t: Table, ms: seq<Mention>, m: Mention)
    requires KeysMentioned(t, ms) && TypedByFirst(t, ms)
    ensures KeysMentioned(Add(t, m), ms + [m]) && TypedByFirst(Add(t, m), ms + [m])
  {
    AddKeysMentioned(t, ms, m);
    var t', ms' := Add(t, m), ms + [m];
    forall name | name in t'.entries ensures t'.entries[name] == Node(name, "Entity", ms'[FirstMention(ms', name)].1) {
      if name in t.entries {
        FirstMentionKept(ms, m, name);
        assert ms'[FirstMention(ms, name)] == ms[FirstMention(ms, name)];
      } else {
        FirstMentionNew(ms, m);
      }
    }
  }

  lemma AddOrderedByFirst(t: Table, ms: seq<Mention>, m: Mention)
    requires KeysMentioned(t, ms) && OrderListsKeys(t) && OrderedByFirst(t, ms)
    ensures KeysMentioned(Add(t, m), ms + [m]) && OrderListsKeys(Add(t, m)) && OrderedByFirst(Add(t, m), ms + [m])
  {
    AddKeysMentioned(t, ms, m);
    AddOrderListsKeys(t, m);
    var t', ms' := Add(t, m), ms + [m];
    forall i, j | 0 <= i < j < |t'.order| ensures FirstMention(ms', t'.order[i]) < FirstMention(ms', t'.order[j]) {
      assert t.order[i] in t.entries;
      FirstMentionKept(ms, m, t.order[i]);
      if j < |t.order| {
        assert t'.order[j] == t.order[j] && t.order[j] in t.entries;
        FirstMentionKept(ms, m, t.order[j]);
      } else {
        FirstMentionNew(ms, m);
      }
    }
  }

  lemma AddFits(t: Table, ms: seq<Mention>, m: Mention)
    requires TableFits(t, ms)
    ensures TableFits(Add(t, m), ms + [m])
  {
    AddTypedByFirst(t, ms, m);
    AddOrderedByFirst(t, ms, m);
  }

  lemma {:induction false} TableOfFits(ms: seq<Mention>)
    ensures TableFits(TableOf(ms), ms)
  {
    if ms != [] {
      var front := ms[..|ms| - 1];
      TableOfFits(front);
      assert front + [ms[|ms| - 1]] == ms;
      AddFits(TableOf(front), front, ms[|ms| - 1]);
    }
  }

  /** The links: one per row, in row order. */
  function Links(rows: seq<GraphRow>): (ls: seq<Link>)
    ensures |ls| == |rows|
  {
    if rows == [] then []
    else
      var r := rows[|rows| - 1];
      Links(rows[..|rows| - 1]) + [Link(r.source, r.target, r.rel)]
  }

  function NodeList(t: Table): seq<Node>
    requires forall k :: 0 <= k < |t.order| ==> t.order[k] in t.entries
  {
    seq(|t.order|, k requires 0 <= k < |t.order| => t.entries[t.order[k]])
  }

  /** The graph `get_full_graph` builds from the rows. */
  function FullGraph(rows: seq<GraphRow>): Graph {
    var t := TableOf(Mentions(rows));
    TableOfFits(Mentions(rows));
    Graph(NodeList(t), Links(rows))
  }

  /**
   * `get_full_graph`, given the rows the collection query returned or the
   * exception it raised: every exception yields an empty graph.
   */
  method GetFullGraph(fetched: Result<seq<GraphRow>, string>) returns (g: Graph)
    ensures fetched.Err? ==> g == Graph([], [])
    ensures fetched.Ok? ==> g == FullGraph(fetched.value)
  {
    if fetched.Err? {
      return Graph([], []);
    }
    var data := fetched.value;
    var nodes: map<Option<string>, Node> := map[];
    var order: seq<Option<string>> := [];
    var links: seq<Link> := [];
    for i := 0 to |data|
      invariant Table(order, nodes) == TableOf(Mentions(data[..i]))
      invariant links == Links(data[..i])
    {
      var row := data[i];
      assert data[..i + 1][..i] == data[..i];
      ghost var ms := Mentions(data[..i]);
      assert Mentions(data[..i + 1]) == ms + [(row.source, row.sourceType)] + [(row.target, row.targetType)];
      assert (ms + [(row.source, row.sourceType)] + [(row.target, row.targetType)])[..|ms| + 1] == ms + [(row.source, row.sourceType)];
      assert (ms + [(row.source, row.sourceType)])[..|ms|] == ms;
      if row.source !in nodes {
        nodes := nodes[row.source := Node(row.source, "Entity", row.sourceType)];
        order := order + [row.source];
      }
      if row.target !in nodes {
        nodes := nodes[row.target := Node(row.target, "Entity", row.targetType)];
        order := order + [row.target];
      }
      links := links + [Link(row.source, row.target, row.rel)];
    }
    assert data[..|data|] == data;
    TableOfFits(Mentions(data));
    g := Graph(seq(|order|, k requires 0 <= k < |order| => nodes[order[k]]), links);
  }

  /**
   * The graph lists each mentioned name once, in order of first mention
   * (a row's source before its target), typed by its first mention, and
   * one link per row, in row order, labelled with the relation.
   */
  lemma FullGraphShape(rows: seq<GraphRow>)
    ensures var g := FullGraph(rows);
            var ms := Mentions(rows);
            && |g.links| == |rows|
            && (forall k :: 0 <= k < |rows| ==> g.links[k] == Link(rows[k].source, rows[k].target, rows[k].rel))
            && (forall i, j :: 0 <= i < j < |g.nodes| ==> g.nodes[i].id != g.nodes[j].id)
            && (forall name :: Mentioned(ms, name) <==> exists k :: 0 <= k < |g.nodes| && g.nodes[k].id == name)
            && (forall k :: 0 <= k < |g.nodes| ==>
                  Mentioned(ms, g.nodes[k].id) && g.nodes[k] == Node(g.nodes[k].id, "Entity", ms[FirstMention(ms, g.nodes[k].id)].1))
            && (forall i, j :: 0 <= i < j < |g.nodes| ==> FirstMention(ms, g.nodes[i].id) < FirstMention(ms, g.nodes[j].id))
  {
    var ms := Mentions(rows);
    var t := TableOf(ms);
    TableOfFits(ms);
    LinksInOrder(rows);
    var g := FullGraph(rows);
    assert forall k :: 0 <= k < |g.nodes| ==> g.nodes[k] == t.entries[t.order[k]];
    forall name | Mentioned(ms, name) ensures exists k :: 0 <= k < |g.nodes| && g.nodes[k].id == name {
      var k :| 0 <= k < |t.order| && t.order[k] == name;
      assert g.nodes[k].id == name;
    }
  }

  lemma {:induction false} LinksInOrder(rows: seq<GraphRow>)
    ensures forall k :: 0 <= k < |rows| ==> Links(rows)[k] == Link(rows[k].source, rows[k].target, rows[k].rel)
  {
    if rows != [] {
      LinksInOrder(rows[..|rows| - 1]);
    }
  }

  /** A mention of a row is its source or its target; the mentions cover the rows' names exactly. */
  lemma {:induction false} MentionsOfRows(rows: seq<GraphRow>, name: Option<string>)
    ensures Mentioned(Mentions(rows), name) <==> exists k :: 0 <= k < |rows| && (rows[k].source == name || rows[k].target == name)
  {
    if rows != [] {
      var front, r := rows[..|rows| - 1], rows[|rows| - 1];
      MentionsOfRows(front, name);
      var ms := Mentions(front);
      MentionedSnoc(ms, (r.source, r.sourceType), name);
      MentionedSnoc(ms + [(r.source, r.sourceType)], (r.target, r.targetType), name);
      assert Mentions(rows) == ms + [(r.source, r.sourceType)] + [(r.target, r.targetType)];
      if exists k :: 0 <= k < |front| && (front[k].source == name || front[k].target == name) {
        var k :| 0 <= k < |front| && (front[k].source == name || front[k].target == name);
        assert rows[k] == front[k];
      }
      if exists k :: 0 <= k < |rows| && (rows[k].source == name || rows[k].target == name) {
        var k :| 0 <= k < |rows| && (rows[k].source == name || rows[k].target == name);
        if k < |front| { assert front[k] == rows[k]; }
      }
    }
  }
}
