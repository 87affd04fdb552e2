/**
 The Graphviz DOT serializer: an undirected `graph` with one styled node line
 per reached person and one `--` edge line per reached relationship, repeated
 and reversed relationships emitted once; plus the colour and label lookups
 the interactive view uses.
 */
module DotCode {
  import opened NetworkTypes
  import opened Strings
  import Visualization

  const Warning: string := "\U{26A0}"

  /** The four lines that open the output. */
  const Header: seq<string> := ["graph NetworkGraph {", "  rankdir=LR;", "  node [shape=circle, style=filled];", ""]

  /** The node attributes for a distance; a distance outside 0..2 gets none. */
  function NodeStyle(distance: int): string
  {
    if distance == 0 then "fillcolor=lightblue"
    else if distance == 1 then "fillcolor=yellow"
    else if distance == 2 then "fillcolor=red, fontcolor=white, penwidth=3"
    else ""
  }

  /** The label of a node: the name with `(INDEX)`, the critical alert, or `(D<n>)`. */
  function NodeLabelText(name: string, distance: int): string
  {
    if distance == 0 then name + " (INDEX)"
    else if distance == 2 then name + " (" + Warning + " CRITICAL ALERT D2 " + Warning + ")"
    else name + " (D" + IntToString(distance) + ")"
  }

  /** The declaration of one node. */
  function NodeLine(n: GraphNode): string
  {
    "  \"" + n.id + "\" [label=\"" + NodeLabelText(n.name, n.distance) + "\", " + NodeStyle(n.distance) + "];"
  }

  /** The declaration of one undirected edge, in the orientation stored. */
  function EdgeLine(l: GraphLink): string
  {
    "  \"" + l.source + "\" -- \"" + l.target + "\";"
  }

  function NodeLines(nodes: seq<GraphNode>): seq<string>
  {
    if nodes == [] then [] else [NodeLine(nodes[0])] + NodeLines(nodes[1..])
  }

  function EdgeLines(links: seq<GraphLink>): seq<string>
  {
    if links == [] then [] else [EdgeLine(links[0])] + EdgeLines(links[1..])
  }

  /**
   The deduplication key of an edge: its two ends in ascending order joined
   with `-`. It is the joined string, not the pair.
   */
  function EdgeKey(a: string, b: string): string
  {
    if LexLe(a, b) then a + "-" + b else b + "-" + a
  }

  function LinkKey(l: GraphLink): string
  {
    EdgeKey(l.source, l.target)
  }

  function KeysOf(links: seq<GraphLink>): set<string>
  {
    set i | 0 <= i < |links| :: LinkKey(links[i])
  }

  /** The links whose key was not seen earlier in the sequence, in order. */
  function FirstSeen(links: seq<GraphLink>): seq<GraphLink>
  {
    if links == [] then []
    else
      var init := links[..|links| - 1];
      var last := links[|links| - 1];
      FirstSeen(init) + (if LinkKey(last) in KeysOf(init) then [] else [last])
  }

  /** The lines of the output, before they are joined with newlines. */
  function DotLines(people: seq<Person>, distances: DistanceMap, relationships: seq<Relationship>): seq<string>
  {
    Header
    + NodeLines(Visualization.Nodes(people, distances))
    + [""]
    + EdgeLines(FirstSeen(Visualization.Links(relationships, distances)))
    + ["}"]
  }

  // ---------------------------------------------------------------------------
  // Steps used by the serializer's loops
  // ---------------------------------------------------------------------------

  lemma {:induction false} NodeLinesAt(nodes: seq<GraphNode>)
    ensures |NodeLines(nodes)| == |nodes|
    ensures forall k :: 0 <= k < |nodes| ==> NodeLines(nodes)[k] == NodeLine(nodes[k])
    decreases |nodes|
  {
    if nodes != [] {
      NodeLinesAt(nodes[1..]);
    }
  }

  lemma {:induction false} EdgeLinesAt(links: seq<GraphLink>)
    ensures |EdgeLines(links)| == |links|
    ensures forall k :: 0 <= k < |links| ==> EdgeLines(links)[k] == EdgeLine(links[k])
    decreases |links|
  {
    if links != [] {
      EdgeLinesAt(links[1..]);
    }
  }

  lemma {:induction false} NodeLinesAppend(a: seq<GraphNode>, b: seq<GraphNode>)
    ensures NodeLines(a + b) == NodeLines(a) + NodeLines(b)
    decreases |a|
  {
    if a == [] {
      assert a + b == b;
    } else {
      assert (a + b)[1..] == a[1..] + b;
      NodeLinesAppend(a[1..], b);
    }
  }

  lemma {:induction false} EdgeLinesAppend(a: seq<GraphLink>, b: seq<GraphLink>)
    ensures EdgeLines(a + b) == EdgeLines(a) + EdgeLines(b)
    decreases |a|
  {
    if a == [] {
      assert a + b == b;
    } else {
      assert (a + b)[1..] == a[1..] + b;
      EdgeLinesAppend(a[1..], b);
    }
  }

  lemma {:induction false} KeysOfAppend(links: seq<GraphLink>, l: GraphLink)
    ensures KeysOf(links + [l]) == KeysOf(links) + {LinkKey(l)}
  {
    var s := links + [l];
    forall k | k in KeysOf(links)
      ensures k in KeysOf(s)
    {
      var i :| 0 <= i < |links| && LinkKey(links[i]) == k;
      assert s[i] == links[i];
    }
    assert s[|links|] == l;
  }

  lemma {:induction false} FirstSeenAppend(links: seq<GraphLink>, l: GraphLink)
    ensures FirstSeen(links + [l]) == FirstSeen(links) + (if LinkKey(l) in KeysOf(links) then [] else [l])
  {
    assert (links + [l])[..|links|] == links;
  }

  lemma {:induction false} NodesStep(people: seq<Person>, distances: DistanceMap, i: int)
    requires 0 <= i < |people|
    ensures Visualization.Nodes(people[..i + 1], distances) ==
      Visualization.Nodes(people[..i], distances)
      + (if people[i].id in distances then [Visualization.NodeOf(people[i], distances)] else [])
  {
    assert people[..i + 1] == people[..i] + [people[i]];
    Visualization.NodesAppend(people[..i], [people[i]], distances);
    assert [people[i]][1..] == [];
  }

  lemma {:induction false} LinksStep(relationships: seq<Relationship>, distances: DistanceMap, j: int)
    requires 0 <= j < |relationships|
    ensures Visualization.Links(relationships[..j + 1], distances) ==
      Visualization.Links(relationships[..j], distances)
      + (if Visualization.LinkKept(relationships[j], distances)
         then [GraphLink(relationships[j].from, relationships[j].to)] else [])
  {
    assert relationships[..j + 1] == relationships[..j] + [relationships[j]];
    Visualization.LinksAppend(relationships[..j], [relationships[j]], distances);
    assert [relationships[j]][1..] == [];
  }

  /** The styling and label rules of one node line. */
  method FormatNode(person: Person, distance: int) returns (line: string)
    ensures line == NodeLine(GraphNode(person.id, person.name, distance, distance == 2))
  {
    var style := "";
    var text := person.name + " (D" + IntToString(distance) + ")";
    if distance == 0 {
      style := "fillcolor=lightblue";
      text := person.name + " (INDEX)";
    } else if distance == 1 {
      style := "fillcolor=yellow";
    } else if distance == 2 {
      style := "fillcolor=red, fontcolor=white, penwidth=3";
      text := person.name + " (" + Warning + " CRITICAL ALERT D2 " + Warning + ")";
    }
    line := "  \"" + person.id + "\" [label=\"" + text + "\", " + style + "];";
  }

  /** The node loop: one line per person with a recorded distance, in input order. */
  method AddNodeLines(people: seq<Person>, distances: DistanceMap, lines0: seq<string>)
    returns (lines: seq<string>)
    ensures lines == lines0 + NodeLines(Visualization.Nodes(people, distances))
  {
    lines := lines0;
    for i := 0 to |people|
      invariant lines == lines0 + NodeLines(Visualization.Nodes(people[..i], distances))
    {
      var person := people[i];
      ghost var nodes := Visualization.Nodes(people[..i], distances);
      NodesStep(people, distances, i);
      if person.id in distances {
        var line := FormatNode(person, distances[person.id]);
        NodeLinesAppend(nodes, [Visualization.NodeOf(person, distances)]);
        lines := lines + [line];
      } else {
        assert nodes + [] == nodes;
      }
    }
    assert people[..|people|] == people;
  }

  /** What one relationship does to the emitted edges and to the set of added keys. */
  lemma {:induction false} EdgeStep(relationships: seq<Relationship>, distances: DistanceMap, j: int)
    requires 0 <= j < |relationships|
    ensures var rel := relationships[j];
      var before := Visualization.Links(relationships[..j], distances);
      var after := Visualization.Links(relationships[..j + 1], distances);
      if rel.from in distances && rel.to in distances then
        && KeysOf(after) == KeysOf(before) + {EdgeKey(rel.from, rel.to)}
        && EdgeLines(FirstSeen(after)) ==
             EdgeLines(FirstSeen(before))
             + (if EdgeKey(rel.from, rel.to) in KeysOf(before) then [] else [EdgeLine(GraphLink(rel.from, rel.to))])
      else after == before
  {
    var rel := relationships[j];
    var before := Visualization.Links(relationships[..j], distances);
    LinksStep(relationships, distances, j);
    if rel.from in distances && rel.to in distances {
      var link := GraphLink(rel.from, rel.to);
      KeysOfAppend(before, link);
      FirstSeenAppend(before, link);
      if LinkKey(link) in KeysOf(before) {
        assert FirstSeen(before) + [] == FirstSeen(before);
      } else {
        EdgeLinesAppend(FirstSeen(before), [link]);
      }
    } else {
      assert before + [] == before;
    }
  }

  /**
   The edge loop: one line per relationship with both ends recorded, skipping
   one whose key is already in the set of added keys.
   */
  method AddEdgeLines(relationships: seq<Relationship>, distances: DistanceMap, lines0: seq<string>)
    returns (lines: seq<string>)
    ensures lines == lines0 + EdgeLines(FirstSeen(Visualization.Links(relationships, distances)))
  {
    lines := lines0;
    var addedEdges: set<string> := {};
    for j := 0 to |relationships|
      invariant lines == lines0 + EdgeLines(FirstSeen(Visualization.Links(relationships[..j], distances)))
      invariant addedEdges == KeysOf(Visualization.Links(relationships[..j], distances))
    {
      var rel := relationships[j];
      ghost var before := Visualization.Links(relationships[..j], distances);
      ghost var after := Visualization.Links(relationships[..j + 1], distances);
      EdgeStep(relationships, distances, j);
      if rel.from in distances && rel.to in distances {
        var edgeKey := EdgeKey(rel.from, rel.to);
        if edgeKey !in addedEdges {
          addedEdges := addedEdges + {edgeKey};
          lines := lines + ["  \"" + rel.from + "\" -- \"" + rel.to + "\";"];
        } else {
          assert KeysOf(after) == KeysOf(before);
        }
      }
    }
    assert relationships[..|relationships|] == relationships;
  }

  /**
   `generateDotCode`: the header, one line per person with a recorded
   distance, an empty line, one line per relationship with both ends recorded
   whose sorted-and-joined key was not seen before, and the closing brace,
   joined with newlines.
   */
  method GenerateDotCode(people: seq<Person>, distances: DistanceMap, relationships: seq<Relationship>)
    returns (dot: string)
    ensures dot == Join(DotLines(people, distances, relationships), "\n")
  {
    var lines := ["graph NetworkGraph {"];
    lines := lines + ["  rankdir=LR;"];
    lines := lines + ["  node [shape=circle, style=filled];"];
    lines := lines + [""];
    assert lines == Header;
    lines := AddNodeLines(people, distances, lines);
    lines := lines + [""];
    lines := AddEdgeLines(relationships, distances, lines);
    lines := lines + ["}"];
    dot := Join(lines, "\n");
  }

  // ---------------------------------------------------------------------------
  // Edge keys and first-seen deduplication
  // ---------------------------------------------------------------------------

  /** The key does not depend on the orientation of the edge. */
  lemma {:induction false} EdgeKeySymmetric(a: string, b: string)
    ensures EdgeKey(a, b) == EdgeKey(b, a)
  {
    LexLeTotal(a, b);
    if LexLe(a, b) && LexLe(b, a) {
      LexLeAntisymmetric(a, b);
    }
  }

  /**
   For ids of one common length (such as the 36-character UUIDs the
   application generates) equal keys mean the same unordered pair.
   */
  lemma {:induction false} EdgeKeySameLength(a: string, b: string, c: string, d: string)
    requires |a| == |b| == |c| == |d|
    requires EdgeKey(a, b) == EdgeKey(c, d)
    ensures (a == c && b == d) || (a == d && b == c)
  {
    var n := |a|;
    var k := EdgeKey(a, b);
    var x, y := if LexLe(a, b) then a else b, if LexLe(a, b) then b else a;
    var u, v := if LexLe(c, d) then c else d, if LexLe(c, d) then d else c;
    assert k == x + "-" + y && k == u + "-" + v;
    assert x == k[..n] == u;
    assert y == k[n + 1..] == v;
  }

  /** Ids of different lengths that contain `-` can share a key although the pairs differ. */
  lemma {:induction false} EdgeKeyCollision()
    ensures EdgeKey("a-b", "c") == EdgeKey("a", "b-c")
    ensures "a-b" != "a" && "a-b" != "b-c"
  {
    assert LexLe("a-b", "c");
    assert LexLe("a", "b-c");
  }

  /** Every emitted link is one of the input links. */
  lemma {:induction false} FirstSeenSound(links: seq<GraphLink>)
    ensures forall l :: l in FirstSeen(links) ==> l in links
    decreases |links|
  {
    if links != [] {
      var init := links[..|links| - 1];
      FirstSeenSound(init);
      assert forall l :: l in init ==> l in links;
    }
  }

  /** Emitted links carry the same keys as the input, and each key once. */
  lemma {:induction false} FirstSeenKeys(links: seq<GraphLink>)
    ensures KeysOf(FirstSeen(links)) == KeysOf(links)
    ensures forall i, j :: 0 <= i < j < |FirstSeen(links)| ==>
      LinkKey(FirstSeen(links)[i]) != LinkKey(FirstSeen(links)[j])
    decreases |links|
  {
    if links != [] {
      var init := links[..|links| - 1];
      var last := links[|links| - 1];
      assert links == init + [last];
      FirstSeenKeys(init);
      KeysOfAppend(init, last);
      var fs := FirstSeen(init);
      if LinkKey(last) !in KeysOf(init) {
        assert FirstSeen(links) == fs + [last];
        KeysOfAppend(fs, last);
        forall i | 0 <= i < |fs|
          ensures LinkKey(fs[i]) != LinkKey(last)
        {
          assert LinkKey(fs[i]) in KeysOf(fs);
        }
      } else {
        assert FirstSeen(links) == fs;
      }
    }
  }

  /** A link whose key does not occur earlier is emitted. */
  lemma {:induction false} FirstSeenFirst(links: seq<GraphLink>, i: int)
    requires 0 <= i < |links|
    requires forall j :: 0 <= j < i ==> LinkKey(links[j]) != LinkKey(links[i])
    ensures links[i] in FirstSeen(links)
    decreases |links|
  {
    var init := links[..|links| - 1];
    if i < |links| - 1 {
      FirstSeenFirst(init, i);
    }
  }

  /** A relationship stored as (a, b) and again as (b, a) yields one edge line, in the first orientation. */
  lemma {:induction false} ReversedRelationshipOnce(a: string, b: string, distances: DistanceMap)
    requires a in distances && b in distances
    ensures FirstSeen(Visualization.Links([Relationship(a, b), Relationship(b, a)], distances)) == [GraphLink(a, b)]
  {
    var r1, r2 := Relationship(a, b), Relationship(b, a);
    var l1 := GraphLink(a, b);
    Visualization.LinksAppend([r1], [r2], distances);
    assert [r1, r2] == [r1] + [r2];
    assert Visualization.Links([r1], distances) == [l1] by { assert [r1][1..] == []; }
    assert Visualization.Links([r2], distances) == [GraphLink(b, a)] by { assert [r2][1..] == []; }
    EdgeKeySymmetric(a, b);
    assert KeysOf([l1]) == {LinkKey(l1)} by { KeysOfAppend([], l1); }
    FirstSeenAppend([l1], GraphLink(b, a));
    FirstSeenAppend([], l1);
  }

  /** A relationship stored twice yields one edge line. */
  lemma {:induction false} DuplicateRelationshipOnce(a: string, b: string, distances: DistanceMap)
    requires a in distances && b in distances
    ensures FirstSeen(Visualization.Links([Relationship(a, b), Relationship(a, b)], distances)) == [GraphLink(a, b)]
  {
    var r := Relationship(a, b);
    var l := GraphLink(a, b);
    Visualization.DuplicateRelationshipKept(r, distances);
    assert KeysOf([l]) == {LinkKey(l)} by { KeysOfAppend([], l); }
    FirstSeenAppend([l], l);
    FirstSeenAppend([], l);
  }

  // ---------------------------------------------------------------------------
  // Shape of the output text
  // ---------------------------------------------------------------------------

  /** The header lines as text, each ended by a newline. */
  const HeaderText: string := Join(Header, "\n") + "\n"

  lemma {:induction false} JoinFraming(head: seq<string>, body: seq<string>, last: string)
    requires |head| > 0
    ensures var text := Join(head + body + [last], "\n");
      var prefix := Join(head, "\n") + "\n";
      |text| >= |prefix| + |last|
      && text[..|prefix|] == prefix
      && text[|text| - 1 - |last|..] == "\n" + last
  {
    var prefix := Join(head, "\n") + "\n";
    var tail := Join(body + [last], "\n");
    assert head + body + [last] == head + (body + [last]);
    JoinAppend(head, body + [last], "\n");
    assert Join(head + body + [last], "\n") == prefix + tail;
    if body == [] {
      assert body + [last] == [last];
      assert tail == last;
    } else {
      JoinAppend(body, [last], "\n");
      assert tail == Join(body, "\n") + "\n" + last;
    }
  }

  /** The lines between the header and the closing brace. */
  function DotBody(people: seq<Person>, distances: DistanceMap, relationships: seq<Relationship>): seq<string>
  {
    NodeLines(Visualization.Nodes(people, distances)) + [""]
    + EdgeLines(FirstSeen(Visualization.Links(relationships, distances)))
  }

  lemma {:induction false} DotLinesShape(people: seq<Person>, distances: DistanceMap, relationships: seq<Relationship>)
    ensures DotLines(people, distances, relationships) == Header + DotBody(people, distances, relationships) + ["}"]
  {
  }

  /** The output opens with the four header lines and closes with a line holding `}`. */
  lemma {:induction false} DotFraming(people: seq<Person>, distances: DistanceMap, relationships: seq<Relationship>)
    ensures var dot := Join(DotLines(people, distances, relationships), "\n");
      |dot| >= |HeaderText| + 1 && dot[..|HeaderText|] == HeaderText && dot[|dot| - 2..] == "\n}"
  {
    var body := DotBody(people, distances, relationships);
    DotLinesShape(people, distances, relationships);
    JoinFraming(Header, body, "}");
  }

  predicate NoNewline(s: string)
  {
    '\n' !in s
  }

  predicate AllNoNewline(lines: seq<string>)
  {
    forall i :: 0 <= i < |lines| ==> NoNewline(lines[i])
  }

  lemma {:induction false} AllNoNewlineAppend(a: seq<string>, b: seq<string>)
    requires AllNoNewline(a) && AllNoNewline(b)
    ensures AllNoNewline(a + b)
  {
    forall i | |a| <= i < |a + b|
      ensures NoNewline((a + b)[i])
    {
      assert (a + b)[i] == b[i - |a|];
    }
  }

  lemma {:induction false} IntToStringNoNewline(i: int)
    ensures NoNewline(IntToString(i))
  {
    var s := IntToString(i);
    if i < 0 {
      assert s == "-" + NatToString(-i);
      assert forall k :: 1 <= k < |s| ==> s[k] == NatToString(-i)[k - 1];
    }
  }

  lemma {:induction false} HeaderNoNewline()
    ensures AllNoNewline(Header)
  {
  }

  lemma {:induction false} NodeStyleNoNewline(distance: int)
    ensures NoNewline(NodeStyle(distance))
  {
  }

  lemma {:induction false} NodeLabelTextNoNewline(name: string, distance: int)
    requires NoNewline(name)
    ensures NoNewline(NodeLabelText(name, distance))
  {
    IntToStringNoNewline(distance);
  }

  lemma {:induction false} NodeLineNoNewline(n: GraphNode)
    requires NoNewline(n.id) && NoNewline(n.name)
    ensures NoNewline(NodeLine(n))
  {
    NodeStyleNoNewline(n.distance);
    NodeLabelTextNoNewline(n.name, n.distance);
  }

  lemma {:induction false} NodeLinesNoNewline(people: seq<Person>, distances: DistanceMap)
    requires forall p :: p in people ==> NoNewline(p.id) && NoNewline(p.name)
    ensures AllNoNewline(NodeLines(Visualization.Nodes(people, distances)))
  {
    var nodes := Visualization.Nodes(people, distances);
    Visualization.NodesSound(people, distances);
    NodeLinesAt(nodes);
    forall k | 0 <= k < |nodes|
      ensures NoNewline(NodeLines(nodes)[k])
    {
      assert Person(nodes[k].id, nodes[k].name) in people;
      NodeLineNoNewline(nodes[k]);
    }
  }

  lemma {:induction false} EdgeLinesNoNewline(relationships: seq<Relationship>, distances: DistanceMap)
    requires forall r :: r in relationships ==> NoNewline(r.from) && NoNewline(r.to)
    ensures AllNoNewline(EdgeLines(FirstSeen(Visualization.Links(relationships, distances))))
  {
    var links := FirstSeen(Visualization.Links(relationships, distances));
    Visualization.LinksSound(relationships, distances);
    FirstSeenSound(Visualization.Links(relationships, distances));
    EdgeLinesAt(links);
    forall k | 0 <= k < |links|
      ensures NoNewline(EdgeLines(links)[k])
    {
      assert Relationship(links[k].source, links[k].target) in relationships;
    }
  }

  /**
   When no id or name holds a newline, splitting the output on newlines gives
   back exactly the header, node, separator, edge and closing lines.
   */
  lemma {:induction false} DotLinesRecoverable(people: seq<Person>, distances: DistanceMap, relationships: seq<Relationship>)
    requires forall p :: p in people ==> NoNewline(p.id) && NoNewline(p.name)
    requires forall r :: r in relationships ==> NoNewline(r.from) && NoNewline(r.to)
    ensures Split(Join(DotLines(people, distances, relationships), "\n"), '\n') == DotLines(people, distances, relationships)
  {
    var h := Header;
    var nodeLines := NodeLines(Visualization.Nodes(people, distances));
    var edgeLines := EdgeLines(FirstSeen(Visualization.Links(relationships, distances)));
    var lines := DotLines(people, distances, relationships);
    assert lines == h + nodeLines + [""] + edgeLines + ["}"];
    HeaderNoNewline();
    NodeLinesNoNewline(people, distances);
    EdgeLinesNoNewline(relationships, distances);
    AllNoNewlineAppend(h, nodeLines);
    AllNoNewlineAppend(h + nodeLines, [""]);
    AllNoNewlineAppend(h + nodeLines + [""], edgeLines);
    AllNoNewlineAppend(h + nodeLines + [""] + edgeLines, ["}"]);
    SplitJoin(lines, '\n');
  }

  // ---------------------------------------------------------------------------
  // Colour and label lookups of the interactive view
  // ---------------------------------------------------------------------------

  /** `getNodeColor`: a fill colour per distance, gray outside 0..2. */
  function NodeColor(distance: int): (color: string)
    ensures color == "gray" <==> !(0 <= distance <= 2)
  {
    if distance == 0 then "lightblue"
    else if distance == 1 then "yellow"
    else if distance == 2 then "red"
    else "gray"
  }

  /** `getNodeLabel`: `INDEX`, the D2 alert, or `D<n>`. */
  function NodeLabel(distance: int): (caption: string)
    ensures |caption| >= 2
    ensures caption[0] == 'D' <==> distance != 0 && distance != 2
  {
    if distance == 0 then "INDEX"
    else if distance == 2 then Warning + " D2 ALERT"
    else "D" + IntToString(distance)
  }

  /** On the levels 0..2 the DOT export fills a node with the view's colour; other distances get no DOT style. */
  lemma {:induction false} NodeColorMatchesDotStyle(distance: int)
    ensures 0 <= distance <= 2 ==> "fillcolor=" + NodeColor(distance) <= NodeStyle(distance)
    ensures !(0 <= distance <= 2) ==> NodeStyle(distance) == ""
  {
  }

  /** Different distances get different labels. */
  lemma {:induction false} NodeLabelInjective(d1: int, d2: int)
    requires NodeLabel(d1) == NodeLabel(d2)
    ensures d1 == d2
  {
    var l := NodeLabel(d1);
    if d1 != 0 && d1 != 2 && d2 != 0 && d2 != 2 {
      assert l[1..] == IntToString(d1);
      assert l[1..] == IntToString(d2);
      IntToStringInjective(d1, d2);
    } else {
      assert NodeLabel(0)[0] == 'I';
      assert NodeLabel(2)[0] == '\U{26A0}';
    }
  }

  /** Except at distance 2, the DOT label is the name followed by the view's label in parentheses. */
  lemma {:induction false} NodeLabelMatchesDotLabel(name: string, distance: int)
    requires distance != 2
    ensures NodeLabelText(name, distance) == name + " (" + NodeLabel(distance) + ")"
  {
  }
}
