/**
 The visualization projector: the people and relationships that fall inside a
 distance map, as render-ready nodes and links. Relationships are not
 deduplicated here.
 */
module Visualization {
  import opened NetworkTypes
  import Distances

  /** The node for a person that has a recorded distance. */
  function NodeOf(p: Person, distances: DistanceMap): GraphNode
    requires p.id in distances
  {
    GraphNode(p.id, p.name, distances[p.id], distances[p.id] == 2)
  }

  /** The people whose id is a key of `distances`, in input order, as nodes. */
  function Nodes(people: seq<Person>, distances: DistanceMap): seq<GraphNode>
  {
    if people == [] then []
    else
      (if people[0].id in distances then [NodeOf(people[0], distances)] else [])
      + Nodes(people[1..], distances)
  }

  /** A relationship is drawn when both of its ends have a recorded distance. */
  predicate LinkKept(r: Relationship, distances: DistanceMap)
  {
    r.from in distances && r.to in distances
  }

  /** The relationships with both ends in `distances`, in input order and with repeats, as links. */
  function Links(relationships: seq<Relationship>, distances: DistanceMap): seq<GraphLink>
  {
    if relationships == [] then []
    else
      (if LinkKept(relationships[0], distances)
       then [GraphLink(relationships[0].from, relationships[0].to)] else [])
      + Links(relationships[1..], distances)
  }

  function PersonIds(people: seq<Person>): set<string>
  {
    set i | 0 <= i < |people| :: people[i].id
  }

  function NodeIds(nodes: seq<GraphNode>): set<string>
  {
    set i | 0 <= i < |nodes| :: nodes[i].id
  }

  /** Every node comes from a person with a recorded distance, carries that distance, and is critical exactly at 2. */
  lemma {:induction false} NodesSound(people: seq<Person>, distances: DistanceMap)
    ensures forall n :: n in Nodes(people, distances) ==>
      && Person(n.id, n.name) in people
      && n.id in distances && n.distance == distances[n.id]
      && (n.isCritical <==> n.distance == 2)
    decreases |people|
  {
    if people != [] {
      NodesSound(people[1..], distances);
      forall n | n in Nodes(people[1..], distances)
        ensures Person(n.id, n.name) in people
      {
        assert Person(n.id, n.name) in people[1..];
      }
    }
  }

  /** Every person with a recorded distance gets its node. */
  lemma {:induction false} NodesComplete(people: seq<Person>, distances: DistanceMap)
    ensures forall i :: 0 <= i < |people| && people[i].id in distances ==>
      NodeOf(people[i], distances) in Nodes(people, distances)
    decreases |people|
  {
    if people != [] {
      NodesComplete(people[1..], distances);
      forall i | 1 <= i < |people| && people[i].id in distances
        ensures NodeOf(people[i], distances) in Nodes(people, distances)
      {
        assert people[1..][i - 1] == people[i];
      }
    }
  }

  /** Projection distributes over concatenation, so the input order is kept. */
  lemma {:induction false} NodesAppend(a: seq<Person>, b: seq<Person>, distances: DistanceMap)
    ensures Nodes(a + b, distances) == Nodes(a, distances) + Nodes(b, distances)
    decreases |a|
  {
    if a != [] {
      assert (a + b)[0] == a[0];
      assert (a + b)[1..] == a[1..] + b;
      NodesAppend(a[1..], b, distances);
    } else {
      assert a + b == b;
    }
  }

  /** Every link is a relationship with both ends recorded. */
  lemma {:induction false} LinksSound(relationships: seq<Relationship>, distances: DistanceMap)
    ensures forall l :: l in Links(relationships, distances) ==>
      && Relationship(l.source, l.target) in relationships
      && l.source in distances && l.target in distances
    decreases |relationships|
  {
    if relationships != [] {
      LinksSound(relationships[1..], distances);
      forall l | l in Links(relationships[1..], distances)
        ensures Relationship(l.source, l.target) in relationships
      {
        assert Relationship(l.source, l.target) in relationships[1..];
      }
    }
  }

  /** Every relationship with both ends recorded becomes a link. */
  lemma {:induction false} LinksComplete(relationships: seq<Relationship>, distances: DistanceMap)
    ensures forall i :: 0 <= i < |relationships| && LinkKept(relationships[i], distances) ==>
      GraphLink(relationships[i].from, relationships[i].to) in Links(relationships, distances)
    decreases |relationships|
  {
    if relationships != [] {
      LinksComplete(relationships[1..], distances);
      forall i | 1 <= i < |relationships| && LinkKept(relationships[i], distances)
        ensures GraphLink(relationships[i].from, relationships[i].to) in Links(relationships, distances)
      {
        assert relationships[1..][i - 1] == relationships[i];
      }
    }
  }

  /** Link projection distributes over concatenation: order is kept and repeats are not merged. */
  lemma {:induction false} LinksAppend(a: seq<Relationship>, b: seq<Relationship>, distances: DistanceMap)
    ensures Links(a + b, distances) == Links(a, distances) + Links(b, distances)
    decreases |a|
  {
    if a != [] {
      assert (a + b)[0] == a[0];
      assert (a + b)[1..] == a[1..] + b;
      LinksAppend(a[1..], b, distances);
    } else {
      assert a + b == b;
    }
  }

  /** A relationship stored twice yields two identical links. */
  lemma {:induction false} DuplicateRelationshipKept(r: Relationship, distances: DistanceMap)
    requires LinkKept(r, distances)
    ensures Links([r, r], distances) == [GraphLink(r.from, r.to), GraphLink(r.from, r.to)]
  {
    assert [r, r][1..] == [r];
    assert [r][1..] == [];
    assert Links([r], distances) == [GraphLink(r.from, r.to)] + Links([], distances);
  }

  /** `prepareVisualizationData`: the reached people as nodes and the relationships among them as links. */
  function PrepareVisualizationData(people: seq<Person>, relationships: seq<Relationship>,
                                    distances: DistanceMap): (data: VisualizationData)
    ensures forall n :: n in data.nodes ==>
      n.id in distances && n.distance == distances[n.id] && (n.isCritical <==> n.distance == 2)
    ensures forall l :: l in data.links ==> l.source in distances && l.target in distances
  {
    NodesSound(people, distances);
    LinksSound(relationships, distances);
    VisualizationData(Nodes(people, distances), Links(relationships, distances))
  }

  /**
   When every relationship names people of the network, every link joins two
   nodes of the same projection.
   */
  lemma {:induction false} LinksJoinNodes(people: seq<Person>, relationships: seq<Relationship>, distances: DistanceMap)
    requires forall i :: 0 <= i < |relationships| ==>
      relationships[i].from in PersonIds(people) && relationships[i].to in PersonIds(people)
    ensures var data := PrepareVisualizationData(people, relationships, distances);
      forall l :: l in data.links ==> l.source in NodeIds(data.nodes) && l.target in NodeIds(data.nodes)
  {
    var nodes := Nodes(people, distances);
    LinksSound(relationships, distances);
    NodesComplete(people, distances);
    forall x | x in PersonIds(people) && x in distances
      ensures x in NodeIds(nodes)
    {
      var i :| 0 <= i < |people| && people[i].id == x;
      var k :| 0 <= k < |nodes| && nodes[k] == NodeOf(people[i], distances);
    }
    forall l | l in Links(relationships, distances)
      ensures l.source in PersonIds(people) && l.target in PersonIds(people)
    {
      var i :| 0 <= i < |relationships| && relationships[i] == Relationship(l.source, l.target);
    }
  }

  /**
   Projected after the search, the nodes are exactly the people at most two
   hops from the index person, and a node is critical exactly when it is two
   hops away.
   */
  lemma {:induction false} ProjectionOfSearch(people: seq<Person>, relationships: seq<Relationship>, startId: string)
    ensures var m := Distances.BoundedDistances(startId, relationships);
      var data := PrepareVisualizationData(people, relationships, m);
      && (forall i :: 0 <= i < |people| && people[i].id in Distances.Within(startId, relationships, 2) ==>
            NodeOf(people[i], m) in data.nodes)
      && (forall n :: n in data.nodes ==>
            n.id in Distances.Within(startId, relationships, 2) && 0 <= n.distance <= 2 &&
            (n.isCritical <==> n.id !in Distances.Within(startId, relationships, 1)))
  {
    var m := Distances.BoundedDistances(startId, relationships);
    NodesSound(people, m);
    NodesComplete(people, m);
    forall i | 0 <= i < |people| && people[i].id in Distances.Within(startId, relationships, 2)
      ensures people[i].id in m
    {
      Distances.BoundedDistancesLevels(startId, relationships, people[i].id);
    }
    forall n | n in Nodes(people, m)
      ensures n.id in Distances.Within(startId, relationships, 2)
      ensures n.isCritical <==> n.id !in Distances.Within(startId, relationships, 1)
    {
      Distances.BoundedDistancesLevels(startId, relationships, n.id);
    }
  }

  /**
   The search follows relationships without consulting the people, so an id
   no person carries can be reached; its relationships are then projected as
   links although it gets no node.
   */
  lemma {:induction false} DanglingEndpointLinked()
    ensures var people := [Person("A", "Ann")];
      var rels := [Relationship("A", "X")];
      var data := PrepareVisualizationData(people, rels, Distances.BoundedDistances("A", rels));
      data.links == [GraphLink("A", "X")] && "X" !in NodeIds(data.nodes)
  {
    var people := [Person("A", "Ann")];
    var rels := [Relationship("A", "X")];
    assert Distances.Expand(rels, {"A"}) == {"X"};
    assert Distances.Within("A", rels, 1) == {"A", "X"};
    assert Distances.Expand(rels, {"A", "X"}) == {"A", "X"};
    var m := Distances.BoundedDistances("A", rels);
    assert "X" in m;
    assert people[1..] == [] && rels[1..] == [];
    assert Nodes(people, m) == [NodeOf(people[0], m)];
  }
}
