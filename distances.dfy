/**
 The distance engine: hop distances from the index person over undirected
 relationships, recorded only up to 2 hops.

 `BoundedDistances` is the reference meaning (layered reachability);
 `CalculateDistances` is the breadth-first search the service runs, with its
 FIFO queue, visited set and distance map, proved equal to it.
 */
module Distances {
  import opened NetworkTypes

  /** An entry of the BFS queue. */
  datatype QueueEntry = QueueEntry(id: string, distance: int)

  /**
   The ids one hop from some member of `s`. A relationship is followed from
   either end; an empty id is never reached, because the search tests the id
   it found for truthiness.
   */
  function Expand(relationships: seq<Relationship>, s: set<string>): set<string>
  {
    (set i | 0 <= i < |relationships| && relationships[i].from in s && relationships[i].to != "" :: relationships[i].to)
    + (set i | 0 <= i < |relationships| && relationships[i].to in s && relationships[i].from != "" :: relationships[i].from)
  }

  /** The ids one hop from `a`. */
  function Neighbours(relationships: seq<Relationship>, a: string): set<string>
  {
    Expand(relationships, {a})
  }

  /** The ids at most `k` hops from `startId`. */
  function Within(startId: string, relationships: seq<Relationship>, k: nat): set<string>
  {
    if k == 0 then {startId}
    else
      var w := Within(startId, relationships, k - 1);
      w + Expand(relationships, w)
  }

  /**
   The distance map the search must produce: every id at most 2 hops from
   `startId`, with its least number of hops.
   */
  function BoundedDistances(startId: string, relationships: seq<Relationship>): (m: DistanceMap)
    ensures startId in m && m[startId] == 0
    ensures forall b :: b in m ==> 0 <= m[b] <= 2
  {
    var w1 := Within(startId, relationships, 1);
    var w2 := Within(startId, relationships, 2);
    assert Within(startId, relationships, 0) == {startId};
    assert startId in w1 && w1 <= w2;
    map b | b in w2 :: if b == startId then 0 else if b in w1 then 1 else 2
  }

  /** The start and every endpoint of a relationship. */
  function Endpoints(startId: string, relationships: seq<Relationship>): set<string>
  {
    {startId}
    + (set i | 0 <= i < |relationships| :: relationships[i].from)
    + (set i | 0 <= i < |relationships| :: relationships[i].to)
  }

  function QueueIds(queue: seq<QueueEntry>): set<string>
  {
    set i | 0 <= i < |queue| :: queue[i].id
  }

  // ---------------------------------------------------------------------------
  // Facts about the reference definition
  // ---------------------------------------------------------------------------

  lemma {:induction false} ExpandWitness(relationships: seq<Relationship>, s: set<string>, b: string) returns (a: string)
    requires b in Expand(relationships, s)
    ensures a in s && b in Neighbours(relationships, a)
  {
    var i :| 0 <= i < |relationships| &&
      ((relationships[i].from in s && relationships[i].to != "" && relationships[i].to == b) ||
       (relationships[i].to in s && relationships[i].from != "" && relationships[i].from == b));
    if relationships[i].from in s && relationships[i].to == b && b != "" {
      a := relationships[i].from;
    } else {
      a := relationships[i].to;
    }
  }

  lemma {:induction false} ExpandIncludes(relationships: seq<Relationship>, s: set<string>, a: string)
    requires a in s
    ensures Neighbours(relationships, a) <= Expand(relationships, s)
  {
    forall b | b in Neighbours(relationships, a)
      ensures b in Expand(relationships, s)
    {
      var i :| 0 <= i < |relationships| &&
        ((relationships[i].from == a && relationships[i].to != "" && relationships[i].to == b) ||
         (relationships[i].to == a && relationships[i].from != "" && relationships[i].from == b));
    }
  }

  /** A relationship touching `a` gives `a` its other end as a neighbour, unless that end is empty. */
  lemma {:induction false} NeighbourByRelationship(relationships: seq<Relationship>, a: string, j: int)
    requires 0 <= j < |relationships|
    ensures relationships[j].from == a && relationships[j].to != "" ==> relationships[j].to in Neighbours(relationships, a)
    ensures relationships[j].to == a && relationships[j].from != "" ==> relationships[j].from in Neighbours(relationships, a)
  {
  }

  /** The layers 0, 1 and 2 of the reference map are the balls of radius 0, 1 and 2. */
  lemma {:induction false} BoundedDistancesLevels(startId: string, relationships: seq<Relationship>, b: string)
    ensures var m := BoundedDistances(startId, relationships);
      && (b in Within(startId, relationships, 0) <==> b in m && m[b] <= 0)
      && (b in Within(startId, relationships, 1) <==> b in m && m[b] <= 1)
      && (b in Within(startId, relationships, 2) <==> b in m && m[b] <= 2)
  {
    assert Within(startId, relationships, 0) == {startId};
    assert Within(startId, relationships, 0) <= Within(startId, relationships, 1);
    assert Within(startId, relationships, 1) <= Within(startId, relationships, 2);
  }

  /** Every recorded id is the start or the endpoint of some relationship. */
  lemma {:induction false} WithinEndpoints(startId: string, relationships: seq<Relationship>, k: nat)
    ensures Within(startId, relationships, k) <= Endpoints(startId, relationships)
  {
    if k > 0 {
      WithinEndpoints(startId, relationships, k - 1);
      var w := Within(startId, relationships, k - 1);
      forall b | b in Expand(relationships, w)
        ensures b in Endpoints(startId, relationships)
      {
        var i :| 0 <= i < |relationships| &&
          ((relationships[i].from in w && relationships[i].to != "" && relationships[i].to == b) ||
           (relationships[i].to in w && relationships[i].from != "" && relationships[i].from == b));
      }
    }
  }

  lemma {:induction false} BoundedDistancesKeys(startId: string, relationships: seq<Relationship>)
    ensures BoundedDistances(startId, relationships).Keys <= Endpoints(startId, relationships)
    ensures |BoundedDistances(startId, relationships)| <= |Endpoints(startId, relationships)|
  {
    WithinEndpoints(startId, relationships, 2);
    SubsetCardinality(BoundedDistances(startId, relationships).Keys, Endpoints(startId, relationships));
  }

  lemma {:induction false} SubsetCardinality<T>(a: set<T>, b: set<T>)
    requires a <= b
    ensures |a| <= |b|
    decreases |a|
  {
    if a != {} {
      var x :| x in a;
      SubsetCardinality(a - {x}, b - {x});
    }
  }

  /** With no relationship touching the index person, the map holds that person alone. */
  lemma {:induction false} IsolatedStart(startId: string, relationships: seq<Relationship>)
    requires forall i :: 0 <= i < |relationships| ==> relationships[i].from != startId && relationships[i].to != startId
    ensures BoundedDistances(startId, relationships) == map[startId := 0]
  {
    assert Expand(relationships, {startId}) == {};
    assert Within(startId, relationships, 1) == {startId};
    assert Within(startId, relationships, 2) == {startId};
  }

  /** The start is recorded at 0 and every value lies in 0..2. */
  ghost predicate StartAndRange(m: DistanceMap, startId: string)
  {
    && startId in m && m[startId] == 0
    && (forall b :: b in m ==> 0 <= m[b] <= 2)
  }

  /** A node below 2 has all its neighbours present, at most one hop further. */
  ghost predicate NeighboursClose(m: DistanceMap, relationships: seq<Relationship>)
  {
    forall a, b :: a in m && m[a] < 2 && b in Neighbours(relationships, a) ==> b in m && m[b] <= m[a] + 1
  }

  /** Every present node other than the start has a neighbour exactly one hop closer. */
  ghost predicate HasParent(m: DistanceMap, startId: string, relationships: seq<Relationship>)
  {
    forall b :: b in m && b != startId ==>
      exists a :: a in m && b in Neighbours(relationships, a) && m[a] == m[b] - 1
  }

  /** The local rules that characterise a breadth-first labelling capped at 2. */
  ghost predicate IsBfsLabelling(m: DistanceMap, startId: string, relationships: seq<Relationship>)
  {
    StartAndRange(m, startId) && NeighboursClose(m, relationships) && HasParent(m, startId, relationships)
  }

  lemma {:induction false} BoundedDistancesIsBfsLabelling(startId: string, relationships: seq<Relationship>)
    ensures IsBfsLabelling(BoundedDistances(startId, relationships), startId, relationships)
  {
    var m := BoundedDistances(startId, relationships);
    var w0, w1 := Within(startId, relationships, 0), Within(startId, relationships, 1);
    forall a, b | a in m && m[a] < 2 && b in Neighbours(relationships, a)
      ensures b in m && m[b] <= m[a] + 1
    {
      BoundedDistancesLevels(startId, relationships, a);
      BoundedDistancesLevels(startId, relationships, b);
      if m[a] == 0 {
        ExpandIncludes(relationships, w0, a);
      } else {
        ExpandIncludes(relationships, w1, a);
      }
    }
    forall b | b in m && b != startId
      ensures exists a :: a in m && b in Neighbours(relationships, a) && m[a] == m[b] - 1
    {
      BoundedDistancesLevels(startId, relationships, b);
      if b in w1 {
        var a := ExpandWitness(relationships, w0, b);
        BoundedDistancesLevels(startId, relationships, a);
      } else {
        var a := ExpandWitness(relationships, w1, b);
        BoundedDistancesLevels(startId, relationships, a);
        if a == startId {
          ExpandIncludes(relationships, w0, a);
          assert false;
        }
      }
    }
  }

  lemma {:induction false} LabellingContainsBallOne(m: DistanceMap, startId: string, relationships: seq<Relationship>)
    requires StartAndRange(m, startId) && NeighboursClose(m, relationships)
    ensures forall b :: b in Within(startId, relationships, 1) ==> b in m && m[b] <= 1
  {
    var w0 := Within(startId, relationships, 0);
    forall b | b in Within(startId, relationships, 1)
      ensures b in m && m[b] <= 1
    {
      if b != startId {
        var a := ExpandWitness(relationships, w0, b);
      }
    }
  }

  lemma {:induction false} LabellingContainsBalls(m: DistanceMap, startId: string, relationships: seq<Relationship>)
    requires StartAndRange(m, startId) && NeighboursClose(m, relationships)
    ensures forall b :: b in Within(startId, relationships, 1) ==> b in m && m[b] <= 1
    ensures Within(startId, relationships, 2) <= m.Keys
  {
    var w1 := Within(startId, relationships, 1);
    LabellingContainsBallOne(m, startId, relationships);
    forall b | b in Within(startId, relationships, 2)
      ensures b in m
    {
      if b !in w1 {
        assert b in Expand(relationships, w1);
        var a := ExpandWitness(relationships, w1, b);
        assert a in m && m[a] < 2;
      }
    }
  }

  lemma {:induction false} LabellingWithinBalls(m: DistanceMap, startId: string, relationships: seq<Relationship>)
    requires StartAndRange(m, startId) && HasParent(m, startId, relationships)
    ensures forall b :: b in m && m[b] == 0 ==> b == startId
    ensures forall b :: b in m && m[b] <= 1 ==> b in Within(startId, relationships, 1)
    ensures m.Keys <= Within(startId, relationships, 2)
  {
    var w0, w1 := Within(startId, relationships, 0), Within(startId, relationships, 1);
    forall b | b in m && m[b] <= 1
      ensures b in w1
    {
      if b != startId {
        var a :| a in m && b in Neighbours(relationships, a) && m[a] == m[b] - 1;
        ExpandIncludes(relationships, w0, a);
      }
    }
    forall b | b in m
      ensures b in Within(startId, relationships, 2)
    {
      if m[b] == 2 {
        var a :| a in m && b in Neighbours(relationships, a) && m[a] == 1;
        ExpandIncludes(relationships, w1, a);
      }
    }
  }

  /** Any map obeying the breadth-first rules is the reference map: the rules pin the distances down. */
  lemma {:induction false} BfsLabellingUnique(m: DistanceMap, startId: string, relationships: seq<Relationship>)
    requires IsBfsLabelling(m, startId, relationships)
    ensures m == BoundedDistances(startId, relationships)
  {
    var spec := BoundedDistances(startId, relationships);
    LabellingContainsBalls(m, startId, relationships);
    LabellingWithinBalls(m, startId, relationships);
    assert m.Keys == spec.Keys;
    forall b | b in m
      ensures m[b] == spec[b]
    {
      BoundedDistancesLevels(startId, relationships, b);
    }
  }

  function Flip(r: Relationship): Relationship
  {
    Relationship(r.to, r.from)
  }

  /** Every relationship of `r1` appears in `r2`, in one orientation or the other. */
  ghost predicate Covers(r1: seq<Relationship>, r2: seq<Relationship>)
  {
    forall i :: 0 <= i < |r1| ==> r1[i] in r2 || Flip(r1[i]) in r2
  }

  lemma {:induction false} ExpandCovered(r1: seq<Relationship>, r2: seq<Relationship>, s: set<string>)
    requires Covers(r1, r2)
    ensures Expand(r1, s) <= Expand(r2, s)
  {
    forall b | b in Expand(r1, s)
      ensures b in Expand(r2, s)
    {
      var i :| 0 <= i < |r1| &&
        ((r1[i].from in s && r1[i].to != "" && r1[i].to == b) ||
         (r1[i].to in s && r1[i].from != "" && r1[i].from == b));
      var j :| 0 <= j < |r2| && (r2[j] == r1[i] || r2[j] == Flip(r1[i]));
      assert b in Neighbours(r2, if r1[i].from == b then r1[i].to else r1[i].from);
    }
  }

  /** Covering each other both ways, the two lists expand a set of ids to the same set. */
  lemma {:induction false} ExpandSame(r1: seq<Relationship>, r2: seq<Relationship>, s: set<string>)
    requires Covers(r1, r2) && Covers(r2, r1)
    ensures Expand(r1, s) == Expand(r2, s)
  {
    ExpandCovered(r1, r2, s);
    ExpandCovered(r2, r1, s);
  }

  lemma {:induction false} WithinStep(startId: string, r1: seq<Relationship>, r2: seq<Relationship>, k: nat)
    requires k > 0 && Within(startId, r1, k - 1) == Within(startId, r2, k - 1)
    requires Expand(r1, Within(startId, r1, k - 1)) == Expand(r2, Within(startId, r1, k - 1))
    ensures Within(startId, r1, k) == Within(startId, r2, k)
  {
  }

  /**
   The distances depend only on the undirected edge set: reordering the
   relationships, repeating one, or storing an edge as (b, a) instead of
   (a, b) changes nothing.
   */
  lemma {:induction false} SameEdgesSameDistances(startId: string, r1: seq<Relationship>, r2: seq<Relationship>)
    requires Covers(r1, r2) && Covers(r2, r1)
    ensures BoundedDistances(startId, r1) == BoundedDistances(startId, r2)
  {
    ExpandSame(r1, r2, Within(startId, r1, 0));
    WithinStep(startId, r1, r2, 1);
    ExpandSame(r1, r2, Within(startId, r1, 1));
    WithinStep(startId, r1, r2, 2);
  }

  /** Storing one relationship the other way round leaves the distances unchanged. */
  lemma {:induction false} FlipOneRelationship(startId: string, relationships: seq<Relationship>, i: int)
    requires 0 <= i < |relationships|
    ensures BoundedDistances(startId, relationships[i := Flip(relationships[i])]) == BoundedDistances(startId, relationships)
  {
    var flipped := relationships[i := Flip(relationships[i])];
    assert forall j :: 0 <= j < |relationships| ==> flipped[j] == relationships[j] || flipped[j] == Flip(relationships[j]);
    assert forall j :: 0 <= j < |relationships| ==> relationships[j] == flipped[j] || relationships[j] == Flip(flipped[j]);
    SameEdgesSameDistances(startId, flipped, relationships);
  }

  /** On the chain A - B - C - D the map stops at C: D, three hops away, is left out. */
  lemma {:induction false} ChainCutoff()
    ensures var rels := [Relationship("A", "B"), Relationship("B", "C"), Relationship("C", "D")];
      BoundedDistances("A", rels) == map["A" := 0, "B" := 1, "C" := 2]
  {
    var rels := [Relationship("A", "B"), Relationship("B", "C"), Relationship("C", "D")];
    assert rels[0].to == "B" && rels[1].to == "C";
    assert Expand(rels, {"A"}) == {"B"};
    assert Within("A", rels, 1) == {"A", "B"};
    assert Expand(rels, {"A", "B"}) == {"A", "B", "C"};
    assert Within("A", rels, 2) == {"A", "B", "C"};
  }

  // ---------------------------------------------------------------------------
  // The search
  // ---------------------------------------------------------------------------

  lemma {:induction false} QueueIdsSingleton(e: QueueEntry)
    ensures QueueIds([e]) == {e.id}
  {
    assert [e][0] == e;
  }

  lemma {:induction false} QueueIdsAppend(queue: seq<QueueEntry>, e: QueueEntry)
    ensures QueueIds(queue + [e]) == QueueIds(queue) + {e.id}
  {
    var q := queue + [e];
    forall x | x in QueueIds(queue)
      ensures x in QueueIds(q)
    {
      var i :| 0 <= i < |queue| && queue[i].id == x;
      assert q[i] == queue[i];
    }
    assert q[|queue|] == e;
  }

  lemma {:induction false} QueueIdsTail(queue: seq<QueueEntry>)
    requires |queue| > 0
    ensures QueueIds(queue) == {queue[0].id} + QueueIds(queue[1..])
  {
    var t := queue[1..];
    forall x | x in QueueIds(t)
      ensures x in QueueIds(queue)
    {
      var i :| 0 <= i < |t| && t[i].id == x;
      assert queue[i + 1] == t[i];
    }
    forall x | x in QueueIds(queue) && x != queue[0].id
      ensures x in QueueIds(t)
    {
      var i :| 0 <= i < |queue| && queue[i].id == x;
      assert t[i - 1] == queue[i];
    }
  }

  /** The ids one relationship offers to `a`: its other end, unless that end is empty. */
  function Offers(rel: Relationship, a: string): set<string>
  {
    (if rel.from == a && rel.to != "" then {rel.to} else {})
    + (if rel.to == a && rel.from != "" then {rel.from} else {})
  }

  /** Scanning one more relationship adds exactly what it offers to the neighbours found so far. */
  lemma {:induction false} NeighboursPrefix(relationships: seq<Relationship>, a: string, j: int)
    requires 0 <= j < |relationships|
    ensures Neighbours(relationships[..j + 1], a) == Neighbours(relationships[..j], a) + Offers(relationships[j], a)
  {
    NeighboursPrefixWithin(relationships, a, j);
    NeighboursPrefixGrows(relationships, a, j);
  }

  lemma {:induction false} NeighboursPrefixWithin(relationships: seq<Relationship>, a: string, j: int)
    requires 0 <= j < |relationships|
    ensures Neighbours(relationships[..j + 1], a) <= Neighbours(relationships[..j], a) + Offers(relationships[j], a)
  {
    var p, q := relationships[..j], relationships[..j + 1];
    forall b | b in Neighbours(q, a)
      ensures b in Neighbours(p, a) + Offers(relationships[j], a)
    {
      var i :| 0 <= i < |q| &&
        ((q[i].from in {a} && q[i].to != "" && q[i].to == b) ||
         (q[i].to in {a} && q[i].from != "" && q[i].from == b));
      if i < j {
        assert p[i] == q[i];
      }
    }
  }

  lemma {:induction false} NeighboursPrefixGrows(relationships: seq<Relationship>, a: string, j: int)
    requires 0 <= j < |relationships|
    ensures Neighbours(relationships[..j], a) + Offers(relationships[j], a) <= Neighbours(relationships[..j + 1], a)
  {
    var p, q := relationships[..j], relationships[..j + 1];
    forall b | b in Neighbours(p, a)
      ensures b in Neighbours(q, a)
    {
      var i :| 0 <= i < |p| &&
        ((p[i].from in {a} && p[i].to != "" && p[i].to == b) ||
         (p[i].to in {a} && p[i].from != "" && p[i].from == b));
      assert q[i] == p[i];
    }
    assert q[j] == relationships[j];
  }

  /**
   The effect of one relationship on the ids found while `currentId` is
   scanned: the id `NextId` offers, when it is truthy, is the one new id the
   relationship contributes; otherwise the relationship contributes none.
   */
  lemma {:induction false} NextIdOffers(rel: Relationship, currentId: string, visited0: set<string>, found: set<string>)
    requires currentId in visited0
    ensures var n := NextId(rel, currentId, visited0 + found);
      if n.Some? && n.value != "" then n.value !in visited0 + found && Offers(rel, currentId) - visited0 == {n.value}
      else Offers(rel, currentId) - visited0 <= found
  {
  }

  /** Pushing onto the queue leaves the old prefix alone and extends the pushed part by one entry. */
  lemma {:induction false} QueueSuffixPush(queue: seq<QueueEntry>, k: int, e: QueueEntry)
    requires 0 <= k <= |queue|
    ensures (queue + [e])[..k] == queue[..k]
    ensures QueueIds((queue + [e])[k..]) == QueueIds(queue[k..]) + {e.id}
  {
    assert (queue + [e])[k..] == queue[k..] + [e];
    QueueIdsAppend(queue[k..], e);
  }

  /** Once every relationship has been scanned for `a`, all of its neighbours are recorded. */
  lemma {:induction false} ScannedAll(relationships: seq<Relationship>, a: string, keys: set<string>)
    requires forall i :: 0 <= i < |relationships| ==>
      (relationships[i].from == a && relationships[i].to != "" ==> relationships[i].to in keys) &&
      (relationships[i].to == a && relationships[i].from != "" ==> relationships[i].from in keys)
    ensures Neighbours(relationships, a) <= keys
  {
    forall b | b in Neighbours(relationships, a)
      ensures b in keys
    {
      var i :| 0 <= i < |relationships| &&
        ((relationships[i].from in {a} && relationships[i].to != "" && relationships[i].to == b) ||
         (relationships[i].to in {a} && relationships[i].from != "" && relationships[i].from == b));
    }
  }

  /** Recorded distances agree with the reference map. */
  ghost predicate Sound(startId: string, relationships: seq<Relationship>, distances: DistanceMap)
  {
    var spec := BoundedDistances(startId, relationships);
    forall b :: b in distances ==> b in spec && distances[b] == spec[b]
  }

  /**
   Queue entries are recorded with their distance, in non-decreasing order of
   distance, all within `level` and `level + 1`.
   */
  ghost predicate QueueOrdered(queue: seq<QueueEntry>, distances: DistanceMap, level: int)
  {
    && (forall i :: 0 <= i < |queue| ==>
          queue[i].id in distances && distances[queue[i].id] == queue[i].distance &&
          level <= queue[i].distance <= level + 1)
    && (forall i, j :: 0 <= i < j < |queue| ==> queue[i].distance <= queue[j].distance)
  }

  /** Every recorded id below distance 2 that is not `pending` has all its neighbours recorded. */
  ghost predicate ClosedExcept(relationships: seq<Relationship>, distances: DistanceMap, pending: set<string>)
  {
    forall a :: a in distances && distances[a] < 2 && a !in pending ==>
      Neighbours(relationships, a) <= distances.Keys
  }

  /**
   What holds between two dequeues: `visited` is the key set of `distances`,
   every recorded distance is the reference one, the queue is ordered, ids
   already expanded have their neighbours recorded (except those in `pending`,
   dequeued but still being scanned), and everything closer than `level` has
   left the queue.
   */
  ghost predicate SearchState(startId: string, relationships: seq<Relationship>, ids: set<string>,
                              distances: DistanceMap, visited: set<string>, queue: seq<QueueEntry>,
                              level: int, pending: set<string>)
  {
    && visited == distances.Keys && visited <= ids
    && startId in distances && Sound(startId, relationships, distances)
    && 0 <= level <= 2 && QueueOrdered(queue, distances, level)
    && ClosedExcept(relationships, distances, QueueIds(queue) + pending)
    && (level >= 1 ==> Within(startId, relationships, level - 1) <= distances.Keys - QueueIds(queue))
  }

  /** `current` was dequeued below distance 2 and the first `j` relationships have been scanned for it. */
  ghost predicate Scanning(startId: string, relationships: seq<Relationship>, ids: set<string>,
                           distances: DistanceMap, visited: set<string>, queue: seq<QueueEntry>,
                           current: QueueEntry, j: int)
  {
    && 0 <= j <= |relationships|
    && SearchState(startId, relationships, ids, distances, visited, queue, current.distance, {current.id})
    && current.id in distances && distances[current.id] == current.distance && current.distance < 2
    && forall i :: 0 <= i < j ==>
         (relationships[i].from == current.id && relationships[i].to != "" ==> relationships[i].to in distances) &&
         (relationships[i].to == current.id && relationships[i].from != "" ==> relationships[i].from in distances)
  }

  /** The id one relationship offers while `currentId` is being expanded (`null` as `None`). */
  function NextId(rel: Relationship, currentId: string, visited: set<string>): Option<string>
  {
    if rel.from == currentId && rel.to !in visited then Some(rel.to)
    else if rel.to == currentId && rel.from !in visited then Some(rel.from)
    else None
  }

  lemma {:induction false} NewDistance(startId: string, relationships: seq<Relationship>, distances: DistanceMap,
                    current: QueueEntry, j: int, nextId: string)
    requires startId in distances && Sound(startId, relationships, distances)
    requires current.id in distances && distances[current.id] == current.distance && 0 <= current.distance < 2
    requires 0 <= j < |relationships| && nextId != "" && nextId !in distances
    requires (relationships[j].from == current.id && relationships[j].to == nextId) ||
             (relationships[j].to == current.id && relationships[j].from == nextId)
    requires current.distance == 1 ==> Neighbours(relationships, startId) <= distances.Keys
    ensures var spec := BoundedDistances(startId, relationships);
      nextId in spec && spec[nextId] == current.distance + 1
  {
    var w := Within(startId, relationships, current.distance);
    BoundedDistancesLevels(startId, relationships, current.id);
    BoundedDistancesLevels(startId, relationships, nextId);
    NeighbourByRelationship(relationships, current.id, j);
    ExpandIncludes(relationships, w, current.id);
    assert nextId in Within(startId, relationships, current.distance + 1);
  }

  lemma {:induction false} AdvanceLevel(startId: string, relationships: seq<Relationship>, distances: DistanceMap,
                     queue: seq<QueueEntry>, level: int)
    requires 0 <= level < 2
    requires startId in distances && Sound(startId, relationships, distances)
    requires QueueOrdered(queue, distances, level) && |queue| > 0 && queue[0].distance == level + 1
    requires ClosedExcept(relationships, distances, QueueIds(queue))
    requires level >= 1 ==> Within(startId, relationships, level - 1) <= distances.Keys - QueueIds(queue)
    ensures Within(startId, relationships, level) <= distances.Keys - QueueIds(queue)
  {
    var w := Within(startId, relationships, level);
    forall b | b in w
      ensures b in distances && b !in QueueIds(queue)
    {
      BoundedDistancesLevels(startId, relationships, b);
      if b != startId {
        assert Within(startId, relationships, 0) == {startId};
        assert b in Neighbours(relationships, startId);
      }
      assert b in distances && distances[b] <= level;
    }
  }

  lemma {:induction false} SearchStarts(startId: string, relationships: seq<Relationship>)
    ensures SearchState(startId, relationships, Endpoints(startId, relationships),
                        map[startId := 0], {startId}, [QueueEntry(startId, 0)], 0, {})
  {
    QueueIdsSingleton(QueueEntry(startId, 0));
  }

  lemma {:induction false} Dequeue(startId: string, relationships: seq<Relationship>, ids: set<string>,
                distances: DistanceMap, visited: set<string>, queue: seq<QueueEntry>, level: int)
    requires SearchState(startId, relationships, ids, distances, visited, queue, level, {}) && |queue| > 0
    ensures queue[0].id in distances && distances[queue[0].id] == queue[0].distance
    ensures SearchState(startId, relationships, ids, distances, visited, queue[1..], queue[0].distance, {queue[0].id})
    ensures queue[0].distance >= 2 ==>
      SearchState(startId, relationships, ids, distances, visited, queue[1..], queue[0].distance, {})
  {
    var current := queue[0];
    QueueIdsTail(queue);
    if current.distance > level {
      AdvanceLevel(startId, relationships, distances, queue, level);
    }
    assert QueueOrdered(queue[1..], distances, current.distance);
  }

  lemma {:induction false} SoundExtend(startId: string, relationships: seq<Relationship>, distances: DistanceMap, b: string, v: int)
    requires Sound(startId, relationships, distances)
    requires var spec := BoundedDistances(startId, relationships); b in spec && spec[b] == v
    ensures Sound(startId, relationships, distances[b := v])
  {
  }

  lemma {:induction false} QueueOrderedPush(queue: seq<QueueEntry>, distances: DistanceMap, level: int, b: string)
    requires QueueOrdered(queue, distances, level) && b !in distances
    ensures QueueOrdered(queue + [QueueEntry(b, level + 1)], distances[b := level + 1], level)
  {
    var q := queue + [QueueEntry(b, level + 1)];
    forall i | 0 <= i < |queue|
      ensures q[i] == queue[i] && q[i].id != b
    {
    }
  }

  lemma {:induction false} ClosedGrow(relationships: seq<Relationship>, distances: DistanceMap, pending: set<string>, b: string, v: int)
    requires ClosedExcept(relationships, distances, pending) && b !in distances
    ensures ClosedExcept(relationships, distances[b := v], pending + {b})
  {
  }

  /** While an entry at distance 1 is scanned, the start has already been expanded. */
  lemma {:induction false} StartExpanded(startId: string, relationships: seq<Relationship>, ids: set<string>,
                      distances: DistanceMap, visited: set<string>, queue: seq<QueueEntry>, current: QueueEntry, j: int)
    requires Scanning(startId, relationships, ids, distances, visited, queue, current, j)
    requires current.distance == 1
    ensures Neighbours(relationships, startId) <= distances.Keys
  {
    assert startId in Within(startId, relationships, 0);
    assert startId != current.id;
  }

  lemma {:induction false} NextIdIsEndpoint(startId: string, relationships: seq<Relationship>, current: QueueEntry,
                         visited: set<string>, j: int, next: string)
    requires 0 <= j < |relationships| && NextId(relationships[j], current.id, visited) == Some(next)
    ensures next in Endpoints(startId, relationships) && next !in visited
    ensures (relationships[j].from == current.id && relationships[j].to == next) ||
            (relationships[j].to == current.id && relationships[j].from == next)
  {
  }

  /** Recording and enqueuing a newly found id keeps the search invariant. */
  lemma {:induction false} DiscoverKeepsState(startId: string, relationships: seq<Relationship>, ids: set<string>,
                      distances: DistanceMap, visited: set<string>, queue: seq<QueueEntry>,
                      current: QueueEntry, j: int, next: string)
    requires ids == Endpoints(startId, relationships)
    requires Scanning(startId, relationships, ids, distances, visited, queue, current, j) && j < |relationships|
    requires NextId(relationships[j], current.id, visited) == Some(next) && next != ""
    ensures next in ids && next !in visited
    ensures SearchState(startId, relationships, ids, distances[next := current.distance + 1], visited + {next},
                        queue + [QueueEntry(next, current.distance + 1)], current.distance, {current.id})
  {
    var level := current.distance;
    var d := distances[next := level + 1];
    var q := queue + [QueueEntry(next, level + 1)];
    NextIdIsEndpoint(startId, relationships, current, visited, j, next);
    assert Sound(startId, relationships, d) by {
      if level == 1 {
        StartExpanded(startId, relationships, ids, distances, visited, queue, current, j);
      }
      NewDistance(startId, relationships, distances, current, j, next);
      SoundExtend(startId, relationships, distances, next, level + 1);
    }
    assert QueueOrdered(q, d, level) by {
      QueueOrderedPush(queue, distances, level, next);
    }
    QueueIdsAppend(queue, QueueEntry(next, level + 1));
    assert ClosedExcept(relationships, d, QueueIds(q) + {current.id}) by {
      ClosedGrow(relationships, distances, QueueIds(queue) + {current.id}, next, level + 1);
      assert QueueIds(q) + {current.id} == QueueIds(queue) + {current.id} + {next};
    }
    assert level >= 1 ==> Within(startId, relationships, level - 1) <= d.Keys - QueueIds(q);
  }

  lemma {:induction false} ScanDiscovers(startId: string, relationships: seq<Relationship>, ids: set<string>,
                      distances: DistanceMap, visited: set<string>, queue: seq<QueueEntry>,
                      current: QueueEntry, j: int, next: string)
    requires ids == Endpoints(startId, relationships)
    requires Scanning(startId, relationships, ids, distances, visited, queue, current, j) && j < |relationships|
    requires NextId(relationships[j], current.id, visited) == Some(next) && next != ""
    ensures next in ids && next !in visited
    ensures Scanning(startId, relationships, ids, distances[next := current.distance + 1], visited + {next},
                     queue + [QueueEntry(next, current.distance + 1)], current, j + 1)
  {
    DiscoverKeepsState(startId, relationships, ids, distances, visited, queue, current, j, next);
    NextIdIsEndpoint(startId, relationships, current, visited, j, next);
  }

  lemma {:induction false} ScanStarts(startId: string, relationships: seq<Relationship>, ids: set<string>,
                   distances: DistanceMap, visited: set<string>, queue: seq<QueueEntry>, current: QueueEntry)
    requires SearchState(startId, relationships, ids, distances, visited, queue, current.distance, {current.id})
    requires current.id in distances && distances[current.id] == current.distance < 2
    ensures Scanning(startId, relationships, ids, distances, visited, queue, current, 0)
  {
  }

  lemma {:induction false} ScanSkips(startId: string, relationships: seq<Relationship>, ids: set<string>,
                  distances: DistanceMap, visited: set<string>, queue: seq<QueueEntry>,
                  current: QueueEntry, j: int)
    requires Scanning(startId, relationships, ids, distances, visited, queue, current, j) && j < |relationships|
    requires NextId(relationships[j], current.id, visited) in {None, Some("")}
    ensures Scanning(startId, relationships, ids, distances, visited, queue, current, j + 1)
  {
  }

  lemma {:induction false} ScanEnds(startId: string, relationships: seq<Relationship>, ids: set<string>,
                 distances: DistanceMap, visited: set<string>, queue: seq<QueueEntry>, current: QueueEntry)
    requires Scanning(startId, relationships, ids, distances, visited, queue, current, |relationships|)
    ensures SearchState(startId, relationships, ids, distances, visited, queue, current.distance, {})
  {
    ScannedAll(relationships, current.id, distances.Keys);
  }

  lemma {:induction false} Complete(startId: string, relationships: seq<Relationship>, ids: set<string>,
                 distances: DistanceMap, visited: set<string>, level: int)
    requires SearchState(startId, relationships, ids, distances, visited, [], level, {})
    ensures distances == BoundedDistances(startId, relationships)
  {
    var spec := BoundedDistances(startId, relationships);
    var w0, w1 := Within(startId, relationships, 0), Within(startId, relationships, 1);
    assert QueueIds([]) == {};
    assert w0 == {startId};
    assert w1 <= distances.Keys;
    forall b | b in Within(startId, relationships, 2)
      ensures b in distances
    {
      if b !in w1 {
        var a := ExpandWitness(relationships, w1, b);
        BoundedDistancesLevels(startId, relationships, a);
      }
    }
    assert distances.Keys == spec.Keys;
  }

  lemma {:induction false} DifferenceShrinks(all: set<string>, visited: set<string>, x: string)
    requires x in all && x !in visited
    ensures |all - (visited + {x})| < |all - visited|
  {
    assert all - (visited + {x}) == (all - visited) - {x};
  }

  /**
   What the first `j` relationships of the scan for `current` have added to
   the state the scan started from: the unvisited neighbours found so far,
   recorded at `current.distance + 1` and pushed once each behind the old
   queue.
   */
  ghost predicate ScanEffect(current: QueueEntry, relationships: seq<Relationship>,
                             distances0: DistanceMap, visited0: set<string>, queue0: seq<QueueEntry>,
                             distances: DistanceMap, visited: set<string>, queue: seq<QueueEntry>, j: int)
  {
    && 0 <= j <= |relationships|
    && visited == visited0 + (Neighbours(relationships[..j], current.id) - visited0)
    && (forall b :: b in distances ==>
          distances[b] == if b in distances0 then distances0[b] else current.distance + 1)
    && queue0 <= queue
    && QueueIds(queue[|queue0|..]) == visited - visited0
    && (forall i :: |queue0| <= i < |queue| ==> queue[i].distance == current.distance + 1)
    && |queue| - |queue0| == |visited| - |visited0|
  }

  lemma {:induction false} ScanEffectStarts(current: QueueEntry, relationships: seq<Relationship>,
                                            distances0: DistanceMap, visited0: set<string>, queue0: seq<QueueEntry>)
    ensures ScanEffect(current, relationships, distances0, visited0, queue0, distances0, visited0, queue0, 0)
  {
    assert queue0[|queue0|..] == [];
    assert relationships[..0] == [];
  }

  /** The ids found after one more relationship, when it offers a truthy unvisited id. */
  lemma {:induction false} FoundGrows(current: QueueEntry, relationships: seq<Relationship>, visited0: set<string>,
                                      visited: set<string>, j: int, next: string)
    requires 0 <= j < |relationships| && current.id in visited0
    requires visited == visited0 + (Neighbours(relationships[..j], current.id) - visited0)
    requires NextId(relationships[j], current.id, visited) == Some(next) && next != ""
    ensures next !in visited
    ensures visited + {next} == visited0 + (Neighbours(relationships[..j + 1], current.id) - visited0)
  {
    NeighboursPrefix(relationships, current.id, j);
    assert visited0 + (visited - visited0) == visited;
    NextIdOffers(relationships[j], current.id, visited0, visited - visited0);
  }

  /** The pushed part of the queue after one more push. */
  lemma {:induction false} PushedGrows(queue0: seq<QueueEntry>, queue: seq<QueueEntry>, e: QueueEntry, ids: set<string>, v: int)
    requires |queue0| <= |queue| && queue[..|queue0|] == queue0 && QueueIds(queue[|queue0|..]) == ids
    requires forall i :: |queue0| <= i < |queue| ==> queue[i].distance == v
    requires e.distance == v
    ensures var q := queue + [e];
      && q[..|queue0|] == queue0 && QueueIds(q[|queue0|..]) == ids + {e.id}
      && (forall i :: |queue0| <= i < |q| ==> q[i].distance == v)
  {
    var q := queue + [e];
    QueueSuffixPush(queue, |queue0|, e);
    forall i | |queue0| <= i < |q|
      ensures q[i].distance == v
    {
      if i < |queue| {
        assert q[i] == queue[i];
      }
    }
  }

  /** Recording one more id absent from `distances0` keeps every old distance and puts the new id at `v`. */
  lemma {:induction false} RecordedGrows(distances0: DistanceMap, distances: DistanceMap, next: string, v: int)
    requires forall b :: b in distances ==> distances[b] == if b in distances0 then distances0[b] else v
    requires next !in distances0
    ensures forall b :: b in distances[next := v] ==>
      distances[next := v][b] == if b in distances0 then distances0[b] else v
  {
  }

  /** Recording and enqueuing the id `NextId` offers extends the effect by that id. */
  lemma {:induction false} ScanEffectDiscover(current: QueueEntry, relationships: seq<Relationship>,
                                              distances0: DistanceMap, visited0: set<string>, queue0: seq<QueueEntry>,
                                              distances: DistanceMap, visited: set<string>, queue: seq<QueueEntry>,
                                              j: int, next: string)
    requires ScanEffect(current, relationships, distances0, visited0, queue0, distances, visited, queue, j)
    requires j < |relationships| && current.id in visited0 && distances.Keys == visited && distances0.Keys == visited0
    requires NextId(relationships[j], current.id, visited) == Some(next) && next != ""
    ensures ScanEffect(current, relationships, distances0, visited0, queue0,
                       distances[next := current.distance + 1], visited + {next},
                       queue + [QueueEntry(next, current.distance + 1)], j + 1)
  {
    var v := current.distance + 1;
    var d, vis, q := distances[next := v], visited + {next}, queue + [QueueEntry(next, v)];
    FoundGrows(current, relationships, visited0, visited, j, next);
    assert vis - visited0 == (visited - visited0) + {next};
    PushedGrows(queue0, queue, QueueEntry(next, v), visited - visited0, v);
    assert |vis| == |visited| + 1 && |q| == |queue| + 1;
    RecordedGrows(distances0, distances, next, v);
    assert |q| - |queue0| == |vis| - |visited0|;
    assert q[..|queue0|] == queue0 && QueueIds(q[|queue0|..]) == vis - visited0;
    assert forall i :: |queue0| <= i < |q| ==> q[i].distance == v;
    assert ScanEffect(current, relationships, distances0, visited0, queue0, d, vis, q, j + 1);
  }

  /** A relationship that offers nothing truthy leaves the effect as it was. */
  lemma {:induction false} ScanEffectSkip(current: QueueEntry, relationships: seq<Relationship>,
                                          distances0: DistanceMap, visited0: set<string>, queue0: seq<QueueEntry>,
                                          distances: DistanceMap, visited: set<string>, queue: seq<QueueEntry>, j: int)
    requires ScanEffect(current, relationships, distances0, visited0, queue0, distances, visited, queue, j)
    requires j < |relationships| && current.id in visited0
    requires NextId(relationships[j], current.id, visited) in {None, Some("")}
    ensures ScanEffect(current, relationships, distances0, visited0, queue0, distances, visited, queue, j + 1)
  {
    NeighboursPrefix(relationships, current.id, j);
    assert visited0 + (visited - visited0) == visited;
    NextIdOffers(relationships[j], current.id, visited0, visited - visited0);
  }

  /**
   The state a full scan for `current` leaves behind, against the state it
   started from: the unvisited non-empty neighbours of `current` are
   recorded at `current.distance + 1` and pushed once each behind the old
   queue; everything recorded before keeps its distance. The order of the
   pushed entries is not stated.
   */
  ghost predicate ScanAdds(current: QueueEntry, relationships: seq<Relationship>,
                           distances0: DistanceMap, visited0: set<string>, queue0: seq<QueueEntry>,
                           distances: DistanceMap, visited: set<string>, queue: seq<QueueEntry>)
  {
    var found := Neighbours(relationships, current.id) - visited0;
    && visited == distances.Keys == visited0 + found
    && (forall b :: b in distances ==>
          distances[b] == if b in distances0 then distances0[b] else current.distance + 1)
    && |queue0| <= |queue| && queue[..|queue0|] == queue0
    && QueueIds(queue[|queue0|..]) == found
    && (forall i :: |queue0| <= i < |queue| ==> queue[i].distance == current.distance + 1)
    && |queue| - |queue0| == |visited| - |visited0|
  }

  /** After the last relationship, the effect is the unvisited neighbours of `current`. */
  lemma {:induction false} ScanEffectEnds(current: QueueEntry, relationships: seq<Relationship>,
                                          distances0: DistanceMap, visited0: set<string>, queue0: seq<QueueEntry>,
                                          distances: DistanceMap, visited: set<string>, queue: seq<QueueEntry>)
    requires ScanEffect(current, relationships, distances0, visited0, queue0, distances, visited, queue, |relationships|)
    requires visited == distances.Keys
    ensures ScanAdds(current, relationships, distances0, visited0, queue0, distances, visited, queue)
  {
    assert relationships[..|relationships|] == relationships;
    assert visited - visited0 == Neighbours(relationships, current.id) - visited0;
  }

  /** One relationship that offers a truthy unvisited id: both scan invariants carry over and fewer ids are unvisited. */
  lemma {:induction false} ScanStepDiscover(startId: string, relationships: seq<Relationship>, ids: set<string>,
                                            distances0: DistanceMap, visited0: set<string>, queue0: seq<QueueEntry>,
                                            distances: DistanceMap, visited: set<string>, queue: seq<QueueEntry>,
                                            current: QueueEntry, j: int, next: string)
    requires ids == Endpoints(startId, relationships)
    requires current.id in visited0 && distances0.Keys == visited0
    requires Scanning(startId, relationships, ids, distances, visited, queue, current, j) && j < |relationships|
    requires ScanEffect(current, relationships, distances0, visited0, queue0, distances, visited, queue, j)
    requires NextId(relationships[j], current.id, visited) == Some(next) && next != ""
    ensures next !in visited && |ids - (visited + {next})| < |ids - visited|
    ensures Scanning(startId, relationships, ids, distances[next := current.distance + 1], visited + {next},
                     queue + [QueueEntry(next, current.distance + 1)], current, j + 1)
    ensures ScanEffect(current, relationships, distances0, visited0, queue0,
                       distances[next := current.distance + 1], visited + {next},
                       queue + [QueueEntry(next, current.distance + 1)], j + 1)
  {
    ScanDiscovers(startId, relationships, ids, distances, visited, queue, current, j, next);
    ScanEffectDiscover(current, relationships, distances0, visited0, queue0, distances, visited, queue, j, next);
    DifferenceShrinks(ids, visited, next);
  }

  /** One relationship that offers nothing truthy: both scan invariants carry over unchanged. */
  lemma {:induction false} ScanStepSkip(startId: string, relationships: seq<Relationship>, ids: set<string>,
                                        distances0: DistanceMap, visited0: set<string>, queue0: seq<QueueEntry>,
                                        distances: DistanceMap, visited: set<string>, queue: seq<QueueEntry>,
                                        current: QueueEntry, j: int)
    requires current.id in visited0 && distances0.Keys == visited0
    requires Scanning(startId, relationships, ids, distances, visited, queue, current, j) && j < |relationships|
    requires ScanEffect(current, relationships, distances0, visited0, queue0, distances, visited, queue, j)
    requires NextId(relationships[j], current.id, visited) in {None, Some("")}
    ensures Scanning(startId, relationships, ids, distances, visited, queue, current, j + 1)
    ensures ScanEffect(current, relationships, distances0, visited0, queue0, distances, visited, queue, j + 1)
  {
    ScanSkips(startId, relationships, ids, distances, visited, queue, current, j);
    ScanEffectSkip(current, relationships, distances0, visited0, queue0, distances, visited, queue, j);
  }

  /** After the last relationship the search invariant is restored and the new state is the old one plus the unvisited neighbours. */
  lemma {:induction false} ScanFinishes(startId: string, relationships: seq<Relationship>, ids: set<string>,
                                        distances0: DistanceMap, visited0: set<string>, queue0: seq<QueueEntry>,
                                        distances: DistanceMap, visited: set<string>, queue: seq<QueueEntry>,
                                        current: QueueEntry)
    requires Scanning(startId, relationships, ids, distances, visited, queue, current, |relationships|)
    requires ScanEffect(current, relationships, distances0, visited0, queue0, distances, visited, queue, |relationships|)
    ensures SearchState(startId, relationships, ids, distances, visited, queue, current.distance, {})
    ensures ScanAdds(current, relationships, distances0, visited0, queue0, distances, visited, queue)
  {
    ScanEffectEnds(current, relationships, distances0, visited0, queue0, distances, visited, queue);
    ScanEnds(startId, relationships, ids, distances, visited, queue, current);
  }

  /**
   The `relationships.forEach` scan for one dequeued entry below distance 2:
   each relationship touching `current` offers its other end, which is
   recorded at `current.distance + 1` and enqueued when it is unvisited and
   not empty. The ids it adds are exactly the unvisited neighbours of
   `current`, each recorded and enqueued once; what was recorded or queued
   before is kept.
   */
  method ScanRelationships(current: QueueEntry, relationships: seq<Relationship>,
                           distances0: DistanceMap, visited0: set<string>, queue0: seq<QueueEntry>,
                           ghost startId: string, ghost ids: set<string>, ghost enqueued0: nat)
    returns (distances: DistanceMap, visited: set<string>, queue: seq<QueueEntry>, ghost enqueued: nat)
    requires ids == Endpoints(startId, relationships)
    requires Scanning(startId, relationships, ids, distances0, visited0, queue0, current, 0)
    requires enqueued0 == |visited0|
    ensures SearchState(startId, relationships, ids, distances, visited, queue, current.distance, {})
    ensures ScanAdds(current, relationships, distances0, visited0, queue0, distances, visited, queue)
    ensures (visited == visited0 && queue == queue0) || |ids - visited| < |ids - visited0|
    ensures enqueued == |visited|
  {
    distances, visited, queue := distances0, visited0, queue0;
    enqueued := enqueued0;
    ScanEffectStarts(current, relationships, distances0, visited0, queue0);
    for j := 0 to |relationships|
      invariant Scanning(startId, relationships, ids, distances, visited, queue, current, j)
      invariant ScanEffect(current, relationships, distances0, visited0, queue0, distances, visited, queue, j)
      invariant (visited == visited0 && queue == queue0) || |ids - visited| < |ids - visited0|
      invariant enqueued == |visited|
    {
      var rel := relationships[j];
      var nextId: Option<string> := None;
      if rel.from == current.id && rel.to !in visited {
        nextId := Some(rel.to);
      } else if rel.to == current.id && rel.from !in visited {
        nextId := Some(rel.from);
      }
      if nextId.Some? && nextId.value != "" {
        var next := nextId.value;
        ScanStepDiscover(startId, relationships, ids, distances0, visited0, queue0,
                         distances, visited, queue, current, j, next);
        visited := visited + {next};
        var newDistance := current.distance + 1;
        distances := distances[next := newDistance];
        queue := queue + [QueueEntry(next, newDistance)];
        enqueued := enqueued + 1;
      } else {
        ScanStepSkip(startId, relationships, ids, distances0, visited0, queue0,
                     distances, visited, queue, current, j);
      }
    }
    ScanFinishes(startId, relationships, ids, distances0, visited0, queue0, distances, visited, queue, current);
  }

  /**
   `calculateDistances`: breadth-first search from `startId`. An entry at
   distance 2 or more is dequeued but not expanded; every relationship is
   scanned on each dequeue, and an id is recorded only the first time it is
   found. `enqueued` counts the queue pushes, the initial one included: it is
   bounded by the number of distinct ids the relationships mention, plus the
   index person.
   */
  method CalculateDistances(startId: string, relationships: seq<Relationship>)
    returns (distances: DistanceMap, ghost enqueued: nat)
    ensures distances == BoundedDistances(startId, relationships)
    ensures enqueued == |distances| <= |Endpoints(startId, relationships)|
  {
    ghost var ids := Endpoints(startId, relationships);
    distances := map[startId := 0];
    var queue := [QueueEntry(startId, 0)];
    var visited := {startId};
    enqueued := 1;
    ghost var level := 0;
    SearchStarts(startId, relationships);
    while |queue| > 0
      invariant SearchState(startId, relationships, ids, distances, visited, queue, level, {})
      invariant enqueued == |visited|
      decreases |ids - visited|, |queue|
    {
      var current := queue[0];
      Dequeue(startId, relationships, ids, distances, visited, queue, level);
      queue := queue[1..];
      level := current.distance;
      // Stop at distance 2
      if current.distance >= 2 {
        continue;
      }
      ScanStarts(startId, relationships, ids, distances, visited, queue, current);
      distances, visited, queue, enqueued :=
        ScanRelationships(current, relationships, distances, visited, queue, startId, ids, enqueued);
    }
    Complete(startId, relationships, ids, distances, visited, level);
    BoundedDistancesKeys(startId, relationships);
    assert |distances.Keys| == |distances|;
  }
}
