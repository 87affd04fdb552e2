# SafeNetworkLink network service in Dafny

SafeNetworkLink is a small contact-tracing style simulator. The user adds
people and undirected relationships, picks an index person, and the
application shows who is one hop (D1) and two hops (D2, the critical alert
level) away. It shows them as an interactive graph. The service can also
render the reached subgraph as Graphviz DOT text (`generateDotCode`).

This project models the `NetworkService` class of
`src/services/network.service.ts`, whose static methods make up the logic of
the application. It also proves properties of that model.

- `distances.dfy`, module `Distances`: `calculateDistances`, the breadth-first
  search capped at distance 2.
  - `CalculateDistances` keeps the source's mutable state: a queue sequence, a
    `visited` set and a distance map.
  - It is proved equal to `BoundedDistances`, a reference definition built
  from the balls of radius 1 and 2 around the index person.
  - The reference map is then characterised as the only map that obeys the
    local breadth-first rules.
  - It does not depend on the order or the orientation of the relationships.
  - `ScanRelationships` is the body of the `relationships.forEach` callback,
    run for one dequeued entry.
- `visualization.dfy`, module `Visualization`: `prepareVisualizationData`.
  The reached people become nodes and the relationships between reached ids
  become links. Both keep input order, and repeated links are not merged.
- `dot_code.dfy`, module `DotCode`: `generateDotCode`, `getNodeColor` and
  `getNodeLabel`.
  - `GenerateDotCode` builds the line sequence and the set of added edge keys
    as the source does. Its two loops are the methods `AddNodeLines` and
    `AddEdgeLines`.
  - It is proved equal to `Join(DotLines(...), "\n")`, a declarative
    description of the output.
  - Edge lines are deduplicated by the first-seen rule on the sorted-and-joined
    key.
- `strings.dfy`, module `Strings`: the string operations the service uses,
  and two reference definitions.
  - `LexLe`, a total order that stands for `localeCompare`.
  - `IntToString`, how a template literal renders an integer.
  - `Join`, as `Array.prototype.join`.
  - `Split` and `ParseInt` are not used by the service. They are the inverses
    against which `DotLinesRecoverable`, `SplitJoin` and `IntToStringRoundTrip`
    state that the output can be read back.
- `network_types.dfy`, module `NetworkTypes`: the records of
  `src/types/network.types.ts`.

Behaviour the model keeps from the code:

- The index person is recorded at distance 0 whatever its id is, so the map
  is never empty. This holds even when the id is empty or named by no
  relationship (`IsolatedStart`).
- A relationship is followed from either end. An empty id is never reached,
  because the search tests the id it found for truthiness.
- The search does not consult the people. An id that no person carries can
  still be reached. Its relationships are then projected as links although it
  gets no node, so a link can name an id that has no node
  (`DanglingEndpointLinked`).
- The DOT edge key is the joined string, not the pair. Ids that contain `-` can
  therefore collide (`EdgeKeyCollision`). Ids of one common length, such as the
  generated UUIDs, cannot (`EdgeKeySameLength`).
- Names and ids are put into the DOT text without escaping.

## Model

| member | source | states |
|---|---|---|
| Distances.CalculateDistances | src/services/network.service.ts:13-49 | The returned map is exactly the reference map: every id at most two hops from the start, with its least hop count. The number of queue pushes, the initial one included, equals the number of recorded ids and is at most the number of distinct ids the relationships mention plus the start. |
| Distances.ScanRelationships | src/services/network.service.ts:31-45 | One scan of all relationships for a dequeued entry below distance 2 (`ScanAdds`). The new visited set and map keys are the old ones plus exactly the unvisited non-empty neighbours of the entry. Each new id is recorded at the entry's distance plus one, and old entries keep their distances. The old queue is kept as a prefix. The pushed part holds exactly the new ids, one entry each, all at the entry's distance plus one. The scan re-establishes the search invariant and either changes nothing or shrinks the set of unvisited ids. |
| Distances.BoundedDistances | src/services/network.service.ts:17-28 | The reference map always holds the start at 0, and all its values lie in 0..2: the search never records a distance above 2. |
| Distances.BoundedDistancesLevels | src/services/network.service.ts:24-44 | An id is in the ball of radius 0, 1 or 2 around the start exactly when the map records it at a distance of at most 0, 1 or 2. |
| Distances.NeighbourByRelationship | src/services/network.service.ts:33-39 | A relationship touching an id makes its other end a neighbour of that id, from either end, unless that end is empty. |
| Distances.BoundedDistancesKeys | src/services/network.service.ts:17-44 | Every recorded id is the start or an endpoint of some relationship, so the map has at most that many entries. |
| Distances.IsolatedStart | src/services/network.service.ts:17-22 | With no relationship touching the start, the result is the start at 0 and nothing else. |
| Distances.ChainCutoff | src/services/network.service.ts:27-28 | On the chain A-B-C-D from A the map is A:0, B:1, C:2. D, three hops away, is not recorded. |
| Distances.BoundedDistancesIsBfsLabelling | src/services/network.service.ts:13-49 | The reference map obeys the breadth-first rules. The start is at 0 and all values are in 0..2. The neighbours of an id below 2 are recorded at most one hop further. Every other id has a neighbour exactly one hop closer. |
| Distances.LabellingContainsBalls | src/services/network.service.ts:24-45 | A map with the start at 0 and closed under neighbours contains the ball of radius 2, and records the ball of radius 1 at distance at most 1. |
| Distances.LabellingWithinBalls | src/services/network.service.ts:24-45 | In a map where every id has a parent one hop closer, only the start is at 0. An id at distance at most 1 is in the ball of radius 1, and every id is in the ball of radius 2. |
| Distances.BfsLabellingUnique | src/services/network.service.ts:13-49 | Any map that obeys the breadth-first rules is the reference map, so the distances are the shortest hop counts and are uniquely determined. |
| Distances.SameEdgesSameDistances | src/services/network.service.ts:31-37 | Two relationship lists with the same undirected edges, in any order, with repeats or flipped, give the same distances. |
| Distances.FlipOneRelationship | src/services/network.service.ts:33-37 | Storing one relationship the other way round leaves the distances unchanged. |
| Visualization.PrepareVisualizationData | src/services/network.service.ts:118-140 | Every node carries the recorded distance of its person and is critical exactly at distance 2. Every link has both ends recorded. |
| Visualization.NodesSound | src/services/network.service.ts:123-130 | Every node comes from a person with a recorded distance, with that person's id and name, the recorded distance, and `isCritical` exactly at 2. |
| Visualization.NodesComplete | src/services/network.service.ts:123-124 | Every person with a recorded distance gets a node. |
| Visualization.NodesAppend | src/services/network.service.ts:123-130 | The node projection distributes over concatenation, so input order is kept. |
| Visualization.LinksSound | src/services/network.service.ts:132-137 | Every link is an input relationship, in its stored orientation, with both ends recorded. |
| Visualization.LinksComplete | src/services/network.service.ts:132-133 | Every relationship with both ends recorded becomes a link. |
| Visualization.LinksAppend | src/services/network.service.ts:132-137 | The link projection distributes over concatenation: order is kept and repeats are not merged. |
| Visualization.DuplicateRelationshipKept | src/services/network.service.ts:132-137 | A relationship stored twice yields two identical links. |
| Visualization.LinksJoinNodes | src/services/network.service.ts:118-140 | When every relationship names people of the network, every link joins two nodes of the same result. |
| Visualization.ProjectionOfSearch | src/services/network.service.ts:118-130 | Applied to the search result, the nodes are exactly the people at most two hops away, with distances in 0..2. A node is critical exactly when it is outside the ball of radius 1. |
| Visualization.DanglingEndpointLinked | src/services/network.service.ts:132-137 | For people [A] and relationship A-X, the search reaches X. The link A-X is produced although X gets no node. |
| DotCode.GenerateDotCode | src/services/network.service.ts:58-109 | The output is the header lines, then one styled line per person with a recorded distance in input order, an empty line, one edge line per first-seen key, and `}`, joined with newlines. |
| DotCode.FormatNode | src/services/network.service.ts:72-85 | The line of one node: lightblue and `(INDEX)` at 0, yellow and `(D1)` at 1, red with white font, pen width 3 and the critical alert at 2. Any other distance gets no style and `(D<n>)`. |
| DotCode.AddNodeLines | src/services/network.service.ts:69-87 | The node loop appends exactly the node lines of the people with a recorded distance, in input order. |
| DotCode.AddEdgeLines | src/services/network.service.ts:92-105 | The edge loop appends exactly the lines of the links whose key was not seen earlier. The loop keeps the set of added keys equal to the keys of the links scanned so far. |
| DotCode.EdgeKeySymmetric | src/services/network.service.ts:99 | The edge key does not depend on the orientation of the relationship. |
| DotCode.EdgeKeySameLength | src/services/network.service.ts:99 | For ids of one length, equal keys mean the same unordered pair. |
| DotCode.EdgeKeyCollision | src/services/network.service.ts:99 | The pairs (`a-b`, `c`) and (`a`, `b-c`) are different yet share a key. |
| DotCode.FirstSeenSound | src/services/network.service.ts:98-103 | Every emitted edge is a link of the input. |
| DotCode.FirstSeenKeys | src/services/network.service.ts:99-103 | The emitted edges cover every key of the input, and no two of them share a key. |
| DotCode.FirstSeenFirst | src/services/network.service.ts:99-103 | A link whose key does not occur earlier is emitted. |
| DotCode.ReversedRelationshipOnce | src/services/network.service.ts:99-103 | Relationships (A,B) then (B,A) yield the single edge line A -- B. |
| DotCode.DuplicateRelationshipOnce | src/services/network.service.ts:99-103 | A relationship stored twice yields one edge line. |
| DotCode.DotFraming | src/services/network.service.ts:63-66 | The output starts with the four header lines, each followed by a newline, and ends with a newline and `}`. |
| DotCode.DotLinesRecoverable | src/services/network.service.ts:107-108 | When no id or name contains a newline, splitting the output on newlines gives back exactly the lines that were joined. |
| DotCode.NodeColor | src/services/network.service.ts:147-152 | The colour is gray exactly for a distance outside 0..2. |
| DotCode.NodeColorMatchesDotStyle | src/services/network.service.ts:75-81 | For a distance in 0..2 the DOT style starts with `fillcolor=` and the same colour as the view. Any other distance gets no style in DOT. |
| DotCode.NodeLabel | src/services/network.service.ts:159-163 | A label starts with `D` exactly when the distance is neither 0 (`INDEX`) nor 2 (the alert). |
| DotCode.NodeLabelInjective | src/services/network.service.ts:159-163 | Different distances get different labels. |
| DotCode.NodeLabelMatchesDotLabel | src/services/network.service.ts:73-77 | Except at distance 2, the DOT label is the name followed by the view's label in parentheses. |
| Strings.LexLeTotal | src/services/network.service.ts:99 | Any two ids are comparable, so the sort in the edge key always puts the pair in one order. |
| Strings.LexLeAntisymmetric | src/services/network.service.ts:99 | Two ids that compare equal both ways are the same id. |
| Strings.IntToStringInjective | src/services/network.service.ts:73 | Different distances render as different text in the `D<n>` label. |
| Strings.IntToStringRoundTrip | src/services/network.service.ts:73 | The rendered distance reads back as the same integer. |
| Strings.SplitJoin | src/services/network.service.ts:108 | Splitting the joined lines on the separator gives the lines back when none contains it. |

## Left out

- The React components, the D3 force layout, clipboard copying and the graph store are not part of this model. Neither is id generation with `crypto.randomUUID`. They are I/O and rendering around the service.
- The `distances` field that `prepareVisualizationData` returns alongside the nodes and links is not modelled. It passes the input map through unchanged.
- The position and velocity fields D3 adds to nodes are not modelled. Neither is D3's later replacement of link ends by node objects. Both belong to the renderer.
- `localeCompare` is replaced by code-point order. For ids without `-`, or ids of one common length, the choice of order does not change which edge lines are emitted. For `-`-containing ids of different lengths it does: which pairs share a key depends on the order. For example, ("B-x", "a") and ("B", "x-a") share the key `B-x-a` under code-point order, but get two keys under a case-insensitive collation. The model's deduplication can then differ from the locale's.
- Locale collation can also call two different strings equal. The sort then keeps the stored orientation, and (a, b) and (b, a) would get different keys. That case is not modelled.
- Distances are integers. JavaScript's rendering of non-integer, negative-zero, NaN or exponent-formatted numbers in the `D<n>` label is not modelled. The search itself only produces 0, 1 and 2.
- String lengths count code points, not UTF-16 code units. This matters only to `EdgeKeySameLength`.
