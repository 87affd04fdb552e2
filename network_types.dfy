/**
 The records the network service works on: people, undirected relationships
 between them, and the render-ready nodes and links derived from a distance map.
 */
module NetworkTypes {

  /** A person of the network; `id` is opaque and unique. */
  datatype Person = Person(id: string, name: string)

  /** An undirected relationship; the orientation is kept only for display. */
  datatype Relationship = Relationship(from: string, to: string)

  /** A person placed in the visualization, with its hop distance from the index person. */
  datatype GraphNode = GraphNode(id: string, name: string, distance: int, isCritical: bool)

  /** A link of the visualization, between two person ids. */
  datatype GraphLink = GraphLink(source: string, target: string)

  /** What the visualization receives: the reached people and the links among them. */
  datatype VisualizationData = VisualizationData(nodes: seq<GraphNode>, links: seq<GraphLink>)

  /** Person id to hop distance from the index person. */
  type DistanceMap = map<string, int>

  datatype Option<T> = None | Some(value: T)
}
