/** The schema registry and the migration registry, as nested maps. */
module Registries {
  import opened Values
  import opened Schema

  datatype SchemaEntry = SchemaEntry(irHash: string, sourceHash: string, sourcePath: string, node: Node)

  /** schemaId, then version, to entry. */
  type SchemaRegistry = map<string, map<string, SchemaEntry>>

  function FindSchema(reg: SchemaRegistry, schemaId: string, version: string): Option<SchemaEntry> {
    if schemaId in reg && version in reg[schemaId] then Some(reg[schemaId][version]) else None
  }

  /** Every registered node is a record that lists its keys once. */
  predicate SchemasWellKeyed(reg: SchemaRegistry) {
    forall id | id in reg :: forall ver | ver in reg[id] :: WellKeyed(reg[id][ver].node)
  }

  datatype TransformOutcome = Returned(value: Value) | Threw

  datatype MigrationEntry = MigrationEntry(
    schemaId: string, fromVersion: string, toVersion: string,
    fromIrHash: string, toIrHash: string, fromSourceHash: string, toSourceHash: string,
    sourcePath: string, transform: Value -> TransformOutcome)

  /** One binding of the innermost map: its key and the entry stored there. */
  datatype Edge = Edge(to: string, entry: MigrationEntry)

  /** fromVersion, then the toVersion bindings in insertion order. */
  type Adjacency = map<string, seq<Edge>>

  type MigrationRegistry = map<string, Adjacency>

  /** A map holds a key once. */
  predicate KeysOnce(edges: seq<Edge>) {
    forall i, j | 0 <= i < j < |edges| :: edges[i].to != edges[j].to
  }

  predicate IsAdjacency(adj: Adjacency) {
    forall v | v in adj :: KeysOnce(adj[v])
  }

  /** Each entry is stored under the triple it carries. */
  predicate KeysAgree(reg: MigrationRegistry) {
    forall id | id in reg ::
      && IsAdjacency(reg[id])
      && forall v | v in reg[id] :: forall i | 0 <= i < |reg[id][v]| ::
          var e := reg[id][v][i];
          e.entry.schemaId == id && e.entry.fromVersion == v && e.entry.toVersion == e.to
  }

  /** `map.get(to)` on the innermost map. */
  function FindEdge(edges: seq<Edge>, to: string): (r: Option<MigrationEntry>)
    ensures r.Some? ==> exists i :: 0 <= i < |edges| && edges[i] == Edge(to, r.value)
    ensures r.None? ==> forall i | 0 <= i < |edges| :: edges[i].to != to
  {
    if edges == [] then None
    else if edges[0].to == to then Some(edges[0].entry)
    else
      var rest := FindEdge(edges[1..], to);
      assert forall i | 0 <= i < |edges[1..]| :: edges[1..][i] == edges[i + 1];
      rest
  }

  /** `registry.get(id)?.get(from)?.get(to)`. */
  function FindMigration(reg: MigrationRegistry, schemaId: string, from: string, to: string): Option<MigrationEntry> {
    if schemaId in reg && from in reg[schemaId] then FindEdge(reg[schemaId][from], to) else None
  }
}
