/**
 * The host engine's entity table as this game sees it: every entity is an id mapped to a
 * record of its tags, its kind and its position. Systems do not edit the table directly;
 * they queue `Command`s (Bevy's `Commands`), which the engine applies after the system returns.
 */
module Ecs {

  type EntityId = nat

  /** The marker components the game's systems query (`Player` is declared but never used). */
  datatype Tag = Ball | Pin | LevelUnload

  datatype Vec3 = Vec3(x: real, y: real, z: real)

  /** The ball colours, in the order of the `colours` array of `shoot_ball`. */
  datatype Colour = Purple | Blue | Pink | Red

  /** What a spawned bundle is; only a ball carries parameters the game decides. */
  datatype Kind =
    | Ground
    | Railing
    | PinBox
    | PointLight
    | Camera
    | Sphere(radius: real, colour: Colour, velocity: Vec3)

  datatype Entity = Entity(kind: Kind, tags: set<Tag>, pos: Vec3)

  /** A queued edit of the table. */
  datatype Command = Spawn(entity: Entity) | Despawn(id: EntityId)

  /** The table together with the id the next spawn receives. */
  datatype Table = Table(rows: map<EntityId, Entity>, next: EntityId)

  /** Applies one command; despawning an id that is not present changes nothing. */
  function Step(t: Table, c: Command): Table
  {
    match c
    case Spawn(e) => Table(t.rows[t.next := e], t.next + 1)
    case Despawn(id) => Table(t.rows - {id}, t.next)
  }

  /** Applies a command buffer in order. */
  function Run(t: Table, cmds: seq<Command>): Table
    decreases |cmds|
  {
    if cmds == [] then t else Run(Step(t, cmds[0]), cmds[1..])
  }

  /** The ids of the entities that carry `tag` (the query `With<T>`). */
  function TaggedIds(rows: map<EntityId, Entity>, tag: Tag): set<EntityId>
  {
    set id | id in rows && tag in rows[id].tags
  }

  /** A buffer of spawn commands, one per entity, in order. */
  function SpawnAll(es: seq<Entity>): seq<Command>
  {
    seq(|es|, k requires 0 <= k < |es| => Spawn(es[k]))
  }

  predicate OnlyDespawns(cmds: seq<Command>)
  {
    forall k :: 0 <= k < |cmds| ==> cmds[k].Despawn?
  }

  /** The ids a despawn-only buffer names. */
  function DespawnIds(cmds: seq<Command>): set<EntityId>
  {
    set k | 0 <= k < |cmds| && cmds[k].Despawn? :: cmds[k].id
  }

  lemma SpawnAllAppend(es: seq<Entity>, e: Entity)
    ensures SpawnAll(es + [e]) == SpawnAll(es) + [Spawn(e)]
  {
    assert forall k :: 0 <= k < |es| ==> (es + [e])[k] == es[k];
  }

  lemma DespawnIdsAppend(cmds: seq<Command>, id: EntityId)
    ensures DespawnIds(cmds + [Despawn(id)]) == DespawnIds(cmds) + {id}
  {
    var s := cmds + [Despawn(id)];
    assert s[|cmds|] == Despawn(id);
    assert forall k :: 0 <= k < |cmds| ==> s[k] == cmds[k];
  }

  /** Flushing despawns removes exactly the named ids and allocates nothing. */
  lemma {:induction false} RunDespawns(t: Table, cmds: seq<Command>)
    requires OnlyDespawns(cmds)
    ensures Run(t, cmds) == Table(t.rows - DespawnIds(cmds), t.next)
    decreases |cmds|
  {
    if cmds != [] {
      var rest := cmds[1..];
      assert OnlyDespawns(rest) by {
        forall k | 0 <= k < |rest| ensures rest[k].Despawn? { assert rest[k] == cmds[k + 1]; }
      }
      RunDespawns(Step(t, cmds[0]), rest);
      assert DespawnIds(cmds) == {cmds[0].id} + DespawnIds(rest) by {
        forall id | id in DespawnIds(cmds) ensures id in {cmds[0].id} + DespawnIds(rest) {
          var k :| 0 <= k < |cmds| && cmds[k].Despawn? && cmds[k].id == id;
          if k > 0 { assert rest[k - 1] == cmds[k]; }
        }
        forall id | id in DespawnIds(rest) ensures id in DespawnIds(cmds) {
          var k :| 0 <= k < |rest| && rest[k].Despawn? && rest[k].id == id;
          assert cmds[k + 1] == rest[k];
        }
      }
    }
  }

  /**
   * Flushing spawns gives the new entities the consecutive ids starting at `next`, keeps every
   * other row and allocates exactly `|es|` ids.
   */
  lemma {:induction false} RunSpawns(t: Table, es: seq<Entity>)
    ensures Run(t, SpawnAll(es)).next == t.next + |es|
    ensures forall id :: id in Run(t, SpawnAll(es)).rows <==> id in t.rows || t.next <= id < t.next + |es|
    ensures forall k :: 0 <= k < |es| ==> Run(t, SpawnAll(es)).rows[t.next + k] == es[k]
    ensures forall id :: id in t.rows && !(t.next <= id < t.next + |es|) ==> Run(t, SpawnAll(es)).rows[id] == t.rows[id]
    decreases |es|
  {
    if es != [] {
      var cmds := SpawnAll(es);
      assert cmds[1..] == SpawnAll(es[1..]);
      var t' := Step(t, cmds[0]);
      RunSpawns(t', es[1..]);
      var r := Run(t, cmds);
      assert r == Run(t', SpawnAll(es[1..]));
      forall k | 0 <= k < |es| ensures r.rows[t.next + k] == es[k] {
        if k > 0 { assert es[1..][k - 1] == es[k]; }
      }
    }
  }
}
