/** A fire (src/redoxbombs/game_element/fire.rs): it schedules its own
    extinction, then keeps checking its cell, killing the player or every
    enemy standing on it. The fire itself never changes. */
module FireElement {
  import opened Wrappers
  import opened Coords
  import opened Elements
  import opened Events
  import opened PlayerElement
  import opened EnemyElement

  /** The live enemies of an enemy slot vector: what reading their positions
      depends on. */
  function EnemyObjects(enemies: seq<Option<Enemy>>): set<object> {
    set i | 0 <= i < |enemies| && enemies[i].Some? :: enemies[i].value
  }

  /** `enemy_collides`: the slot holds an enemy on the fire's cell; an empty
      slot never collides. */
  predicate EnemyCollides(fire: Fire, enemy: Option<Enemy>)
    reads if enemy.Some? then {enemy.value} else {}
  {
    enemy.Some? && enemy.value.position == fire.position
  }

  /** `create_kill_enemy_event`: an `EnemyDelete` for the index of every slot
      whose enemy stands on the fire, in increasing index order. */
  function CreateKillEnemyEvents(fire: Fire, enemies: seq<Option<Enemy>>): (r: seq<ResultEvent>)
    reads EnemyObjects(enemies)
    ensures forall k :: 0 <= k < |r| ==>
      r[k].EnemyDelete? && r[k].id < |enemies| && EnemyCollides(fire, enemies[r[k].id])
    ensures forall i :: 0 <= i < |enemies| && EnemyCollides(fire, enemies[i]) ==>
      ResultEvent.EnemyDelete(i) in r
    ensures forall a, b :: 0 <= a < b < |r| ==> r[a].id < r[b].id
  {
    if enemies == [] then []
    else
      var n := |enemies| - 1;
      assert forall i :: 0 <= i < n ==> enemies[..n][i] == enemies[i];
      assert EnemyObjects(enemies[..n]) <= EnemyObjects(enemies);
      var prefix := CreateKillEnemyEvents(fire, enemies[..n]);
      if EnemyCollides(fire, enemies[n]) then prefix + [ResultEvent.EnemyDelete(n)] else prefix
  }

  /** `update`: `FireInit` schedules the extinction after the fire's duration,
      starts the collision checks and reports an update; a collision check
      kills the player on the fire's cell, or else kills the enemies on it and
      checks again; `FirePutOut` removes the fire; every other event is
      ignored. */
  method Update(fire: Fire, player: Player, enemies: seq<Option<Enemy>>, event: GameEvent, results: ResultQueue)
    modifies results
    ensures event.FireInit? ==>
      results.events == old(results.events) + [
        GameScheduleEvent(fire.duration, FirePutOut(event.id)),
        GameSetEvent(FireCheckCollision(event.id)),
        GameUpdated]
    ensures event.FireCheckCollision? && player.position == fire.position ==>
      results.events == old(results.events) + [PlayerDied]
    ensures event.FireCheckCollision? && player.position != fire.position ==>
      results.events == old(results.events) + CreateKillEnemyEvents(fire, enemies) + [GameSetEvent(event)]
    ensures event.FirePutOut? ==>
      results.events == old(results.events) + [FireDelete(event.id), GameUpdated]
    ensures !event.FireInit? && !event.FireCheckCollision? && !event.FirePutOut? ==>
      results.events == old(results.events)
  {
    match event
    case FireInit(id) =>
      results.PushBack(GameScheduleEvent(fire.duration, FirePutOut(id)));
      results.PushBack(GameSetEvent(FireCheckCollision(id)));
      results.PushBack(GameUpdated);
    case FireCheckCollision(id) =>
      if player.position == fire.position {
        results.PushBack(PlayerDied);
      } else {
        var killEnemyEvents := CreateKillEnemyEvents(fire, enemies);
        assert results !in EnemyObjects(enemies);
        results.Extend(killEnemyEvents);
        results.PushBack(GameSetEvent(event));
      }
    case FirePutOut(id) =>
      results.PushBack(FireDelete(id));
      results.PushBack(GameUpdated);
    case _ =>
  }

  /** A slot's enemy is deleted by a check exactly when `enemy_collides`
      holds for that slot; an empty slot never is. */
  lemma DeletedExactlyWhenColliding(fire: Fire, enemies: seq<Option<Enemy>>, i: nat)
    ensures ResultEvent.EnemyDelete(i) in CreateKillEnemyEvents(fire, enemies) <==>
      i < |enemies| && EnemyCollides(fire, enemies[i])
    ensures i < |enemies| && enemies[i].None? ==>
      ResultEvent.EnemyDelete(i) !in CreateKillEnemyEvents(fire, enemies)
  {
    var r := CreateKillEnemyEvents(fire, enemies);
    if ResultEvent.EnemyDelete(i) in r {
      var k :| 0 <= k < |r| && r[k] == ResultEvent.EnemyDelete(i);
    }
  }

  /** No enemy dies twice in one check, and an all-empty slot vector kills
      nobody. */
  lemma KillEventsDistinct(fire: Fire, enemies: seq<Option<Enemy>>)
    ensures forall a, b :: 0 <= a < b < |CreateKillEnemyEvents(fire, enemies)| ==>
      CreateKillEnemyEvents(fire, enemies)[a] != CreateKillEnemyEvents(fire, enemies)[b]
    ensures (forall i :: 0 <= i < |enemies| ==> enemies[i].None?) ==>
      CreateKillEnemyEvents(fire, enemies) == []
  {
  }
}
