/** The `duels` row of the combat service: one fight between two characters,
    with stat snapshots taken at creation, two hit-point counters, one shared
    cooldown timestamp per action kind, a status and, once finished, a winner. */
module DuelEntity {
  import opened Common

  /** Wall-clock time in milliseconds. */
  type Millis = int

  /** The values the `status` column takes; a new row starts as `InProgress`. */
  datatype Status = InProgress | Finished | Draw

  /** Every column of a duel. Hit points and stat snapshots are integers;
      the three cooldown timestamps and `winnerId` may be null. */
  datatype DuelState = DuelState(
    id: string,
    attackerId: string,
    defenderId: string,
    attackerUserId: string,
    defenderUserId: string,
    attackerHp: int,
    defenderHp: int,
    attackerStr: int,
    attackerAgi: int,
    attackerInt: int,
    defenderStr: int,
    defenderAgi: int,
    defenderInt: int,
    attackerFaith: int,
    defenderFaith: int,
    lastAttackAt: Option<Millis>,
    lastCastAt: Option<Millis>,
    lastHealAt: Option<Millis>,
    status: Status,
    winnerId: Option<string>,
    createdAt: Millis)

  /** The row's invariant: a winner is recorded exactly when the duel is
      finished, a finished duel has a side at or below zero hit points, and
      its winner is the attacker exactly when the attacker is still above zero. */
  predicate Consistent(d: DuelState)
  {
    && (d.winnerId.Some? <==> d.status == Finished)
    && (d.status == Finished ==>
          && (d.attackerHp <= 0 || d.defenderHp <= 0)
          && d.winnerId == Some(if d.attackerHp > 0 then d.attackerId else d.defenderId))
  }

  /** The columns fixed when the duel is created: identities, owners, stat
      snapshots and the creation time. */
  predicate SameSnapshot(d: DuelState, e: DuelState)
  {
    && d.id == e.id
    && d.attackerId == e.attackerId && d.defenderId == e.defenderId
    && d.attackerUserId == e.attackerUserId && d.defenderUserId == e.defenderUserId
    && d.attackerStr == e.attackerStr && d.attackerAgi == e.attackerAgi
    && d.attackerInt == e.attackerInt && d.attackerFaith == e.attackerFaith
    && d.defenderStr == e.defenderStr && d.defenderAgi == e.defenderAgi
    && d.defenderInt == e.defenderInt && d.defenderFaith == e.defenderFaith
    && d.createdAt == e.createdAt
  }
}
