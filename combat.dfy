/** The combat service's duel state machine: `challenge` creates a duel from
    two character snapshots, and the `attack`, `cast` and `heal` handlers share
    one transition (load an in-progress duel, attack-only timeout to a draw,
    participant check, shared per-kind cooldown, integer effect, termination).
    `handleDuelEnd` turns a finished duel into a request to move the loser's
    first item to the winner. */
module Combat {
  import opened Common
  import opened DuelEntity

  /** attack may be repeated every second. */
  const AttackCooldown: Millis := 1000
  /** cast and heal may each be repeated every two seconds. */
  const SpellCooldown: Millis := 2000
  /** An attack on a duel older than five minutes turns it into a draw. */
  const DrawAfter: Millis := 300000

  // ---------------------------------------------------------------------------
  // What the character service answers

  /** The `item` relation of an inventory entry, when it was loaded. */
  datatype ItemRef = ItemRef(id: Option<string>)

  /** One entry of a character's `items` list. */
  datatype InventoryEntry = InventoryEntry(item: Option<ItemRef>, id: Option<string>)

  /** The body of `GET /character/:id`: owner, health, the (possibly absent)
      stats and the inventory. */
  datatype CharacterView = CharacterView(
    id: string,
    createdBy: string,
    health: int,
    strength: Option<int>,
    agility: Option<int>,
    intelligence: Option<int>,
    faith: Option<int>,
    items: Option<seq<InventoryEntry>>)

  /** The outcome of a call to the character service: a body, an error
      response carrying its status, or no response at all. */
  datatype Fetch<+T> = Fetched(data: T) | Rejected(status: int, body: string) | NoResponse(message: string)

  /** The body of `POST /items/gift` that hands an item to the winner. */
  datatype GiftRequest = GiftRequest(fromCharacterId: string, toCharacterId: string, itemId: string)

  // ---------------------------------------------------------------------------
  // challenge

  /** The row `repo.create` builds: hit points from each character's health,
      owners from `createdBy`, each stat snapshot or 0 when absent. */
  function NewDuel(id: string, attacker: CharacterView, defender: CharacterView, now: Millis): (d: DuelState)
    ensures d.status == InProgress && d.winnerId == None && Consistent(d)
    ensures d.lastAttackAt == None && d.lastCastAt == None && d.lastHealAt == None
    ensures d.attackerHp == attacker.health && d.defenderHp == defender.health
    ensures d.attackerId == attacker.id && d.defenderId == defender.id
    ensures d.attackerUserId == attacker.createdBy && d.defenderUserId == defender.createdBy
    ensures d.attackerStr == attacker.strength.GetOr(0) && d.defenderStr == defender.strength.GetOr(0)
    ensures d.attackerAgi == attacker.agility.GetOr(0) && d.defenderAgi == defender.agility.GetOr(0)
    ensures d.attackerInt == attacker.intelligence.GetOr(0) && d.defenderInt == defender.intelligence.GetOr(0)
    ensures d.attackerFaith == attacker.faith.GetOr(0) && d.defenderFaith == defender.faith.GetOr(0)
    ensures d.id == id && d.createdAt == now
  {
    DuelState(
      id := id,
      attackerId := attacker.id,
      defenderId := defender.id,
      attackerUserId := attacker.createdBy,
      defenderUserId := defender.createdBy,
      attackerHp := attacker.health,
      defenderHp := defender.health,
      attackerStr := attacker.strength.GetOr(0),
      attackerAgi := attacker.agility.GetOr(0),
      attackerInt := attacker.intelligence.GetOr(0),
      defenderStr := defender.strength.GetOr(0),
      defenderAgi := defender.agility.GetOr(0),
      defenderInt := defender.intelligence.GetOr(0),
      attackerFaith := attacker.faith.GetOr(0),
      defenderFaith := defender.faith.GetOr(0),
      lastAttackAt := None,
      lastCastAt := None,
      lastHealAt := None,
      status := InProgress,
      winnerId := None,
      createdAt := now)
  }

  /** The error a failed character fetch turns into: the upstream status when
      there was a response, 400 otherwise. */
  function UpstreamError<T>(f: Fetch<T>): (e: HttpError)
    requires !f.Fetched?
    ensures f.Rejected? ==> e.status == f.status
    ensures f.NoResponse? ==> e.status == 400
  {
    match f
    case Rejected(status, _) => HttpError(status, "Character service error")
    case NoResponse(_) => HttpError(400, "Failed to initiate challenge.")
  }

  /** What `challenge` answers, given the two fetches: any fetch failure aborts,
      then only the attacker's owner may start the duel. */
  function ChallengeDecision(attacker: Fetch<CharacterView>, defender: Fetch<CharacterView>,
                             caller: string, newId: string, now: Millis): (r: Result<DuelState>)
    ensures r.Ok? <==> attacker.Fetched? && defender.Fetched? && attacker.data.createdBy == caller
    ensures r.Ok? ==> r.value == NewDuel(newId, attacker.data, defender.data, now)
    ensures attacker.Fetched? && defender.Fetched? && attacker.data.createdBy != caller ==>
              r == Err(HttpError(403, "Only the character owner can initiate"))
    ensures !attacker.Fetched? ==> r == Err(UpstreamError(attacker))
    ensures attacker.Fetched? && !defender.Fetched? ==> r == Err(UpstreamError(defender))
  {
    if !attacker.Fetched? then Err(UpstreamError(attacker))
    else if !defender.Fetched? then Err(UpstreamError(defender))
    else if attacker.data.createdBy != caller then Err(HttpError(403, "Only the character owner can initiate"))
    else Ok(NewDuel(newId, attacker.data, defender.data, now))
  }

  // ---------------------------------------------------------------------------
  // The shared action transition

  datatype ActionKind = Attack | Cast | Heal

  /** One request: its kind, the authenticated user and the time it arrives. */
  datatype Action = Action(kind: ActionKind, caller: string, now: Millis)

  /** Who won and who lost a duel that has just finished. */
  datatype Ending = Ending(winnerId: string, loserId: string)

  /** The answer of an action handler: 404, 403, 429, the draw message, or the
      saved duel (with the ending when this action finished it). */
  datatype Outcome = NotFound | Forbidden | RateLimited | Drawn | Applied(ending: Option<Ending>)

  /** The duel after an action, and the answer. */
  datatype Step = Step(duel: DuelState, outcome: Outcome)

  function Cooldown(kind: ActionKind): Millis
  {
    match kind
    case Attack => AttackCooldown
    case Cast => SpellCooldown
    case Heal => SpellCooldown
  }

  /** The one timestamp both sides share for this kind of action. */
  function LastAt(d: DuelState, kind: ActionKind): Option<Millis>
  {
    match kind
    case Attack => d.lastAttackAt
    case Cast => d.lastCastAt
    case Heal => d.lastHealAt
  }

  predicate TimedOut(d: DuelState, now: Millis)
  {
    now - d.createdAt > DrawAfter
  }

  /** An unset timestamp imposes no cooldown; a set one blocks until
      `cooldown` milliseconds have passed. */
  predicate OnCooldown(last: Option<Millis>, now: Millis, cooldown: Millis)
  {
    last.Some? && now - last.value < cooldown
  }

  predicate IsParticipant(d: DuelState, caller: string)
  {
    caller == d.attackerUserId || caller == d.defenderUserId
  }

  /** The effect of an action on the hit points, with no clamping: attack takes
      the actor's strength plus agility from the opponent, cast twice the
      actor's intelligence, heal gives the actor its faith. */
  function Apply(d: DuelState, kind: ActionKind, asAttacker: bool): DuelState
  {
    match kind
    case Attack =>
      if asAttacker then d.(defenderHp := d.defenderHp - (d.attackerStr + d.attackerAgi))
      else d.(attackerHp := d.attackerHp - (d.defenderStr + d.defenderAgi))
    case Cast =>
      if asAttacker then d.(defenderHp := d.defenderHp - d.attackerInt * 2)
      else d.(attackerHp := d.attackerHp - d.defenderInt * 2)
    case Heal =>
      if asAttacker then d.(attackerHp := d.attackerHp + d.attackerFaith)
      else d.(defenderHp := d.defenderHp + d.defenderFaith)
  }

  /** Sets the kind's shared timestamp to `now`. */
  function Stamp(d: DuelState, kind: ActionKind, now: Millis): DuelState
  {
    match kind
    case Attack => d.(lastAttackAt := Some(now))
    case Cast => d.(lastCastAt := Some(now))
    case Heal => d.(lastHealAt := Some(now))
  }

  /** The end-of-combat check after attack and cast. */
  function Conclude(d: DuelState): Step
  {
    if d.attackerHp <= 0 || d.defenderHp <= 0 then
      var winner := if d.attackerHp > 0 then d.attackerId else d.defenderId;
      var loser := if winner == d.attackerId then d.defenderId else d.attackerId;
      Step(d.(status := Finished, winnerId := Some(winner)), Applied(Some(Ending(winner, loser))))
    else
      Step(d, Applied(None))
  }

  /** One action on a duel, with the handlers' order of checks. */
  function Transition(d: DuelState, a: Action): (r: Step)
    // only an in-progress duel is ever loaded
    ensures d.status != InProgress ==> r == Step(d, NotFound)
    ensures r.outcome == NotFound <==> d.status != InProgress
    // the draw: attack only, before the participant check
    ensures r.outcome == Drawn <==>
              d.status == InProgress && a.kind == Attack && TimedOut(d, a.now)
    ensures r.outcome == Drawn ==> r.duel == d.(status := Draw)
    ensures r.outcome == Forbidden <==>
              && d.status == InProgress && !(a.kind == Attack && TimedOut(d, a.now))
              && !IsParticipant(d, a.caller)
    ensures r.outcome == RateLimited <==>
              && d.status == InProgress && !(a.kind == Attack && TimedOut(d, a.now))
              && IsParticipant(d, a.caller) && OnCooldown(LastAt(d, a.kind), a.now, Cooldown(a.kind))
    // every check passed
    ensures r.outcome.Applied? <==>
              && d.status == InProgress && !(a.kind == Attack && TimedOut(d, a.now))
              && IsParticipant(d, a.caller) && !OnCooldown(LastAt(d, a.kind), a.now, Cooldown(a.kind))
    // every refusal leaves the duel as it was
    ensures r.outcome.NotFound? || r.outcome.Forbidden? || r.outcome.RateLimited? ==> r.duel == d
    ensures r.outcome.Applied? ==> LastAt(r.duel, a.kind) == Some(a.now)
    ensures SameSnapshot(d, r.duel)
    ensures Consistent(d) ==> Consistent(r.duel)
  {
    if d.status != InProgress then Step(d, NotFound)
    else if a.kind == Attack && TimedOut(d, a.now) then Step(d.(status := Draw), Drawn)
    else if !IsParticipant(d, a.caller) then Step(d, Forbidden)
    else if OnCooldown(LastAt(d, a.kind), a.now, Cooldown(a.kind)) then Step(d, RateLimited)
    else
      var hit := Stamp(Apply(d, a.kind, a.caller == d.attackerUserId), a.kind, a.now);
      if a.kind == Heal then Step(hit, Applied(None)) else Conclude(hit)
  }

  /** The effect of an action that went through: exactly one hit-point field
      moves, by the amount the kind prescribes, the caller acting as attacker
      whenever it owns the attacking character, and of the three timestamps
      only the kind's own one changes. */
  lemma ActionEffect(d: DuelState, a: Action)
    requires Transition(d, a).outcome.Applied?
    ensures var e := Transition(d, a).duel;
            var asAttacker := a.caller == d.attackerUserId;
            && (a.kind == Attack && asAttacker ==>
                  e.defenderHp == d.defenderHp - (d.attackerStr + d.attackerAgi) && e.attackerHp == d.attackerHp)
            && (a.kind == Attack && !asAttacker ==>
                  e.attackerHp == d.attackerHp - (d.defenderStr + d.defenderAgi) && e.defenderHp == d.defenderHp)
            && (a.kind == Cast && asAttacker ==>
                  e.defenderHp == d.defenderHp - 2 * d.attackerInt && e.attackerHp == d.attackerHp)
            && (a.kind == Cast && !asAttacker ==>
                  e.attackerHp == d.attackerHp - 2 * d.defenderInt && e.defenderHp == d.defenderHp)
            && (a.kind == Heal && asAttacker ==>
                  e.attackerHp == d.attackerHp + d.attackerFaith && e.defenderHp == d.defenderHp)
            && (a.kind == Heal && !asAttacker ==>
                  e.defenderHp == d.defenderHp + d.defenderFaith && e.attackerHp == d.attackerHp)
            && (forall k: ActionKind :: k != a.kind ==> LastAt(e, k) == LastAt(d, k))
  {
  }

  /** When an action that went through ends the duel: attack and cast finish it
      as soon as a side is at or below zero, heal never does; the attacker
      wins exactly when it is still above zero, so the defender wins when both
      are down; the loser is the other side. */
  lemma TerminationRule(d: DuelState, a: Action)
    requires Consistent(d) && Transition(d, a).outcome.Applied?
    ensures var r := Transition(d, a); var e := r.duel;
            && (e.status == Finished <==> a.kind != Heal && (e.attackerHp <= 0 || e.defenderHp <= 0))
            && (e.status != Finished ==> e.status == InProgress && e.winnerId == None && r.outcome.ending == None)
            && (e.status == Finished ==>
                  && e.winnerId == Some(if e.attackerHp > 0 then d.attackerId else d.defenderId)
                  && r.outcome.ending == Some(Ending(e.winnerId.value,
                       if e.winnerId.value == d.attackerId then d.defenderId else d.attackerId)))
  {
  }

  /** Two actions of one kind: once the first went through, a second one (by
      either participant, since the timestamp is shared) less than the
      cooldown later is refused and changes nothing, unless the first already
      finished the duel; at or after the cooldown it goes through. */
  lemma SharedCooldown(d: DuelState, kind: ActionKind, first: string, second: string, t1: Millis, t2: Millis)
    requires Transition(d, Action(kind, first, t1)).outcome.Applied?
    requires IsParticipant(d, second)
    requires kind == Attack ==> !TimedOut(d, t2)
    ensures var s := Transition(d, Action(kind, first, t1)).duel;
            var r := Transition(s, Action(kind, second, t2));
            && (s.status == InProgress && t2 - t1 < Cooldown(kind) ==> r == Step(s, RateLimited))
            && (s.status == InProgress && t2 - t1 >= Cooldown(kind) ==> r.outcome.Applied?)
            && (s.status != InProgress ==> r == Step(s, NotFound))
  {
    var s := Transition(d, Action(kind, first, t1)).duel;
    assert LastAt(s, kind) == Some(t1);
    assert SameSnapshot(d, s);
    assert IsParticipant(s, second);
  }

  // ---------------------------------------------------------------------------
  // Sequences of actions

  /** The duel after a sequence of actions, applied one after the other. */
  function Run(d: DuelState, acts: seq<Action>): DuelState
    decreases |acts|
  {
    if acts == [] then d else Run(Transition(d, acts[0]).duel, acts[1..])
  }

  /** A finished or drawn duel is never changed again, whatever is tried. */
  lemma {:induction false} TerminalIsFinal(d: DuelState, acts: seq<Action>)
    requires d.status != InProgress
    ensures Run(d, acts) == d
    decreases |acts|
  {
    if acts != [] {
      TerminalIsFinal(Transition(d, acts[0]).duel, acts[1..]);
    }
  }

  /** Running two sequences one after the other is running their concatenation. */
  lemma {:induction false} RunAppend(d: DuelState, xs: seq<Action>, ys: seq<Action>)
    ensures Run(d, xs + ys) == Run(Run(d, xs), ys)
    decreases |xs|
  {
    if xs != [] {
      assert (xs + ys)[0] == xs[0];
      assert (xs + ys)[1..] == xs[1..] + ys;
      RunAppend(Transition(d, xs[0]).duel, xs[1..], ys);
    } else {
      assert xs + ys == ys;
    }
  }

  /** Status only moves forward: once some prefix of the requests has ended
      the duel, no later request changes it. */
  lemma StatusIsMonotonic(d: DuelState, xs: seq<Action>, ys: seq<Action>)
    requires Run(d, xs).status != InProgress
    ensures Run(d, xs + ys) == Run(d, xs)
  {
    RunAppend(d, xs, ys);
    TerminalIsFinal(Run(d, xs), ys);
  }

  /** Along any sequence of actions the row stays consistent and the snapshot
      columns (identities, owners, stats, creation time) never change. */
  lemma {:induction false} RunPreservesInvariant(d: DuelState, acts: seq<Action>)
    requires Consistent(d)
    ensures Consistent(Run(d, acts)) && SameSnapshot(d, Run(d, acts))
    decreases |acts|
  {
    if acts != [] {
      RunPreservesInvariant(Transition(d, acts[0]).duel, acts[1..]);
    }
  }

  // ---------------------------------------------------------------------------
  // handleDuelEnd

  /** The id of an inventory entry: the loaded item's id when it is truthy,
      else the entry's own id; none when the chosen one is falsy. */
  function RewardItemId(e: InventoryEntry): (r: Option<string>)
    ensures r.Some? ==> r.value != ""
    ensures e.item.Some? && Truthy(e.item.value.id) ==> r == e.item.value.id
    ensures !(e.item.Some? && Truthy(e.item.value.id)) ==> r == (if Truthy(e.id) then e.id else None)
  {
    var chosen := if e.item.Some? && Truthy(e.item.value.id) then e.item.value.id else e.id;
    if Truthy(chosen) then chosen else None
  }

  /** The item transfer `handleDuelEnd` asks for: none when the service
      address is missing, the loser's fetch fails, its inventory is absent or
      empty, or its first entry has no id; otherwise the loser's first item goes
      to the winner. */
  function HandleDuelEnd(serviceConfigured: bool, winnerId: string, loserId: string,
                         loser: Fetch<CharacterView>): (r: Option<GiftRequest>)
    ensures r.Some? <==>
              && serviceConfigured && loser.Fetched? && loser.data.items.Some?
              && |loser.data.items.value| > 0 && RewardItemId(loser.data.items.value[0]).Some?
    ensures r.Some? ==>
              r.value == GiftRequest(loserId, winnerId, RewardItemId(loser.data.items.value[0]).value)
  {
    if !serviceConfigured then None
    else if !loser.Fetched? then None
    else
      var items := loser.data.items;
      if items.Some? && |items.value| > 0 then
        var itemId := RewardItemId(items.value[0]);
        if itemId.None? then None else Some(GiftRequest(loserId, winnerId, itemId.value))
      else None
  }

  /** Only the first entry of the loser's inventory matters. */
  lemma OnlyFirstItemMatters(serviceConfigured: bool, winnerId: string, loserId: string,
                             c1: CharacterView, c2: CharacterView)
    requires c1.items.Some? && c2.items.Some? && |c1.items.value| > 0 && |c2.items.value| > 0
    requires c1.items.value[0] == c2.items.value[0]
    ensures HandleDuelEnd(serviceConfigured, winnerId, loserId, Fetched(c1))
         == HandleDuelEnd(serviceConfigured, winnerId, loserId, Fetched(c2))
  {
  }

  /** The transfer an action asks for: `handleDuelEnd` on the loser's fetch
      when the action finished the duel, nothing otherwise. */
  function Reward(o: Outcome, serviceConfigured: bool, fetchCharacter: string -> Fetch<CharacterView>): Option<GiftRequest>
  {
    if o.Applied? && o.ending.Some? then
      HandleDuelEnd(serviceConfigured, o.ending.value.winnerId, o.ending.value.loserId,
                    fetchCharacter(o.ending.value.loserId))
    else None
  }

  // ---------------------------------------------------------------------------
  // The persisted duel and the handlers

  /** A loaded `Duel` row. The columns no handler writes are constants. */
  class Duel {
    const id: string
    const attackerId: string
    const defenderId: string
    const attackerUserId: string
    const defenderUserId: string
    var attackerHp: int
    var defenderHp: int
    const attackerStr: int
    const attackerAgi: int
    const attackerInt: int
    const defenderStr: int
    const defenderAgi: int
    const defenderInt: int
    const attackerFaith: int
    const defenderFaith: int
    var lastAttackAt: Option<Millis>
    var lastCastAt: Option<Millis>
    var lastHealAt: Option<Millis>
    var status: Status
    var winnerId: Option<string>
    const createdAt: Millis

    /** The row's columns as a value. */
    function State(): DuelState
      reads this
    {
      DuelState(id, attackerId, defenderId, attackerUserId, defenderUserId,
                attackerHp, defenderHp,
                attackerStr, attackerAgi, attackerInt,
                defenderStr, defenderAgi, defenderInt,
                attackerFaith, defenderFaith,
                lastAttackAt, lastCastAt, lastHealAt,
                status, winnerId, createdAt)
    }

    constructor (s: DuelState)
      ensures State() == s
    {
      id, attackerId, defenderId := s.id, s.attackerId, s.defenderId;
      attackerUserId, defenderUserId := s.attackerUserId, s.defenderUserId;
      attackerHp, defenderHp := s.attackerHp, s.defenderHp;
      attackerStr, attackerAgi, attackerInt := s.attackerStr, s.attackerAgi, s.attackerInt;
      defenderStr, defenderAgi, defenderInt := s.defenderStr, s.defenderAgi, s.defenderInt;
      attackerFaith, defenderFaith := s.attackerFaith, s.defenderFaith;
      lastAttackAt, lastCastAt, lastHealAt := s.lastAttackAt, s.lastCastAt, s.lastHealAt;
      status, winnerId, createdAt := s.status, s.winnerId, s.createdAt;
    }

    /** POST /:duelId/attack. */
    method Attack(caller: string, now: Millis, serviceConfigured: bool,
                  fetchCharacter: string -> Fetch<CharacterView>)
      returns (outcome: Outcome, transfer: Option<GiftRequest>)
      modifies this
      ensures Step(State(), outcome) == Transition(old(State()), Action(ActionKind.Attack, caller, now))
      ensures transfer == Reward(outcome, serviceConfigured, fetchCharacter)
    {
      if status != InProgress {
        return NotFound, None;
      }
      if now - createdAt > DrawAfter {
        status := Draw;
        return Drawn, None;
      }
      var isAttacker := attackerUserId == caller;
      var isDefender := defenderUserId == caller;
      if !isAttacker && !isDefender {
        return Forbidden, None;
      }
      if lastAttackAt.Some? && now - lastAttackAt.value < AttackCooldown {
        return RateLimited, None;
      }
      var damage := if isAttacker then attackerStr + attackerAgi else defenderStr + defenderAgi;
      if isAttacker {
        defenderHp := defenderHp - damage;
      } else {
        attackerHp := attackerHp - damage;
      }
      lastAttackAt := Some(now);
      outcome, transfer := Applied(None), None;
      if attackerHp <= 0 || defenderHp <= 0 {
        status := Finished;
        var winner := if attackerHp > 0 then attackerId else defenderId;
        winnerId := Some(winner);
        var loser := if winner == attackerId then defenderId else attackerId;
        outcome := Applied(Some(Ending(winner, loser)));
        transfer := HandleDuelEnd(serviceConfigured, winner, loser, fetchCharacter(loser));
      }
    }

    /** POST /:duelId/cast. */
    method Cast(caller: string, now: Millis, serviceConfigured: bool,
                fetchCharacter: string -> Fetch<CharacterView>)
      returns (outcome: Outcome, transfer: Option<GiftRequest>)
      modifies this
      ensures Step(State(), outcome) == Transition(old(State()), Action(ActionKind.Cast, caller, now))
      ensures transfer == Reward(outcome, serviceConfigured, fetchCharacter)
    {
      if status != InProgress {
        return NotFound, None;
      }
      var isAttacker := attackerUserId == caller;
      var isDefender := defenderUserId == caller;
      if !isAttacker && !isDefender {
        return Forbidden, None;
      }
      if lastCastAt.Some? && now - lastCastAt.value < SpellCooldown {
        return RateLimited, None;
      }
      var damage := if isAttacker then attackerInt * 2 else defenderInt * 2;
      if isAttacker {
        defenderHp := defenderHp - damage;
      } else {
        attackerHp := attackerHp - damage;
      }
      lastCastAt := Some(now);
      outcome, transfer := Applied(None), None;
      if attackerHp <= 0 || defenderHp <= 0 {
        status := Finished;
        var winner := if attackerHp > 0 then attackerId else defenderId;
        winnerId := Some(winner);
        var loser := if winner == attackerId then defenderId else attackerId;
        outcome := Applied(Some(Ending(winner, loser)));
        transfer := HandleDuelEnd(serviceConfigured, winner, loser, fetchCharacter(loser));
      }
    }

    /** POST /:duelId/heal. */
    method Heal(caller: string, now: Millis)
      returns (outcome: Outcome)
      modifies this
      ensures Step(State(), outcome) == Transition(old(State()), Action(ActionKind.Heal, caller, now))
    {
      if status != InProgress {
        return NotFound;
      }
      var isAttacker := attackerUserId == caller;
      var isDefender := defenderUserId == caller;
      if !isAttacker && !isDefender {
        return Forbidden;
      }
      if lastHealAt.Some? && now - lastHealAt.value < SpellCooldown {
        return RateLimited;
      }
      var healAmount := if isAttacker then attackerFaith else defenderFaith;
      if isAttacker {
        attackerHp := attackerHp + healAmount;
      } else {
        defenderHp := defenderHp + healAmount;
      }
      lastHealAt := Some(now);
      outcome := Applied(None);
    }
  }

  /** The `duels` table, by id. */
  class DuelRepository {
    var duels: map<string, Duel>

    /** Each duel is filed under its own id, so two ids never share a `Duel`. */
    predicate Valid()
      reads this
    {
      forall k :: k in duels ==> duels[k].id == k
    }

    constructor ()
      ensures Valid() && duels == map[]
    {
      duels := map[];
    }

    /** POST /challenge, given the two character fetches. Nothing is stored
        unless the duel is created; `newId` is the id the database generates,
        which no stored duel has. */
    method Challenge(attacker: Fetch<CharacterView>, defender: Fetch<CharacterView>,
                     caller: string, newId: string, now: Millis)
      returns (r: Result<DuelState>)
      requires Valid() && newId !in duels
      modifies this
      ensures Valid()
      ensures r == ChallengeDecision(attacker, defender, caller, newId, now)
      ensures r.Ok? ==> newId in duels && fresh(duels[newId]) && duels[newId].State() == r.value
                        && duels == old(duels)[newId := duels[newId]]
      ensures r.Err? ==> duels == old(duels)
      ensures forall k :: k in old(duels) ==> k in duels && duels[k].State() == old(duels[k].State())
    {
      r := ChallengeDecision(attacker, defender, caller, newId, now);
      if r.Ok? {
        var duel := new Duel(r.value);
        duels := duels[newId := duel];
      }
    }

    /** An action request: a duel that is missing from the table answers 404
        like one that is no longer in progress; only the duel under `duelId`
        can change. */
    method Act(duelId: string, kind: ActionKind, caller: string, now: Millis,
               serviceConfigured: bool, fetchCharacter: string -> Fetch<CharacterView>)
      returns (outcome: Outcome, transfer: Option<GiftRequest>)
      requires Valid()
      modifies if duelId in duels then {duels[duelId]} else {}
      ensures Valid() && duels == old(duels)
      ensures duelId !in duels ==> outcome == NotFound && transfer == None
      ensures duelId in duels ==>
                && Step(duels[duelId].State(), outcome)
                   == Transition(old(duels[duelId].State()), Action(kind, caller, now))
                && transfer == Reward(outcome, serviceConfigured, fetchCharacter)
      ensures forall k :: k in duels && k != duelId ==> duels[k].State() == old(duels[k].State())
    {
      if duelId !in duels {
        return NotFound, None;
      }
      var duel := duels[duelId];
      match kind
      case Attack =>
        outcome, transfer := duel.Attack(caller, now, serviceConfigured, fetchCharacter);
      case Cast =>
        outcome, transfer := duel.Cast(caller, now, serviceConfigured, fetchCharacter);
      case Heal =>
        outcome := duel.Heal(caller, now);
        transfer := None;
    }
  }

  // ---------------------------------------------------------------------------
  // Worked examples

  function SampleAttacker(health: int, strength: int, agility: int, intelligence: int): CharacterView
  {
    CharacterView("char-a", "user-a", health, Some(strength), Some(agility), Some(intelligence), None, None)
  }

  function SampleDefender(health: int): CharacterView
  {
    CharacterView("char-d", "user-d", health, None, None, None, None, None)
  }

  /** Strength 10 and agility 5 against 20 hit points: one attack leaves 5
      and the duel goes on. */
  lemma AttackScenario()
    ensures var d := NewDuel("duel", SampleAttacker(100, 10, 5, 0), SampleDefender(20), 0);
            var r := Transition(d, Action(ActionKind.Attack, "user-a", 1000));
            r.duel.defenderHp == 5 && r.duel.status == InProgress && r.outcome == Applied(None)
  {
  }

  /** Intelligence 10 against 15 hit points: one cast leaves -5 (no clamping)
      and the attacker wins. */
  lemma CastScenario()
    ensures var d := NewDuel("duel", SampleAttacker(100, 0, 0, 10), SampleDefender(15), 0);
            var r := Transition(d, Action(ActionKind.Cast, "user-a", 1000));
            && r.duel.defenderHp == -5 && r.duel.status == Finished
            && r.duel.winnerId == Some("char-a") && r.outcome == Applied(Some(Ending("char-a", "char-d")))
  {
  }

  /** An attacker that starts with 0 hit points knocks the defender below zero:
      both sides are down and the defender is declared the winner. */
  lemma BothDownDefenderWins()
    ensures var d := NewDuel("duel", SampleAttacker(0, 10, 0, 0), SampleDefender(5), 0);
            var r := Transition(d, Action(ActionKind.Attack, "user-a", 1000));
            && r.duel.attackerHp == 0 && r.duel.defenderHp == -5 && r.duel.status == Finished
            && r.duel.winnerId == Some("char-d") && r.outcome == Applied(Some(Ending("char-d", "char-a")))
  {
  }
}
