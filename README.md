# Duels, items, accounts and characters of a multi-service game backend

This project models, in Dafny, the decision logic of a small game backend made
of three HTTP services:

- **Combat service.** The duel state machine: `challenge` creates a duel from
  two character snapshots after an ownership check. `attack`, `cast` and `heal`
  share one transition: load an in-progress duel; on attack only, turn a duel
  older than five minutes into a draw; check that the caller takes part; apply
  the shared per-kind cooldown; apply the integer effect and stamp the time;
  detect the end of the duel. `handleDuelEnd` asks for the loser's first item
  to be handed to the winner.
- **Character service, items.** `createItem`; the " of <stat>" display names
  of the list and detail handlers, which break ties differently; and the
  character↔item link table that `grantItem` and `giftItem` update, together
  with the cache keys they delete.
- **Character service, characters.** `createCharacter`: the order of its checks,
  its `??` defaults, and a table whose names are unique.
- **Account service.** `register` and `login`: a table with unique usernames,
  role normalisation, the order of the error answers, the token payload and
  the token lifetime.

Modules, one per source file:

- `common.dfy` (`Common`): optional fields, error answers, JavaScript
  truthiness of string fields.
- `duel.dfy` (`DuelEntity`): the `duels` row as a value `DuelState`, and its
  invariant `Consistent`.
- `combat.dfy` (`Combat`): the pure transition `Transition` and its lemmas,
  plus the `Duel` class. The class keeps the row's never-written columns as
  `const` fields. Its `Attack`, `Cast` and `Heal` methods update the others in
  place, step by step as the handlers do, and are proved against `Transition`.
  `DuelRepository` holds the table of duels.
- `items.dfy` (`Items`), `characters.dfy` (`Characters`) and `auth.dfy` (`Auth`):
  the other handlers. Tables that a handler inserts into or updates are class
  fields; the logic that only computes is functions.

Time is an integer number of milliseconds. A request arrives at one instant
`now`, and the draw rule is `now - createdAt > 300000`. Character-service
calls are inputs: a `Fetch` value per call, or a function from character id to
`Fetch` for the loser lookup after a duel. The gift call becomes a returned
`GiftRequest`. Hashing, password checking, token signing and duration parsing
are function-typed parameters. Database-generated ids are parameters.

Two rules of the code are worth stating outright:

- attack does **not** clamp hit points at 0 (`combat.controller.ts:153`);
  a hit point total can go below zero.
- when both sides are at or below 0 the **defender** wins
  (`combat.controller.ts:160`); see `Combat.BothDownDefenderWins`.

## Model

| member | source | states |
|---|---|---|
| `Combat.NewDuel` | services/combat-service/src/modules/combat/combat.controller.ts:84-100 | a new duel is in progress with no winner and no cooldowns set; each HP is that character's health; the owners are the characters' `createdBy`; each stat snapshot is the fetched value, or 0 when absent; the row satisfies the duel invariant |
| `Combat.UpstreamError` | services/combat-service/src/modules/combat/combat.controller.ts:107-119 | a failed fetch answers with the character service's status when it responded, and 400 when there was no response |
| `Combat.ChallengeDecision` | services/combat-service/src/modules/combat/combat.controller.ts:67-105 | a duel is created iff both fetches succeed and the caller owns the attacker; otherwise a fetch failure aborts it, or the answer is 403; a created duel is `NewDuel` of the two snapshots |
| `Combat.DuelRepository.Challenge` | services/combat-service/src/modules/combat/combat.controller.ts:59-120 | answers as `ChallengeDecision`; on success exactly one fresh duel is stored under the new (unused, database-generated) id; on any failure the table is unchanged; stored duels are untouched; every duel stays filed under its own id |
| `Combat.Transition` | services/combat-service/src/modules/combat/combat.controller.ts:122-235 | the error precedence of the three handlers. NotFound iff the duel is not in progress, and the duel is unchanged. Draw iff the action is an attack on an in-progress duel older than 5 minutes, whoever calls, and only the status changes. Otherwise a non-participant gets Forbidden. A set timestamp of the kind with `now - last < cooldown` gives RateLimited. Every refusal leaves the duel unchanged. The action goes through iff the duel is in progress, no draw applies, the caller takes part and the kind is off cooldown; it then stamps the kind's timestamp with `now`. Snapshot columns never change and the invariant is preserved |
| `Combat.ActionEffect` | services/combat-service/src/modules/combat/combat.controller.ts:151-231 | attack takes the actor's str+agi from the opponent, cast takes 2×int, and heal adds the actor's faith to its own HP. There is no clamping. Exactly one HP field moves. A caller who owns both sides acts as attacker. Only the kind's own timestamp changes |
| `Combat.TerminationRule` | services/combat-service/src/modules/combat/combat.controller.ts:157-201 | after attack or cast the duel is finished iff some HP is ≤ 0, and heal never finishes it. The winner is `attackerId` iff attacker HP > 0, otherwise `defenderId`, and the loser is the other side. An unfinished duel has no winner and no ending |
| `Combat.SharedCooldown` | services/combat-service/src/modules/combat/combat.controller.ts:145-194 | after an action goes through, the same kind by either participant less than the cooldown later is RateLimited and changes nothing, and exactly at the cooldown it goes through. A duel the first action finished answers NotFound |
| `Combat.TerminalIsFinal` | services/combat-service/src/modules/combat/combat.controller.ts:129-130 | no sequence of actions changes a finished or drawn duel |
| `Combat.StatusIsMonotonic` | services/combat-service/src/modules/combat/combat.controller.ts:177-178 | once a prefix of requests has ended a duel, later requests leave it as it is |
| `Combat.RunPreservesInvariant` | services/combat-service/src/entities/Duel.ts:8-37 | along any sequence of actions: a winner is set iff the duel is FINISHED (DRAW leaves it unset); a finished duel's winner is the attacker iff the attacker's HP is above 0, and the defender otherwise; ids, stat snapshots and `createdAt` never change, and neither do the owner columns, which the model treats as mapped (see Left out) |
| `Combat.RewardItemId` | services/combat-service/src/modules/combat/combat.controller.ts:28-33 | the reward id is the loaded item's id when truthy, else the entry's own id; a falsy id means no transfer |
| `Combat.HandleDuelEnd` | services/combat-service/src/modules/combat/combat.controller.ts:9-57 | a transfer is requested iff the service address is set, the loser's fetch succeeds, its item list is present and non-empty, and its first entry has an id. The request moves that item from loser to winner. Every failure yields no request and touches no duel |
| `Combat.OnlyFirstItemMatters` | services/combat-service/src/modules/combat/combat.controller.ts:26-27 | two inventories with the same first entry yield the same request |
| `Combat.Duel.Attack` | services/combat-service/src/modules/combat/combat.controller.ts:122-168 | the in-place update of the loaded duel is `Transition` for an attack; the transfer is `handleDuelEnd` for the loser when the attack finished the duel |
| `Combat.Duel.Cast` | services/combat-service/src/modules/combat/combat.controller.ts:170-206 | the in-place update is `Transition` for a cast; the transfer is as for attack |
| `Combat.Duel.Heal` | services/combat-service/src/modules/combat/combat.controller.ts:208-235 | the in-place update is `Transition` for a heal, which has no draw check and never ends the duel |
| `Combat.DuelRepository.Act` | services/combat-service/src/modules/combat/combat.controller.ts:128-130 | an id missing from the table gives NotFound with nothing changed; otherwise that duel changes as `Transition` says, the table keeps its keys, and the duel under every other id is unchanged (each duel is filed under its own id, so no two ids share one) |
| `Combat.AttackScenario` | services/combat-service/src/modules/combat/combat.controller.ts:152-153 | str 10, agi 5 against 20 HP: one attack leaves 5 and the duel goes on |
| `Combat.CastScenario` | services/combat-service/src/modules/combat/combat.controller.ts:191-199 | int 10 against 15 HP: one cast leaves -5, the duel is finished and the attacker wins |
| `Combat.BothDownDefenderWins` | services/combat-service/src/modules/combat/combat.controller.ts:158-161 | an attacker at 0 HP that knocks the defender to -5 loses: the defender is the winner |
| `Items.FirstMatch` | services/character-service/src/modules/item/item.controller.ts:156-161 | a `findOne` lookup returns the first matching row, and nothing only when no row matches |
| `Items.Highest` | services/character-service/src/modules/item/item.controller.ts:59-61 | the reduce yields a largest bonus: the first one on a tie with `>=`, the last one with `>` (lines 97-99) |
| `Items.SuffixRule` | services/character-service/src/modules/item/item.controller.ts:97-104 | the display name is `name + " of " + stat` for the stat with the largest bonus (ties broken as the handler does) when that bonus is > 0, and the plain name otherwise |
| `Items.SuffixIffPositiveBonus` | services/character-service/src/modules/item/item.controller.ts:63-65 | the name gets a suffix iff some bonus is positive |
| `Items.HandlersAgreeOnUniqueMax` | services/character-service/src/modules/item/item.controller.ts:90-104 | list and detail names agree whenever a single stat has the largest bonus |
| `Items.TieBreakDiffers` | services/character-service/src/modules/item/item.controller.ts:59-61 | strength and agility tied at 5: the list says "of Strength", the details say "of Agility" |
| `Items.WithSuffixes` | services/character-service/src/modules/item/item.controller.ts:51-71 | the list has one entry per item, in the same order, each equal to its item with only `name` replaced by the suffixed name |
| `Items.Catalog.CreateItem` | services/character-service/src/modules/item/item.controller.ts:11-38 | an absent or empty name gives 400. A taken name gives 409 and nothing is saved. Otherwise one item is appended under the new (unused, database-generated) id, with each absent bonus 0 and each given bonus kept, even 0. Item ids stay distinct |
| `Items.Catalog.GetItems` | services/character-service/src/modules/item/item.controller.ts:41-78 | 403 iff the caller is not a GameMaster; otherwise the list is `WithSuffixes` of the items: one entry per item in order, only the name changed, suffixed with ties to the earliest stat |
| `Items.Catalog.GetItemDetails` | services/character-service/src/modules/item/item.controller.ts:81-111 | 404 iff no item has the id; otherwise the item with that id (the only one, since ids are distinct) with its name unchanged and a display name whose ties go to the latest stat |
| `Items.Catalog.GrantItem` | services/character-service/src/modules/item/item.controller.ts:114-142 | a missing id gives 400, and an unknown character or item gives 404, with nothing changed. Otherwise a new link under an unused id is always appended, even for a pair already linked, and the character's cache key is deleted. Success iff both ids are present and both exist |
| `Items.Catalog.GiftItem` | services/character-service/src/modules/item/item.controller.ts:145-180 | a missing id gives 400, and a sender without a link to the item gives 404, with nothing changed. Otherwise the gift succeeds: exactly the first such link is reassigned to the receiver, every other link is unchanged, and both characters' cache keys are deleted. Success iff all three ids are present and the sender holds the item |
| `Items.HoldingPositive` | services/character-service/src/modules/item/item.controller.ts:156-165 | the lookup finds a link iff the sender holds the item at least once |
| `Items.GiftMovesOne` | services/character-service/src/modules/item/item.controller.ts:167-169 | a gift between different characters lowers the sender's count of that item by one and raises the receiver's by one; every other count is unchanged |
| `Items.GrantAddsOne` | services/character-service/src/modules/item/item.controller.ts:131-132 | a grant raises the pair's count by one, whether or not the pair was already linked |
| `Auth.NormalizeRole` | services/account-service/src/modules/auth/auth.controller.ts:34 | the stored role is GameMaster iff exactly "GameMaster" was requested |
| `Auth.ExpiresIn` | services/account-service/src/modules/auth/auth.controller.ts:93-97 | a lifetime exists iff the setting is present and parses to a nonzero duration; it is that duration in ms rounded down to whole seconds |
| `Auth.Login` | services/account-service/src/modules/auth/auth.controller.ts:57-110 | missing credentials give 400. An unknown user and a wrong password both give the identical 401. A missing secret gives 500, and only after valid credentials. A token is the signature of exactly `{userId: id, role}` |
| `Auth.UserTable.Register` | services/account-service/src/modules/auth/auth.controller.ts:10-49 | missing credentials give 400 before the table is read. A taken username gives 409 with the table unchanged. Otherwise the table gains exactly one row holding the hash of the password and the normalised role, and the answer is only id, username and role. The new id is unused, and user ids stay distinct |
| `Auth.RegisterThenLogin` | services/account-service/src/modules/auth/auth.controller.ts:62-102 | a just-registered user logs in with the same password; the token carries the new id and the normalised role |
| `Characters.CreationCheck` | services/character-service/src/modules/character/character.controller.ts:19-26 | the name is checked first (400), then the class id (400), then the authenticated user (401); creation proceeds iff all three pass |
| `Characters.NewCharacter` | services/character-service/src/modules/character/character.controller.ts:35-45 | absent numbers default to health 100, mana 50 and each base stat 10; given values, 0 included, are kept; the owner is the authenticated user |
| `Characters.OwnerComesFromToken` | services/character-service/src/modules/character/character.controller.ts:43 | a client-supplied `createdBy` has no effect on the stored character |
| `Characters.CharacterTable.CreateCharacter` | services/character-service/src/modules/character/character.controller.ts:5-53 | a failed check answers with its error and stores nothing. A taken name gives 409 and stores nothing. Otherwise exactly the new character is stored under its name, with an unused id; names and ids stay unique |

## Left out

- The owner columns `attackerUserId` and `defenderUserId`: `Duel.ts` does not declare them; only the migration `1766512261417-AddUserIdsToDuel.ts:34-35` adds them, as NOT NULL. The model treats them as mapped entity columns, as the handlers and the migration intend. As the entity is written, the challenge insert would break that NOT NULL constraint (answer 400) and every participant check would compare with an undefined owner (answer 403); the model does not capture that.
- HTTP plumbing: the Express request and response, and the bodies of the 200 answers other than the values modelled.
- The HTTP client calls to the character service. They become `Fetch` inputs and a returned `GiftRequest`, so whether the gift POST succeeds is not modelled. Its failure is swallowed by the source and changes nothing.
- `Combat.ChallengeDecision`: when both fetches fail, the model reports the attacker's failure. In the source the first rejection in time wins. The upstream error `details` body is not carried in the answer.
- Concurrency. Two simultaneous actions on one duel are not modelled. The code has no locking, so it cannot promise an at-most-once reward transfer.
- `handleDuelEnd` is awaited before the duel is saved. A failing save (500) after a transfer has been requested is not modelled, and neither are other database failures that the handlers turn into 500 (or into 400 in `challenge`).
- Database constraints that the handlers do not check themselves are not modelled, so the model accepts these writes:
  - the NOT NULL `item.description` column, for `createItem` without a description;
  - the foreign key from a character to its class, for an unknown class id;
  - the foreign key from `character_item` to `character`, for a gift to a well-formed but unknown `toCharacterId`: the source's save fails with 500 and changes nothing, while `Items.Catalog.GiftItem` answers Ok and moves the link;
  - malformed uuids in lookups;
  - 32-bit integer columns, for hit points pushed out of range.
- The source reads the clock twice in `attack`, once for the draw check and once for `now`. The model uses one instant. Elapsed minutes as a float become the integer test `now - createdAt > 300000`.
- Stats in `CharacterView` and body numbers are integers: non-numeric JSON values are not modelled. `Auth.ExpiresIn` takes the parsed duration as an integer number of milliseconds, so fractional durations are not modelled.
- bcrypt, jsonwebtoken and the duration parser are function parameters. Which inputs make the signer throw (the `None` of `sign`, answered with 500) is not modelled, for example an undefined `expiresIn`.
- `giftItem`'s lookup returns the first matching link in table order. The database does not specify which of several matching links it returns.
- Token verification middleware, migrations, database configuration, seeding, startup code, route wiring and logging.

