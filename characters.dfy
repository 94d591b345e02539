/** The character service's `createCharacter` handler: the order of its
    checks, the `??` defaults of a new character, and the insert into a table
    whose names are unique. */
module Characters {
  import opened Common

  const DefaultHealth: int := 100
  const DefaultMana: int := 50
  const DefaultStat: int := 10

  /** The body of `POST /character`. `createdBy` is whatever the client sent
      under that name: the handler never reads it. */
  datatype CharacterBody = CharacterBody(
    name: Option<string>,
    health: Option<int>,
    mana: Option<int>,
    baseStrength: Option<int>,
    baseAgility: Option<int>,
    baseIntelligence: Option<int>,
    baseFaith: Option<int>,
    characterClassId: Option<string>,
    createdBy: Option<string>)

  /** The `user` the token check attached to the request, when there is one. */
  datatype Caller = Caller(userId: Option<string>)

  /** A `character` row. */
  datatype CharacterRecord = CharacterRecord(
    id: string,
    name: string,
    health: int,
    mana: int,
    baseStrength: int,
    baseAgility: int,
    baseIntelligence: int,
    baseFaith: int,
    createdBy: string,
    characterClassId: string)

  /** The first check that fails, in the handler's order: the name, then the
      class, then the authenticated user. */
  function CreationCheck(body: CharacterBody, user: Option<Caller>): (e: Option<HttpError>)
    ensures e == Some(HttpError(400, "Character name is required")) <==> !Truthy(body.name)
    ensures e == Some(HttpError(400, "Character class ID is required")) <==>
              Truthy(body.name) && !Truthy(body.characterClassId)
    ensures e == Some(HttpError(401, "Unauthorized: No user found in token")) <==>
              Truthy(body.name) && Truthy(body.characterClassId) && !(user.Some? && Truthy(user.value.userId))
    ensures e.None? <==>
              Truthy(body.name) && Truthy(body.characterClassId) && user.Some? && Truthy(user.value.userId)
  {
    if !Truthy(body.name) then Some(HttpError(400, "Character name is required"))
    else if !Truthy(body.characterClassId) then Some(HttpError(400, "Character class ID is required"))
    else if user.None? || !Truthy(user.value.userId) then Some(HttpError(401, "Unauthorized: No user found in token"))
    else None
  }

  /** The row `repo.create` builds: every absent number takes its default
      (health 100, mana 50, each base stat 10), every given one is kept, even
      0, and the owner is the authenticated user whatever the body says. */
  function NewCharacter(body: CharacterBody, userId: string, newId: string): (c: CharacterRecord)
    requires Truthy(body.name) && Truthy(body.characterClassId)
    ensures c.id == newId && c.name == body.name.value && c.characterClassId == body.characterClassId.value
    ensures c.createdBy == userId
    ensures body.health.None? ==> c.health == DefaultHealth
    ensures body.health.Some? ==> c.health == body.health.value
    ensures body.mana.None? ==> c.mana == DefaultMana
    ensures body.mana.Some? ==> c.mana == body.mana.value
    ensures body.baseStrength.None? ==> c.baseStrength == DefaultStat
    ensures body.baseStrength.Some? ==> c.baseStrength == body.baseStrength.value
    ensures body.baseAgility.None? ==> c.baseAgility == DefaultStat
    ensures body.baseAgility.Some? ==> c.baseAgility == body.baseAgility.value
    ensures body.baseIntelligence.None? ==> c.baseIntelligence == DefaultStat
    ensures body.baseIntelligence.Some? ==> c.baseIntelligence == body.baseIntelligence.value
    ensures body.baseFaith.None? ==> c.baseFaith == DefaultStat
    ensures body.baseFaith.Some? ==> c.baseFaith == body.baseFaith.value
  {
    CharacterRecord(
      id := newId,
      name := body.name.value,
      health := body.health.GetOr(DefaultHealth),
      mana := body.mana.GetOr(DefaultMana),
      baseStrength := body.baseStrength.GetOr(DefaultStat),
      baseAgility := body.baseAgility.GetOr(DefaultStat),
      baseIntelligence := body.baseIntelligence.GetOr(DefaultStat),
      baseFaith := body.baseFaith.GetOr(DefaultStat),
      createdBy := userId,
      characterClassId := body.characterClassId.value)
  }

  /** The `character` table, by name. */
  class CharacterTable {
    var characters: map<string, CharacterRecord>

    /** Each row is filed under its own name, and no two rows share an id
        (the primary key of `character`). */
    ghost predicate Valid()
      reads this
    {
      && (forall name :: name in characters ==> characters[name].name == name)
      && (forall a, b :: a in characters && b in characters && a != b ==> characters[a].id != characters[b].id)
    }

    constructor ()
      ensures Valid() && characters == map[]
    {
      characters := map[];
    }

    /** POST /character. A failing check or a name already in use stores
        nothing; otherwise the new character is stored under its name. */
    method CreateCharacter(body: CharacterBody, user: Option<Caller>, newId: string)
      returns (r: Result<CharacterRecord>)
      requires Valid() && forall name :: name in characters ==> characters[name].id != newId
      modifies this
      ensures Valid()
      ensures CreationCheck(body, user).Some? ==> r == Err(CreationCheck(body, user).value)
      ensures CreationCheck(body, user).None? && body.name.value in old(characters) ==>
                r == Err(HttpError(409, "Character name already exists"))
      ensures r.Err? ==> characters == old(characters)
      ensures r.Ok? <==> CreationCheck(body, user).None? && body.name.value !in old(characters)
      ensures r.Ok? ==>
                && CreationCheck(body, user).None?
                && r.value == NewCharacter(body, user.value.userId.value, newId)
                && characters == old(characters)[body.name.value := r.value]
    {
      if !Truthy(body.name) {
        return Err(HttpError(400, "Character name is required"));
      }
      if !Truthy(body.characterClassId) {
        return Err(HttpError(400, "Character class ID is required"));
      }
      if user.None? || !Truthy(user.value.userId) {
        return Err(HttpError(401, "Unauthorized: No user found in token"));
      }
      var name := body.name.value;
      if name in characters {
        return Err(HttpError(409, "Character name already exists"));
      }
      var character := NewCharacter(body, user.value.userId.value, newId);
      characters := characters[name := character];
      r := Ok(character);
    }
  }

  /** Two bodies that differ only in a client-supplied `createdBy` build the
      same character. */
  lemma OwnerComesFromToken(body: CharacterBody, claimed: Option<string>, userId: string, newId: string)
    requires Truthy(body.name) && Truthy(body.characterClassId)
    ensures NewCharacter(body.(createdBy := claimed), userId, newId) == NewCharacter(body, userId, newId)
  {
  }
}
