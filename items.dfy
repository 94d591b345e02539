/** The character service's item rules: the item catalogue, the stat-suffix
    display names of the list and detail handlers, and the character↔item
    link table that `grantItem` and `giftItem` update, with the cache keys
    they invalidate. */
module Items {
  import opened Common

  /** An `item` row. */
  datatype Item = Item(
    id: string,
    name: string,
    description: Option<string>,
    bonusStrength: int,
    bonusAgility: int,
    bonusIntelligence: int,
    bonusFaith: int)

  /** The body of `POST /items`. */
  datatype ItemBody = ItemBody(
    name: Option<string>,
    description: Option<string>,
    bonusStrength: Option<int>,
    bonusAgility: Option<int>,
    bonusIntelligence: Option<int>,
    bonusFaith: Option<int>)

  /** A `character_item` row: one character holding one item. */
  datatype Link = Link(id: string, characterId: string, itemId: string)

  /** The body of `GET /items/:id`: the item with its display name beside it. */
  datatype ItemDetails = ItemDetails(item: Item, displayName: string)

  /** One entry of the four-stat list the suffix is chosen from. */
  datatype StatBonus = StatBonus(name: string, value: int)

  // ---------------------------------------------------------------------------
  // Lookups

  /** The first position whose element satisfies `p`: how a `findOne` over a
      table in its stored order is modelled. */
  function FirstMatch<T>(s: seq<T>, p: T -> bool): (r: Option<nat>)
    ensures r.Some? ==> r.value < |s| && p(s[r.value]) && forall j :: 0 <= j < r.value ==> !p(s[j])
    ensures r.None? ==> forall j :: 0 <= j < |s| ==> !p(s[j])
    decreases |s|
  {
    if s == [] then None
    else if p(s[0]) then Some(0)
    else
      match FirstMatch(s[1..], p)
      case None => None
      case Some(k) => Some(k + 1)
  }

  function FindItem(items: seq<Item>, id: string): Option<nat>
  {
    FirstMatch(items, (i: Item) => i.id == id)
  }

  function FindLink(links: seq<Link>, characterId: string, itemId: string): Option<nat>
  {
    FirstMatch(links, (l: Link) => l.characterId == characterId && l.itemId == itemId)
  }

  predicate NameTaken(items: seq<Item>, name: string)
  {
    exists i :: 0 <= i < |items| && items[i].name == name
  }

  /** The Redis key of a character's cached view. */
  function CacheKey(characterId: string): string
  {
    "character:" + characterId
  }

  // ---------------------------------------------------------------------------
  // Display names

  /** The stats in the order the handlers list them. */
  function Bonuses(item: Item): (s: seq<StatBonus>)
    ensures |s| == 4
  {
    [ StatBonus("Strength", item.bonusStrength),
      StatBonus("Agility", item.bonusAgility),
      StatBonus("Intelligence", item.bonusIntelligence),
      StatBonus("Faith", item.bonusFaith) ]
  }

  /** `stats.reduce((prev, current) => prev.value >= current.value ? prev : current)`
      when `keepPrevOnTie`, and the same with `>` otherwise: the position of a
      largest value, the first such position with `>=` and the last with `>`. */
  function Highest(stats: seq<StatBonus>, keepPrevOnTie: bool): (k: nat)
    requires |stats| > 0
    ensures k < |stats|
    ensures forall j :: 0 <= j < |stats| ==> stats[j].value <= stats[k].value
    ensures keepPrevOnTie ==> forall j :: 0 <= j < k ==> stats[j].value < stats[k].value
    ensures !keepPrevOnTie ==> forall j :: k < j < |stats| ==> stats[j].value < stats[k].value
    decreases |stats|
  {
    if |stats| == 1 then 0
    else
      var prev := Highest(stats[..|stats| - 1], keepPrevOnTie);
      var current := |stats| - 1;
      var keep := if keepPrevOnTie then stats[prev].value >= stats[current].value
                  else stats[prev].value > stats[current].value;
      if keep then prev else current
  }

  /** The item's name with " of <stat>" appended when the highest bonus is
      positive; `keepPrevOnTie` is the list handler's `>=`, its negation the
      detail handler's `>`. */
  function SuffixedName(item: Item, keepPrevOnTie: bool): string
  {
    var stats := Bonuses(item);
    var highest := stats[Highest(stats, keepPrevOnTie)];
    if highest.value > 0 then item.name + " of " + highest.name else item.name
  }

  /** The stat at position `k` is the one the suffix should name: its bonus is
      a largest one and, on a tie, it comes first (list) or last (details). */
  predicate IsSuffixStat(item: Item, k: nat, keepPrevOnTie: bool)
  {
    var stats := Bonuses(item);
    && k < 4
    && (forall j :: 0 <= j < 4 ==> stats[j].value <= stats[k].value)
    && (keepPrevOnTie ==> forall j :: 0 <= j < k ==> stats[j].value < stats[k].value)
    && (!keepPrevOnTie ==> forall j :: k < j < 4 ==> stats[j].value < stats[k].value)
  }

  /** The suffix names the stat with the largest bonus (tie broken as the
      handler does) when that bonus is positive, and there is no suffix
      otherwise. */
  lemma SuffixRule(item: Item, keepPrevOnTie: bool, k: nat)
    requires IsSuffixStat(item, k, keepPrevOnTie)
    ensures Bonuses(item)[k].value > 0 ==>
              SuffixedName(item, keepPrevOnTie) == item.name + " of " + Bonuses(item)[k].name
    ensures Bonuses(item)[k].value <= 0 ==> SuffixedName(item, keepPrevOnTie) == item.name
  {
  }

  /** The name changes exactly when some bonus is positive. */
  lemma SuffixIffPositiveBonus(item: Item, keepPrevOnTie: bool)
    ensures SuffixedName(item, keepPrevOnTie) != item.name <==>
              item.bonusStrength > 0 || item.bonusAgility > 0 || item.bonusIntelligence > 0 || item.bonusFaith > 0
  {
    var stats := Bonuses(item);
    var h := Highest(stats, keepPrevOnTie);
    assert stats[0].value <= stats[h].value && stats[1].value <= stats[h].value;
    assert stats[2].value <= stats[h].value && stats[3].value <= stats[h].value;
    if stats[h].value > 0 {
      assert |SuffixedName(item, keepPrevOnTie)| > |item.name|;
    }
  }

  /** When a single stat has the largest bonus the two handlers agree. */
  lemma HandlersAgreeOnUniqueMax(item: Item, k: nat)
    requires k < 4
    requires forall j :: 0 <= j < 4 && j != k ==> Bonuses(item)[j].value < Bonuses(item)[k].value
    ensures SuffixedName(item, true) == SuffixedName(item, false)
  {
    SuffixRule(item, true, k);
    SuffixRule(item, false, k);
  }

  /** Strength and agility tied at 5: the list says "of Strength", the
      details "of Agility". */
  lemma TieBreakDiffers()
    ensures var item := Item("i", "Blade", None, 5, 5, 0, 0);
            && SuffixedName(item, true) == "Blade of Strength"
            && SuffixedName(item, false) == "Blade of Agility"
  {
    var item := Item("i", "Blade", None, 5, 5, 0, 0);
    SuffixRule(item, true, 0);
    SuffixRule(item, false, 1);
  }

  /** The body of `GET /items`: every item, in table order, with only its
      name replaced by the list handler's suffixed name. */
  function WithSuffixes(items: seq<Item>): (r: seq<Item>)
    ensures |r| == |items|
    ensures forall i :: 0 <= i < |items| ==> r[i] == items[i].(name := SuffixedName(items[i], true))
    decreases |items|
  {
    if items == [] then []
    else [items[0].(name := SuffixedName(items[0], true))] + WithSuffixes(items[1..])
  }

  // ---------------------------------------------------------------------------
  // How many times a character holds an item

  predicate Holds(l: Link, characterId: string, itemId: string)
  {
    l.characterId == characterId && l.itemId == itemId
  }

  /** The number of links from `characterId` to `itemId`. */
  function Holding(links: seq<Link>, characterId: string, itemId: string): nat
    decreases |links|
  {
    if links == [] then 0
    else (if Holds(links[0], characterId, itemId) then 1 else 0) + Holding(links[1..], characterId, itemId)
  }

  /** A character holds an item at least once exactly when some link says so,
      which is when `findOne` finds one. */
  lemma {:induction false} HoldingPositive(links: seq<Link>, characterId: string, itemId: string)
    ensures Holding(links, characterId, itemId) > 0 <==> FindLink(links, characterId, itemId).Some?
    decreases |links|
  {
    if links != [] {
      HoldingPositive(links[1..], characterId, itemId);
      var p := (l: Link) => l.characterId == characterId && l.itemId == itemId;
      if !Holds(links[0], characterId, itemId) && FindLink(links[1..], characterId, itemId).Some? {
        var k := FindLink(links[1..], characterId, itemId).value;
        assert p(links[k + 1]);
      }
    }
  }

  /** Appending a link adds one to the count of its own pair only. */
  lemma {:induction false} HoldingAppend(links: seq<Link>, l: Link, characterId: string, itemId: string)
    ensures Holding(links + [l], characterId, itemId)
         == Holding(links, characterId, itemId) + (if Holds(l, characterId, itemId) then 1 else 0)
    decreases |links|
  {
    if links == [] {
      assert links + [l] == [l];
    } else {
      assert (links + [l])[1..] == links[1..] + [l];
      HoldingAppend(links[1..], l, characterId, itemId);
    }
  }

  /** Replacing one link moves one unit of count from its old pair to its new one. */
  lemma {:induction false} HoldingUpdate(links: seq<Link>, k: nat, l: Link, characterId: string, itemId: string)
    requires k < |links|
    ensures Holding(links[k := l], characterId, itemId)
         == Holding(links, characterId, itemId)
            - (if Holds(links[k], characterId, itemId) then 1 else 0)
            + (if Holds(l, characterId, itemId) then 1 else 0)
    decreases |links|
  {
    if k == 0 {
      assert links[k := l][1..] == links[1..];
    } else {
      assert links[k := l][1..] == links[1..][k - 1 := l];
      HoldingUpdate(links[1..], k - 1, l, characterId, itemId);
    }
  }

  // ---------------------------------------------------------------------------
  // The tables and the handlers

  /** No two items share an id (the primary key of `item`). */
  predicate DistinctItemIds(items: seq<Item>)
  {
    forall i, j :: 0 <= i < j < |items| ==> items[i].id != items[j].id
  }

  /** No two links share an id (the primary key of `character_item`). */
  predicate DistinctLinkIds(links: seq<Link>)
  {
    forall i, j :: 0 <= i < j < |links| ==> links[i].id != links[j].id
  }

  /** The `item` and `character_item` tables, and the cache keys deleted so far. */
  class Catalog {
    var items: seq<Item>
    var links: seq<Link>
    var invalidated: set<string>

    /** The primary keys of both tables hold. */
    predicate Valid()
      reads this
    {
      DistinctItemIds(items) && DistinctLinkIds(links)
    }

    constructor (items: seq<Item>, links: seq<Link>)
      requires DistinctItemIds(items) && DistinctLinkIds(links)
      ensures Valid()
      ensures this.items == items && this.links == links && invalidated == {}
    {
      this.items, this.links, invalidated := items, links, {};
    }

    /** POST /items. An absent or empty name is refused, then a name already
        in use; each absent bonus becomes 0 and a given one is kept. */
    method CreateItem(body: ItemBody, newId: string) returns (r: Result<Item>)
      requires Valid() && FindItem(items, newId).None?
      modifies this
      ensures Valid()
      ensures !Truthy(body.name) ==> r == Err(HttpError(400, "Item name is required"))
      ensures Truthy(body.name) && NameTaken(old(items), body.name.value) ==>
                r == Err(HttpError(409, "Item with this name already exists"))
      ensures Truthy(body.name) && !NameTaken(old(items), body.name.value) ==>
                && r.Ok?
                && r.value == Item(newId, body.name.value, body.description,
                                   body.bonusStrength.GetOr(0), body.bonusAgility.GetOr(0),
                                   body.bonusIntelligence.GetOr(0), body.bonusFaith.GetOr(0))
                && items == old(items) + [r.value]
      ensures r.Err? ==> items == old(items)
      ensures links == old(links) && invalidated == old(invalidated)
    {
      if !Truthy(body.name) {
        return Err(HttpError(400, "Item name is required"));
      }
      var name := body.name.value;
      if exists i :: 0 <= i < |items| && items[i].name == name {
        return Err(HttpError(409, "Item with this name already exists"));
      }
      var item := Item(newId, name, body.description,
                       body.bonusStrength.GetOr(0), body.bonusAgility.GetOr(0),
                       body.bonusIntelligence.GetOr(0), body.bonusFaith.GetOr(0));
      items := items + [item];
      r := Ok(item);
    }

    /** GET /items: game masters only, then every item with its suffixed name. */
    function GetItems(callerRole: Option<string>): (r: Result<seq<Item>>)
      reads this
      ensures r.Err? <==> callerRole != Some("GameMaster")
      ensures r.Err? ==> r.error.status == 403
      ensures r.Ok? ==> r.value == WithSuffixes(items)
      ensures r.Ok? ==> |r.value| == |items|
      ensures r.Ok? ==> forall i :: 0 <= i < |items| ==>
                r.value[i].id == items[i].id && r.value[i].description == items[i].description
                && r.value[i].name == SuffixedName(items[i], true)
    {
      if callerRole != Some("GameMaster") then Err(HttpError(403, "Only Game Masters can list all items"))
      else Ok(WithSuffixes(items))
    }

    /** GET /items/:id: 404 for an unknown id, otherwise the item with the
        detail handler's display name beside its unchanged name. */
    function GetItemDetails(id: string): (r: Result<ItemDetails>)
      reads this
      ensures r.Err? <==> forall j :: 0 <= j < |items| ==> items[j].id != id
      ensures r.Err? ==> r.error.status == 404
      ensures r.Ok? ==> r.value.item in items && r.value.item.id == id
                        && r.value.displayName == SuffixedName(r.value.item, false)
      ensures r.Ok? && Valid() ==> forall j :: 0 <= j < |items| && items[j].id == id ==> items[j] == r.value.item
    {
      match FindItem(items, id)
      case None => Err(HttpError(404, "Item not found"))
      case Some(k) =>
        Ok(ItemDetails(items[k], SuffixedName(items[k], false)))
    }

    /** POST /items/grant. Both ids are required, both must exist; then a new
        link is always added, even for a pair already linked, and the
        character's cache key is deleted. `characters` is the set of ids in
        the character table. */
    method GrantItem(characterId: Option<string>, itemId: Option<string>,
                     characters: set<string>, newLinkId: string)
      returns (r: Result<string>)
      requires Valid() && forall j :: 0 <= j < |links| ==> links[j].id != newLinkId
      modifies this
      ensures Valid()
      ensures !(Truthy(characterId) && Truthy(itemId)) ==>
                r == Err(HttpError(400, "characterId and itemId are required"))
      ensures Truthy(characterId) && Truthy(itemId)
              && (characterId.value !in characters || FindItem(old(items), itemId.value).None?) ==>
                r == Err(HttpError(404, "Character or Item not found"))
      ensures r.Err? ==> links == old(links) && invalidated == old(invalidated)
      ensures r.Ok? ==>
                && links == old(links) + [Link(newLinkId, characterId.value, itemId.value)]
                && invalidated == old(invalidated) + {CacheKey(characterId.value)}
      ensures r.Ok? <==> Truthy(characterId) && Truthy(itemId)
                         && characterId.value in characters && FindItem(old(items), itemId.value).Some?
      ensures items == old(items)
    {
      if !Truthy(characterId) || !Truthy(itemId) {
        return Err(HttpError(400, "characterId and itemId are required"));
      }
      var found := FindItem(items, itemId.value);
      if characterId.value !in characters || found.None? {
        return Err(HttpError(404, "Character or Item not found"));
      }
      links := links + [Link(newLinkId, characterId.value, itemId.value)];
      invalidated := invalidated + {CacheKey(characterId.value)};
      r := Ok("Item granted successfully");
    }

    /** POST /items/gift. All three ids are required; the sender must hold the
        item; then one of its links to the item is handed to the receiver and
        both characters' cache keys are deleted. */
    method GiftItem(fromCharacterId: Option<string>, toCharacterId: Option<string>, itemId: Option<string>)
      returns (r: Result<string>)
      requires Valid()
      modifies this
      ensures Valid()
      ensures !(Truthy(fromCharacterId) && Truthy(toCharacterId) && Truthy(itemId)) ==>
                r == Err(HttpError(400, "Missing required IDs"))
      ensures Truthy(fromCharacterId) && Truthy(toCharacterId) && Truthy(itemId)
              && FindLink(old(links), fromCharacterId.value, itemId.value).None? ==>
                r == Err(HttpError(404, "Source character does not own this item"))
      ensures r.Err? ==> links == old(links) && invalidated == old(invalidated)
      ensures r.Ok? ==>
                && Truthy(fromCharacterId) && Truthy(toCharacterId) && Truthy(itemId)
                && var k := FindLink(old(links), fromCharacterId.value, itemId.value);
                && k.Some?
                && links == old(links)[k.value := old(links)[k.value].(characterId := toCharacterId.value)]
                && invalidated == old(invalidated) + {CacheKey(fromCharacterId.value), CacheKey(toCharacterId.value)}
      ensures r.Ok? <==> Truthy(fromCharacterId) && Truthy(toCharacterId) && Truthy(itemId)
                         && FindLink(old(links), fromCharacterId.value, itemId.value).Some?
      ensures items == old(items)
    {
      if !Truthy(fromCharacterId) || !Truthy(toCharacterId) || !Truthy(itemId) {
        return Err(HttpError(400, "Missing required IDs"));
      }
      var found := FindLink(links, fromCharacterId.value, itemId.value);
      if found.None? {
        return Err(HttpError(404, "Source character does not own this item"));
      }
      var k := found.value;
      links := links[k := links[k].(characterId := toCharacterId.value)];
      invalidated := invalidated + {CacheKey(fromCharacterId.value)};
      invalidated := invalidated + {CacheKey(toCharacterId.value)};
      r := Ok("Item gifted successfully");
    }
  }

  /** A gift moves exactly one holding: the sender holds the item one time
      fewer, the receiver one time more, and every other character/item
      count is unchanged. */
  lemma GiftMovesOne(links: seq<Link>, from: string, to: string, itemId: string, c: string, i: string)
    requires FindLink(links, from, itemId).Some?
    requires from != to
    ensures var k := FindLink(links, from, itemId).value;
            var after := links[k := links[k].(characterId := to)];
            && Holding(after, from, itemId) == Holding(links, from, itemId) - 1
            && Holding(after, to, itemId) == Holding(links, to, itemId) + 1
            && ((c != from && c != to) || i != itemId ==> Holding(after, c, i) == Holding(links, c, i))
  {
    var k := FindLink(links, from, itemId).value;
    var l := links[k].(characterId := to);
    HoldingUpdate(links, k, l, from, itemId);
    HoldingUpdate(links, k, l, to, itemId);
    HoldingUpdate(links, k, l, c, i);
  }

  /** A grant adds one holding of its pair, whether or not it was already held. */
  lemma GrantAddsOne(links: seq<Link>, newLinkId: string, characterId: string, itemId: string)
    ensures Holding(links + [Link(newLinkId, characterId, itemId)], characterId, itemId)
         == Holding(links, characterId, itemId) + 1
  {
    HoldingAppend(links, Link(newLinkId, characterId, itemId), characterId, itemId);
  }
}
