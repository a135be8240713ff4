/** Equipment on a ship: resolving variants to their base, and keeping every ship legal. */
module EquipSlots {
  import opened Options
  import opened Word32
  import opened Collections
  import opened EquipBag
  import Chains

  const BAG_MAX := 250

  // ---------- Equipment rows and their bases ----------

  /** A variant points at its base; only a row without a base has properties of its own. */
  datatype Row = Row(base: Option<u32>, equipLimit: int, forbidden: seq<u32>, kind: u32)

  type Table = map<u32, Row>

  datatype Config = Config(id: u32, equipLimit: int, forbidden: seq<u32>, kind: u32)

  /** Following bases from `id` ends within `n` steps. */
  ghost predicate BaseWithin(table: Table, id: u32, n: nat)
    decreases n
  {
    id !in table || table[id].base.None? || (n > 0 && BaseWithin(table, table[id].base.value, n - 1))
  }

  ghost predicate BaseEnds(table: Table, id: u32) {
    exists n: nat :: BaseWithin(table, id, n)
  }

  ghost predicate Acyclic(table: Table) {
    forall id: u32 :: BaseEnds(table, id)
  }

  ghost function BaseLinks(table: Table): Chains.Links {
    map id | id in table && table[id].base.Some? :: table[id].base.value
  }

  lemma {:induction false} BaseAlongLinks(table: Table, id: u32, n: nat)
    ensures BaseWithin(table, id, n) <==> Chains.Ends(BaseLinks(table), id, n)
    decreases n
  {
    if n > 0 && id in table && table[id].base.Some? { BaseAlongLinks(table, table[id].base.value, n - 1); }
  }

  /** No bases run in a circle exactly when from each row they end within as many steps as there are rows. */
  lemma AcyclicIff(table: Table)
    ensures Acyclic(table) <==> forall id :: id in table ==> BaseWithin(table, id, |table|)
  {
    forall id: u32 | BaseEnds(table, id)
      ensures BaseWithin(table, id, |table|)
    {
      var n: nat :| BaseWithin(table, id, n);
      BaseAlongLinks(table, id, n);
      Chains.EndsWithinSize(BaseLinks(table), table.Keys, id, n);
      BaseAlongLinks(table, id, |table|);
    }
    if forall id :: id in table ==> BaseWithin(table, id, |table|) {
      forall id: u32
        ensures BaseEnds(table, id)
      {
        assert BaseWithin(table, id, |table|);
      }
    } else {
      var id :| id in table && !BaseWithin(table, id, |table|);
      assert !BaseEnds(table, id);
    }
  }

  /** Base-chain resolution without a cache; absent when a row on the chain is missing. */
  ghost function ResolveIn(table: Table, id: u32, n: nat): Option<Config>
    requires BaseWithin(table, id, n)
    decreases n
  {
    if id !in table then None
    else if table[id].base.None? then Some(Config(id, table[id].equipLimit, table[id].forbidden, table[id].kind))
    else ResolveIn(table, table[id].base.value, n - 1)
  }

  lemma {:induction false} ResolveSame(table: Table, id: u32, m: nat, n: nat)
    requires BaseWithin(table, id, m) && BaseWithin(table, id, n)
    ensures ResolveIn(table, id, m) == ResolveIn(table, id, n)
    decreases m
  {
    if id in table && table[id].base.Some? {
      ResolveSame(table, table[id].base.value, m - 1, n - 1);
    }
  }

  ghost function Resolve(table: Table, id: u32): Option<Config>
    requires Acyclic(table)
  {
    assert BaseEnds(table, id);
    var n: nat :| BaseWithin(table, id, n);
    ResolveIn(table, id, n)
  }

  lemma ResolveIs(table: Table, id: u32, n: nat)
    requires Acyclic(table) && BaseWithin(table, id, n)
    ensures Resolve(table, id) == ResolveIn(table, id, n)
  {
    var m: nat :| BaseWithin(table, id, m) && Resolve(table, id) == ResolveIn(table, id, m);
    ResolveSame(table, id, m, n);
  }

  lemma ResolveStep(table: Table, id: u32)
    requires Acyclic(table)
    ensures id !in table ==> Resolve(table, id).None?
    ensures id in table && table[id].base.None? ==>
              Resolve(table, id) == Some(Config(id, table[id].equipLimit, table[id].forbidden, table[id].kind))
    ensures id in table && table[id].base.Some? ==> Resolve(table, id) == Resolve(table, table[id].base.value)
  {
    assert BaseEnds(table, id);
    var n: nat :| BaseWithin(table, id, n);
    ResolveIs(table, id, n);
    if id in table && table[id].base.Some? {
      ResolveIs(table, table[id].base.value, n - 1);
    }
  }

  /** The lookup cache of one request. */
  class Resolver {
    const table: Table
    var cache: map<u32, Config>

    /** Whatever is cached is what uncached resolution would answer. */
    ghost predicate Valid()
      reads this
    {
      Acyclic(table) && forall id :: id in cache ==> Resolve(table, id) == Some(cache[id])
    }

    constructor (table: Table)
      requires Acyclic(table)
      ensures Valid() && this.table == table && cache == map[]
    {
      this.table := table;
      cache := map[];
    }

    /** `resolveEquipmentConfig`: recursion ends because the bases do. */
    method ResolveConfig(id: u32, ghost n: nat) returns (r: Option<Config>)
      requires Valid() && BaseWithin(table, id, n)
      modifies `cache
      ensures Valid()
      ensures r == Resolve(table, id)
      ensures old(cache.Keys) <= cache.Keys && (r.Some? ==> id in cache)
      decreases n
    {
      ResolveStep(table, id);
      if id in cache { return Some(cache[id]); }
      if id !in table { return None; }
      var row := table[id];
      var entry := Config(id, row.equipLimit, row.forbidden, row.kind);
      if row.base.Some? {
        var base := ResolveConfig(row.base.value, n - 1);
        if base.None? { return None; }
        entry := base.value;
      }
      cache := cache[id := entry];
      return Some(entry);
    }

    method Lookup(id: u32) returns (r: Option<Config>)
      requires Valid()
      modifies `cache
      ensures Valid() && r == Resolve(table, id)
    {
      assert BaseEnds(table, id);
      ghost var n: nat :| BaseWithin(table, id, n);
      r := ResolveConfig(id, n);
    }
  }

  // ---------- A ship's slots ----------

  datatype Slot = Slot(equipId: u32, skinId: u32)

  /** The ship's slot rows, keyed by position, and the gear in the bag. */
  datatype Loadout = Loadout(slots: map<u32, Slot>, gear: Stock)

  /** What the ship's template says: accepted types per position 1 to 5, and the ship's own type. */
  datatype ShipKind = ShipKind(accepts: seq<seq<u32>>, shipType: u32)

  function SlotTypes(k: ShipKind, pos: u32): seq<u32> {
    if 1 <= pos <= 5 && pos <= |k.accepts| then k.accepts[pos - 1] else []
  }

  /** The last position that accepts anything, 3 if none does. */
  function SlotCount(k: ShipKind): u32 {
    if SlotTypes(k, 5) != [] then 5
    else if SlotTypes(k, 4) != [] then 4
    else if SlotTypes(k, 3) != [] then 3
    else if SlotTypes(k, 2) != [] then 2
    else if SlotTypes(k, 1) != [] then 1
    else 3
  }

  function EquippedAt(slots: map<u32, Slot>, pos: u32): u32 {
    if pos in slots then slots[pos].equipId else 0
  }

  ghost predicate FitsSlot(table: Table, k: ShipKind, pos: u32, id: u32)
    requires Acyclic(table)
  {
    var c := Resolve(table, id);
    c.Some? && c.value.kind in SlotTypes(k, pos) && k.shipType !in c.value.forbidden
  }

  ghost function LimitOf(table: Table, id: u32): int
    requires Acyclic(table)
  {
    var c := Resolve(table, id);
    if c.Some? then c.value.equipLimit else 0
  }

  /** A slot other than `pos` holds a piece of this limited group. */
  ghost predicate Carried(table: Table, slots: map<u32, Slot>, pos: u32, limit: int)
    requires Acyclic(table)
  {
    exists p :: p in slots && p != pos && slots[p].equipId != 0 && LimitOf(table, slots[p].equipId) == limit
  }

  /** Another slot already holds a piece of the same limited group as `id`. */
  ghost predicate Clashes(table: Table, slots: map<u32, Slot>, pos: u32, id: u32)
    requires Acyclic(table)
  {
    LimitOf(table, id) != 0 && Carried(table, slots, pos, LimitOf(table, id))
  }

  /** The limit scan stops at `p`: its piece cannot be resolved or is of the limited group. */
  ghost predicate Stops(table: Table, slots: map<u32, Slot>, pos: u32, limit: int, p: u32)
    requires Acyclic(table)
  {
    p in slots && p != pos && slots[p].equipId != 0 &&
    var c := Resolve(table, slots[p].equipId);
    c.None? || c.value.equipLimit == limit
  }

  ghost predicate StopsFirst(table: Table, slots: map<u32, Slot>, pos: u32, limit: int, p: u32)
    requires Acyclic(table)
  {
    Stops(table, slots, pos, limit, p) && forall q: u32 :: Stops(table, slots, pos, limit, q) ==> p <= q
  }

  /**
   Whether the other slots, visited by ascending position, leave the limited group free; no
   answer on a failed lookup.
   */
  ghost function Scan(table: Table, slots: map<u32, Slot>, pos: u32, limit: int): Option<bool>
    requires Acyclic(table)
  {
    if exists p: u32 :: StopsFirst(table, slots, pos, limit, p) then
      var p: u32 :| StopsFirst(table, slots, pos, limit, p);
      if Resolve(table, slots[p].equipId).None? then None else Some(false)
    else Some(true)
  }

  /** Whether `id` may stand at `pos` beside what the other slots hold. */
  ghost function Allowed(table: Table, k: ShipKind, slots: map<u32, Slot>, pos: u32, id: u32): Option<bool>
    requires Acyclic(table)
  {
    if Resolve(table, id).None? then None
    else if !FitsSlot(table, k, pos, id) then Some(false)
    else if LimitOf(table, id) == 0 then Some(true)
    else Scan(table, slots, pos, LimitOf(table, id))
  }

  /** Every occupied slot holds a fitting piece and no limited group is carried twice. */
  ghost predicate Legal(table: Table, k: ShipKind, slots: map<u32, Slot>)
    requires Acyclic(table)
  {
    && (forall p :: p in slots && slots[p].equipId != 0 ==> FitsSlot(table, k, p, slots[p].equipId))
    && forall p :: p in slots && slots[p].equipId != 0 ==> !Clashes(table, slots, p, slots[p].equipId)
  }

  /** Every equipped piece can be resolved. */
  ghost predicate Resolvable(table: Table, slots: map<u32, Slot>)
    requires Acyclic(table)
  {
    forall p :: p in slots && slots[p].equipId != 0 ==> Resolve(table, slots[p].equipId).Some?
  }

  // ---------- Counting copies ----------

  ghost function Bearing(slots: map<u32, Slot>, id: u32): set<u32> {
    set p | p in slots && slots[p].equipId == id
  }

  /** The copies of `id` in the bag and on the ship. */
  ghost function Copies(l: Loadout, id: u32): int {
    Count(l.gear, id) + |Bearing(l.slots, id)|
  }

  lemma SlotChange(slots: map<u32, Slot>, pos: u32, s: Slot, id: u32)
    requires id != 0
    ensures |Bearing(slots[pos := s], id)| ==
            |Bearing(slots, id)| - (if EquippedAt(slots, pos) == id then 1 else 0) + (if s.equipId == id then 1 else 0)
  {
    var others := Bearing(slots, id) - {pos};
    assert Bearing(slots, id) == if EquippedAt(slots, pos) == id then others + {pos} else others;
    assert Bearing(slots[pos := s], id) == if s.equipId == id then others + {pos} else others;
  }

  ghost function BagTotal(m: Stock): nat {
    SumOver(m, m.Keys)
  }

  lemma SumOfNothing(m: Stock)
    ensures SumOver(m, {}) == 0
  {
  }

  lemma CountOne(total: u32, one: nat, rest: nat)
    ensures Wrap(total + (one + rest)) == Wrap(Add(total, Wrap(one)) + rest)
  {
    var sum := total + one;
    WrapSmall(total);
    WrapSum(total, one);
    WrapAdd(sum, rest);
    assert total + (one + rest) == sum + rest;
  }

  // ---------- The handlers ----------

  /** `slot` becomes the row at `pos`. */
  ghost function WithSlot(l: Loadout, pos: u32, slot: Slot, gear: Stock): Loadout {
    Loadout(l.slots[pos := slot], gear)
  }

  ghost predicate SlotOpen(k: ShipKind, pos: u32) {
    pos != 0 && pos <= SlotCount(k) && SlotTypes(k, pos) != []
  }

  /** Taking the piece at `pos` off. */
  ghost function Unequipped(l: Loadout, pos: u32): Loadout {
    WithSlot(l, pos, Slot(0, 0), PutGear(l.gear, EquippedAt(l.slots, pos)))
  }

  /** Putting `id` on at `pos`; what was there goes into the bag first. */
  ghost function Swapped(l: Loadout, pos: u32, id: u32): Loadout
    requires Count(l.gear, id) >= 1
  {
    var old' := EquippedAt(l.slots, pos);
    var gear := if old' != 0 then PutGear(l.gear, old') else l.gear;
    WithSlot(l, pos, Slot(id, 0), TakeGear(gear, id))
  }

  ghost predicate MayStay(table: Table, k: ShipKind, l: Loadout, pos: u32, id: u32)
    requires Acyclic(table)
  {
    Allowed(table, k, l.slots, pos, id) == Some(true)
  }

  lemma SomeStopsFirst(table: Table, slots: map<u32, Slot>, pos: u32, limit: int)
    requires Acyclic(table) && exists p: u32 :: Stops(table, slots, pos, limit, p)
    ensures exists p: u32 :: StopsFirst(table, slots, pos, limit, p)
  {
    hide Stops;
    var all := set p | p in slots && Stops(table, slots, pos, limit, p);
    var p: u32 :| Stops(table, slots, pos, limit, p);
    assert p in all by { StopsInSlots(table, slots, pos, limit, p); }
    var first := Smallest(all);
    forall q: u32 | Stops(table, slots, pos, limit, q)
      ensures first <= q
    {
      StopsInSlots(table, slots, pos, limit, q);
      assert q in all;
    }
    assert StopsFirst(table, slots, pos, limit, first);
  }

  lemma StopsInSlots(table: Table, slots: map<u32, Slot>, pos: u32, limit: int, p: u32)
    requires Acyclic(table) && Stops(table, slots, pos, limit, p)
    ensures p in slots
  {
  }

  /**
   A piece may stay exactly when it fits, no other slot carries its limited group and, if
   it is limited, every other piece can be resolved.
   */
  lemma MayStayIff(table: Table, k: ShipKind, l: Loadout, pos: u32, id: u32)
    requires Acyclic(table)
    ensures MayStay(table, k, l, pos, id) <==>
            && FitsSlot(table, k, pos, id) && !Clashes(table, l.slots, pos, id)
            && (LimitOf(table, id) != 0 ==> Resolvable(table, l.slots - {pos}))
  {
    var limit := LimitOf(table, id);
    if FitsSlot(table, k, pos, id) && limit != 0 {
      if p: u32 :| Stops(table, l.slots, pos, limit, p) {
        SomeStopsFirst(table, l.slots, pos, limit);
        assert p in l.slots - {pos};
      } else {
        forall p | p in l.slots && p != pos && l.slots[p].equipId != 0
          ensures Resolve(table, l.slots[p].equipId).Some? && LimitOf(table, l.slots[p].equipId) != limit
        {
          assert !Stops(table, l.slots, pos, limit, p);
        }
      }
    }
  }

  ghost predicate MayEquip(table: Table, k: ShipKind, l: Loadout, pos: u32, id: u32)
    requires Acyclic(table)
  {
    Count(l.gear, id) >= 1 && MayStay(table, k, l, pos, id)
  }

  /** A row of the ship's in-memory equipment list. */
  datatype Listed = Listed(pos: u32, slot: Slot)

  /** The list shows the slot rows, each position once. */
  ghost predicate Mirrors(list: seq<Listed>, slots: map<u32, Slot>) {
    && (forall i :: 0 <= i < |list| ==> list[i].pos in slots && slots[list[i].pos] == list[i].slot)
    && (forall i, j :: 0 <= i < j < |list| ==> list[i].pos != list[j].pos)
    && forall p :: p in slots ==> Lists(list, p)
  }

  ghost predicate Lists(list: seq<Listed>, pos: u32) {
    exists i :: 0 <= i < |list| && list[i].pos == pos
  }

  lemma MirrorsChange(list: seq<Listed>, slots: map<u32, Slot>, i: nat, slot: Slot)
    requires Mirrors(list, slots) && i < |list|
    ensures Mirrors(list[i := Listed(list[i].pos, slot)], slots[list[i].pos := slot])
  {
    var after := list[i := Listed(list[i].pos, slot)];
    forall p | p in slots
      ensures Lists(after, p)
    {
      assert Lists(list, p);
      var j :| 0 <= j < |list| && list[j].pos == p;
      assert after[j].pos == p;
    }
  }

  lemma MirrorsAppend(list: seq<Listed>, slots: map<u32, Slot>, pos: u32, slot: Slot)
    requires Mirrors(list, slots) && forall i :: 0 <= i < |list| ==> list[i].pos != pos
    ensures Mirrors(list + [Listed(pos, slot)], slots[pos := slot])
  {
    var after := list + [Listed(pos, slot)];
    assert after[|list|].pos == pos;
    forall p | p in slots
      ensures Lists(after, p)
    {
      assert Lists(list, p);
      var j :| 0 <= j < |list| && list[j].pos == p;
      assert after[j].pos == p;
    }
  }

  /** An open slot, the right piece in it, the price, and a place for the target: the slot or else the bag. */
  ghost predicate MayTransform(table: Table, k: ShipKind, l: Loadout, pos: u32, from: u32, target: u32, paid: bool)
    requires Acyclic(table)
  {
    && SlotOpen(k, pos) && EquippedAt(l.slots, pos) == from != 0 && target != 0 && paid
    && var allowed := Allowed(table, k, l.slots, pos, target);
       allowed.Some? && (allowed.value || Wrap(BagTotal(l.gear)) < BAG_MAX)
  }

  class OwnedShip {
    const kind: ShipKind
    var slots: map<u32, Slot>
    var gear: Stock
    var equipments: seq<Listed>

    ghost function View(): Loadout
      reads this
    {
      Loadout(slots, gear)
    }

    method BagCount() returns (total: u32)
      ensures total == Wrap(BagTotal(gear))
    {
      hide SumOver;
      total := 0;
      var todo := gear.Keys;
      while todo != {}
        invariant todo <= gear.Keys
        invariant Wrap(BagTotal(gear)) == Wrap(total + SumOver(gear, todo))
      {
        var id: u32 :| id in todo;
        SumSplits(gear, todo, id);
        CountOne(total, gear[id], SumOver(gear, todo - {id}));
        total := Add(total, Wrap(gear[id]));
        todo := todo - {id};
      }
      WrapSmall(total);
      SumOfNothing(gear);
    }

    /** `applyShipEquipmentUpdate`: replace the listed row of that position, or append one. */
    method ApplyUpdate(pos: u32, slot: Slot, ghost before: map<u32, Slot>)
      requires Mirrors(equipments, before)
      modifies `equipments
      ensures Mirrors(equipments, before[pos := slot])
    {
      for i := 0 to |equipments|
        invariant equipments == old(equipments)
        invariant forall j :: 0 <= j < i ==> equipments[j].pos != pos
      {
        if equipments[i].pos == pos {
          MirrorsChange(equipments, before, i, slot);
          equipments := equipments[i := Listed(pos, slot)];
          return;
        }
      }
      MirrorsAppend(equipments, before, pos, slot);
      equipments := equipments + [Listed(pos, slot)];
    }

    /** The limit scan shared by both handlers; the rows come in ascending position. */
    method ScanLimits(resolver: Resolver, pos: u32, limit: int) returns (clear: Option<bool>)
      requires resolver.Valid()
      modifies resolver`cache
      ensures resolver.Valid()
      ensures clear == Scan(resolver.table, slots, pos, limit)
    {
      var todo := slots.Keys;
      while todo != {}
        invariant todo <= slots.Keys && resolver.Valid()
        invariant forall p: u32 :: Stops(resolver.table, slots, pos, limit, p) ==> p in todo
      {
        ghost var low := Smallest(todo);
        var p: u32 :| p in todo && forall q :: q in todo ==> p <= q;
        todo := todo - {p};
        if p != pos && slots[p].equipId != 0 {
          var other := resolver.Lookup(slots[p].equipId);
          if other.None? || other.value.equipLimit == limit {
            assert StopsFirst(resolver.table, slots, pos, limit, p);
            return if other.None? then None else Some(false);
          }
        }
      }
      return Some(true);
    }

    /** `equipmentAllowedAtPos`, also the checks of `EquipToShip`; no answer on a failed lookup. */
    method AllowedAt(table: Table, pos: u32, id: u32) returns (allowed: Option<bool>)
      requires Acyclic(table)
      ensures allowed == Allowed(table, kind, slots, pos, id)
    {
      hide Scan;
      var resolver := new Resolver(table);
      var c := resolver.Lookup(id);
      if c.None? { return None; }
      var config := c.value;
      if config.kind !in SlotTypes(kind, pos) { return Some(false); }
      if kind.shipType in config.forbidden { return Some(false); }
      if config.equipLimit != 0 {
        allowed := ScanLimits(resolver, pos, config.equipLimit);
        return;
      }
      return Some(true);
    }

    /** `EquipToShip` for request type 0; an error and a refusal both leave everything as it was. */
    method EquipToShip(table: Table, pos: u32, id: u32) returns (ok: bool)
      requires Acyclic(table) && Mirrors(equipments, slots)
      modifies this
      ensures Mirrors(equipments, slots)
      ensures ok <==> SlotOpen(kind, pos) && (id == old(EquippedAt(slots, pos)) ||
                      if id == 0 then Wrap(BagTotal(old(gear))) < BAG_MAX
                      else MayEquip(table, kind, old(View()), pos, id))
      ensures View() == if !ok || id == old(EquippedAt(slots, pos)) then old(View())
                        else if id == 0 then Unequipped(old(View()), pos)
                        else Swapped(old(View()), pos, id)
    {
      if pos == 0 || pos > SlotCount(kind) || |SlotTypes(kind, pos)| == 0 { return false; }
      var current := if pos in slots then slots[pos] else Slot(0, 0);
      if id == 0 {
        if current.equipId == 0 { return true; }
        var bag := BagCount();
        if bag >= BAG_MAX { return false; }
        gear := PutGear(gear, current.equipId);
      } else {
        if current.equipId == id { return true; }
        if id !in gear || gear[id] == 0 { return false; }
        var allowed := AllowedAt(table, pos, id);
        if allowed != Some(true) { return false; }
        if current.equipId != 0 { gear := PutGear(gear, current.equipId); }
        gear := TakeGear(gear, id);
      }
      ghost var before := slots;
      slots := slots[pos := Slot(id, 0)];
      ApplyUpdate(pos, Slot(id, 0), before);
      return true;
    }

    /**
     `TransformEquipmentOnShip` with the payment folded into `paid`: the piece at `pos`
     turns into `target`, in place if it is allowed there, in the bag otherwise.
     */
    method Transform(table: Table, pos: u32, from: u32, target: u32, paid: bool) returns (ok: bool)
      requires Acyclic(table) && Mirrors(equipments, slots)
      modifies this
      ensures Mirrors(equipments, slots)
      ensures ok <==> MayTransform(table, kind, old(View()), pos, from, target, paid)
      ensures View() == if ok then Transformed(table, kind, old(View()), pos, target) else old(View())
    {
      if pos == 0 || pos > SlotCount(kind) || |SlotTypes(kind, pos)| == 0 { return false; }
      var current := if pos in slots then slots[pos] else Slot(0, 0);
      if current.equipId == 0 || from != current.equipId || target == 0 || !paid { return false; }
      var allowed := AllowedAt(table, pos, target);
      if allowed.None? { return false; }
      if !allowed.value {
        var bag := BagCount();
        if bag >= BAG_MAX { return false; }
      }
      ghost var before := slots;
      if allowed.value {
        current := Slot(target, 0);
      } else {
        current := Slot(0, 0);
        gear := PutGear(gear, target);
      }
      slots := slots[pos := current];
      ApplyUpdate(pos, current, before);
      return true;
    }
  }

  ghost function Transformed(table: Table, k: ShipKind, l: Loadout, pos: u32, target: u32): Loadout
    requires Acyclic(table)
  {
    if MayStay(table, k, l, pos, target) then WithSlot(l, pos, Slot(target, 0), l.gear)
    else WithSlot(l, pos, Slot(0, 0), PutGear(l.gear, target))
  }

  // ---------- Legality and conservation ----------

  /** A piece that fits and does not clash can take any slot of a legal ship. */
  lemma LegalWith(table: Table, k: ShipKind, slots: map<u32, Slot>, pos: u32, slot: Slot)
    requires Acyclic(table) && Legal(table, k, slots)
    requires slot.equipId != 0 ==> FitsSlot(table, k, pos, slot.equipId) && !Clashes(table, slots, pos, slot.equipId)
    ensures Legal(table, k, slots[pos := slot])
  {
    var after := slots[pos := slot];
    forall p | p in after && after[p].equipId != 0
      ensures !Clashes(table, after, p, after[p].equipId)
    {
      if p != pos { assert !Clashes(table, slots, p, slots[p].equipId); }
    }
  }

  /** Equipping and unequipping keep a legal ship legal. */
  lemma EquipKeepsLegal(table: Table, k: ShipKind, l: Loadout, pos: u32, id: u32)
    requires Acyclic(table) && Legal(table, k, l.slots)
    ensures Legal(table, k, Unequipped(l, pos).slots)
    ensures MayEquip(table, k, l, pos, id) ==> Legal(table, k, Swapped(l, pos, id).slots)
  {
    LegalWith(table, k, l.slots, pos, Slot(0, 0));
    MayStayIff(table, k, l, pos, id);
    if MayEquip(table, k, l, pos, id) { LegalWith(table, k, l.slots, pos, Slot(id, 0)); }
  }

  /** Transforming keeps a legal ship legal, whichever way the new piece goes. */
  lemma TransformKeepsLegal(table: Table, k: ShipKind, l: Loadout, pos: u32, target: u32)
    requires Acyclic(table) && Legal(table, k, l.slots)
    ensures Legal(table, k, Transformed(table, k, l, pos, target).slots)
  {
    MayStayIff(table, k, l, pos, target);
    if MayStay(table, k, l, pos, target) {
      LegalWith(table, k, l.slots, pos, Slot(target, 0));
    } else {
      LegalWith(table, k, l.slots, pos, Slot(0, 0));
    }
  }

  /** No copy of any piece appears or disappears when equipment changes places. */
  lemma EquipKeepsCopies(l: Loadout, pos: u32, id: u32, k: u32)
    requires k != 0
    ensures EquippedAt(l.slots, pos) != 0 ==> Copies(Unequipped(l, pos), k) == Copies(l, k)
    ensures id != 0 && Count(l.gear, id) >= 1 ==> Copies(Swapped(l, pos, id), k) == Copies(l, k)
  {
    SlotChange(l.slots, pos, Slot(0, 0), k);
    SlotChange(l.slots, pos, Slot(id, 0), k);
  }

  /** A transformation takes one copy of the old piece and makes one copy of the new. */
  lemma TransformTradesOneCopy(table: Table, kind: ShipKind, l: Loadout, pos: u32, target: u32, k: u32)
    requires Acyclic(table) && k != 0 && target != 0
    ensures Copies(Transformed(table, kind, l, pos, target), k) ==
            Copies(l, k) - (if EquippedAt(l.slots, pos) == k then 1 else 0) + (if target == k then 1 else 0)
  {
    SlotChange(l.slots, pos, Slot(0, 0), k);
    SlotChange(l.slots, pos, Slot(target, 0), k);
  }

  // ---------- Any run of requests ----------

  datatype Request = Equip(pos: u32, id: u32) | Transform(pos: u32, from: u32, target: u32, paid: bool)

  /** What the two handlers do; anything refused or failed changes nothing. */
  ghost function Serve(table: Table, k: ShipKind, l: Loadout, r: Request): Loadout
    requires Acyclic(table)
  {
    match r
    case Equip(pos, id) =>
      if !SlotOpen(k, pos) || id == EquippedAt(l.slots, pos) then l
      else if id == 0 then (if Wrap(BagTotal(l.gear)) < BAG_MAX then Unequipped(l, pos) else l)
      else if MayEquip(table, k, l, pos, id) then Swapped(l, pos, id) else l
    case Transform(pos, from, target, paid) =>
      if MayTransform(table, k, l, pos, from, target, paid) then Transformed(table, k, l, pos, target) else l
  }

  ghost function ServeAll(table: Table, k: ShipKind, l: Loadout, requests: seq<Request>): Loadout
    requires Acyclic(table)
    decreases |requests|
  {
    if requests == [] then l else ServeAll(table, k, Serve(table, k, l, requests[0]), requests[1..])
  }

  /** A ship that starts legal is legal after any requests. */
  lemma {:induction false} RunStaysLegal(table: Table, k: ShipKind, l: Loadout, requests: seq<Request>)
    requires Acyclic(table) && Legal(table, k, l.slots)
    ensures Legal(table, k, ServeAll(table, k, l, requests).slots)
    decreases |requests|
  {
    if requests != [] {
      match requests[0] {
        case Equip(pos, id) => EquipKeepsLegal(table, k, l, pos, id);
        case Transform(pos, from, target, paid) => TransformKeepsLegal(table, k, l, pos, target);
      }
      RunStaysLegal(table, k, Serve(table, k, l, requests[0]), requests[1..]);
    }
  }

  /** How many copies of `id` the transformations of a run made, less those they took. */
  ghost function Traded(table: Table, k: ShipKind, l: Loadout, requests: seq<Request>, id: u32): int
    requires Acyclic(table)
    decreases |requests|
  {
    if requests == [] then 0
    else
      var r := requests[0];
      Traded(table, k, Serve(table, k, l, r), requests[1..], id) +
      if r.Transform? && MayTransform(table, k, l, r.pos, r.from, r.target, r.paid)
      then (if r.target == id then 1 else 0) - (if r.from == id then 1 else 0)
      else 0
  }

  /** Over any requests the copies of a piece change by what transformations traded; equipping never matters. */
  lemma {:induction false} RunTradesCopies(table: Table, k: ShipKind, l: Loadout, requests: seq<Request>, id: u32)
    requires Acyclic(table) && id != 0
    ensures Copies(ServeAll(table, k, l, requests), id) == Copies(l, id) + Traded(table, k, l, requests, id)
    decreases |requests|
  {
    hide Copies, Allowed, Swapped, Unequipped, Transformed;
    if requests != [] {
      match requests[0] {
        case Equip(pos, piece) =>
          EquipKeepsCopies(l, pos, piece, id);
        case Transform(pos, from, target, paid) =>
          if target != 0 { TransformTradesOneCopy(table, k, l, pos, target, id); }
      }
      RunTradesCopies(table, k, Serve(table, k, l, requests[0]), requests[1..], id);
    }
  }
}
