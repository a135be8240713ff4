/** What an equip or transform request leaves in the slot and in the bag, and how full the bag can get. */
module SlotOutcomes {
  import opened Options
  import opened Word32
  import opened Collections
  import opened EquipBag
  import opened EquipSlots

  /** The ship's template accepts something at the position. */
  lemma SlotOpenIff(k: ShipKind, pos: u32)
    ensures SlotOpen(k, pos) <==> 1 <= pos <= 5 && pos <= |k.accepts| && k.accepts[pos - 1] != []
  {
    assert pos == 1 || pos == 2 || pos == 3 || pos == 4 || pos == 5 || SlotTypes(k, pos) == [];
  }

  /**
   The piece can be resolved to a type the position accepts, does not forbid the ship's
   type and, if it is limited, shares its limit with no other piece, all of which resolve.
   */
  ghost predicate Welcome(table: Table, k: ShipKind, slots: map<u32, Slot>, pos: u32, id: u32)
    requires Acyclic(table)
  {
    var c := Resolve(table, id);
    && c.Some?
    && 1 <= pos <= 5 && pos <= |k.accepts| && c.value.kind in k.accepts[pos - 1]
    && k.shipType !in c.value.forbidden
    && (c.value.equipLimit != 0 ==>
          forall p :: p in slots && p != pos && slots[p].equipId != 0 ==>
            var other := Resolve(table, slots[p].equipId);
            other.Some? && other.value.equipLimit != c.value.equipLimit)
  }

  lemma MayStayIffWelcome(table: Table, k: ShipKind, l: Loadout, pos: u32, id: u32)
    requires Acyclic(table)
    ensures MayStay(table, k, l, pos, id) <==> Welcome(table, k, l.slots, pos, id)
  {
    MayStayIff(table, k, l, pos, id);
    var c := Resolve(table, id);
    if c.Some? && c.value.equipLimit != 0 {
      var limit := c.value.equipLimit;
      assert forall p :: p in l.slots - {pos} ==> l.slots[p] == (l.slots - {pos})[p];
      if Resolvable(table, l.slots - {pos}) && !Carried(table, l.slots, pos, limit) {
        forall p | p in l.slots && p != pos && l.slots[p].equipId != 0
          ensures Resolve(table, l.slots[p].equipId).Some?
          ensures Resolve(table, l.slots[p].equipId).value.equipLimit != limit
        {
          assert p in l.slots - {pos};
        }
      }
    }
  }

  /**
   There is no answer exactly where a lookup fails: the piece's own, or, for a limited
   piece that fits, another slot's before any slot with the same limit.
   */
  lemma NoAnswerIff(table: Table, k: ShipKind, slots: map<u32, Slot>, pos: u32, id: u32)
    requires Acyclic(table)
    ensures Allowed(table, k, slots, pos, id).None? <==>
            var c := Resolve(table, id);
            || c.None?
            || (&& 1 <= pos <= 5 && pos <= |k.accepts| && c.value.kind in k.accepts[pos - 1]
                && k.shipType !in c.value.forbidden && c.value.equipLimit != 0
                && exists p :: p in slots && FailsFirst(table, slots, pos, c.value.equipLimit, p))
  {
    var c := Resolve(table, id);
    if c.Some? && FitsSlot(table, k, pos, id) && c.value.equipLimit != 0 {
      var limit := c.value.equipLimit;
      forall p: u32
        ensures p in slots && FailsFirst(table, slots, pos, limit, p) <==>
                StopsFirst(table, slots, pos, limit, p) && Resolve(table, slots[p].equipId).None?
      {
        FailsIsStops(table, slots, pos, limit, p);
      }
    }
  }

  /** The piece at `p` cannot be resolved, and those at lower positions can and have other limits. */
  ghost predicate FailsFirst(table: Table, slots: map<u32, Slot>, pos: u32, limit: int, p: u32)
    requires Acyclic(table) && p in slots
  {
    && p != pos && slots[p].equipId != 0 && Resolve(table, slots[p].equipId).None?
    && forall q :: q in slots && q < p && q != pos && slots[q].equipId != 0 ==>
         var other := Resolve(table, slots[q].equipId); other.Some? && other.value.equipLimit != limit
  }

  lemma FailsIsStops(table: Table, slots: map<u32, Slot>, pos: u32, limit: int, p: u32)
    requires Acyclic(table)
    ensures p in slots && FailsFirst(table, slots, pos, limit, p) <==>
            StopsFirst(table, slots, pos, limit, p) && Resolve(table, slots[p].equipId).None?
  {
    if StopsFirst(table, slots, pos, limit, p) {
      forall q | q in slots && q < p && q != pos && slots[q].equipId != 0
        ensures Resolve(table, slots[q].equipId).Some?
        ensures Resolve(table, slots[q].equipId).value.equipLimit != limit
      {
        assert !Stops(table, slots, pos, limit, q);
      }
    }
  }

  /** A transformation goes through exactly if the slot, the piece and the price are right and there is a place. */
  lemma TransformAcceptedIff(table: Table, k: ShipKind, l: Loadout, pos: u32, from: u32, target: u32, paid: bool)
    requires Acyclic(table)
    ensures MayTransform(table, k, l, pos, from, target, paid) <==>
            && SlotOpen(k, pos) && pos in l.slots && l.slots[pos].equipId == from && from != 0 && target != 0 && paid
            && Allowed(table, k, l.slots, pos, target).Some?
            && (Welcome(table, k, l.slots, pos, target) || BagTotal(l.gear) % WORD < 250)
  {
    MayStayIffWelcome(table, k, l, pos, target);
  }

  /** Then the target is in the slot where it is welcome, and otherwise the slot is empty and it is in the bag. */
  lemma TransformOutcome(table: Table, k: ShipKind, l: Loadout, pos: u32, from: u32, target: u32, paid: bool)
    requires Acyclic(table) && MayTransform(table, k, l, pos, from, target, paid)
    ensures var r := Serve(table, k, l, Request.Transform(pos, from, target, paid));
            if Welcome(table, k, l.slots, pos, target)
            then r.slots == l.slots[pos := Slot(target, 0)] && r.gear == l.gear
            else r.slots == l.slots[pos := Slot(0, 0)] &&
                 forall x: u32 :: Count(r.gear, x) == Count(l.gear, x) + if x == target then 1 else 0
  {
    hide Allowed;
    MayStayIffWelcome(table, k, l, pos, target);
  }

  /**
   An accepted equip request that changes the slot: the piece asked for is in it, off the
   bag, and the one before it is in the bag.
   */
  lemma EquipOutcome(table: Table, k: ShipKind, l: Loadout, pos: u32, id: u32)
    requires Acyclic(table)
    ensures var r, worn := Serve(table, k, l, Request.Equip(pos, id)), EquippedAt(l.slots, pos);
            if SlotOpen(k, pos) && id != worn &&
               (if id == 0 then BagTotal(l.gear) % WORD < 250
                else Count(l.gear, id) >= 1 && Welcome(table, k, l.slots, pos, id))
            then r.slots == l.slots[pos := Slot(id, 0)] &&
                 forall x: u32 :: x != 0 ==>
                   Count(r.gear, x) == Count(l.gear, x) + (if x == worn then 1 else 0) - (if x == id then 1 else 0)
            else r == l
  {
    hide Allowed;
    MayStayIffWelcome(table, k, l, pos, id);
  }

  // ---------- The bag ----------

  lemma BagAfterPut(gear: Stock, id: u32)
    ensures BagTotal(PutGear(gear, id)) == BagTotal(gear) + 1
  {
    var after := PutGear(gear, id);
    SumSplits(after, after.Keys, id);
    assert after.Keys - {id} == gear.Keys - {id};
    SameSum(after, gear, gear.Keys - {id});
    if id in gear { SumSplits(gear, gear.Keys, id); } else { assert gear.Keys - {id} == gear.Keys; }
  }

  lemma BagAfterTake(gear: Stock, id: u32)
    requires Count(gear, id) >= 1
    ensures BagTotal(TakeGear(gear, id)) == BagTotal(gear) - 1
  {
    var after := TakeGear(gear, id);
    SumSplits(gear, gear.Keys, id);
    SameSum(after, gear, gear.Keys - {id});
    if gear[id] == 1 {
      assert after.Keys == gear.Keys - {id};
    } else {
      assert after.Keys == gear.Keys;
      SumSplits(after, after.Keys, id);
    }
  }

  /** One request adds a piece to the bag at most, and only to a bag with room. */
  lemma ServeFillsBag(table: Table, k: ShipKind, l: Loadout, r: Request)
    requires Acyclic(table) && BagTotal(l.gear) < WORD
    ensures var after := BagTotal(Serve(table, k, l, r).gear);
            after <= BagTotal(l.gear) || after == BagTotal(l.gear) + 1 <= 250
  {
    hide Allowed, BagTotal;
    WrapSmall(BagTotal(l.gear));
    match r {
      case Equip(pos, id) => {
        var worn := EquippedAt(l.slots, pos);
        BagAfterPut(l.gear, worn);
        if id != 0 && Count(l.gear, id) >= 1 {
          BagAfterTake(l.gear, id);
          BagAfterTake(PutGear(l.gear, worn), id);
        }
      }
      case Transform(pos, from, target, paid) => BagAfterPut(l.gear, target);
    }
  }

  /** Over any requests a bag of at most 250 pieces never holds more, and a fuller one never gets fuller. */
  lemma {:induction false} BagNeverOverfills(table: Table, k: ShipKind, l: Loadout, requests: seq<Request>, most: nat)
    requires Acyclic(table) && BagTotal(l.gear) <= most && 250 <= most < WORD
    ensures BagTotal(ServeAll(table, k, l, requests).gear) <= most
    decreases |requests|
  {
    hide BagTotal;
    if requests != [] {
      ServeFillsBag(table, k, l, requests[0]);
      BagNeverOverfills(table, k, Serve(table, k, l, requests[0]), requests[1..], most);
    }
  }
}
