/** Which ships are away on which commission, over single requests and whole runs. */
module CommissionShips {
  import opened Word32
  import opened Commission

  /** The ship is on a commission other than `id`. */
  ghost predicate BusyElsewhere(rows: Rows, id: u32, ship: u32) {
    exists k :: k in rows && k != id && rows[k].finishTime > 0 && ship in rows[k].ships
  }

  lemma BusySplits(rows: Rows, id: u32, ship: u32)
    ensures Busy(rows, ship) <==>
            BusyElsewhere(rows, id, ship) || (id in rows && rows[id].finishTime > 0 && ship in rows[id].ships)
  {
    if k :| k in rows && Out(rows, k) && ship in rows[k].ships {
      assert k != id ==> BusyElsewhere(rows, id, ship);
    }
    if BusyElsewhere(rows, id, ship) {
      var k :| k in rows && k != id && rows[k].finishTime > 0 && ship in rows[k].ships;
      assert Out(rows, k);
    }
  }

  /** Changing one row leaves the other commissions with their ships. */
  lemma ElsewhereStays(rows: Rows, id: u32, row: Row, ship: u32)
    ensures BusyElsewhere(rows[id := row], id, ship) <==> BusyElsewhere(rows, id, ship)
    ensures BusyElsewhere(rows - {id}, id, ship) <==> BusyElsewhere(rows, id, ship)
    ensures Busy(rows - {id}, ship) <==> BusyElsewhere(rows, id, ship)
  {
    var with, without := rows[id := row], rows - {id};
    if BusyElsewhere(rows, id, ship) {
      var k :| k in rows && k != id && rows[k].finishTime > 0 && ship in rows[k].ships;
      assert k in with && k in without;
    }
    BusySplits(without, id, ship);
  }

  /**
   A commission that is sent out: its row says since when, until when and with whom, its
   oil is gone, and exactly the ships that were asked for are busy besides those before.
   */
  lemma StartBusies(s: Store, w: World, id: u32, ships: seq<u32>)
    requires CanStart(s, w, id, ships)
    ensures var next, t := Next(s, w, Request.Start(id, ships, true)), w.byKey[id];
            && next.oil == s.oil - t.oil
            && id in next.rows && next.rows[id].startTime == w.now && next.rows[id].ships == ships
            && next.rows[id].finishTime == (w.now + t.collectTime) % WORD
            && (forall k :: k in s.rows && k != id ==> k in next.rows && next.rows[k] == s.rows[k])
            && forall ship: u32 ::
                 Busy(next.rows, ship) <==> Busy(s.rows, ship) || (next.rows[id].finishTime > 0 && ship in ships)
  {
    var next := Next(s, w, Request.Start(id, ships, true));
    forall ship: u32
      ensures Busy(next.rows, ship) <==> Busy(s.rows, ship) || (next.rows[id].finishTime > 0 && ship in ships)
    {
      BusySplits(s.rows, id, ship);
      BusySplits(next.rows, id, ship);
      ElsewhereStays(s.rows, id, next.rows[id], ship);
    }
  }

  /** An unsaved start costs its oil, unreadable drops change nothing, a payment that breaks off loses the row. */
  lemma FailuresLeave(s: Store, w: World, id: u32, ships: seq<u32>, grown: Roster, pick: nat)
    ensures CanStart(s, w, id, ships) ==>
              Next(s, w, Request.Start(id, ships, false)) == s.(oil := s.oil - w.byKey[id].oil)
    ensures Next(s, w, Request.Finish(id, grown, pick, Unreadable)) == s
    ensures CanFinish(s, w, id) ==>
              Next(s, w, Request.Finish(id, grown, pick, Breaks)) == s.(rows := s.rows - {id})
  {
  }

  /** While a ship is away no start that names it is accepted, under any template. */
  lemma BusyShutsOut(s: Store, w: World, id: u32, ships: seq<u32>, ship: u32)
    requires Busy(s.rows, ship) && ship in ships
    ensures !CanStart(s, w, id, ships)
    ensures forall saved :: Next(s, w, Request.Start(id, ships, saved)) == s
  {
  }

  /** The ships are owned and of the kinds the template asks for, and one is of its level. */
  predicate Suit(t: Template, ships: seq<u32>, roster: Roster) {
    && (t.shipNum == 0 || |ships| == t.shipNum)
    && (t.shipLv > 0 ==> exists i :: 0 <= i < |ships| && ships[i] in roster && roster[ships[i]].level >= t.shipLv)
    && (t.shipType != [] ==>
          forall i :: 0 <= i < |ships| ==> ships[i] in roster && roster[ships[i]].kind in t.shipType)
  }

  /** A start is accepted exactly for owned, suitable ships at home, before the deadline, with oil and room left. */
  lemma StartAcceptedIff(s: Store, w: World, id: u32, ships: seq<u32>)
    ensures CanStart(s, w, id, ships) <==>
            && id != 0 && id in w.byKey && |ships| > 0
            && var t := w.byKey[id];
               && Suit(t, ships, w.roster) && (forall i :: 0 <= i < |ships| ==> ships[i] in w.roster)
               && (t.overTime > 0 ==> w.now < t.overTime) && t.oil <= s.oil
               && (t.dropGoldMax > 0 ==> w.gold < t.dropGoldMax) && (t.dropOilMax > 0 ==> s.oil < t.dropOilMax)
               && (t.maxTeam > 0 ==> |Active(s.rows)| < t.maxTeam)
               && !(id in s.rows && s.rows[id].finishTime > 0)
               && forall k, i :: k in s.rows && s.rows[k].finishTime > 0 && 0 <= i < |ships| ==>
                    ships[i] !in s.rows[k].ships
  {
    hide Active;
    if forall i :: 0 <= i < |ships| ==> !Busy(s.rows, ships[i]) {
      forall k, i | k in s.rows && s.rows[k].finishTime > 0 && 0 <= i < |ships|
        ensures ships[i] !in s.rows[k].ships
      {
        assert !Busy(s.rows, ships[i]) && Out(s.rows, k);
      }
    }
  }

  /** Giving up and finishing, exactly: on either side of the finish time, both before the deadline. */
  lemma EndAcceptedIff(s: Store, w: World, id: u32)
    ensures CanGiveUp(s, w, id) <==>
            && id != 0 && id in s.rows && 0 < s.rows[id].finishTime && w.now < s.rows[id].finishTime
            && (id in w.byKey && w.byKey[id].overTime > 0 ==> w.now < w.byKey[id].overTime)
    ensures CanFinish(s, w, id) <==>
            && id != 0 && id in w.byKey && id in s.rows && 0 < s.rows[id].finishTime <= w.now
            && var t, ships := w.byKey[id], s.rows[id].ships;
               && (t.overTime > 0 ==> w.now < t.overTime)
               && (t.dropGoldMax > 0 ==> w.gold < t.dropGoldMax) && (t.dropOilMax > 0 ==> s.oil < t.dropOilMax)
               && |ships| > 0 && (t.shipNum == 0 || |ships| == t.shipNum)
               && forall i :: 0 <= i < |ships| ==> ships[i] in w.roster
  {
  }

  /** Returning ships may be sent on to any other template they suit that is open, has room and no row. */
  lemma EligibleIff(t: Template, rows: Rows, w: World, ships: seq<u32>, finished: u32)
    ensures Eligible(t, rows, w, ships, finished) <==>
            && t.id != 0 && t.id != finished && t.id !in rows && Suit(t, ships, w.roster)
            && (t.overTime > 0 ==> w.now < t.overTime) && (t.maxTeam > 0 ==> |Active(rows)| < t.maxTeam)
  {
    hide Active;
  }

  /** The request ends commission `id`: it gives it up, or finishes it with drops that can be read. */
  predicate Ends(s: Store, w: World, r: Request, id: u32) {
    match r
    case Start(_, _, _) => false
    case GiveUp(key) => key == id && CanGiveUp(s, w, id)
    case Finish(key, _, _, payment) => key == id && CanFinish(s, w, id) && payment != Unreadable
  }

  /** An accepted give-up leaves the row without ships; only ships that are elsewhere too stay busy. */
  lemma GiveUpFrees(s: Store, w: World, id: u32)
    requires CanGiveUp(s, w, id)
    ensures var next := Next(s, w, Request.GiveUp(id));
            && id in next.rows && next.rows[id] == Row(0, 0, [])
            && forall ship: u32 :: Busy(next.rows, ship) <==> BusyElsewhere(s.rows, id, ship)
  {
    var next := Next(s, w, Request.GiveUp(id));
    forall ship: u32
      ensures Busy(next.rows, ship) <==> BusyElsewhere(s.rows, id, ship)
    {
      BusySplits(next.rows, id, ship);
      ElsewhereStays(s.rows, id, Row(0, 0, []), ship);
    }
  }

  /**
   A finished commission's row is gone. If another one is sent out then, the ships that
   came back are on it, all of them and no others, and so the same ships are busy as
   before; if none is, only ships that are elsewhere too stay busy.
   */
  lemma FinishPassesOn(s: Store, w: World, id: u32, grown: Roster, pick: nat, payment: Payment)
    requires CanFinish(s, w, id) && payment != Unreadable
    ensures var r := Request.Finish(id, grown, pick, payment);
            var next := Next(s, w, r);
            && id !in next.rows
            && (forall t :: Sends(s, w, r, t) ==>
                  && t.id in next.rows && t.id !in s.rows && t in w.all
                  && next.rows[t.id] == Row(w.now, (w.now + t.collectTime) % WORD, s.rows[id].ships)
                  && forall ship: u32 :: Busy(next.rows, ship) <==> Busy(s.rows, ship))
            && ((forall t :: !Sends(s, w, r, t)) ==>
                  forall ship: u32 :: Busy(next.rows, ship) <==> BusyElsewhere(s.rows, id, ship))
  {
    hide CanFinish, Candidates, Eligible, Busy, BusyElsewhere;
    FinishedIsOut(s, w, id);
    var ships, rest := s.rows[id].ships, s.rows - {id};
    var r := Request.Finish(id, grown, pick, payment);
    var next := Next(s, w, r);
    forall ship: u32 ensures Busy(rest, ship) <==> BusyElsewhere(s.rows, id, ship) {
      ElsewhereStays(s.rows, id, s.rows[id], ship);
    }
    if payment == Pays && |Candidates(w.all, rest, w.(roster := grown), ships, id)| > 0 {
      var t := SpawnedFrom(w, rest, ships, id, grown, pick);
      var row := Sent(t, ships, w.now);
      SentInWords(t, ships, w.now);
      assert row.finishTime > 0 ==> Sends(s, w, r, t);
      forall ship: u32
        ensures Busy(next.rows, ship) <==>
                if row.finishTime > 0 then Busy(s.rows, ship) else BusyElsewhere(s.rows, id, ship)
      {
        SentOn(s.rows, id, t.id, row, ship);
      }
    }
  }

  lemma FinishedIsOut(s: Store, w: World, id: u32)
    requires CanFinish(s, w, id)
    ensures id in s.rows && s.rows[id].finishTime > 0
  {
  }

  lemma SentInWords(t: Template, ships: seq<u32>, now: u32)
    ensures Sent(t, ships, now) == Row(now, (now + t.collectTime) % WORD, ships)
  {
  }

  /** The template a spawn draws: listed, without a row, and sent with the returning ships. */
  lemma SpawnedFrom(w: World, rest: Rows, ships: seq<u32>, id: u32, grown: Roster, pick: nat) returns (t: Template)
    requires |Candidates(w.all, rest, w.(roster := grown), ships, id)| > 0
    ensures var candidates := Candidates(w.all, rest, w.(roster := grown), ships, id);
            t == candidates[Draw(pick, |candidates|)]
    ensures t in w.all && t.id !in rest && t.id != id
    ensures Spawned(rest, w.(roster := grown), ships, id, pick) == rest[t.id := Sent(t, ships, w.now)]
  {
    var candidates := Candidates(w.all, rest, w.(roster := grown), ships, id);
    t := candidates[Draw(pick, |candidates|)];
    assert Eligible(t, rest, w.(roster := grown), ships, id);
    CandidatesListed(w.all, rest, w.(roster := grown), ships, id, t);
  }

  lemma SentOn(rows: Rows, id: u32, key: u32, row: Row, ship: u32)
    requires id in rows && rows[id].finishTime > 0 && key !in rows && row.ships == rows[id].ships
    ensures Busy((rows - {id})[key := row], ship) <==>
            if row.finishTime > 0 then Busy(rows, ship) else BusyElsewhere(rows, id, ship)
  {
    var rest := rows - {id};
    var next := rest[key := row];
    BusySplits(rows, id, ship);
    BusySplits(rest, key, ship);
    BusySplits(next, key, ship);
    ElsewhereStays(rows, id, rows[id], ship);
    ElsewhereStays(rest, key, row, ship);
  }

  /** A commission that is out stays exactly as it is until a request ends it, and then it is not out any more. */
  lemma OutUntilEnded(s: Store, w: World, r: Request, id: u32)
    requires Out(s.rows, id)
    ensures var next := Next(s, w, r).rows;
            if Ends(s, w, r, id) then !Out(next, id) else id in next && next[id] == s.rows[id]
  {
    hide LevelMet, KindsMet, Owned, Expired, Full, Active, Busy;
    if r.Finish? && CanFinish(s, w, r.id) && r.payment == Pays {
      var candidates := Candidates(w.all, s.rows - {r.id}, w.(roster := r.grown), s.rows[r.id].ships, r.id);
      if |candidates| > 0 {
        var t := candidates[Draw(r.pick, |candidates|)];
        assert Eligible(t, s.rows - {r.id}, w.(roster := r.grown), s.rows[r.id].ships, r.id);
      }
    }
  }

  /** No request of the run ends commission `id`. */
  ghost predicate NoneEnds(s: Store, steps: seq<(World, Request)>, id: u32)
    decreases |steps|
  {
    |steps| > 0 ==>
      && !Ends(s, steps[0].0, steps[0].1, id)
      && NoneEnds(Next(s, steps[0].0, steps[0].1), steps[1..], id)
  }

  /**
   Over any run, under any tables, fleets and clocks: the ships of a commission stay busy
   with it, and shut out of every other start, until it is given up or finished.
   */
  lemma {:induction false} AwayUntilEnded(s: Store, steps: seq<(World, Request)>, id: u32)
    requires Out(s.rows, id) && NoneEnds(s, steps, id)
    ensures var end := Run(s, steps);
            && Out(end.rows, id) && end.rows[id] == s.rows[id]
            && (forall ship :: ship in s.rows[id].ships ==> Busy(end.rows, ship))
            && forall w, key, ships, ship ::
                 ship in s.rows[id].ships && ship in ships ==> !CanStart(end, w, key, ships)
    decreases |steps|
  {
    hide Next, Ends, CanStart;
    if |steps| > 0 {
      OutUntilEnded(s, steps[0].0, steps[0].1, id);
      AwayUntilEnded(Next(s, steps[0].0, steps[0].1), steps[1..], id);
    } else {
      forall w, key, ships, ship | ship in s.rows[id].ships && ship in ships
        ensures !CanStart(s, w, key, ships)
      {
        BusyShutsOut(s, w, key, ships, ship);
      }
    }
  }
}
