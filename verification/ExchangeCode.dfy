/** Redeeming exchange codes: many requests, each a chain of separate database steps. */
module ExchangeCode {
  import opened Options
  import opened Word32
  import opened DropTypes

  datatype Reward = Reward(kind: u32, id: u32, count: u32)

  datatype Attachment = Attachment(kind: u32, itemId: u32, quantity: u32)

  /** A negative quota means the code is not limited. */
  datatype Code = Code(quota: int, rewards: seq<Reward>)

  /** A code and a commander: the primary key of a redeem row. */
  type Key = (u32, u32)

  datatype Mail = Mail(key: Key, attachments: seq<Attachment>)

  datatype Store = Store(codes: map<u32, Code>, rows: set<Key>, mails: seq<Mail>)

  // ---------- Attachments ----------

  predicate Supported(r: Reward) {
    r.kind == DROP_TYPE_RESOURCE || r.kind == DROP_TYPE_ITEM || r.kind == DROP_TYPE_SHIP || r.kind == DROP_TYPE_SKIN
  }

  predicate AllSupported(rewards: seq<Reward>) {
    forall i :: 0 <= i < |rewards| ==> Supported(rewards[i])
  }

  /** The attachments hand out just the rewards, in their order. */
  predicate Carries(attachments: seq<Attachment>, rewards: seq<Reward>) {
    && |attachments| == |rewards|
    && forall i :: 0 <= i < |rewards| ==>
         attachments[i] == Attachment(rewards[i].kind, rewards[i].id, rewards[i].count)
  }

  function AttachmentsOf(rewards: seq<Reward>): (r: seq<Attachment>)
    ensures Carries(r, rewards)
  {
    seq(|rewards|, i requires 0 <= i < |rewards| => Attachment(rewards[i].kind, rewards[i].id, rewards[i].count))
  }

  method BuildExchangeAttachments(rewards: seq<Reward>) returns (r: Option<seq<Attachment>>)
    ensures r.Some? <==> AllSupported(rewards)
    ensures r.Some? ==> Carries(r.value, rewards)
  {
    var attachments: seq<Attachment> := [];
    for i := 0 to |rewards|
      invariant |attachments| == i
      invariant forall j :: 0 <= j < i ==> Supported(rewards[j])
      invariant forall j :: 0 <= j < i ==>
                attachments[j] == Attachment(rewards[j].kind, rewards[j].id, rewards[j].count)
    {
      if !Supported(rewards[i]) { return None; }
      attachments := attachments + [Attachment(rewards[i].kind, rewards[i].id, rewards[i].count)];
    }
    return Some(attachments);
  }

  // ---------- One request, step by step ----------

  /**
   How far a request has come. `Holding` has its row, `Failing` has it and could not send
   the mail, `Lost` could not be compensated either and leaves it behind.
   */
  datatype Phase =
    | Arrived
    | Seen(code: Code)
    | Cleared(code: Code)
    | Holding(code: Code)
    | Failing(code: Code)
    | Closed(sent: bool)
    | Lost

  datatype Request = Request(key: Key, platformFits: bool, phase: Phase)

  /** Whether the database or the mailer does what the next step asks. */
  datatype Outcome = Works | Breaks

  predicate Limited(c: Code) {
    c.quota >= 0
  }

  function Quota(st: Store, id: u32): int {
    if id in st.codes then st.codes[id].quota else -1
  }

  function WithQuota(st: Store, id: u32, quota: int): Store {
    if id in st.codes then st.(codes := st.codes[id := st.codes[id].(quota := quota)]) else st
  }

  /** The redeem transaction: the row and the decrement, or neither. */
  function Redeemed(st: Store, key: Key, limited: bool): Option<Store> {
    if key in st.rows then None
    else if !limited then Some(st.(rows := st.rows + {key}))
    else if Quota(st, key.0) <= 0 then None
    else Some(WithQuota(st, key.0, Quota(st, key.0) - 1).(rows := st.rows + {key}))
  }

  /** The compensating transaction. */
  function Compensated(st: Store, key: Key, limited: bool): Store {
    (if limited then WithQuota(st, key.0, Quota(st, key.0) + 1) else st).(rows := st.rows - {key})
  }

  function At(r: Request, phase: Phase): Request {
    r.(phase := phase)
  }

  /** The next step of a request on the store as it is at that moment. */
  function Move(st: Store, r: Request, o: Outcome): (Store, Request) {
    match r.phase
    case Arrived =>
      if o == Breaks || r.key.0 !in st.codes || !r.platformFits then (st, At(r, Closed(false)))
      else (st, At(r, Seen(st.codes[r.key.0])))
    case Seen(c) =>
      if o == Breaks || r.key in st.rows || c.quota == 0 || !AllSupported(c.rewards) then (st, At(r, Closed(false)))
      else (st, At(r, Cleared(c)))
    case Cleared(c) =>
      var next := Redeemed(st, r.key, Limited(c));
      if o == Breaks || next.None? then (st, At(r, Closed(false)))
      else (next.value, At(r, Holding(c)))
    case Holding(c) =>
      if o == Breaks then (st, At(r, Failing(c)))
      else (st.(mails := st.mails + [Mail(r.key, AttachmentsOf(c.rewards))]), At(r, Closed(true)))
    case Failing(c) =>
      if o == Breaks then (st, At(r, Lost))
      else (Compensated(st, r.key, Limited(c)), At(r, Closed(false)))
    case Closed(_) => (st, r)
    case Lost => (st, r)
  }

  /** One request served with nothing in between. */
  function Serve(st: Store, r: Request, outcomes: seq<Outcome>): (Store, Request)
    decreases |outcomes|
  {
    if |outcomes| == 0 then (st, r)
    else var next := Move(st, r, outcomes[0]); Serve(next.0, next.1, outcomes[1..])
  }

  /** A handler needs at most five steps: code, row, transaction, mail, compensation. */
  class ExchangeStore {
    var codes: map<u32, Code>
    var rows: set<Key>
    var mails: seq<Mail>

    function View(): Store
      reads this
    {
      Store(codes, rows, mails)
    }

    method RedeemTx(key: Key, limited: bool) returns (ok: bool)
      requires key.0 in codes
      modifies this
      ensures ok <==> Redeemed(old(View()), key, limited).Some?
      ensures View() == if ok then Redeemed(old(View()), key, limited).value else old(View())
    {
      var rowsBefore := rows;
      if key in rows { return false; }
      rows := rows + {key};
      if !limited { return true; }
      if codes[key.0].quota > 0 {
        codes := codes[key.0 := codes[key.0].(quota := codes[key.0].quota - 1)];
        return true;
      }
      rows := rowsBefore;
      return false;
    }

    method CompensateTx(key: Key, limited: bool)
      requires key.0 in codes
      modifies this
      ensures View() == Compensated(old(View()), key, limited)
    {
      if limited { codes := codes[key.0 := codes[key.0].(quota := codes[key.0].quota + 1)]; }
      rows := rows - {key};
    }

    /** `ExchangeCodeRedeem` running alone: a lost request is answered like a refused one. */
    method Redeem(key: Key, platformFits: bool, outcomes: seq<Outcome>) returns (sent: bool)
      requires |outcomes| == 5
      modifies this
      ensures var end := Serve(old(View()), Request(key, platformFits, Arrived), outcomes);
              View() == end.0 && (end.1.phase == Closed(sent) || (end.1.phase == Lost && !sent))
    {
      ghost var start := Request(key, platformFits, Arrived);
      ServeFive(View(), start, outcomes);
      if outcomes[0] == Breaks || key.0 !in codes { return false; }
      var code := codes[key.0];
      if !platformFits { return false; }
      if outcomes[1] == Breaks || key in rows { return false; }
      var quotaLimited := code.quota >= 0;
      if quotaLimited && code.quota == 0 { return false; }
      var attachments := BuildExchangeAttachments(code.rewards);
      if attachments.None? { return false; }
      if outcomes[2] == Breaks { return false; }
      var ok := RedeemTx(key, quotaLimited);
      if !ok { return false; }
      if outcomes[3] == Works {
        assert attachments.value == AttachmentsOf(code.rewards);
        mails := mails + [Mail(key, attachments.value)];
        return true;
      }
      if outcomes[4] == Works { CompensateTx(key, quotaLimited); }
      return false;
    }
  }

  lemma ServeFive(st: Store, r: Request, o: seq<Outcome>)
    requires |o| == 5
    ensures var a := Move(st, r, o[0]);
            var b := Move(a.0, a.1, o[1]);
            var c := Move(b.0, b.1, o[2]);
            var d := Move(c.0, c.1, o[3]);
            Serve(st, r, o) == Move(d.0, d.1, o[4])
  {
    hide Move, Serve;
    var a := Move(st, r, o[0]);
    var b := Move(a.0, a.1, o[1]);
    var c := Move(b.0, b.1, o[2]);
    var d := Move(c.0, c.1, o[3]);
    var e := Move(d.0, d.1, o[4]);
    assert o[1..][1..] == o[2..] && o[2..][1..] == o[3..] && o[3..][1..] == o[4..] && o[4..][1..] == [];
    ServeOne(st, r, o);
    ServeOne(a.0, a.1, o[1..]);
    ServeOne(b.0, b.1, o[2..]);
    ServeOne(c.0, c.1, o[3..]);
    ServeOne(d.0, d.1, o[4..]);
    ServeNone(e.0, e.1);
  }

  lemma ServeNone(st: Store, r: Request)
    ensures Serve(st, r, []) == (st, r)
  {
  }

  lemma ServeOne(st: Store, r: Request, o: seq<Outcome>)
    requires |o| > 0
    ensures var next := Move(st, r, o[0]); Serve(st, r, o) == Serve(next.0, next.1, o[1..])
  {
  }

  const FIVE_WORKING: seq<Outcome> := [Works, Works, Works, Works, Works]

  /** Nothing stands between a request and its redeem row. */
  predicate Servable(st: Store, key: Key, platformFits: bool) {
    && key.0 in st.codes && platformFits && key !in st.rows
    && st.codes[key.0].quota != 0 && AllSupported(st.codes[key.0].rewards)
  }

  /**
   Served alone and undisturbed, a request is answered with the mail exactly when code and
   platform fit, the commander has no row for it, the quota is not 0, and all rewards are
   resources, items, ships or skins.
   */
  lemma ServedIff(st: Store, key: Key, platformFits: bool)
    ensures var end := Serve(st, Request(key, platformFits, Arrived), FIVE_WORKING);
            && end.1.phase == Closed(Servable(st, key, platformFits))
            && (end.1.phase == Closed(true) <==>
                  && key.0 in st.codes && platformFits && key !in st.rows && st.codes[key.0].quota != 0
                  && forall i :: 0 <= i < |st.codes[key.0].rewards| ==>
                       st.codes[key.0].rewards[i].kind in {1, 2, 4, 7})
  {
    ServeFive(st, Request(key, platformFits, Arrived), FIVE_WORKING);
  }

  /** A request whose mail fails and whose compensation works leaves no trace. */
  lemma FailedMailLeavesNoTrace(st: Store, key: Key, platformFits: bool)
    ensures Serve(st, Request(key, platformFits, Arrived), [Works, Works, Works, Breaks, Works]) ==
            (st, Request(key, platformFits, Closed(false)))
  {
    var o := [Works, Works, Works, Breaks, Works];
    ServeFive(st, Request(key, platformFits, Arrived), o);
    var next := Redeemed(st, key, Quota(st, key.0) >= 0);
    if key !in st.rows {
      assert (st.rows + {key}) - {key} == st.rows;
      if key.0 in st.codes {
        var c := st.codes[key.0];
        assert st.codes[key.0 := c.(quota := c.quota - 1)][key.0 := c.(quota := c.quota - 1 + 1)] == st.codes;
      }
    }
  }

  /** The request gained a row but no mail. */
  predicate Stranded(st: Store, end: Store, key: Key) {
    key !in st.rows && key in end.rows && end.mails == st.mails
  }

  /**
   Over all outcomes, a lone request ends with a row and without a mail exactly when it
   could be served and its mail and the compensation break after a working transaction.
   */
  lemma StrandedIff(st: Store, key: Key, platformFits: bool, o: seq<Outcome>)
    requires |o| == 5
    ensures Stranded(st, Serve(st, Request(key, platformFits, Arrived), o).0, key) <==>
            && Servable(st, key, platformFits)
            && o == [Works, Works, Works, Breaks, Breaks]
  {
    ServeFive(st, Request(key, platformFits, Arrived), o);
  }

  /** A commander with a row is refused, whatever works and whatever the code. */
  lemma RowShutsOut(st: Store, key: Key, platformFits: bool, o: seq<Outcome>)
    requires |o| == 5 && key in st.rows
    ensures Serve(st, Request(key, platformFits, Arrived), o) == (st, Request(key, platformFits, Closed(false)))
  {
    ServeFive(st, Request(key, platformFits, Arrived), o);
  }

  /**
   When the compensation breaks as well, a limited code's quota is spent and the commander is
   shut out without a mail.
   */
  lemma BrokenCompensationStrands(st: Store, key: Key, again: bool, o: seq<Outcome>)
    requires Servable(st, key, true) && |o| == 5
    ensures var lost := Serve(st, Request(key, true, Arrived), [Works, Works, Works, Breaks, Breaks]).0;
            && Stranded(st, lost, key)
            && Quota(lost, key.0) == Quota(st, key.0) - (if Limited(st.codes[key.0]) then 1 else 0)
            && Serve(lost, Request(key, again, Arrived), o) == (lost, Request(key, again, Closed(false)))
  {
    var broken := [Works, Works, Works, Breaks, Breaks];
    ServeFive(st, Request(key, true, Arrived), broken);
    RowShutsOut(Serve(st, Request(key, true, Arrived), broken).0, key, again, o);
  }

  // ---------- Many requests at once ----------

  datatype System = System(store: Store, requests: seq<Request>)

  datatype Event = Arrive(key: Key, platformFits: bool) | Advance(i: nat, outcome: Outcome)

  function Next(s: System, e: Event): System {
    match e
    case Arrive(key, fits) => s.(requests := s.requests + [Request(key, fits, Arrived)])
    case Advance(i, o) =>
      if i >= |s.requests| then s
      else var m := Move(s.store, s.requests[i], o); System(m.0, s.requests[i := m.1])
  }

  function Run(s: System, events: seq<Event>): System
    decreases |events|
  {
    if |events| == 0 then s else Run(Next(s, events[0]), events[1..])
  }

  predicate HasRow(r: Request) {
    r.phase.Holding? || r.phase.Failing?
  }

  predicate KnowsCode(r: Request) {
    r.phase.Seen? || r.phase.Cleared? || HasRow(r)
  }

  /** What a request remembers of its code still holds, whatever the others did. */
  ghost predicate Remembers(st: Store, r: Request) {
    KnowsCode(r) ==>
      && r.key.0 in st.codes
      && Limited(r.phase.code) == Limited(st.codes[r.key.0])
      && r.phase.code.rewards == st.codes[r.key.0].rewards
      && (r.phase.Seen? || AllSupported(r.phase.code.rewards))
  }

  ghost predicate Mailed(st: Store, key: Key) {
    exists j :: 0 <= j < |st.mails| && st.mails[j].key == key
  }

  /** A request between its transaction and its mail owns its row: no mail went out for it yet. */
  ghost predicate Owns(st: Store, r: Request) {
    HasRow(r) ==> r.key in st.rows && !Mailed(st, r.key)
  }

  ghost predicate OneMailPerRow(st: Store) {
    && (forall j :: 0 <= j < |st.mails| ==> st.mails[j].key in st.rows)
    && (forall i, j :: 0 <= i < j < |st.mails| ==> st.mails[i].key != st.mails[j].key)
  }

  ghost predicate OneHolder(requests: seq<Request>) {
    forall i, j :: 0 <= i < j < |requests| && HasRow(requests[i]) && HasRow(requests[j]) ==>
      requests[i].key != requests[j].key
  }

  ghost predicate Good(s: System) {
    && OneMailPerRow(s.store)
    && OneHolder(s.requests)
    && (forall i :: 0 <= i < |s.requests| ==> Remembers(s.store, s.requests[i]))
    && (forall i :: 0 <= i < |s.requests| ==> Owns(s.store, s.requests[i]))
  }

  ghost function RowsOf(st: Store, id: u32): set<Key> {
    set k | k in st.rows && k.0 == id
  }

  /** A limited code trades quota against rows one for one and never overdraws; others keep their mark. */
  ghost predicate Trades(a: Store, b: Store, id: u32) {
    && (id in b.codes <==> id in a.codes)
    && (id in a.codes ==>
          && b.codes[id].rewards == a.codes[id].rewards
          && (Limited(a.codes[id]) ==>
                0 <= b.codes[id].quota && b.codes[id].quota + |RowsOf(b, id)| == a.codes[id].quota + |RowsOf(a, id)|)
          && (!Limited(a.codes[id]) ==> b.codes[id].quota == a.codes[id].quota))
  }

  /** Mails are only added, and a mailed row stays. */
  ghost predicate KeepsMails(a: Store, b: Store) {
    && a.mails <= b.mails
    && forall j :: 0 <= j < |a.mails| ==> a.mails[j].key in b.rows
  }

  lemma AddedRow(st: Store, key: Key, id: u32)
    requires key !in st.rows
    ensures |RowsOf(st.(rows := st.rows + {key}), id)| == |RowsOf(st, id)| + if key.0 == id then 1 else 0
  {
    var after := RowsOf(st.(rows := st.rows + {key}), id);
    if key.0 == id { assert after == RowsOf(st, id) + {key}; } else { assert after == RowsOf(st, id); }
  }

  lemma RemovedRow(st: Store, key: Key, id: u32)
    requires key in st.rows
    ensures |RowsOf(st.(rows := st.rows - {key}), id)| == |RowsOf(st, id)| - if key.0 == id then 1 else 0
  {
    var after := RowsOf(st.(rows := st.rows - {key}), id);
    if key.0 == id { assert RowsOf(st, id) == after + {key}; } else { assert after == RowsOf(st, id); }
  }

  lemma MoveTrades(st: Store, r: Request, o: Outcome, id: u32)
    requires Remembers(st, r) && Owns(st, r)
    ensures Trades(st, Move(st, r, o).0, id)
  {
    match r.phase {
      case Cleared(c) =>
        if r.key !in st.rows {
          AddedRow(st, r.key, id);
          SameRows(Move(st, r, o).0, st.(rows := st.rows + {r.key}), id);
        }
      case Failing(c) => RemovedRow(st, r.key, id); SameRows(Move(st, r, o).0, st.(rows := st.rows - {r.key}), id);
      case _ => SameRows(Move(st, r, o).0, st, id);
    }
  }

  lemma SameRows(a: Store, b: Store, id: u32)
    ensures a.rows == b.rows ==> RowsOf(a, id) == RowsOf(b, id)
  {
  }

  /** What other requests see of one request's move. */
  ghost predicate Undisturbed(a: Store, b: Store, moved: Key) {
    && b.codes.Keys == a.codes.Keys
    && (forall id :: id in a.codes ==>
          Limited(b.codes[id]) == Limited(a.codes[id]) && b.codes[id].rewards == a.codes[id].rewards)
    && (forall k: Key :: k != moved ==> (k in b.rows <==> k in a.rows))
    && (forall k: Key :: k != moved ==> (Mailed(b, k) <==> Mailed(a, k)))
  }

  lemma MailAdded(st: Store, mail: Mail)
    ensures var next := st.(mails := st.mails + [mail]);
            forall k: Key :: Mailed(next, k) <==> Mailed(st, k) || k == mail.key
  {
    var next := st.(mails := st.mails + [mail]);
    assert next.mails[|st.mails|] == mail;
    forall k: Key | Mailed(st, k)
      ensures Mailed(next, k)
    {
      var j :| 0 <= j < |st.mails| && st.mails[j].key == k;
      assert next.mails[j].key == k;
    }
  }

  lemma MoveUndisturbs(st: Store, r: Request, o: Outcome)
    requires Remembers(st, r)
    ensures Undisturbed(st, Move(st, r, o).0, r.key)
    ensures HasRow(r) || r.key !in st.rows || Move(st, r, o).0 == st
  {
    hide Supported;
    var m := Move(st, r, o);
    if r.phase.Holding? && o == Works {
      MailAdded(st, Mail(r.key, AttachmentsOf(r.phase.code.rewards)));
    } else {
      assert m.0.mails == st.mails;
      assert forall k: Key :: Mailed(m.0, k) <==> Mailed(st, k);
    }
  }

  lemma MoveStaysGood(st: Store, r: Request, o: Outcome)
    requires Remembers(st, r) && Owns(st, r) && OneMailPerRow(st)
    ensures var m := Move(st, r, o);
            && m.1.key == r.key
            && Remembers(m.0, m.1) && Owns(m.0, m.1) && OneMailPerRow(m.0)
            && (HasRow(m.1) && !HasRow(r) ==> r.key !in st.rows)
  {
    hide Supported;
  }

  lemma MoveKeepsMails(st: Store, r: Request, o: Outcome)
    requires Owns(st, r) && OneMailPerRow(st)
    ensures KeepsMails(st, Move(st, r, o).0)
  {
    var m := Move(st, r, o);
    if r.phase.Failing? && o == Works {
      forall j | 0 <= j < |st.mails|
        ensures st.mails[j].key in m.0.rows
      {
        assert Mailed(st, st.mails[j].key);
      }
    }
  }

  lemma NextIsGood(s: System, e: Event)
    requires Good(s)
    ensures Good(Next(s, e))
    ensures KeepsMails(s.store, Next(s, e).store)
    ensures forall id: u32 :: Trades(s.store, Next(s, e).store, id)
  {
    hide Move, Trades, Remembers, Owns, OneMailPerRow, KeepsMails, Undisturbed;
    match e {
      case Arrive(key, fits) =>
        NothingChanges(s.store);
        ArrivedIsGood(s.store, Request(key, fits, Arrived));
      case Advance(i, o) =>
        if i >= |s.requests| {
          NothingChanges(s.store);
        } else {
          var r, m := s.requests[i], Move(s.store, s.requests[i], o);
          assert Remembers(s.store, r) && Owns(s.store, r);
          MoveUndisturbs(s.store, r, o);
          MoveStaysGood(s.store, r, o);
          MoveKeepsMails(s.store, r, o);
          forall id: u32 ensures Trades(s.store, m.0, id) { MoveTrades(s.store, r, o, id); }
          OthersStay(s, i, m.0);
          HolderStaysAlone(s, i, m.1);
        }
    }
  }

  lemma NothingChanges(st: Store)
    requires OneMailPerRow(st)
    ensures KeepsMails(st, st)
    ensures forall id: u32 :: Trades(st, st, id)
  {
  }

  lemma ArrivedIsGood(st: Store, r: Request)
    requires r.phase.Arrived?
    ensures Remembers(st, r) && Owns(st, r)
  {
  }

  /** The other requests keep what they know and own. */
  lemma OthersStay(s: System, i: nat, next: Store)
    requires Good(s) && i < |s.requests|
    requires Undisturbed(s.store, next, s.requests[i].key)
    requires HasRow(s.requests[i]) || s.requests[i].key !in s.store.rows || next == s.store
    ensures forall j :: 0 <= j < |s.requests| && j != i ==>
              Remembers(next, s.requests[j]) && Owns(next, s.requests[j])
  {
    hide OneMailPerRow;
    forall j | 0 <= j < |s.requests| && j != i
      ensures Remembers(next, s.requests[j]) && Owns(next, s.requests[j])
    {
      assert Remembers(s.store, s.requests[j]) && Owns(s.store, s.requests[j]);
      if HasRow(s.requests[j]) && s.requests[j].key == s.requests[i].key { assert next == s.store; }
    }
  }

  lemma HolderStaysAlone(s: System, i: nat, r: Request)
    requires Good(s) && i < |s.requests| && r.key == s.requests[i].key
    requires HasRow(r) && !HasRow(s.requests[i]) ==> r.key !in s.store.rows
    ensures OneHolder(s.requests[i := r])
  {
    hide OneMailPerRow, Remembers;
    forall j | 0 <= j < |s.requests| && j != i && HasRow(s.requests[j]) && HasRow(r)
      ensures s.requests[j].key != r.key
    {
      assert Owns(s.store, s.requests[j]);
    }
  }

  /**
   Under any interleaving of any number of requests: a limited code's quota plus its
   redeem rows never changes and the quota never goes negative, no commander gets a
   second mail for a code, and no row behind a mail is deleted.
   */
  lemma {:induction false} RunIsSafe(s: System, events: seq<Event>)
    requires Good(s)
    ensures Good(Run(s, events))
    ensures KeepsMails(s.store, Run(s, events).store)
    ensures forall id: u32 :: Trades(s.store, Run(s, events).store, id)
    decreases |events|
  {
    hide Trades, Next, OneHolder, Remembers, Owns, OneMailPerRow, KeepsMails;
    if |events| == 0 {
      NothingChanges(s.store);
    } else {
      var mid := Next(s, events[0]);
      NextIsGood(s, events[0]);
      RunIsSafe(mid, events[1..]);
      var end := Run(mid, events[1..]);
      KeepsMailsTwice(s.store, mid.store, end.store);
      forall id: u32
        ensures Trades(s.store, end.store, id)
      {
        TradesTwice(s.store, mid.store, end.store, id);
      }
    }
  }

  lemma KeepsMailsTwice(a: Store, b: Store, c: Store)
    requires KeepsMails(a, b) && KeepsMails(b, c)
    ensures KeepsMails(a, c)
  {
    forall j | 0 <= j < |a.mails|
      ensures a.mails[j].key in c.rows
    {
      assert b.mails[j] == a.mails[j];
    }
  }

  lemma TradesTwice(a: Store, b: Store, c: Store, id: u32)
    requires Trades(a, b, id) && Trades(b, c, id)
    ensures Trades(a, c, id)
  {
  }

  ghost function MailsOf(mails: seq<Mail>, id: u32): nat
    decreases |mails|
  {
    if |mails| == 0 then 0
    else MailsOf(mails[..|mails| - 1], id) + if mails[|mails| - 1].key.0 == id then 1 else 0
  }

  /** The request has a row of the code and no mail for it, for now or for good. */
  predicate Holds(r: Request, id: u32) {
    r.key.0 == id && (HasRow(r) || r.phase.Lost?)
  }

  ghost function HeldBy(requests: seq<Request>, id: u32): nat
    decreases |requests|
  {
    if |requests| == 0 then 0
    else HeldBy(requests[..|requests| - 1], id) + if Holds(requests[|requests| - 1], id) then 1 else 0
  }

  lemma {:induction false} HeldByUpdate(requests: seq<Request>, i: nat, r: Request, id: u32)
    requires i < |requests|
    ensures HeldBy(requests[i := r], id) + (if Holds(requests[i], id) then 1 else 0) ==
            HeldBy(requests, id) + (if Holds(r, id) then 1 else 0)
    decreases |requests|
  {
    var n := |requests| - 1;
    if i < n {
      assert requests[i := r][..n] == requests[..n][i := r];
      HeldByUpdate(requests[..n], i, r, id);
    } else {
      assert requests[i := r][..n] == requests[..n];
    }
  }

  /** The rows of a code that neither a mail nor a request accounts for. */
  ghost function Unaccounted(s: System, id: u32): int {
    |RowsOf(s.store, id)| - MailsOf(s.store.mails, id) - HeldBy(s.requests, id)
  }

  lemma MailCounted(mails: seq<Mail>, mail: Mail, id: u32)
    ensures MailsOf(mails + [mail], id) == MailsOf(mails, id) + if mail.key.0 == id then 1 else 0
  {
    assert (mails + [mail])[..|mails|] == mails;
  }

  lemma MoveAccounts(st: Store, r: Request, o: Outcome, id: u32)
    requires Remembers(st, r) && Owns(st, r)
    ensures var m := Move(st, r, o);
            |RowsOf(m.0, id)| - MailsOf(m.0.mails, id) - (if Holds(m.1, id) then 1 else 0) ==
            |RowsOf(st, id)| - MailsOf(st.mails, id) - (if Holds(r, id) then 1 else 0)
  {
    hide AllSupported, Mailed, RowsOf, MailsOf;
    var m := Move(st, r, o);
    match r.phase {
      case Cleared(c) =>
        if r.key !in st.rows {
          AddedRow(st, r.key, id);
          SameRows(m.0, st.(rows := st.rows + {r.key}), id);
        }
      case Failing(c) => RemovedRow(st, r.key, id); SameRows(m.0, st.(rows := st.rows - {r.key}), id);
      case Holding(c) =>
        MailCounted(st.mails, Mail(r.key, AttachmentsOf(c.rewards)), id);
        SameRows(m.0, st, id);
      case _ => SameRows(m.0, st, id);
    }
    SameRows(m.0, st, id);
  }

  lemma NextAccounts(s: System, e: Event, id: u32)
    requires Good(s)
    ensures Unaccounted(Next(s, e), id) == Unaccounted(s, id)
  {
    hide Move, RowsOf, Remembers, Owns, OneMailPerRow, OneHolder;
    match e {
      case Arrive(key, fits) =>
        var next := Next(s, e);
        assert next.requests[..|s.requests|] == s.requests;
        assert !Holds(next.requests[|s.requests|], id);
      case Advance(i, o) =>
        if i < |s.requests| {
          MoveAccounts(s.store, s.requests[i], o, id);
          HeldByUpdate(s.requests, i, Move(s.store, s.requests[i], o).1, id);
        }
    }
  }

  /** Under any interleaving every row stays accounted for: by a mail, or by a request that is on its way or lost. */
  lemma {:induction false} RunAccounts(s: System, events: seq<Event>, id: u32)
    requires Good(s)
    ensures Unaccounted(Run(s, events), id) == Unaccounted(s, id)
    decreases |events|
  {
    hide Unaccounted, Good, Next;
    if |events| > 0 {
      NextIsGood(s, events[0]);
      NextAccounts(s, events[0], id);
      RunAccounts(Next(s, events[0]), events[1..], id);
    }
  }

  /**
   From an empty table, under any interleaving: what is left of a limited code's quota,
   the mails sent and the requests holding or having lost a row make up its quota.
   */
  lemma RunLedger(codes: map<u32, Code>, events: seq<Event>, id: u32)
    requires id in codes && Limited(codes[id])
    ensures var end := Run(System(Store(codes, {}, []), []), events);
            && id in end.store.codes
            && end.store.codes[id].quota >= 0
            && end.store.codes[id].quota + MailsOf(end.store.mails, id) + HeldBy(end.requests, id) == codes[id].quota
  {
    var s := System(Store(codes, {}, []), []);
    RunIsSafe(s, events);
    RunAccounts(s, events, id);
    assert Trades(s.store, Run(s, events).store, id);
    assert RowsOf(s.store, id) == {};
  }

  /** So it never sends more mails than its quota allowed. */
  lemma NeverOversold(codes: map<u32, Code>, events: seq<Event>, id: u32)
    requires id in codes && Limited(codes[id])
    ensures MailsOf(Run(System(Store(codes, {}, []), []), events).store.mails, id) <= codes[id].quota
  {
    RunLedger(codes, events, id);
  }

  // ---------- What the mails carry ----------

  /** The mail hands out what the code's rewards say: kind, id and count, one for one and in order. */
  ghost predicate HandsOut(mail: Mail, rewards: seq<Reward>) {
    && |mail.attachments| == |rewards|
    && forall i :: 0 <= i < |rewards| ==>
         && mail.attachments[i].kind == rewards[i].kind
         && mail.attachments[i].itemId == rewards[i].id
         && mail.attachments[i].quantity == rewards[i].count
  }

  ghost predicate MailsHandOut(st: Store) {
    forall j :: 0 <= j < |st.mails| ==>
      st.mails[j].key.0 in st.codes && HandsOut(st.mails[j], st.codes[st.mails[j].key.0].rewards)
  }

  lemma MoveHandsOut(st: Store, r: Request, o: Outcome)
    requires Remembers(st, r) && MailsHandOut(st)
    ensures MailsHandOut(Move(st, r, o).0)
  {
    hide Supported, AllSupported, HandsOut;
    var next := Move(st, r, o).0;
    if r.phase.Holding? && o == Works {
      var mail := Mail(r.key, AttachmentsOf(r.phase.code.rewards));
      assert HandsOut(mail, r.phase.code.rewards) by { CarryingHandsOut(mail, r.phase.code.rewards); }
      assert next.mails == st.mails + [mail];
    }
  }

  lemma CarryingHandsOut(mail: Mail, rewards: seq<Reward>)
    requires Carries(mail.attachments, rewards)
    ensures HandsOut(mail, rewards)
  {
  }

  /** Under any interleaving every mail hands out exactly its code's rewards. */
  lemma {:induction false} RunHandsOut(s: System, events: seq<Event>)
    requires Good(s) && MailsHandOut(s.store)
    ensures MailsHandOut(Run(s, events).store)
    decreases |events|
  {
    hide MailsHandOut, Good, Move, Remembers;
    if |events| > 0 {
      NextIsGood(s, events[0]);
      if events[0].Advance? && events[0].i < |s.requests| {
        RequestRemembers(s, events[0].i);
        MoveHandsOut(s.store, s.requests[events[0].i], events[0].outcome);
      }
      RunHandsOut(Next(s, events[0]), events[1..]);
    }
  }

  lemma RequestRemembers(s: System, i: nat)
    requires Good(s) && i < |s.requests|
    ensures Remembers(s.store, s.requests[i])
  {
  }

  /**
   All that serving a lone request does: one mail with the rewards, one row, and one
   off a limited quota; a request that cannot be served does nothing.
   */
  lemma ServedStore(st: Store, key: Key, platformFits: bool)
    ensures var end := Serve(st, Request(key, platformFits, Arrived), FIVE_WORKING).0;
            if !Servable(st, key, platformFits) then end == st
            else
              var c := st.codes[key.0];
              && |end.mails| == |st.mails| + 1 && end.mails[..|st.mails|] == st.mails
              && end.mails[|st.mails|].key == key && HandsOut(end.mails[|st.mails|], c.rewards)
              && end.rows == st.rows + {key} && key !in st.rows
              && end.codes == st.codes[key.0 := c.(quota := if c.quota > 0 then c.quota - 1 else c.quota)]
  {
    hide AllSupported, HandsOut, Move;
    var r := Request(key, platformFits, Arrived);
    ServeFive(st, r, FIVE_WORKING);
    if Servable(st, key, platformFits) {
      ServedUntilCleared(st, r);
      ServedFrom(st, At(r, Cleared(st.codes[key.0])), st.codes[key.0]);
      var held := Move(st, At(r, Cleared(st.codes[key.0])), Works);
      ClosedStays(Move(held.0, held.1, Works));
    } else {
      RefusedUntilClosed(st, r);
      ClosedStays((st, At(r, Closed(false))));
    }
  }

  lemma ClosedStays(c: (Store, Request))
    requires c.1.phase.Closed?
    ensures Move(c.0, c.1, Works) == c
  {
  }

  lemma ServedUntilCleared(st: Store, r: Request)
    requires r.phase.Arrived? && Servable(st, r.key, r.platformFits)
    ensures var seen := Move(st, r, Works);
            Move(seen.0, seen.1, Works) == (st, At(r, Cleared(st.codes[r.key.0])))
  {
  }

  lemma RefusedUntilClosed(st: Store, r: Request)
    requires r.phase.Arrived? && !Servable(st, r.key, r.platformFits)
    ensures var seen := Move(st, r, Works);
            var cleared := Move(seen.0, seen.1, Works);
            Move(cleared.0, cleared.1, Works) == (st, At(r, Closed(false)))
  {
  }

  /** The two steps of a cleared request that is not disturbed. */
  lemma ServedFrom(st: Store, r: Request, c: Code)
    requires r.phase == Cleared(c) && r.key.0 in st.codes && st.codes[r.key.0] == c
    requires r.key !in st.rows && c.quota != 0
    ensures var held := Move(st, r, Works);
            var end := Move(held.0, held.1, Works);
            && end.1.phase == Closed(true)
            && |end.0.mails| == |st.mails| + 1 && end.0.mails[..|st.mails|] == st.mails
            && end.0.mails[|st.mails|].key == r.key && HandsOut(end.0.mails[|st.mails|], c.rewards)
            && end.0.rows == st.rows + {r.key}
            && end.0.codes == st.codes[r.key.0 := c.(quota := if c.quota > 0 then c.quota - 1 else c.quota)]
  {
    hide Carries, HandsOut;
    CarryingHandsOut(Mail(r.key, AttachmentsOf(c.rewards)), c.rewards);
    assert st.codes[r.key.0 := c] == st.codes;
  }
}
