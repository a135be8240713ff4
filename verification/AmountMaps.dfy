/** Amounts per id, kept in 32-bit words and added up key by key. */
module AmountMaps {
  import opened Word32
  import opened Collections

  type Amounts = map<u32, u32>

  function AmountOf(m: Amounts, id: u32): u32 {
    if id in m then m[id] else 0
  }

  function Combine(m: Amounts, n: Amounts): Amounts {
    map id | id in m.Keys + n.Keys :: Add(AmountOf(m, id), AmountOf(n, id))
  }

  lemma CombineAt(m: Amounts, n: Amounts, id: u32)
    ensures AmountOf(Combine(m, n), id) == Add(AmountOf(m, id), AmountOf(n, id))
    ensures id in Combine(m, n) <==> id in m || id in n
  {
  }

  lemma AddAssoc(a: u32, b: u32, c: u32)
    ensures Add(Add(a, b), c) == Add(a, Add(b, c))
  {
  }

  lemma SameAmounts(m: Amounts, n: Amounts)
    requires m.Keys == n.Keys && forall id: u32 :: AmountOf(m, id) == AmountOf(n, id)
    ensures m == n
  {
    forall id | id in m
      ensures m[id] == n[id]
    {
      assert AmountOf(m, id) == AmountOf(n, id);
    }
  }

  lemma CombineAssoc(a: Amounts, b: Amounts, c: Amounts)
    ensures Combine(Combine(a, b), c) == Combine(a, Combine(b, c))
  {
    forall id: u32
      ensures AmountOf(Combine(Combine(a, b), c), id) == AmountOf(Combine(a, Combine(b, c)), id)
    {
      CombineAt(a, b, id);
      CombineAt(b, c, id);
      CombineAt(Combine(a, b), c, id);
      CombineAt(a, Combine(b, c), id);
      AddAssoc(AmountOf(a, id), AmountOf(b, id), AmountOf(c, id));
    }
    SameAmounts(Combine(Combine(a, b), c), Combine(a, Combine(b, c)));
  }

  lemma CombineComm(a: Amounts, b: Amounts)
    ensures Combine(a, b) == Combine(b, a)
  {
  }

  lemma CombineEmpty(a: Amounts)
    ensures Combine(a, map[]) == a
  {
  }

  /** Adding one amount; an id or an amount of 0 is skipped. */
  function Put(dst: Amounts, id: u32, n: u32): Amounts {
    if id == 0 || n == 0 then dst else dst[id := Add(AmountOf(dst, id), n)]
  }

  lemma PutCombines(dst: Amounts, more: Amounts, id: u32, n: u32)
    ensures Put(Combine(dst, more), id, n) == Combine(dst, Put(more, id, n))
  {
    forall k: u32
      ensures AmountOf(Put(Combine(dst, more), id, n), k) == AmountOf(Combine(dst, Put(more, id, n)), k)
    {
      CombineAt(dst, more, k);
      CombineAt(dst, Put(more, id, n), k);
      AddAssoc(AmountOf(dst, k), AmountOf(more, k), n);
    }
    SameAmounts(Put(Combine(dst, more), id, n), Combine(dst, Put(more, id, n)));
  }

  /** All amounts together, unbounded. */
  ghost function Sum(m: Amounts): nat {
    SumOver(m, m.Keys)
  }

  /** Putting an amount in changes the sum by as much as it changes that amount. */
  lemma SumPut(m: Amounts, id: u32, n: u32)
    ensures Sum(Put(m, id, n)) - AmountOf(Put(m, id, n), id) == Sum(m) - AmountOf(m, id)
  {
    if id != 0 && n != 0 {
      var after := Put(m, id, n);
      var others := m.Keys - {id};
      SumSplits(after, after.Keys, id);
      assert after.Keys - {id} == others;
      SameSum(m, after, others);
      if id in m {
        SumSplits(m, m.Keys, id);
      } else {
        assert others == m.Keys;
      }
    }
  }

  lemma AmountWithinSum(m: Amounts, id: u32)
    ensures AmountOf(m, id) <= Sum(m)
  {
    if id in m { SumSplits(m, m.Keys, id); }
  }
}
