/** Following links from id to id: when that comes to an end, and how soon. */
module Chains {
  import opened Word32
  import opened Collections

  type Links = map<u32, u32>

  /** The walk reaches an id without a link within `n` steps. */
  ghost predicate Ends(links: Links, id: u32, n: nat)
    decreases n
  {
    id !in links || (n > 0 && Ends(links, links[id], n - 1))
  }

  /** Where the walk is after `n` steps; it stays where there is no link. */
  ghost function Reached(links: Links, id: u32, n: nat): u32
    decreases n
  {
    if n == 0 || id !in links then id else Reached(links, links[id], n - 1)
  }

  lemma {:induction false} EndsWhereReached(links: Links, id: u32, n: nat)
    ensures Ends(links, id, n) <==> Reached(links, id, n) !in links
    decreases n
  {
    if n > 0 && id in links { EndsWhereReached(links, links[id], n - 1); }
  }

  lemma {:induction false} EndsLater(links: Links, id: u32, m: nat, n: nat)
    requires Ends(links, id, m) && m <= n
    ensures Ends(links, id, n)
    decreases m
  {
    if id in links { EndsLater(links, links[id], m - 1, n - 1); }
  }

  lemma {:induction false} EndsWithout(links: Links, id: u32, n: nat, cut: u32)
    requires Ends(links, id, n)
    ensures Ends(links - {cut}, id, n)
    decreases n
  {
    if id in links { EndsWithout(links, links[id], n - 1, cut); }
  }

  /** A walk of `n` steps does not pass `cut` if the walk from there takes longer. */
  lemma {:induction false} NotPast(links: Links, id: u32, m: nat, n: nat, cut: u32)
    requires Ends(links - {cut}, id, m) && Ends(links, id, n) && !Ends(links, cut, n)
    ensures Ends(links, id, m)
    decreases m
  {
    if id in links {
      if Ends(links, cut, n - 1) { EndsLater(links, cut, n - 1, n); }
      NotPast(links, links[id], m - 1, n - 1, cut);
    }
  }

  /** A walk that ends at all passes every id at most once. */
  lemma {:induction false} EndsSoon(links: Links, id: u32, n: nat)
    requires Ends(links, id, n)
    ensures Ends(links, id, |links|)
    decreases n
  {
    if id in links {
      if Ends(links, id, n - 1) {
        EndsSoon(links, id, n - 1);
      } else {
        var rest := links - {id};
        assert rest.Keys == links.Keys - {id};
        assert |rest.Keys| == |links.Keys| - 1;
        EndsWithout(links, links[id], n - 1, id);
        EndsSoon(rest, links[id], n - 1);
        NotPast(links, links[id], |rest|, n - 1, id);
      }
    }
  }

  /** So it ends within as many steps as there are ids. */
  lemma EndsWithinSize(links: Links, ids: set<u32>, id: u32, n: nat)
    requires links.Keys <= ids && Ends(links, id, n)
    ensures Ends(links, id, |ids|)
  {
    EndsSoon(links, id, n);
    SubsetSize(links.Keys, ids);
    EndsLater(links, id, |links|, |ids|);
  }
}
