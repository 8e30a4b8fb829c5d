/** Demand as a sum over the flow paths from the entries, and how it scales with the workload. */
module TrafficPaths {
  import opened Reachability
  import opened Traffic
  import opened Propagation
  import opened TrafficFacts

  // --- flow paths ----------------------------------------------------------------------------------

  /** A path of flows, by index, from an entry to `v`. */
  ghost predicate IsWalk(t: Setting, w: seq<int>, v: Id)
    decreases |w|
  {
    if w == [] then v in t.entries
    else
      var i := w[|w| - 1];
      0 <= i < |t.flows| && t.flows[i].downstream == v && IsWalk(t, w[..|w| - 1], t.flows[i].upstream)
  }

  function Each(ws: seq<seq<int>>, i: int): (r: seq<seq<int>>)
    ensures |r| == |ws| && forall k :: 0 <= k < |ws| ==> r[k] == ws[k] + [i]
  {
    if ws == [] then [] else Each(ws[..|ws| - 1], i) + [ws[|ws| - 1] + [i]]
  }

  /** The paths of `k` flows from an entry to `v`. */
  function Walks(t: Setting, v: Id, k: nat): seq<seq<int>>
    decreases k, |t.flows| + 1
  {
    if k == 0 then (if v in t.entries then [[]] else []) else Over(t, v, k, |t.flows|)
  }

  /** Those whose last flow is among the first `n`. */
  function Over(t: Setting, v: Id, k: nat, n: nat): seq<seq<int>>
    requires k > 0 && n <= |t.flows|
    decreases k, n
  {
    if n == 0 then []
    else if t.flows[n - 1].downstream == v then
        Over(t, v, k, n - 1) + Each(Walks(t, t.flows[n - 1].upstream, k - 1), n - 1)
    else Over(t, v, k, n - 1)
  }

  lemma EachHas(ws: seq<seq<int>>, i: int, w: seq<int>)
    ensures w in Each(ws, i) <==> w != [] && w[|w| - 1] == i && w[..|w| - 1] in ws
  {
    if w in Each(ws, i) {
      var k :| 0 <= k < |ws| && Each(ws, i)[k] == w;
      assert w[..|w| - 1] == ws[k];
    }
    if w != [] && w[|w| - 1] == i && w[..|w| - 1] in ws {
      var k :| 0 <= k < |ws| && ws[k] == w[..|w| - 1];
      assert w == ws[k] + [i];
      assert Each(ws, i)[k] == w;
    }
  }

  lemma OverIn(t: Setting, v: Id, k: nat, n: nat, w: seq<int>)
    requires k > 0 && 0 < n <= |t.flows|
    ensures w in Over(t, v, k, n) <==>
            w in Over(t, v, k, n - 1)
            || (t.flows[n - 1].downstream == v && w in Each(Walks(t, t.flows[n - 1].upstream, k - 1), n - 1))
  {
    hide Each, Walks;
  }

  lemma {:induction false} OverHas(t: Setting, v: Id, k: nat, n: nat, w: seq<int>)
    requires k > 0 && n <= |t.flows|
    ensures w in Over(t, v, k, n) <==> |w| == k && IsWalk(t, w, v) && w[|w| - 1] < n
    decreases k, n
  {
    hide Each, Walks;
    if n > 0 {
      hide Over;
      OverHas(t, v, k, n - 1, w);
      OverIn(t, v, k, n, w);
      if t.flows[n - 1].downstream == v {
        EachHas(Walks(t, t.flows[n - 1].upstream, k - 1), n - 1, w);
        if w != [] {
          WalksHas(t, t.flows[n - 1].upstream, k - 1, w[..|w| - 1]);
        }
      }
    }
  }

  /** The list holds exactly the paths of `k` flows from an entry to `v`. */
  lemma {:induction false} WalksHas(t: Setting, v: Id, k: nat, w: seq<int>)
    ensures w in Walks(t, v, k) <==> |w| == k && IsWalk(t, w, v)
    decreases k, |t.flows| + 1
  {
    if k > 0 {
      OverHas(t, v, k, |t.flows|, w);
    }
  }

  ghost predicate Once(ws: seq<seq<int>>) {
    forall i, j :: 0 <= i < j < |ws| ==> ws[i] != ws[j]
  }

  lemma {:induction false} OverOnce(t: Setting, v: Id, k: nat, n: nat)
    requires k > 0 && n <= |t.flows|
    ensures Once(Over(t, v, k, n))
    decreases k, n
  {
    if n > 0 {
      OverOnce(t, v, k, n - 1);
      if t.flows[n - 1].downstream == v {
        var front, ws := Over(t, v, k, n - 1), Walks(t, t.flows[n - 1].upstream, k - 1);
        WalksOnce(t, t.flows[n - 1].upstream, k - 1);
        EachOnce(ws, n - 1);
        forall w | w in front
          ensures w !in Each(ws, n - 1)
        {
          OverHas(t, v, k, n - 1, w);
          EachHas(ws, n - 1, w);
        }
        JoinedOnce(front, Each(ws, n - 1));
      }
    }
  }

  lemma EachOnce(ws: seq<seq<int>>, i: int)
    requires Once(ws)
    ensures Once(Each(ws, i))
  {
    forall j, k | 0 <= j < k < |ws|
      ensures ws[j] + [i] != ws[k] + [i]
    {
      assert (ws[j] + [i])[..|ws[j]|] == ws[j] && (ws[k] + [i])[..|ws[k]|] == ws[k];
    }
  }

  lemma JoinedOnce(a: seq<seq<int>>, b: seq<seq<int>>)
    requires Once(a) && Once(b) && forall w :: w in a ==> w !in b
    ensures Once(a + b)
  {
    forall i, j | 0 <= i < j < |a + b|
      ensures (a + b)[i] != (a + b)[j]
    {
      if i < |a| && j >= |a| {
        assert a[i] in a && b[j - |a|] in b;
      }
    }
  }

  /** No path is listed twice. */
  lemma {:induction false} WalksOnce(t: Setting, v: Id, k: nat)
    ensures Once(Walks(t, v, k))
    decreases k, |t.flows| + 1
  {
    if k > 0 {
      OverOnce(t, v, k, |t.flows|);
    }
  }

  // --- what a path carries -------------------------------------------------------------------------

  function At(t: Setting, i: int): real {
    if 0 <= i < |t.flows| then Or(FactorAt(t, i), 0.0) else 0.0
  }

  /** The product of the factors along a path. */
  function Product(t: Setting, w: seq<int>): real {
    if w == [] then 1.0 else Product(t, w[..|w| - 1]) * At(t, w[|w| - 1])
  }

  function Products(t: Setting, ws: seq<seq<int>>): real {
    if ws == [] then 0.0 else Products(t, ws[..|ws| - 1]) + Product(t, ws[|ws| - 1])
  }

  /** The share of the workload that reaches `v` over the paths of one to `n` flows. */
  function Gain(t: Setting, v: Id, n: nat): real {
    if n == 0 then 0.0 else Gain(t, v, n - 1) + Products(t, Walks(t, v, n))
  }

  lemma {:induction false} ProductsJoined(t: Setting, a: seq<seq<int>>, b: seq<seq<int>>)
    ensures Products(t, a + b) == Products(t, a) + Products(t, b)
    decreases |b|
  {
    if b == [] {
      assert a + b == a;
    } else {
      var z := |b| - 1;
      assert (a + b)[..|a + b| - 1] == a + b[..z] && (a + b)[|a + b| - 1] == b[z];
      ProductsJoined(t, a, b[..z]);
    }
  }

  lemma {:induction false} ProductsEach(t: Setting, ws: seq<seq<int>>, i: int)
    ensures Products(t, Each(ws, i)) == Products(t, ws) * At(t, i)
    decreases |ws|
  {
    hide Product;
    if ws != [] {
      var z, e := |ws| - 1, Each(ws, i);
      ProductsEach(t, ws[..z], i);
      assert e[..z] == Each(ws[..z], i);
      ProductAppended(t, ws[z], i);
      Distribute(Products(t, ws[..z]), Product(t, ws[z]), At(t, i));
    } else {
      assert 0.0 * At(t, i) == 0.0;
    }
  }

  lemma ProductAppended(t: Setting, w: seq<int>, i: int)
    ensures Product(t, w + [i]) == Product(t, w) * At(t, i)
  {
    assert (w + [i])[..|w|] == w;
  }

  lemma Distribute(a: real, b: real, c: real)
    ensures (a + b) * c == a * c + b * c
  {
  }

  /** What the first `m` flows bring to `v`, when `share(u)` of the workload is what each upstream sends on. */
  function Brought(t: Setting, share: Id -> real, v: Id, m: nat): real
    requires m <= |t.flows|
  {
    if m == 0 then 0.0
    else Brought(t, share, v, m - 1) +
         if t.flows[m - 1].downstream == v then share(t.flows[m - 1].upstream) * At(t, m - 1) else 0.0
  }

  function EntryShare(t: Setting, u: Id): real {
    if u in t.entries then 1.0 else 0.0
  }

  /** What is sent on from each node over the paths of that length. */
  function SentOver(t: Setting, k: nat): Id -> real {
    u => Products(t, Walks(t, u, k))
  }

  lemma {:induction false} OverBrought(t: Setting, v: Id, k: nat, m: nat)
    requires k > 0 && m <= |t.flows|
    ensures Products(t, Over(t, v, k, m)) == Brought(t, SentOver(t, k - 1), v, m)
    decreases m
  {
    hide Products, At;
    var last := SentOver(t, k - 1);
    if m > 0 {
      OverBrought(t, v, k, m - 1);
      if t.flows[m - 1].downstream == v {
        var ws := Walks(t, t.flows[m - 1].upstream, k - 1);
        ProductsJoined(t, Over(t, v, k, m - 1), Each(ws, m - 1));
        ProductsEach(t, ws, m - 1);
        assert last(t.flows[m - 1].upstream) == Products(t, ws);
        assert Brought(t, last, v, m) == Brought(t, last, v, m - 1) + Products(t, ws) * At(t, m - 1);
      }
    } else {
      NoProducts(t);
    }
  }

  lemma NoProducts(t: Setting)
    ensures Products(t, []) == 0.0
  {
  }

  lemma {:induction false} BroughtSum(t: Setting, f: Id -> real, g: Id -> real, h: Id -> real, v: Id, m: nat)
    requires m <= |t.flows| && forall u :: h(u) == f(u) + g(u)
    ensures Brought(t, h, v, m) == Brought(t, f, v, m) + Brought(t, g, v, m)
    decreases m
  {
    if m > 0 {
      BroughtSum(t, f, g, h, v, m - 1);
      var u := t.flows[m - 1].upstream;
      Distribute(f(u), g(u), At(t, m - 1));
      assert h(u) == f(u) + g(u);
    }
  }

  lemma {:induction false} NothingBrought(t: Setting, f: Id -> real, v: Id, m: nat)
    requires m <= |t.flows| && forall i :: 0 <= i < m && t.flows[i].downstream == v ==> f(t.flows[i].upstream) == 0.0
    ensures Brought(t, f, v, m) == 0.0
    decreases m
  {
    if m > 0 {
      NothingBrought(t, f, v, m - 1);
    }
  }

  /** Paths of one to `n` flows are the flows into `v` after paths of at most `n - 1`. */
  lemma {:induction false} GainBrought(t: Setting, v: Id, n: nat)
    requires n > 0
    ensures Gain(t, v, n) == Brought(t, u => EntryShare(t, u) + Gain(t, u, n - 1), v, |t.flows|)
    decreases n
  {
    hide Products, Walks, Brought;
    var last := SentOver(t, n - 1);
    var all := u => EntryShare(t, u) + Gain(t, u, n - 1);
    OverBrought(t, v, n, |t.flows|);
    WalksOver(t, v, n);
    forall u
      ensures n == 1 ==> all(u) == last(u)
    {
      EntryWalk(t, u);
    }
    EntryWalk(t, v);
    if n == 1 {
      SameBrought(t, all, last, v, |t.flows|);
    } else {
      GainBrought(t, v, n - 1);
      var before := u => EntryShare(t, u) + Gain(t, u, n - 2);
      BroughtSum(t, before, last, all, v, |t.flows|);
    }
  }

  lemma WalksOver(t: Setting, v: Id, n: nat)
    requires n > 0
    ensures Walks(t, v, n) == Over(t, v, n, |t.flows|)
  {
  }

  lemma EntryWalk(t: Setting, u: Id)
    ensures Products(t, Walks(t, u, 0)) == EntryShare(t, u) && Gain(t, u, 0) == 0.0
  {
    if u in t.entries {
      var ws := Walks(t, u, 0);
      assert ws == [[]] && ws[..0] == [];
    }
  }

  lemma {:induction false} SameBrought(t: Setting, f: Id -> real, g: Id -> real, v: Id, m: nat)
    requires m <= |t.flows| && forall i :: 0 <= i < m && t.flows[i].downstream == v ==>
             f(t.flows[i].upstream) == g(t.flows[i].upstream)
    ensures Brought(t, f, v, m) == Brought(t, g, v, m)
    decreases m
  {
    if m > 0 {
      SameBrought(t, f, g, v, m - 1);
    }
  }

  // --- demand is what the paths carry --------------------------------------------------------------

  lemma {:induction false} IntoBrought(t: Setting, carried: Demand, share: Id -> real, v: Id, m: nat)
    requires m <= |t.flows|
    requires forall i :: 0 <= i < m && t.flows[i].downstream == v ==>
               i in carried && carried[i] == (t.total * share(t.flows[i].upstream)) * At(t, i)
    ensures Into(t, carried, v, m) == t.total * Brought(t, share, v, m)
    decreases m
  {
    if m > 0 {
      IntoBrought(t, carried, share, v, m - 1);
      var i := m - 1;
      if t.flows[i].downstream == v {
        Regroup(t.total, Brought(t, share, v, i), share(t.flows[i].upstream), At(t, i));
        assert Arrives(t, carried, i, v);
      }
    }
  }

  lemma Regroup(a: real, b: real, c: real, d: real)
    ensures a * b + (a * c) * d == a * (b + c * d)
  {
    assert (a * c) * d == a * (c * d);
  }

  lemma SendsShare(t: Setting, r: Spread, u: Id, gain: real)
    requires Propagated(t, r) && u in r.base && r.base[u].Some? && Work(t, r.carried, u) == t.total * gain
    ensures r.base[u].value == t.total * (EntryShare(t, u) + gain)
  {
    hide Defined, Delivered, Reported, Mixed, Into;
    assert t.total * (1.0 + gain) == t.total + t.total * gain;
    assert r.base[u] == BaseOf(t, u, Work(t, r.carried, u), Mixed(t, r.carried, u));
  }

  /** The work of a complete node is what its paths of up to `n` flows carry, for every `n` from its place on. */
  lemma {:induction false} WorkOfPlace(t: Setting, r: Spread, k: nat, n: nat)
    requires Propagated(t, r) && k < |r.order| && r.order[k] !in r.incomplete && n >= k
    ensures Work(t, r.carried, r.order[k]) == t.total * Gain(t, r.order[k], n)
    decreases k
  {
    hide Propagated, Gain, BaseOf, Mixed, Brought, Into, Holds, Factor;
    var v := r.order[k];
    assert v in r.base by { PlaceDefined(t, r, k); }
    var share := u => if n == 0 then 0.0 else EntryShare(t, u) + Gain(t, u, n - 1);
    forall i | 0 <= i < |t.flows| && t.flows[i].downstream == v
      ensures n > 0 && i in r.carried && r.carried[i] == (t.total * share(t.flows[i].upstream)) * At(t, i)
    {
      Earlier(t, r, k, i);
      var j :| 0 <= j < k && r.order[j] == t.flows[i].upstream;
      CompleteFromComplete(t, r, v, i);
      WorkOfPlace(t, r, j, n - 1);
      SendsShare(t, r, r.order[j], Gain(t, r.order[j], n - 1));
    }
    IntoBrought(t, r.carried, share, v, |t.flows|);
    if n > 0 {
      GainBrought(t, v, n);
      SameBrought(t, share, u => EntryShare(t, u) + Gain(t, u, n - 1), v, |t.flows|);
    } else {
      NothingBrought(t, share, v, |t.flows|);
      NoGain(t, v);
    }
  }

  lemma NoGain(t: Setting, v: Id)
    ensures Gain(t, v, 0) == 0.0
  {
  }

  lemma PlaceDefined(t: Setting, r: Spread, k: nat)
    requires Propagated(t, r) && k < |r.order|
    ensures r.order[k] in r.base
  {
    hide Delivered, SendsFrom, Reported, Topological, Fed;
    var v := r.order[k];
    assert v in r.order;
  }

  /** No path to a node has more flows than nodes come before it. */
  lemma {:induction false} WalksBounded(t: Setting, r: Spread, k: nat, w: seq<int>)
    requires Propagated(t, r) && k < |r.order| && IsWalk(t, w, r.order[k])
    ensures |w| <= k
    decreases |w|
  {
    hide Propagated;
    if w != [] {
      var i := w[|w| - 1];
      Earlier(t, r, k, i);
      var j :| 0 <= j < k && r.order[j] == t.flows[i].upstream;
      WalksBounded(t, r, j, w[..|w| - 1]);
    }
  }

  /**
   * The work of a complete node is the workload's rate times the sum, over every path from an entry to it,
   * of the product of the path's factors: the paths of one to `|order|` flows, and there are no longer ones.
   */
  lemma WorkIsSumOverPaths(t: Setting, r: Spread, v: Id)
    requires Propagated(t, r) && v in r.base && v !in r.incomplete
    ensures Work(t, r.carried, v) == t.total * Gain(t, v, |r.order|)
    ensures forall w :: IsWalk(t, w, v) ==> |w| <= |r.order|
  {
    hide Delivered, SendsFrom, Reported, Topological, Gain, Into, IsWalk;
    assert v in r.order;
    var k :| 0 <= k < |r.order| && r.order[k] == v;
    WorkOfPlace(t, r, k, |r.order|);
    forall w | IsWalk(t, w, v)
      ensures |w| <= |r.order|
    {
      WalksBounded(t, r, k, w);
    }
  }
}
