/** Sums over the places a warning can be in, for any weight function on warnings. */
module Accounting {
  import opened Basics
  import opened WireFormat
  import opened Streams
  import opened SystemModel

  ghost function Sum(ws: seq<Warning>, f: Warning -> nat): nat {
    if ws == [] then 0 else f(ws[0]) + Sum(ws[1..], f)
  }

  ghost function Weight(x: Option<Warning>, f: Warning -> nat): nat {
    if x.Some? then f(x.value) else 0
  }

  /** The same over items that may be NULL. */
  ghost function SumItems(xs: seq<Option<Warning>>, f: Warning -> nat): nat {
    if xs == [] then 0 else Weight(xs[0], f) + SumItems(xs[1..], f)
  }

  ghost function SumNat(xs: seq<nat>): nat {
    if xs == [] then 0 else xs[0] + SumNat(xs[1..])
  }

  lemma {:induction false} SumAppend(a: seq<Warning>, b: seq<Warning>, f: Warning -> nat)
    ensures Sum(a + b, f) == Sum(a, f) + Sum(b, f)
  {
    if a == [] {
      assert a + b == b;
    } else {
      assert (a + b)[1..] == a[1..] + b;
      SumAppend(a[1..], b, f);
    }
  }

  lemma SumAdd(a: seq<Warning>, w: Warning, f: Warning -> nat)
    ensures Sum(a + [w], f) == Sum(a, f) + f(w)
  {
    SumAppend(a, [w], f);
    assert [w][1..] == [];
  }

  lemma {:induction false} SumItemsAdd(a: seq<Option<Warning>>, x: Option<Warning>, f: Warning -> nat)
    ensures SumItems(a + [x], f) == SumItems(a, f) + Weight(x, f)
  {
    if a == [] {
      assert a + [x] == [x] && [x][1..] == [];
    } else {
      assert (a + [x])[1..] == a[1..] + [x];
      SumItemsAdd(a[1..], x, f);
    }
  }

  lemma {:induction false} SumItemsUpdate(a: seq<Option<Warning>>, i: nat, x: Option<Warning>, f: Warning -> nat)
    requires i < |a|
    ensures SumItems(a[i := x], f) == SumItems(a, f) - Weight(a[i], f) + Weight(x, f)
  {
    if i == 0 {
      assert a[i := x][1..] == a[1..];
    } else {
      assert a[i := x][1..] == a[1..][i - 1 := x];
      SumItemsUpdate(a[1..], i - 1, x, f);
    }
  }

  lemma {:induction false} SumNatUpdate(xs: seq<nat>, i: nat, x: nat)
    requires i < |xs|
    ensures SumNat(xs[i := x]) == SumNat(xs) - xs[i] + x
  {
    if i == 0 {
      assert xs[i := x][1..] == xs[1..];
    } else {
      assert xs[i := x][1..] == xs[1..][i - 1 := x];
      SumNatUpdate(xs[1..], i - 1, x);
    }
  }

  lemma {:induction false} SumNatZero(xs: seq<nat>)
    requires forall i :: 0 <= i < |xs| ==> xs[i] == 0
    ensures SumNat(xs) == 0
  {
    if xs != [] {
      SumNatZero(xs[1..]);
    }
  }

  lemma {:induction false} SumNatSingle(xs: seq<nat>, k: nat)
    requires k < |xs| && forall i :: 0 <= i < |xs| && i != k ==> xs[i] == 0
    ensures SumNat(xs) == xs[k]
  {
    if k == 0 {
      SumNatZero(xs[1..]);
    } else {
      SumNatSingle(xs[1..], k - 1);
    }
  }

  lemma {:induction false} SumZero(ws: seq<Warning>, f: Warning -> nat)
    requires forall w :: w in ws ==> f(w) == 0
    ensures Sum(ws, f) == 0
  {
    if ws != [] {
      SumZero(ws[1..], f);
    }
  }

  lemma {:induction false} SumOnes(ws: seq<Warning>, f: Warning -> nat)
    requires forall w :: w in ws ==> f(w) == 1
    ensures Sum(ws, f) == |ws|
  {
    if ws != [] {
      SumOnes(ws[1..], f);
    }
  }

  lemma {:induction false} SumItemsNone(xs: seq<Option<Warning>>, f: Warning -> nat)
    requires forall i :: 0 <= i < |xs| ==> xs[i].None?
    ensures SumItems(xs, f) == 0
  {
    if xs != [] {
      SumItemsNone(xs[1..], f);
    }
  }

  // ---- Sites ----

  ghost function SiteSum(site: Site, f: Warning -> nat): nat {
    Sum(Arriving(site.inbox), f) + SumItems(site.queue.items, f) + SumItems(site.hands, f) + Sum(site.counted, f)
  }

  ghost function Total(sites: seq<Site>, f: Warning -> nat): nat {
    SumNat(seq(|sites|, i requires 0 <= i < |sites| => SiteSum(sites[i], f)))
  }

  lemma TotalUpdate(sites: seq<Site>, n: nat, site: Site, f: Warning -> nat)
    requires n < |sites|
    ensures Total(sites[n := site], f) == Total(sites, f) - SiteSum(sites[n], f) + SiteSum(site, f)
  {
    var xs := seq(|sites|, i requires 0 <= i < |sites| => SiteSum(sites[i], f));
    SumNatUpdate(xs, n, SiteSum(site, f));
    var sites' := sites[n := site];
    assert seq(|sites'|, i requires 0 <= i < |sites'| => SiteSum(sites'[i], f)) == xs[n := SiteSum(site, f)];
  }

  lemma TotalZero(sites: seq<Site>, f: Warning -> nat)
    requires forall i :: 0 <= i < |sites| ==> SiteSum(sites[i], f) == 0
    ensures Total(sites, f) == 0
  {
    SumNatZero(seq(|sites|, i requires 0 <= i < |sites| => SiteSum(sites[i], f)));
  }

  lemma TotalSingle(sites: seq<Site>, k: nat, f: Warning -> nat)
    requires k < |sites| && forall i :: 0 <= i < |sites| && i != k ==> SiteSum(sites[i], f) == 0
    ensures Total(sites, f) == SiteSum(sites[k], f)
  {
    SumNatSingle(seq(|sites|, i requires 0 <= i < |sites| => SiteSum(sites[i], f)), k);
  }
}
