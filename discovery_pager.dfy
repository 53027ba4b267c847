/** The pager of the discovery screen keeps one fragment per sort position in a
    map shared by every adapter instance, creating fragments on demand. */
module DiscoveryPager {
  import opened Streams

  /** A `DiscoveryFragment`: `instance` numbers the `newInstance` calls, so two
      fragments are the same object exactly when they are equal. */
  datatype Fragment = Fragment(instance: nat, position: int)

  datatype Category = Category(id: int, name: string)

  datatype DiscoveryParams = DiscoveryParams(sort: int, categoryId: Option<int>)

  /** What the adapter asks of a fragment; the fragment's own handling of it is
      not part of this model. */
  datatype FragmentCall =
    | TakeCategories(fragment: Fragment, categories: seq<Category>)
    | UpdateParams(fragment: Fragment, params: DiscoveryParams)
    | ClearPage(fragment: Fragment)

  /** Every cached fragment sits at its own position and was created before
      `instances` reached its current count. */
  ghost predicate Consistent(m: map<int, Fragment>, instances: nat) {
    forall p :: p in m ==> m[p].position == p && m[p].instance < instances
  }

  /** `safeGetFragment(position)` over a map and an instance count: the cached
      fragment when there is one, otherwise a new one that is cached. */
  function Lookup(m: map<int, Fragment>, instances: nat, position: int)
    : (r: (Fragment, map<int, Fragment>, nat))
    ensures position in m ==> r == (m[position], m, instances)
    ensures position !in m ==> r == (Fragment(instances, position), m[position := r.0], instances + 1)
    ensures position in r.1 && r.1[position] == r.0
    ensures Consistent(m, instances) ==> Consistent(r.1, r.2) && r.0.position == position
  {
    if position in m then (m[position], m, instances)
    else
      var f := Fragment(instances, position);
      (f, m[position := f], instances + 1)
  }

  /** A second lookup of the same position returns the same fragment and creates
      nothing. */
  lemma LookupTwice(m: map<int, Fragment>, instances: nat, position: int)
    ensures var (f, m', n') := Lookup(m, instances, position);
            Lookup(m', n', position) == (f, m', n')
  {
  }

  /** The fragments `safeGetFragment` returns for `pages`, in order, with the map
      and the count after the last. */
  function Lookups(m: map<int, Fragment>, instances: nat, pages: seq<int>)
    : (r: (seq<Fragment>, map<int, Fragment>, nat))
    ensures |r.0| == |pages|
    decreases |pages|
  {
    if pages == [] then ([], m, instances)
    else
      var l := Lookup(m, instances, pages[0]);
      var rest := Lookups(l.1, l.2, pages[1..]);
      ([l.0] + rest.0, rest.1, rest.2)
  }

  /** After the lookups every listed page is cached, each page got the fragment
      now cached for it, fragments cached before are kept, nothing else is added,
      and the cache stays consistent. */
  lemma {:induction false} LookupsContents(m: map<int, Fragment>, instances: nat, pages: seq<int>)
    ensures var r := Lookups(m, instances, pages);
            && (forall i :: 0 <= i < |pages| ==> pages[i] in r.1 && r.0[i] == r.1[pages[i]])
            && (forall p :: p in m ==> p in r.1 && r.1[p] == m[p])
            && (forall p :: p in r.1 ==> p in m || p in pages)
            && instances <= r.2
            && (Consistent(m, instances) ==> Consistent(r.1, r.2))
    decreases |pages|
  {
    if pages != [] {
      var l := Lookup(m, instances, pages[0]);
      LookupsContents(l.1, l.2, pages[1..]);
      var rest := Lookups(l.1, l.2, pages[1..]);
      var r := Lookups(m, instances, pages);
      assert r == ([l.0] + rest.0, rest.1, rest.2);
      assert forall i :: 1 <= i < |pages| ==> pages[i] == pages[1..][i - 1] && r.0[i] == rest.0[i - 1];
      assert forall q :: q in pages[1..] ==> q in pages;
    }
  }

  /** A page listed twice gets the same fragment both times. */
  lemma SamePageSameFragment(m: map<int, Fragment>, instances: nat, pages: seq<int>, i: nat, j: nat)
    requires i < |pages| && j < |pages| && pages[i] == pages[j]
    ensures Lookups(m, instances, pages).0[i] == Lookups(m, instances, pages).0[j]
  {
    LookupsContents(m, instances, pages);
  }

  /** Lookups of cached pages change nothing. */
  lemma {:induction false} LookupsOfCachedPages(m: map<int, Fragment>, instances: nat, pages: seq<int>)
    requires forall i :: 0 <= i < |pages| ==> pages[i] in m
    ensures Lookups(m, instances, pages).1 == m && Lookups(m, instances, pages).2 == instances
    decreases |pages|
  {
    if pages != [] {
      assert pages[0] in m;
      assert forall i :: 0 <= i < |pages[1..]| ==> pages[1..][i] == pages[i + 1];
      LookupsOfCachedPages(m, instances, pages[1..]);
    }
  }

  /** The static state: the `fragmentMap` field (null until an adapter is built),
      the number of fragments created, and what the fragments were asked to do. */
  class FragmentStatics {
    var fragmentMap: Option<map<int, Fragment>>
    var instances: nat
    var calls: seq<FragmentCall>

    ghost predicate Valid()
      reads this
    {
      fragmentMap.Some? ==> Consistent(fragmentMap.value, instances)
    }

    constructor ()
      ensures Valid()
      ensures fragmentMap == None && instances == 0 && calls == []
    {
      fragmentMap, instances, calls := None, 0, [];
    }
  }

  class DiscoveryPagerAdapter {
    const statics: FragmentStatics
    const pageTitles: seq<string>
    /** `DiscoveryParams.Sort.values().length` and `DiscoveryUtils.positionFromSort`,
        whose definitions are not part of this model. */
    const sortCount: nat
    const positionFromSort: int -> int
    /** The positions handed to the delegate by `setPrimaryItem`. */
    var primaryPages: seq<int>

    ghost predicate Valid()
      reads this, statics
    {
      statics.Valid() && statics.fragmentMap.Some?
    }

    /** The constructor creates the shared map only when there is none, so a new
        adapter reuses every fragment already cached. */
    constructor (statics: FragmentStatics, pageTitles: seq<string>, sortCount: nat, positionFromSort: int -> int)
      requires statics.Valid()
      modifies statics
      ensures Valid()
      ensures this.statics == statics && this.pageTitles == pageTitles
      ensures this.sortCount == sortCount && this.positionFromSort == positionFromSort
      ensures primaryPages == []
      ensures old(statics.fragmentMap).None? ==> statics.fragmentMap == Some(map[])
      ensures old(statics.fragmentMap).Some? ==> statics.fragmentMap == old(statics.fragmentMap)
      ensures statics.instances == old(statics.instances) && statics.calls == old(statics.calls)
    {
      this.statics := statics;
      this.pageTitles := pageTitles;
      this.sortCount := sortCount;
      this.positionFromSort := positionFromSort;
      primaryPages := [];
      if statics.fragmentMap.None? {
        statics.fragmentMap := Some(map[]);
      }
    }

    /** `getItem(position)`: always a new fragment, which replaces any cached one. */
    method GetItem(position: int) returns (fragment: Fragment)
      requires Valid()
      modifies statics`fragmentMap, statics`instances
      ensures Valid()
      ensures fragment == Fragment(old(statics.instances), position)
      ensures statics.instances == old(statics.instances) + 1
      ensures statics.fragmentMap == Some(old(statics.fragmentMap).value[position := fragment])
    {
      fragment := Fragment(statics.instances, position);
      statics.instances := statics.instances + 1;
      statics.fragmentMap := Some(statics.fragmentMap.value[position := fragment]);
    }

    /** `getCount()` */
    function GetCount(): (n: nat)
      reads this
    {
      sortCount
    }

    /** `getPageTitle(position)`: the list lookup, which needs a valid index. */
    function GetPageTitle(position: int): (title: string)
      reads this
      requires 0 <= position < |pageTitles|
      ensures title == pageTitles[position]
      ensures title in pageTitles
    {
      pageTitles[position]
    }

    /** `setPrimaryItem`: the delegate is told the position. */
    method SetPrimaryItem(position: int)
      requires Valid()
      modifies this`primaryPages
      ensures Valid()
      ensures primaryPages == old(primaryPages) + [position]
    {
      primaryPages := primaryPages + [position];
    }

    /** `safeGetFragment(position)`: the cached fragment, or a new one from `getItem`. */
    method SafeGetFragment(position: int) returns (fragment: Fragment)
      requires Valid()
      modifies statics`fragmentMap, statics`instances
      ensures Valid()
      ensures var r := Lookup(old(statics.fragmentMap).value, old(statics.instances), position);
              fragment == r.0 && statics.fragmentMap == Some(r.1) && statics.instances == r.2
    {
      var m := statics.fragmentMap.value;
      if position in m {
        fragment := m[position];
      } else {
        fragment := GetItem(position);
      }
    }

    /** `takeCategoriesForPosition(categories, position)` */
    method TakeCategoriesForPosition(categories: seq<Category>, position: int)
      requires Valid()
      modifies statics
      ensures Valid()
      ensures var r := Lookup(old(statics.fragmentMap).value, old(statics.instances), position);
              && statics.fragmentMap == Some(r.1) && statics.instances == r.2
              && statics.calls == old(statics.calls) + [TakeCategories(r.0, categories)]
    {
      var fragment := SafeGetFragment(position);
      statics.calls := statics.calls + [TakeCategories(fragment, categories)];
    }

    /** `takeParams(params)`: the fragment at the params' sort position is updated. */
    method TakeParams(params: DiscoveryParams)
      requires Valid()
      modifies statics
      ensures Valid()
      ensures var r := Lookup(old(statics.fragmentMap).value, old(statics.instances), positionFromSort(params.sort));
              && statics.fragmentMap == Some(r.1) && statics.instances == r.2
              && statics.calls == old(statics.calls) + [UpdateParams(r.0, params)]
    {
      var fragment := SafeGetFragment(positionFromSort(params.sort));
      statics.calls := statics.calls + [UpdateParams(fragment, params)];
    }

    /** One iteration of `clearPages`: the page's fragment is cleared. */
    method ClearPageAt(position: int)
      requires Valid()
      modifies statics
      ensures Valid()
      ensures var r := Lookup(old(statics.fragmentMap).value, old(statics.instances), position);
              && statics.fragmentMap == Some(r.1) && statics.instances == r.2
              && statics.calls == old(statics.calls) + [ClearPage(r.0)]
    {
      var fragment := SafeGetFragment(position);
      statics.calls := statics.calls + [ClearPage(fragment)];
    }

    /** `clearPages(pages)`: the fragment of each listed page is cleared, in list
        order, creating the fragments that are missing. */
    method ClearPages(pages: seq<int>)
      requires Valid()
      modifies statics
      ensures Valid()
      ensures var r := Lookups(old(statics.fragmentMap).value, old(statics.instances), pages);
              && statics.fragmentMap == Some(r.1) && statics.instances == r.2
              && statics.calls == old(statics.calls) + ClearCalls(r.0)
    {
      ghost var m0, n0, c0 := statics.fragmentMap.value, statics.instances, statics.calls;
      var i := 0;
      while i < |pages|
        invariant 0 <= i <= |pages|
        invariant Valid()
        invariant var r := Lookups(m0, n0, pages[..i]);
                  && statics.fragmentMap == Some(r.1) && statics.instances == r.2
                  && statics.calls == c0 + ClearCalls(r.0)
      {
        ghost var r := Lookups(m0, n0, pages[..i]);
        ClearPageAt(pages[i]);
        assert pages[..i + 1] == pages[..i] + [pages[i]];
        LookupsSnoc(m0, n0, pages[..i], pages[i]);
        ClearCallsSnoc(r.0, Lookup(r.1, r.2, pages[i]).0);
        i := i + 1;
      }
      assert pages[..i] == pages;
    }
  }

  /** One `clearPage` call per fragment, in order. */
  function ClearCalls(fs: seq<Fragment>): (r: seq<FragmentCall>)
    ensures |r| == |fs|
    ensures forall i :: 0 <= i < |fs| ==> r[i] == ClearPage(fs[i])
  {
    seq(|fs|, i requires 0 <= i < |fs| => ClearPage(fs[i]))
  }

  lemma ClearCallsSnoc(fs: seq<Fragment>, f: Fragment)
    ensures ClearCalls(fs + [f]) == ClearCalls(fs) + [ClearPage(f)]
  {
  }

  /** The lookup of one more page after the lookups `r`. */
  function Next(r: (seq<Fragment>, map<int, Fragment>, nat), p: int): (seq<Fragment>, map<int, Fragment>, nat) {
    var l := Lookup(r.1, r.2, p);
    (r.0 + [l.0], l.1, l.2)
  }

  /** Looking up one more page continues from where the earlier lookups left off. */
  lemma {:induction false} LookupsSnoc(m: map<int, Fragment>, instances: nat, pages: seq<int>, p: int)
    ensures Lookups(m, instances, pages + [p]) == Next(Lookups(m, instances, pages), p)
    decreases |pages|
  {
    if pages != [] {
      var l := Lookup(m, instances, pages[0]);
      assert (pages + [p])[0] == pages[0];
      assert (pages + [p])[1..] == pages[1..] + [p];
      LookupsSnoc(l.1, l.2, pages[1..], p);
      var rest := Lookups(l.1, l.2, pages[1..]);
      var x := Lookup(rest.1, rest.2, p);
      assert Lookups(m, instances, pages) == ([l.0] + rest.0, rest.1, rest.2);
      assert Lookups(l.1, l.2, pages[1..] + [p]) == (rest.0 + [x.0], x.1, x.2);
      assert Lookups(m, instances, pages + [p]) == ([l.0] + (rest.0 + [x.0]), x.1, x.2);
      assert [l.0] + (rest.0 + [x.0]) == ([l.0] + rest.0) + [x.0];
    } else {
      assert pages + [p] == [p];
      assert [p][1..] == [];
      var l := Lookup(m, instances, p);
      assert Lookups(m, instances, [p]) == ([l.0] + [], l.1, l.2);
      assert [l.0] + [] == [] + [l.0];
    }
  }
}
