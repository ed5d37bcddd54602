/** The search-and-filter view shared by the three dashboards: a chain of
    Array.prototype.filter steps, one per filter that is on, over the fetched
    items. The reference definition View keeps the items that satisfy every
    active filter; each page's step-by-step code is proved equal to it. */
module ItemFilter {
  import opened Text
  import opened Seqs
  import opened Inventory

  /** The filter state of a page; "" means that the filter is off. */
  datatype Criteria = Criteria(search: string, category: string, status: string, location: string)

  const NO_FILTER := Criteria("", "", "", "")

  /** The test of one filter step. */
  datatype Step = NameHas(term: string) | CategoryIs(category: string) | StatusIs(status: string) | LocationIs(location: string)

  predicate Holds(p: Step, item: Item)
  {
    match p
    case NameHas(t) => Contains(Lower(item.name), Lower(t))
    case CategoryIs(c) => item.category == c
    case StatusIs(st) => item.status == st
    case LocationIs(l) => item.location == l
  }

  /** One `filtered = filtered.filter(...)` step. */
  function Keep(s: seq<Item>, p: Step): seq<Item>
  {
    if s == [] then [] else (if Holds(p, s[0]) then [s[0]] else []) + Keep(s[1..], p)
  }

  lemma KeepCons(x: Item, s: seq<Item>, p: Step)
    ensures Keep([x] + s, p) == (if Holds(p, x) then [x] else []) + Keep(s, p)
  {
    assert ([x] + s)[1..] == s;
  }

  /** The item passes every filter that is on: a case-insensitive substring
      test on the name and exact matches on category, status and location. */
  predicate Matches(c: Criteria, item: Item)
  {
    && (c.search == "" || Contains(Lower(item.name), Lower(c.search)))
    && (c.category == "" || item.category == c.category)
    && (c.status == "" || item.status == c.status)
    && (c.location == "" || item.location == c.location)
  }

  /** The reference view: the items that match, in their original order. */
  function View(s: seq<Item>, c: Criteria): seq<Item>
  {
    if s == [] then [] else (if Matches(c, s[0]) then [s[0]] else []) + View(s[1..], c)
  }

  /** The criteria with the field that step p tests set to p's value. */
  function With(c: Criteria, p: Step): Criteria
  {
    match p
    case NameHas(t) => c.(search := t)
    case CategoryIs(v) => c.(category := v)
    case StatusIs(v) => c.(status := v)
    case LocationIs(v) => c.(location := v)
  }

  /** The value a step filters on, and whether that filter is still off in c. */
  function Value(p: Step): string
  {
    match p
    case NameHas(t) => t
    case CategoryIs(v) => v
    case StatusIs(v) => v
    case LocationIs(v) => v
  }

  predicate IsOff(c: Criteria, p: Step)
  {
    match p
    case NameHas(_) => c.search == ""
    case CategoryIs(_) => c.category == ""
    case StatusIs(_) => c.status == ""
    case LocationIs(_) => c.location == ""
  }

  /** Applying one more step to a view narrows it to the view with that
      filter switched on. */
  lemma {:induction false} KeepNarrowsView(s: seq<Item>, c: Criteria, p: Step)
    requires IsOff(c, p) && Value(p) != ""
    ensures Keep(View(s, c), p) == View(s, With(c, p))
  {
    if s != [] {
      KeepNarrowsView(s[1..], c, p);
      assert Matches(With(c, p), s[0]) == (Matches(c, s[0]) && Holds(p, s[0]));
      if Matches(c, s[0]) {
        KeepCons(s[0], View(s[1..], c), p);
        assert View(s, c) == [s[0]] + View(s[1..], c);
      } else {
        assert View(s, c) == View(s[1..], c);
      }
    }
  }

  /** With every filter off, the view is the whole list. */
  lemma {:induction false} ViewNoFilter(s: seq<Item>)
    ensures View(s, NO_FILTER) == s
  {
    if s != [] {
      ViewNoFilter(s[1..]);
      assert s == [s[0]] + s[1..];
    }
  }

  /** The view keeps its elements in the original order. */
  lemma {:induction false} ViewIsSubsequence(s: seq<Item>, c: Criteria)
    ensures IsSubseq(View(s, c), s)
  {
    if s != [] {
      ViewIsSubsequence(s[1..], c);
      var v := View(s, c);
      if Matches(c, s[0]) {
        assert v[0] == s[0] && v[1..] == View(s[1..], c);
      } else {
        assert v == View(s[1..], c);
      }
    }
  }

  /** Each item is kept exactly as often as it occurs, when it matches, and
      never otherwise. */
  lemma {:induction false} ViewCounts(s: seq<Item>, c: Criteria, x: Item)
    ensures multiset(View(s, c))[x] == if Matches(c, x) then multiset(s)[x] else 0
  {
    if s != [] {
      ViewCounts(s[1..], c, x);
      assert s == [s[0]] + s[1..];
    }
  }

  /** An item is in the view iff it is in the list and matches every active
      filter. */
  lemma ViewMembership(s: seq<Item>, c: Criteria, x: Item)
    ensures x in View(s, c) <==> x in s && Matches(c, x)
  {
    ViewCounts(s, c, x);
  }

  /** Two sets of filters on different fields, one applied after the other,
      give the view with both sets on. */
  predicate Disjoint(c: Criteria, d: Criteria)
  {
    && (c.search == "" || d.search == "")
    && (c.category == "" || d.category == "")
    && (c.status == "" || d.status == "")
    && (c.location == "" || d.location == "")
  }

  function Merge(c: Criteria, d: Criteria): Criteria
  {
    Criteria(
      if c.search == "" then d.search else c.search,
      if c.category == "" then d.category else c.category,
      if c.status == "" then d.status else c.status,
      if c.location == "" then d.location else c.location)
  }

  lemma {:induction false} ViewCompose(s: seq<Item>, c: Criteria, d: Criteria)
    requires Disjoint(c, d)
    ensures View(View(s, c), d) == View(s, Merge(c, d))
  {
    if s != [] {
      ViewCompose(s[1..], c, d);
      assert Matches(Merge(c, d), s[0]) == (Matches(c, s[0]) && Matches(d, s[0]));
      if Matches(c, s[0]) {
        var v := View(s, c);
        assert v == [s[0]] + View(s[1..], c);
        assert v[0] == s[0] && v[1..] == View(s[1..], c);
      } else {
        assert View(s, c) == View(s[1..], c);
      }
    }
  }

  /** The combined filter keeps exactly what both filters keep. */
  lemma ViewIntersection(s: seq<Item>, c: Criteria, d: Criteria, x: Item)
    requires Disjoint(c, d)
    ensures x in View(s, Merge(c, d)) <==> x in View(s, c) && x in View(s, d)
  {
    ViewMembership(s, Merge(c, d), x);
    ViewMembership(s, c, x);
    ViewMembership(s, d, x);
  }

  /** Filter steps commute: the order of the chain does not matter. */
  lemma {:induction false} KeepCommutes(s: seq<Item>, p: Step, q: Step)
    ensures Keep(Keep(s, p), q) == Keep(Keep(s, q), p)
  {
    if s != [] {
      KeepCommutes(s[1..], p, q);
      if Holds(p, s[0]) {
        KeepCons(s[0], Keep(s[1..], p), q);
        assert Keep(s, p) == [s[0]] + Keep(s[1..], p);
      } else {
        assert Keep(s, p) == Keep(s[1..], p);
      }
      if Holds(q, s[0]) {
        KeepCons(s[0], Keep(s[1..], q), p);
        assert Keep(s, q) == [s[0]] + Keep(s[1..], q);
      } else {
        assert Keep(s, q) == Keep(s[1..], q);
      }
    }
  }

  /** The filter chain of src/app/team-dashboard/page.tsx: search, then
      category, status and location. */
  method TeamFilter(items: seq<Item>, c: Criteria) returns (filtered: seq<Item>)
    ensures filtered == View(items, c)
  {
    ViewNoFilter(items);
    filtered := items;
    var done := NO_FILTER;
    if c.search != "" {
      KeepNarrowsView(items, done, NameHas(c.search));
      filtered := Keep(filtered, NameHas(c.search));
      done := done.(search := c.search);
    }
    if c.category != "" {
      KeepNarrowsView(items, done, CategoryIs(c.category));
      filtered := Keep(filtered, CategoryIs(c.category));
      done := done.(category := c.category);
    }
    if c.status != "" {
      KeepNarrowsView(items, done, StatusIs(c.status));
      filtered := Keep(filtered, StatusIs(c.status));
      done := done.(status := c.status);
    }
    if c.location != "" {
      KeepNarrowsView(items, done, LocationIs(c.location));
      filtered := Keep(filtered, LocationIs(c.location));
      done := done.(location := c.location);
    }
    assert done == c;
  }

  /** The filter chain of the two component dashboards: search, then
      category, location and status. */
  method DashboardFilter(items: seq<Item>, c: Criteria) returns (filtered: seq<Item>)
    ensures filtered == View(items, c)
  {
    ViewNoFilter(items);
    filtered := items;
    var done := NO_FILTER;
    if c.search != "" {
      KeepNarrowsView(items, done, NameHas(c.search));
      filtered := Keep(filtered, NameHas(c.search));
      done := done.(search := c.search);
    }
    if c.category != "" {
      KeepNarrowsView(items, done, CategoryIs(c.category));
      filtered := Keep(filtered, CategoryIs(c.category));
      done := done.(category := c.category);
    }
    if c.location != "" {
      KeepNarrowsView(items, done, LocationIs(c.location));
      filtered := Keep(filtered, LocationIs(c.location));
      done := done.(location := c.location);
    }
    if c.status != "" {
      KeepNarrowsView(items, done, StatusIs(c.status));
      filtered := Keep(filtered, StatusIs(c.status));
      done := done.(status := c.status);
    }
    assert done == c;
  }
}
