/** Route matching in the navigation layout: the nav entry whose route is the
    longest substring of the current path gives the header its label, and a nav
    item is highlighted only on an exact path match. Matching sorts the caller's
    route array in place, longest route first. */
module NavRoutes {
  import opened Values

  /** A navigation entry; its icon is not modelled. */
  datatype LeftNavRoute = LeftNavRoute(text: string, route: string)

  predicate IsPrefix(p: string, s: string) {
    |p| <= |s| && s[..|p|] == p
  }

  /** `s.includes(sub)`: scan for a position where `sub` starts. */
  function Includes(s: string, sub: string): bool
    decreases |s|
  {
    if IsPrefix(sub, s) then true
    else if |s| == 0 then false
    else Includes(s[1..], sub)
  }

  /** `sub` occurs in `s` starting at position `i`. */
  predicate OccursAt(s: string, sub: string, i: int) {
    0 <= i <= |s| - |sub| && s[i..i + |sub|] == sub
  }

  lemma SliceOfTail(s: string, i: int, j: int)
    requires 1 <= i <= j <= |s|
    ensures s[i..j] == s[1..][i - 1..j - 1]
  {
    assert forall k :: 0 <= k < j - i ==> s[i..j][k] == s[1..][i - 1..j - 1][k];
  }

  /** `sub` is included in `s` exactly when it occurs at some position. */
  lemma {:induction false} IncludesIffOccurs(s: string, sub: string)
    ensures Includes(s, sub) <==> exists i :: OccursAt(s, sub, i)
    decreases |s|
  {
    if IsPrefix(sub, s) {
      assert OccursAt(s, sub, 0);
    } else if |s| == 0 {
    } else {
      var t := s[1..];
      IncludesIffOccurs(t, sub);
      if Includes(t, sub) {
        var i :| OccursAt(t, sub, i);
        SliceOfTail(s, i + 1, i + 1 + |sub|);
        assert OccursAt(s, sub, i + 1);
      } else {
        forall i | OccursAt(s, sub, i) ensures i == 0 || OccursAt(t, sub, i - 1) {
          if i > 0 {
            SliceOfTail(s, i, i + |sub|);
          }
        }
      }
    }
  }

  /** Every string includes itself. */
  lemma IncludesItself(s: string)
    ensures Includes(s, s)
  {
    assert s[..|s|] == s;
  }

  // ---------------------------------------------------------------------------
  // The in-place sort, longest route first

  /** Each route is at least as long as the next. */
  predicate SortedByLengthDesc(s: seq<LeftNavRoute>) {
    forall i :: 0 < i < |s| ==> |s[i - 1].route| >= |s[i].route|
  }

  /** Sorted neighbour by neighbour means sorted pair by pair. */
  lemma {:induction false} SortedPairwise(s: seq<LeftNavRoute>, i: int, j: int)
    requires SortedByLengthDesc(s) && 0 <= i <= j < |s|
    ensures |s[i].route| >= |s[j].route|
    decreases j - i
  {
    if i < j {
      SortedPairwise(s, i + 1, j);
    }
  }

  /** Insert `r` before the first entry whose route is not longer. */
  function Insert(r: LeftNavRoute, s: seq<LeftNavRoute>): (t: seq<LeftNavRoute>)
    ensures |t| == |s| + 1
    ensures multiset(t) == multiset(s) + multiset{r}
    ensures t[0] == r || (|s| > 0 && t[0] == s[0])
  {
    if |s| == 0 then [r]
    else if |r.route| >= |s[0].route| then [r] + s
    else
      assert s == [s[0]] + s[1..];
      [s[0]] + Insert(r, s[1..])
  }

  lemma {:induction false} InsertSorted(r: LeftNavRoute, s: seq<LeftNavRoute>)
    requires SortedByLengthDesc(s)
    ensures SortedByLengthDesc(Insert(r, s))
  {
    if |s| > 0 && |r.route| < |s[0].route| {
      var tail := s[1..];
      assert SortedByLengthDesc(tail) by {
        forall i | 0 < i < |tail| ensures |tail[i - 1].route| >= |tail[i].route| {
          assert tail[i - 1] == s[i] && tail[i] == s[i + 1];
        }
      }
      InsertSorted(r, tail);
      var rest := Insert(r, tail);
      if |tail| > 0 {
        assert tail[0] == s[1];
      }
      var t := [s[0]] + rest;
      forall i | 0 < i < |t| ensures |t[i - 1].route| >= |t[i].route| {
        if i > 1 {
          assert t[i - 1] == rest[i - 2] && t[i] == rest[i - 1];
        }
      }
    }
  }

  /** `routes.sort((a, b) => b.route.length - a.route.length)`: a stable sort by
      descending route length (`SortIsStable`: entries of equal length keep their
      order). */
  function SortByLengthDesc(s: seq<LeftNavRoute>): (t: seq<LeftNavRoute>)
    ensures |t| == |s|
    ensures multiset(t) == multiset(s)
  {
    if |s| == 0 then []
    else
      assert s == [s[0]] + s[1..];
      Insert(s[0], SortByLengthDesc(s[1..]))
  }

  /** The sort's result is sorted. */
  lemma {:induction false} SortIsSorted(s: seq<LeftNavRoute>)
    ensures SortedByLengthDesc(SortByLengthDesc(s))
  {
    if |s| > 0 {
      SortIsSorted(s[1..]);
      InsertSorted(s[0], SortByLengthDesc(s[1..]));
    }
  }

  /** The entries whose route has length `n`, in order. */
  function WithLength(s: seq<LeftNavRoute>, n: nat): seq<LeftNavRoute> {
    if |s| == 0 then []
    else if |s[0].route| == n then [s[0]] + WithLength(s[1..], n)
    else WithLength(s[1..], n)
  }

  /** Insertion puts `r` before every entry of its own length and moves no other entry
      past one of equal length. */
  lemma {:induction false} InsertWithLength(r: LeftNavRoute, s: seq<LeftNavRoute>, n: nat)
    ensures WithLength(Insert(r, s), n) == if |r.route| == n then [r] + WithLength(s, n) else WithLength(s, n)
  {
    if |s| == 0 {
      assert [r][1..] == [];
    } else if |r.route| >= |s[0].route| {
      assert ([r] + s)[1..] == s;
      if |r.route| != n {
        assert s == [s[0]] + s[1..];
      }
    } else {
      var t := [s[0]] + Insert(r, s[1..]);
      assert t[1..] == Insert(r, s[1..]);
      InsertWithLength(r, s[1..], n);
    }
  }

  /** The sort is stable: entries of any one length appear in the sorted result in
      the order they had before. */
  lemma {:induction false} SortIsStable(s: seq<LeftNavRoute>, n: nat)
    ensures WithLength(SortByLengthDesc(s), n) == WithLength(s, n)
  {
    if |s| > 0 {
      SortIsStable(s[1..], n);
      InsertWithLength(s[0], SortByLengthDesc(s[1..]), n);
    }
  }

  /** Sorting an already sorted sequence leaves it as it is. */
  lemma {:induction false} SortSortedIsIdentity(s: seq<LeftNavRoute>)
    requires SortedByLengthDesc(s)
    ensures SortByLengthDesc(s) == s
  {
    if |s| > 0 {
      var tail := s[1..];
      assert SortedByLengthDesc(tail) by {
        forall i | 0 < i < |tail| ensures |tail[i - 1].route| >= |tail[i].route| {
          assert tail[i - 1] == s[i] && tail[i] == s[i + 1];
        }
      }
      SortSortedIsIdentity(tail);
      if |tail| > 0 {
        assert tail[0] == s[1];
      }
      assert [s[0]] + tail == s;
    }
  }

  /** Sorting twice is sorting once. */
  lemma SortIdempotent(s: seq<LeftNavRoute>)
    ensures SortByLengthDesc(SortByLengthDesc(s)) == SortByLengthDesc(s)
  {
    SortIsSorted(s);
    SortSortedIsIdentity(SortByLengthDesc(s));
  }

  // ---------------------------------------------------------------------------
  // Matching

  /** The first entry, in order, whose route the path includes. */
  function FirstMatch(path: string, s: seq<LeftNavRoute>): (m: Option<LeftNavRoute>)
    ensures m.Some? ==> m.value in s && Includes(path, m.value.route)
    ensures m.None? <==> forall k :: 0 <= k < |s| ==> !Includes(path, s[k].route)
  {
    if |s| == 0 then None
    else if Includes(path, s[0].route) then Some(s[0])
    else
      assert forall k :: 0 < k < |s| ==> s[k] == s[1..][k - 1];
      FirstMatch(path, s[1..])
  }

  /** On a sorted sequence the first match is a longest match. */
  lemma {:induction false} FirstMatchIsLongest(path: string, s: seq<LeftNavRoute>, k: int)
    requires SortedByLengthDesc(s) && 0 <= k < |s| && Includes(path, s[k].route)
    ensures FirstMatch(path, s).Some? && |s[k].route| <= |FirstMatch(path, s).value.route|
  {
    if Includes(path, s[0].route) {
      SortedPairwise(s, 0, k);
    } else {
      var tail := s[1..];
      assert SortedByLengthDesc(tail) by {
        forall i | 0 < i < |tail| ensures |tail[i - 1].route| >= |tail[i].route| {
          assert tail[i - 1] == s[i] && tail[i] == s[i + 1];
        }
      }
      assert tail[k - 1] == s[k];
      FirstMatchIsLongest(path, tail, k - 1);
    }
  }

  /** `getRouteMatch` without its side effect: the first match after sorting. */
  function RouteMatch(path: string, routes: seq<LeftNavRoute>): Option<LeftNavRoute> {
    FirstMatch(path, SortByLengthDesc(routes))
  }

  /** The match is undefined exactly when no route occurs in the path; otherwise
      it is one of the routes, occurs in the path, and no matching route is longer. */
  lemma RouteMatchIsLongest(path: string, routes: seq<LeftNavRoute>)
    ensures RouteMatch(path, routes).None? <==> forall q :: q in routes ==> !Includes(path, q.route)
    ensures RouteMatch(path, routes).Some? ==>
      RouteMatch(path, routes).value in routes && Includes(path, RouteMatch(path, routes).value.route)
    ensures RouteMatch(path, routes).Some? ==>
      forall q :: q in routes && Includes(path, q.route) ==> |q.route| <= |RouteMatch(path, routes).value.route|
  {
    var t := SortByLengthDesc(routes);
    SortIsSorted(routes);
    forall q | q in routes ensures q in t {
      assert multiset(routes)[q] > 0;
    }
    forall q | q in t ensures q in routes {
      assert multiset(t)[q] > 0;
    }
    forall q | q in routes && Includes(path, q.route)
      ensures FirstMatch(path, t).Some? && |q.route| <= |FirstMatch(path, t).value.route|
    {
      var k :| 0 <= k < |t| && t[k] == q;
      FirstMatchIsLongest(path, t, k);
    }
  }

  /** Overwrite the array with `src`, element by element. */
  method CopyInto(src: seq<LeftNavRoute>, a: array<LeftNavRoute>)
    requires |src| == a.Length
    modifies a
    ensures a[..] == src
  {
    for i := 0 to a.Length
      invariant a[..i] == src[..i]
    {
      a[i] := src[i];
      assert a[..i + 1] == a[..i] + [a[i]];
      assert src[..i + 1] == src[..i] + [src[i]];
    }
  }

  /** The first entry of the array whose route the path includes, scanning in order. */
  method FindFirstMatch(path: string, a: array<LeftNavRoute>) returns (r: Option<LeftNavRoute>)
    ensures r == FirstMatch(path, a[..])
  {
    var i := 0;
    while i < a.Length
      invariant 0 <= i <= a.Length
      invariant FirstMatch(path, a[..]) == FirstMatch(path, a[i..])
    {
      if Includes(path, a[i].route) {
        assert a[i..][0] == a[i];
        return Some(a[i]);
      }
      assert a[i..][1..] == a[i + 1..];
      i := i + 1;
    }
    assert a[i..] == [];
    r := None;
  }

  /** `getRouteMatch`: sort the caller's array in place, then return the first
      entry whose route the path includes. */
  method GetRouteMatch(path: string, routes: array<LeftNavRoute>) returns (r: Option<LeftNavRoute>)
    modifies routes
    ensures routes[..] == SortByLengthDesc(old(routes[..]))
    ensures r == RouteMatch(path, old(routes[..]))
  {
    CopyInto(SortByLengthDesc(routes[..]), routes);
    r := FindFirstMatch(path, routes);
  }

  /** `routes.find((r) => r === route)`: the first entry equal to `x`. */
  function Find(s: seq<LeftNavRoute>, x: LeftNavRoute): (f: Option<LeftNavRoute>)
    ensures f.Some? <==> x in s
    ensures f.Some? ==> f.value == x
  {
    if |s| == 0 then None
    else if s[0] == x then Some(x)
    else Find(s[1..], x)
  }

  /** The label the header shows for a path: the matched route's text, or empty. */
  function RouteLabel(path: string, routes: seq<LeftNavRoute>): string {
    match RouteMatch(path, routes)
    case Some(r) => r.text
    case None => ""
  }

  /** The label depends on the routes only through their sorted order, so a second
      lookup on the array the first one sorted gives the same label. */
  lemma RouteLabelAfterSort(path: string, routes: seq<LeftNavRoute>)
    ensures RouteLabel(path, SortByLengthDesc(routes)) == RouteLabel(path, routes)
  {
    SortIdempotent(routes);
  }

  /** `getRouteLabel`: match (sorting the array), then find the match in the array. */
  method GetRouteLabel(path: string, routes: array<LeftNavRoute>) returns (routeLabel: string)
    modifies routes
    ensures routes[..] == SortByLengthDesc(old(routes[..]))
    ensures routeLabel == RouteLabel(path, old(routes[..]))
  {
    var route := GetRouteMatch(path, routes);
    if route.Some? {
      RouteMatchIsLongest(path, old(routes[..]));
      assert route.value in routes[..] by {
        assert multiset(routes[..]) == multiset(old(routes[..]));
        assert multiset(old(routes[..]))[route.value] > 0;
      }
      var found := Find(routes[..], route.value);
      routeLabel := if found.Some? then found.value.text else "";
    } else {
      routeLabel := "";
    }
  }

  /** `shouldHighlightNavItem`: exact path equality. */
  predicate ShouldHighlightNavItem(currentPath: string, navPath: string) {
    currentPath == navPath
  }

  /** A highlighted item's route is included in the path, so the header finds a
      match at least as long as that route. */
  lemma HighlightedItemMatches(path: string, routes: seq<LeftNavRoute>, item: LeftNavRoute)
    requires item in routes && ShouldHighlightNavItem(path, item.route)
    ensures RouteMatch(path, routes).Some?
    ensures |RouteMatch(path, routes).value.route| >= |item.route|
  {
    IncludesItself(path);
    RouteMatchIsLongest(path, routes);
  }

  // ---------------------------------------------------------------------------
  // The header title

  const TitlePrefix := "Default"
  const Separator := " | "

  /** "Default", followed by " | " and the label when the label is not empty. */
  function HeaderTitle(routeLabel: string): (title: string)
    ensures IsPrefix(TitlePrefix, title)
    ensures routeLabel == "" <==> title == TitlePrefix
  {
    if |routeLabel| > 0 then TitlePrefix + Separator + routeLabel else TitlePrefix
  }

  /** The label a title was made from. */
  function LabelOfTitle(title: string): string {
    if |title| > |TitlePrefix + Separator| then title[|TitlePrefix + Separator|..] else ""
  }

  /** The title determines its label. */
  lemma HeaderTitleRoundTrip(routeLabel: string)
    ensures LabelOfTitle(HeaderTitle(routeLabel)) == routeLabel
  {
    if |routeLabel| > 0 {
      assert (TitlePrefix + Separator + routeLabel)[|TitlePrefix + Separator|..] == routeLabel;
    }
  }

  /** The header toolbar: the memoised label decides whether the suffix shows;
      the suffix text is computed by a second lookup on the sorted array. */
  method HeaderTitleOf(path: string, routes: array<LeftNavRoute>) returns (title: string)
    modifies routes
    ensures routes[..] == SortByLengthDesc(old(routes[..]))
    ensures title == HeaderTitle(RouteLabel(path, old(routes[..])))
  {
    var routeLabel := GetRouteLabel(path, routes);
    if |routeLabel| > 0 {
      var again := GetRouteLabel(path, routes);
      RouteLabelAfterSort(path, old(routes[..]));
      SortIdempotent(old(routes[..]));
      title := TitlePrefix + Separator + again;
    } else {
      title := TitlePrefix;
    }
  }

  /** `getAdminNavSection`: the product list is the only entry. */
  function AdminNavSection(): seq<LeftNavRoute> {
    [LeftNavRoute("Products", "/products")]
  }

  /** On a product detail page the header reads "Default | Products"; on the
      home page it reads "Default". */
  lemma AdminSectionTitles()
    ensures HeaderTitle(RouteLabel("/products/42", AdminNavSection())) == "Default | Products"
    ensures HeaderTitle(RouteLabel("/", AdminNavSection())) == "Default"
  {
    var p := LeftNavRoute("Products", "/products");
    assert SortByLengthDesc([p]) == [p] by {
      assert [p][1..] == [];
    }
    assert Includes("/products/42", "/products") by {
      assert "/products/42"[0..9] == "/products";
    }
    assert !Includes("/", "/products");
    assert [p][1..] == [];
  }

}
