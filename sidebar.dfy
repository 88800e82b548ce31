/** The navigation menu of frontend/src/components/layout/Sidebar.jsx: the fixed list of
    entries and the filter that keeps those the user may open. Icons, styling and the
    open/closed overlay are display only. */
module Sidebar {
  import opened Wrappers
  import Seqs
  import Routes

  /** A menu entry; `permission` is absent for entries everyone sees. */
  datatype NavItem = NavItem(name: string, href: string, permission: Option<seq<string>>)

  const NAVIGATION: seq<NavItem> := [
    NavItem("Tableau de bord", "/", None),
    NavItem("Mes demandes", "/requests", None),
    NavItem("Employés", "/employees", Some(["Administrator", "Supervisor"])),
    NavItem("Services", "/services", Some(["Administrator", "Supervisor"])),
    NavItem("Validation", "/validation", Some(["Administrator", "Supervisor", "Coordinator"])),
    NavItem("Rapports", "/reports", Some(["Administrator", "Supervisor"])),
    NavItem("Comptes", "/accounts", Some(["Administrator"]))
  ]

  /** Whether an entry is shown: it has no permission list, or the user has one of them. */
  predicate Visible(item: NavItem, hasPermission: seq<string> -> bool)
  {
    item.permission.None? || hasPermission(item.permission.value)
  }

  /** The visible entries of a menu, in menu order (`Array.prototype.filter`). */
  function VisibleItems(items: seq<NavItem>, hasPermission: seq<string> -> bool): (r: seq<NavItem>)
    ensures forall x :: x in r ==> x in items && Visible(x, hasPermission)
    ensures forall x :: x in items && Visible(x, hasPermission) ==> x in r
    ensures Seqs.IsSubsequence(r, items)
  {
    if items == [] then []
    else
      assert forall x :: x in items ==> x == items[0] || x in items[1..];
      var rest := VisibleItems(items[1..], hasPermission);
      if Visible(items[0], hasPermission) then
        assert ([items[0]] + rest)[1..] == rest;
        [items[0]] + rest
      else
        Seqs.SubsequenceOfTail(rest, items);
        rest
  }

  /** `filteredNavigation`. */
  function FilteredNavigation(hasPermission: seq<string> -> bool): seq<NavItem>
  {
    VisibleItems(NAVIGATION, hasPermission)
  }

  /** Each menu entry requires exactly the profiles its route requires, so the menu never
      offers a page the route guard would refuse, and hides none it would show. */
  lemma MenuMatchesRoutes(hasPermission: seq<string> -> bool)
    ensures forall i :: 0 <= i < |NAVIGATION| ==>
              NAVIGATION[i].href[..1] == "/"
              && NAVIGATION[i].permission == Routes.RouteRequirement(NAVIGATION[i].href[1..])
    ensures forall i :: 0 <= i < |NAVIGATION| ==>
              (Visible(NAVIGATION[i], hasPermission) <==>
                 Routes.PageScreen(NAVIGATION[i].href[1..], false, true, hasPermission) == Routes.Children)
  {
    forall i | 0 <= i < |NAVIGATION|
      ensures NAVIGATION[i].href[..1] == "/"
      ensures NAVIGATION[i].permission == Routes.RouteRequirement(NAVIGATION[i].href[1..])
    {
      assert NAVIGATION[i].href[1..] == Routes.ROUTE_SEGMENTS[i];
    }
  }

  /** The permission check of a user whose profile is Validator. */
  predicate ValidatorAllowed(profiles: seq<string>)
  {
    "Validator" in profiles
  }

  /** A validator sees the dashboard and its own requests, and nothing else. */
  lemma ValidatorMenu()
    ensures FilteredNavigation(ValidatorAllowed) == NAVIGATION[..2]
  {
    ValidatorHidden();
    OpenPrefix(NAVIGATION, 2, ValidatorAllowed);
  }

  /** A visible first entry stays first. */
  lemma VisibleHead(items: seq<NavItem>, hasPermission: seq<string> -> bool)
    requires items != [] && Visible(items[0], hasPermission)
    ensures VisibleItems(items, hasPermission) == [items[0]] + VisibleItems(items[1..], hasPermission)
  {
  }

  /** Entries visible up to `k` and hidden after it filter to their first `k`. */
  lemma {:induction false} OpenPrefix(items: seq<NavItem>, k: nat, hasPermission: seq<string> -> bool)
    requires k <= |items|
    requires forall i :: 0 <= i < k ==> Visible(items[i], hasPermission)
    requires forall i :: k <= i < |items| ==> !Visible(items[i], hasPermission)
    ensures VisibleItems(items, hasPermission) == items[..k]
  {
    if k == 0 {
      HiddenTail(items, hasPermission);
    } else {
      var tail := items[1..];
      assert forall i :: 0 <= i < |tail| ==> tail[i] == items[i + 1];
      OpenPrefix(tail, k - 1, hasPermission);
      VisibleHead(items, hasPermission);
      assert items[..k] == [items[0]] + tail[..k - 1];
    }
  }

  /** Every entry after the second carries a permission list without Validator. */
  lemma ValidatorHidden()
    ensures forall i :: 2 <= i < |NAVIGATION| ==> !Visible(NAVIGATION[i], ValidatorAllowed)
  {
    forall i | 2 <= i < 7
      ensures !Visible(NAVIGATION[i], ValidatorAllowed)
    {
      assert "Validator" !in NAVIGATION[i].permission.value;
    }
  }

  /** Entries none of which is visible filter to nothing. */
  lemma {:induction false} HiddenTail(items: seq<NavItem>, hasPermission: seq<string> -> bool)
    requires forall i :: 0 <= i < |items| ==> !Visible(items[i], hasPermission)
    ensures VisibleItems(items, hasPermission) == []
  {
    if items != [] {
      HiddenTail(items[1..], hasPermission);
    }
  }
}
