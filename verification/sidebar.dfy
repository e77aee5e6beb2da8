/** The active-link test of components/layout/sidebar.tsx. */
module Sidebar {
  import opened Text

  /** `isActiveRoute(href)` for the current `pathname`: the link itself,
      or, except for `/dashboard`, any path that starts with its text. */
  function IsActiveRoute(pathname: string, href: string): (r: bool)
    ensures r ==> StartsWith(pathname, href)
    ensures pathname == href ==> r
    ensures href == "/dashboard" ==> (r <==> pathname == href)
  {
    if pathname == href then true
    else href != "/dashboard" && StartsWith(pathname, href)
  }

  /** A nested page highlights its section: `/dashboard/inventory/new`
      keeps `/dashboard/inventory` active. */
  lemma NestedPageHighlightsSection(section: string, rest: string)
    requires section != "/dashboard"
    ensures IsActiveRoute(section + rest, section)
  {
    assert (section + rest)[..|section|] == section;
  }

  /** The test is on characters, not segments: any longer name sharing the
      prefix is active too. */
  lemma PrefixIsNotSegmentAware()
    ensures IsActiveRoute("/dashboard/inventory-old", "/dashboard/inventory")
  {
    NestedPageHighlightsSection("/dashboard/inventory", "-old");
  }

  /** The dashboard link is active on the dashboard only, never on a
      nested page. */
  lemma DashboardOnlyExact(rest: string)
    requires rest != []
    ensures !IsActiveRoute("/dashboard" + rest, "/dashboard")
  {
    assert |"/dashboard" + rest| > |"/dashboard"|;
  }
}
