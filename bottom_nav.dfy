/** The bottom navigation bar: which tab a view belongs to, and where a tab click leads. */
module BottomNav {
  import opened Wrappers

  datatype Tab = Tab(key: string, caption: string, views: seq<string>)

  /** The view names that belong to the customers tab. */
  const CustomerViews: seq<string> := ["list", "detail", "addCustomer", "editCustomer", "recordSale"]

  /** The three tabs, in display order, with the views each one covers; the first view is the tab's primary one. */
  const Tabs: seq<Tab> := [
    Tab("customers", "Customers", CustomerViews),
    Tab("dashboard", "Dashboard", ["dashboard"]),
    Tab("settings", "Settings", ["settings"])
  ]

  /** `TABS.find(tab => tab.views.includes(view))`: the first tab covering the view. */
  function FindTab(tabs: seq<Tab>, view: string): (r: Option<Tab>)
    ensures r.Some? ==> r.value in tabs && view in r.value.views
    ensures r.Some? ==> exists i :: 0 <= i < |tabs| && tabs[i] == r.value &&
                                     forall j :: 0 <= j < i ==> view !in tabs[j].views
    ensures r.None? <==> forall i :: 0 <= i < |tabs| ==> view !in tabs[i].views
  {
    if tabs == [] then None
    else if view in tabs[0].views then Some(tabs[0])
    else
      var r := FindTab(tabs[1..], view);
      assert r.Some? ==> exists i :: 0 <= i < |tabs| && tabs[i] == r.value &&
                                     forall j :: 0 <= j < i ==> view !in tabs[j].views
      by {
        if r.Some? {
          var i :| 0 <= i < |tabs[1..]| && tabs[1..][i] == r.value &&
                   forall j :: 0 <= j < i ==> view !in tabs[1..][j].views;
          assert tabs[i + 1] == r.value;
          assert forall j :: 0 <= j < i + 1 ==> view !in tabs[j].views by {
            forall j | 0 <= j < i + 1 ensures view !in tabs[j].views {
              if j > 0 { assert tabs[j] == tabs[1..][j - 1]; }
            }
          }
        }
      }
      r
  }

  /**
   * `resolveActiveTab`: the settings tab whenever settings are open; otherwise the tab
   * covering the view, and the customers tab for a view no tab covers.
   */
  function ResolveActiveTab(currentView: string, isSettingsOpen: bool): (r: string)
    ensures r == "customers" || r == "dashboard" || r == "settings"
    ensures isSettingsOpen ==> r == "settings"
    ensures !isSettingsOpen ==> (r == "dashboard" <==> currentView == "dashboard")
    ensures !isSettingsOpen ==> (r == "settings" <==> currentView == "settings")
    ensures !isSettingsOpen && currentView in CustomerViews ==> r == "customers"
  {
    if isSettingsOpen then "settings"
    else
      match FindTab(Tabs, currentView)
      case Some(tab) => tab.key
      case None =>
        assert Tabs[1].views == ["dashboard"] && Tabs[2].views == ["settings"];
        "customers"
  }

  /**
   * `handleTabClick`: the view to navigate to, or `None` when no navigation happens.
   * Clicking the active tab does nothing; clicking another tab of the bar goes to that
   * tab's primary view, which is one of its views and resolves back to it.
   */
  function HandleTabClick(tab: Tab, currentView: string, isSettingsOpen: bool): (nav: Option<string>)
    ensures tab.key == ResolveActiveTab(currentView, isSettingsOpen) ==> nav == None
    ensures tab in Tabs && tab.key != ResolveActiveTab(currentView, isSettingsOpen) ==> nav.Some?
    ensures nav.Some? ==> ResolveActiveTab(nav.value, false) == tab.key
    ensures tab in Tabs && nav.Some? ==> nav.value == tab.views[0]
    ensures tab in Tabs && nav.Some? ==> nav.value in tab.views
  {
    var activeTab := ResolveActiveTab(currentView, isSettingsOpen);
    if tab.key == activeTab then None
    else if tab.key == "customers" then Some("list")
    else if tab.key == "dashboard" then Some("dashboard")
    else if tab.key == "settings" then Some("settings")
    else None
  }
}
