/** The bottom navigation bar: five fixed tabs, one of which is highlighted
    for the current path. */
module BottomNav {
  /** A tab of the bar: its link and its caption. */
  datatype Tab = Tab(href: string, caption: string)

  /** The tabs in display order: home, search, create, matches, profile. */
  const Tabs: seq<Tab> := [
    Tab("/", "หน้าแรก"),
    Tab("/search", "หาบิบ"),
    Tab("/create", "ลงบิบ"),
    Tab("/matches", "แมทช์"),
    Tab("/profile", "โปรไฟล์")
  ]

  /** The home tab is highlighted only on `/` itself; every other tab on any
      path that starts with its link. */
  predicate IsActive(t: Tab, pathname: string)
  {
    if t.href == "/" then pathname == "/" else t.href <= pathname
  }

  /** The highlight flag of each tab, in tab order, as the bar renders them. */
  function ActiveFlags(pathname: string): (flags: seq<bool>)
    ensures |flags| == |Tabs|
    ensures forall i :: 0 <= i < |Tabs| ==> (flags[i] <==> IsActive(Tabs[i], pathname))
  {
    seq(|Tabs|, i requires 0 <= i < |Tabs| => IsActive(Tabs[i], pathname))
  }

  /** There are exactly five tabs, in the fixed order. */
  lemma TabOrder()
    ensures |Tabs| == 5
    ensures Tabs[0].href == "/" && Tabs[1].href == "/search" && Tabs[2].href == "/create"
    ensures Tabs[3].href == "/matches" && Tabs[4].href == "/profile"
  {
  }

  /** The home tab is active exactly on `/`. */
  lemma HomeActive(pathname: string)
    ensures IsActive(Tabs[0], pathname) <==> pathname == "/"
  {
  }

  /** Any other tab is active exactly when the path starts with its link. */
  lemma OtherTabActive(i: nat, pathname: string)
    requires 1 <= i < |Tabs|
    ensures IsActive(Tabs[i], pathname) <==> Tabs[i].href <= pathname
  {
  }

  /** Distinct tabs are never highlighted together: no tab's link is a prefix
      of another's, and home needs the exact path `/`. */
  lemma AtMostOneActive(i: nat, j: nat, pathname: string)
    requires i < j < |Tabs|
    ensures !(IsActive(Tabs[i], pathname) && IsActive(Tabs[j], pathname))
  {
    if IsActive(Tabs[j], pathname) {
      assert pathname[1] == Tabs[j].href[1];
      if i > 0 {
        assert pathname[1] != Tabs[i].href[1];
      }
    }
  }

  /** On `/` only the home tab is highlighted. */
  lemma OnlyHomeOnRoot(i: nat)
    requires i < |Tabs|
    ensures IsActive(Tabs[i], "/") <==> i == 0
  {
    if i > 0 {
      assert |Tabs[i].href| > 1;
    }
  }
}
