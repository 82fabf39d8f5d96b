/**
 * The sections of the single-page admin console and the title table of
 * AdminPanel.getSectionTitle (admin.js:197-205). As shipped, that method
 * lacks its braces and never returns the table it builds; the model returns
 * `titles[section]`, which is evidently what was meant.
 */
module Sections {
  import opened Wrappers

  /** The content sections of the page; each is an element whose id is its name. */
  datatype Section = Dashboard | Products | Users | Content | Orders | Settings

  /** The element id of a section, also the `data-section` of its navigation link. */
  function Id(s: Section): string
  {
    match s
    case Dashboard => "dashboard"
    case Products => "products"
    case Users => "users"
    case Content => "content"
    case Orders => "orders"
    case Settings => "settings"
  }

  /** `document.getElementById(name)` among the sections: the section with that id, if any. */
  function SectionNamed(name: string): (r: Option<Section>)
    ensures r.Some? ==> Id(r.value) == name
    ensures r.None? ==> forall s :: Id(s) != name
  {
    if name == "dashboard" then Some(Dashboard)
    else if name == "products" then Some(Products)
    else if name == "users" then Some(Users)
    else if name == "content" then Some(Content)
    else if name == "orders" then Some(Orders)
    else if name == "settings" then Some(Settings)
    else None
  }

  /** The `titles` object of getSectionTitle. */
  const TITLES: map<string, string> := map[
    "dashboard" := "Dashboard",
    "products" := "Products Management",
    "users" := "User Management",
    "content" := "Site Content",
    "orders" := "Order Management",
    "settings" := "Admin Settings"]

  /** `titles[section]`: undefined (None) for a name outside the table. */
  function SectionTitle(name: string): (t: Option<string>)
    ensures t.Some? <==> SectionNamed(name).Some?
    ensures t.Some? ==> t.value == Title(SectionNamed(name).value)
  {
    if name in TITLES then Some(TITLES[name]) else None
  }

  /** The title shown for a section. */
  function Title(s: Section): (t: string)
    ensures t != ""
  {
    TITLES[Id(s)]
  }

  /** Each section has exactly one id, and each id names one section. */
  lemma IdRoundTrip(s: Section, name: string)
    ensures SectionNamed(Id(s)) == Some(s)
    ensures SectionNamed(name) == Some(s) <==> Id(s) == name
  {
  }

  /** No two sections share a title, so the page title identifies the section. */
  lemma TitlesDistinct(s: Section, t: Section)
    ensures Title(s) == Title(t) <==> s == t
  {
  }
}
