/** The standalone `NavLink` component's active rule: an exact match, or for
    any href other than the root a plain prefix match with no "/" boundary. */
module NavLink {
  import opened Strings
  import Nav

  /** `pathname === href || (href !== "/" && pathname.startsWith(href))` */
  predicate IsActive(pathname: string, href: string) {
    pathname == href || (href != "/" && StartsWith(pathname, href))
  }

  /** The root link is active on the root page only. */
  lemma RootOnlyExact(pathname: string)
    ensures IsActive(pathname, "/") <==> pathname == "/"
  {
  }

  /** Any other link is active exactly on the pathnames that start with it. */
  lemma PrefixRule(pathname: string, href: string)
    requires href != "/"
    ensures IsActive(pathname, href) <==> StartsWith(pathname, href)
  {
    if pathname == href {
      assert pathname[..|href|] == href;
    }
  }

  /** Wherever the header's rule marks a link active, this rule does too. */
  lemma HeaderRuleImplies(pathname: string, href: string)
    requires href != "/" && Nav.IsActive(pathname, href)
    ensures IsActive(pathname, href)
  {
    if pathname != href {
      assert pathname[..|href|] == (href + "/")[..|href|];
    }
  }

  /** The converse fails: "/projectsX" activates "/projects" here but not in
      the header. */
  lemma NoBoundary()
    ensures IsActive("/projectsX", "/projects")
    ensures !Nav.IsActive("/projectsX", "/projects")
  {
    assert ("/projectsX")[..|"/projects"|] == "/projects";
    Nav.BoundaryAndCase();
  }

  /** What the rendered link shows besides its children. */
  datatype View = View(href: string, classes: string, underline: bool)

  /** The rendered link: the highlight classes and the underline span
      appear exactly when the link is active. */
  function Render(pathname: string, href: string): (v: View)
    ensures v.href == href
    ensures v.underline <==> IsActive(pathname, href)
    ensures v.classes == (if IsActive(pathname, href) then Nav.ActiveClasses else Nav.IdleClasses)
  {
    var active := IsActive(pathname, href);
    View(href, if active then Nav.ActiveClasses else Nav.IdleClasses, active)
  }
}
