/** The site header's link list and its active-link rule: a link is active
    on its own page and on every page below it, with a "/" boundary. */
module Nav {
  import opened Strings

  datatype Entry = Entry(href: string, title: string)

  /** The fixed `links` table, in display order. */
  function Links(): (t: seq<Entry>)
    ensures |t| == 5
  {
    [ Entry("/projects", "Projects"), Entry("/research", "Research"),
      Entry("/Leadership", "Leadership"), Entry("/archive", "Archive"),
      Entry("/contact", "Contact") ]
  }

  /** `pathname === href || pathname.startsWith(href + "/")` */
  predicate IsActive(pathname: string, href: string) {
    pathname == href || StartsWith(pathname, href + "/")
  }

  /** What a rendered link shows: its href and label, the class string, and
      whether the underline span is present. */
  datatype View = View(href: string, title: string, classes: string, underline: bool)

  const ActiveClasses := "text-indigo-600 font-medium"
  const IdleClasses := "text-slate-600 hover:text-slate-900"

  /** `links.map(...)`: one view per table entry, in order, underlined and
      highlighted exactly when active. */
  function Render(pathname: string): (vs: seq<View>)
    ensures |vs| == |Links()|
    ensures forall i :: 0 <= i < |vs| ==>
              && vs[i].href == Links()[i].href && vs[i].title == Links()[i].title
              && (vs[i].underline <==> IsActive(pathname, Links()[i].href))
              && vs[i].classes == (if IsActive(pathname, Links()[i].href) then ActiveClasses else IdleClasses)
  {
    seq(|Links()|, i requires 0 <= i < |Links()| =>
      var e := Links()[i];
      var active := IsActive(pathname, e.href);
      View(e.href, e.title, if active then ActiveClasses else IdleClasses, active))
  }

  /** A page below a section activates it. */
  lemma SubpageActive()
    ensures IsActive("/projects/rlaif", "/projects")
  {
    assert ("/projects/rlaif")[..|"/projects/"|] == "/projects/";
  }

  /** Without the "/" boundary there is no match, and matching respects case. */
  lemma BoundaryAndCase()
    ensures !IsActive("/projectsX", "/projects")
    ensures !IsActive("/leadership", "/Leadership")
  {
    assert ("/projectsX")[..|"/projects/"|] != "/projects/" by {
      assert ("/projectsX")[9] != ("/projects/")[9];
    }
    assert ("/leadership")[1] != ("/Leadership")[1];
  }

  /** A one-segment href: a leading "/" and no other "/". */
  predicate Segment(href: string) {
    |href| >= 2 && href[0] == '/' && forall k :: 1 <= k < |href| ==> href[k] != '/'
  }

  /** Two one-segment hrefs active on the same pathname are the same href. */
  lemma SegmentsExclusive(pathname: string, h1: string, h2: string)
    requires Segment(h1) && Segment(h2)
    ensures IsActive(pathname, h1) && IsActive(pathname, h2) ==> h1 == h2
  {
    if IsActive(pathname, h1) && IsActive(pathname, h2) {
      ActivePrefix(pathname, h1, h2);
      ActivePrefix(pathname, h2, h1);
      assert |h1| == |h2|;
      assert h2[..|h1|] == h2;
    }
  }

  /** Of two hrefs active on the same pathname, the shorter is a prefix of the
      longer, followed there by "/". */
  lemma ActivePrefix(pathname: string, h1: string, h2: string)
    requires IsActive(pathname, h1) && IsActive(pathname, h2)
    ensures |h1| <= |h2| ==> h2[..|h1|] == h1
    ensures |h1| < |h2| ==> h2[|h1|] == '/'
  {
    var n := |h1|;
    assert |h2| <= |pathname| && pathname[..|h2|] == h2 by {
      if pathname != h2 {
        assert pathname[..|h2|] == (h2 + "/")[..|h2|];
      }
    }
    assert n <= |pathname| && pathname[..n] == h1 by {
      if pathname != h1 {
        assert pathname[..n] == (h1 + "/")[..n];
      }
    }
    if n < |h2| {
      assert h2[n] == pathname[n];
      assert pathname != h1;
      assert pathname[n] == (h1 + "/")[n];
    }
  }

  /** For every pathname at most one link of the table is active. */
  lemma AtMostOneActive(pathname: string, i: nat, j: nat)
    requires i < j < |Links()|
    ensures !(IsActive(pathname, Links()[i].href) && IsActive(pathname, Links()[j].href))
  {
    var t := Links();
    assert forall k :: 0 <= k < |t| ==> Segment(t[k].href);
    assert t[i].href != t[j].href;
    SegmentsExclusive(pathname, t[i].href, t[j].href);
  }
}
