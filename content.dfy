/** The content accessors over the project list: lookup by slug and the
    sorted list of all tags. The JSON files are not part of this model; the
    project list is a parameter, and a project is reduced to the two fields
    the accessors read. */
module Content {
  import opened Numeric
  import opened Strings

  datatype Project = Project(slug: string, tags: seq<string>)

  /** The index of the first project with this slug, if any. */
  function FindSlug(projects: seq<Project>, slug: string): (r: Option<nat>)
    ensures r.None? <==> forall i :: 0 <= i < |projects| ==> projects[i].slug != slug
    ensures r.Some? ==> r.value < |projects| && projects[r.value].slug == slug
    ensures r.Some? ==> forall i :: 0 <= i < r.value ==> projects[i].slug != slug
  {
    if |projects| == 0 then None
    else if projects[0].slug == slug then Some(0)
    else
      match FindSlug(projects[1..], slug)
      case None => None
      case Some(k) => Some(k + 1)
  }

  /** `projects.find((p) => p.slug === slug)`: the first project with the
      slug, or `None` (undefined) when no project has it. */
  function GetProjectBySlug(projects: seq<Project>, slug: string): (r: Option<Project>)
    ensures r.None? <==> forall i :: 0 <= i < |projects| ==> projects[i].slug != slug
    ensures r.Some? ==> r.value.slug == slug && r.value in projects
    ensures r.Some? ==> exists k :: 0 <= k < |projects| && r.value == projects[k]
                                    && forall i :: 0 <= i < k ==> projects[i].slug != slug
  {
    match FindSlug(projects, slug)
    case None => None
    case Some(k) => Some(projects[k])
  }

  /** Every tag of every project. */
  function TagSet(projects: seq<Project>): set<string> {
    if |projects| == 0 then {}
    else TagSet(projects[..|projects| - 1]) + Elems(projects[|projects| - 1].tags)
  }

  /** A tag belongs to the set exactly when some project carries it. */
  lemma {:induction false} TagSetMembers(projects: seq<Project>, t: string)
    ensures t in TagSet(projects) <==> exists i :: 0 <= i < |projects| && t in projects[i].tags
  {
    if |projects| > 0 {
      var init := projects[..|projects| - 1];
      TagSetMembers(init, t);
      if t in TagSet(projects) && t !in TagSet(init) {
        assert t in projects[|projects| - 1].tags;
      }
      if exists i :: 0 <= i < |projects| && t in projects[i].tags {
        var i :| 0 <= i < |projects| && t in projects[i].tags;
        if i < |projects| - 1 {
          assert init[i] == projects[i];
        }
      }
    }
  }

  /** `getAllTags`: the nested `forEach` adds every tag to a set, which keeps
      the first occurrence of each; the distinct tags are then sorted. */
  method GetAllTags(projects: seq<Project>) returns (tags: seq<string>)
    ensures StrictlySorted(tags)
    ensures Elems(tags) == TagSet(projects)
  {
    var found: seq<string> := [];
    var i := 0;
    while i < |projects|
      invariant 0 <= i <= |projects|
      invariant Distinct(found)
      invariant Elems(found) == TagSet(projects[..i])
    {
      var p := projects[i];
      var k := 0;
      while k < |p.tags|
        invariant 0 <= k <= |p.tags|
        invariant Distinct(found)
        invariant Elems(found) == TagSet(projects[..i]) + Elems(p.tags[..k])
      {
        if p.tags[k] !in found {
          ElemsAppend(found, p.tags[k]);
          found := found + [p.tags[k]];
        }
        assert p.tags[..k + 1] == p.tags[..k] + [p.tags[k]];
        ElemsAppend(p.tags[..k], p.tags[k]);
        k := k + 1;
      }
      assert p.tags[..k] == p.tags;
      assert projects[..i + 1][..i] == projects[..i];
      i := i + 1;
    }
    assert projects[..i] == projects;
    SortSorted(found);
    tags := Sort(found);
  }

  /** Each tag of each project is listed, and only those. */
  lemma AllTagsMembership(projects: seq<Project>, tags: seq<string>, t: string)
    requires Elems(tags) == TagSet(projects)
    ensures t in tags <==> exists i :: 0 <= i < |projects| && t in projects[i].tags
  {
    TagSetMembers(projects, t);
    assert t in tags <==> t in Elems(tags);
  }
}
