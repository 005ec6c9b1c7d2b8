/** The archive page: a list of milestones whose rows fade in once and stay,
    a progress line that follows the scroll, category dots, legend pills,
    and a detail modal for the milestone last clicked. */
module Archive {
  import opened Numeric
  import AnimatedTimeline

  datatype Category = Fellowship | Award | Hackathon | Exam | Conference | Publication | Future

  /** A milestone reduced to the fields the page computes with. */
  datatype Milestone = Milestone(id: string, category: Category)

  /** The milestone list, newest first. */
  function Milestones(): (ms: seq<Milestone>)
    ensures |ms| == 13
  {
    [ Milestone("hack-mit-grand-hack-2026", Hackathon),
      Milestone("hack-london-neurotech-2026", Hackathon),
      Milestone("pub-active-sensing-2026", Publication),
      Milestone("hack-imperial-data-analytics-2025", Hackathon),
      Milestone("conf-surc-2025", Conference),
      Milestone("conf-biotech-bioinfo-2024", Conference),
      Milestone("srfp-iacs-2024", Fellowship),
      Milestone("sih-2024", Hackathon),
      Milestone("srfp-jncasr-2023", Fellowship),
      Milestone("sih-2023", Hackathon),
      Milestone("gat-2021", Exam),
      Milestone("science-talent-2015", Exam),
      Milestone("math-talent-2014", Exam) ]
  }

  /** The ids serve as React keys: no two milestones share one. */
  lemma MilestoneIdsDistinct(i: nat, j: nat)
    requires i < j < |Milestones()|
    ensures Milestones()[i].id != Milestones()[j].id
  {
    var ms := Milestones();
    // Any two ids differ in length or at character 0, 5 or 7.
    assert |ms[i].id| != |ms[j].id| || ms[i].id[0] != ms[j].id[0]
        || ms[i].id[5] != ms[j].id[5] || ms[i].id[7] != ms[j].id[7];
  }

  /** `(viewportHeight * 0.6 - rect.top) / rect.height`, clamped to [0, 1];
      `None` where the division is 0/0. */
  function LineProgress(viewportHeight: real, top: real, height: real): (r: Option<real>)
    ensures r.None? <==> height == 0.0 && viewportHeight * 0.6 == top
    ensures r.Some? ==> 0.0 <= r.value <= 1.0
    ensures height > 0.0 && top >= viewportHeight * 0.6 ==> r == Some(0.0)
    ensures height > 0.0 && top + height <= viewportHeight * 0.6 ==> r == Some(1.0)
  {
    ScrollProgress(viewportHeight * 0.6 - top, height)
  }

  /** The archive line measures against a point lower in the viewport than
      the animated timeline's centre, so for the same container it is never
      shorter. */
  lemma ArchiveLineLeads(viewportHeight: real, top: real, height: real)
    requires viewportHeight >= 0.0 && height > 0.0
    ensures AnimatedTimeline.LineProgress(viewportHeight, top, height).value
              <= LineProgress(viewportHeight, top, height).value
  {
    ScrollProgressMonotone(viewportHeight / 2.0 - top, viewportHeight * 0.6 - top, height);
  }

  const DefaultDot := "border-slate-400 bg-slate-200"

  /** `categoryDot`: a colour per category of the legend; the others get the
      slate default. */
  function CategoryDot(c: Category): (s: string)
    ensures s == DefaultDot <==> c == Award || c == Future
  {
    match c
    case Publication => "border-amber-500 bg-amber-200"
    case Conference => "border-pink-500 bg-pink-200"
    case Fellowship => "border-emerald-500 bg-emerald-200"
    case Hackathon => "border-indigo-500 bg-indigo-200"
    case Exam => "border-sky-500 bg-sky-200"
    case _ => DefaultDot
  }

  /** Categories with their own colour are told apart by it. */
  lemma DotsDistinguish(c1: Category, c2: Category)
    requires c1 != c2 && CategoryDot(c1) != DefaultDot
    ensures CategoryDot(c1) != CategoryDot(c2)
  {
    var s1 := CategoryDot(c1);
    var s2 := CategoryDot(c2);
    assert s2 == DefaultDot || s1[8] != s2[8] || s1[9] != s2[9];
  }

  /** Every listed milestone gets a colour of its own category. */
  lemma EveryMilestoneColoured(k: nat)
    requires k < |Milestones()|
    ensures CategoryDot(Milestones()[k].category) != DefaultDot
  {
  }

  /** `Pill`'s colour table. */
  function PillColors(): map<string, string> {
    map[
      "slate" := "border-slate-300 bg-slate-100 text-slate-600",
      "pink" := "border-pink-300 bg-pink-100 text-pink-700",
      "emerald" := "border-emerald-300 bg-emerald-100 text-emerald-700",
      "indigo" := "border-indigo-300 bg-indigo-100 text-indigo-700",
      "sky" := "border-sky-300 bg-sky-100 text-sky-700",
      "amber" := "border-amber-300 bg-amber-100 text-amber-700"
    ]
  }

  /** `colors[color] || colors.slate`: a known colour's classes, else the
      slate ones. */
  function PillClass(color: string): (s: string)
    ensures color in PillColors() ==> s == PillColors()[color]
    ensures color !in PillColors() ==> s == PillColors()["slate"]
    ensures s in PillColors().Values
  {
    if color in PillColors() && PillColors()[color] != "" then PillColors()[color]
    else PillColors()["slate"]
  }

  /** The legend's five pills all name colours of the table. */
  lemma LegendPillsKnown()
    ensures forall c :: c in ["amber", "pink", "emerald", "indigo", "sky"] ==> c in PillColors()
  {
  }

  /** The style of milestone row `index`: the row and its dot appear
      together, the dot 200 ms after the row. */
  datatype RowStyle = RowStyle(opacity: real, translateX: real, delayMs: int,
                               dotScale: real, dotDelayMs: int)

  function ItemStyle(isVisible: bool, index: nat): (s: RowStyle)
    ensures isVisible ==> s.opacity == 1.0 && s.translateX == 0.0 && s.dotScale == 1.0
    ensures !isVisible ==> s.opacity == 0.0 && s.translateX == -20.0 && s.dotScale == 0.0
    ensures s.dotDelayMs == s.delayMs + 200
    ensures s.delayMs == index * 80
  {
    RowStyle(if isVisible then 1.0 else 0.0, if isVisible then 0.0 else -20.0, index * 80,
             if isVisible then 1.0 else 0.0, index * 80 + 200)
  }

  /** Rows further down start later, and a row's dot starts before the row
      three places below it. */
  lemma StaggeredRows(i: nat, j: nat, v: bool)
    requires i < j
    ensures ItemStyle(v, i).delayMs < ItemStyle(v, j).delayMs
    ensures ItemStyle(v, i).dotDelayMs < ItemStyle(v, i + 3).delayMs
  {
  }

  /** A milestone row: it becomes visible the first time its observer
      reports it intersecting, and is never hidden again. */
  class TimelineItem {
    var isVisible: bool

    constructor ()
      ensures !isVisible
    {
      isVisible := false;
    }

    /** The observer callback; it reads the first entry only. */
    method OnEntries(intersecting: seq<bool>)
      requires |intersecting| > 0
      modifies this
      ensures isVisible == (old(isVisible) || intersecting[0])
    {
      if intersecting[0] {
        isVisible := true;
      }
    }
  }

  /** The page's own state: the progress line and the open milestone. */
  class Page {
    var lineHeight: Option<real>
    var active: Option<Milestone>

    constructor ()
      ensures lineHeight == Some(0.0) && active == None
    {
      lineHeight := Some(0.0);
      active := None;
    }

    /** `handleScroll`; without a mounted container it does nothing. */
    method HandleScroll(mounted: bool, viewportHeight: real, top: real, height: real)
      modifies this
      ensures active == old(active)
      ensures !mounted ==> lineHeight == old(lineHeight)
      ensures mounted ==> lineHeight == (match LineProgress(viewportHeight, top, height)
                                         case None => None
                                         case Some(p) => Some(p * 100.0))
      ensures mounted && lineHeight.Some? ==> 0.0 <= lineHeight.value <= 100.0
    {
      if mounted {
        match LineProgress(viewportHeight, top, height)
        case None => lineHeight := None;
        case Some(p) => lineHeight := Some(p * 100.0);
      }
    }

    /** A row click opens its milestone. */
    method Open(m: Milestone)
      modifies this
      ensures active == Some(m) && lineHeight == old(lineHeight)
    {
      active := Some(m);
    }

    /** The modal's close button. */
    method Close()
      modifies this
      ensures active == None && lineHeight == old(lineHeight)
    {
      active := None;
    }
  }
}
