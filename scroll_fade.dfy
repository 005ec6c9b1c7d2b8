/** The `ScrollFade` wrapper: hidden (transparent, 30px down) until it
    scrolls into view, shown while it intersects the viewport, and hidden
    again only when it leaves through the bottom of the viewport. */
module ScrollFade {
  import opened Numeric

  /** What the observer reports for one entry: whether it intersects, and the
      top of its bounding rectangle. */
  datatype Entry = Entry(isIntersecting: bool, top: real)

  /** The two style values the component keeps. */
  datatype Look = Look(opacity: real, translateY: real)

  const Hidden := Look(0.0, 30.0)
  const Shown := Look(1.0, 0.0)

  /** An entry changes the look when it intersects, or when it lies below the
      viewport; one that left through the top changes nothing. */
  predicate Decisive(e: Entry) {
    e.isIntersecting || e.top > 0.0
  }

  /** The look a decisive entry sets. */
  function Target(e: Entry): Look {
    if e.isIntersecting then Shown else Hidden
  }

  /** The callback body for one entry. */
  function Apply(s: Look, e: Entry): (r: Look)
    ensures e.isIntersecting ==> r == Shown
    ensures !e.isIntersecting && e.top > 0.0 ==> r == Hidden
    ensures !Decisive(e) ==> r == s
  {
    if e.isIntersecting then Shown
    else if e.top > 0.0 then Hidden
    else s
  }

  /** `entries.forEach(...)`: the entries applied in order. */
  function ApplyAll(s: Look, entries: seq<Entry>): Look
    decreases |entries|
  {
    if |entries| == 0 then s else ApplyAll(Apply(s, entries[0]), entries[1..])
  }

  /** The index of the last decisive entry, if any. */
  function LastDecisive(entries: seq<Entry>): (r: Option<nat>)
    ensures r.None? <==> forall k :: 0 <= k < |entries| ==> !Decisive(entries[k])
    ensures r.Some? ==> r.value < |entries| && Decisive(entries[r.value])
    ensures r.Some? ==> forall k :: r.value < k < |entries| ==> !Decisive(entries[k])
  {
    if |entries| == 0 then None
    else if Decisive(entries[|entries| - 1]) then Some(|entries| - 1)
    else LastDecisive(entries[..|entries| - 1])
  }

  /** A batch leaves the look set by its last decisive entry, and leaves it
      untouched when no entry is decisive. */
  lemma {:induction false} LastDecisiveWins(s: Look, entries: seq<Entry>)
    ensures ApplyAll(s, entries) ==
              match LastDecisive(entries)
              case None => s
              case Some(k) => Target(entries[k])
    decreases |entries|
  {
    if |entries| > 0 {
      var rest := entries[1..];
      LastDecisiveWins(Apply(s, entries[0]), rest);
      if LastDecisive(rest).Some? {
        var k := LastDecisive(rest).value;
        assert rest[k] == entries[k + 1];
        LastIsShifted(entries);
      } else {
        LastIsShifted(entries);
      }
    }
  }

  /** An index that is decisive with nothing decisive after it is the last
      decisive index. */
  lemma LastDecisiveAt(entries: seq<Entry>, k: nat)
    requires k < |entries| && Decisive(entries[k])
    requires forall j :: k < j < |entries| ==> !Decisive(entries[j])
    ensures LastDecisive(entries) == Some(k)
  {
  }

  /** Dropping the first entry shifts the last decisive index down by one,
      unless the first entry was the only decisive one. */
  lemma LastIsShifted(entries: seq<Entry>)
    requires |entries| > 0
    ensures LastDecisive(entries[1..]).Some? ==>
              LastDecisive(entries) == Some(LastDecisive(entries[1..]).value + 1)
    ensures LastDecisive(entries[1..]).None? ==>
              LastDecisive(entries) == (if Decisive(entries[0]) then Some(0) else None)
  {
    var rest := entries[1..];
    assert forall j :: 0 < j < |entries| ==> entries[j] == rest[j - 1];
    var b := LastDecisive(rest);
    if b.Some? {
      LastDecisiveAt(entries, b.value + 1);
    } else if Decisive(entries[0]) {
      LastDecisiveAt(entries, 0);
    }
  }

  /** The component's state. */
  class Fader {
    var opacity: real
    var translateY: real

    function Current(): Look
      reads this
    {
      Look(opacity, translateY)
    }

    /** The look is always one of the two the component sets. */
    predicate Valid()
      reads this
    {
      Current() == Hidden || Current() == Shown
    }

    /** Mounts hidden. */
    constructor ()
      ensures Current() == Hidden
      ensures Valid()
    {
      opacity := 0.0;
      translateY := 30.0;
    }

    /** The observer callback for one batch of entries. */
    method OnEntries(entries: seq<Entry>)
      requires Valid()
      modifies this
      ensures Current() == ApplyAll(old(Current()), entries)
      ensures Valid()
    {
      var i := 0;
      while i < |entries|
        invariant 0 <= i <= |entries|
        invariant ApplyAll(old(Current()), entries) == ApplyAll(Current(), entries[i..])
        invariant Valid()
      {
        assert entries[i..][1..] == entries[i + 1..];
        var e := entries[i];
        if e.isIntersecting {
          opacity := 1.0;
          translateY := 0.0;
        } else if e.top > 0.0 {
          opacity := 0.0;
          translateY := 30.0;
        }
        i := i + 1;
      }
    }
  }
}
