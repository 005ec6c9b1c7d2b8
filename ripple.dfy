/** The click ripple: each click appends a ripple at the click position,
    keyed by the click time in milliseconds, and schedules its removal 600 ms
    later; removal drops every ripple with that key. */
module Ripple {

  datatype Ripple = Ripple(x: real, y: real, id: int)

  /** A pending `setTimeout` callback: when it is due and which key it
      removes. */
  datatype Timer = Timer(due: int, id: int)

  const Lifetime := 600
  const Diameter := 100.0

  /** `prev.filter((r) => r.id !== id)` */
  function Without(rs: seq<Ripple>, id: int): (r: seq<Ripple>)
    ensures |r| <= |rs|
    ensures forall k :: 0 <= k < |r| ==> r[k].id != id
  {
    if |rs| == 0 then []
    else if rs[|rs| - 1].id == id then Without(rs[..|rs| - 1], id)
    else Without(rs[..|rs| - 1], id) + [rs[|rs| - 1]]
  }

  /** A ripple survives the filter exactly when it was there and carries
      another key. */
  lemma {:induction false} WithoutMembers(rs: seq<Ripple>, id: int, x: Ripple)
    ensures x in Without(rs, id) <==> x in rs && x.id != id
  {
    if |rs| > 0 {
      var init := rs[..|rs| - 1];
      assert rs == init + [rs[|rs| - 1]];
      WithoutMembers(init, id, x);
    }
  }

  /** Nothing is dropped when no ripple carries the key. */
  lemma {:induction false} WithoutNothing(rs: seq<Ripple>, id: int)
    requires forall k :: 0 <= k < |rs| ==> rs[k].id != id
    ensures Without(rs, id) == rs
  {
    if |rs| > 0 {
      var init := rs[..|rs| - 1];
      WithoutNothing(init, id);
      assert rs == init + [rs[|rs| - 1]];
    }
  }

  /** Filtering keeps the order: it distributes over concatenation. */
  lemma {:induction false} WithoutAppend(a: seq<Ripple>, b: seq<Ripple>, id: int)
    ensures Without(a + b, id) == Without(a, id) + Without(b, id)
    decreases |b|
  {
    if |b| > 0 {
      var c := a + b;
      var init := b[..|b| - 1];
      var last := b[|b| - 1];
      assert c[..|c| - 1] == a + init;
      assert c[|c| - 1] == last;
      WithoutAppend(a, init, id);
      if last.id != id {
        assert Without(a, id) + Without(init, id) + [last] == Without(a, id) + (Without(init, id) + [last]);
      }
    } else {
      assert a + b == a;
    }
  }

  /** Filtering twice by the same key is filtering once. */
  lemma WithoutIdempotent(rs: seq<Ripple>, id: int)
    ensures Without(Without(rs, id), id) == Without(rs, id)
  {
    WithoutNothing(Without(rs, id), id);
  }

  /** The square a ripple is drawn in: `left`, `top`, `width`, `height`. */
  datatype Box = Box(left: real, top: real, width: real, height: real)

  /** The drawn square is 100 by 100 and centred on the click. */
  function RippleBox(r: Ripple): (b: Box)
    ensures b.width == Diameter && b.height == Diameter
    ensures b.left + b.width / 2.0 == r.x && b.top + b.height / 2.0 == r.y
  {
    Box(r.x - 50.0, r.y - 50.0, Diameter, Diameter)
  }

  /** The hook's state: the ripple list and the pending removals. */
  class Ripples {
    var ripples: seq<Ripple>
    var timers: seq<Timer>

    /** The keys that still have a removal pending. */
    function PendingKeys(): set<int>
      reads this
    {
      set t | t in timers :: t.id
    }

    /** Every ripple on screen still has its removal pending, so none stays
        forever. */
    predicate Valid()
      reads this
    {
      forall i :: 0 <= i < |ripples| ==> ripples[i].id in PendingKeys()
    }

    constructor ()
      ensures ripples == [] && timers == []
      ensures Valid()
    {
      ripples := [];
      timers := [];
    }

    /** `addRipple`: the position relative to the element, keyed by the
        current time, appended; its removal scheduled `Lifetime` ms later. */
    method AddRipple(clientX: real, clientY: real, rectLeft: real, rectTop: real, nowMs: int)
      requires Valid()
      modifies this
      ensures Valid()
      ensures ripples == old(ripples) + [Ripple(clientX - rectLeft, clientY - rectTop, nowMs)]
      ensures timers == old(timers) + [Timer(nowMs + Lifetime, nowMs)]
    {
      ripples := ripples + [Ripple(clientX - rectLeft, clientY - rectTop, nowMs)];
      timers := timers + [Timer(nowMs + Lifetime, nowMs)];
    }

    /** A pending removal runs: the timer is consumed and every ripple with
        its key is dropped. */
    method Fire(k: nat)
      requires k < |timers| && Valid()
      modifies this
      ensures Valid()
      ensures ripples == Without(old(ripples), old(timers)[k].id)
      ensures timers == old(timers)[..k] + old(timers)[k + 1..]
    {
      var id := timers[k].id;
      var kept := Without(ripples, id);
      var rest := timers[..k] + timers[k + 1..];
      forall i | 0 <= i < |kept|
        ensures kept[i].id in set t | t in rest :: t.id
      {
        WithoutMembers(ripples, id, kept[i]);
        var j :| 0 <= j < |ripples| && ripples[j] == kept[i];
        var t :| t in timers && t.id == kept[i].id;
        var m :| 0 <= m < |timers| && timers[m] == t;
        if m < k {
          assert rest[m] == t;
        } else {
          assert rest[m - 1] == t;
        }
      }
      ripples := kept;
      timers := rest;
    }
  }

  /** A ripple lives until its own removal runs: the removal of its key
      drops it and keeps every earlier ripple with another key, in order. */
  lemma AddThenRemove(rs: seq<Ripple>, r: Ripple)
    ensures Without(rs + [r], r.id) == Without(rs, r.id)
  {
    WithoutAppend(rs, [r], r.id);
    assert Without([r], r.id) == Without([], r.id);
  }

  /** Two clicks in the same millisecond share a key, so the first removal
      drops both ripples. */
  lemma SameMillisecondClash(rs: seq<Ripple>, x1: real, y1: real, x2: real, y2: real, t: int)
    ensures var both := rs + [Ripple(x1, y1, t)] + [Ripple(x2, y2, t)];
            Without(both, t) == Without(rs, t)
  {
    var r1 := Ripple(x1, y1, t);
    var r2 := Ripple(x2, y2, t);
    AddThenRemove(rs + [r1], r2);
    AddThenRemove(rs, r1);
  }
}
