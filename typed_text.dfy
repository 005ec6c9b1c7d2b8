/** The typewriter text: after a start delay it reveals one more character
    of its text per tick, and shows a cursor until the whole text is out. The
    timers are not modelled; `Start` and `Tick` are their callbacks firing. */
module TypedText {

  /** What one tick does to the displayed text. */
  function Step(text: string, displayed: string): (r: string)
    requires |displayed| <= |text|
    ensures |displayed| < |text| ==> r == text[..|displayed| + 1]
    ensures |displayed| == |text| ==> r == displayed
  {
    if |displayed| < |text| then text[..|displayed| + 1] else displayed
  }

  /** The displayed text after `k` ticks from the empty string. */
  function Typed(text: string, k: nat): (r: string)
    ensures |r| <= |text|
  {
    if k == 0 then "" else Step(text, Typed(text, k - 1))
  }

  /** After `k` ticks the first `k` characters are out, and never more than
      the whole text. */
  lemma {:induction false} TypedPrefix(text: string, k: nat)
    ensures Typed(text, k) == text[..if k < |text| then k else |text|]
  {
    if k > 0 {
      TypedPrefix(text, k - 1);
    }
  }

  /** After as many ticks as the text has characters, the whole text is out,
      and further ticks change nothing. */
  lemma TypingCompletes(text: string, k: nat)
    requires k >= |text|
    ensures Typed(text, k) == text
  {
    TypedPrefix(text, k);
  }

  class Typewriter {
    const text: string
    var displayed: string
    var started: bool

    /** What is on screen is always a prefix of the text. */
    predicate Valid()
      reads this
    {
      |displayed| <= |text| && displayed == text[..|displayed|]
    }

    /** Mounts empty and not yet started. */
    constructor (text: string)
      ensures this.text == text && displayed == "" && !started
      ensures Valid()
    {
      this.text := text;
      displayed := "";
      started := false;
    }

    /** The start delay elapses. */
    method Start()
      modifies this
      ensures started && displayed == old(displayed)
    {
      started := true;
    }

    /** One tick: a character is added only once started and while text
        remains. */
    method Tick()
      requires Valid()
      modifies this
      ensures Valid()
      ensures started == old(started)
      ensures old(started) ==> displayed == Step(text, old(displayed))
      ensures !old(started) ==> displayed == old(displayed)
    {
      if started && |displayed| < |text| {
        displayed := text[..|displayed| + 1];
      }
    }

    /** The cursor shows while text remains to be typed. */
    function ShowCursor(): (b: bool)
      reads this
      requires Valid()
      ensures b <==> displayed != text
    {
      |displayed| < |text|
    }
  }
}
