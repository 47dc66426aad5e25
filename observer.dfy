/** The scroll-reveal wrapper: the callback an intersection observer calls
    with the entry for the wrapped element, and the latch it keeps so that,
    by default, the element is revealed once and then no longer watched. */
module Observer {
  import opened Util

  /** What the wrapper holds between callbacks: the rendered
      `isIntersecting` flag, the `hasIntersected` latch, whether the element
      is still observed, and how many times `onIntersect` has been called. */
  datatype ObserverState = ObserverState(
    isIntersecting: bool,
    hasIntersected: bool,
    observing: bool,
    fired: nat)

  /** After mounting: nothing seen, the element observed. */
  const Init: ObserverState := ObserverState(false, false, true, 0)

  /** One callback, with `entry` the entry's `isIntersecting`. */
  function Step(s: ObserverState, triggerOnce: bool, entry: bool): (r: ObserverState)
    ensures r.hasIntersected == (s.hasIntersected || entry)
    ensures triggerOnce ==> r.isIntersecting == (s.isIntersecting || (entry && !s.hasIntersected))
    ensures !triggerOnce ==> r.isIntersecting == entry && r.observing == s.observing
    ensures r.fired == if entry && (!triggerOnce || !s.hasIntersected) then s.fired + 1 else s.fired
    ensures r.observing == (s.observing && !(triggerOnce && entry && !s.hasIntersected))
  {
    if entry && (!triggerOnce || !s.hasIntersected) then
      s.(isIntersecting := true, hasIntersected := true,
         observing := s.observing && !triggerOnce, fired := s.fired + 1)
    else if !triggerOnce then s.(isIntersecting := entry)
    else s
  }

  /** The state after the callbacks `es`, oldest first. */
  function Run(triggerOnce: bool, es: seq<bool>): ObserverState
    decreases |es|
  {
    if es == [] then Init else Step(Run(triggerOnce, es[..|es| - 1]), triggerOnce, es[|es| - 1])
  }

  predicate Intersecting(e: bool) { e }

  lemma RunSnoc(triggerOnce: bool, es: seq<bool>, e: bool)
    ensures Run(triggerOnce, es + [e]) == Step(Run(triggerOnce, es), triggerOnce, e)
  {
    assert (es + [e])[..|es|] == es;
  }

  /** The latch is set exactly when some entry so far was intersecting, in
      both modes. */
  lemma {:induction false} LatchRecordsAny(triggerOnce: bool, es: seq<bool>)
    ensures Run(triggerOnce, es).hasIntersected <==> true in es
    decreases |es|
  {
    if es != [] {
      var front := es[..|es| - 1];
      assert es == front + [es[|es| - 1]];
      LatchRecordsAny(triggerOnce, front);
    }
  }

  /** Once set, the latch is never reset. */
  lemma LatchStays(triggerOnce: bool, es: seq<bool>, more: seq<bool>)
    requires Run(triggerOnce, es).hasIntersected
    ensures Run(triggerOnce, es + more).hasIntersected
  {
    LatchRecordsAny(triggerOnce, es);
    LatchRecordsAny(triggerOnce, es + more);
    var k :| 0 <= k < |es| && es[k];
    assert (es + more)[k];
  }

  /** With `triggerOnce`: the element is shown from the first intersecting
      entry on, `onIntersect` is called once then and never again, and the
      element stops being observed at that moment. */
  lemma {:induction false} OnceMode(es: seq<bool>)
    ensures Run(true, es).isIntersecting <==> true in es
    ensures Run(true, es).fired == if true in es then 1 else 0
    ensures Run(true, es).observing <==> true !in es
    decreases |es|
  {
    if es != [] {
      var front := es[..|es| - 1];
      assert es == front + [es[|es| - 1]];
      OnceMode(front);
      LatchRecordsAny(true, front);
    }
  }

  /** With `triggerOnce`, a shown element stays shown. */
  lemma OnceStaysShown(es: seq<bool>, more: seq<bool>)
    requires Run(true, es).isIntersecting
    ensures Run(true, es + more).isIntersecting
  {
    OnceMode(es);
    OnceMode(es + more);
    var k :| 0 <= k < |es| && es[k];
    assert (es + more)[k];
  }

  /** Without `triggerOnce`: the flag follows the latest entry, `onIntersect`
      is called on every intersecting entry, and the element stays observed. */
  lemma {:induction false} RepeatMode(es: seq<bool>)
    ensures Run(false, es).isIntersecting == (es != [] && es[|es| - 1])
    ensures Run(false, es).fired == Count(es, Intersecting)
    ensures Run(false, es).observing
    decreases |es|
  {
    if es != [] {
      var front := es[..|es| - 1];
      assert es == front + [es[|es| - 1]];
      RepeatMode(front);
      FilterAppend(front, [es[|es| - 1]], Intersecting);
    }
  }

  class IntersectionWatcher {
    const triggerOnce: bool
    var isIntersecting: bool
    var hasIntersected: bool
    var observing: bool
    var fired: nat
    /** The entries delivered so far, oldest first. */
    ghost var seen: seq<bool>

    function State(): ObserverState
      reads this
    {
      ObserverState(isIntersecting, hasIntersected, observing, fired)
    }

    /** The fields are what the callbacks seen so far leave behind. */
    ghost predicate Valid()
      reads this
    {
      State() == Run(triggerOnce, seen)
    }

    constructor(triggerOnce: bool)
      ensures Valid() && seen == [] && this.triggerOnce == triggerOnce
      ensures State() == Init
    {
      this.triggerOnce := triggerOnce;
      isIntersecting := false;
      hasIntersected := false;
      observing := true;
      fired := 0;
      seen := [];
    }

    /** The wrapper used without a `triggerOnce` prop. */
    constructor Default()
      ensures Valid() && seen == [] && triggerOnce
      ensures State() == Init
    {
      triggerOnce := true;
      isIntersecting := false;
      hasIntersected := false;
      observing := true;
      fired := 0;
      seen := [];
    }

    /** The observer's callback; only the first entry is looked at. */
    method Deliver(entries: seq<bool>)
      requires Valid() && |entries| > 0
      modifies this
      ensures Valid() && seen == old(seen) + [entries[0]]
      ensures State() == Step(old(State()), triggerOnce, entries[0])
    {
      var entry := entries[0];
      if entry && (!triggerOnce || (triggerOnce && !hasIntersected)) {
        isIntersecting := true;
        fired := fired + 1;
        hasIntersected := true;
        if triggerOnce {
          observing := false;
        }
      } else if !triggerOnce {
        isIntersecting := entry;
      }
      RunSnoc(triggerOnce, seen, entry);
      seen := seen + [entry];
    }
  }
}
