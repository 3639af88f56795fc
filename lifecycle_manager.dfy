/**
 * The resource tracker of
 * src/components/Performance/NavigationLifecycleManager.ts. The `Map` of
 * listener lists and the three `Set`s keep insertion order, as JavaScript's
 * do, so they are sequences without repeated keys. Calls into the browser
 * (`addEventListener`, `removeEventListener`, `disconnect`, `clearTimeout`,
 * `cancelAnimationFrame`) are appended to the log `effects`.
 */
module LifecycleManager {
  import opened Wrappers

  type Elem = nat

  /** One tracked listener: the event name, the handler's identity and its options (opaque). */
  datatype Record = Record(event: string, handler: nat, options: Option<nat>)

  datatype Effect =
    | AddListener(element: Elem, record: Record)
    | RemoveListener(element: Elem, record: Record)
    | Disconnect(observer: nat)
    | ClearTimeout(timer: nat)
    | CancelFrame(frame: nat)

  type Listeners = seq<(Elem, seq<Record>)>

  // ------------------------------------------------------------ map and set operations

  predicate DistinctKeys(ls: Listeners)
  {
    forall i, j :: 0 <= i < j < |ls| ==> ls[i].0 != ls[j].0
  }

  predicate Distinct(s: seq<nat>)
  {
    forall i, j :: 0 <= i < j < |s| ==> s[i] != s[j]
  }

  lemma TailDistinct(ls: Listeners)
    requires DistinctKeys(ls) && |ls| > 0
    ensures DistinctKeys(ls[1..]) && Lookup(ls[1..], ls[0].0).None?
  {
  }

  lemma ConsDistinct(h: (Elem, seq<Record>), t: Listeners)
    requires DistinctKeys(t) && Lookup(t, h.0).None?
    ensures DistinctKeys([h] + t)
  {
    var r := [h] + t;
    forall i, j | 0 <= i < j < |r|
      ensures r[i].0 != r[j].0
    {
      if i == 0 {
        assert r[j] == t[j - 1];
      } else {
        assert r[i] == t[i - 1] && r[j] == t[j - 1];
      }
    }
  }

  /** `Map.prototype.get`. */
  function Lookup(ls: Listeners, e: Elem): (r: Option<seq<Record>>)
    ensures r.Some? <==> exists i :: 0 <= i < |ls| && ls[i].0 == e
    ensures r.Some? ==> exists i :: 0 <= i < |ls| && ls[i] == (e, r.value)
  {
    if |ls| == 0 then None
    else if ls[0].0 == e then Some(ls[0].1)
    else
      var r := Lookup(ls[1..], e);
      assert r.Some? ==> exists i :: 0 <= i < |ls[1..]| && ls[1..][i] == (e, r.value);
      r
  }

  /** Append `rec` to `e`'s list, creating the list at the end if `e` is new. */
  function AddRecord(ls: Listeners, e: Elem, rec: Record): (r: Listeners)
    requires DistinctKeys(ls)
    ensures DistinctKeys(r)
    ensures Lookup(r, e) == Some(if Lookup(ls, e).Some? then Lookup(ls, e).value + [rec] else [rec])
    ensures forall x :: x != e ==> Lookup(r, x) == Lookup(ls, x)
  {
    if |ls| == 0 then [(e, [rec])]
    else if ls[0].0 == e then
      TailDistinct(ls);
      ConsDistinct((e, ls[0].1 + [rec]), ls[1..]);
      [(e, ls[0].1 + [rec])] + ls[1..]
    else
      TailDistinct(ls);
      var tail := AddRecord(ls[1..], e, rec);
      ConsDistinct(ls[0], tail);
      [ls[0]] + tail
  }

  /** `Map.prototype.delete`. */
  function RemoveKey(ls: Listeners, e: Elem): (r: Listeners)
    requires DistinctKeys(ls)
    ensures DistinctKeys(r)
    ensures Lookup(r, e) == None
    ensures forall x :: x != e ==> Lookup(r, x) == Lookup(ls, x)
  {
    if |ls| == 0 then []
    else if ls[0].0 == e then
      TailDistinct(ls);
      ls[1..]
    else
      TailDistinct(ls);
      var tail := RemoveKey(ls[1..], e);
      ConsDistinct(ls[0], tail);
      [ls[0]] + tail
  }

  /** `Set.prototype.add`: a member is not added again. */
  function Insert(s: seq<nat>, x: nat): (r: seq<nat>)
    requires Distinct(s)
    ensures Distinct(r)
    ensures forall y :: y in r <==> y in s || y == x
    ensures x in s ==> r == s
  {
    if x in s then s else s + [x]
  }

  /** `Set.prototype.delete`. */
  function Delete(s: seq<nat>, x: nat): (r: seq<nat>)
    requires Distinct(s)
    ensures Distinct(r)
    ensures forall y :: y in r <==> y in s && y != x
    ensures x !in s ==> r == s
  {
    if |s| == 0 then []
    else if s[0] == x then
      assert x !in s[1..];
      s[1..]
    else
      assert s == [s[0]] + s[1..];
      assert s[0] !in s[1..];
      var t := Delete(s[1..], x);
      [s[0]] + t
  }

  // ------------------------------------------------------------ cleanup effects

  /** Removing every record of `e`, in order. */
  function Detach(e: Elem, recs: seq<Record>): (r: seq<Effect>)
    ensures |r| == |recs|
    ensures forall k :: 0 <= k < |recs| ==> r[k] == RemoveListener(e, recs[k])
  {
    seq(|recs|, k requires 0 <= k < |recs| => RemoveListener(e, recs[k]))
  }

  /** Removing every tracked record, element by element in map order. */
  function DetachAll(ls: Listeners): seq<Effect>
  {
    if |ls| == 0 then [] else DetachAll(ls[..|ls| - 1]) + Detach(ls[|ls| - 1].0, ls[|ls| - 1].1)
  }

  function Disconnects(obs: seq<nat>): (r: seq<Effect>)
    ensures |r| == |obs| && forall i :: 0 <= i < |obs| ==> r[i] == Disconnect(obs[i])
  {
    seq(|obs|, i requires 0 <= i < |obs| => Disconnect(obs[i]))
  }

  function ClearTimeouts(ts: seq<nat>): (r: seq<Effect>)
    ensures |r| == |ts| && forall i :: 0 <= i < |ts| ==> r[i] == ClearTimeout(ts[i])
  {
    seq(|ts|, i requires 0 <= i < |ts| => ClearTimeout(ts[i]))
  }

  function CancelFrames(fs: seq<nat>): (r: seq<Effect>)
    ensures |r| == |fs| && forall i :: 0 <= i < |fs| ==> r[i] == CancelFrame(fs[i])
  {
    seq(|fs|, i requires 0 <= i < |fs| => CancelFrame(fs[i]))
  }

  /** What `cleanup` asks of the browser: listeners, then observers, timers and frames. */
  function CleanupEffects(ls: Listeners, obs: seq<nat>, ts: seq<nat>, fs: seq<nat>): seq<Effect>
  {
    DetachAll(ls) + Disconnects(obs) + ClearTimeouts(ts) + CancelFrames(fs)
  }

  /** The number of tracked records. */
  function RecordCount(ls: Listeners): nat
  {
    if |ls| == 0 then 0 else RecordCount(ls[..|ls| - 1]) + |ls[|ls| - 1].1|
  }

  /** Every tracked record is detached by cleanup, and nothing else is. */
  lemma {:induction false} DetachAllComplete(ls: Listeners)
    ensures |DetachAll(ls)| == RecordCount(ls)
    ensures forall i, k :: 0 <= i < |ls| && 0 <= k < |ls[i].1| ==> RemoveListener(ls[i].0, ls[i].1[k]) in DetachAll(ls)
    ensures forall f :: f in DetachAll(ls) ==> exists i, k :: 0 <= i < |ls| && 0 <= k < |ls[i].1| && f == RemoveListener(ls[i].0, ls[i].1[k])
  {
    if |ls| > 0 {
      var init, last := ls[..|ls| - 1], ls[|ls| - 1];
      DetachAllComplete(init);
      var d := Detach(last.0, last.1);
      forall i, k | 0 <= i < |ls| && 0 <= k < |ls[i].1|
        ensures RemoveListener(ls[i].0, ls[i].1[k]) in DetachAll(ls)
      {
        if i < |ls| - 1 {
          assert ls[i] == init[i];
        } else {
          assert d[k] in d;
        }
      }
      forall f | f in DetachAll(ls)
        ensures exists i, k :: 0 <= i < |ls| && 0 <= k < |ls[i].1| && f == RemoveListener(ls[i].0, ls[i].1[k])
      {
        if f in DetachAll(init) {
          var i, k :| 0 <= i < |init| && 0 <= k < |init[i].1| && f == RemoveListener(init[i].0, init[i].1[k]);
          assert ls[i] == init[i];
        } else {
          var k :| 0 <= k < |d| && d[k] == f;
          assert f == RemoveListener(ls[|ls| - 1].0, ls[|ls| - 1].1[k]);
        }
      }
    }
  }

  /** Cleanup asks for one detach per record and one call per observer, timer and frame; with nothing tracked it asks for nothing. */
  lemma CleanupEffectCount(ls: Listeners, obs: seq<nat>, ts: seq<nat>, fs: seq<nat>)
    ensures |CleanupEffects(ls, obs, ts, fs)| == RecordCount(ls) + |obs| + |ts| + |fs|
    ensures CleanupEffects([], [], [], []) == []
  {
    DetachAllComplete(ls);
  }

  class Tracker {
    var eventListeners: Listeners
    var observers: seq<nat>
    var timers: seq<nat>
    var animationFrames: seq<nat>
    /** The calls made into the browser, oldest first. */
    var effects: seq<Effect>

    ghost predicate Valid()
      reads this
    {
      DistinctKeys(eventListeners) && Distinct(observers) && Distinct(timers) && Distinct(animationFrames)
    }

    constructor ()
      ensures Valid() && eventListeners == [] && observers == [] && timers == [] && animationFrames == [] && effects == []
    {
      eventListeners, observers, timers, animationFrames, effects := [], [], [], [], [];
    }

    /** `addEventListener`: attach, and append the record to the element's list. */
    method AddEventListener(e: Elem, event: string, handler: nat, options: Option<nat>)
      requires Valid()
      modifies this`eventListeners, this`effects
      ensures Valid()
      ensures effects == old(effects) + [AddListener(e, Record(event, handler, options))]
      ensures eventListeners == AddRecord(old(eventListeners), e, Record(event, handler, options))
    {
      var rec := Record(event, handler, options);
      effects := effects + [AddListener(e, rec)];
      eventListeners := AddRecord(eventListeners, e, rec);
    }

    method AddObserver(o: nat)
      requires Valid()
      modifies this`observers
      ensures Valid() && observers == Insert(old(observers), o)
    {
      observers := Insert(observers, o);
    }

    method AddTimer(id: nat)
      requires Valid()
      modifies this`timers
      ensures Valid() && timers == Insert(old(timers), id)
    {
      timers := Insert(timers, id);
    }

    method AddAnimationFrame(id: nat)
      requires Valid()
      modifies this`animationFrames
      ensures Valid() && animationFrames == Insert(old(animationFrames), id)
    {
      animationFrames := Insert(animationFrames, id);
    }

    /** `cleanup`: detach, disconnect, clear and cancel everything tracked, then forget it all. */
    method Cleanup()
      requires Valid()
      modifies this
      ensures Valid()
      ensures effects == old(effects) + CleanupEffects(old(eventListeners), old(observers), old(timers), old(animationFrames))
      ensures eventListeners == [] && observers == [] && timers == [] && animationFrames == []
    {
      DetachListeners();
      DisconnectObservers();
      ClearTimers();
      CancelAnimationFrames();
      eventListeners, observers, timers, animationFrames := [], [], [], [];
    }

    /** The first `forEach` of `cleanup`: every record of every element, in map order. */
    method DetachListeners()
      modifies this`effects
      ensures effects == old(effects) + DetachAll(eventListeners)
    {
      var ls := eventListeners;
      var log := effects;
      for i := 0 to |ls|
        invariant log == old(effects) + DetachAll(ls[..i])
      {
        var (e, recs) := ls[i];
        for k := 0 to |recs|
          invariant log == old(effects) + DetachAll(ls[..i]) + Detach(e, recs[..k])
        {
          assert Detach(e, recs[..k + 1]) == Detach(e, recs[..k]) + [RemoveListener(e, recs[k])];
          log := log + [RemoveListener(e, recs[k])];
        }
        assert recs[..|recs|] == recs;
        assert ls[..i + 1][..i] == ls[..i];
      }
      assert ls[..|ls|] == ls;
      effects := log;
    }

    method DisconnectObservers()
      modifies this`effects
      ensures effects == old(effects) + Disconnects(observers)
    {
      var log := effects;
      for i := 0 to |observers|
        invariant log == old(effects) + Disconnects(observers[..i])
      {
        assert Disconnects(observers[..i + 1]) == Disconnects(observers[..i]) + [Disconnect(observers[i])];
        log := log + [Disconnect(observers[i])];
      }
      assert observers[..|observers|] == observers;
      effects := log;
    }

    method ClearTimers()
      modifies this`effects
      ensures effects == old(effects) + ClearTimeouts(timers)
    {
      var log := effects;
      for i := 0 to |timers|
        invariant log == old(effects) + ClearTimeouts(timers[..i])
      {
        assert ClearTimeouts(timers[..i + 1]) == ClearTimeouts(timers[..i]) + [ClearTimeout(timers[i])];
        log := log + [ClearTimeout(timers[i])];
      }
      assert timers[..|timers|] == timers;
      effects := log;
    }

    method CancelAnimationFrames()
      modifies this`effects
      ensures effects == old(effects) + CancelFrames(animationFrames)
    {
      var log := effects;
      for i := 0 to |animationFrames|
        invariant log == old(effects) + CancelFrames(animationFrames[..i])
      {
        assert CancelFrames(animationFrames[..i + 1]) == CancelFrames(animationFrames[..i]) + [CancelFrame(animationFrames[i])];
        log := log + [CancelFrame(animationFrames[i])];
      }
      assert animationFrames[..|animationFrames|] == animationFrames;
      effects := log;
    }

    /** `removeElementListeners`: detach and forget exactly `e`'s records; an unknown element is ignored. */
    method RemoveElementListeners(e: Elem)
      requires Valid()
      modifies this`eventListeners, this`effects
      ensures Valid()
      ensures Lookup(old(eventListeners), e).None? ==> eventListeners == old(eventListeners) && effects == old(effects)
      ensures Lookup(old(eventListeners), e).Some? ==>
                effects == old(effects) + Detach(e, Lookup(old(eventListeners), e).value) &&
                eventListeners == RemoveKey(old(eventListeners), e)
    {
      var found := Lookup(eventListeners, e);
      if found.Some? {
        var recs := found.value;
        var log := effects;
        for k := 0 to |recs|
          invariant log == old(effects) + Detach(e, recs[..k])
        {
          assert Detach(e, recs[..k + 1]) == Detach(e, recs[..k]) + [RemoveListener(e, recs[k])];
          log := log + [RemoveListener(e, recs[k])];
        }
        assert recs[..|recs|] == recs;
        effects := log;
        eventListeners := RemoveKey(eventListeners, e);
      }
    }

    /** `removeTimer`: clear the id even if it is not tracked, and forget only that id. */
    method RemoveTimer(id: nat)
      requires Valid()
      modifies this`timers, this`effects
      ensures Valid()
      ensures effects == old(effects) + [ClearTimeout(id)] && timers == Delete(old(timers), id)
    {
      effects := effects + [ClearTimeout(id)];
      timers := Delete(timers, id);
    }

    /** `removeAnimationFrame`: cancel the id even if it is not tracked, and forget only that id. */
    method RemoveAnimationFrame(id: nat)
      requires Valid()
      modifies this`animationFrames, this`effects
      ensures Valid()
      ensures effects == old(effects) + [CancelFrame(id)] && animationFrames == Delete(old(animationFrames), id)
    {
      effects := effects + [CancelFrame(id)];
      animationFrames := Delete(animationFrames, id);
    }
  }

  /** A second cleanup asks the browser for nothing more. */
  method CleanupTwice(t: Tracker)
    requires t.Valid()
    modifies t
    ensures t.effects == old(t.effects) + CleanupEffects(old(t.eventListeners), old(t.observers), old(t.timers), old(t.animationFrames))
  {
    t.Cleanup();
    ghost var once := t.effects;
    t.Cleanup();
    CleanupEffectCount([], [], [], []);
    assert t.effects == once;
  }
}
