/**
 * The session lifecycle discipline, stated over event traces independently
 * of the manager.
 *
 * A `Tracker` replays a trace: it knows which session is live (at most one)
 * and the smallest id never yet used. An event is admissible when it is
 * addressed to the live session (the compositor notification: when none is
 * live); a `Create` additionally needs no live session and an unused id, and
 * a `Destroy` ends the live session. A trace the tracker replays to the end
 * therefore never has two sessions alive, never addresses a destroyed
 * session, and never reuses an id.
 */
module SessionProtocol {
  import opened Wrappers
  import opened TaskbarModel

  datatype Tracker = Tracker(live: Option<SessionId>, nextFresh: nat)

  /** The live session's id has been handed out already. */
  predicate Consistent(tr: Tracker) {
    tr.live.Some? ==> tr.live.value < tr.nextFresh
  }

  /** One event against the tracker; None when the event is not admissible. */
  function Advance(tr: Tracker, e: Event): (r: Option<Tracker>)
    ensures Consistent(tr) && r.Some? ==> Consistent(r.value)
    ensures r.Some? && !e.Create? ==> Target(e) == tr.live
    ensures r.Some? && e.Create? ==> tr.live.None? && tr.nextFresh <= e.id
                                     && r.value == Tracker(Some(e.id), e.id + 1)
    ensures r.Some? && e.Destroy? ==> r.value == tr.(live := None)
    ensures r.Some? && !e.Create? && !e.Destroy? ==> r.value == tr
  {
    match e
    case Create(id, _) =>
      if tr.live.None? && tr.nextFresh <= id then Some(Tracker(Some(id), id + 1)) else None
    case Destroy(id) =>
      if tr.live == Some(id) then Some(tr.(live := None)) else None
    case _ =>
      if tr.live == Target(e) then Some(tr) else None
  }

  /** Replays a whole trace; None if some event is not admissible. */
  function Replay(tr: Tracker, t: seq<Event>): (r: Option<Tracker>)
    ensures Consistent(tr) && r.Some? ==> Consistent(r.value)
    ensures r.Some? ==> tr.nextFresh <= r.value.nextFresh
    decreases |t|
  {
    if |t| == 0 then Some(tr)
    else
      match Advance(tr, t[0])
      case None => None
      case Some(tr') => Replay(tr', t[1..])
  }

  /** Replaying a concatenation is replaying its halves in turn. */
  lemma {:induction false} ReplayAppend(tr: Tracker, a: seq<Event>, b: seq<Event>)
    ensures Replay(tr, a + b) == (match Replay(tr, a) case None => None case Some(x) => Replay(x, b))
    decreases |a|
  {
    if |a| == 0 {
      assert a + b == b;
    } else {
      assert (a + b)[0] == a[0];
      assert (a + b)[1..] == a[1..] + b;
      match Advance(tr, a[0])
      case None =>
      case Some(tr') => ReplayAppend(tr', a[1..], b);
    }
  }

  /** Every prefix of an admissible trace is admissible, and the rest is
      admissible from where the prefix leaves the tracker. */
  lemma SplitAt(tr: Tracker, t: seq<Event>, k: nat)
    requires k <= |t|
    requires Replay(tr, t).Some?
    ensures Replay(tr, t[..k]).Some?
    ensures Replay(Replay(tr, t[..k]).value, t[k..]) == Replay(tr, t)
  {
    assert t == t[..k] + t[k..];
    ReplayAppend(tr, t[..k], t[k..]);
  }

  /** Once a session is not live and its id is used, nothing in an admissible
      continuation is addressed to it, not even a new `Create`. */
  lemma {:induction false} RetiredStaysRetired(tr: Tracker, s: seq<Event>, id: SessionId)
    requires Replay(tr, s).Some?
    requires tr.live != Some(id) && id < tr.nextFresh
    ensures forall k :: 0 <= k < |s| ==> Target(s[k]) != Some(id)
    decreases |s|
  {
    if |s| > 0 {
      var tr' := Advance(tr, s[0]).value;
      assert Target(s[0]) != Some(id);
      RetiredStaysRetired(tr', s[1..], id);
      forall k | 0 <= k < |s|
        ensures Target(s[k]) != Some(id)
      {
        if k > 0 {
          assert s[k] == s[1..][k - 1];
        }
      }
    }
  }

  /** A destroyed session is never addressed again, and its id is never
      given to a new session. */
  lemma DestroyedNeverAddressed(tr: Tracker, t: seq<Event>, i: nat, j: nat)
    requires Consistent(tr)
    requires Replay(tr, t).Some?
    requires i < j < |t| && t[i].Destroy?
    ensures Target(t[j]) != Some(t[i].id)
  {
    SplitAt(tr, t, i);
    var before := Replay(tr, t[..i]).value;
    assert t[i..][0] == t[i];
    var after := Advance(before, t[i]).value;
    assert t[i..][1..] == t[i + 1..];
    RetiredStaysRetired(after, t[i + 1..], t[i].id);
    assert t[j] == t[i + 1..][j - i - 1];
  }

  /** While a session stays live, no other session can be created. */
  lemma {:induction false} NoCreateWhileLive(tr: Tracker, s: seq<Event>)
    requires Replay(tr, s).Some?
    requires tr.live.Some?
    requires forall k :: 0 <= k < |s| ==> s[k] != Destroy(tr.live.value)
    ensures forall k :: 0 <= k < |s| ==> !s[k].Create?
    decreases |s|
  {
    if |s| > 0 {
      var tr' := Advance(tr, s[0]).value;
      assert tr' == tr;
      forall k | 0 <= k < |s[1..]|
        ensures s[1..][k] != Destroy(tr'.live.value)
      {
        assert s[1..][k] == s[k + 1];
      }
      NoCreateWhileLive(tr', s[1..]);
      forall k | 0 <= k < |s|
        ensures !s[k].Create?
      {
        if k > 0 {
          assert s[k] == s[1..][k - 1];
        }
      }
    }
  }

  /** Right after a `Create` in an admissible trace, the created session is
      the live one, the counter is past it, and the rest is admissible. */
  lemma AfterCreate(tr: Tracker, t: seq<Event>, i: nat)
    requires Replay(tr, t).Some?
    requires i < |t| && t[i].Create?
    ensures Replay(tr, t[..i + 1]).Some?
    ensures Replay(tr, t[..i + 1]).value == Tracker(Some(t[i].id), t[i].id + 1)
    ensures Replay(Replay(tr, t[..i + 1]).value, t[i + 1..]).Some?
  {
    SplitAt(tr, t, i + 1);
    SplitAt(tr, t[..i + 1], i);
    assert t[..i + 1][..i] == t[..i];
    assert t[..i + 1][i..] == [t[i]];
  }

  /** Between two creations the first session is destroyed: the previous
      session is always torn down before a new one is constructed. */
  lemma DestroyBetweenCreates(tr: Tracker, t: seq<Event>, i: nat, j: nat)
    requires Replay(tr, t).Some?
    requires i < j < |t| && t[i].Create? && t[j].Create?
    ensures exists k :: i < k < j && t[k] == Destroy(t[i].id)
  {
    if !exists k :: i < k < j && t[k] == Destroy(t[i].id) {
      AfterCreate(tr, t, i);
      var live := Replay(tr, t[..i + 1]).value;
      var s := t[i + 1..j + 1];
      assert t[i + 1..] == s + t[j + 1..];
      ReplayAppend(live, s, t[j + 1..]);
      forall k | 0 <= k < |s|
        ensures s[k] != Destroy(live.live.value)
      {
        assert s[k] == t[i + 1 + k];
      }
      NoCreateWhileLive(live, s);
    }
  }

  /** Session ids in an admissible trace are created in increasing order. */
  lemma CreatesIncrease(tr: Tracker, t: seq<Event>, i: nat, j: nat)
    requires Replay(tr, t).Some?
    requires i < j < |t| && t[i].Create? && t[j].Create?
    ensures t[i].id < t[j].id
  {
    AfterCreate(tr, t, i);
    var mid := Replay(tr, t[..i + 1]).value;
    SplitAt(mid, t[i + 1..], j - i - 1);
    assert t[i + 1..][..j - i - 1] == t[i + 1..j];
    assert t[i + 1..][j - i - 1..] == t[j..];
    var pre := Replay(mid, t[i + 1..j]).value;
    assert t[j..][0] == t[j];
    assert pre.nextFresh <= t[j].id;
  }
}
