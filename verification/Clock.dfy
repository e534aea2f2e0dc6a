/** The manual clock of clock/clock.go and clock/timer.go. Pending timers live in one array that is
    compacted and spliced in place; every timer has a one-slot channel. Timers are named by the
    order of their creation. */
module Clock {
  import opened Basics

  /** What became of one arming of a timer; Fired names the clock position at which it fired. */
  datatype Fate = Live | Stopped | Superseded | Fired(at: nat)

  /** armedAt is the clock position at which the timer was armed. */
  datatype Arming = Arming(timer: nat, deadline: int, armedAt: nat, fate: Fate)

  // ----- plain list operations

  /** The timers whose deadline the clock has not reached, in order. */
  function Kept(s: seq<nat>, deadline: seq<int>, now: int): seq<nat>
    requires forall i | 0 <= i < |s| :: s[i] < |deadline|
  {
    if s == [] then []
    else
      var t := s[|s| - 1];
      Kept(s[..|s| - 1], deadline, now) + (if deadline[t] > now then [t] else [])
  }

  function Without(s: seq<nat>, t: nat): seq<nat> {
    if s == [] then [] else if s[0] == t then s[1..] else [s[0]] + Without(s[1..], t)
  }

  ghost predicate Distinct(s: seq<nat>) { forall i, j | 0 <= i < j < |s| :: s[i] != s[j] }

  /** A list of distinct timers out of n. */
  ghost predicate Listed(s: seq<nat>, n: nat) { Distinct(s) && forall i | 0 <= i < |s| :: s[i] < n }

  /** Pending timers are ahead of the clock and have empty channels. */
  ghost predicate Ahead(s: seq<nat>, deadline: seq<int>, slot: seq<Option<int>>, now: int) {
    && |slot| == |deadline| && Listed(s, |deadline|)
    && forall t | t in s :: deadline[t] > now && slot[t] == None
  }

  /** All their channels are empty. */
  ghost predicate Clear(s: seq<nat>, slot: seq<Option<int>>) {
    forall i | 0 <= i < |s| :: s[i] < |slot| && slot[s[i]] == None
  }

  lemma AheadIsClear(s: seq<nat>, deadline: seq<int>, slot: seq<Option<int>>, now: int)
    requires Ahead(s, deadline, slot, now)
    ensures |slot| == |deadline| && Listed(s, |deadline|) && Clear(s, slot)
  {
    assert forall i | 0 <= i < |s| :: s[i] in s;
  }

  /** The pending timers once t is armed for due, and what its channel then holds. */
  function Enlisted(s: seq<nat>, t: nat, due: int, now: int): seq<nat> { if due <= now then s else s + [t] }

  function Immediate(due: int, now: int): Option<int> { if due <= now then Some(now) else None }

  lemma AheadNew(s: seq<nat>, deadline: seq<int>, slot: seq<Option<int>>, now: int, due: int)
    requires Ahead(s, deadline, slot, now)
    ensures Ahead(Enlisted(s, |deadline|, due, now), deadline + [due], slot + [Immediate(due, now)], now)
  {
  }

  lemma AheadRearm(s: seq<nat>, deadline: seq<int>, slot: seq<Option<int>>, now: int, t: nat, due: int)
    requires Ahead(s, deadline, slot, now) && t < |deadline| && t !in s
    ensures Ahead(Enlisted(s, t, due, now), deadline[t := due], slot[t := Immediate(due, now)], now)
  {
  }

  lemma AheadWithout(s: seq<nat>, deadline: seq<int>, slot: seq<Option<int>>, now: int, t: nat)
    requires Ahead(s, deadline, slot, now)
    ensures Ahead(Without(s, t), deadline, slot, now)
  {
    WithoutMembers(s, t);
    forall i | 0 <= i < |Without(s, t)| ensures Without(s, t)[i] < |deadline| {
      assert Without(s, t)[i] in Without(s, t);
    }
  }

  /** Firing leaves the timers that were not reached as they were. */
  lemma AheadKept(s: seq<nat>, deadline: seq<int>, slot: seq<Option<int>>, now: int, slot': seq<Option<int>>, now': int)
    requires Ahead(s, deadline, slot, now) && Delivered(slot, slot', s, deadline, now')
    ensures Ahead(Kept(s, deadline, now'), deadline, slot', now')
  {
    var k := Kept(s, deadline, now');
    KeptMembers(s, deadline, now');
    forall i | 0 <= i < |k| ensures k[i] < |deadline| {
      assert k[i] in k;
    }
  }

  lemma KeptEmpty(deadline: seq<int>, now: int)
    ensures Kept([], deadline, now) == []
  {
  }

  lemma KeptSnoc(p: seq<nat>, t: nat, deadline: seq<int>, now: int)
    requires t < |deadline| && forall i | 0 <= i < |p| :: p[i] < |deadline|
    ensures Kept(p + [t], deadline, now) == Kept(p, deadline, now) + (if deadline[t] > now then [t] else [])
  {
    assert (p + [t])[..|p|] == p;
  }

  lemma {:induction false} KeptMembers(s: seq<nat>, deadline: seq<int>, now: int)
    requires forall i | 0 <= i < |s| :: s[i] < |deadline|
    ensures forall t | t in Kept(s, deadline, now) :: t in s && deadline[t] > now
    ensures forall t | t in s && deadline[t] > now :: t in Kept(s, deadline, now)
    ensures Distinct(s) ==> Distinct(Kept(s, deadline, now))
  {
    if s != [] {
      var p, t := s[..|s| - 1], s[|s| - 1];
      KeptMembers(p, deadline, now);
      assert s == p + [t];
      if Distinct(s) {
        assert t !in p;
        assert Distinct(p);
      }
    }
  }

  lemma {:induction false} WithoutMembers(s: seq<nat>, t: nat)
    requires Distinct(s)
    ensures Distinct(Without(s, t))
    ensures forall x :: x in Without(s, t) <==> x in s && x != t
  {
    if s != [] {
      WithoutMembers(s[1..], t);
      assert s == [s[0]] + s[1..];
      assert s[0] !in s[1..];
    }
  }

  lemma {:induction false} WithoutAt(s: seq<nat>, i: nat)
    requires i < |s| && s[i] !in s[..i]
    ensures Without(s, s[i]) == s[..i] + s[i + 1..]
  {
    if i > 0 {
      assert s[1..][..i - 1] == s[..i][1..];
      assert s[1..][i - 1] == s[i];
      WithoutAt(s[1..], i - 1);
      assert s[0] == s[..i][0];
      assert s[1..][i..] == s[i + 1..];
      assert [s[0]] + s[1..][..i - 1] == s[..i];
    }
  }

  lemma {:induction false} WithoutAbsent(s: seq<nat>, t: nat)
    requires t !in s
    ensures Without(s, t) == s
  {
    if s != [] { WithoutAbsent(s[1..], t); }
  }

  /** Every listed timer that is due holds the time in its channel; no other channel changed. */
  ghost predicate Delivered(before: seq<Option<int>>, after: seq<Option<int>>, s: seq<nat>, deadline: seq<int>,
                            now: int) {
    && |before| == |after| == |deadline|
    && forall t | 0 <= t < |after| :: after[t] == if t in s && deadline[t] <= now then Some(now) else before[t]
  }

  lemma DeliverNext(before: seq<Option<int>>, after: seq<Option<int>>, s: seq<nat>, t: nat, deadline: seq<int>,
                    now: int)
    requires Delivered(before, after, s, deadline, now) && t < |deadline| && t !in s && before[t] == None
    ensures |after| == |deadline| && after[t] == None
    ensures Delivered(before, if deadline[t] <= now then after[t := Some(now)] else after, s + [t], deadline, now)
  {
  }

  lemma DeliverNone(slot: seq<Option<int>>, deadline: seq<int>, now: int)
    requires |slot| == |deadline|
    ensures Delivered(slot, slot, [], deadline, now)
  {
  }

  // ----- the story of every arming

  ghost function Settle(armings: seq<Arming>, positions: seq<int>, now: int): seq<Arming> {
    seq(|armings|, k requires 0 <= k < |armings| =>
      if armings[k].fate.Live? && armings[k].deadline <= now
      then armings[k].(fate := Fired(|positions|)) else armings[k])
  }

  /** One arming against the positions the clock has taken: a live one has not been reached since
      it was armed, and one that fired did so at the first position that reached its deadline. */
  ghost predicate Told(a: Arming, positions: seq<int>) {
    && a.armedAt < |positions|
    && (a.fate.Live? ==> forall p | a.armedAt <= p < |positions| :: positions[p] < a.deadline)
    && (a.fate.Fired? ==>
          && a.armedAt <= a.fate.at < |positions| && positions[a.fate.at] >= a.deadline
          && forall p | a.armedAt <= p < a.fate.at :: positions[p] < a.deadline)
  }

  /** Every arming is accounted for: the live ones are exactly the latest armings of the pending
      timers. */
  ghost predicate Story(pending: seq<nat>, deadline: seq<int>, now: int,
                        positions: seq<int>, armings: seq<Arming>, latest: seq<nat>)
  {
    && positions != [] && positions[|positions| - 1] == now
    && |latest| == |deadline|
    && (forall t | 0 <= t < |latest| :: Current(pending, deadline, armings, latest, t))
    && (forall k | 0 <= k < |armings| :: Told(armings[k], positions))
    && (forall k | 0 <= k < |armings| :: armings[k].timer < |latest|)
    && (forall k | 0 <= k < |armings| :: armings[k].fate.Live? ==> latest[armings[k].timer] == k)
  }

  ghost predicate Current(pending: seq<nat>, deadline: seq<int>, armings: seq<Arming>, latest: seq<nat>, t: nat)
    requires t < |latest| == |deadline|
  {
    && latest[t] < |armings| && armings[latest[t]].timer == t && armings[latest[t]].deadline == deadline[t]
    && (t in pending <==> armings[latest[t]].fate.Live?)
  }

  /** A fresh arming fires at once when its deadline has already come. */
  ghost function Armed(t: nat, due: int, now: int, positions: seq<int>): Arming
    requires positions != []
  {
    Arming(t, due, |positions| - 1, if due <= now then Fired(|positions| - 1) else Live)
  }

  lemma StoryNew(pending: seq<nat>, deadline: seq<int>, now: int,
                 positions: seq<int>, armings: seq<Arming>, latest: seq<nat>, due: int)
    requires Story(pending, deadline, now, positions, armings, latest) && Listed(pending, |deadline|)
    ensures Story(Enlisted(pending, |deadline|, due, now), deadline + [due], now, positions,
                  armings + [Armed(|deadline|, due, now, positions)], latest + [|armings|])
  {
    var a', l', d' := armings + [Armed(|deadline|, due, now, positions)], latest + [|armings|], deadline + [due];
    var pending' := Enlisted(pending, |deadline|, due, now);
    forall t | 0 <= t < |l'| ensures Current(pending', d', a', l', t) {
      if t < |latest| { assert Current(pending, deadline, armings, latest, t); }
    }
  }

  lemma StoryRearm(pending: seq<nat>, deadline: seq<int>, now: int,
                   positions: seq<int>, armings: seq<Arming>, latest: seq<nat>, t: nat, due: int)
    requires Story(pending, deadline, now, positions, armings, latest) && t < |deadline| && t !in pending
    ensures Story(Enlisted(pending, t, due, now), deadline[t := due], now, positions,
                  armings + [Armed(t, due, now, positions)], latest[t := |armings|])
  {
    var a', l', d' := armings + [Armed(t, due, now, positions)], latest[t := |armings|], deadline[t := due];
    var pending' := Enlisted(pending, t, due, now);
    assert Current(pending, deadline, armings, latest, t);
    forall x | 0 <= x < |l'| ensures Current(pending', d', a', l', x) {
      assert Current(pending, deadline, armings, latest, x);
    }
  }

  lemma StoryEnd(pending: seq<nat>, pending': seq<nat>, deadline: seq<int>, now: int,
                 positions: seq<int>, armings: seq<Arming>, latest: seq<nat>, t: nat, fate: Fate)
    requires Story(pending, deadline, now, positions, armings, latest) && t < |deadline| && t in pending
    requires forall x :: x in pending' <==> x in pending && x != t
    requires fate.Stopped? || fate.Superseded?
    ensures latest[t] < |armings| && armings[latest[t]].fate.Live?
    ensures Story(pending', deadline, now, positions, armings[latest[t] := armings[latest[t]].(fate := fate)], latest)
  {
    assert Current(pending, deadline, armings, latest, t);
    var a' := armings[latest[t] := armings[latest[t]].(fate := fate)];
    forall x | 0 <= x < |latest| ensures Current(pending', deadline, a', latest, x) {
      assert Current(pending, deadline, armings, latest, x);
    }
  }

  lemma StoryMove(pending: seq<nat>, pending': seq<nat>, deadline: seq<int>, now: int, now': int,
                  positions: seq<int>, armings: seq<Arming>, latest: seq<nat>)
    requires Story(pending, deadline, now, positions, armings, latest)
    requires forall x | x in pending :: x < |deadline|
    requires forall x :: x in pending' <==> x in pending && deadline[x] > now'
    ensures Story(pending', deadline, now', positions + [now'], Settle(armings, positions, now'), latest)
  {
    var a', p' := Settle(armings, positions, now'), positions + [now'];
    forall x | 0 <= x < |latest| ensures Current(pending', deadline, a', latest, x) {
      assert Current(pending, deadline, armings, latest, x);
    }
    forall k | 0 <= k < |a'| ensures Told(a'[k], p') {
      assert Told(armings[k], positions);
    }
  }

  lemma MoveStory(pending: seq<nat>, deadline: seq<int>, now: int, now': int,
                  positions: seq<int>, armings: seq<Arming>, latest: seq<nat>)
    requires Story(pending, deadline, now, positions, armings, latest)
    requires Listed(pending, |deadline|)
    ensures Story(Kept(pending, deadline, now'), deadline, now', positions + [now'],
                  Settle(armings, positions, now'), latest)
  {
    hide Story, Settle, Kept;
    KeptMembers(pending, deadline, now');
    StoryMove(pending, Kept(pending, deadline, now'), deadline, now, now', positions, armings, latest);
  }

  // ----- what went through the channels

  /** The channel of a timer since its latest arming: if that arming fired, exactly one value was
      delivered, the clock position at which it fired, and it is waiting or has been taken; otherwise
      nothing was. */
  ghost predicate Channel(slot: Option<int>, taken: Option<int>, positions: seq<int>, fate: Fate) {
    match fate
    case Fired(at) =>
      at < |positions|
      && ((slot == Some(positions[at]) && taken == None) || (slot == None && taken == Some(positions[at])))
    case _ => slot == None && taken == None
  }

  ghost predicate Channels(slot: seq<Option<int>>, taken: seq<Option<int>>, positions: seq<int>, armings: seq<Arming>,
                           latest: seq<nat>) {
    && |slot| == |taken| == |latest|
    && forall t | 0 <= t < |latest| ::
         latest[t] < |armings| && Channel(slot[t], taken[t], positions, armings[latest[t]].fate)
  }

  lemma ChannelsNew(slot: seq<Option<int>>, taken: seq<Option<int>>, positions: seq<int>, armings: seq<Arming>,
                    latest: seq<nat>, due: int, now: int)
    requires Channels(slot, taken, positions, armings, latest)
    requires positions != [] && positions[|positions| - 1] == now
    ensures Channels(slot + [Immediate(due, now)], taken + [None], positions,
                     armings + [Armed(|latest|, due, now, positions)], latest + [|armings|])
  {
  }

  lemma ChannelsRearm(slot: seq<Option<int>>, taken: seq<Option<int>>, positions: seq<int>, armings: seq<Arming>,
                      latest: seq<nat>, t: nat, due: int, now: int)
    requires Channels(slot, taken, positions, armings, latest) && t < |latest|
    requires positions != [] && positions[|positions| - 1] == now
    ensures Channels(slot[t := Immediate(due, now)], taken[t := None], positions,
                     armings + [Armed(t, due, now, positions)], latest[t := |armings|])
  {
  }

  lemma ChannelsEnd(slot: seq<Option<int>>, taken: seq<Option<int>>, positions: seq<int>, armings: seq<Arming>,
                    latest: seq<nat>, t: nat, fate: Fate)
    requires Channels(slot, taken, positions, armings, latest) && t < |latest|
    requires armings[latest[t]].fate.Live? && (fate.Stopped? || fate.Superseded?)
    ensures latest[t] < |armings|
    ensures Channels(slot, taken, positions, armings[latest[t] := armings[latest[t]].(fate := fate)], latest)
  {
  }

  lemma ChannelsMove(pending: seq<nat>, deadline: seq<int>, now: int, now': int, positions: seq<int>,
                     armings: seq<Arming>, latest: seq<nat>, slot: seq<Option<int>>, slot': seq<Option<int>>,
                     taken: seq<Option<int>>)
    requires Story(pending, deadline, now, positions, armings, latest)
    requires Channels(slot, taken, positions, armings, latest) && Delivered(slot, slot', pending, deadline, now')
    ensures Channels(slot', taken, positions + [now'], Settle(armings, positions, now'), latest)
  {
    var a', p' := Settle(armings, positions, now'), positions + [now'];
    forall t | 0 <= t < |latest| ensures Channel(slot'[t], taken[t], p', a'[latest[t]].fate) {
      assert Current(pending, deadline, armings, latest, t);
      assert Channel(slot[t], taken[t], positions, armings[latest[t]].fate);
    }
  }

  lemma ChannelsTake(slot: seq<Option<int>>, taken: seq<Option<int>>, positions: seq<int>, armings: seq<Arming>,
                     latest: seq<nat>, t: nat)
    requires Channels(slot, taken, positions, armings, latest) && t < |slot|
    ensures Channels(slot[t := None], if slot[t].Some? then taken[t := slot[t]] else taken, positions, armings, latest)
  {
  }

  /** All that holds of a clock between two operations. */
  ghost predicate InOrder(pending: seq<nat>, deadline: seq<int>, slot: seq<Option<int>>, now: int, positions: seq<int>,
                          armings: seq<Arming>, latest: seq<nat>, taken: seq<Option<int>>) {
    && Ahead(pending, deadline, slot, now) && Story(pending, deadline, now, positions, armings, latest)
    && Channels(slot, taken, positions, armings, latest)
  }

  lemma InOrderNew(pending: seq<nat>, deadline: seq<int>, slot: seq<Option<int>>, now: int, positions: seq<int>,
                   armings: seq<Arming>, latest: seq<nat>, taken: seq<Option<int>>, due: int)
    requires InOrder(pending, deadline, slot, now, positions, armings, latest, taken)
    ensures positions != [] && |slot| == |deadline|
    ensures InOrder(Enlisted(pending, |deadline|, due, now), deadline + [due], slot + [Immediate(due, now)], now,
                    positions, armings + [Armed(|deadline|, due, now, positions)], latest + [|armings|], taken + [None])
  {
    assert |latest| == |deadline|;
    AheadIsClear(pending, deadline, slot, now);
    hide Ahead, Channels, Enlisted, Immediate, Armed;
    AheadNew(pending, deadline, slot, now, due);
    StoryNew(pending, deadline, now, positions, armings, latest, due);
    ChannelsNew(slot, taken, positions, armings, latest, due, now);
  }

  lemma InOrderRearm(pending: seq<nat>, deadline: seq<int>, slot: seq<Option<int>>, now: int, positions: seq<int>,
                     armings: seq<Arming>, latest: seq<nat>, taken: seq<Option<int>>, t: nat, due: int)
    requires InOrder(pending, deadline, slot, now, positions, armings, latest, taken) && t < |deadline| && t !in pending
    ensures positions != [] && |slot| == |deadline| == |latest| == |taken|
    ensures InOrder(Enlisted(pending, t, due, now), deadline[t := due], slot[t := Immediate(due, now)], now, positions,
                    armings + [Armed(t, due, now, positions)], latest[t := |armings|], taken[t := None])
  {
    assert |slot| == |deadline| == |latest| == |taken|;
    hide Ahead, Channels, Enlisted, Immediate, Armed;
    AheadRearm(pending, deadline, slot, now, t, due);
    StoryRearm(pending, deadline, now, positions, armings, latest, t, due);
    ChannelsRearm(slot, taken, positions, armings, latest, t, due, now);
  }

  class Manual {
    var now: int
    var buf: array<nat>
    var len: nat
    var deadline: seq<int>
    var slot: seq<Option<int>>

    ghost var positions: seq<int>
    ghost var armings: seq<Arming>
    /** The latest arming of each timer. */
    ghost var latest: seq<nat>
    /** What has been received from each timer's channel since its latest arming. */
    ghost var taken: seq<Option<int>>

    ghost predicate Shape()
      reads this, buf
    {
      len <= buf.Length && |slot| == |deadline| && Listed(buf[..len], |deadline|)
    }

    ghost function Pending(): seq<nat>
      requires len <= buf.Length
      reads this, buf
    {
      buf[..len]
    }

    ghost predicate Valid()
      reads this, buf
    {
      len <= buf.Length && InOrder(Pending(), deadline, slot, now, positions, armings, latest, taken)
    }

    constructor (start: int)
      ensures Valid() && fresh(buf) && now == start && Pending() == [] && armings == []
    {
      now, len, deadline, slot := start, 0, [], [];
      buf := new nat[0];
      positions, armings, latest, taken := [start], [], [], [];
    }

    /** Delivers without blocking; a full channel would drop the value. */
    method FireLocked(t: nat)
      requires t < |slot|
      modifies this`slot
      ensures slot == if old(slot)[t].None? then old(slot)[t := Some(now)] else old(slot)
    {
      if slot[t].None? { slot := slot[t := Some(now)]; }
    }

    /** append: in place while there is room, into a larger array otherwise. */
    method Append(t: nat)
      requires len <= buf.Length
      modifies this`buf, this`len, buf
      ensures len <= buf.Length && Pending() == old(Pending()) + [t]
      ensures buf == old(buf) || fresh(buf)
    {
      ghost var s := Pending();
      if len == buf.Length {
        var bigger := new nat[2 * len + 1];
        var i := 0;
        while i < len
          invariant 0 <= i <= len && buf == old(buf) && len == old(len) && len <= buf.Length
          invariant Pending() == s && bigger[..i] == s[..i]
        {
          bigger[i] := buf[i];
          i := i + 1;
        }
        buf := bigger;
        assert buf[..len] == s;
      }
      buf[len] := t;
      len := len + 1;
      assert buf[..len] == s + [t];
    }

    /** A timer with a clean channel fires at once or joins the pending ones. */
    method FireOrEnlist(t: nat, d: int)
      requires len <= buf.Length && t < |slot| && slot[t] == None
      modifies this`slot, this`buf, this`len, buf
      ensures len <= buf.Length && (buf == old(buf) || fresh(buf))
      ensures Pending() == Enlisted(old(Pending()), t, now + d, now)
      ensures slot == old(slot)[t := Immediate(now + d, now)]
    {
      if d <= 0 {
        FireLocked(t);
      } else {
        Append(t);
      }
    }

    /** removeLocked: find the timer and splice it out of the array in place. */
    method RemoveLocked(t: nat) returns (was: bool)
      requires Shape()
      modifies this`len, buf
      ensures was <==> t in old(Pending())
      ensures len <= buf.Length && Pending() == Without(old(Pending()), t)
    {
      ghost var s := Pending();
      var i := 0;
      while i < len
        invariant 0 <= i <= len == old(len) && Pending() == s
        invariant t !in s[..i]
      {
        if buf[i] == t {
          WithoutAt(s, i);
          var k := i;
          while k + 1 < len
            invariant i <= k < len == old(len) && len <= buf.Length
            invariant forall j | 0 <= j < i :: buf[j] == s[j]
            invariant forall j | i <= j < k :: buf[j] == s[j + 1]
            invariant forall j | k < j < len :: buf[j] == s[j]
          {
            buf[k] := buf[k + 1];
            k := k + 1;
          }
          len := len - 1;
          assert buf[..len] == s[..i] + s[i + 1..];
          return true;
        }
        assert s[..i + 1] == s[..i] + [s[i]];
        i := i + 1;
      }
      WithoutAbsent(s, t);
      return false;
    }

    /** fireDueLocked: the kept timers are written over the front of the very array being read. */
    method FireDueLocked()
      requires Shape() && Clear(Pending(), slot)
      modifies this`len, this`slot, buf
      ensures len <= buf.Length && Pending() == Kept(old(Pending()), deadline, now)
      ensures Delivered(old(slot), slot, old(Pending()), deadline, now)
    {
      hide Kept, Delivered;
      KeptEmpty(deadline, now);
      DeliverNone(slot, deadline, now);
      ghost var s := Pending();
      ghost var slot0 := slot;
      assert buf[..0] == s[..0] == [];
      var w, r := 0, 0;
      while r < len
        invariant 0 <= w <= r <= len == |s| == old(len) && len <= buf.Length
        invariant buf[..w] == Kept(s[..r], deadline, now)
        invariant forall j | r <= j < len :: buf[j] == s[j]
        invariant Delivered(slot0, slot, s[..r], deadline, now)
      {
        var t := buf[r];
        assert s[..r + 1] == s[..r] + [t];
        assert s[r] !in s[..r] && slot0[s[r]] == None;
        KeptSnoc(s[..r], t, deadline, now);
        DeliverNext(slot0, slot, s[..r], t, deadline, now);
        ghost var front := buf[..w];
        if deadline[t] > now {
          buf[w] := t;
          w := w + 1;
          assert buf[..w] == front + [t];
        } else {
          FireLocked(t);
        }
        r := r + 1;
      }
      assert s[..r] == s;
      len := w;
    }

    /** A new timer, armed; a delay that is not positive fires it at once. */
    method NewTimer(d: int) returns (t: nat)
      requires Valid()
      modifies this, buf
      ensures Valid() && now == old(now) && (buf == old(buf) || fresh(buf))
      ensures t == |old(deadline)| && deadline == old(deadline) + [now + d]
      ensures slot == old(slot) + [Immediate(now + d, now)]
      ensures Pending() == Enlisted(old(Pending()), t, now + d, now)
      ensures positions == old(positions) && positions != []
        && armings == old(armings) + [Armed(t, now + d, now, positions)]
    {
      hide InOrder, Armed, Enlisted, Immediate;
      InOrderNew(Pending(), deadline, slot, now, positions, armings, latest, taken, now + d);
      ghost var slot0 := slot;
      armings, latest := armings + [Armed(|deadline|, now + d, now, positions)], latest + [|armings|];
      taken := taken + [None];
      t := |deadline|;
      deadline, slot := deadline + [now + d], slot + [None];
      FireOrEnlist(t, d);
      assert slot == slot0 + [Immediate(now + d, now)];
    }

    /** removeLocked, with the end it means for a pending arming. */
    method Retire(t: nat, ghost fate: Fate) returns (was: bool)
      requires Valid() && t < |deadline| && (fate.Stopped? || fate.Superseded?)
      modifies this, buf
      ensures Valid() && now == old(now) && buf == old(buf) && deadline == old(deadline) && slot == old(slot)
      ensures was <==> t in old(Pending())
      ensures t !in Pending() && Pending() == Without(old(Pending()), t)
      ensures positions == old(positions) && latest == old(latest)
      ensures |latest| == |deadline| && latest[t] < |old(armings)|
      ensures armings == if was then old(armings)[latest[t] := old(armings)[latest[t]].(fate := fate)] else old(armings)
    {
      hide Told;
      assert Current(Pending(), deadline, armings, latest, t);
      assert Shape();
      hide Story, Current, Channels, Channel;
      ghost var pending := Pending();
      WithoutMembers(pending, t);
      AheadWithout(pending, deadline, slot, now, t);
      hide Ahead, Listed;
      was := RemoveLocked(t);
      if was {
        StoryEnd(pending, Pending(), deadline, now, positions, armings, latest, t, fate);
        ChannelsEnd(slot, taken, positions, armings, latest, t, fate);
        armings := armings[latest[t] := armings[latest[t]].(fate := fate)];
      } else {
        WithoutAbsent(pending, t);
      }
    }

    /** Reports whether the timer was still pending; if so, its arming ends as stopped. */
    method Stop(t: nat) returns (was: bool)
      requires Valid() && t < |deadline|
      modifies this, buf
      ensures Valid() && now == old(now) && buf == old(buf) && deadline == old(deadline) && slot == old(slot)
      ensures was <==> t in old(Pending())
      ensures t !in Pending() && Pending() == Without(old(Pending()), t)
      ensures positions == old(positions) && latest == old(latest)
      ensures |latest| == |deadline| && latest[t] < |old(armings)|
      ensures armings == if was then old(armings)[latest[t] := old(armings)[latest[t]].(fate := Stopped)]
        else old(armings)
    {
      was := Retire(t, Stopped);
    }

    /** The second half of Reset: drain a stale fire, set the deadline, and fire or enlist. */
    method Rearm(t: nat, d: int)
      requires Valid() && t < |deadline| && t !in Pending()
      modifies this, buf
      ensures Valid() && now == old(now) && (buf == old(buf) || fresh(buf)) && deadline == old(deadline)[t := now + d]
      ensures slot == old(slot)[t := Immediate(now + d, now)]
      ensures Pending() == Enlisted(old(Pending()), t, now + d, now)
      ensures positions == old(positions) && positions != []
        && armings == old(armings) + [Armed(t, now + d, now, positions)]
    {
      hide InOrder, Armed, Enlisted, Immediate;
      InOrderRearm(Pending(), deadline, slot, now, positions, armings, latest, taken, t, now + d);
      ghost var slot0 := slot;
      armings, latest := armings + [Armed(t, now + d, now, positions)], latest[t := |armings|];
      taken := taken[t := None];
      slot := slot[t := None];
      deadline := deadline[t := now + d];
      FireOrEnlist(t, d);
      assert slot == slot0[t := Immediate(now + d, now)];
    }

    /** Rearms the timer with a clean channel; a pending arming ends as superseded. */
    method Reset(t: nat, d: int) returns (was: bool)
      requires Valid() && t < |deadline|
      modifies this, buf
      ensures Valid() && now == old(now) && (buf == old(buf) || fresh(buf)) && deadline == old(deadline)[t := now + d]
      ensures was <==> t in old(Pending())
      ensures |old(slot)| == |old(deadline)| && slot == old(slot)[t := Immediate(now + d, now)]
      ensures Pending() == Enlisted(Without(old(Pending()), t), t, now + d, now)
      ensures positions == old(positions) && |old(latest)| == |old(deadline)| && old(latest)[t] < |old(armings)|
      ensures positions != [] && armings ==
        (if was then old(armings)[old(latest)[t] := old(armings)[old(latest)[t]].(fate := Superseded)]
          else old(armings))
        + [Armed(t, now + d, now, positions)]
    {
      assert positions != [] && |slot| == |deadline|;
      hide Story, Armed, Ahead, Without;
      was := Retire(t, Superseded);
      Rearm(t, d);
    }

    /** Set: the clock may move either way. Every pending timer it reaches fires, exactly once and
        with nothing dropped; the others stay as they were. */
    method Set(to: int)
      requires Valid()
      modifies this, buf
      ensures Valid() && now == to && buf == old(buf) && deadline == old(deadline)
      ensures Listed(old(Pending()), |deadline|) && Pending() == Kept(old(Pending()), deadline, now)
      ensures Delivered(old(slot), slot, old(Pending()), deadline, to)
      ensures positions == old(positions) + [to] && armings == Settle(old(armings), old(positions), to)
    {
      hide Delivered, Clear, Story, Kept, Settle, Ahead, Listed, Channels;
      ghost var pending := Pending();
      ghost var slot0, now0 := slot, now;
      AheadIsClear(pending, deadline, slot, now);
      MoveStory(pending, deadline, now, to, positions, armings, latest);
      ghost var positions0, armings0 := positions, armings;
      armings, positions := Settle(armings, positions, to), positions + [to];
      now := to;
      FireDueLocked();
      AheadKept(pending, deadline, slot0, now0, slot, to);
      ChannelsMove(pending, deadline, now0, to, positions0, armings0, latest, slot0, slot, taken);
    }

    method Advance(d: int)
      requires Valid()
      modifies this, buf
      ensures Valid() && now == old(now) + d && buf == old(buf) && deadline == old(deadline)
      ensures Listed(old(Pending()), |deadline|) && Pending() == Kept(old(Pending()), deadline, now)
      ensures Delivered(old(slot), slot, old(Pending()), deadline, now)
      ensures positions == old(positions) + [now] && armings == Settle(old(armings), old(positions), now)
    {
      Set(now + d);
    }

    /** A receive from the timer's channel by its owner. */
    method Receive(t: nat) returns (v: Option<int>)
      requires Valid() && t < |slot|
      modifies this`slot, this`taken
      ensures Valid() && v == old(slot)[t] && slot == old(slot)[t := None]
      ensures |taken| == |slot| && (v.Some? ==> taken[t] == v)
    {
      ChannelsTake(slot, taken, positions, armings, latest, t);
      v := slot[t];
      if v.Some? { taken := taken[t := v]; }
      slot := slot[t := None];
    }

    method PendingTimers() returns (n: nat)
      requires Valid()
      ensures n == |Pending()|
    {
      return len;
    }
  }
}
