/** The ordered set of timers, under the order that is documented and under the one that the source gives it. */
module TimerSet {
  // A timer in the set: its deadline, and its address.
  datatype Key = Key(next: nat, id: nat)

  // By time of execution, as documented, and by address where deadlines are equal.
  predicate Less(a: Key, b: Key) { a.next < b.next || (a.next == b.next && a.id < b.id) }

  // The comparator as it is written: it compares the deadline of the left timer with itself.
  predicate WrittenLess(a: Key, b: Key) {
    if a.next < a.next then true else if a.next > a.next then false else a.id < b.id
  }

  predicate Before(a: Key, b: Key, written: bool) { if written then WrittenLess(a, b) else Less(a, b) }

  ghost predicate Sorted(ks: seq<Key>, written: bool) {
    forall i, j :: 0 <= i < j < |ks| ==> Before(ks[i], ks[j], written)
  }

  // One timer does not stand in the set at two deadlines.
  ghost predicate NoTwin(ks: seq<Key>, k: Key) { forall x :: x in ks && x.id == k.id ==> x == k }

  // std::set::insert: an element that is there already stays.
  function Insert(ks: seq<Key>, k: Key, written: bool): seq<Key> {
    if ks == [] then [k]
    else if ks[0] == k then ks
    else if Before(k, ks[0], written) then [k] + ks
    else [ks[0]] + Insert(ks[1..], k, written)
  }

  lemma {:induction false} InsertHas(ks: seq<Key>, k: Key, written: bool)
    ensures Insert(ks, k, written) != []
    ensures forall x :: x in Insert(ks, k, written) <==> x == k || x in ks
  {
    if ks != [] && ks[0] != k && !Before(k, ks[0], written) {
      InsertHas(ks[1..], k, written);
      assert ks == [ks[0]] + ks[1..];
    }
  }

  lemma {:induction false} InsertSorted(ks: seq<Key>, k: Key, written: bool)
    requires Sorted(ks, written) && NoTwin(ks, k)
    ensures Sorted(Insert(ks, k, written), written)
  {
    if ks != [] && ks[0] != k && !Before(k, ks[0], written) {
      var rest := Insert(ks[1..], k, written);
      InsertSorted(ks[1..], k, written);
      InsertHas(ks[1..], k, written);
      forall j | 0 <= j < |rest| ensures Before(ks[0], rest[j], written) {
        assert rest[j] in rest;
        if rest[j] != k {
          var i :| 0 <= i < |ks[1..]| && ks[1..][i] == rest[j];
          assert Before(ks[0], ks[i + 1], written);
        }
      }
    }
  }

  function Erase(ks: seq<Key>, k: Key): seq<Key> {
    if ks == [] then [] else if ks[0] == k then ks[1..] else [ks[0]] + Erase(ks[1..], k)
  }

  lemma {:induction false} EraseHas(ks: seq<Key>, k: Key, written: bool)
    requires Sorted(ks, written)
    ensures forall x :: x in Erase(ks, k) <==> x != k && x in ks
  {
    if ks != [] {
      assert ks == [ks[0]] + ks[1..];
      if ks[0] == k {
        forall x | x in ks[1..] ensures x != k {
          var i :| 0 <= i < |ks[1..]| && ks[1..][i] == x;
          assert Before(ks[0], ks[i + 1], written);
        }
      } else {
        EraseHas(ks[1..], k, written);
      }
    }
  }

  lemma {:induction false} EraseSorted(ks: seq<Key>, k: Key, written: bool)
    requires Sorted(ks, written)
    ensures Sorted(Erase(ks, k), written)
  {
    if ks != [] && ks[0] != k {
      var rest := Erase(ks[1..], k);
      EraseSorted(ks[1..], k, written);
      EraseHas(ks[1..], k, written);
      forall j | 0 <= j < |rest| ensures Before(ks[0], rest[j], written) {
        assert rest[j] in rest && rest[j] in ks[1..];
        var i :| 0 <= i < |ks[1..]| && ks[1..][i] == rest[j];
        assert Before(ks[0], ks[i + 1], written);
      }
    }
  }

  // std::set::lower_bound: the first element that is not less.
  function LowerBound(ks: seq<Key>, k: Key, written: bool): (n: nat)
    ensures n <= |ks| && (forall i :: 0 <= i < n ==> Before(ks[i], k, written))
    ensures n < |ks| ==> !Before(ks[n], k, written)
  {
    if ks == [] || !Before(ks[0], k, written) then 0 else 1 + LowerBound(ks[1..], k, written)
  }

  ghost predicate Earliest(ks: seq<Key>, k: Key) { forall x :: x in ks ==> k.next <= x.next }
  ghost predicate Lowest(ks: seq<Key>, k: Key) { forall x :: x in ks ==> k.id <= x.id }

  // Under the documented order the first element is the earliest.
  lemma {:induction false} FirstIsEarliest(ks: seq<Key>)
    requires Sorted(ks, false) && ks != []
    ensures Earliest(ks, ks[0])
  {
    forall k | k in ks ensures ks[0].next <= k.next {
      var i :| 0 <= i < |ks| && ks[i] == k;
      assert i > 0 ==> Before(ks[0], ks[i], false);
    }
  }

  // Under the written one it is the one at the lowest address.
  lemma {:induction false} FirstIsLowest(ks: seq<Key>)
    requires Sorted(ks, true) && ks != []
    ensures Lowest(ks, ks[0])
  {
    forall k | k in ks ensures ks[0].id <= k.id {
      var i :| 0 <= i < |ks| && ks[i] == k;
      assert i > 0 ==> Before(ks[0], ks[i], true);
    }
  }

  // So it is the earliest exactly when some timer is both at the lowest address and the earliest.
  lemma {:induction false} WrittenFirstIsEarliestIff(ks: seq<Key>)
    requires Sorted(ks, true) && ks != []
    ensures Earliest(ks, ks[0]) <==> exists k :: k in ks && Lowest(ks, k) && Earliest(ks, k)
  {
    FirstIsLowest(ks);
    if k :| k in ks && Lowest(ks, k) && Earliest(ks, k) {
      var i :| 0 <= i < |ks| && ks[i] == k;
      assert i > 0 ==> Before(ks[0], ks[i], true);
    }
    assert ks[0] in ks;
  }

  // ---------------------------------------------------------------- the timers that have run out

  // What lower_bound, asked for a timer due now at `address`, and the loop past those due just now leave behind them.
  ghost predicate Passed(ks: seq<Key>, written: bool, now: nat, address: nat, k: Key) {
    if written then k.id < address || forall x :: x in ks && address <= x.id <= k.id ==> x.next == now
    else k.next <= now
  }

  // Nothing leaves the set while its first timer is not due.
  ghost predicate Leaves(ks: seq<Key>, written: bool, now: nat, address: nat, k: Key) {
    ks != [] && ks[0].next <= now && Passed(ks, written, now, address, k)
  }

  // The exact condition, in addresses and deadlines, for the due timers to be the ones that leave: when the timer at
  // the lowest address is not due none is; otherwise all below the address of the probe are due, and of those above it
  // only a first stretch due just now.
  ghost predicate TakesDue(ks: seq<Key>, written: bool, now: nat, address: nat) {
    if !written || ks == [] then true
    else if exists k :: k in ks && Lowest(ks, k) && k.next > now then forall k :: k in ks ==> k.next > now
    else
      && (forall k :: k in ks && k.id < address ==> k.next <= now)
      && forall k, x :: k in ks && x in ks && address <= x.id <= k.id && k.next <= now ==> x.next == now
  }

  lemma {:induction false} TakesDueIff(ks: seq<Key>, written: bool, now: nat, address: nat)
    requires Sorted(ks, written)
    ensures (forall k :: k in ks ==> (Leaves(ks, written, now, address, k) <==> k.next <= now)) <==>
            TakesDue(ks, written, now, address)
  {
    if ks == [] { return; }
    if written {
      FirstIsLowest(ks);
      LowestIsFirst(ks);
      assert ks[0] in ks;
      if forall k :: k in ks ==> (Leaves(ks, written, now, address, k) <==> k.next <= now) {
        forall k, x | k in ks && x in ks && address <= x.id <= k.id && k.next <= now && ks[0].next <= now
          ensures x.next == now {
          assert Leaves(ks, written, now, address, k);
        }
      }
    } else {
      FirstIsEarliest(ks);
    }
  }

  lemma {:induction false} LowestIsFirst(ks: seq<Key>)
    requires Sorted(ks, true) && ks != []
    ensures forall k :: k in ks && Lowest(ks, k) ==> k == ks[0]
  {
    forall k | k in ks && Lowest(ks, k) ensures k == ks[0] {
      var i :| 0 <= i < |ks| && ks[i] == k;
      assert i > 0 ==> Before(ks[0], ks[i], true);
      assert ks[0] in ks;
    }
  }

  // Inputs at which the written order goes wrong. Two timers whose addresses lie in the order of their deadlines: the
  // one due at 200 leaves at 150.
  lemma {:induction false} LeavesTooEarly(ks: seq<Key>)
    requires ks == [Key(100, 10), Key(200, 20)]
    ensures Sorted(ks, true) && Sorted(ks, false) && !TakesDue(ks, true, 150, 30)
    ensures Leaves(ks, true, 150, 30, Key(200, 20))
  {
    assert ks[1] == Key(200, 20) && ks[0] == Key(100, 10);
    assert Lowest(ks, ks[0]);
  }

  // A timer that is due is hidden behind one that is not.
  lemma {:induction false} HiddenBehindLater(ks: seq<Key>, address: nat)
    requires ks == [Key(200, 10), Key(100, 20)]
    ensures Sorted(ks, true) && !TakesDue(ks, true, 150, address) && !Earliest(ks, ks[0])
    ensures forall k :: !Leaves(ks, true, 150, address, k)
  {
    assert ks[1] == Key(100, 20) && ks[0] == Key(200, 10);
    assert Lowest(ks, ks[0]);
  }

  // Whatever the set, if it is not empty: a timer that is overdue is missed by a probe at a lower address.
  lemma {:induction false} MissedByLowProbe(ks: seq<Key>)
    requires Sorted(ks, true) && ks != [] && ks[0].id > 0
    ensures var now, address := ks[0].next + 1, ks[0].id - 1;
            !TakesDue(ks, true, now, address) && !Leaves(ks, true, now, address, ks[0])
  {
    FirstIsLowest(ks);
    LowestIsFirst(ks);
    assert ks[0] in ks;
  }
}

/** TimerManager and Timer. */
module Timers {
  import opened Ascii
  import opened TimerSet

  const TWO64: nat := 0x1_0000_0000_0000_0000
  const HOUR: Ms := 60 * 60 * 1000

  // Milliseconds in a uint64_t, and their sums and differences.
  type Ms = x: int | 0 <= x < 0x1_0000_0000_0000_0000
  function Plus(a: Ms, b: Ms): Ms { (a + b) % TWO64 }
  function Minus(a: Ms, b: Ms): Ms { (a - b) % TWO64 }

  datatype Timer = Timer(recurring: bool, ms: Ms, next: Ms, cb: Option<nat>)

  function KeyOf(objs: map<nat, Timer>, id: nat): Key
    requires id in objs
  {
    Key(objs[id].next, id)
  }

  function Later(a: nat, b: nat): nat { if a < b then b else a }

  // Each timer in the set stands at its own deadline.
  ghost predicate Linked(objs: map<nat, Timer>, k: Key) { k.id in objs && objs[k.id].next == k.next }

  // It was started at a time that has come, and its deadline is its period later.
  ghost predicate Started(objs: map<nat, Timer>, k: Key, clock: nat) {
    k.id in objs && objs[k.id].ms <= k.next <= clock + objs[k.id].ms
  }

  // Not earlier than the deadline last reported; None: no timer was there.
  ghost predicate NotBefore(k: Key, reported: Option<nat>) { reported.Some? && reported.value <= k.next }

  // Nobody sleeps past a timer: either a wake-up is on its way, or no timer is earlier than what was last reported.
  ghost predicate IsAlert(keys: seq<Key>, tickled: bool, reported: Option<nat>) {
    tickled || forall k :: k in keys ==> NotBefore(k, reported)
  }

  ghost predicate AllStarted(objs: map<nat, Timer>, keys: seq<Key>, clock: nat) {
    forall k :: k in keys ==> Started(objs, k, clock)
  }

  // How long until a timer is due.
  function Remaining(k: Key, now: Ms): nat { if now > k.next then 0 else k.next - now }

  class TimerManager {
    const written: bool         // the set is ordered as the source orders it; otherwise as documented
    var objs: map<nat, Timer>   // every timer ever made
    var keys: seq<Key>          // m_timers
    var tickled: bool
    var previousTime: Ms
    ghost var clock: nat              // the latest time any call has seen
    ghost var reported: Option<nat>   // the deadline behind the last result of getNextTimer

    ghost predicate Valid()
      reads this`objs, this`keys
    {
      Sorted(keys, written) && forall k :: k in keys ==> Linked(objs, k)
    }

    ghost predicate Alert()
      reads this`keys, this`tickled, this`reported
    {
      IsAlert(keys, tickled, reported)
    }

    // No deadline has wrapped.
    ghost predicate InTime()
      reads this`objs, this`keys, this`clock
    {
      AllStarted(objs, keys, clock)
    }

    ghost predicate Has(id: nat)
      reads this`objs, this`keys
    {
      id in objs && KeyOf(objs, id) in keys
    }

    constructor (written: bool, now: Ms)
      ensures Valid() && Alert() && InTime() && keys == [] && objs == map[] && previousTime == now && clock == now
      ensures this.written == written && !tickled && reported == None
    {
      this.written := written;
      objs, keys, tickled, previousTime, clock, reported := map[], [], false, now, now, None;
    }

    // ---------------------------------------------------------------- addTimer

    // The locked addTimer; the result says whether to wake the sleeper.
    method Put(id: nat) returns (atFront: bool)
      requires Valid() && id in objs && KeyOf(objs, id) !in keys
      modifies this`keys, this`tickled
      ensures Valid() && keys != [] && forall k :: k in keys <==> k == KeyOf(objs, id) || k in old(keys)
      ensures atFront == (!old(tickled) && keys[0] == KeyOf(objs, id)) && tickled == (old(tickled) || atFront)
      ensures old(Alert()) ==> (Alert() <==> tickled || NotBefore(KeyOf(objs, id), reported))
      ensures old(Alert()) && !written ==> Alert()
      ensures old(InTime()) && Started(objs, KeyOf(objs, id), clock) ==> InTime()
    {
      var k := KeyOf(objs, id);
      InsertHas(keys, k, written);
      InsertSorted(keys, k, written);
      keys := Insert(keys, k, written);
      atFront := keys[0] == k && !tickled;
      if atFront { tickled := true; }
      if !written {
        FirstIsEarliest(keys);
        assert !tickled && old(Alert()) ==> NotBefore(keys[0], reported);
      }
    }

    // The clock is read before the lock is taken, so `now` may lie before times that other calls have seen.
    method AddTimer(id: nat, ms: Ms, cb: Option<nat>, recurring: bool, now: Ms) returns (atFront: bool)
      requires Valid() && id !in objs
      modifies this
      ensures Valid() && keys != [] && objs == old(objs)[id := Timer(recurring, ms, Plus(now, ms), cb)]
      ensures forall k :: k in keys <==> k == Key(Plus(now, ms), id) || k in old(keys)
      ensures atFront == (!old(tickled) && keys[0] == Key(Plus(now, ms), id)) && tickled == (old(tickled) || atFront)
      ensures previousTime == old(previousTime) && reported == old(reported)
      ensures clock == Later(old(clock), now)
      ensures old(Alert()) ==> (Alert() <==> tickled || NotBefore(Key(Plus(now, ms), id), reported))
      ensures old(Alert()) && !written ==> Alert()
      ensures old(InTime()) && now + ms < TWO64 ==> InTime()
    {
      assert forall k :: k in keys ==> k.id != id;
      objs := objs[id := Timer(recurring, ms, Plus(now, ms), cb)];
      if now >= clock { clock := now; }
      assert old(InTime()) ==> InTime();
      atFront := Put(id);
    }

    // ---------------------------------------------------------------- cancel, refresh, reset

    // The timer leaves the set.
    method Remove(id: nat)
      requires Valid() && Has(id)
      modifies this`keys
      ensures Valid() && KeyOf(objs, id) !in keys && forall k :: k in keys ==> k.id != id
      ensures forall k :: k in keys <==> k in old(keys) && k != KeyOf(objs, id)
    {
      EraseHas(keys, KeyOf(objs, id), written);
      EraseSorted(keys, KeyOf(objs, id), written);
      keys := Erase(keys, KeyOf(objs, id));
      assert forall k :: k in keys && k.id == id ==> k == KeyOf(objs, id);
    }

    // Cancelling keeps the callback, so a second cancel would erase what is not there: the timer must be in the set, or
    // have run out.
    method Cancel(id: nat) returns (r: bool)
      requires Valid() && id in objs && (objs[id].cb.None? || Has(id))
      modifies this`keys
      ensures Valid() && r == objs[id].cb.Some? && (old(Alert()) ==> Alert()) && (old(InTime()) ==> InTime())
      ensures r ==> !Has(id) && forall k :: k in keys <==> k in old(keys) && k.id != id
      ensures !r ==> keys == old(keys)
    {
      r := objs[id].cb.Some?;
      if r { Remove(id); }
    }

    method Refresh(id: nat, now: Ms) returns (r: bool)
      requires Valid() && id in objs
      modifies this
      ensures Valid() && r == (old(objs)[id].cb.Some? && old(Has(id))) && tickled == old(tickled) &&
              reported == old(reported)
      ensures clock == Later(old(clock), now) && previousTime == old(previousTime)
      ensures r ==> objs == old(objs)[id := old(objs)[id].(next := Plus(now, old(objs)[id].ms))]
      ensures r ==> forall k :: k in keys <==> k == KeyOf(objs, id) || (k in old(keys) && k.id != id)
      ensures !r ==> objs == old(objs) && keys == old(keys)
      ensures old(Alert()) ==> (Alert() <==> !r || tickled || NotBefore(KeyOf(objs, id), reported))
      ensures old(Alert()) && old(InTime()) && now >= old(clock) && now + old(objs)[id].ms < TWO64 ==> Alert()
      ensures old(InTime()) && now + old(objs)[id].ms < TWO64 ==> InTime()
    {
      var t := objs[id];
      if now >= clock { clock := now; }
      if t.cb.None? { return false; }
      if KeyOf(objs, id) !in keys { return false; }
      assert old(InTime()) ==> Started(objs, KeyOf(objs, id), old(clock));
      TakeAndChange(id, t.(next := Plus(now, t.ms)));
      Reinsert(id);
      r := true;
    }

    // Insertion without a look at the front, as refresh and the recurring timers do it. It keeps the promise when the
    // timer does not come before what was reported.
    method Reinsert(id: nat)
      requires Valid() && id in objs && KeyOf(objs, id) !in keys
      modifies this`keys
      ensures Valid() && forall k :: k in keys <==> k == KeyOf(objs, id) || k in old(keys)
    {
      InsertHas(keys, KeyOf(objs, id), written);
      InsertSorted(keys, KeyOf(objs, id), written);
      keys := Insert(keys, KeyOf(objs, id), written);
    }

    method Reset(id: nat, ms: Ms, fromNow: bool, now: Ms) returns (r: bool, atFront: bool)
      requires Valid() && id in objs
      modifies this
      ensures Valid() && reported == old(reported) && previousTime == old(previousTime)
      ensures clock == old(clock) || clock == Later(old(clock), now)
      ensures var same := ms == old(objs)[id].ms && !fromNow;
              r == (same || (old(objs)[id].cb.Some? && old(Has(id)))) &&
              if r && !same then
                objs == old(objs)[id := Restarted(old(objs)[id], ms, fromNow, now)] &&
                (forall k :: k in keys <==> k == KeyOf(objs, id) || (k in old(keys) && k.id != id)) &&
                keys != [] && atFront == (!old(tickled) && keys[0] == KeyOf(objs, id)) &&
                tickled == (old(tickled) || atFront)
              else objs == old(objs) && keys == old(keys) && !atFront && tickled == old(tickled)
      ensures var same := ms == old(objs)[id].ms && !fromNow;
              old(Alert()) ==> (Alert() <==> !r || same || tickled || NotBefore(KeyOf(objs, id), reported))
      ensures old(Alert()) && !written ==> Alert()
      ensures old(InTime()) && now >= old(clock) && now + ms < TWO64 ==> InTime()
    {
      var t := objs[id];
      if ms == t.ms && !fromNow { return true, false; }
      if t.cb.None? { return false, false; }
      if KeyOf(objs, id) !in keys { return false, false; }
      atFront := Restart(id, ms, fromNow, now);
      r := true;
    }

    // A timer in the set gets a new period.
    method Restart(id: nat, ms: Ms, fromNow: bool, now: Ms) returns (atFront: bool)
      requires Valid() && Has(id)
      modifies this
      ensures Valid() && reported == old(reported) && clock == Later(old(clock), now) &&
              previousTime == old(previousTime)
      ensures objs == old(objs)[id := Restarted(old(objs)[id], ms, fromNow, now)]
      ensures keys != [] && forall k :: k in keys <==> k == KeyOf(objs, id) || (k in old(keys) && k.id != id)
      ensures atFront == (!old(tickled) && keys[0] == KeyOf(objs, id)) && tickled == (old(tickled) || atFront)
      ensures old(Alert()) ==> (Alert() <==> tickled || NotBefore(KeyOf(objs, id), reported))
      ensures old(Alert()) && !written ==> Alert()
      ensures old(InTime()) && now >= old(clock) && now + ms < TWO64 ==> InTime()
    {
      assert old(InTime()) ==> Started(objs, KeyOf(objs, id), clock);
      if now >= clock { clock := now; }
      TakeAndChange(id, Restarted(objs[id], ms, fromNow, now));
      atFront := Put(id);
    }

    // A deadline changes only while its timer is out of the set.
    method TakeAndChange(id: nat, t: Timer)
      requires Valid() && Has(id)
      modifies this`keys, this`objs
      ensures Valid() && objs == old(objs)[id := t] && forall k :: k in keys <==> k in old(keys) && k.id != id
      ensures (old(Alert()) ==> Alert()) && (old(InTime()) ==> InTime())
    {
      Remove(id);
      objs := objs[id := t];
    }

    // ---------------------------------------------------------------- getNextTimer

    // The time to the deadline of the first timer of the set. With the documented order that is the earliest of all;
    // with the written one it is the one at the lowest address, and nobody sleeps past a timer exactly when that one is
    // due or the earliest.
    method GetNextTimer(now: Ms) returns (wait: Ms)
      requires Valid()
      modifies this`tickled, this`clock, this`reported
      ensures !tickled && clock == Later(old(clock), now)
      ensures keys == [] ==> wait == TWO64 - 1 && reported == None
      ensures keys != [] ==> wait == Remaining(keys[0], now) && reported == Some(keys[0].next)
      ensures keys != [] ==> if written then Lowest(keys, keys[0]) else Earliest(keys, keys[0])
      ensures keys != [] ==> ((forall k :: k in keys ==> wait <= Remaining(k, now)) <==>
                              keys[0].next <= now || Earliest(keys, keys[0]))
      ensures (Alert() <==> keys == [] || Earliest(keys, keys[0])) && (old(InTime()) ==> InTime())
    {
      tickled := false;
      if now >= clock { clock := now; }
      if keys == [] {
        reported := None;
        return TWO64 - 1;
      }
      if written { FirstIsLowest(keys); } else { FirstIsEarliest(keys); }
      reported := Some(keys[0].next);
      assert keys[0] in keys && Linked(objs, keys[0]);
      wait := if now > keys[0].next then 0 else keys[0].next - now;
    }

    // ---------------------------------------------------------------- listExpiredCb

    method DetectClockRollover(now: Ms) returns (r: bool)
      modifies this`previousTime
      ensures previousTime == now && r == Rollover(now, old(previousTime))
    {
      r := now < previousTime && now < Minus(previousTime, HOUR);
      RolloverIs(now, previousTime);
      previousTime := now;
    }

    // How many timers to take: lower_bound with a timer at any address, and the loop past those due just now.
    method CountExpired(now: Ms, address: nat) returns (it: nat)
      requires Sorted(keys, written)
      ensures it <= |keys|
      ensures forall i :: 0 <= i < |keys| ==> (i < it <==> Passed(keys, written, now, address, keys[i]))
    {
      var n := LowerBound(keys, Key(now, address), written);
      it := n;
      while it < |keys| && keys[it].next == now
        invariant n <= it <= |keys| && forall i :: n <= i < it ==> keys[i].next == now
      {
        it := it + 1;
      }
      if written { CountsByAddress(now, address, n, it); } else { CountsDue(now, address, n, it); }
    }

    lemma {:induction false} CountsDue(now: Ms, address: nat, n: nat, it: nat)
      requires Sorted(keys, false) && !written && n == LowerBound(keys, Key(now, address), false) <= it <= |keys|
      requires (forall i :: n <= i < it ==> keys[i].next == now) && (it < |keys| ==> keys[it].next != now)
      ensures forall i :: 0 <= i < |keys| ==> (i < it <==> Passed(keys, written, now, address, keys[i]))
    {
      if it < |keys| {
        assert n < it ==> Before(keys[n], keys[it], false);
        assert keys[it].next > now;
      }
      assert forall i :: it < i < |keys| ==> Before(keys[it], keys[i], false);
    }

    lemma {:induction false} CountsByAddress(now: Ms, address: nat, n: nat, it: nat)
      requires Sorted(keys, true) && written && n == LowerBound(keys, Key(now, address), true) <= it <= |keys|
      requires (forall i :: n <= i < it ==> keys[i].next == now) && (it < |keys| ==> keys[it].next != now)
      ensures forall i :: 0 <= i < |keys| ==> (i < it <==> Passed(keys, written, now, address, keys[i]))
    {
      forall i | 0 <= i < |keys| ensures i < it <==> Passed(keys, written, now, address, keys[i]) {
        assert n < i && n < |keys| ==> Before(keys[n], keys[i], true);
        if n <= i < it {
          forall x | x in keys && address <= x.id <= keys[i].id ensures x.next == now {
            var j :| 0 <= j < |keys| && keys[j] == x;
            assert j <= i;
          }
        } else if it <= i {
          assert keys[it] in keys && (it < i ==> Before(keys[it], keys[i], true)) &&
                 (n < it ==> Before(keys[n], keys[it], true));
        }
      }
    }

    // What happens to one timer that has run out.
    method Fire(id: nat, now: Ms) returns (cb: Option<nat>)
      requires Valid() && id in objs && forall k :: k in keys ==> k.id != id
      modifies this`objs, this`keys
      ensures Valid() && cb == old(objs)[id].cb && objs == old(objs)[id := Fired(old(objs)[id], now)]
      ensures forall k :: k in keys <==> k in old(keys) || (old(objs)[id].recurring && k == KeyOf(objs, id))
    {
      var t := objs[id];
      cb := t.cb;
      objs := objs[id := Fired(t, now)];
      if t.recurring { Reinsert(id); }
    }

    // `taken` is what leaves the set: with the documented order every timer that is due, with the written one exactly
    // these under a condition on addresses and deadlines; and every timer when the clock has been set back. Here too
    // the clock is read before the lock is taken.
    method ListExpired(now: Ms, address: nat) returns (cbs: seq<Option<nat>>, ghost taken: seq<Key>)
      requires Valid()
      modifies this
      ensures Valid() && Sorted(taken, written) && tickled == old(tickled) && reported == old(reported)
      ensures clock == Later(old(clock), now) && (previousTime == now || previousTime == old(previousTime))
      ensures forall k :: k in old(keys) ==>
                (k in taken <==> Rollover(now, old(previousTime)) || Leaves(old(keys), written, now, address, k))
      ensures !Rollover(now, old(previousTime)) ==>
                ((forall k :: k in old(keys) ==> (k in taken <==> k.next <= now)) <==>
                 TakesDue(old(keys), written, now, address))
      ensures Took(old(objs), old(keys), now, taken, cbs, objs, keys)
      ensures old(Alert()) ==>
                (Alert() <==> tickled || forall k :: Again(old(objs), IdsOf(taken), now, k) ==> NotBefore(k, reported))
      ensures old(Alert()) && old(InTime()) && NoWrap(old(objs), IdsOf(taken), now) ==>
                (now >= old(clock) ==> Alert()) &&
                (!Rollover(now, old(previousTime)) && TakesDue(old(keys), written, now, address) ==> Alert())
      ensures old(InTime()) && NoWrap(old(objs), IdsOf(taken), now) ==> InTime()
    {
      if now >= clock { clock := now; }
      ghost var objs0, keys0, previous := objs, keys, previousTime;
      cbs, taken := Expire(now, address);
      TakesDueIff(keys0, written, now, address);
      assert forall k :: k in taken ==> k in keys0;
      ghost var inTime := now >= old(clock) || (!Rollover(now, previous) && TakesDue(keys0, written, now, address));
      assert inTime ==> old(clock) <= now || forall k :: k in taken ==> k.next <= now;
      AlertAfter(objs0, keys0, taken, now, old(clock), tickled, reported, cbs, objs, keys, inTime);
    }

    // Under the lock: the timers are found, leave the set, and run.
    method Expire(now: Ms, address: nat) returns (cbs: seq<Option<nat>>, ghost taken: seq<Key>)
      requires Valid()
      modifies this`previousTime, this`objs, this`keys
      ensures Valid() && Sorted(taken, written) && (previousTime == now || previousTime == old(previousTime))
      ensures forall k :: k in old(keys) ==>
                (k in taken <==> Rollover(now, old(previousTime)) || Leaves(old(keys), written, now, address, k))
      ensures Took(old(objs), old(keys), now, taken, cbs, objs, keys)
    {
      var it := Due(now, address);
      taken := keys[..it];
      cbs := TakeOut(it, now);
    }

    // The first half of it: how many timers to take.
    method Due(now: Ms, address: nat) returns (it: nat)
      requires Valid()
      modifies this`previousTime
      ensures it <= |keys| && (previousTime == now || previousTime == old(previousTime))
      ensures forall k :: k in keys ==>
                (k in keys[..it] <==> Rollover(now, old(previousTime)) || Leaves(keys, written, now, address, k))
    {
      if keys == [] { return 0; }
      var rollover := DetectClockRollover(now);
      if !rollover && keys[0].next > now { return 0; }
      it := |keys|;
      if !rollover {
        it := CountExpired(now, address);
        forall k | k in keys ensures k in keys[..it] <==> Leaves(keys, written, now, address, k) {
          var i :| 0 <= i < |keys| && keys[i] == k;
          assert i < it ==> keys[..it][i] == k;
          if k in keys[..it] {
            var j :| 0 <= j < it && keys[j] == k;
            assert Passed(keys, written, now, address, keys[j]);
          }
        }
      }
    }

    // The timers before `it` leave the set, and run.
    method TakeOut(it: nat, now: Ms) returns (cbs: seq<Option<nat>>)
      requires Valid() && it <= |keys|
      modifies this`objs, this`keys
      ensures Valid() && Sorted(old(keys)[..it], written)
      ensures |cbs| == it && forall i :: 0 <= i < it ==> cbs[i] == CbOf(old(objs), old(keys)[i])
      ensures objs == FiredAll(old(objs), IdsOf(old(keys)[..it]), now)
      ensures forall k :: k in keys <==>
              (k in old(keys) && k !in old(keys)[..it]) || Again(old(objs), IdsOf(old(keys)[..it]), now, k)
      ensures forall k :: k in keys ==> k.id in old(objs)
    {
      var expired := keys[..it];
      Parted(it);
      keys := keys[it..];
      cbs := FireAll(expired, now);
    }

    lemma {:induction false} Parted(it: nat)
      requires Valid() && it <= |keys|
      ensures Sorted(keys[..it], written) && Sorted(keys[it..], written)
      ensures forall k :: k in keys <==> k in keys[..it] || k in keys[it..]
      ensures forall a, b :: a in keys[..it] && b in keys[it..] ==> a.id != b.id && a != b
    {
      assert keys == keys[..it] + keys[it..];
      forall a, b | a in keys[..it] && b in keys[it..] ensures a.id != b.id {
        var i :| 0 <= i < it && keys[i] == a;
        var j :| it <= j < |keys| && keys[j] == b;
        assert Before(keys[i], keys[j], written) && Linked(objs, a) && Linked(objs, b);
      }
    }

    // The loop over the timers taken out of the set.
    method FireAll(expired: seq<Key>, now: Ms) returns (cbs: seq<Option<nat>>)
      requires Valid() && Sorted(expired, written) && (forall k :: k in expired ==> Linked(objs, k))
      requires forall a, b :: a in expired && b in keys ==> a.id != b.id
      modifies this`objs, this`keys
      ensures Valid() && |cbs| == |expired| && forall i :: 0 <= i < |expired| ==> cbs[i] == CbOf(old(objs), expired[i])
      ensures objs == FiredAll(old(objs), IdsOf(expired), now)
      ensures forall k :: k in keys <==> k in old(keys) || Again(old(objs), IdsOf(expired), now, k)
    {
      cbs := [];
      ghost var objs0, keys0 := objs, keys;
      assert FiredAll(objs, IdsOf(expired[..0]), now) == objs;
      for i := 0 to |expired|
        invariant Valid() && |cbs| == i && forall j :: 0 <= j < i ==> cbs[j] == CbOf(objs0, expired[j])
        invariant objs == FiredAll(objs0, IdsOf(expired[..i]), now)
        invariant forall k :: k in keys <==> k in keys0 || Again(objs0, IdsOf(expired[..i]), now, k)
      {
        var id := expired[i].id;
        IdsNext(objs0, expired, i, written);
        assert expired[i] in expired && Linked(objs0, expired[i]);
        var cb := Fire(id, now);
        cbs := cbs + [cb];
      }
      assert expired[..|expired|] == expired;
    }
  }

  // What a call of listExpiredCb does to the promise.
  lemma {:induction false} AlertAfter(objs0: map<nat, Timer>, keys0: seq<Key>, taken: seq<Key>, now: Ms, clock0: nat,
                                      tickled: bool, reported: Option<nat>, cbs: seq<Option<nat>>,
                                      objs: map<nat, Timer>, keys: seq<Key>, inTime: bool)
    requires Took(objs0, keys0, now, taken, cbs, objs, keys) && forall k :: k in keys0 ==> Linked(objs0, k)
    requires inTime ==> clock0 <= now || forall k :: k in taken ==> k.next <= now
    ensures IsAlert(keys0, tickled, reported) ==>
              (IsAlert(keys, tickled, reported) <==>
               tickled || forall k :: Again(objs0, IdsOf(taken), now, k) ==> NotBefore(k, reported))
    ensures AllStarted(objs0, keys0, clock0) && NoWrap(objs0, IdsOf(taken), now) ==>
              AllStarted(objs, keys, Later(clock0, now)) &&
              (inTime && IsAlert(keys0, tickled, reported) ==> IsAlert(keys, tickled, reported))
  {
    if AllStarted(objs0, keys0, clock0) && NoWrap(objs0, IdsOf(taken), now) {
      StayStarted(objs0, keys0, taken, now, clock0, objs, keys);
      if inTime && IsAlert(keys0, tickled, reported) {
        StaysAlert(objs0, keys0, taken, now, clock0, tickled, reported, keys);
      }
    }
  }

  // What comes back comes back no earlier than it was, when the call comes in time or takes only due timers.
  lemma {:induction false} StaysAlert(objs0: map<nat, Timer>, keys0: seq<Key>, taken: seq<Key>, now: Ms, clock0: nat,
                                      tickled: bool, reported: Option<nat>, keys: seq<Key>)
    requires IsAlert(keys0, tickled, reported) && AllStarted(objs0, keys0, clock0) && taken <= keys0
    requires clock0 <= now || forall k :: k in taken ==> k.next <= now
    requires NoWrap(objs0, IdsOf(taken), now) && forall k :: k in keys0 ==> Linked(objs0, k)
    requires forall k :: k in keys <==> (k in keys0 && k !in taken) || Again(objs0, IdsOf(taken), now, k)
    ensures IsAlert(keys, tickled, reported)
  {
    forall k | k in keys ensures tickled || NotBefore(k, reported) {
      if Again(objs0, IdsOf(taken), now, k) {
        var was :| was in taken && was.id == k.id;
        assert was in keys0 && Linked(objs0, was) && Started(objs0, was, clock0);
        NoSumWraps(now, objs0[k.id].ms);
        assert tickled || NotBefore(was, reported);
      }
    }
  }

  lemma {:induction false} StayStarted(objs0: map<nat, Timer>, keys0: seq<Key>, taken: seq<Key>, now: Ms, clock0: nat,
                                       objs: map<nat, Timer>, keys: seq<Key>)
    requires AllStarted(objs0, keys0, clock0) && NoWrap(objs0, IdsOf(taken), now)
    requires objs == FiredAll(objs0, IdsOf(taken), now)
    requires forall k :: k in keys <==> (k in keys0 && k !in taken) || Again(objs0, IdsOf(taken), now, k)
    ensures AllStarted(objs, keys, Later(clock0, now))
  {
    forall k | k in keys ensures Started(objs, k, Later(clock0, now)) {
      if Again(objs0, IdsOf(taken), now, k) {
        NoSumWraps(now, objs0[k.id].ms);
      } else {
        assert Started(objs0, k, clock0) && k.id in objs && objs[k.id].ms == objs0[k.id].ms;
      }
    }
  }

  lemma {:induction false} NoSumWraps(now: Ms, ms: Ms)
    requires now + ms < TWO64
    ensures Plus(now, ms) == now + ms
  {
  }

  // `taken` left the set: each callback once and in order, one-shot timers give theirs away, exactly the recurring ones
  // come back at now plus their period, and no other timer changes.
  ghost predicate Took(objs0: map<nat, Timer>, keys0: seq<Key>, now: Ms, taken: seq<Key>, cbs: seq<Option<nat>>,
                       objs: map<nat, Timer>, keys: seq<Key>)
  {
    && taken <= keys0 && |cbs| == |taken| && (forall i :: 0 <= i < |taken| ==> cbs[i] == CbOf(objs0, taken[i]))
    && objs == FiredAll(objs0, IdsOf(taken), now)
    && forall k :: k in keys <==> (k in keys0 && k !in taken) || Again(objs0, IdsOf(taken), now, k)
  }

  // Nothing recurring among `ids` runs over the end of the clock.
  ghost predicate NoWrap(objs: map<nat, Timer>, ids: set<nat>, now: Ms) {
    forall id :: id in ids && id in objs && objs[id].recurring ==> now + objs[id].ms < TWO64
  }

  // The new period counts from now, or from the old start.
  function Restarted(t: Timer, ms: Ms, fromNow: bool, now: Ms): Timer {
    var start := if fromNow then now else Minus(t.next, t.ms);
    t.(ms := ms, next := Plus(start, ms))
  }

  // A recurring timer starts anew; another gives its callback away.
  function Fired(t: Timer, now: Ms): Timer {
    if t.recurring then t.(next := Plus(now, t.ms)) else t.(cb := None)
  }

  ghost function CbOf(objs: map<nat, Timer>, k: Key): Option<nat> { if k.id in objs then objs[k.id].cb else None }

  ghost function IdsOf(ks: seq<Key>): set<nat> { set k | k in ks :: k.id }

  ghost function FiredAll(objs: map<nat, Timer>, ids: set<nat>, now: Ms): map<nat, Timer> {
    map id | id in objs :: if id in ids then Fired(objs[id], now) else objs[id]
  }

  // The new place of a recurring timer that has run out.
  ghost predicate Again(objs: map<nat, Timer>, ids: set<nat>, now: Ms, k: Key) {
    k.id in ids && k.id in objs && objs[k.id].recurring && k.next == Plus(now, objs[k.id].ms)
  }

  lemma {:induction false} IdsNext(objs: map<nat, Timer>, ks: seq<Key>, i: nat, written: bool)
    requires i < |ks| && Sorted(ks, written) && forall k :: k in ks ==> Linked(objs, k)
    ensures ks[i].id !in IdsOf(ks[..i]) && IdsOf(ks[..i + 1]) == IdsOf(ks[..i]) + {ks[i].id}
  {
    assert ks[..i + 1] == ks[..i] + [ks[i]];
    assert Linked(objs, ks[i]);
    forall k | k in ks[..i] ensures k.id != ks[i].id {
      var j :| 0 <= j < i && ks[j] == k;
      assert Before(ks[j], ks[i], written) && Linked(objs, k);
    }
  }

  // The clock has gone back by more than an hour; the unsigned difference makes any step back count in the first hour.
  ghost predicate Rollover(now: Ms, previous: Ms) {
    now < previous && (previous < HOUR || now < previous - HOUR)
  }

  lemma {:induction false} RolloverIs(now: Ms, previous: Ms)
    ensures Rollover(now, previous) <==> now < previous && now < Minus(previous, HOUR)
  {
  }

  // ---------------------------------------------------------------- runs

  datatype Call =
    | Add(ms: Ms, cb: Option<nat>, recurring: bool)
    | Cancel(id: nat)
    | Refresh(id: nat)
    | Reset(id: nat, ms: Ms, fromNow: bool)
    | Next
    | Expire(address: nat)

  // The time that a call has read, after a call that had read `before`. Most calls read the clock under the lock, so
  // with a clock that does not go back their times come in order. addTimer and listExpiredCb read it before they wait
  // for the lock, and may lag behind: the one by any time, the other by less than an hour and not in the clock's first
  // hour, which tells a late call from a clock set back.
  ghost predicate Follows(call: Call, before: nat, now: Ms) {
    match call
    case Add(_, _, _) => true
    case Expire(_) => before <= now || HOUR <= before < now + HOUR
    case _ => before <= now
  }

  // Calls in such an order, and periods below `period`, which no time is so late that it wraps.
  ghost predicate Calm(calls: seq<Call>, times: seq<Ms>, period: nat) {
    && |calls| == |times|
    && (forall i :: 0 <= i < |times| ==> times[i] + period <= TWO64)
    && (forall i, j :: 0 <= i < j < |times| ==> Follows(calls[j], times[i], times[j]))
    && (forall i :: 0 <= i < |calls| ==> (calls[i].Add? || calls[i].Reset?) ==> calls[i].ms < period)
  }

  ghost predicate Running(m: TimerManager, period: nat, unused: nat)
    reads m
  {
    && !m.written && m.Valid() && m.Alert() && m.InTime()
    && forall id :: id in m.objs ==> id < unused && m.objs[id].ms < period
  }

  // After what the manager has seen.
  ghost predicate Timely(m: TimerManager, call: Call, now: Ms)
    reads m
  {
    Follows(call, m.clock, now) && Follows(call, m.previousTime, now)
  }

  // Any run of calls, in the order of their critical sections, with the documented order: the set stays in order and
  // nobody sleeps past a timer. Calls on timers that were never made, and a second cancel, are skipped.
  method Drive(m: TimerManager, calls: seq<Call>, times: seq<Ms>, period: nat, unused0: nat)
    requires Running(m, period, unused0) && Calm(calls, times, period)
    requires forall i :: 0 <= i < |calls| ==> Timely(m, calls[i], times[i])
    modifies m
    ensures m.Valid() && m.Alert()
  {
    var unused := unused0;
    for i := 0 to |calls|
      invariant Running(m, period, unused)
      invariant forall j :: i <= j < |calls| ==> Timely(m, calls[j], times[j])
    {
      ghost var clock, previous := m.clock, m.previousTime;
      unused := One(m, calls[i], times[i], period, unused);
      forall j | i + 1 <= j < |calls| ensures Timely(m, calls[j], times[j]) {
        assert Follows(calls[j], clock, times[j]) && Follows(calls[j], previous, times[j]);
        assert Follows(calls[j], times[i], times[j]);
      }
    }
  }

  method One(m: TimerManager, call: Call, now: Ms, period: nat, unused0: nat) returns (unused: nat)
    requires Running(m, period, unused0) && Timely(m, call, now) && now + period <= TWO64
    requires (call.Add? || call.Reset?) ==> call.ms < period
    modifies m
    ensures Running(m, period, unused) && (m.clock == old(m.clock) || m.clock == now)
    ensures m.previousTime == old(m.previousTime) || m.previousTime == now
  {
    unused := unused0;
    match call
    case Add(ms, cb, recurring) =>
      var front := m.AddTimer(unused, ms, cb, recurring, now);
      unused := unused + 1;
    case Cancel(id) =>
      if id in m.objs && (m.objs[id].cb.None? || KeyOf(m.objs, id) in m.keys) {
        var r := m.Cancel(id);
      }
    case Refresh(id) =>
      if id in m.objs { var r := m.Refresh(id, now); }
    case Reset(id, ms, fromNow) =>
      if id in m.objs { var r, front := m.Reset(id, ms, fromNow, now); }
    case Next => var wait := m.GetNextTimer(now);
    case Expire(address) =>
      assert now >= m.clock || !Rollover(now, m.previousTime);
      var cbs, taken := m.ListExpired(now, address);
  }

  // Beyond these bounds it goes wrong. A refresh whose deadline wraps puts its timer before what was reported, and
  // wakes nobody.
  method RefreshWraps(ms: Ms, now: Ms, later: Ms) returns (m: TimerManager)
    requires now + ms < TWO64 <= later + ms && now <= later
    ensures fresh(m) && !m.written && m.Valid() && !m.Alert()
  {
    m := new TimerManager(false, now);
    var woken := m.AddTimer(10, ms, Some(0), false, now);
    assert Key(now + ms, 10) in m.keys;
    var wait := m.GetNextTimer(now);
    var r := m.Refresh(10, later);
    assert KeyOf(m.objs, 10) in m.keys;
  }

  // In the first hour a late listExpiredCb takes the clock for set back: a timer that is not due leaves, and comes back
  // before what was reported.
  method LateInFirstHour(ms: Ms, now: Ms) returns (m: TimerManager)
    requires 0 < now < HOUR && 0 < ms && now + ms < TWO64
    ensures fresh(m) && !m.written && m.Valid() && !m.Alert()
  {
    m := new TimerManager(false, now);
    var woken := m.AddTimer(10, ms, Some(0), true, now);
    var k := Key(now + ms, 10);
    assert k in m.keys;
    var wait := m.GetNextTimer(now);
    ghost var objs := m.objs;
    var cbs, taken := m.ListExpired(now - 1, 0);
    assert k in taken && Again(objs, IdsOf(taken), now - 1, Key(now - 1 + ms, 10));
  }

  // With the written order a run goes wrong at once: a sleeper told to wait for a timer at a low address is not woken
  // for an earlier one at a higher address.
  method Oversleeps(now: Ms) returns (m: TimerManager, wait: Ms)
    requires now + 200 < TWO64
    ensures fresh(m) && m.written && m.Valid() && !m.Alert()
    ensures wait == 200 && !m.tickled && Key(now + 100, 20) in m.keys
  {
    m := new TimerManager(true, now);
    var woken := m.AddTimer(10, 200, Some(0), false, now);
    wait := m.GetNextTimer(now);
    woken := m.AddTimer(20, 100, Some(1), false, now);
    assert Key(now + 200, 10) in m.keys && Lowest(m.keys, m.keys[0]) by { FirstIsLowest(m.keys); }
  }

  // And a timer runs fifty milliseconds before it is due, although the addresses lie in the order of the deadlines.
  method RunsTooEarly(now: Ms) returns (m: TimerManager, cbs: seq<Option<nat>>, ghost taken: seq<Key>)
    requires now + 200 < TWO64
    ensures fresh(m) && m.written && |cbs| == |taken| && Key(now + 200, 20) in taken
  {
    m := new TimerManager(true, now);
    var woken := m.AddTimer(10, 100, Some(0), false, now);
    woken := m.AddTimer(20, 200, Some(1), false, now);
    var early, late := Key(now + 100, 10), Key(now + 200, 20);
    assert early in m.keys && late in m.keys && m.keys[0] in m.keys;
    FirstIsLowest(m.keys);
    assert Leaves(m.keys, true, now + 150, 30, late);
    cbs, taken := m.ListExpired(now + 150, 30);
  }
}
