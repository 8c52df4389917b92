/** The millisecond timer list with lazy deletion.

    A timer is added valid at the back of the list; deleting it only marks
    it invalid and clears it; a scan walks the list once, drops invalid
    timers, hands expired ones to the timeout channel and keeps the rest.
    The clock is the scan's `now` parameter and the timeout channel is the
    sequence `timerOutChan` of the timers sent to it. */
module Timer {

  /** An opaque Go `interface{}` or function value; `Nil` is Go's nil. */
  datatype Ref = Nil | Ref(id: nat)

  /** One millisecond timer (Go's `Millisecond`). */
  class Millisecond {
    var arg: Ref
    var callback: Ref   // the Go field `Function`
    var expire: int     // expiry time in milliseconds
    var valid: bool     // false: will be dropped by the next scan

    constructor (callback: Ref, arg: Ref, expire: int)
      ensures this.arg == arg && this.callback == callback
      ensures this.expire == expire && valid
    {
      this.arg := arg;
      this.callback := callback;
      this.expire := expire;
      valid := true;
    }

    /** Whether the timer still fires. */
    function IsValid(): (b: bool)
      reads this
      ensures b == valid
    {
      valid
    }

    /** Marks the timer invalid and clears it (Go's `inValid`). The new state
        does not depend on the old one, so a second call changes nothing. */
    method Invalidate()
      modifies this
      ensures !valid && arg == Nil && callback == Nil && expire == 0
    {
      valid := false;
      arg := Nil;
      callback := Nil;
      expire := 0;
    }
  }

  /** Deletes a timer lazily: it stays in the list until the next scan. */
  method DelMillisecond(t: Millisecond)
    modifies t
    ensures !t.valid && t.arg == Nil && t.callback == Nil && t.expire == 0
  {
    t.Invalidate();
  }

  /** What a scan reads of one listed timer: the timer and its fields. */
  datatype Entry = Entry(timer: Millisecond, valid: bool, expire: int)

  /** The list as the scan sees it. */
  function Entries(s: seq<Millisecond>): (es: seq<Entry>)
    reads s
    ensures |es| == |s|
    ensures forall k :: 0 <= k < |s| ==> es[k] == Entry(s[k], s[k].valid, s[k].expire)
  {
    seq(|s|, k reads s requires 0 <= k < |s| => Entry(s[k], s[k].valid, s[k].expire))
  }

  /** A timer that a scan at `now` hands to the timeout channel. */
  predicate Fires(e: Entry, now: int)
  {
    e.valid && e.expire <= now
  }

  /** A timer that a scan at `now` keeps in the list. */
  predicate Waits(e: Entry, now: int)
  {
    e.valid && now < e.expire
  }

  /** The timers that fire at `now`, in list order. */
  function Expired(es: seq<Entry>, now: int): (ts: seq<Millisecond>)
  {
    if es == [] then []
    else Expired(es[..|es| - 1], now) + (if Fires(es[|es| - 1], now) then [es[|es| - 1].timer] else [])
  }

  /** The timers that stay in the list after a scan at `now`, in list order. */
  function Pending(es: seq<Entry>, now: int): (ts: seq<Millisecond>)
  {
    if es == [] then []
    else Pending(es[..|es| - 1], now) + (if Waits(es[|es| - 1], now) then [es[|es| - 1].timer] else [])
  }

  /** The invalid timers, which a scan drops without firing them. */
  function Dropped(es: seq<Entry>): (ts: seq<Millisecond>)
  {
    if es == [] then []
    else Dropped(es[..|es| - 1]) + (if !es[|es| - 1].valid then [es[|es| - 1].timer] else [])
  }

  /** Exactly the valid timers with `expire <= now` fire (the bound is
      inclusive), and no invalid timer does. */
  lemma {:induction false} ExpiredExactly(es: seq<Entry>, now: int)
    ensures forall k :: 0 <= k < |es| && Fires(es[k], now) ==> es[k].timer in Expired(es, now)
    ensures forall t :: t in Expired(es, now) ==> exists k :: 0 <= k < |es| && es[k].timer == t && Fires(es[k], now)
  {
    if es != [] {
      var init := es[..|es| - 1];
      ExpiredExactly(init, now);
      forall t | t in Expired(es, now)
        ensures exists k :: 0 <= k < |es| && es[k].timer == t && Fires(es[k], now)
      {
        if t in Expired(init, now) {
          var k :| 0 <= k < |init| && init[k].timer == t && Fires(init[k], now);
          assert es[k] == init[k];
        } else {
          assert es[|es| - 1].timer == t;
        }
      }
      forall k | 0 <= k < |es| && Fires(es[k], now)
        ensures es[k].timer in Expired(es, now)
      {
        if k < |init| {
          assert init[k] == es[k];
        }
      }
    }
  }

  /** Exactly the valid timers with `now < expire` stay; in particular no
      invalid timer survives a scan. */
  lemma {:induction false} PendingExactly(es: seq<Entry>, now: int)
    ensures forall k :: 0 <= k < |es| && Waits(es[k], now) ==> es[k].timer in Pending(es, now)
    ensures forall t :: t in Pending(es, now) ==> exists k :: 0 <= k < |es| && es[k].timer == t && Waits(es[k], now)
  {
    if es != [] {
      var init := es[..|es| - 1];
      PendingExactly(init, now);
      forall t | t in Pending(es, now)
        ensures exists k :: 0 <= k < |es| && es[k].timer == t && Waits(es[k], now)
      {
        if t in Pending(init, now) {
          var k :| 0 <= k < |init| && init[k].timer == t && Waits(init[k], now);
          assert es[k] == init[k];
        } else {
          assert es[|es| - 1].timer == t;
        }
      }
      forall k | 0 <= k < |es| && Waits(es[k], now)
        ensures es[k].timer in Pending(es, now)
      {
        if k < |init| {
          assert init[k] == es[k];
        }
      }
    }
  }

  /** A scan accounts for every timer: kept, fired or dropped. */
  lemma {:induction false} ScanPartitions(es: seq<Entry>, now: int)
    ensures |es| == |Pending(es, now)| + |Expired(es, now)| + |Dropped(es)|
  {
    if es != [] {
      ScanPartitions(es[..|es| - 1], now);
    }
  }

  /** Visiting one more timer extends the kept and fired timers by at most it. */
  lemma ScanStep(es: seq<Entry>, k: nat, now: int)
    requires k < |es|
    ensures Pending(es[..k + 1], now) == Pending(es[..k], now) + (if Waits(es[k], now) then [es[k].timer] else [])
    ensures Expired(es[..k + 1], now) == Expired(es[..k], now) + (if Fires(es[k], now) then [es[k].timer] else [])
  {
    assert es[..k + 1][..k] == es[..k];
  }

  /** The cursor at position |kept| of `kept + rest` stands on the head of `rest`. */
  lemma CursorSplit(l: seq<Millisecond>, kept: seq<Millisecond>, rest: seq<Millisecond>)
    requires l == kept + rest && rest != []
    ensures l[|kept|] == rest[0]
    ensures l == (kept + [rest[0]]) + rest[1..]
    ensures l[..|kept|] + l[|kept| + 1..] == kept + rest[1..]
  {
    assert l[..|kept|] == kept;
    assert l[|kept| + 1..] == rest[1..];
  }

  /** The timer manager's millisecond list and its timeout channel. */
  class TimerMgr {
    var millisecondList: seq<Millisecond>
    var timerOutChan: seq<Millisecond>   // every timer sent to the channel so far

    constructor ()
      ensures millisecondList == [] && timerOutChan == []
    {
      millisecondList := [];
      timerOutChan := [];
    }

    /** Appends a new valid timer at the back of the list and returns it. */
    method AddMillisecond(cb: Ref, arg: Ref, expireMillisecond: int) returns (t: Millisecond)
      modifies this`millisecondList
      ensures fresh(t)
      ensures t.valid && t.callback == cb && t.arg == arg && t.expire == expireMillisecond
      ensures millisecondList == old(millisecondList) + [t]
    {
      t := new Millisecond(cb, arg, expireMillisecond);
      millisecondList := millisecondList + [t];
    }

    /** Handles the timer under the cursor, which stands at the head of `rest`
        after the timers already kept, `e` being what the scan reads of it:
        drops it when invalid, sends and unlinks it when expired, otherwise
        steps past it. */
    method Visit(i: nat, now: int, ghost e: Entry, ghost kept: seq<Millisecond>, ghost rest: seq<Millisecond>)
      returns (next: nat)
      requires millisecondList == kept + rest && i == |kept| && rest != []
      requires e == Entry(rest[0], rest[0].valid, rest[0].expire)
      modifies this`millisecondList, this`timerOutChan
      ensures var stays := if Waits(e, now) then [e.timer] else [];
        && millisecondList == (kept + stays) + rest[1..]
        && next == |kept + stays|
      ensures timerOutChan == old(timerOutChan) + (if Fires(e, now) then [e.timer] else [])
    {
      CursorSplit(millisecondList, kept, rest);
      var t := millisecondList[i];
      if !t.IsValid() {
        millisecondList := millisecondList[..i] + millisecondList[i + 1..];
        return i;
      }
      if t.expire <= now {
        timerOutChan := timerOutChan + [t];
        millisecondList := millisecondList[..i] + millisecondList[i + 1..];
        return i;
      }
      return i + 1;
    }

    /** One pass over the list at time `now`, removing entries under the cursor. */
    method ScanMillisecond(now: int)
      modifies this`millisecondList, this`timerOutChan
      ensures millisecondList == Pending(old(Entries(millisecondList)), now)
      ensures timerOutChan == old(timerOutChan) + Expired(old(Entries(millisecondList)), now)
    {
      ghost var list, sent := millisecondList, timerOutChan;
      ghost var es := Entries(list);
      ghost var done := 0;   // entries of the original list already visited
      ghost var kept: seq<Millisecond> := [];
      ghost var fired: seq<Millisecond> := [];
      var i := 0;            // position of the cursor in the current list
      while i < |millisecondList|
        invariant 0 <= done <= |list| && unchanged(list)
        invariant kept == Pending(es[..done], now) && fired == Expired(es[..done], now)
        invariant millisecondList == kept + list[done..] && i == |kept|
        invariant timerOutChan == sent + fired
        decreases |millisecondList| - i
      {
        ghost var e := es[done];
        ghost var stays := if Waits(e, now) then [e.timer] else [];
        ghost var fires := if Fires(e, now) then [e.timer] else [];
        assert list[done..][1..] == list[done + 1..];
        i := Visit(i, now, e, kept, list[done..]);
        ScanStep(es, done, now);
        kept, fired := kept + stays, fired + fires;
        done := done + 1;
      }
      assert es[..done] == es;
    }
  }
}
