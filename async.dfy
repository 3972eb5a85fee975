/**
 * The async wakeup handles of src/unix/async.c.
 *
 * A handle's `pending` field moves between three values and is only ever
 * changed by compare-and-swap.  Other threads call `uv_async_send`; the loop
 * thread runs `uv__async_io` when the loop's eventfd is readable.  The model is
 * sequential: each atomic step of a sender is a method of its own, and the
 * loop thread's pass is a sequence of turns (`BeginPass`, then `Visit` until
 * the local queue is empty), so a whole `uv_async_send` may come before any
 * turn; a sender that is only part way through is the one `Spin` waits for.
 * The `stage` of a handle records where its one in-flight sender (the winner
 * of the 0 to 1 swap) has got to; the readable eventfd is the flag
 * `wakeupPosted`.
 */
module Async {
  import opened Common
  import opened Queue

  /** `handle->pending`: 0 not pending, 1 a sender is busy with it, 2 pending and posted. */
  datatype Pending = Idle | Busy | Ready

  /** The integer the source stores for each state. */
  function Code(p: Pending): (c: int)
    ensures 0 <= c <= 2
    ensures c == 0 <==> p == Idle
    ensures c == 2 <==> p == Ready
  {
    match p
    case Idle => 0
    case Busy => 1
    case Ready => 2
  }

  /** How far the single sender that won the 0 to 1 swap has got. */
  datatype Stage = NoSender | Claimed | Posted

  /** The steps the in-flight sender still has to take. */
  function StepsLeft(st: Stage): nat
  {
    match st
    case NoSender => 0
    case Claimed => 2
    case Posted => 1
  }

  /** Every handle in `s` has a `pending` value and a callback slot. */
  predicate Known(s: seq<int>, pending: map<int, Pending>, cb: map<int, Option<Callback>>)
  {
    forall i :: 0 <= i < |s| ==> s[i] in pending && s[i] in cb
  }

  /**
   * The handles whose callback one `uv__async_io` pass over `s` runs: those
   * that were pending (in any non-zero state) and have a callback, in order.
   */
  function Fired(s: seq<int>, pending: map<int, Pending>, cb: map<int, Option<Callback>>): seq<int>
    requires Known(s, pending, cb)
  {
    if s == [] then []
    else (if pending[s[0]] != Idle && cb[s[0]].Some? then [s[0]] else []) + Fired(s[1..], pending, cb)
  }

  /** A handle's callback runs in a pass exactly when it was queued, pending and has a callback. */
  lemma {:induction false} FiredMembers(s: seq<int>, pending: map<int, Pending>, cb: map<int, Option<Callback>>, x: int)
    requires Known(s, pending, cb)
    ensures x in Fired(s, pending, cb) <==> x in s && pending[x] != Idle && cb[x].Some?
  {
    if s != [] {
      FiredMembers(s[1..], pending, cb, x);
    }
  }

  /** No callback runs twice in one pass, however many sends came before it. */
  lemma {:induction false} FiredOnce(s: seq<int>, pending: map<int, Pending>, cb: map<int, Option<Callback>>)
    requires Known(s, pending, cb)
    requires Distinct(s)
    ensures Distinct(Fired(s, pending, cb))
  {
    if s != [] {
      var t := s[1..];
      assert Distinct(t) by {
        forall i, j | 0 <= i < j < |t|
          ensures t[i] != t[j]
        {
          assert t[i] == s[i + 1] && t[j] == s[j + 1];
        }
      }
      FiredOnce(t, pending, cb);
      var f := Fired(t, pending, cb);
      if pending[s[0]] != Idle && cb[s[0]].Some? {
        assert s[0] !in t by {
          forall i | 0 <= i < |t|
            ensures t[i] != s[0]
          {
            assert t[i] == s[i + 1];
          }
        }
        FiredMembers(t, pending, cb, s[0]);
        var g := [s[0]] + f;
        forall i, j | 0 <= i < j < |g|
          ensures g[i] != g[j]
        {
          if i == 0 {
            assert g[j] == f[j - 1];
          } else {
            assert g[i] == f[i - 1] && g[j] == f[j - 1];
          }
        }
      } else {
        assert Fired(s, pending, cb) == f;
      }
    }
  }

  /** The pass over a longer prefix fires what the shorter one fired, then possibly the new handle. */
  lemma {:induction false} FiredSnoc(s: seq<int>, x: int, pending: map<int, Pending>, cb: map<int, Option<Callback>>)
    requires Known(s, pending, cb)
    requires x in pending && x in cb
    ensures Known(s + [x], pending, cb)
    ensures Fired(s + [x], pending, cb) ==
            Fired(s, pending, cb) + (if pending[x] != Idle && cb[x].Some? then [x] else [])
  {
    KnownSnoc(s, x, pending, cb);
    var u := s + [x];
    if s == [] {
      assert u[0] == x && u[1..] == [];
    } else {
      var t := s[1..];
      assert u[0] == s[0] && u[1..] == t + [x];
      KnownTail(s, pending, cb);
      FiredSnoc(t, x, pending, cb);
    }
  }

  lemma KnownSnoc(s: seq<int>, x: int, pending: map<int, Pending>, cb: map<int, Option<Callback>>)
    requires Known(s, pending, cb) && x in pending && x in cb
    ensures Known(s + [x], pending, cb)
  {
    var u := s + [x];
    forall i | 0 <= i < |u|
      ensures u[i] in pending && u[i] in cb
    {
      if i < |s| {
        assert u[i] == s[i];
      }
    }
  }

  lemma KnownTail(s: seq<int>, pending: map<int, Pending>, cb: map<int, Option<Callback>>)
    requires Known(s, pending, cb) && s != []
    ensures Known(s[1..], pending, cb)
  {
    var t := s[1..];
    forall i | 0 <= i < |t|
      ensures t[i] in pending && t[i] in cb
    {
      assert t[i] == s[i + 1];
    }
  }

  /**
   * The per-handle state of every async handle of one loop, and the loop's
   * eventfd readiness.  Senders only ever touch this object, never the queue.
   */
  class Handles {
    /** Handles whose active flag is set. */
    var active: set<int>
    /** `handle->pending` of every initialised handle. */
    var pending: map<int, Pending>
    /** `handle->async_cb` of every initialised handle; `None` is NULL. */
    var cb: map<int, Option<Callback>>
    /** Where each handle's in-flight sender stands: the program counter of the thread that won the 0 to 1 swap. */
    var stage: map<int, Stage>
    /** The eventfd has an unread count, so the loop will see it readable. */
    var wakeupPosted: bool

    /** Only a sender that won the 0 to 1 swap holds a handle busy, and closed handles are idle. */
    ghost predicate Coherent()
      reads this
    {
      active <= pending.Keys && pending.Keys == cb.Keys && pending.Keys == stage.Keys &&
      (forall x :: x in pending ==> (pending[x] == Busy <==> stage[x] != NoSender)) &&
      (forall x :: x in pending && x !in active ==> pending[x] == Idle)
    }

    /** No lost wakeup: a handle that is pending, or whose sender has written, has the eventfd readable. */
    ghost predicate NoLostWakeup()
      reads this
    {
      forall x :: x in pending && x in stage ==> (pending[x] == Ready || stage[x] == Posted) ==> wakeupPosted
    }

    ghost predicate Valid()
      reads this
    {
      Coherent() && NoLostWakeup()
    }

    constructor ()
      ensures Valid() && active == {} && pending == map[] && cb == map[] && stage == map[] && !wakeupPosted
    {
      active := {};
      pending := map[];
      cb := map[];
      stage := map[];
      wakeupPosted := false;
    }

    /** The handle part of uv_async_init: callback `f`, `pending` 0, active. */
    method Register(h: int, f: Option<Callback>)
      requires Valid() && h !in active
      modifies this
      ensures Valid()
      ensures active == old(active) + {h} && pending == old(pending)[h := Idle] && cb == old(cb)[h := f]
      ensures stage == old(stage)[h := NoSender] && wakeupPosted == old(wakeupPosted)
    {
      cb := cb[h := f];
      pending := pending[h := Idle];
      stage := stage[h := NoSender];
      active := active + {h};
    }

    /** uv__handle_stop on a handle whose `pending` has settled. */
    method Deactivate(h: int)
      requires Valid() && h in pending && pending[h] == Idle
      modifies this
      ensures Valid()
      ensures active == old(active) - {h}
      ensures pending == old(pending) && cb == old(cb) && stage == old(stage) && wakeupPosted == old(wakeupPosted)
    {
      active := active - {h};
    }

    /**
     * The first half of uv_async_send: the cheap read and the 0 to 1 swap.
     * Exactly one caller wins while the handle is not pending; everyone
     * else returns without effect.
     */
    method SendClaim(h: int) returns (won: bool)
      requires Coherent() && h in active
      modifies this
      ensures Coherent()
      ensures old(NoLostWakeup()) ==> NoLostWakeup()
      ensures won <==> old(pending[h]) == Idle
      ensures won ==> pending == old(pending)[h := Busy] && stage == old(stage)[h := Claimed]
      ensures !won ==> pending == old(pending) && stage == old(stage)
      ensures active == old(active) && cb == old(cb) && wakeupPosted == old(wakeupPosted)
    {
      if pending[h] != Idle {
        return false;
      }
      won := true;
      pending := pending[h := Busy];
      stage := stage[h := Claimed];
    }

    /** uv__async_send by the winner: the write to the eventfd makes it readable. */
    method SendPost(h: int)
      requires Coherent() && h in stage && stage[h] == Claimed
      modifies this
      ensures Coherent()
      ensures old(NoLostWakeup()) ==> NoLostWakeup()
      ensures wakeupPosted && stage == old(stage)[h := Posted]
      ensures pending == old(pending) && active == old(active) && cb == old(cb)
    {
      wakeupPosted := true;
      stage := stage[h := Posted];
    }

    /** The winner's 1 to 2 swap; it always finds 1, so the abort is unreachable. */
    method SendFinish(h: int)
      requires Coherent() && h in stage && stage[h] == Posted
      modifies this
      ensures Coherent()
      ensures old(NoLostWakeup()) ==> NoLostWakeup()
      ensures pending == old(pending)[h := Ready] && stage == old(stage)[h := NoSender]
      ensures active == old(active) && cb == old(cb) && wakeupPosted == old(wakeupPosted)
    {
      var seen := Code(pending[h]);
      assert seen == 1;
      pending := pending[h := Ready];
      stage := stage[h := NoSender];
    }

    /**
     * uv_async_send: the claim, the write and the final swap.  A handle
     * already pending, or held by another sender, is left to that sender;
     * an idle one ends pending with the wakeup posted.
     */
    method Send(h: int) returns (r: int)
      requires Coherent() && h in active
      modifies this
      ensures Coherent() && r == 0
      ensures old(NoLostWakeup()) ==> NoLostWakeup()
      ensures old(pending[h]) != Idle ==> pending == old(pending) && wakeupPosted == old(wakeupPosted)
      ensures old(pending[h]) == Idle ==> pending == old(pending)[h := Ready] && wakeupPosted
      ensures stage == old(stage) && active == old(active) && cb == old(cb)
    {
      r := 0;
      ghost var p, st := pending, stage;
      var won := SendClaim(h);
      if !won {
        return;
      }
      SendPost(h);
      SendFinish(h);
      assert pending == p[h := Busy][h := Ready] == p[h := Ready];
      assert stage == st[h := Claimed][h := Posted][h := NoSender] == st;
    }

    /** One step of the sender that holds `h`, taken while the loop thread spins. */
    method SenderStep(h: int)
      requires Coherent() && h in stage && stage[h] != NoSender
      modifies this
      ensures Coherent()
      ensures old(NoLostWakeup()) ==> NoLostWakeup()
      ensures old(stage[h]) == Claimed ==> pending == old(pending) && stage == old(stage)[h := Posted] && wakeupPosted
      ensures old(stage[h]) == Posted ==>
                pending == old(pending)[h := Ready] && stage == old(stage)[h := NoSender] &&
                wakeupPosted == old(wakeupPosted)
      ensures active == old(active) && cb == old(cb)
    {
      if stage[h] == Claimed {
        wakeupPosted := true;
        stage := stage[h := Posted];
      } else {
        pending := pending[h := Ready];
        stage := stage[h := NoSender];
      }
    }

    /**
     * uv__async_spin: swaps 2 to 0 until the swap does not find 1, letting
     * the in-flight sender move on meanwhile.  Returns 2 exactly when the
     * handle was pending; afterwards it is idle with no sender.
     */
    method Spin(h: int) returns (rc: int)
      requires Coherent() && h in pending
      modifies this
      ensures Coherent()
      ensures rc == (if old(pending[h]) == Idle then 0 else 2)
      ensures pending == old(pending)[h := Idle] && stage == old(stage)[h := NoSender]
      ensures wakeupPosted == (old(wakeupPosted) || old(stage[h]) == Claimed)
      ensures old(NoLostWakeup()) ==> NoLostWakeup()
      ensures active == old(active) && cb == old(cb)
    {
      while true
        invariant Coherent() && h in pending
        invariant pending == old(pending)[h := pending[h]] && stage == old(stage)[h := stage[h]]
        invariant old(pending[h]) == Idle <==> pending[h] == Idle
        invariant old(stage[h]) == NoSender ==> stage[h] == NoSender
        invariant old(stage[h]) == Posted ==> stage[h] != Claimed
        invariant wakeupPosted == (old(wakeupPosted) || (old(stage[h]) == Claimed && stage[h] != Claimed))
        invariant old(NoLostWakeup()) ==> NoLostWakeup()
        invariant active == old(active) && cb == old(cb)
        decreases 2 * StepsLeft(stage[h]) + (if pending[h] == Ready then 1 else 0)
      {
        rc := Code(pending[h]);
        if pending[h] == Ready {
          pending := pending[h := Idle];
        }
        if rc != 1 {
          return;
        }
        SenderStep(h);
      }
    }

    /** The eventfd read loop of uv__async_io consumes the whole count. */
    method Drain()
      requires Coherent()
      modifies this
      ensures Coherent() && !wakeupPosted
      ensures active == old(active) && pending == old(pending) && cb == old(cb) && stage == old(stage)
    {
      wakeupPosted := false;
    }
  }

  class AsyncLoop {
    /** The link slots of `loop->async_handles` and of every handle. */
    const arena: Arena
    /** The sentinel `loop->async_handles`. */
    const head: int
    /** The local `queue` of `uv__async_io`. */
    const scratch: int
    /** The state of the loop's handles. */
    const hs: Handles

    /** `loop->async_io_watcher.fd`; -1 before `uv__async_start`. */
    var fd: int
    /** `loop->async_wfd`; always -1 on Linux, where the eventfd serves both ends. */
    var wfd: int
    /** The I/O watcher is started for POLLIN. */
    var watching: bool

    predicate IsHandle(h: int)
    {
      0 <= h < arena.N && h != head && h != scratch
    }

    /** Every queued handle is on `async_handles`. */
    ghost predicate QueueOk()
      reads this, arena, arena.next, arena.prev
    {
      arena.Valid() &&
      0 <= head < arena.N && 0 <= scratch < arena.N && head != scratch &&
      head in arena.lists && arena.lists.Keys <= {head, scratch} &&
      (scratch in arena.lists ==> arena.lists[scratch] == []) && scratch !in arena.owner &&
      (forall x :: x in arena.owner ==> arena.owner[x] == head)
    }

    /** The descriptors: the watcher runs exactly while the eventfd exists. */
    ghost predicate FdOk()
      reads this
    {
      fd >= -1 && (fd == -1 ==> wfd == -1 && !watching) && (fd != -1 ==> watching)
    }

    /** Active handles are exactly the queued ones. */
    ghost predicate Valid()
      reads this, arena, arena.next, arena.prev, hs
    {
      QueueOk() && hs.Valid() && hs.active == arena.owner.Keys && FdOk()
    }

    ghost function Queued(): seq<int>
      reads this, arena
      requires head in arena.lists
    {
      arena.lists[head]
    }

    /** A loop with no async handles and no eventfd over `n` link slots. */
    constructor (n: nat)
      requires n >= 2
      ensures Valid() && fresh(arena) && fresh(hs) && arena.N == n
      ensures Queued() == [] && hs.active == {} && hs.pending == map[] && fd == -1 && !hs.wakeupPosted
    {
      var a := new Arena(n);
      var s := new Handles();
      arena := a;
      hs := s;
      head := 0;
      scratch := 1;
      fd := -1;
      wfd := -1;
      watching := false;
      new;
      a.Init(0);
    }

    /**
     * uv__async_start: nothing to do once the eventfd exists.  Otherwise
     * `eventfd` is the outcome of creating one: a descriptor, or a negative
     * error code that is returned unchanged.
     */
    method Start(eventfd: int) returns (r: int)
      requires FdOk()
      modifies this
      ensures FdOk()
      ensures old(fd) != -1 ==> r == 0 && fd == old(fd) && wfd == old(wfd) && watching
      ensures old(fd) == -1 && eventfd < 0 ==> r == eventfd && fd == -1 && !watching
      ensures old(fd) == -1 && eventfd >= 0 ==> r == 0 && fd == eventfd && wfd == -1 && watching
    {
      if fd != -1 {
        return 0;
      }
      if eventfd < 0 {
        return eventfd;
      }
      fd := eventfd;
      wfd := -1;
      watching := true;
      r := 0;
    }

    /** uv__async_stop: closes both descriptors and stops the watcher; a second call does nothing. */
    method Stop()
      requires FdOk()
      modifies this
      ensures FdOk()
      ensures fd == -1 && wfd == -1 && !watching
    {
      if fd == -1 {
        return;
      }
      if wfd != -1 {
        wfd := -1;
      }
      watching := false;
      fd := -1;
    }

    /**
     * uv_async_init: starts the loop's eventfd (failing with its error), then
     * the handle, with `pending` 0 and callback `f`, joins the tail of
     * `async_handles` and becomes active.
     */
    method Init(h: int, f: Option<Callback>, eventfd: int) returns (r: int)
      requires Valid() && IsHandle(h) && h !in hs.active
      modifies this, arena, arena.next, arena.prev, hs
      ensures Valid()
      ensures old(fd) == -1 && eventfd < 0 ==>
                r == eventfd && Queued() == old(Queued()) && hs.active == old(hs.active) &&
                hs.pending == old(hs.pending) && hs.cb == old(hs.cb)
      ensures old(fd) != -1 || eventfd >= 0 ==>
                r == 0 && Queued() == old(Queued()) + [h] && hs.active == old(hs.active) + {h} &&
                hs.pending == old(hs.pending)[h := Idle] && hs.cb == old(hs.cb)[h := f] && fd != -1
    {
      r := Start(eventfd);
      if r != 0 {
        return;
      }
      arena.InsertTail(head, h);
      hs.Register(h, f);
    }

    /** Handles the running pass has already requeued onto `async_handles`. */
    ghost function Visited(): seq<int>
      reads this, arena
      requires head in arena.lists
    {
      arena.lists[head]
    }

    /** Handles still waiting on the local `queue` of the running pass. */
    ghost function Unvisited(): seq<int>
      reads this, arena
      requires scratch in arena.lists
    {
      arena.lists[scratch]
    }

    /**
     * The state between two turns of uv__async_io's rotation: every active
     * handle is either back on `async_handles` (visited) or still on the
     * local queue, and a visited handle that is pending, or whose sender has
     * written, has made the eventfd readable again.  An unvisited handle
     * needs no wakeup, since the running pass still reaches it.
     */
    ghost predicate InPass()
      reads this, arena, arena.next, arena.prev, hs
    {
      arena.Valid() && 0 <= head < arena.N && 0 <= scratch < arena.N && head != scratch &&
      arena.lists.Keys == {head, scratch} && hs.Coherent() && hs.active == arena.owner.Keys && FdOk() &&
      (forall x :: x in arena.owner && arena.owner[x] == head && x in hs.pending && x in hs.stage ==>
         (hs.pending[x] == Ready || hs.stage[x] == Posted) ==> hs.wakeupPosted)
    }

    /**
     * uv_async_send on an active handle of this loop, from any thread, while
     * the loop is between passes or between two turns of a pass.  The handle
     * ends pending: one that was idle is claimed, posted and made pending;
     * one already pending, or held by another sender, is left to that sender.
     * Neither state of the loop is disturbed, so no wakeup is lost.
     */
    method Send(h: int) returns (r: int)
      requires (Valid() || InPass()) && h in hs.active
      modifies hs
      ensures r == 0 && h in hs.pending && hs.pending[h] != Idle
      ensures old(Valid()) ==> Valid()
      ensures old(InPass()) ==> InPass()
      ensures old(hs.pending[h]) != Idle ==> hs.pending == old(hs.pending) && hs.wakeupPosted == old(hs.wakeupPosted)
      ensures old(hs.pending[h]) == Idle ==> hs.pending == old(hs.pending)[h := Ready] && hs.wakeupPosted
      ensures hs.stage == old(hs.stage) && hs.active == old(hs.active) && hs.cb == old(hs.cb)
    {
      r := hs.Send(h);
    }

    /**
     * uv__async_io when no other thread sends during the pass: drains the
     * eventfd, then rotates `async_handles` as the loop watchers do, spinning
     * on each handle and collecting in `calls` the handles whose callback runs.
     */
    method Io() returns (calls: seq<int>)
      requires Valid()
      modifies arena, arena.next, arena.prev, hs
      ensures Valid()
      ensures Queued() == old(Queued()) && hs.active == old(hs.active) && hs.cb == old(hs.cb)
      ensures calls == Fired(old(Queued()), old(hs.pending), old(hs.cb))
      ensures hs.pending.Keys == old(hs.pending.Keys)
      ensures forall x :: x in hs.pending ==> hs.pending[x] == Idle && hs.stage[x] == NoSender
      ensures hs.wakeupPosted == AnyClaimed(old(Queued()), old(hs.stage))
    {
      ghost var s := arena.lists[head];
      ghost var p0, st0, c0 := hs.pending, hs.stage, hs.cb;
      BeginPass();
      PassStart(s, p0, st0, c0);
      calls := Pass(s, p0, st0, c0);
      PassEnd(s, |s|, p0, st0, c0, calls);
      SettledOutside(s, p0, st0, hs.active);
      PassDone();
    }

    /**
     * The start of uv__async_io: the eventfd read loop, then QUEUE_MOVE of
     * every handle onto the local queue, in order.
     */
    method BeginPass()
      requires Valid()
      modifies arena, arena.next, arena.prev, hs
      ensures InPass() && Visited() == [] && Unvisited() == old(Queued()) && Distinct(Unvisited())
      ensures hs.active == old(hs.active) && hs.pending == old(hs.pending) && hs.stage == old(hs.stage)
      ensures hs.cb == old(hs.cb) && !hs.wakeupPosted
    {
      SoleList(arena.N, arena.next[..], arena.prev[..], arena.lists, arena.owner, head);
      hs.Drain();
      arena.Move(head, scratch);
    }

    /** Once the local queue is empty the pass is over and the loop is back in its resting state. */
    lemma PassDone()
      requires InPass() && Unvisited() == []
      ensures Valid()
    {
      SoleOwner(arena.lists, arena.owner, head, scratch);
    }

    /** The rotation of uv__async_io over the handles `s` that `async_handles` held on entry. */
    method Pass(ghost s: seq<int>, ghost p0: map<int, Pending>, ghost st0: map<int, Stage>,
                ghost c0: map<int, Option<Callback>>) returns (calls: seq<int>)
      requires PassAt(s, 0, p0, st0, c0, [])
      modifies arena, arena.next, arena.prev, hs
      ensures PassAt(s, |s|, p0, st0, c0, calls)
      ensures hs.active == old(hs.active)
    {
      calls := [];
      var more := More(s, 0, p0, st0, c0, calls);
      ghost var k := 0;
      while more
        invariant PassAt(s, k, p0, st0, c0, calls) && 0 <= k <= |s|
        invariant more <==> k < |s|
        invariant hs.active == old(hs.active)
        decreases |s| - k
      {
        var q, fired := Turn(s, k, p0, st0, c0, calls);
        if fired {
          calls := calls + [q];
        }
        k := k + 1;
        more := More(s, k, p0, st0, c0, calls);
      }
    }

    /** The loop test `!QUEUE_EMPTY(&queue)`: handles are left exactly when fewer than all turns are done. */
    method More(ghost s: seq<int>, ghost k: int, ghost p0: map<int, Pending>, ghost st0: map<int, Stage>,
                ghost c0: map<int, Option<Callback>>, ghost calls: seq<int>) returns (more: bool)
      requires PassAt(s, k, p0, st0, c0, calls)
      ensures PassAt(s, k, p0, st0, c0, calls) && (more <==> k < |s|)
    {
      var empty := arena.IsEmpty(scratch);
      more := !empty;
    }

    /** Right after `BeginPass`, no turn of a pass over `s` has been taken. */
    lemma PassStart(s: seq<int>, p0: map<int, Pending>, st0: map<int, Stage>, c0: map<int, Option<Callback>>)
      requires InPass() && Visited() == [] && Unvisited() == s
      requires Distinct(s) && p0.Keys == st0.Keys
      requires forall i :: 0 <= i < |s| ==> s[i] in p0 && s[i] in c0
      requires hs.cb == c0 && hs.pending == p0 && hs.stage == st0 && !hs.wakeupPosted
      ensures PassAt(s, 0, p0, st0, c0, [])
    {
      assert s[..0] == [] && s[0..] == s;
      assert Settled([], p0, Idle) == p0 && Settled([], st0, NoSender) == st0;
    }

    /** After all `|s|` turns the pass has visited every handle of `s`. */
    lemma PassEnd(s: seq<int>, k: int, p0: map<int, Pending>, st0: map<int, Stage>,
                  c0: map<int, Option<Callback>>, calls: seq<int>)
      requires PassAt(s, k, p0, st0, c0, calls) && k == |s|
      ensures InPass() && Visited() == s && Unvisited() == [] && hs.cb == c0
      ensures calls == Fired(s, p0, c0)
      ensures hs.pending == Settled(s, p0, Idle) && hs.stage == Settled(s, st0, NoSender)
      ensures hs.wakeupPosted == AnyClaimed(s, st0)
    {
      assert s[..k] == s;
    }

    /** The state after the first `k` turns of a pass over `s` during which no other thread sends. */
    ghost predicate PassAt(s: seq<int>, k: int, p0: map<int, Pending>, st0: map<int, Stage>,
                           c0: map<int, Option<Callback>>, calls: seq<int>)
      reads this, arena, arena.next, arena.prev, hs
    {
      InPass() && 0 <= k <= |s| && Distinct(s) && p0.Keys == st0.Keys &&
      (forall i :: 0 <= i < |s| ==> s[i] in p0 && s[i] in c0) &&
      Visited() == s[..k] && Unvisited() == s[k..] && hs.cb == c0 &&
      Known(s[..k], p0, c0) && calls == Fired(s[..k], p0, c0) &&
      hs.pending == Settled(s[..k], p0, Idle) && hs.stage == Settled(s[..k], st0, NoSender) &&
      hs.wakeupPosted == AnyClaimed(s[..k], st0)
    }

    /** `Visit` as the `k`-th turn of a pass over `s` with no send in between. */
    method Turn(ghost s: seq<int>, ghost k: int, ghost p0: map<int, Pending>, ghost st0: map<int, Stage>,
                ghost c0: map<int, Option<Callback>>, ghost calls: seq<int>) returns (q: int, fired: bool)
      requires PassAt(s, k, p0, st0, c0, calls) && k < |s|
      modifies arena, arena.next, arena.prev, hs
      ensures PassAt(s, k + 1, p0, st0, c0, calls + (if fired then [q] else []))
      ensures hs.active == old(hs.active) && q == s[k]
    {
      PassStep(s, k, p0, st0, c0);
      assert s[k..][0] == s[k] && s[k..][1..] == s[k + 1..] && s[..k] + [s[k]] == s[..k + 1];
      q, fired := Visit();
    }

    /**
     * One turn of uv__async_io's loop: requeue the front handle, spin on it,
     * and report whether its callback runs, which is exactly when the handle
     * is pending at that moment (whatever sends came before) and has a
     * callback.
     */
    method Visit() returns (q: int, fired: bool)
      requires InPass() && Unvisited() != []
      modifies arena, arena.next, arena.prev, hs
      ensures InPass()
      ensures q == old(Unvisited())[0] && Visited() == old(Visited()) + [q] && Unvisited() == old(Unvisited())[1..]
      ensures q in old(hs.pending) && q in hs.cb
      ensures fired <==> old(hs.pending)[q] != Idle && hs.cb[q].Some?
      ensures hs.pending == old(hs.pending)[q := Idle] && hs.stage == old(hs.stage)[q := NoSender]
      ensures hs.wakeupPosted == (old(hs.wakeupPosted) || old(hs.stage)[q] == Claimed)
      ensures hs.active == old(hs.active) && hs.cb == old(hs.cb)
    {
      q := Requeue();
      var rc := hs.Spin(q);
      fired := rc != 0 && hs.cb[q] != None;
    }

    /** One turn of the rotation: the front handle of the local queue moves to the tail of `async_handles`. */
    method Requeue() returns (q: int)
      requires arena.Valid() && arena.lists.Keys == {head, scratch} && head != scratch
      requires arena.lists[scratch] != []
      modifies arena, arena.next, arena.prev
      ensures arena.Valid() && arena.lists.Keys == {head, scratch}
      ensures q == old(arena.lists[scratch])[0] && arena.lists[head] == old(arena.lists[head]) + [q]
      ensures arena.lists[scratch] == old(arena.lists[scratch])[1..]
      ensures q in old(arena.owner) && old(arena.owner)[q] == scratch && arena.owner == old(arena.owner)[q := head]
    {
      q := arena.Head(scratch);
      ghost var rest := arena.lists[scratch];
      assert arena.owner[rest[0]] == scratch;
      arena.Remove(q);
      assert arena.lists[scratch] == rest[1..] by {
        PopFront(rest);
      }
      arena.InsertTail(head, q);
    }

    /** uv__async_close: waits for `pending` to settle, then unlinks and stops the handle. */
    method Close(h: int)
      requires Valid() && IsHandle(h) && h in hs.active
      modifies arena, arena.next, arena.prev, hs
      ensures Valid()
      ensures Queued() == Without(old(Queued()), IndexOf(old(Queued()), h)) && hs.active == old(hs.active) - {h}
      ensures hs.pending == old(hs.pending)[h := Idle] && hs.stage == old(hs.stage)[h := NoSender]
      ensures hs.cb == old(hs.cb)
    {
      var _ := hs.Spin(h);
      arena.Remove(h);
      hs.Deactivate(h);
    }
  }

  /** `m` with every key listed in `t` mapped to `v`: the state once the pass has visited `t`. */
  ghost function Settled<T>(t: seq<int>, m: map<int, T>, v: T): (r: map<int, T>)
    ensures r.Keys == m.Keys
  {
    map x | x in m :: if x in t then v else m[x]
  }

  /** Some handle in `t` has a sender that has won the swap but not yet written the eventfd. */
  ghost predicate AnyClaimed(t: seq<int>, stage: map<int, Stage>)
  {
    exists i :: 0 <= i < |t| && t[i] in stage && stage[t[i]] == Claimed
  }

  /** What visiting the `k`-th handle of a pass over `s` adds to the state after the first `k`. */
  lemma PassStep(s: seq<int>, k: int, p0: map<int, Pending>, st0: map<int, Stage>, c0: map<int, Option<Callback>>)
    requires 0 <= k < |s| && Distinct(s) && p0.Keys == st0.Keys
    requires forall i :: 0 <= i < |s| ==> s[i] in p0 && s[i] in c0
    ensures Known(s[..k + 1], p0, c0)
    ensures Settled(s[..k], p0, Idle)[s[k]] == p0[s[k]] && Settled(s[..k], st0, NoSender)[s[k]] == st0[s[k]]
    ensures Settled(s[..k + 1], p0, Idle) == Settled(s[..k], p0, Idle)[s[k] := Idle]
    ensures Settled(s[..k + 1], st0, NoSender) == Settled(s[..k], st0, NoSender)[s[k] := NoSender]
    ensures AnyClaimed(s[..k + 1], st0) == (AnyClaimed(s[..k], st0) || st0[s[k]] == Claimed)
    ensures Fired(s[..k + 1], p0, c0) ==
            Fired(s[..k], p0, c0) + (if p0[s[k]] != Idle && c0[s[k]].Some? then [s[k]] else [])
  {
    var t, q := s[..k], s[k];
    assert s[..k + 1] == t + [q];
    SettledSnoc(t, q, p0, Idle);
    SettledSnoc(t, q, st0, NoSender);
    assert q !in t by {
      forall i | 0 <= i < k
        ensures t[i] != q
      {
        assert t[i] == s[i];
      }
    }
    assert Known(t, p0, c0) by {
      forall i | 0 <= i < |t|
        ensures t[i] in p0 && t[i] in c0
      {
        assert t[i] == s[i];
      }
    }
    FiredSnoc(t, q, p0, c0);
    AnyClaimedSnoc(t, q, st0);
  }

  /** A longer prefix has a claimed handle when the shorter one has, or the new handle is claimed. */
  lemma AnyClaimedSnoc(t: seq<int>, q: int, stage: map<int, Stage>)
    ensures AnyClaimed(t + [q], stage) == (AnyClaimed(t, stage) || (q in stage && stage[q] == Claimed))
  {
    var u := t + [q];
    if AnyClaimed(u, stage) {
      var i :| 0 <= i < |u| && u[i] in stage && stage[u[i]] == Claimed;
      if i < |t| {
        assert t[i] == u[i];
      }
    }
    if AnyClaimed(t, stage) {
      var i :| 0 <= i < |t| && t[i] in stage && stage[t[i]] == Claimed;
      assert u[i] == t[i];
    }
    if q in stage && stage[q] == Claimed {
      assert u[|t|] == q;
    }
  }

  /** Visiting one more handle settles just that handle, which the shorter visit had left alone. */
  lemma SettledSnoc<T>(t: seq<int>, q: int, m: map<int, T>, v: T)
    requires q in m && q !in t
    ensures Settled(t, m, v)[q] == m[q]
    ensures Settled(t + [q], m, v) == Settled(t, m, v)[q := v]
  {
    var a, b := Settled(t + [q], m, v), Settled(t, m, v)[q := v];
    forall x | x in m
      ensures a[x] == b[x]
    {
      assert x in t + [q] <==> x in t || x == q;
    }
  }

  /** Handles the pass does not visit were idle, so after it every handle is idle with no sender. */
  lemma SettledOutside(s: seq<int>, p0: map<int, Pending>, st0: map<int, Stage>, active: set<int>)
    requires p0.Keys == st0.Keys
    requires forall x :: x in p0 ==> (p0[x] == Busy <==> st0[x] != NoSender)
    requires forall x :: x in p0 && x !in active ==> p0[x] == Idle
    requires forall x :: x in active ==> x in s
    ensures forall x :: x in p0 ==> Settled(s, p0, Idle)[x] == Idle && Settled(s, st0, NoSender)[x] == NoSender
  {
  }
}
