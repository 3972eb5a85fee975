/**
 * The readiness poller of src/unix/epoll.c.
 *
 * The kernel is an oracle.  Its interest list is the map `kernel` (descriptor
 * to registered mask), which `epoll_ctl` updates, and each `epoll_wait` is one
 * element of a sequence of `Wait` results: a timeout, an interruption, or a
 * batch of `(fd, mask)` results, each with the loop time read after it.
 * Callbacks are opaque: the poll reports which watcher callbacks run, in order,
 * with which mask, and they do not change the loop.
 */
module Epoll {
  import opened Common
  import opened Queue

  /**
   * An event mask, as the set of the positions of its set bits: bitwise and,
   * or and complement are intersection, union and difference.
   */
  type Mask = set<nat>

  /** The readiness bits of <poll.h> on Linux (0x001, 0x002, 0x004, 0x008, 0x010), and libuv's UV__POLLRDHUP (0x2000). */
  const POLLIN: Mask := {0}
  const POLLPRI: Mask := {1}
  const POLLOUT: Mask := {2}
  const POLLERR: Mask := {3}
  const POLLHUP: Mask := {4}
  const POLLRDHUP: Mask := {13}

  /** The interest bits merged into a bare error or hangup report. */
  const IoBits: Mask := POLLIN + POLLOUT + POLLRDHUP + POLLPRI

  /** ARRAY_SIZE(events): the most results one `epoll_wait` returns. */
  const MaxEvents: nat := 1024
  /** `max_safe_timeout`: the longest wait handed to the kernel where `long` has 32 bits. */
  const MaxSafeTimeout: int := 1789569
  /** The initial `count`: one blocking poll plus at most 47 non-blocking re-polls after full batches. */
  const RepollBudget: int := 48

  /** errno values `epoll_ctl` reports. */
  const ENOENT: int := 2
  const EEXIST: int := 17

  /** One result slot of `epoll_wait`: `data.fd` (-1 once invalidated) and `events`. */
  datatype Event = Event(fd: int, mask: Mask)

  /** A watcher callback invocation `w->cb(loop, w, events)`. */
  datatype Call = Call(watcher: int, mask: Mask)

  /** The fields of a `uv__io_t` the poller reads and writes: descriptor, registered and requested interest. */
  datatype Io = Io(fd: int, events: Mask, pevents: Mask)

  // ---------------------------------------------------------------------------
  // Mask filtering

  /** `pe->events &= w->pevents | POLLERR | POLLHUP`: only what the watcher asked for, and errors. */
  function Restrict(mask: Mask, pevents: Mask): Mask
  {
    mask * (pevents + POLLERR + POLLHUP)
  }

  /**
   * The mask a watcher's callback receives for a result: restricted to its
   * interest, and a bare POLLERR or POLLHUP widened with its read and write
   * interest so that the following read or write sees the error.
   */
  function Deliver(mask: Mask, pevents: Mask): (r: Mask)
    ensures r <= pevents + POLLERR + POLLHUP
    ensures Restrict(mask, pevents) <= r
    ensures r == {} <==> Restrict(mask, pevents) == {}
    ensures var m := Restrict(mask, pevents);
            m == POLLERR || m == POLLHUP ==> r - IoBits == m && r * IoBits == pevents * IoBits
    ensures var m := Restrict(mask, pevents);
            m != POLLERR && m != POLLHUP ==> r == m
  {
    var m := Restrict(mask, pevents);
    if m == POLLERR || m == POLLHUP then m + pevents * IoBits else m
  }

  // ---------------------------------------------------------------------------
  // uv__platform_invalidate_fd

  /** The pending results once every slot for `fd` is disarmed. */
  function Invalidated(rs: seq<Event>, fd: int): (r: seq<Event>)
    ensures |r| == |rs|
    ensures forall i :: 0 <= i < |r| ==> r[i].mask == rs[i].mask && (r[i].fd == fd ==> fd == -1)
    ensures forall i :: 0 <= i < |r| && rs[i].fd != fd ==> r[i] == rs[i]
    ensures forall i :: 0 <= i < |r| && rs[i].fd == fd ==> r[i].fd == -1
  {
    seq(|rs|, i requires 0 <= i < |rs| => if rs[i].fd == fd then rs[i].(fd := -1) else rs[i])
  }

  // ---------------------------------------------------------------------------
  // One batch of results

  /** Every descriptor with a watcher names a watcher with a record. */
  ghost predicate TableOk(table: map<int, int>, io: map<int, Io>)
  {
    forall fd :: fd in table ==> table[fd] in io
  }

  /**
   * What the dispatch loop of uv__io_poll makes of a batch: the callbacks run
   * in order, whether the signal watcher was ready, the `nevents` count, and
   * the descriptors without a watcher that were removed from the interest list.
   */
  datatype Batch = Batch(calls: seq<Call>, signals: bool, nevents: nat, disarmed: set<int>)

  function Dispatch(es: seq<Event>, table: map<int, int>, io: map<int, Io>, sig: int): (b: Batch)
    requires TableOk(table, io)
    decreases |es|
  {
    if es == [] then Batch([], false, 0, {})
    else
      var b := Dispatch(es[..|es| - 1], table, io, sig);
      var e := es[|es| - 1];
      if e.fd == -1 then b
      else if e.fd !in table then b.(disarmed := b.disarmed + {e.fd})
      else
        var w := table[e.fd];
        var m := Deliver(e.mask, io[w].pevents);
        if m == {} then b
        else if w == sig then b.(signals := true, nevents := b.nevents + 1)
        else b.(calls := b.calls + [Call(w, m)], nevents := b.nevents + 1)
  }

  /**
   * Every callback of a batch is for a watcher other than the signal watcher,
   * found through the descriptor of some live result, with a non-empty mask
   * within the watcher's interest and errors; and a batch that counted no
   * events ran nothing.
   */
  lemma {:induction false} DispatchCalls(es: seq<Event>, table: map<int, int>, io: map<int, Io>, sig: int)
    requires TableOk(table, io)
    ensures var b := Dispatch(es, table, io, sig);
            forall c :: c in b.calls ==>
              c.watcher != sig && c.watcher in io && c.mask != {} &&
              c.mask <= io[c.watcher].pevents + POLLERR + POLLHUP &&
              exists i :: 0 <= i < |es| && es[i].fd != -1 && es[i].fd in table && table[es[i].fd] == c.watcher
    ensures var b := Dispatch(es, table, io, sig);
            b.signals ==> exists i :: 0 <= i < |es| && es[i].fd != -1 && es[i].fd in table && table[es[i].fd] == sig
    ensures var b := Dispatch(es, table, io, sig);
            |b.calls| <= b.nevents && (!b.signals ==> |b.calls| == b.nevents) &&
            (b.nevents == 0 ==> b.calls == [] && !b.signals)
  {
    if es != [] {
      var p := es[..|es| - 1];
      DispatchCalls(p, table, io, sig);
      forall i | 0 <= i < |p|
        ensures p[i] == es[i]
      {
      }
    }
  }

  /**
   * Once uv__platform_invalidate_fd has disarmed the pending slots of `fd`, the
   * rest of the batch runs nothing for the watcher of `fd`, nor the signal
   * watcher if that was it, when each watcher has one descriptor.
   */
  lemma InvalidatedSilent(es: seq<Event>, fd: int, table: map<int, int>, io: map<int, Io>, sig: int)
    requires TableOk(table, io) && fd in table && fd != -1
    requires forall f :: f in table && f != fd ==> table[f] != table[fd]
    ensures var b := Dispatch(Invalidated(es, fd), table, io, sig);
            (forall c :: c in b.calls ==> c.watcher != table[fd]) && (table[fd] == sig ==> !b.signals)
  {
    var r := Invalidated(es, fd);
    DispatchCalls(r, table, io, sig);
  }

  // ---------------------------------------------------------------------------
  // The poll loop

  /** What one `epoll_wait` returned: 0 results, -1 with EINTR, or a batch; and the loop time after it. */
  datatype Wait = Expired(now: int) | Interrupted(now: int) | Ready(results: seq<Event>, now: int)

  /** The kernel returns at most `MaxEvents` results, each for a descriptor the loop can hold, or an invalidated slot. */
  ghost predicate RoundsOk(rounds: seq<Wait>, nwatchers: nat)
  {
    forall k :: 0 <= k < |rounds| && rounds[k].Ready? ==>
      0 < |rounds[k].results| <= MaxEvents &&
      forall i :: 0 <= i < |rounds[k].results| ==>
        rounds[k].results[i].fd == -1 || 0 <= rounds[k].results[i].fd < nwatchers
  }

  /** No batch holds more than `MaxEvents` results. */
  ghost predicate BatchesFit(rounds: seq<Wait>)
  {
    forall k :: 0 <= k < |rounds| && rounds[k].Ready? ==> |rounds[k].results| <= MaxEvents
  }

  /** The locals of uv__io_poll's `for (;;)`: `timeout`, `real_timeout`, `count`, and the time `base` elapsed time is measured from. */
  datatype PollState = PollState(timeout: int, realTimeout: int, count: int, base: int)

  /**
   * What the poll does not change: the watcher table, the watchers, the signal
   * watcher, whether `long` has 32 bits, and whether `base` moves up to the
   * current time at each timeout update (`fixed`) or stays at the entry time
   * as written.
   */
  datatype Env = Env(table: map<int, int>, io: map<int, Io>, sig: int, longIs32: bool, fixed: bool)

  /** The timeout handed to the kernel: capped at `MaxSafeTimeout` where `long` has 32 bits. */
  function Cap(timeout: int, longIs32: bool): (t: int)
    ensures t <= timeout && (t == timeout || t == MaxSafeTimeout)
    ensures longIs32 ==> t <= MaxSafeTimeout
    ensures timeout < MaxSafeTimeout || !longIs32 ==> t == timeout
  {
    if longIs32 && timeout >= MaxSafeTimeout then MaxSafeTimeout else timeout
  }

  /** `update_timeout`: take the elapsed time off the remaining time; return once none is left. */
  function Update(st: PollState, now: int, fixed: bool): Option<PollState>
  {
    var left := st.realTimeout - (now - st.base);
    if left <= 0 then None
    else Some(st.(timeout := left, realTimeout := left, base := if fixed then now else st.base))
  }

  /** After a wait that ran no callback: return on a zero timeout, wait again forever on -1, else update. */
  function Later(st: PollState, now: int, fixed: bool): Option<PollState>
  {
    if st.timeout == 0 then None
    else if st.timeout == -1 then Some(st)
    else Update(st, now, fixed)
  }

  /** One turn of the loop: the callbacks it runs, the descriptors it disarms, and the next state or a return. */
  datatype Turn = Turn(calls: seq<Call>, disarmed: set<int>, next: Option<PollState>)

  function Round(st: PollState, w: Wait, env: Env): Turn
    requires TableOk(env.table, env.io)
  {
    var st1 := st.(timeout := Cap(st.timeout, env.longIs32));
    match w
    case Expired(now) => Turn([], {}, Later(st1, now, env.fixed))
    case Interrupted(now) => Turn([], {}, Later(st1, now, env.fixed))
    case Ready(rs, now) =>
      var b := Dispatch(rs, env.table, env.io, env.sig);
      if b.signals then Turn(b.calls + [Call(env.sig, POLLIN)], b.disarmed, None)
      else if b.nevents != 0 then
        if |rs| == MaxEvents && st.count - 1 != 0 then
          Turn(b.calls, b.disarmed, Some(st1.(timeout := 0, count := st.count - 1)))
        else Turn(b.calls, b.disarmed, None)
      else Turn(b.calls, b.disarmed, Later(st1, now, env.fixed))
  }

  /** What uv__io_poll did: the callbacks in order, the timeouts it waited with, the disarmed descriptors, and whether it returned. */
  datatype Outcome = Outcome(calls: seq<Call>, waits: seq<int>, disarmed: set<int>, returned: bool)

  /** The rest of the poll from turn `k`, in state `st`, after `acc`; it stops early when the waits observed run out. */
  function PollFrom(st: PollState, rounds: seq<Wait>, k: nat, acc: Outcome, env: Env): Outcome
    requires k <= |rounds| && TableOk(env.table, env.io)
    decreases |rounds| - k
  {
    if k == |rounds| then acc
    else
      var t := Round(st, rounds[k], env);
      var acc1 := Outcome(acc.calls + t.calls, acc.waits + [Cap(st.timeout, env.longIs32)],
                          acc.disarmed + t.disarmed, t.next.None?);
      if t.next.None? then acc1 else PollFrom(t.next.value, rounds, k + 1, acc1, env)
  }

  /** uv__io_poll once the registrations are drained: `timeout` requested at loop time `now0`. */
  function PollSpec(timeout: int, now0: int, rounds: seq<Wait>, env: Env): Outcome
    requires TableOk(env.table, env.io)
  {
    PollFrom(PollState(timeout, timeout, RepollBudget, now0), rounds, 0, Outcome([], [], {}, false), env)
  }

  /** Turns do not change `count` unless they ran events after a full batch. */
  ghost predicate Eventful(w: Wait, env: Env)
    requires TableOk(env.table, env.io)
  {
    w.Ready? && Dispatch(w.results, env.table, env.io, env.sig).nevents != 0
  }

  /** The poll waits once per turn, and never hands the kernel a timeout below -1 or, with a 32-bit `long`, above the safe maximum. */
  lemma {:induction false} PollWaits(st: PollState, rounds: seq<Wait>, k: nat, acc: Outcome, env: Env)
    requires k <= |rounds| && TableOk(env.table, env.io) && st.timeout >= -1
    requires |acc.waits| == k && forall i :: 0 <= i < k ==> -1 <= acc.waits[i] && (env.longIs32 ==> acc.waits[i] <= MaxSafeTimeout)
    ensures var o := PollFrom(st, rounds, k, acc, env);
            k <= |o.waits| <= |rounds| && (|o.waits| < |rounds| ==> o.returned) &&
            forall i :: 0 <= i < |o.waits| ==> -1 <= o.waits[i] && (env.longIs32 ==> o.waits[i] <= MaxSafeTimeout)
    decreases |rounds| - k
  {
    if k < |rounds| {
      var t := Round(st, rounds[k], env);
      var acc1 := Outcome(acc.calls + t.calls, acc.waits + [Cap(st.timeout, env.longIs32)],
                          acc.disarmed + t.disarmed, t.next.None?);
      if t.next.Some? {
        RoundTimeout(st, rounds[k], env);
        PollWaits(t.next.value, rounds, k + 1, acc1, env);
      }
    }
  }

  /** A turn that goes on leaves a timeout of at least -1. */
  lemma RoundTimeout(st: PollState, w: Wait, env: Env)
    requires TableOk(env.table, env.io) && st.timeout >= -1
    ensures Round(st, w, env).next.Some? ==> Round(st, w, env).next.value.timeout >= -1
  {
  }

  /** uv__io_poll's waits are capped: every timeout handed to the kernel is at least -1, and at most the safe maximum on a 32-bit `long`. */
  lemma PollCapped(timeout: int, now0: int, rounds: seq<Wait>, env: Env)
    requires TableOk(env.table, env.io) && timeout >= -1
    ensures var o := PollSpec(timeout, now0, rounds, env);
            (|o.waits| < |rounds| ==> o.returned) &&
            forall i :: 0 <= i < |o.waits| ==> -1 <= o.waits[i] && (env.longIs32 ==> o.waits[i] <= MaxSafeTimeout)
  {
    PollWaits(PollState(timeout, timeout, RepollBudget, now0), rounds, 0, Outcome([], [], {}, false), env);
  }

  /** A call to `sig`, if any, is the last one, and the poll returned. */
  ghost predicate SignalLastIn(o: Outcome, sig: int)
  {
    forall i :: 0 <= i < |o.calls| && o.calls[i].watcher == sig ==> i == |o.calls| - 1 && o.returned
  }

  /** The signal watcher runs at most once, as the last callback, and the poll returns right after it. */
  lemma {:induction false} SignalLastFrom(st: PollState, rounds: seq<Wait>, k: nat, acc: Outcome, env: Env)
    requires k <= |rounds| && TableOk(env.table, env.io)
    requires forall c :: c in acc.calls ==> c.watcher != env.sig
    ensures SignalLastIn(PollFrom(st, rounds, k, acc, env), env.sig)
    decreases |rounds| - k
  {
    if k < |rounds| {
      var t := Round(st, rounds[k], env);
      var acc1 := Outcome(acc.calls + t.calls, acc.waits + [Cap(st.timeout, env.longIs32)],
                          acc.disarmed + t.disarmed, t.next.None?);
      if rounds[k].Ready? {
        DispatchCalls(rounds[k].results, env.table, env.io, env.sig);
      }
      if t.next.Some? {
        assert forall c :: c in t.calls ==> c.watcher != env.sig;
        assert PollFrom(st, rounds, k, acc, env) == PollFrom(t.next.value, rounds, k + 1, acc1, env);
        SignalLastFrom(t.next.value, rounds, k + 1, acc1, env);
      } else {
        var b := acc1.calls;
        var d := if rounds[k].Ready? then Dispatch(rounds[k].results, env.table, env.io, env.sig).calls else [];
        assert t.calls == d + [Call(env.sig, POLLIN)] || t.calls == d;
        forall j | 0 <= j < |acc.calls| + |d|
          ensures b[j].watcher != env.sig
        {
          if j < |acc.calls| {
            assert b[j] == acc.calls[j];
          } else {
            assert b[j] == d[j - |acc.calls|];
          }
        }
      }
    }
  }

  /** Within one uv__io_poll every other callback runs before the signal watcher's, which runs at most once and ends the poll. */
  lemma SignalLast(timeout: int, now0: int, rounds: seq<Wait>, env: Env)
    requires TableOk(env.table, env.io)
    ensures var o := PollSpec(timeout, now0, rounds, env);
            forall i :: 0 <= i < |o.calls| && o.calls[i].watcher == env.sig ==> i == |o.calls| - 1 && o.returned
  {
    SignalLastFrom(PollState(timeout, timeout, RepollBudget, now0), rounds, 0, Outcome([], [], {}, false), env);
  }

  /** The poll goes on after a turn that ran events only when the batch was full, and then without blocking. */
  lemma {:induction false} RepollFrom(st: PollState, rounds: seq<Wait>, k: nat, acc: Outcome, env: Env)
    requires k <= |rounds| && TableOk(env.table, env.io) && |acc.waits| == k
    ensures var o := PollFrom(st, rounds, k, acc, env);
            forall j :: k <= j && j + 1 < |o.waits| && j < |rounds| && Eventful(rounds[j], env) ==>
              |rounds[j].results| == MaxEvents && o.waits[j + 1] == 0
    ensures |PollFrom(st, rounds, k, acc, env).waits| >= k
    ensures forall j :: 0 <= j < k ==> PollFrom(st, rounds, k, acc, env).waits[j] == acc.waits[j]
    decreases |rounds| - k, 0
  {
    if k < |rounds| {
      var t := Round(st, rounds[k], env);
      var acc1 := Outcome(acc.calls + t.calls, acc.waits + [Cap(st.timeout, env.longIs32)],
                          acc.disarmed + t.disarmed, t.next.None?);
      if t.next.Some? {
        RepollFrom(t.next.value, rounds, k + 1, acc1, env);
        var o := PollFrom(t.next.value, rounds, k + 1, acc1, env);
        if Eventful(rounds[k], env) && k + 1 < |o.waits| {
          DispatchCalls(rounds[k].results, env.table, env.io, env.sig);
          var n := t.next.value;
          assert n.timeout == 0;
          if k + 1 < |rounds| {
            assert o == PollFrom(n, rounds, k + 1, acc1, env);
            RepollFirst(n, rounds, k + 1, acc1, env);
          }
        }
      }
    }
  }

  /** The first wait of the rest of the poll is the current timeout, capped. */
  lemma RepollFirst(st: PollState, rounds: seq<Wait>, k: nat, acc: Outcome, env: Env)
    requires k < |rounds| && TableOk(env.table, env.io) && |acc.waits| == k
    ensures |PollFrom(st, rounds, k, acc, env).waits| > k
    ensures PollFrom(st, rounds, k, acc, env).waits[k] == Cap(st.timeout, env.longIs32)
    decreases |rounds| - k, 1
  {
    var t := Round(st, rounds[k], env);
    var acc1 := Outcome(acc.calls + t.calls, acc.waits + [Cap(st.timeout, env.longIs32)],
                        acc.disarmed + t.disarmed, t.next.None?);
    if t.next.Some? {
      RepollFrom(t.next.value, rounds, k + 1, acc1, env);
    }
  }

  /** Only a full batch (`MaxEvents` results) that ran events is followed by another wait, a non-blocking one. */
  lemma RepollOnlyWhenFull(timeout: int, now0: int, rounds: seq<Wait>, env: Env)
    requires TableOk(env.table, env.io)
    ensures var o := PollSpec(timeout, now0, rounds, env);
            forall j :: 0 <= j && j + 1 < |o.waits| && j < |rounds| && Eventful(rounds[j], env) ==>
              |rounds[j].results| == MaxEvents && o.waits[j + 1] == 0
  {
    RepollFrom(PollState(timeout, timeout, RepollBudget, now0), rounds, 0, Outcome([], [], {}, false), env);
  }

  /** A turn that runs no events keeps `count`; one with a zero timeout that runs no events returns. */
  lemma QuietRound(st: PollState, w: Wait, env: Env)
    requires TableOk(env.table, env.io) && !Eventful(w, env)
    ensures var t := Round(st, w, env); t.next.Some? ==> t.next.value.count == st.count
    ensures st.timeout == 0 ==> Round(st, w, env).next.None?
  {
    if w.Ready? {
      DispatchCalls(w.results, env.table, env.io, env.sig);
    }
  }

  /** From turn `k` with `count` left, the poll waits at most `count` more times once it has run events at turn `j`. */
  lemma {:induction false} BudgetFrom(st: PollState, rounds: seq<Wait>, k: nat, acc: Outcome, env: Env)
    requires k <= |rounds| && TableOk(env.table, env.io) && |acc.waits| == k && st.count >= 1
    ensures var o := PollFrom(st, rounds, k, acc, env);
            forall j :: k <= j < |o.waits| && j < |rounds| && Eventful(rounds[j], env) ==> |o.waits| <= j + st.count
    decreases |rounds| - k
  {
    if k < |rounds| {
      var t := Round(st, rounds[k], env);
      var acc1 := Outcome(acc.calls + t.calls, acc.waits + [Cap(st.timeout, env.longIs32)],
                          acc.disarmed + t.disarmed, t.next.None?);
      RepollFrom(st, rounds, k, acc, env);
      if t.next.Some? {
        var n := t.next.value;
        var o := PollFrom(n, rounds, k + 1, acc1, env);
        if Eventful(rounds[k], env) {
          DispatchCalls(rounds[k].results, env.table, env.io, env.sig);
          assert n.count == st.count - 1 && n.count >= 1 && n.timeout == 0;
          BudgetFrom(n, rounds, k + 1, acc1, env);
          if k + 1 < |rounds| && !Eventful(rounds[k + 1], env) {
            QuietRound(n, rounds[k + 1], env);
            RepollFrom(n, rounds, k + 1, acc1, env);
          }
        } else {
          QuietRound(st, rounds[k], env);
          BudgetFrom(n, rounds, k + 1, acc1, env);
        }
      }
    }
  }

  /** Once a turn has run events, the poll waits at most `RepollBudget` times counting that turn. */
  lemma RepollBudgetBound(timeout: int, now0: int, rounds: seq<Wait>, env: Env)
    requires TableOk(env.table, env.io)
    ensures var o := PollSpec(timeout, now0, rounds, env);
            forall j :: 0 <= j < |o.waits| && j < |rounds| && Eventful(rounds[j], env) ==> |o.waits| <= j + RepollBudget
  {
    BudgetFrom(PollState(timeout, timeout, RepollBudget, now0), rounds, 0, Outcome([], [], {}, false), env);
  }

  // ---------------------------------------------------------------------------
  // The timeout bookkeeping: as written, and corrected

  /**
   * With `base` moving up at each update, the remaining time is the requested
   * time less all the time elapsed, so a poll that runs no callback returns
   * only once the requested time has passed, and an infinite wait never
   * returns without a callback.
   */
  ghost predicate Honoured(o: Outcome, rounds: seq<Wait>, now0: int, t0: int)
  {
    o.returned && o.calls == [] ==> t0 > 0 && 0 < |o.waits| <= |rounds| && rounds[|o.waits| - 1].now - now0 >= t0
  }

  lemma {:induction false} HonouredFrom(t0: int, now0: int, st: PollState, rounds: seq<Wait>, k: nat, acc: Outcome, env: Env)
    requires k <= |rounds| && TableOk(env.table, env.io) && env.fixed && |acc.waits| == k && t0 != 0 && t0 >= -1
    requires acc.calls == [] ==> st.timeout >= -1 && st.timeout != 0 && (st.timeout == -1 <==> t0 == -1)
    requires acc.calls == [] && t0 > 0 ==> st.realTimeout == t0 - (st.base - now0)
    requires acc.returned ==> acc.calls != []
    ensures Honoured(PollFrom(st, rounds, k, acc, env), rounds, now0, t0)
    decreases |rounds| - k
  {
    if k < |rounds| {
      var t := Round(st, rounds[k], env);
      var acc1 := Outcome(acc.calls + t.calls, acc.waits + [Cap(st.timeout, env.longIs32)],
                          acc.disarmed + t.disarmed, t.next.None?);
      if rounds[k].Ready? {
        DispatchCalls(rounds[k].results, env.table, env.io, env.sig);
      }
      if t.next.Some? {
        HonouredFrom(t0, now0, t.next.value, rounds, k + 1, acc1, env);
        RepollFrom(t.next.value, rounds, k + 1, acc1, env);
      }
    }
  }

  /** The corrected poll: no callback and a return means the requested timeout has fully elapsed. */
  lemma TimeoutHonoured(timeout: int, now0: int, rounds: seq<Wait>, env: Env)
    requires TableOk(env.table, env.io) && env.fixed && timeout != 0 && timeout >= -1
    ensures Honoured(PollSpec(timeout, now0, rounds, env), rounds, now0, timeout)
  {
    HonouredFrom(timeout, now0, PollState(timeout, timeout, RepollBudget, now0), rounds, 0, Outcome([], [], {}, false), env);
  }

  /** Three capped waits that each time out after the full `MaxSafeTimeout`. */
  function ThreeCappedWaits(now0: int): seq<Wait>
  {
    [Expired(now0 + MaxSafeTimeout), Expired(now0 + 2 * MaxSafeTimeout), Expired(now0 + 3 * MaxSafeTimeout)]
  }

  /**
   * As written (`base` fixed at entry), a request for three times the safe
   * maximum on a 32-bit `long` returns after two capped waits, when only two
   * thirds of it has elapsed; corrected, it waits all three.
   */
  lemma EarlyReturnAsWritten(now0: int, table: map<int, int>, io: map<int, Io>, sig: int)
    requires TableOk(table, io)
    ensures var o := PollSpec(3 * MaxSafeTimeout, now0, ThreeCappedWaits(now0), Env(table, io, sig, true, false));
            o.returned && o.calls == [] && |o.waits| == 2 &&
            ThreeCappedWaits(now0)[1].now - now0 < 3 * MaxSafeTimeout
    ensures var o := PollSpec(3 * MaxSafeTimeout, now0, ThreeCappedWaits(now0), Env(table, io, sig, true, true));
            o.returned && o.calls == [] && |o.waits| == 3
  {
    var rounds := ThreeCappedWaits(now0);
    var t := 3 * MaxSafeTimeout;
    var z := Outcome([], [], {}, false);
    var env := Env(table, io, sig, true, false);
    var s0 := PollState(t, t, RepollBudget, now0);
    var s1 := PollState(2 * MaxSafeTimeout, 2 * MaxSafeTimeout, RepollBudget, now0);
    var m := MaxSafeTimeout;
    assert Round(s0, rounds[0], env) == Turn([], {}, Some(s1));
    assert Round(s1, rounds[1], env) == Turn([], {}, None);
    assert PollFrom(s0, rounds, 0, z, env) == PollFrom(s1, rounds, 1, Outcome([], [m], {}, false), env);
    assert PollFrom(s1, rounds, 1, Outcome([], [m], {}, false), env) == Outcome([], [m, m], {}, true);
    var fenv := Env(table, io, sig, true, true);
    var f1 := PollState(2 * MaxSafeTimeout, 2 * MaxSafeTimeout, RepollBudget, now0 + MaxSafeTimeout);
    var f2 := PollState(MaxSafeTimeout, MaxSafeTimeout, RepollBudget, now0 + 2 * MaxSafeTimeout);
    assert Round(s0, rounds[0], fenv) == Turn([], {}, Some(f1));
    assert Round(f1, rounds[1], fenv) == Turn([], {}, Some(f2));
    assert Round(f2, rounds[2], fenv) == Turn([], {}, None);
    var a1 := Outcome([], [m], {}, false);
    assert PollFrom(s0, rounds, 0, z, fenv) == PollFrom(f1, rounds, 1, a1, fenv) by {
      var u := Round(s0, rounds[0], fenv);
      assert Outcome(z.calls + u.calls, z.waits + [Cap(s0.timeout, true)], z.disarmed + u.disarmed, false) == a1;
    }
    assert PollFrom(f1, rounds, 1, Outcome([], [m], {}, false), fenv) == PollFrom(f2, rounds, 2, Outcome([], [m, m], {}, false), fenv);
    assert PollFrom(f2, rounds, 2, Outcome([], [m, m], {}, false), fenv) == Outcome([], [m, m, m], {}, true);
  }

  // ---------------------------------------------------------------------------
  // The loop's poller state

  /** The registration uv__io_poll makes for a drained watcher: ADD or MOD, and whether an ADD was retried as MOD. */
  datatype Op = Add | Mod
  datatype Registration = Registration(fd: int, op: Op, retried: bool, mask: Mask)

  /** ADD for a watcher never registered (`events` 0), MOD otherwise; an ADD meets EEXIST when the kernel knows the descriptor. */
  function RegOf(w: Io, kernel: map<int, Mask>): Registration
  {
    Registration(w.fd, if w.events == {} then Add else Mod, w.events == {} && w.fd in kernel, w.pevents)
  }

  /** The watcher queue can be drained without an abort: each watcher asks for something, on a valid descriptor, registered if it says so. */
  ghost predicate DrainOk(s: seq<int>, io: map<int, Io>, kernel: map<int, Mask>, nwatchers: nat)
  {
    (forall i :: 0 <= i < |s| ==>
       s[i] in io && io[s[i]].pevents != {} && 0 <= io[s[i]].fd < nwatchers &&
       (io[s[i]].events != {} ==> io[s[i]].fd in kernel)) &&
    (forall i, j :: 0 <= i < j < |s| ==> s[i] != s[j] && io[s[i]].fd != io[s[j]].fd)
  }

  /** The registrations for the watchers `s`, in order. */
  function Registrations(s: seq<int>, io: map<int, Io>, kernel: map<int, Mask>): (r: seq<Registration>)
    requires forall i :: 0 <= i < |s| ==> s[i] in io
    ensures |r| == |s|
  {
    seq(|s|, i requires 0 <= i < |s| => RegOf(io[s[i]], kernel))
  }

  /** The kernel interest list after the watchers `s` are registered in order. */
  function Registered(s: seq<int>, io: map<int, Io>, kernel: map<int, Mask>): map<int, Mask>
    requires forall i :: 0 <= i < |s| ==> s[i] in io
    decreases |s|
  {
    if s == [] then kernel
    else Registered(s[..|s| - 1], io, kernel)[io[s[|s| - 1]].fd := io[s[|s| - 1]].pevents]
  }

  /**
   * After the drain the kernel watches each drained descriptor with its
   * watcher's requested mask, and every other descriptor as before.
   */
  lemma {:induction false} RegisteredAt(s: seq<int>, io: map<int, Io>, kernel: map<int, Mask>, fd: int)
    requires forall i :: 0 <= i < |s| ==> s[i] in io
    requires forall i, j :: 0 <= i < j < |s| ==> io[s[i]].fd != io[s[j]].fd
    ensures forall i :: 0 <= i < |s| && io[s[i]].fd == fd ==>
              fd in Registered(s, io, kernel) && Registered(s, io, kernel)[fd] == io[s[i]].pevents
    ensures (forall i :: 0 <= i < |s| ==> io[s[i]].fd != fd) ==>
              (fd in Registered(s, io, kernel) <==> fd in kernel) &&
              (fd in kernel ==> Registered(s, io, kernel)[fd] == kernel[fd])
    decreases |s|
  {
    if s != [] {
      var p := s[..|s| - 1];
      forall i | 0 <= i < |p|
        ensures p[i] == s[i]
      {
      }
      RegisteredAt(p, io, kernel, fd);
    }
  }

  /** Every drained watcher ends with `events == pevents`; the others are untouched. */
  function Synced(s: seq<int>, io: map<int, Io>): (r: map<int, Io>)
    ensures r.Keys == io.Keys
    ensures forall x :: x in io && x in s ==> r[x].events == io[x].pevents && r[x].pevents == io[x].pevents && r[x].fd == io[x].fd
    ensures forall x :: x in io && x !in s ==> r[x] == io[x]
  {
    map x | x in io :: if x in s then io[x].(events := io[x].pevents) else io[x]
  }

  /** One more drained watcher. */
  lemma DrainStep(s: seq<int>, k: nat, io0: map<int, Io>, kernel0: map<int, Mask>, nwatchers: nat)
    requires DrainOk(s, io0, kernel0, nwatchers) && k < |s|
    ensures s[..k + 1][..k] == s[..k] && s[..k + 1][k] == s[k]
    ensures Synced(s[..k + 1], io0) == Synced(s[..k], io0)[s[k] := io0[s[k]].(events := io0[s[k]].pevents)]
    ensures Synced(s[..k], io0)[s[k]] == io0[s[k]]
    ensures Registrations(s[..k + 1], io0, kernel0) == Registrations(s[..k], io0, kernel0) + [RegOf(io0[s[k]], kernel0)]
    ensures var w := io0[s[k]];
            (w.fd in Registered(s[..k], io0, kernel0) <==> w.fd in kernel0)
  {
    var p := s[..k];
    assert s[k] !in p by {
      forall i | 0 <= i < k
        ensures p[i] != s[k]
      {
        assert p[i] == s[i];
      }
    }
    assert Synced(s[..k + 1], io0) == Synced(p, io0)[s[k] := io0[s[k]].(events := io0[s[k]].pevents)] by {
      forall x | x in io0
        ensures x in s[..k + 1] <==> x in p || x == s[k]
      {
        assert s[..k + 1] == p + [s[k]];
      }
    }
    RegisteredAt(p, io0, kernel0, io0[s[k]].fd);
  }

  /** One turn of the registration loop on the poller's values: what it reads, and the state at `k + 1`. */
  lemma DrainAdvance(s: seq<int>, k: nat, io0: map<int, Io>, kernel0: map<int, Mask>, log0: seq<Registration>, nwatchers: nat,
                     io: map<int, Io>, kernel: map<int, Mask>, log: seq<Registration>)
    requires DrainOk(s, io0, kernel0, nwatchers) && k < |s|
    requires io == Synced(s[..k], io0) && kernel == Registered(s[..k], io0, kernel0)
    requires log == log0 + Registrations(s[..k], io0, kernel0)
    ensures s[k] in io && io[s[k]] == io0[s[k]]
    ensures io[s[k]].pevents != {} && (io[s[k]].events != {} ==> io[s[k]].fd in kernel)
    ensures io[s[k] := io[s[k]].(events := io[s[k]].pevents)] == Synced(s[..k + 1], io0)
    ensures kernel[io[s[k]].fd := io[s[k]].pevents] == Registered(s[..k + 1], io0, kernel0)
    ensures log + [RegOf(io[s[k]], kernel)] == log0 + Registrations(s[..k + 1], io0, kernel0)
  {
    DrainStep(s, k, io0, kernel0, nwatchers);
  }

  class Loop {
    /** The link slots of `loop->watcher_queue` and of every watcher. */
    const arena: Arena
    /** The sentinel `loop->watcher_queue`. */
    const queue: int
    /** `loop->signal_io_watcher`. */
    const sig: int
    /** `loop->nwatchers`. */
    const nwatchers: nat
    /** The `events` array of uv__io_poll, which `loop->watchers[nwatchers]` exposes while a batch runs. */
    const results: array<Event>

    /** The `uv__io_t` records by slot. */
    var io: map<int, Io>
    /** `loop->watchers`: the watcher of each watched descriptor. */
    var table: map<int, int>
    /** `loop->nfds`. */
    var nfds: nat
    /** The epoll interest list. */
    var kernel: map<int, Mask>
    /** `loop->watchers[nwatchers + 1]`: the number of pending results, 0 outside a batch. */
    var pending: nat
    /** `loop->time`. */
    var time: int
    /** The `epoll_ctl` registrations made by uv__io_poll, oldest first. */
    var log: seq<Registration>

    predicate IsWatcher(w: int)
    {
      0 <= w < arena.N && w != queue
    }

    /** The registration queue is the only non-empty list, and every queued watcher is on it. */
    ghost predicate QueueOk()
      reads arena, arena.next, arena.prev
    {
      arena.Valid() && 0 <= queue < arena.N && queue in arena.lists &&
      (forall h :: h in arena.lists && h != queue ==> arena.lists[h] == []) &&
      (forall x :: x in arena.owner ==> arena.owner[x] == queue)
    }

    ghost predicate Valid()
      reads this, arena, arena.next, arena.prev
    {
      QueueOk() && results.Length == MaxEvents && pending <= MaxEvents && TableOk(table, io)
    }

    /** The watchers waiting for registration, oldest first. */
    ghost function Queued(): seq<int>
      reads arena
      requires queue in arena.lists
    {
      arena.lists[queue]
    }

    /** A loop with no watchers and an empty interest list, over `n` link slots; slot 0 is the queue, slot 1 the signal watcher. */
    constructor (n: nat, nwatchers: nat, now: int)
      requires n >= 2
      ensures Valid() && fresh(arena) && arena.N == n && this.nwatchers == nwatchers
      ensures Queued() == [] && io == map[] && table == map[] && nfds == 0 && kernel == map[] && log == [] && time == now
    {
      var a := new Arena(n);
      arena := a;
      queue := 0;
      sig := 1;
      this.nwatchers := nwatchers;
      results := new Event[MaxEvents](_ => Event(-1, {}));
      io := map[];
      table := map[];
      nfds := 0;
      kernel := map[];
      pending := 0;
      time := now;
      log := [];
      new;
      a.Init(0);
    }

    /**
     * `epoll_ctl` with ADD or MOD: ADD fails with EEXIST on a registered
     * descriptor, MOD with ENOENT on an unregistered one.
     */
    method Ctl(op: Op, fd: int, mask: Mask) returns (err: int)
      modifies this`kernel
      ensures op == Add && old(fd in kernel) ==> err == EEXIST && kernel == old(kernel)
      ensures op == Mod && old(fd !in kernel) ==> err == ENOENT && kernel == old(kernel)
      ensures (op == Add) == old(fd !in kernel) ==> err == 0 && kernel == old(kernel)[fd := mask]
    {
      if (op == Add) == (fd !in kernel) {
        kernel := kernel[fd := mask];
        err := 0;
      } else {
        err := if op == Add then EEXIST else ENOENT;
      }
    }

    /**
     * uv__platform_invalidate_fd: every pending result for `fd` is disarmed,
     * the others are left alone, and the descriptor leaves the interest list.
     */
    method InvalidateFd(fd: int)
      requires Valid() && fd >= 0
      modifies results, this`kernel
      ensures Valid()
      ensures results[..pending] == Invalidated(old(results[..pending]), fd)
      ensures results[pending..] == old(results[pending..])
      ensures kernel == old(kernel) - {fd}
    {
      var i := 0;
      while i < pending
        invariant 0 <= i <= pending
        invariant forall j :: 0 <= j < i ==> results[j] == Invalidated(old(results[..pending]), fd)[j]
        invariant forall j :: i <= j < results.Length ==> results[j] == old(results[j])
        invariant kernel == old(kernel)
      {
        if results[i].fd == fd {
          results[i] := results[i].(fd := -1);
        }
        i := i + 1;
      }
      kernel := kernel - {fd};
    }

    /**
     * The registration loop of uv__io_poll: each queued watcher leaves the
     * queue as a self-cycle, is registered with ADD or MOD (an ADD that meets
     * EEXIST is retried as MOD), and ends with `events == pevents`.
     */
    method Drain()
      requires Valid() && DrainOk(Queued(), io, kernel, nwatchers)
      modifies this, arena, arena.next, arena.prev
      ensures Valid() && Queued() == []
      ensures forall x :: x in old(Queued()) ==> x in arena.lists && arena.lists[x] == [] && x !in arena.owner
      ensures io == Synced(old(Queued()), old(io))
      ensures kernel == Registered(old(Queued()), old(io), old(kernel))
      ensures log == old(log) + Registrations(old(Queued()), old(io), old(kernel))
      ensures table == old(table) && nfds == old(nfds) && pending == old(pending) && time == old(time)
    {
      ghost var s, io0, kernel0, log0 := Queued(), io, kernel, log;
      SoleList(arena.N, arena.next[..], arena.prev[..], arena.lists, arena.owner, queue);
      assert s[..0] == [];
      var empty := arena.IsEmpty(queue);
      ghost var k := 0;
      while !empty
        invariant UnqueuedUpTo(s, k) && RegisteredUpTo(s, k, io0, kernel0, log0) && (empty <==> k == |s|)
        invariant io.Keys == io0.Keys
        invariant table == old(table) && nfds == old(nfds) && pending == old(pending) && time == old(time)
        decreases |s| - k
      {
        DrainNext(s, k, io0, kernel0, log0);
        k := k + 1;
        empty := arena.IsEmpty(queue);
      }
      assert s[..k] == s;
    }

    /** The registration loop has taken the first `k` watchers of `s` off the queue, leaving each a self-cycle. */
    ghost predicate UnqueuedUpTo(s: seq<int>, k: nat)
      reads arena, arena.next, arena.prev
    {
      k <= |s| && QueueOk() && Queued() == s[k..] &&
      (forall x :: x in s[..k] ==> x in arena.lists && arena.lists[x] == [] && x !in arena.owner)
    }

    /** The registration loop has registered the first `k` watchers of `s`, in order. */
    ghost predicate RegisteredUpTo(s: seq<int>, k: nat, io0: map<int, Io>, kernel0: map<int, Mask>, log0: seq<Registration>)
      reads this
    {
      DrainOk(s, io0, kernel0, nwatchers) && k <= |s| &&
      io == Synced(s[..k], io0) &&
      kernel == Registered(s[..k], io0, kernel0) &&
      log == log0 + Registrations(s[..k], io0, kernel0)
    }

    /** One turn of the registration loop: the `k`th queued watcher is drained and registered. */
    method DrainNext(ghost s: seq<int>, ghost k: nat, ghost io0: map<int, Io>, ghost kernel0: map<int, Mask>, ghost log0: seq<Registration>)
      requires UnqueuedUpTo(s, k) && RegisteredUpTo(s, k, io0, kernel0, log0) && k < |s|
      modifies this, arena, arena.next, arena.prev
      ensures UnqueuedUpTo(s, k + 1) && RegisteredUpTo(s, k + 1, io0, kernel0, log0)
      ensures table == old(table) && nfds == old(nfds) && pending == old(pending) && time == old(time)
    {
      DrainAdvance(s, k, io0, kernel0, log0, nwatchers, io, kernel, log);
      var q := arena.Head(queue);
      Unqueue(q, s, k);
      Register(q);
    }

    /** The front watcher leaves the registration queue and becomes a self-cycle (QUEUE_REMOVE, QUEUE_INIT). */
    method Unqueue(q: int, ghost s: seq<int>, ghost k: nat)
      requires UnqueuedUpTo(s, k) && k < |s| && q == s[k]
      modifies arena, arena.next, arena.prev
      ensures UnqueuedUpTo(s, k + 1)
    {
      ghost var rest := arena.lists[queue];
      assert arena.owner[rest[0]] == queue;
      arena.Remove(q);
      assert arena.lists[queue] == s[k + 1..] by {
        assert s[k..][1..] == s[k + 1..];
      }
      arena.Init(q);
      assert forall x :: x in s[..k + 1] ==> x in s[..k] || x == q;
    }

    /**
     * The registration of one drained watcher: ADD when it was never
     * registered, else MOD; an ADD that meets EEXIST is retried as MOD; then
     * `events` takes the requested `pevents`.
     */
    method Register(q: int)
      requires q in io && io[q].pevents != {} && (io[q].events != {} ==> io[q].fd in kernel)
      modifies this`io, this`kernel, this`log
      ensures io == old(io)[q := old(io[q]).(events := old(io[q]).pevents)]
      ensures kernel == old(kernel)[old(io[q]).fd := old(io[q]).pevents]
      ensures log == old(log) + [RegOf(old(io[q]), old(kernel))]
    {
      var w := io[q];
      var op := if w.events == {} then Add else Mod;
      var err := Ctl(op, w.fd, w.pevents);
      var retried := false;
      if err != 0 {
        // Only an ADD of a known descriptor fails; any other failure aborts, which the precondition rules out.
        err := Ctl(Mod, w.fd, w.pevents);
        retried := true;
      }
      log := log + [Registration(w.fd, op, retried, w.pevents)];
      io := io[q := w.(events := w.pevents)];
    }

    /**
     * One batch of the poll: the kernel fills `events` with `rs`, the batch
     * becomes visible to uv__platform_invalidate_fd, and each result is
     * dispatched in order; results for descriptors without a watcher are
     * removed from the interest list.
     */
    method RunBatch(rs: seq<Event>) returns (b: Batch)
      requires results.Length == MaxEvents && TableOk(table, io) && |rs| <= MaxEvents
      modifies results, this`kernel, this`pending
      ensures b == Dispatch(rs, table, io, sig)
      ensures kernel == old(kernel) - b.disarmed
      ensures pending == |rs| && results[..|rs|] == rs
    {
      forall j | 0 <= j < |rs| {
        results[j] := rs[j];
      }
      pending := |rs|;
      b := Batch([], false, 0, {});
      var i := 0;
      while i < |rs|
        invariant 0 <= i <= |rs| && results[..|rs|] == rs && pending == |rs|
        invariant b == Dispatch(rs[..i], table, io, sig)
        invariant kernel == old(kernel) - b.disarmed
      {
        assert rs[..i + 1][..i] == rs[..i];
        var e := results[i];
        if e.fd != -1 {
          if e.fd !in table {
            kernel := kernel - {e.fd};
            b := b.(disarmed := b.disarmed + {e.fd});
          } else {
            var w := table[e.fd];
            var m := Deliver(e.mask, io[w].pevents);
            if m != {} {
              if w == sig {
                b := b.(signals := true, nevents := b.nevents + 1);
              } else {
                b := b.(calls := b.calls + [Call(w, m)], nevents := b.nevents + 1);
              }
            }
          }
        }
        i := i + 1;
      }
      assert rs[..i] == rs;
    }

    /**
     * uv__io_poll: with no descriptor watched it returns at once (the queue
     * is then empty); otherwise it registers the queued watchers and polls,
     * with the outcome `PollSpec` gives.
     */
    method Poll(timeout: int, longIs32: bool, fixed: bool, rounds: seq<Wait>) returns (o: Outcome)
      requires Valid() && timeout >= -1 && pending == 0 && RoundsOk(rounds, nwatchers)
      requires nfds == 0 ==> Queued() == []
      requires nfds != 0 ==> DrainOk(Queued(), io, kernel, nwatchers)
      modifies this, arena, arena.next, arena.prev, results
      ensures Valid() && Queued() == [] && pending == 0 && table == old(table) && nfds == old(nfds)
      ensures old(nfds) == 0 ==>
                o == Outcome([], [], {}, true) && io == old(io) && kernel == old(kernel) && log == old(log) && time == old(time)
      ensures old(nfds) != 0 ==>
                io == Synced(old(Queued()), old(io)) &&
                log == old(log) + Registrations(old(Queued()), old(io), old(kernel)) &&
                o == PollSpec(timeout, old(time), rounds, Env(table, io, sig, longIs32, fixed)) &&
                kernel == Registered(old(Queued()), old(io), old(kernel)) - o.disarmed
    {
      if nfds == 0 {
        return Outcome([], [], {}, true);
      }
      Drain();
      assert BatchesFit(rounds);
      o := Wait(timeout, longIs32, fixed, rounds);
    }

    /**
     * The `for (;;)` of uv__io_poll over the waits the kernel returns: each
     * turn waits with the capped timeout, and the poll returns, repolls or
     * waits again as `Round` says.
     */
    method Wait(timeout: int, longIs32: bool, fixed: bool, rounds: seq<Wait>) returns (o: Outcome)
      requires results.Length == MaxEvents && TableOk(table, io) && BatchesFit(rounds)
      modifies results, this`kernel, this`pending, this`time
      ensures |o.waits| <= |rounds|
      ensures o == PollSpec(timeout, old(time), rounds, Env(table, io, sig, longIs32, fixed))
      ensures kernel == old(kernel) - o.disarmed && pending == 0
      ensures time == if |o.waits| == 0 then old(time) else rounds[|o.waits| - 1].now
    {
      ghost var env := Env(table, io, sig, longIs32, fixed);
      ghost var kernel0, time0 := kernel, time;
      var st := PollState(timeout, timeout, RepollBudget, time);
      o := Outcome([], [], {}, false);
      pending := 0;
      var k := 0;
      while k < |rounds|
        invariant k <= |rounds| && |o.waits| == k && !o.returned
        invariant PollFrom(st, rounds, k, o, env) == PollSpec(timeout, time0, rounds, env)
        invariant kernel == kernel0 - o.disarmed && pending == 0
        invariant time == if k == 0 then time0 else rounds[k - 1].now
        decreases |rounds| - k
      {
        var calls, disarmed, next := PollOnce(st, rounds[k], longIs32, fixed);
        o := Outcome(o.calls + calls, o.waits + [Cap(st.timeout, longIs32)], o.disarmed + disarmed, next.None?);
        if next.None? {
          return;
        }
        st := next.value;
        k := k + 1;
      }
    }

    /**
     * One turn of the `for (;;)`: wait with the capped timeout, update the
     * loop time, then run the batch, and decide between returning, polling
     * again without blocking, waiting again, or waiting for what is left of
     * the timeout.
     */
    method PollOnce(st: PollState, w: Wait, longIs32: bool, fixed: bool) returns (calls: seq<Call>, disarmed: set<int>, next: Option<PollState>)
      requires results.Length == MaxEvents && TableOk(table, io) && (w.Ready? ==> |w.results| <= MaxEvents) && pending == 0
      modifies results, this`kernel, this`pending, this`time
      ensures Turn(calls, disarmed, next) == Round(st, w, Env(table, io, sig, longIs32, fixed))
      ensures kernel == old(kernel) - disarmed && pending == 0 && time == w.now
    {
      var t := Cap(st.timeout, longIs32);
      time := w.now;
      calls, disarmed := [], {};
      var events := false;
      var signals := false;
      if w.Ready? {
        var b := RunBatch(w.results);
        pending := 0;
        calls, disarmed := b.calls, b.disarmed;
        signals := b.signals;
        events := b.nevents != 0;
        if signals {
          calls := calls + [Call(sig, POLLIN)];
        }
      }
      if signals {
        next := None;
      } else if events {
        if |w.results| == MaxEvents && st.count - 1 != 0 {
          next := Some(st.(timeout := 0, count := st.count - 1));
        } else {
          next := None;
        }
      } else if t == 0 {
        next := None;
      } else if t == -1 {
        next := Some(st.(timeout := t));
      } else {
        var left := st.realTimeout - (time - st.base);
        if left <= 0 {
          next := None;
        } else {
          next := Some(st.(timeout := left, realTimeout := left, base := if fixed then time else st.base));
        }
      }
    }
  }
}
