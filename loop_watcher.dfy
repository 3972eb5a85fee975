/**
 * The loop-phase watchers of src/unix/loop-watcher.c.
 *
 * One macro defines the prepare, check and idle watchers; they differ only in
 * the loop queue they use, so one class models all three.  A `Watchers` object
 * is one such queue: the loop's sentinel `head`, the handles linked into it,
 * each handle's active flag and its callback.  The on-stack queue that
 * `uv__run_*` moves the handles to is the arena slot `scratch`.
 */
module LoopWatcher {
  import opened Common
  import opened Queue

  class Watchers {
    /** The link slots of the loop queue and of every handle. */
    const arena: Arena
    /** The sentinel `loop->name##_handles`. */
    const head: int
    /** The local `queue` of `uv__run_*`. */
    const scratch: int

    /** The handles whose active flag is set. */
    var active: set<int>
    /** `handle->name##_cb` of every initialised handle; `None` is NULL. */
    var cb: map<int, Option<Callback>>

    /** A slot that can be a watcher handle. */
    predicate IsHandle(h: int)
    {
      0 <= h < arena.N && h != head && h != scratch
    }

    /** Active handles are exactly the queued ones, all queued on `head`, and each has a callback. */
    ghost predicate Valid()
      reads this, arena, arena.next, arena.prev
    {
      arena.Valid() &&
      0 <= head < arena.N && 0 <= scratch < arena.N && head != scratch &&
      head in arena.lists && arena.lists.Keys <= {head, scratch} &&
      (scratch in arena.lists ==> arena.lists[scratch] == []) && scratch !in arena.owner &&
      active == arena.owner.Keys &&
      (forall x :: x in arena.owner ==> arena.owner[x] == head) &&
      (forall x :: x in active ==> x in cb && cb[x].Some?)
    }

    /** The handles in queue order. */
    ghost function Queued(): seq<int>
      reads this, arena
      requires head in arena.lists
    {
      arena.lists[head]
    }

    /** A loop with an empty watcher queue over `n` link slots; slots 0 and 1 are the two sentinels. */
    constructor (n: nat)
      requires n >= 2
      ensures Valid() && fresh(arena) && arena.N == n
      ensures Queued() == [] && active == {} && cb == map[]
    {
      var a := new Arena(n);
      arena := a;
      head := 0;
      scratch := 1;
      active := {};
      cb := map[];
      new;
      a.Init(0);
    }

    /** uv_##name##_init: the handle's callback becomes NULL; it stays inactive. */
    method Init(h: int) returns (r: int)
      requires Valid() && IsHandle(h) && h !in active
      modifies this
      ensures Valid() && r == 0
      ensures cb == old(cb)[h := None] && active == old(active)
    {
      cb := cb[h := None];
      r := 0;
    }

    /**
     * uv_##name##_start: an active handle is left alone; a NULL callback is
     * refused; otherwise the handle goes to the head of the queue and becomes
     * active with the callback.
     */
    method Start(h: int, f: Option<Callback>) returns (r: int)
      requires Valid() && IsHandle(h)
      modifies this, arena, arena.next, arena.prev
      ensures Valid()
      ensures old(h in active) ==> r == 0 && Queued() == old(Queued()) && active == old(active) && cb == old(cb)
      ensures old(h !in active) && f == None ==>
                r == UV_EINVAL && Queued() == old(Queued()) && active == old(active) && cb == old(cb)
      ensures old(h !in active) && f != None ==>
                r == 0 && Queued() == [h] + old(Queued()) && active == old(active) + {h} && cb == old(cb)[h := f]
    {
      if h in active {
        return 0;
      }
      if f == None {
        return UV_EINVAL;
      }
      arena.InsertHead(head, h);
      cb := cb[h := f];
      active := active + {h};
      r := 0;
    }

    /** uv_##name##_stop: an inactive handle is left alone; otherwise it leaves the queue and becomes inactive. */
    method Stop(h: int) returns (r: int)
      requires Valid() && IsHandle(h)
      modifies this, arena, arena.next, arena.prev
      ensures Valid() && r == 0 && cb == old(cb)
      ensures old(h !in active) ==> Queued() == old(Queued()) && active == old(active)
      ensures old(h in active) ==>
                Queued() == Without(old(Queued()), IndexOf(old(Queued()), h)) && active == old(active) - {h}
    {
      if h !in active {
        return 0;
      }
      arena.Remove(h);
      active := active - {h};
      r := 0;
    }

    /** uv__##name##_close: the same as stopping the handle. */
    method Close(h: int)
      requires Valid() && IsHandle(h)
      modifies this, arena, arena.next, arena.prev
      ensures Valid() && cb == old(cb)
      ensures old(h !in active) ==> Queued() == old(Queued()) && active == old(active)
      ensures old(h in active) ==>
                Queued() == Without(old(Queued()), IndexOf(old(Queued()), h)) && active == old(active) - {h}
    {
      var _ := Stop(h);
    }

    /**
     * uv__run_##name: every handle queued on entry has its callback invoked
     * once, front first, and is put back at the tail just before, so the queue
     * ends as it began.  `calls` lists the handles in invocation order.
     */
    method Run() returns (calls: seq<int>)
      requires Valid()
      modifies arena, arena.next, arena.prev
      ensures Valid()
      ensures calls == old(Queued()) && Queued() == old(Queued())
      ensures active == old(active) && cb == old(cb)
    {
      ghost var s := arena.lists[head];
      arena.Move(head, scratch);
      calls := [];
      var empty := arena.IsEmpty(scratch);
      while !empty
        invariant arena.Valid()
        invariant arena.lists.Keys == {head, scratch}
        invariant |calls| <= |s| && calls == s[..|calls|]
        invariant arena.lists[head] == calls && arena.lists[scratch] == s[|calls|..]
        invariant empty <==> |calls| == |s|
        invariant arena.owner.Keys == active
        decreases |s| - |calls|
      {
        var q := arena.Head(scratch);
        Requeue(q);
        Advance(s, calls);
        calls := calls + [q];
        empty := arena.IsEmpty(scratch);
      }
      SoleOwner(arena.lists, arena.owner, head, scratch);
    }
    /** One turn of `uv__run_*`'s loop: the front handle of `scratch` moves to the tail of `head`. */
    method Requeue(q: int)
      requires arena.Valid() && arena.lists.Keys == {head, scratch} && head != scratch
      requires arena.lists[scratch] != [] && q == arena.lists[scratch][0]
      modifies arena, arena.next, arena.prev
      ensures arena.Valid() && arena.lists.Keys == {head, scratch}
      ensures arena.lists[head] == old(arena.lists[head]) + [q]
      ensures arena.lists[scratch] == old(arena.lists[scratch])[1..]
      ensures arena.owner.Keys == old(arena.owner.Keys)
    {
      ghost var rest := arena.lists[scratch];
      assert arena.owner[rest[0]] == scratch;
      arena.Remove(q);
      assert arena.lists[scratch] == rest[1..] by {
        PopFront(rest);
      }
      arena.InsertTail(head, q);
    }
  }

  /** One more element of `s` taken from the unvisited suffix extends the visited prefix. */
  lemma Advance(s: seq<int>, calls: seq<int>)
    requires |calls| < |s| && calls == s[..|calls|]
    ensures calls + [s[|calls|..][0]] == s[..|calls| + 1]
    ensures s[|calls|..][1..] == s[|calls| + 1..]
  {
  }

  /**
   * Starting a handle and then stopping it leaves the loop queue as it was:
   * `Start` ensures `Queued() == [h] + old(Queued())` and `Stop` ensures
   * `Queued()` is the old contents without `h`, so composing the two
   * contracts on a handle that was not queued gives back the original queue.
   */
  lemma StartThenStop(s: seq<int>, h: int)
    requires h !in s
    ensures Without([h] + s, IndexOf([h] + s, h)) == s
  {
    assert ([h] + s)[1..] == s;
  }
}
