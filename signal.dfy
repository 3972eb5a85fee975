/**
 * The process-wide signal registry of src/unix/signal.c: the tree of started
 * `uv_signal_t` handles, the handler the OS has installed per signal number,
 * the per-handle fields, and each loop's signal pipe as a byte string.
 *
 * The signal lock is a precondition of mutual exclusion: every operation runs
 * alone. `sigaction` is an update of the installed-handler map.
 */
module Signal {
  import opened Common
  import opened SignalTree
  import opened SignalMsg

  /** What `sigaction` installed for a number; a number absent from the map has SIG_DFL. */
  datatype Installed = OneShot | Persistent

  /** The fields of a `uv_signal_t` the registry uses; its address is the key of the `handles` map. */
  datatype Handle = Handle(loop: nat, signum: int, oneShot: bool, cb: Option<Callback>,
                           active: bool, caught: nat, dispatched: nat)

  /** Handle addresses are 64-bit pointers. */
  const MaxAddr: nat := 0x1_0000_0000_0000_0000

  /** Bytes a Linux pipe holds before a non-blocking write fails with EAGAIN. */
  const PipeCapacity: nat := 65536

  /** The numbers `sigaction` accepts on Linux with glibc: 1 to 64 except SIGKILL, SIGSTOP and the two glibc reserves. */
  predicate Catchable(signum: int)
  {
    1 <= signum <= 64 && signum != 9 && signum != 19 && signum != 32 && signum != 33
  }

  /** The tree key of handle `id`: uv__signal_compare reads signum, the one-shot flag, loop and address. */
  function KeyOf(id: nat, h: Handle): Key
  {
    Key(h.signum, h.oneShot, h.loop, id)
  }

  /** A snapshot of everything the registry operations read and write. */
  datatype Table = Table(tree: seq<Key>, disp: map<int, Installed>,
                         handles: map<nat, Handle>, pipes: map<nat, seq<byte>>)

  /** Same handles, each on the same loop. */
  ghost predicate SameLoops(a: map<nat, Handle>, b: map<nat, Handle>)
  {
    a.Keys == b.Keys && forall id :: id in a ==> b[id].loop == a[id].loop
  }

  /** The tree holds exactly the started handles, each under its current key. */
  ghost predicate TreeInv(tree: seq<Key>, handles: map<nat, Handle>)
  {
    Sorted(tree) &&
    (forall k :: k in tree ==> k.signum != 0 && k.id in handles && KeyOf(k.id, handles[k.id]) == k) &&
    (forall id :: id in handles && handles[id].signum != 0 ==> KeyOf(id, handles[id]) in tree)
  }

  predicate HandleOk(id: nat, h: Handle, loops: set<nat>)
  {
    id < MaxAddr && h.loop > 0 && (h.active <==> h.signum != 0) &&
    (h.signum != 0 ==> Catchable(h.signum) && h.loop in loops)
  }

  /** Every handle has a real address and loop; a started one is active, on a catchable number, on a loop with a pipe. */
  ghost predicate HandlesInv(handles: map<nat, Handle>, loops: set<nat>)
  {
    forall id :: id in handles ==> HandleOk(id, handles[id], loops)
  }

  /**
   * A handler is installed exactly for the numbers some handle watches, and it
   * is persistent whenever a persistent handle watches the number.
   */
  ghost predicate DispInv(tree: seq<Key>, disp: map<int, Installed>)
  {
    (forall s :: s in disp <==> FirstHandle(tree, s).Some?) &&
    (forall k :: k in tree && !k.oneShot ==> k.signum in disp && disp[k.signum] == Persistent)
  }

  /** A pipe holds whole messages for handles of its own loop, and no more than the pipe holds. */
  ghost predicate PipeOk(p: seq<byte>, l: nat, handles: map<nat, Handle>)
  {
    |p| <= PipeCapacity && |p| % 16 == 0 &&
    forall m :: m in Frame(p) ==> m.handle in handles && handles[m.handle].loop == l && m.signum != 0
  }

  ghost predicate PipesInv(pipes: map<nat, seq<byte>>, handles: map<nat, Handle>)
  {
    forall l :: l in pipes ==> PipeOk(pipes[l], l, handles)
  }

  /**
   * The installed handler follows the first handle: one-shot exactly when the
   * first (hence every) handle for the number is one-shot.
   */
  ghost predicate ExactInv(tree: seq<Key>, disp: map<int, Installed>)
  {
    forall s :: s in disp && FirstHandle(tree, s).Some? ==>
      (disp[s] == OneShot <==> FirstHandle(tree, s).value.oneShot)
  }

  ghost predicate TreeOk(t: Table) { TreeInv(t.tree, t.handles) }
  ghost predicate HandlesOk(t: Table) { HandlesInv(t.handles, t.pipes.Keys) }
  ghost predicate DispOk(t: Table) { DispInv(t.tree, t.disp) }
  ghost predicate PipesOk(t: Table) { PipesInv(t.pipes, t.handles) }
  ghost predicate Exact(t: Table) { ExactInv(t.tree, t.disp) }

  /** The registry invariant. */
  ghost predicate TableOk(t: Table)
  {
    TreeOk(t) && HandlesOk(t) && DispOk(t) && PipesOk(t)
  }

  /** uv__signal_stop. */
  function StopSpec(t: Table, id: nat): (r: Table)
    requires Sorted(t.tree) && id in t.handles
    ensures Sorted(r.tree) && r.pipes == t.pipes && SameLoops(t.handles, r.handles)
  {
    var h := t.handles[id];
    if h.signum == 0 then t
    else
      var tree := Remove(t.tree, KeyOf(id, h));
      var first := FirstHandle(tree, h.signum);
      var disp :=
        if first.None? then t.disp - {h.signum}
        else if first.value.oneShot && !h.oneShot then t.disp[h.signum := OneShot]
        else t.disp;
      Table(tree, disp, t.handles[id := h.(signum := 0, active := false)], t.pipes)
  }

  /** Whether uv__signal_start installs the handler: no handle yet, or a persistent start over one-shot handles. */
  function Installs(tree: seq<Key>, signum: int, oneshot: bool): bool
  {
    var first := FirstHandle(tree, signum);
    first.None? || (!oneshot && first.value.oneShot)
  }

  /**
   * The end of a successful uv__signal_start on a stopped handle: number and
   * flag set, entry inserted, callback stored, handle active, and the handler
   * installed with the requested kind when `Installs` says so.
   */
  function Place(t: Table, id: nat, cb: Callback, signum: int, oneshot: bool, flag: bool): Table
    requires TreeOk(t) && id in t.handles && t.handles[id].signum == 0 && signum != 0
  {
    var h1 := t.handles[id].(signum := signum, oneShot := flag, cb := Some(cb), active := true);
    var disp := if Installs(t.tree, signum, oneshot) then t.disp[signum := if oneshot then OneShot else Persistent] else t.disp;
    FreeKey(t, id, h1);
    Table(Insert(t.tree, KeyOf(id, h1)), disp, t.handles[id := h1], t.pipes)
  }

  /**
   * uv__signal_start. With `fixed` false the one-shot flag is kept from any
   * earlier one-shot start, as the source does; with `fixed` true it is set to
   * `oneshot`.
   */
  function StartSpec(t: Table, id: nat, cb: Callback, signum: int, oneshot: bool, fixed: bool): (r: (Table, int))
    requires TreeOk(t) && id in t.handles
    ensures r.1 == 0 || r.1 == UV_EINVAL
  {
    var h := t.handles[id];
    if signum == 0 then (t, UV_EINVAL)
    else if signum == h.signum then (t.(handles := t.handles[id := h.(cb := Some(cb))]), 0)
    else
      var t1 := StopSpec(t, id);
      StopKeepsTree(t, id);
      if Installs(t1.tree, signum, oneshot) && !Catchable(signum) then (t1, UV_EINVAL)
      else (Place(t1, id, cb, signum, oneshot, if fixed then oneshot else h.oneShot || oneshot), 0)
  }

  /**
   * The one-shot flag as written is sticky: a handle started with
   * uv_signal_start_oneshot, stopped, then started with uv_signal_start keeps
   * its one-shot flag. The handler is then installed persistent while the
   * first handle is one-shot, and the first signal stops the handle.
   */
  lemma StickyOneShotAsWritten(t: Table, id: nat, cb: Callback, signum: int)
    requires TableOk(t) && id in t.handles && t.handles[id].signum == 0
    requires Catchable(signum) && FirstHandle(t.tree, signum).None?
    ensures var t1 := StartSpec(t, id, cb, signum, true, false).0;
            TreeOk(t1) && id in t1.handles &&
            var t2 := StopSpec(t1, id);
            TreeOk(t2) && id in t2.handles &&
            var r := StartSpec(t2, id, cb, signum, false, false);
            r.1 == 0 && id in r.0.handles && signum in r.0.disp && Sorted(r.0.tree) &&
            r.0.handles[id].oneShot && r.0.disp[signum] == Persistent && !Exact(r.0) &&
            DispatchOne(r.0, Msg(id, signum)).0.handles[id].signum == 0
  {
    var k1 := Key(signum, true, t.handles[id].loop, id);
    var t1 := StartSpec(t, id, cb, signum, true, false).0;
    StickyStart(t, id, cb, signum);
    var t2 := StopSpec(t1, id);
    StickyStop(t, t1, id, k1);
    var r := StartSpec(t2, id, cb, signum, false, false);
    assert r.0.tree == Insert(t.tree, k1);
    InsertFirst(t.tree, k1);
    assert FirstHandle(r.0.tree, signum) == Some(k1);
  }

  /** The first, one-shot start of the sticky sequence inserts the handle's one-shot key. */
  lemma StickyStart(t: Table, id: nat, cb: Callback, signum: int)
    requires TableOk(t) && id in t.handles && t.handles[id].signum == 0 && Catchable(signum)
    ensures var t1 := StartSpec(t, id, cb, signum, true, false).0;
            TreeOk(t1) && id in t1.handles && t1.handles[id].loop == t.handles[id].loop &&
            t1.tree == Insert(t.tree, Key(signum, true, t.handles[id].loop, id))
  {
    var h := t.handles[id];
    FreeKey(t, id, h.(signum := signum));
  }

  /** Stopping it again removes that key and leaves the flag set. */
  lemma StickyStop(t: Table, t1: Table, id: nat, k1: Key)
    requires TableOk(t) && id in t.handles && t.handles[id].signum == 0
    requires k1.signum != 0 && k1.oneShot && k1.id == id && k1.loop == t.handles[id].loop
    requires TreeOk(t1) && id in t1.handles && t1.tree == Insert(t.tree, k1)
    ensures var t2 := StopSpec(t1, id);
            TreeOk(t2) && id in t2.handles && t2.tree == t.tree &&
            t2.handles[id].oneShot && t2.handles[id].signum == 0 && t2.handles[id].loop == t.handles[id].loop
  {
    FreeKey(t, id, t.handles[id].(signum := k1.signum, oneShot := true));
    RemoveInsert(t.tree, k1);
    StopKeepsTree(t1, id);
  }

  /** A stopped handle has no entry in the tree, whatever key it is given. */
  lemma FreeKey(t: Table, id: nat, h: Handle)
    requires TreeOk(t) && id in t.handles && t.handles[id].signum == 0 && h.signum != 0
    ensures KeyOf(id, h) !in t.tree
  {
  }

  lemma StopKeepsTree(t: Table, id: nat)
    requires TreeOk(t) && id in t.handles
    ensures TreeOk(StopSpec(t, id))
  {
  }

  /** Registry changes that keep every handle on its loop and leave the pipes alone keep the pipes well-formed. */
  lemma PipesKeep(t: Table, r: Table)
    requires PipesOk(t) && r.pipes == t.pipes && SameLoops(t.handles, r.handles)
    ensures PipesOk(r)
  {
    forall l | l in r.pipes
      ensures PipeOk(r.pipes[l], l, r.handles)
    {
      assert PipeOk(t.pipes[l], l, t.handles);
    }
  }

  /** Stopping keeps the handler map in step with the tree. */
  lemma StopKeepsDisp(t: Table, id: nat)
    requires TreeOk(t) && DispOk(t) && id in t.handles
    ensures DispOk(StopSpec(t, id))
  {
    var h := t.handles[id];
    if h.signum != 0 {
      var r := StopSpec(t, id);
      var s0 := h.signum;
      assert KeyOf(id, h) in t.tree;
      FirstHandleLeast(t.tree, s0);
      assert s0 in t.disp;
      FirstHandleLeast(r.tree, s0);
      forall s
        ensures s in r.disp <==> FirstHandle(r.tree, s).Some?
      {
        if s != s0 {
          FirstHandleSame(r.tree, t.tree, s);
        }
      }
      forall k | k in r.tree && !k.oneShot
        ensures k.signum in r.disp && r.disp[k.signum] == Persistent
      {
        assert k in t.tree;
        if k.signum == s0 {
          assert !FirstHandle(r.tree, s0).value.oneShot;
        }
      }
    }
  }

  /** uv__signal_stop keeps the registry invariant. */
  lemma StopKeeps(t: Table, id: nat)
    requires TableOk(t) && id in t.handles
    ensures TableOk(StopSpec(t, id))
  {
    StopKeepsTree(t, id);
    StopKeepsDisp(t, id);
    PipesKeep(t, StopSpec(t, id));
  }

  /** uv__signal_stop keeps the installed handler following the first handle. */
  lemma StopKeepsExact(t: Table, id: nat)
    requires TreeOk(t) && DispOk(t) && Exact(t) && id in t.handles
    ensures Exact(StopSpec(t, id))
  {
    var h := t.handles[id];
    if h.signum != 0 {
      var r := StopSpec(t, id);
      var s0 := h.signum;
      forall s | s in r.disp && FirstHandle(r.tree, s).Some?
        ensures r.disp[s] == OneShot <==> FirstHandle(r.tree, s).value.oneShot
      {
        if s != s0 {
          FirstHandleSame(r.tree, t.tree, s);
        } else {
          StopExactAt(t, id);
        }
      }
    }
  }

  /** The number the stopped handle watched still has its handler following the first handle. */
  lemma StopExactAt(t: Table, id: nat)
    requires TreeOk(t) && DispOk(t) && Exact(t) && id in t.handles && t.handles[id].signum != 0
    ensures var s0, r := t.handles[id].signum, StopSpec(t, id);
            s0 in r.disp && FirstHandle(r.tree, s0).Some? ==>
              (r.disp[s0] == OneShot <==> FirstHandle(r.tree, s0).value.oneShot)
  {
    var h := t.handles[id];
    var s0, k := h.signum, KeyOf(id, h);
    var tree := Remove(t.tree, k);
    assert k in t.tree;
    RemoveFirst(t.tree, k);
    FirstHandleLeast(t.tree, s0);
    var g := FirstHandle(t.tree, s0).value;
    assert s0 in t.disp && (t.disp[s0] == OneShot <==> g.oneShot);
    var first := FirstHandle(tree, s0);
    if first.Some? {
      var f := first.value;
      if !(f.oneShot && !h.oneShot) {
        assert StopSpec(t, id).disp[s0] == t.disp[s0];
        assert g == k || g == f;
        assert g.oneShot == f.oneShot;
      }
    }
  }

  lemma PlaceKeepsTree(t: Table, id: nat, cb: Callback, signum: int, oneshot: bool, flag: bool)
    requires TreeOk(t) && id in t.handles && t.handles[id].signum == 0 && signum != 0
    ensures TreeOk(Place(t, id, cb, signum, oneshot, flag))
  {
  }

  lemma PlaceKeepsHandles(t: Table, id: nat, cb: Callback, signum: int, oneshot: bool, flag: bool)
    requires TreeOk(t) && HandlesOk(t) && id in t.handles && t.handles[id].signum == 0 && signum != 0
    requires t.handles[id].loop in t.pipes
    requires Installs(t.tree, signum, oneshot) ==> Catchable(signum)
    ensures HandlesOk(Place(t, id, cb, signum, oneshot, flag))
  {
    if !Installs(t.tree, signum, oneshot) {
      FirstHandleLeast(t.tree, signum);
      var f := FirstHandle(t.tree, signum).value;
      assert HandleOk(f.id, t.handles[f.id], t.pipes.Keys);
    }
  }

  lemma PlaceKeepsDisp(t: Table, id: nat, cb: Callback, signum: int, oneshot: bool, flag: bool)
    requires TreeOk(t) && DispOk(t) && id in t.handles && t.handles[id].signum == 0 && signum != 0
    requires oneshot ==> flag
    ensures DispOk(Place(t, id, cb, signum, oneshot, flag))
  {
    var r := Place(t, id, cb, signum, oneshot, flag);
    var k := KeyOf(id, r.handles[id]);
    FirstHandleLeast(t.tree, signum);
    FirstHandleLeast(r.tree, signum);
    forall s
      ensures s in r.disp <==> FirstHandle(r.tree, s).Some?
    {
      if s != signum {
        FirstHandleSame(r.tree, t.tree, s);
      }
    }
    forall x | x in r.tree && !x.oneShot
      ensures x.signum in r.disp && r.disp[x.signum] == Persistent
    {
      if x != k {
        assert x in t.tree;
      }
    }
  }

  /** A successful start on a stopped handle keeps the registry invariant. */
  lemma PlaceKeeps(t: Table, id: nat, cb: Callback, signum: int, oneshot: bool, flag: bool)
    requires TableOk(t) && id in t.handles && t.handles[id].signum == 0 && signum != 0
    requires t.handles[id].loop in t.pipes && (oneshot ==> flag)
    requires Installs(t.tree, signum, oneshot) ==> Catchable(signum)
    ensures TableOk(Place(t, id, cb, signum, oneshot, flag))
  {
    var r := Place(t, id, cb, signum, oneshot, flag);
    assert TreeOk(r) by {
      PlaceKeepsTree(t, id, cb, signum, oneshot, flag);
    }
    assert HandlesOk(r) by {
      PlaceKeepsHandles(t, id, cb, signum, oneshot, flag);
    }
    assert DispOk(r) by {
      PlaceKeepsDisp(t, id, cb, signum, oneshot, flag);
    }
    assert PipesOk(r) by {
      PlaceKeepsPipes(t, id, cb, signum, oneshot, flag);
    }
  }

  lemma PlaceKeepsPipes(t: Table, id: nat, cb: Callback, signum: int, oneshot: bool, flag: bool)
    requires TreeOk(t) && PipesOk(t) && id in t.handles && t.handles[id].signum == 0 && signum != 0
    ensures PipesOk(Place(t, id, cb, signum, oneshot, flag))
  {
    PipesKeep(t, Place(t, id, cb, signum, oneshot, flag));
  }

  /** uv__signal_start keeps the registry invariant, as written and corrected alike. */
  lemma StartKeeps(t: Table, id: nat, cb: Callback, signum: int, oneshot: bool, fixed: bool)
    requires TableOk(t) && id in t.handles && t.handles[id].loop in t.pipes
    ensures TableOk(StartSpec(t, id, cb, signum, oneshot, fixed).0)
  {
    var h := t.handles[id];
    if signum != 0 && signum == h.signum {
      var r := StartSpec(t, id, cb, signum, oneshot, fixed).0;
      assert forall j :: j in t.handles ==> KeyOf(j, r.handles[j]) == KeyOf(j, t.handles[j]);
      PipesKeep(t, r);
    } else if signum != 0 {
      StopKeeps(t, id);
      var t1 := StopSpec(t, id);
      if !(Installs(t1.tree, signum, oneshot) && !Catchable(signum)) {
        PlaceKeeps(t1, id, cb, signum, oneshot, if fixed then oneshot else h.oneShot || oneshot);
      }
    }
  }

  /**
   * A corrected start on a stopped handle keeps the installed handler
   * following the first handle.
   */
  lemma PlaceKeepsExact(t: Table, id: nat, cb: Callback, signum: int, oneshot: bool)
    requires TreeOk(t) && DispOk(t) && Exact(t) && id in t.handles && t.handles[id].signum == 0 && signum != 0
    ensures Exact(Place(t, id, cb, signum, oneshot, oneshot))
  {
    var r := Place(t, id, cb, signum, oneshot, oneshot);
    var k := KeyOf(id, r.handles[id]);
    FirstHandleLeast(t.tree, signum);
    InsertFirst(t.tree, k);
    forall s | s in r.disp && FirstHandle(r.tree, s).Some?
      ensures r.disp[s] == OneShot <==> FirstHandle(r.tree, s).value.oneShot
    {
      if s != signum {
        FirstHandleSame(r.tree, t.tree, s);
      }
    }
  }

  /** The corrected uv__signal_start keeps the installed handler following the first handle. */
  lemma StartCorrectedKeepsExact(t: Table, id: nat, cb: Callback, signum: int, oneshot: bool)
    requires TableOk(t) && Exact(t) && id in t.handles
    ensures Exact(StartSpec(t, id, cb, signum, oneshot, true).0)
  {
    var h := t.handles[id];
    if signum != 0 && signum != h.signum {
      StopKeeps(t, id);
      StopKeepsExact(t, id);
      var t1 := StopSpec(t, id);
      if !(Installs(t1.tree, signum, oneshot) && !Catchable(signum)) {
        PlaceKeepsExact(t1, id, cb, signum, oneshot);
      }
    }
  }

  /** The fields the registry invariant reads: everything but the callback and the two counters. */
  function Core(h: Handle): Handle
  {
    h.(cb := None, caught := 0, dispatched := 0)
  }

  /** Changing only callbacks and counters keeps the registry invariant. */
  lemma CountersKeep(t: Table, r: Table)
    requires TableOk(t) && r.tree == t.tree && r.disp == t.disp && r.pipes == t.pipes
    requires r.handles.Keys == t.handles.Keys && forall j :: j in t.handles ==> Core(r.handles[j]) == Core(t.handles[j])
    ensures TableOk(r)
  {
    assert forall j :: j in t.handles ==> KeyOf(j, r.handles[j]) == KeyOf(j, t.handles[j]);
    forall j | j in r.handles
      ensures HandleOk(j, r.handles[j], r.pipes.Keys)
    {
      assert HandleOk(j, t.handles[j], t.pipes.Keys);
    }
    PipesKeep(t, r);
  }

  lemma PipeAppend(p: seq<byte>, l: nat, handles: map<nat, Handle>, m: Msg)
    requires PipeOk(p, l, handles) && |p| + 16 <= PipeCapacity
    requires m.handle in handles && handles[m.handle].loop == l && m.signum != 0 && Representable(m)
    ensures PipeOk(p + Encode(m), l, handles)
  {
    FrameAppend(p, m);
    var f := Frame(p + Encode(m));
    forall x | x in f
      ensures x.handle in handles && handles[x.handle].loop == l && x.signum != 0
    {
      if x != m {
        assert x in Frame(p);
      }
    }
  }

  /** Appending a message for a started handle of loop `l` to that loop's pipe, when it fits, keeps the registry invariant. */
  lemma AppendKeeps(t: Table, l: nat, m: Msg)
    requires TableOk(t) && l in t.pipes && |t.pipes[l]| + 16 <= PipeCapacity
    requires m.handle in t.handles && t.handles[m.handle].loop == l && m.signum != 0 && Representable(m)
    ensures TableOk(t.(pipes := t.pipes[l := t.pipes[l] + Encode(m)]))
  {
    var r := t.(pipes := t.pipes[l := t.pipes[l] + Encode(m)]);
    forall x | x in r.pipes
      ensures PipeOk(r.pipes[x], x, r.handles)
    {
      if x == l {
        PipeAppend(t.pipes[l], l, t.handles, m);
      } else {
        assert PipeOk(t.pipes[x], x, t.handles);
      }
    }
    forall j | j in r.handles
      ensures HandleOk(j, r.handles[j], r.pipes.Keys)
    {
      assert HandleOk(j, t.handles[j], t.pipes.Keys);
    }
  }

  /**
   * One write of uv__signal_handler for entry `k`: if the loop's pipe has room
   * the message is appended and caught_signals counts it, otherwise the write
   * fails with EAGAIN and nothing changes.
   */
  function Write(t: Table, k: Key, signum: int): (r: Table)
    requires k.id in t.handles && t.handles[k.id].loop in t.pipes && Representable(Msg(k.id, signum))
    ensures r.tree == t.tree && r.disp == t.disp && r.pipes.Keys == t.pipes.Keys && SameLoops(t.handles, r.handles)
  {
    var h := t.handles[k.id];
    var p := t.pipes[h.loop];
    if |p| + 16 <= PipeCapacity then
      Table(t.tree, t.disp, t.handles[k.id := h.(caught := h.caught + 1)], t.pipes[h.loop := p + Encode(Msg(k.id, signum))])
    else t
  }

  /** Every entry can be written for: a handle on a loop with a pipe, at a 64-bit address, with a 32-bit number. */
  ghost predicate Writable(t: Table, ks: seq<Key>, signum: int)
  {
    forall k :: k in ks ==> k.id in t.handles && t.handles[k.id].loop in t.pipes && Representable(Msg(k.id, signum))
  }

  /** The writes of uv__signal_handler for the entries `ks`, in order. */
  function Deliver(t: Table, ks: seq<Key>, signum: int): (r: Table)
    requires Writable(t, ks, signum)
    ensures r.tree == t.tree && r.disp == t.disp && r.pipes.Keys == t.pipes.Keys && SameLoops(t.handles, r.handles)
    decreases |ks|
  {
    if ks == [] then t
    else
      assert forall k :: k in ks[..|ks| - 1] ==> k in ks;
      Write(Deliver(t, ks[..|ks| - 1], signum), ks[|ks| - 1], signum)
  }

  /** The messages for loop `l` among those written for `ks`: one per entry of that loop, in order. */
  function Fanout(ks: seq<Key>, l: nat, signum: int): seq<Msg>
    decreases |ks|
  {
    if ks == [] then []
    else
      var k := ks[|ks| - 1];
      Fanout(ks[..|ks| - 1], l, signum) + (if k.loop == l then [Msg(k.id, signum)] else [])
  }

  /** Entries of the tree for the signal can be written for. */
  lemma TreeWritable(t: Table, ks: seq<Key>, signum: int)
    requires TableOk(t) && forall k :: k in ks ==> k in t.tree && k.signum == signum
    ensures Writable(t, ks, signum)
    ensures forall k :: k in ks ==> t.handles[k.id].loop == k.loop
  {
    forall k | k in ks
      ensures k.id in t.handles && t.handles[k.id].loop in t.pipes && Representable(Msg(k.id, signum))
    {
      assert HandleOk(k.id, t.handles[k.id], t.pipes.Keys);
    }
  }

  /** A message decodes back out of the pipe it was appended to. */
  lemma FrameAppend(p: seq<byte>, m: Msg)
    requires |p| % 16 == 0 && Representable(m)
    ensures Frame(p + Encode(m)) == Frame(p) + [m]
  {
    var e := Encode(m);
    RoundTrip(m);
    assert e[..16] == e && e[16..] == [];
    assert Frame(e) == [m];
    FrameConcat(p, e);
  }

  /** Write, unfolded: the counter bump and the append, when the pipe has room. */
  lemma WriteIs(t: Table, k: Key, signum: int)
    requires k.id in t.handles && t.handles[k.id].loop in t.pipes && Representable(Msg(k.id, signum))
    ensures var h := t.handles[k.id];
            var t1 := t.(handles := t.handles[k.id := h.(caught := h.caught + 1)]);
            Write(t, k, signum) ==
              if |t.pipes[h.loop]| + 16 <= PipeCapacity
              then t1.(pipes := t1.pipes[h.loop := t1.pipes[h.loop] + Encode(Msg(k.id, signum))])
              else t
  {
  }

  /** A successful write for a started handle keeps the registry invariant. */
  lemma BumpAppendKeeps(t: Table, id: nat, signum: int)
    requires TableOk(t) && id in t.handles && t.handles[id].signum == signum != 0
    requires |t.pipes[t.handles[id].loop]| + 16 <= PipeCapacity
    ensures var h := t.handles[id];
            var t1 := t.(handles := t.handles[id := h.(caught := h.caught + 1)]);
            TableOk(t1.(pipes := t1.pipes[h.loop := t1.pipes[h.loop] + Encode(Msg(id, signum))]))
  {
    var h := t.handles[id];
    assert HandleOk(id, h, t.pipes.Keys);
    var t1 := t.(handles := t.handles[id := h.(caught := h.caught + 1)]);
    assert TableOk(t1) by {
      CountersKeep(t, t1);
    }
    AppendKeeps(t1, h.loop, Msg(id, signum));
  }

  /** A write for an entry of the tree keeps the registry invariant. */
  lemma WriteKeeps(t: Table, k: Key, signum: int)
    requires TableOk(t) && k in t.tree && k.signum == signum
    ensures Writable(t, [k], signum)
    ensures TableOk(Write(t, k, signum))
  {
    TreeWritable(t, [k], signum);
    WriteIs(t, k, signum);
    var h := t.handles[k.id];
    if |t.pipes[h.loop]| + 16 <= PipeCapacity {
      assert h.signum == signum;
      BumpAppendKeeps(t, k.id, signum);
    }
  }

  /** uv__signal_handler keeps the registry invariant. */
  lemma {:induction false} DeliverKeeps(t: Table, ks: seq<Key>, signum: int)
    requires TableOk(t) && forall k :: k in ks ==> k in t.tree && k.signum == signum
    ensures Writable(t, ks, signum)
    ensures TableOk(Deliver(t, ks, signum))
    decreases |ks|
  {
    TreeWritable(t, ks, signum);
    if ks != [] {
      var init := ks[..|ks| - 1];
      assert forall k :: k in init ==> k in ks;
      DeliverKeeps(t, init, signum);
      WriteKeeps(Deliver(t, init, signum), ks[|ks| - 1], signum);
    }
  }

  /** What one write does to the pipe of loop `l`: appends the message when the entry's handle is on `l` and there is room. */
  lemma WritePipe(t: Table, k: Key, signum: int, l: nat)
    requires k.id in t.handles && t.handles[k.id].loop in t.pipes && Representable(Msg(k.id, signum)) && l in t.pipes
    requires t.handles[k.id].loop == l ==> |t.pipes[l]| + 16 <= PipeCapacity
    ensures Write(t, k, signum).pipes[l] ==
              if t.handles[k.id].loop == l then t.pipes[l] + Encode(Msg(k.id, signum)) else t.pipes[l]
  {
  }

  /** The handler's writes to the pipe of loop `l`, when it has room for every message, are one message per entry of `l`. */
  lemma {:induction false} DeliverLength(t: Table, ks: seq<Key>, signum: int, l: nat)
    requires Writable(t, ks, signum) && forall k :: k in ks ==> t.handles[k.id].loop == k.loop
    requires l in t.pipes && |t.pipes[l]| + 16 * |ks| <= PipeCapacity
    ensures |Fanout(ks, l, signum)| <= |ks|
    ensures |Deliver(t, ks, signum).pipes[l]| == |t.pipes[l]| + 16 * |Fanout(ks, l, signum)|
    decreases |ks|
  {
    if ks != [] {
      var init := ks[..|ks| - 1];
      var k := ks[|ks| - 1];
      assert forall x :: x in init ==> x in ks;
      DeliverLength(t, init, signum, l);
      var r := Deliver(t, init, signum);
      assert Deliver(t, ks, signum) == Write(r, k, signum);
      assert r.handles[k.id].loop == k.loop;
      WritePipe(r, k, signum, l);
    }
  }

  lemma AppendAssoc<T>(a: seq<T>, b: seq<T>, c: seq<T>)
    ensures a + b + c == a + (b + c)
  {
  }

  /** Past a whole message at `c + i` short of the end `c + e`, there is room for one more. */
  lemma NextMessage(c: int, i: int, e: int)
    requires c % 16 == 0 && i % 16 == 0 && e % 16 == 0 && i < e
    ensures (c + i + 16) % 16 == 0 && (i + 16) % 16 == 0 && i + 16 <= e
  {
  }

  /** Whole messages added to whole messages are whole messages. */
  lemma WholeMessages(a: int, n: nat)
    requires a % 16 == 0
    ensures (a + 16 * n) % 16 == 0
  {
    assert a + 16 * n == 16 * (a / 16 + n);
  }

  /**
   * When the pipe of loop `l` has room for every message, the handler appends
   * exactly one message per entry of that loop, in tree order.
   */
  lemma {:induction false} DeliverFanout(t: Table, ks: seq<Key>, signum: int, l: nat)
    requires Writable(t, ks, signum) && forall k :: k in ks ==> t.handles[k.id].loop == k.loop
    requires l in t.pipes && |t.pipes[l]| % 16 == 0 && |t.pipes[l]| + 16 * |ks| <= PipeCapacity
    ensures |Deliver(t, ks, signum).pipes[l]| % 16 == 0
    ensures Frame(Deliver(t, ks, signum).pipes[l]) == Frame(t.pipes[l]) + Fanout(ks, l, signum)
    decreases |ks|
  {
    var d := Deliver(t, ks, signum);
    assert |d.pipes[l]| % 16 == 0 by {
      DeliverLength(t, ks, signum, l);
      WholeMessages(|t.pipes[l]|, |Fanout(ks, l, signum)|);
    }
    if ks != [] {
      var init := ks[..|ks| - 1];
      var k := ks[|ks| - 1];
      var m := Msg(k.id, signum);
      assert forall x :: x in init ==> x in ks;
      DeliverFanout(t, init, signum, l);
      var r := Deliver(t, init, signum);
      assert d == Write(r, k, signum);
      assert r.handles[k.id].loop == k.loop;
      assert k.loop == l ==> |r.pipes[l]| + 16 <= PipeCapacity by {
        DeliverLength(t, init, signum, l);
      }
      WritePipe(r, k, signum, l);
      if k.loop == l {
        assert d.pipes[l] == r.pipes[l] + Encode(m);
        FrameAppend(r.pipes[l], m);
        assert Fanout(ks, l, signum) == Fanout(init, l, signum) + [m];
        assert Frame(d.pipes[l]) == Frame(t.pipes[l]) + Fanout(init, l, signum) + [m];
        AppendAssoc(Frame(t.pipes[l]), Fanout(init, l, signum), [m]);
      } else {
        assert d.pipes[l] == r.pipes[l];
        assert Fanout(ks, l, signum) == Fanout(init, l, signum);
        assert Frame(d.pipes[l]) == Frame(t.pipes[l]) + Fanout(init, l, signum);
      }
    } else {
      assert d == t && Fanout(ks, l, signum) == [];
    }
  }

  /** The handle's dispatched_signals counter, incremented. */
  function Bump(t: Table, id: nat): (r: Table)
    requires id in t.handles
    ensures r.tree == t.tree && r.disp == t.disp && r.pipes == t.pipes && SameLoops(t.handles, r.handles)
  {
    t.(handles := t.handles[id := t.handles[id].(dispatched := t.handles[id].dispatched + 1)])
  }

  /** One message handled by uv__signal_event: the callback fires when the number still matches, the message is counted, a one-shot handle is stopped. */
  function DispatchOne(t: Table, m: Msg): (r: (Table, bool))
    requires Sorted(t.tree) && m.handle in t.handles
    ensures Sorted(r.0.tree) && r.0.pipes == t.pipes && SameLoops(t.handles, r.0.handles)
  {
    var h := t.handles[m.handle];
    var t1 := Bump(t, m.handle);
    (if h.oneShot then StopSpec(t1, m.handle) else t1, m.signum == h.signum)
  }

  /** The progress `s` of an event pass after one more message. */
  function Then(s: (Table, seq<nat>), m: Msg): (r: (Table, seq<nat>))
    requires Sorted(s.0.tree) && m.handle in s.0.handles
  {
    var d := DispatchOne(s.0, m);
    (d.0, s.1 + if d.1 then [m.handle] else [])
  }

  /** The messages `ms` handled in order: the final table and the handles whose callbacks ran, in order. */
  function Run(t: Table, ms: seq<Msg>): (r: (Table, seq<nat>))
    requires Sorted(t.tree) && forall m :: m in ms ==> m.handle in t.handles
    ensures Sorted(r.0.tree) && r.0.pipes == t.pipes && SameLoops(t.handles, r.0.handles)
    decreases |ms|
  {
    if ms == [] then (t, [])
    else
      var m := ms[|ms| - 1];
      assert forall x :: x in ms[..|ms| - 1] ==> x in ms;
      var p := Run(t, ms[..|ms| - 1]);
      var d := DispatchOne(p.0, m);
      (d.0, p.1 + if d.1 then [m.handle] else [])
  }

  /** Counting a dispatch keeps the registry invariant. */
  lemma BumpKeeps(t: Table, id: nat)
    requires TableOk(t) && id in t.handles
    ensures TableOk(Bump(t, id)) && (Exact(t) ==> Exact(Bump(t, id)))
  {
    CountersKeep(t, Bump(t, id));
  }

  /** Handling a message keeps the registry invariant and the installed handler following the first handle. */
  lemma DispatchKeeps(t: Table, m: Msg)
    requires TableOk(t) && m.handle in t.handles
    ensures TableOk(DispatchOne(t, m).0)
    ensures Exact(t) ==> Exact(DispatchOne(t, m).0)
  {
    var t1 := Bump(t, m.handle);
    BumpKeeps(t, m.handle);
    if t.handles[m.handle].oneShot {
      assert DispatchOne(t, m).0 == StopSpec(t1, m.handle);
      StopKeeps(t1, m.handle);
      if Exact(t) {
        StopKeepsExact(t1, m.handle);
      }
    } else {
      assert DispatchOne(t, m).0 == t1;
    }
  }

  /** uv__signal_event keeps the registry invariant and the installed handler following the first handle. */
  lemma {:induction false} RunKeeps(t: Table, ms: seq<Msg>)
    requires TableOk(t) && forall m :: m in ms ==> m.handle in t.handles
    ensures TableOk(Run(t, ms).0)
    ensures Exact(t) ==> Exact(Run(t, ms).0)
    decreases |ms|
  {
    if ms != [] {
      var init := ms[..|ms| - 1];
      assert forall x :: x in init ==> x in ms;
      RunKeeps(t, init);
      DispatchKeeps(Run(t, init).0, ms[|ms| - 1]);
    }
  }

  /**
   * A one-shot handle's callback runs at most once however many messages
   * name it, and once it has run the handle is stopped.
   */
  lemma {:induction false} OneShotFiresOnce(t: Table, ms: seq<Msg>, id: nat)
    requires Sorted(t.tree) && forall m :: m in ms ==> m.handle in t.handles && m.signum != 0
    requires id in t.handles && t.handles[id].oneShot
    ensures multiset(Run(t, ms).1)[id] <= 1
    ensures id in Run(t, ms).1 ==> Run(t, ms).0.handles[id].signum == 0
    ensures Run(t, ms).0.handles[id].oneShot
    decreases |ms|
  {
    if ms != [] {
      var init := ms[..|ms| - 1];
      var m := ms[|ms| - 1];
      assert forall x :: x in init ==> x in ms;
      assert m in ms;
      OneShotFiresOnce(t, init, id);
      var p := Run(t, init);
      var d := DispatchOne(p.0, m);
      var fired := if d.1 then [m.handle] else [];
      assert Run(t, ms) == (d.0, p.1 + fired);
      assert multiset(p.1 + fired) == multiset(p.1) + multiset(fired);
      DispatchOneShot(p.0, m, id);
    }
  }

  /** One message and a one-shot handle: the flag stays, a stopped handle stays stopped and does not fire, and a firing stops it. */
  lemma DispatchOneShot(t: Table, m: Msg, id: nat)
    requires Sorted(t.tree) && m.handle in t.handles && m.signum != 0
    requires id in t.handles && t.handles[id].oneShot
    ensures DispatchOne(t, m).0.handles[id].oneShot
    ensures m.handle == id && DispatchOne(t, m).1 ==> DispatchOne(t, m).0.handles[id].signum == 0
    ensures t.handles[id].signum == 0 ==>
              DispatchOne(t, m).0.handles[id].signum == 0 && (m.handle == id ==> !DispatchOne(t, m).1)
  {
  }

  /** uv__signal_loop_cleanup's pass over the loop's handle queue: every signal handle on it is stopped. */
  function StopAll(t: Table, q: seq<nat>): (r: Table)
    requires Sorted(t.tree)
    ensures Sorted(r.tree) && r.pipes == t.pipes && SameLoops(t.handles, r.handles)
    decreases |q|
  {
    if q == [] then t
    else
      var r := StopAll(t, q[..|q| - 1]);
      var id := q[|q| - 1];
      if id in r.handles then StopSpec(r, id) else r
  }

  /** The pass keeps the invariant, and a disposition that followed the first handles still does. */
  lemma {:induction false} StopAllStops(t: Table, q: seq<nat>)
    requires TableOk(t)
    ensures TableOk(StopAll(t, q))
    ensures Exact(t) ==> Exact(StopAll(t, q))
    decreases |q|
  {
    if q != [] {
      var init := q[..|q| - 1];
      StopAllStops(t, init);
      var r := StopAll(t, init);
      var id := q[|q| - 1];
      if id in r.handles {
        StopKeeps(r, id);
        if Exact(t) {
          StopKeepsExact(r, id);
        }
      }
    }
  }

  /** After the pass every signal handle on the queue is stopped. */
  lemma {:induction false} StopAllStopsQueued(t: Table, q: seq<nat>, id: nat)
    requires Sorted(t.tree) && id in q && id in t.handles
    ensures StopAll(t, q).handles[id].signum == 0
    decreases |q|
  {
    var init := q[..|q| - 1];
    if id == q[|q| - 1] {
      assert id in StopAll(t, init).handles;
    } else {
      assert id in init;
      StopAllStopsQueued(t, init, id);
    }
  }

  /** The pass never restarts a handle: one that was stopped stays stopped. */
  lemma {:induction false} StopAllKeepsStopped(t: Table, q: seq<nat>, id: nat)
    requires Sorted(t.tree) && id in t.handles && t.handles[id].signum == 0
    ensures StopAll(t, q).handles[id].signum == 0
    decreases |q|
  {
    if q != [] {
      StopAllKeepsStopped(t, q[..|q| - 1], id);
    }
  }

  /**
   * uv__signal_loop_cleanup: when the queue holds every started signal
   * handle of loop `l` (a closed handle has already left it, stopped), no
   * tree entry of `l` is left, and closing the loop's pipe keeps the
   * invariant.
   */
  lemma Cleanup(t: Table, q: seq<nat>, l: nat)
    requires TableOk(t)
    requires forall id :: id in t.handles && t.handles[id].loop == l && t.handles[id].signum != 0 ==> id in q
    ensures var r := StopAll(t, q);
            TableOk(r.(pipes := r.pipes - {l})) && forall k :: k in r.tree ==> k.loop != l
    ensures Exact(t) ==> Exact(StopAll(t, q))
  {
    StopAllStops(t, q);
    forall id | id in q && id in t.handles {
      StopAllStopsQueued(t, q, id);
    }
    forall id | id in t.handles && t.handles[id].signum == 0 {
      StopAllKeepsStopped(t, q, id);
    }
    var r := StopAll(t, q);
    var r2 := r.(pipes := r.pipes - {l});
    forall j | j in r2.handles
      ensures HandleOk(j, r2.handles[j], r2.pipes.Keys)
    {
      assert HandleOk(j, r.handles[j], r.pipes.Keys);
    }
    forall x | x in r2.pipes
      ensures PipeOk(r2.pipes[x], x, r2.handles)
    {
      assert PipeOk(r.pipes[x], x, r.handles);
    }
  }

  /** `n` whole messages take `16 * n` bytes. */
  lemma Whole(n: nat)
    ensures (16 * n) % 16 == 0
  {
  }

  /** The first `n` messages of a pipe, then the next one. */
  lemma FrameSnoc(p: seq<byte>, n: nat)
    requires 16 * n + 16 <= |p|
    ensures |p[..16 * n]| % 16 == 0 && |p[..16 * (n + 1)]| % 16 == 0
    ensures Frame(p[..16 * (n + 1)]) == Frame(p[..16 * n]) + [Decode(p[16 * n..16 * n + 16])]
  {
    Whole(n);
    Whole(n + 1);
    var e := p[16 * n..16 * n + 16];
    assert p[..16 * (n + 1)] == p[..16 * n] + e;
    assert e[..16] == e && e[16..] == [];
    assert Frame(e) == [Decode(e)];
    FrameConcat(p[..16 * n], e);
  }

  /** The first `n` messages of a pipe are messages of the pipe, and so are the ones after them. */
  lemma FramePrefix(p: seq<byte>, n: nat)
    requires |p| % 16 == 0 && 16 * n <= |p|
    ensures |p[..16 * n]| % 16 == 0 && |p[16 * n..]| % 16 == 0
    ensures forall m :: m in Frame(p[..16 * n]) ==> m in Frame(p)
    ensures forall m :: m in Frame(p[16 * n..]) ==> m in Frame(p)
  {
    Whole(n);
    assert |p[16 * n..]| == |p| - 16 * n;
    assert p == p[..16 * n] + p[16 * n..];
    FrameConcat(p[..16 * n], p[16 * n..]);
  }

  /** A byte count that is a whole number of messages is 16 times that number. */
  lemma Count(b: nat)
    requires b % 16 == 0
    ensures 16 * (b / 16) == b && (b / 16) * 16 == b
  {
  }

  /** Reading the first `d` messages out of pipe `l` keeps the registry invariant. */
  lemma DrainKeeps(t: Table, l: nat, d: nat)
    requires TableOk(t) && l in t.pipes && 16 * d <= |t.pipes[l]|
    ensures TableOk(t.(pipes := t.pipes[l := t.pipes[l][16 * d..]]))
  {
    var p := t.pipes[l];
    assert PipeOk(p, l, t.handles);
    FramePrefix(p, d);
    var r := t.(pipes := t.pipes[l := p[16 * d..]]);
    assert PipeOk(p[16 * d..], l, t.handles);
    forall x | x in r.pipes
      ensures PipeOk(r.pipes[x], x, r.handles)
    {
      if x != l {
        assert PipeOk(t.pipes[x], x, t.handles);
      }
    }
    forall j | j in r.handles
      ensures HandleOk(j, r.handles[j], r.pipes.Keys)
    {
      assert HandleOk(j, t.handles[j], t.pipes.Keys);
    }
  }

  /** Handling one more message extends the run by one dispatch. */
  lemma RunSnoc(t: Table, ms: seq<Msg>, m: Msg)
    requires Sorted(t.tree) && (forall x :: x in ms ==> x.handle in t.handles) && m.handle in t.handles
    ensures forall x :: x in ms + [m] ==> x.handle in t.handles
    ensures var p := Run(t, ms);
            var d := DispatchOne(p.0, m);
            Run(t, ms + [m]) == (d.0, p.1 + if d.1 then [m.handle] else [])
  {
    assert (ms + [m])[..|ms|] == ms;
  }

  /** Dispatching never looks at the pipes. */
  lemma DispatchPipes(t: Table, m: Msg, pipes: map<nat, seq<byte>>)
    requires Sorted(t.tree) && m.handle in t.handles
    ensures DispatchOne(t.(pipes := pipes), m) == (DispatchOne(t, m).0.(pipes := pipes), DispatchOne(t, m).1)
  {
  }

  /**
   * The state inside uv__signal_event once `d` messages of loop `l`'s pipe
   * have been read and the first `c` of them handled: the run over those
   * messages, and the handles whose callbacks ran.
   */
  ghost function Partial(t: Table, l: nat, c: nat, d: nat): (r: (Table, seq<nat>))
    requires TableOk(t) && l in t.pipes && c <= d && 16 * d <= |t.pipes[l]|
    ensures Sorted(r.0.tree) && SameLoops(t.handles, r.0.handles)
  {
    var p := t.pipes[l];
    assert PipeOk(p, l, t.handles);
    FramePrefix(p, c);
    RunKeeps(t, Frame(p[..16 * c]));
    var run := Run(t, Frame(p[..16 * c]));
    (run.0.(pipes := t.pipes[l := p[16 * d..]]), run.1)
  }

  /** Part way through uv__signal_event the registry invariant holds, and the pipe has lost the bytes read. */
  lemma PartialKeeps(t: Table, l: nat, c: nat, d: nat)
    requires TableOk(t) && l in t.pipes && c <= d && 16 * d <= |t.pipes[l]|
    ensures TableOk(Partial(t, l, c, d).0) && Partial(t, l, c, d).0.pipes == t.pipes[l := t.pipes[l][16 * d..]]
  {
    var p := t.pipes[l];
    assert PipeOk(p, l, t.handles);
    FramePrefix(p, c);
    RunKeeps(t, Frame(p[..16 * c]));
    var run := Run(t, Frame(p[..16 * c]));
    DrainKeeps(run.0, l, d);
  }

  /** A loop's pipe holds whole messages only. */
  lemma WholePipe(t: Table, l: nat)
    requires TableOk(t) && l in t.pipes
    ensures |t.pipes[l]| % 16 == 0
  {
    assert PipeOk(t.pipes[l], l, t.handles);
  }

  /** Every whole message in a loop's pipe names a handle. */
  lemma MessageHandle(t: Table, l: nat, c: nat)
    requires TableOk(t) && l in t.pipes && 16 * c + 16 <= |t.pipes[l]|
    ensures Decode(t.pipes[l][16 * c..16 * c + 16]).handle in t.handles
  {
    var p := t.pipes[l];
    assert PipeOk(p, l, t.handles);
    FramePrefix(p, c + 1);
    FrameSnoc(p, c);
  }

  /** One more whole message handled inside uv__signal_event. */
  lemma PartialStep(t: Table, l: nat, c: nat, d: nat)
    requires TableOk(t) && l in t.pipes && c < d && 16 * d <= |t.pipes[l]|
    requires Decode(t.pipes[l][16 * c..16 * c + 16]).handle in t.handles
    ensures Partial(t, l, c + 1, d) == Then(Partial(t, l, c, d), Decode(t.pipes[l][16 * c..16 * c + 16]))
  {
    var p := t.pipes[l];
    var m := Decode(p[16 * c..16 * c + 16]);
    assert PipeOk(p, l, t.handles);
    FramePrefix(p, c);
    FrameSnoc(p, c);
    var ms := Frame(p[..16 * c]);
    RunSnoc(t, ms, m);
    var run := Run(t, ms);
    DispatchPipes(run.0, m, t.pipes[l := p[16 * d..]]);
  }

  /** uv__signal_event: every message in the loop's pipe handled in order, and the pipe left empty. */
  ghost function EventSpec(t: Table, l: nat): (r: (Table, seq<nat>))
    requires TableOk(t) && l in t.pipes
    ensures TableOk(r.0) && r.0.pipes == t.pipes[l := []]
    ensures Exact(t) ==> Exact(r.0)
  {
    var p := t.pipes[l];
    assert PipeOk(p, l, t.handles);
    Count(|p|);
    var n := |p| / 16;
    RunKeeps(t, Frame(p));
    assert p[..16 * n] == p && p[16 * n..] == [];
    PartialKeeps(t, l, n, n);
    Partial(t, l, n, n)
  }

  /** Handle record as uv_signal_init leaves it: on its loop, not started, flags clear, counters zero. */
  function Fresh(loop: nat): Handle
  {
    Handle(loop, 0, false, None, false, 0, 0)
  }

  /**
   * uv_signal_init: make sure the loop has its signal pipe (creating it can
   * fail with `pipeErr`), then register the stopped handle.
   */
  function InitSpec(t: Table, id: nat, loop: nat, pipeErr: int): (r: (Table, int))
  {
    if loop !in t.pipes && pipeErr != 0 then (t, pipeErr)
    else
      var pipes := if loop in t.pipes then t.pipes else t.pipes[loop := []];
      (t.(handles := t.handles[id := Fresh(loop)], pipes := pipes), 0)
  }

  /** uv_signal_init keeps the registry invariant; on success the loop has a pipe and the handle is stopped. */
  lemma InitKeeps(t: Table, id: nat, loop: nat, pipeErr: int)
    requires TableOk(t) && id !in t.handles && id < MaxAddr && loop > 0
    ensures var r := InitSpec(t, id, loop, pipeErr);
            TableOk(r.0) && (r.1 == 0 <==> loop in t.pipes || pipeErr == 0)
    ensures var r := InitSpec(t, id, loop, pipeErr);
            r.1 == 0 ==> loop in r.0.pipes && r.0.handles[id] == Fresh(loop) && r.0.tree == t.tree && r.0.disp == t.disp
    ensures var r := InitSpec(t, id, loop, pipeErr);
            r.1 != 0 ==> r.0 == t
  {
    var r := InitSpec(t, id, loop, pipeErr).0;
    if r != t {
      forall x | x in r.pipes
        ensures PipeOk(r.pipes[x], x, r.handles)
      {
        if x in t.pipes {
          assert PipeOk(t.pipes[x], x, t.handles);
        }
      }
      forall j | j in r.handles
        ensures HandleOk(j, r.handles[j], r.pipes.Keys)
      {
        if j != id {
          assert HandleOk(j, t.handles[j], t.pipes.Keys);
        }
      }
    }
  }

  /** One more write of the handler, for the next entry. */
  lemma DeliverStep(t: Table, ks: seq<Key>, n: nat, signum: int)
    requires Writable(t, ks, signum) && n < |ks|
    ensures Writable(t, ks[..n], signum) && Writable(t, ks[..n + 1], signum)
    ensures var d, k := Deliver(t, ks[..n], signum), ks[n];
            k.id in d.handles && d.handles[k.id].loop in d.pipes && Representable(Msg(k.id, signum)) &&
            Deliver(t, ks[..n + 1], signum) == Write(d, k, signum)
  {
    assert forall x :: x in ks[..n + 1] ==> x in ks;
    assert forall x :: x in ks[..n] ==> x in ks;
    assert ks[..n + 1][..n] == ks[..n];
    assert ks[n] in ks;
  }

  /** uv__signal_handler for `signum`: the writes for the entries registered for it, in tree order. */
  ghost function HandlerSpec(t: Table, signum: int): (r: Table)
    requires TableOk(t)
    ensures TableOk(r) && r.tree == t.tree && r.disp == t.disp && SameLoops(t.handles, r.handles)
  {
    HandlerKeeps(t, signum);
    Deliver(t, Matching(t.tree, signum), signum)
  }

  /** The entries registered for `signum` can be written for, and writing for them keeps the registry invariant. */
  lemma HandlerKeeps(t: Table, signum: int)
    requires TableOk(t)
    ensures Writable(t, Matching(t.tree, signum), signum)
    ensures TableOk(Deliver(t, Matching(t.tree, signum), signum))
  {
    forall k | k in Matching(t.tree, signum)
      ensures k in t.tree && k.signum == signum
    {
      MatchingMembers(t.tree, signum, k);
    }
    DeliverKeeps(t, Matching(t.tree, signum), signum);
  }

  /** `end` of uv__signal_event: a byte count rounded down to whole messages. */
  function WholeBytes(bytes: nat): (end: nat)
    ensures end <= bytes && end % 16 == 0 && bytes - end < 16
  {
    (bytes / 16) * 16
  }

  /**
   * One read of uv__signal_event with `c` messages already handled: the
   * pipe holds whole messages, so the bytes read (the rest of the pipe, at
   * most the 512-byte buffer) are the messages `c` to `d`, at least one of
   * them, and a read that does not fill the buffer empties the pipe.
   */
  lemma ReadCount(total: nat, c: nat, r: nat) returns (d: nat)
    requires total % 16 == 0 && 16 * c < total && r == if total - 16 * c < 512 then total - 16 * c else 512
    ensures c < d && 16 * d <= total && r == 16 * d - 16 * c && WholeBytes(r) == r
    ensures r != 512 ==> 16 * d == total
  {
    d := c + r / 16;
  }

  /** The bytes read into the buffer are the pipe's next messages, and the pipe keeps the rest. */
  lemma ReadBuffer(p: seq<byte>, c: nat, d: nat, avail: seq<byte>, b: seq<byte>, r: nat)
    requires c <= d && 16 * d <= |p| && r == 16 * d - 16 * c
    requires avail == p[16 * c..] && b == avail[..r]
    ensures b == p[16 * c..16 * d] && avail[r..] == p[16 * d..]
  {
  }

  /** The read system call filling `buf` from `at` with the first `r` bytes of `avail`. */
  method CopyIn(buf: array<byte>, at: nat, avail: seq<byte>, r: nat)
    requires at == 0 && r <= |avail| && r <= buf.Length
    modifies buf
    ensures buf[..r] == avail[..r]
  {
    forall j | 0 <= j < r {
      buf[at + j] := avail[j];
    }
  }

  /** Nothing handled and nothing read: uv__signal_event has not changed anything yet. */
  lemma PartialStart(t: Table, l: nat)
    requires TableOk(t) && l in t.pipes
    ensures Partial(t, l, 0, 0) == (t, [])
  {
    var p := t.pipes[l];
    assert p[..16 * 0] == [] && p[16 * 0..] == p;
    assert t.pipes[l := p] == t.pipes;
  }

  /** Reading more messages only shortens the pipe. */
  lemma PartialRead(t: Table, l: nat, c: nat, d: nat)
    requires TableOk(t) && l in t.pipes && c <= d && 16 * d <= |t.pipes[l]|
    ensures var s := Partial(t, l, c, c);
            Partial(t, l, c, d) == (s.0.(pipes := s.0.pipes[l := t.pipes[l][16 * d..]]), s.1)
  {
    PartialKeeps(t, l, c, c);
    var q := t.pipes[l];
    assert t.pipes[l := q[16 * c..]][l := q[16 * d..]] == t.pipes[l := q[16 * d..]];
  }

  /** Reading more messages leaves the callbacks run so far as they were. */
  lemma PartialFired(t: Table, l: nat, c: nat, d: nat, fired: seq<nat>)
    requires TableOk(t) && l in t.pipes && c <= d && 16 * d <= |t.pipes[l]|
    requires fired == Partial(t, l, c, c).1
    ensures fired == Partial(t, l, c, d).1
  {
    PartialRead(t, l, c, d);
  }

  /** Every message of the pipe handled: the state uv__signal_event returns. */
  lemma EventDone(t: Table, l: nat, c: nat)
    requires TableOk(t) && l in t.pipes && 16 * c == |t.pipes[l]|
    ensures Partial(t, l, c, c) == EventSpec(t, l)
  {
    assert |t.pipes[l]| / 16 == c;
  }

  /** Message `k` of the pipe read from a buffer that holds messages `c` to `d`: the step of the event pass. */
  lemma BufferMessage(t: Table, l: nat, c: nat, k: nat, d: nat, b: seq<byte>, i: nat, w: seq<byte>)
    requires TableOk(t) && l in t.pipes && c <= k < d && 16 * d <= |t.pipes[l]|
    requires b == t.pipes[l][16 * c..16 * d] && i == 16 * k - 16 * c && i + 16 <= |b| && w == b[i..i + 16]
    ensures w == t.pipes[l][16 * k..16 * k + 16]
    ensures Decode(w).handle in Partial(t, l, k, d).0.handles
    ensures Partial(t, l, k + 1, d) == Then(Partial(t, l, k, d), Decode(w))
  {
    Window(t.pipes[l], c, k, d, b, i, w);
    MessageHandle(t, l, k);
    PartialStep(t, l, k, d);
  }

  /** Message `k` of a pipe sits in a buffer holding messages `c` to `d` at byte `16 * (k - c)`. */
  lemma Window(q: seq<byte>, c: nat, k: nat, d: nat, b: seq<byte>, i: nat, w: seq<byte>)
    requires c <= k < d && 16 * d <= |q|
    requires b == q[16 * c..16 * d] && i == 16 * k - 16 * c && i + 16 <= |b| && w == b[i..i + 16]
    ensures 16 * k + 16 <= |q| && w == q[16 * k..16 * k + 16]
  {
    SubSlice(q, 16 * c, 16 * d, i, 16);
  }

  /** Byte `i` of a buffer holding messages `c` to `d` starts message `k`. */
  lemma Slot(c: nat, k: nat, d: nat, i: int, end: int)
    requires i == 16 * k - 16 * c && end == 16 * d - 16 * c && c <= k <= d
    ensures i < end <==> k < d
    ensures i + 16 == 16 * (k + 1) - 16 * c
    ensures i < end ==> i + 16 <= end
  {
  }

  /** A slice of a prefix is a slice. */
  lemma PrefixSlice<T>(q: seq<T>, e: nat, i: nat, j: nat)
    requires i <= j <= e <= |q|
    ensures q[..e][i..j] == q[i..j]
  {
  }

  /** One dispatch, accounted as the event pass accounts it. */
  lemma ThenIs(s: (Table, seq<nat>), m: Msg, r: (Table, bool))
    requires Sorted(s.0.tree) && m.handle in s.0.handles && r == DispatchOne(s.0, m)
    ensures Then(s, m) == (r.0, s.1 + if r.1 then [m.handle] else [])
  {
  }

  /** A window of a slice is a slice. */
  lemma SubSlice<T>(q: seq<T>, a: nat, b: nat, i: nat, k: nat)
    requires a <= b <= |q| && i + k <= b - a
    ensures q[a..b][i..i + k] == q[a + i..a + i + k]
  {
    var whole, part, direct := q[a..b], q[a..b][i..i + k], q[a + i..a + i + k];
    forall x | 0 <= x < k
      ensures part[x] == direct[x]
    {
      assert part[x] == whole[i + x] == q[a + i + x];
    }
    assert part == direct;
  }

  /**
   * The signal state of the process: the tree, the installed handlers, the
   * `uv_signal_t` records by address and the signal pipe of each loop by
   * loop address.
   */
  class Registry {
    var tree: seq<Key>
    var disp: map<int, Installed>
    var handles: map<nat, Handle>
    var pipes: map<nat, seq<byte>>

    function State(): Table
      reads this
    {
      Table(tree, disp, handles, pipes)
    }

    ghost predicate Valid()
      reads this
    {
      TableOk(State())
    }

    /** An empty tree, SIG_DFL everywhere, no handles and no loops. */
    constructor ()
      ensures Valid() && State() == Table([], map[], map[], map[])
    {
      tree := [];
      disp := map[];
      handles := map[];
      pipes := map[];
    }

    /** uv__signal_register_handler: `sigaction` succeeds exactly for the catchable numbers. */
    method RegisterHandler(signum: int, oneshot: bool) returns (err: int)
      modifies this
      ensures Catchable(signum) ==> err == 0 && disp == old(disp)[signum := if oneshot then OneShot else Persistent]
      ensures !Catchable(signum) ==> err == UV_EINVAL && disp == old(disp)
      ensures tree == old(tree) && handles == old(handles) && pipes == old(pipes)
    {
      if Catchable(signum) {
        disp := disp[signum := if oneshot then OneShot else Persistent];
        err := 0;
      } else {
        err := UV_EINVAL;
      }
    }

    /** uv_signal_init. */
    method Init(id: nat, loop: nat, pipeErr: int) returns (rc: int)
      requires Valid() && id !in handles && id < MaxAddr && loop > 0
      modifies this
      ensures (State(), rc) == InitSpec(old(State()), id, loop, pipeErr)
      ensures Valid()
    {
      InitKeeps(State(), id, loop, pipeErr);
      if loop !in pipes {
        if pipeErr != 0 {
          return pipeErr;
        }
        pipes := pipes[loop := []];
      }
      handles := handles[id := Fresh(loop)];
      rc := 0;
    }

    /** uv__signal_stop, and uv__signal_close, which only stops. */
    method Stop(id: nat)
      requires Valid() && id in handles
      modifies this
      ensures State() == StopSpec(old(State()), id)
      ensures Valid()
    {
      StopKeeps(State(), id);
      var h := handles[id];
      if h.signum == 0 {
        return;
      }
      assert HandleOk(id, h, pipes.Keys);
      tree := Remove(tree, KeyOf(id, h));
      var first := FirstHandle(tree, h.signum);
      if first.None? {
        disp := disp - {h.signum};
      } else if first.value.oneShot && !h.oneShot {
        var ret := RegisterHandler(h.signum, true);
        assert ret == 0;
      }
      handles := handles[id := h.(signum := 0, active := false)];
    }

    /** uv__signal_start with the one-shot flag kept from any earlier one-shot start (`fixed` false) or set to `oneshot` (`fixed` true). */
    method Install(id: nat, cb: Callback, signum: int, oneshot: bool, fixed: bool) returns (rc: int)
      requires Valid() && id in handles && handles[id].loop in pipes
      modifies this
      ensures (State(), rc) == StartSpec(old(State()), id, cb, signum, oneshot, fixed)
      ensures Valid()
    {
      StartKeeps(State(), id, cb, signum, oneshot, fixed);
      if signum == 0 {
        return UV_EINVAL;
      }
      var h := handles[id];
      if signum == h.signum {
        handles := handles[id := h.(cb := Some(cb))];
        return 0;
      }
      if h.signum != 0 {
        Stop(id);
      }
      ghost var t1 := State();
      if Installs(tree, signum, oneshot) {
        var err := RegisterHandler(signum, oneshot);
        if err != 0 {
          return err;
        }
      }
      var flag := if fixed then oneshot else h.oneShot || oneshot;
      var h1 := handles[id].(signum := signum, oneShot := flag, cb := Some(cb), active := true);
      FreeKey(t1, id, h1);
      tree := Insert(tree, KeyOf(id, h1));
      handles := handles[id := h1];
      rc := 0;
    }

    /** uv_signal_start: the source as written, where the one-shot flag is never cleared. */
    method Start(id: nat, cb: Callback, signum: int) returns (rc: int)
      requires Valid() && id in handles && handles[id].loop in pipes
      modifies this
      ensures (State(), rc) == StartSpec(old(State()), id, cb, signum, false, false)
      ensures Valid()
    {
      rc := Install(id, cb, signum, false, false);
    }

    /** uv_signal_start_oneshot. */
    method StartOneShot(id: nat, cb: Callback, signum: int) returns (rc: int)
      requires Valid() && id in handles && handles[id].loop in pipes
      modifies this
      ensures (State(), rc) == StartSpec(old(State()), id, cb, signum, true, false)
      ensures Valid()
    {
      rc := Install(id, cb, signum, true, false);
    }
  
    /** The corrected uv__signal_start: the one-shot flag is set or cleared as requested. */
    method StartCorrected(id: nat, cb: Callback, signum: int, oneshot: bool) returns (rc: int)
      requires Valid() && id in handles && handles[id].loop in pipes
      modifies this
      ensures (State(), rc) == StartSpec(old(State()), id, cb, signum, oneshot, true)
      ensures Valid()
    {
      rc := Install(id, cb, signum, oneshot, true);
    }

    /** One `write` of the handler to the pipe of the entry's loop; a full pipe fails with EAGAIN and nothing is counted. */
    method WriteMessage(k: Key, signum: int)
      requires k.id in handles && handles[k.id].loop in pipes && Representable(Msg(k.id, signum))
      modifies this
      ensures State() == Write(old(State()), k, signum)
    {
      var h := handles[k.id];
      var p := pipes[h.loop];
      if |p| + 16 <= PipeCapacity {
        pipes := pipes[h.loop := p + Encode(Msg(k.id, signum))];
        handles := handles[k.id := h.(caught := h.caught + 1)];
      }
    }

    /**
     * uv__signal_handler: from the first handle for the number, one message per
     * entry of the run, in tree order.
     */
    method Handler(signum: int)
      requires Valid()
      modifies this
      ensures State() == HandlerSpec(old(State()), signum)
      ensures Valid()
    {
      ghost var t0 := State();
      HandlerKeeps(t0, signum);
      MatchingIsRun(tree, signum);
      var first := FirstIndex(tree, signum);
      FanOut(t0, signum, first, RunEnd(tree, first, signum));
    }

    /** The loop of uv__signal_handler over the run `tree[lo..hi]` of entries for `signum`. */
    method FanOut(ghost t0: Table, signum: int, lo: nat, ghost hi: nat)
      requires State() == t0 && lo <= hi <= |tree|
      requires forall j :: lo <= j < hi ==> tree[j].signum == signum
      requires hi < |tree| ==> tree[hi].signum != signum
      requires Writable(t0, tree[lo..hi], signum)
      modifies this
      ensures State() == Deliver(t0, t0.tree[lo..hi], signum)
    {
      ghost var ks := tree[lo..hi];
      var i := lo;
      ghost var n := 0;
      assert ks[..0] == [];
      while i < |tree| && tree[i].signum == signum
        invariant i == lo + n && i <= hi && tree == t0.tree
        invariant State() == Deliver(t0, ks[..n], signum)
        decreases |tree| - i
      {
        assert i < hi;
        WriteNext(t0, ks, n, tree[i], signum);
        i := i + 1;
        n := n + 1;
      }
      assert ks[..n] == ks;
    }

    /** The write for entry `n` of `ks`, after those before it. */
    method WriteNext(ghost t0: Table, ghost ks: seq<Key>, ghost n: nat, k: Key, signum: int)
      requires Writable(t0, ks, signum) && n < |ks| && k == ks[n] && State() == Deliver(t0, ks[..n], signum)
      modifies this
      ensures State() == Deliver(t0, ks[..n + 1], signum) && tree == old(tree)
    {
      DeliverStep(t0, ks, n, signum);
      WriteMessage(k, signum);
    }
  
    /**
     * One message of uv__signal_event: the callback runs when the message's
     * number is still the handle's, dispatched_signals counts the message, and
     * a one-shot handle is stopped.
     */
    method Dispatch(m: Msg) returns (fires: bool)
      requires Valid() && m.handle in handles
      modifies this
      ensures (State(), fires) == DispatchOne(old(State()), m)
      ensures Valid()
    {
      BumpKeeps(State(), m.handle);
      var h := handles[m.handle];
      fires := m.signum == h.signum;
      handles := handles[m.handle := h.(dispatched := h.dispatched + 1)];
      if h.oneShot {
        Stop(m.handle);
      }
    }

    /**
     * uv__signal_event on the pipe of loop `l`: read up to a 512-byte buffer
     * at a time, handle the whole messages in it, and read again while the
     * buffer came back full.
     */
    method Event(l: nat) returns (fired: seq<nat>)
      requires Valid() && l in pipes
      modifies this
      ensures (State(), fired) == EventSpec(old(State()), l)
      ensures Valid()
    {
      ghost var t0 := State();
      ghost var c: nat := 0;
      assert PipeOk(pipes[l], l, t0.handles);
      PartialStart(t0, l);
      var buf := new byte[512];
      fired := [];
      while true
        invariant 16 * c <= |t0.pipes[l]| && buf.Length == 512
        invariant (State(), fired) == Partial(t0, l, c, c)
        decreases |t0.pipes[l]| - 16 * c
      {
        PartialKeeps(t0, l, c, c);
        if pipes[l] == [] {
          // EAGAIN with an empty buffer: nothing there.
          EventDone(t0, l, c);
          return;
        }
        var end;
        fired, end, c := ReadMessages(t0, l, c, buf, fired);
        if end != 512 {
          EventDone(t0, l, c);
          PartialKeeps(t0, l, c, c);
          break;
        }
      }
    }

    /**
     * One read of uv__signal_event into `buf` and the messages it brought
     * handled: `end` is the number of bytes read, the messages `c` to `d`
     * of the pipe.
     */
    method ReadMessages(ghost t0: Table, l: nat, ghost c: nat, buf: array<byte>, fired0: seq<nat>)
      returns (fired: seq<nat>, end: nat, ghost d: nat)
      requires TableOk(t0) && l in t0.pipes && 16 * c <= |t0.pipes[l]| && buf.Length == 512
      requires (State(), fired0) == Partial(t0, l, c, c) && pipes[l] == t0.pipes[l][16 * c..] != []
      modifies this, buf
      ensures c < d && 16 * d <= |t0.pipes[l]| && (end != 512 ==> 16 * d == |t0.pipes[l]|)
      ensures (State(), fired) == Partial(t0, l, d, d)
    {
      // The pipe holds whole messages, so no partial message is ever carried over.
      var bytes := 0;
      var r;
      r, d := ReadInto(t0, l, c, buf, bytes);
      bytes := bytes + r;
      assert bytes == r;
      end := WholeBytes(bytes);
      assert end == r;
      PartialFired(t0, l, c, d, fired0);
      fired := DispatchBuffer(t0, l, c, d, buf, end, fired0);
    }

    /** The read call of uv__signal_event: `r` bytes, the messages `c` to `d`, move from the pipe into `buf`. */
    method ReadInto(ghost t0: Table, l: nat, ghost c: nat, buf: array<byte>, bytes: nat) returns (r: nat, ghost d: nat)
      requires TableOk(t0) && l in t0.pipes && 16 * c <= |t0.pipes[l]| && buf.Length == 512 && bytes == 0
      requires State() == Partial(t0, l, c, c).0 && pipes[l] == t0.pipes[l][16 * c..] != []
      modifies this, buf
      ensures c < d && 16 * d <= |t0.pipes[l]| && (r != 512 ==> 16 * d == |t0.pipes[l]|)
      ensures r == 16 * d - 16 * c && r <= buf.Length && WholeBytes(r) == r && buf[..r] == t0.pipes[l][16 * c..16 * d]
      ensures State() == Partial(t0, l, c, d).0
    {
      ghost var p0 := t0.pipes[l];
      WholePipe(t0, l);
      var avail := pipes[l];
      r := if |avail| < 512 - bytes then |avail| else 512 - bytes;
      d := ReadCount(|p0|, c, r);
      CopyIn(buf, bytes, avail, r);
      ReadBuffer(p0, c, d, avail, buf[..r], r);
      Consume(t0, l, c, d, r);
    }

    /** The read of uv__signal_event as seen by the pipe: the first `r` bytes, messages `c` to `d`, are gone. */
    method Consume(ghost t0: Table, l: nat, ghost c: nat, ghost d: nat, r: nat)
      requires TableOk(t0) && l in t0.pipes && c <= d && 16 * d <= |t0.pipes[l]|
      requires State() == Partial(t0, l, c, c).0 && l in pipes && r <= |pipes[l]| && pipes[l][r..] == t0.pipes[l][16 * d..]
      modifies this
      ensures State() == Partial(t0, l, c, d).0
    {
      PartialRead(t0, l, c, d);
      pipes := pipes[l := pipes[l][r..]];
    }

    /**
     * The inner loop of uv__signal_event: the `end` bytes in `buf` are
     * messages `c` to `d` of the pipe.
     */
    method DispatchBuffer(ghost t0: Table, l: nat, ghost c: nat, ghost d: nat, buf: array<byte>, end: nat, fired0: seq<nat>)
      returns (fired: seq<nat>)
      requires TableOk(t0) && l in t0.pipes && c <= d && 16 * d <= |t0.pipes[l]|
      requires end == 16 * d - 16 * c && end <= buf.Length && buf[..end] == t0.pipes[l][16 * c..16 * d]
      requires (State(), fired0) == Partial(t0, l, c, d)
      modifies this
      ensures (State(), fired) == Partial(t0, l, d, d)
    {
      var i := 0;
      ghost var k := c;
      fired := fired0;
      while i < end
        invariant i == 16 * k - 16 * c && c <= k <= d
        invariant (State(), fired) == Partial(t0, l, k, d)
      {
        Slot(c, k, d, i, end);
        fired, k := DispatchNext(t0, l, c, k, d, buf, end, i, fired);
        i := i + 16;
      }
      Slot(c, k, d, i, end);
    }

    /** One message of the buffer: the message at byte `i` is message `k` of the pipe. */
    method DispatchNext(ghost t0: Table, l: nat, ghost c: nat, ghost k: nat, ghost d: nat, buf: array<byte>, end: nat, i: nat, fired0: seq<nat>)
      returns (fired: seq<nat>, ghost next: nat)
      requires TableOk(t0) && l in t0.pipes && c <= k < d && 16 * d <= |t0.pipes[l]|
      requires end <= buf.Length && buf[..end] == t0.pipes[l][16 * c..16 * d]
      requires i == 16 * k - 16 * c && i + 16 <= end
      requires (State(), fired0) == Partial(t0, l, k, d)
      modifies this
      ensures next == k + 1 && (State(), fired) == Partial(t0, l, next, d)
    {
      next := k + 1;
      PartialKeeps(t0, l, k, d);
      var m := Decode(buf[i..i + 16]);
      PrefixSlice(buf[..], end, i, i + 16);
      BufferMessage(t0, l, c, k, d, buf[..end], i, buf[i..i + 16]);
      ghost var s := Partial(t0, l, k, d);
      var f := Dispatch(m);
      fired := fired0 + if f then [m.handle] else [];
      ThenIs(s, m, (State(), f));
    }

    /**
     * uv__signal_loop_cleanup: stop every signal handle on the loop's handle
     * queue, then close the loop's signal pipe.
     */
    method LoopCleanup(l: nat, queue: seq<nat>)
      requires Valid()
      requires forall id :: id in handles && handles[id].loop == l && handles[id].signum != 0 ==> id in queue
      modifies this
      ensures var r := StopAll(old(State()), queue); State() == r.(pipes := r.pipes - {l})
      ensures Valid() && forall k :: k in tree ==> k.loop != l
    {
      ghost var t0 := State();
      var i := 0;
      while i < |queue|
        invariant i <= |queue| && Valid()
        invariant State() == StopAll(t0, queue[..i])
      {
        StopNext(t0, queue, i);
        i := i + 1;
      }
      assert queue[..i] == queue;
      Cleanup(t0, queue, l);
      pipes := pipes - {l};
    }

    /** One turn of the loop of uv__signal_loop_cleanup: the `i`th handle of the queue is stopped if it is a signal handle. */
    method StopNext(ghost t0: Table, queue: seq<nat>, i: nat)
      requires Valid() && i < |queue| && Sorted(t0.tree) && State() == StopAll(t0, queue[..i])
      modifies this
      ensures Valid() && State() == StopAll(t0, queue[..i + 1])
    {
      assert queue[..i + 1][..i] == queue[..i];
      if queue[i] in handles {
        Stop(queue[i]);
      }
    }
  }
}
