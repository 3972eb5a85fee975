/**
 * Child reaping and stdio bookkeeping of src/unix/process.c.
 *
 * Flag words are sets of bit positions, as in the epoll model: the element k
 * stands for the bit 1 << k, `*` is `&`, `+` is `|`.  The calls into the
 * system (waitpid, uv_socketpair, uv__stream_open) become parameters that
 * carry their results.  A `Processes` object holds the loop's
 * `process_handles` queue and the per-handle fields that uv__chld and
 * uv__process_close read and write.
 */
module Process {
  import opened Common
  import opened Queue

  /** A flag word, as the set of the positions of its set bits. */
  type Flags = set<nat>

  /** The uv_stdio_flags values of include/uv.h. */
  const UV_IGNORE: Flags := {}
  const UV_CREATE_PIPE: Flags := {0}
  const UV_INHERIT_FD: Flags := {1}
  const UV_INHERIT_STREAM: Flags := {2}
  const UV_READABLE_PIPE: Flags := {4}
  const UV_WRITABLE_PIPE: Flags := {5}

  /** The stream flags UV_HANDLE_READABLE (0x4000) and UV_HANDLE_WRITABLE (0x8000). */
  const UV_HANDLE_READABLE: Flags := {14}
  const UV_HANDLE_WRITABLE: Flags := {15}

  /** SIGCHLD on Linux. */
  const SIGCHLD: int := 17

  /** The bits uv__process_init_stdio dispatches on. */
  const StdioMask: Flags := UV_IGNORE + UV_CREATE_PIPE + UV_INHERIT_FD + UV_INHERIT_STREAM

  // ---------------------------------------------------------------------
  // Stdio containers
  // ---------------------------------------------------------------------

  datatype StreamType = NamedPipe | OtherStream

  /** A stream handle: its type and its descriptor (uv__stream_fd, -1 when it has none). */
  datatype Stream = Stream(kind: StreamType, fd: int)

  /** The `data` union of a uv_stdio_container_t. */
  datatype StdioData = FdData(fd: int) | StreamData(stream: Stream)

  datatype Container = Container(flags: Flags, data: StdioData)

  /** A descriptor pair `fds[2]`: `parent` is fds[0], the parent's end; `child` is fds[1], the child's end. */
  datatype Pipe = Pipe(parent: int, child: int)

  /** What uv_socketpair returns: a connected pair, or a negative error code. */
  datatype SocketPair = PairOk(pair: Pipe) | PairFailed(err: int)

  /** The return value of uv__process_init_stdio and its `fds` afterwards. */
  datatype Setup = Setup(err: int, fds: Pipe)

  /**
   * The return value of uv__process_open_stream, its `pipefds` afterwards, and
   * the flags it passes to uv__stream_open (`None` when it does not call it).
   */
  datatype Opened = Opened(err: int, fds: Pipe, mode: Option<Flags>)

  /** The disposition bits of a container. */
  function Kind(c: Container): Flags
  {
    c.flags * StdioMask
  }

  /** The union member the disposition reads is the one the caller filled in. */
  predicate Tagged(c: Container)
  {
    (Kind(c) == UV_CREATE_PIPE || Kind(c) == UV_INHERIT_STREAM ==> c.data.StreamData?) &&
    (Kind(c) == UV_INHERIT_FD ==> c.data.FdData?)
  }

  /** The descriptor an inheriting container hands to the child. */
  function InheritedFd(c: Container): int
    requires Tagged(c) && (Kind(c) == UV_INHERIT_FD || Kind(c) == UV_INHERIT_STREAM)
  {
    if c.flags * UV_INHERIT_FD != {} then c.data.fd else c.data.stream.fd
  }

  /**
   * uv__process_init_stdio: IGNORE succeeds without touching `fds`; a
   * CREATE_PIPE container needs a named-pipe stream and then returns what
   * uv_socketpair returns; an inheriting container needs a descriptor, which
   * becomes the child's end; any other combination of bits is refused.
   */
  function InitStdio(c: Container, fds: Pipe, sp: SocketPair): (r: Setup)
    requires Tagged(c)
    requires sp.PairFailed? ==> sp.err < 0
    ensures r.err <= 0
    ensures r.err != 0 ==> r.fds == fds
    ensures r.fds.parent != fds.parent ==> Kind(c) == UV_CREATE_PIPE && sp == PairOk(r.fds)
    ensures r.err == 0 ==>
              Kind(c) == UV_IGNORE || Kind(c) == UV_CREATE_PIPE || Kind(c) == UV_INHERIT_FD || Kind(c) == UV_INHERIT_STREAM
    ensures Kind(c) == UV_IGNORE ==> r == Setup(0, fds)
    ensures r.err == 0 && (Kind(c) == UV_INHERIT_FD || Kind(c) == UV_INHERIT_STREAM) ==>
              r.fds == fds.(child := InheritedFd(c)) && r.fds.child != -1
  {
    var k := Kind(c);
    if k == UV_IGNORE then
      Setup(0, fds)
    else if k == UV_CREATE_PIPE then
      if c.data.stream.kind != NamedPipe then Setup(UV_EINVAL, fds)
      else match sp
        case PairOk(p) => Setup(0, p)
        case PairFailed(e) => Setup(e, fds)
    else if k == UV_INHERIT_FD || k == UV_INHERIT_STREAM then
      var fd := InheritedFd(c);
      if fd == -1 then Setup(UV_EINVAL, fds) else Setup(0, fds.(child := fd))
    else
      // The source asserts here; without assertions it returns UV_EINVAL.
      Setup(UV_EINVAL, fds)
  }

  /** A container that asks for two dispositions at once is refused. */
  lemma ConflictingDispositions(c: Container, fds: Pipe, sp: SocketPair, a: nat, b: nat)
    requires Tagged(c) && (sp.PairFailed? ==> sp.err < 0)
    requires a in Kind(c) && b in Kind(c) && a != b
    ensures InitStdio(c, fds, sp) == Setup(UV_EINVAL, fds)
  {
  }

  /** Testing a one-bit flag by intersection is testing its bit. */
  lemma Bit(flags: Flags, b: nat)
    ensures flags * {b} != {} <==> b in flags
  {
    if b in flags {
      assert b in flags * {b};
    }
  }

  /** The stream flags of the parent's end: the child's writable pipe is readable here and vice versa. */
  function HandleFlags(flags: Flags): (r: Flags)
    ensures 14 in r <==> 5 in flags
    ensures 15 in r <==> 4 in flags
    ensures r <= UV_HANDLE_READABLE + UV_HANDLE_WRITABLE
  {
    Bit(flags, 5);
    Bit(flags, 4);
    (if flags * UV_WRITABLE_PIPE != {} then UV_HANDLE_READABLE else {}) +
    (if flags * UV_READABLE_PIPE != {} then UV_HANDLE_WRITABLE else {})
  }

  /**
   * uv__process_open_stream: nothing happens unless the container has the
   * CREATE_PIPE bit and a parent's end; otherwise the child's end is closed
   * here and the parent's end is opened as the stream with swapped
   * directions.  `openErr` is the result of uv__stream_open.
   */
  function OpenStream(c: Container, pipefds: Pipe, openErr: int): (r: Opened)
    ensures r.mode == None <==> c.flags * UV_CREATE_PIPE == {} || pipefds.parent < 0
    ensures r.mode == None ==> r == Opened(0, pipefds, None)
    ensures r.mode != None ==> r.fds == Pipe(pipefds.parent, -1) && r.err == openErr
    ensures r.mode != None ==> r.mode.value == HandleFlags(c.flags)
  {
    if c.flags * UV_CREATE_PIPE == {} || pipefds.parent < 0 then
      Opened(0, pipefds, None)
    else
      Opened(openErr, Pipe(pipefds.parent, -1), Some(HandleFlags(c.flags)))
  }

  /**
   * A created pipe, once set up, is opened on the parent's end: the child's
   * end is closed in the parent, and the stream's directions mirror the
   * child's.
   */
  lemma CreatedPipeIsOpened(c: Container, fds: Pipe, p: Pipe, openErr: int)
    requires Tagged(c) && Kind(c) == UV_CREATE_PIPE && c.data.stream.kind == NamedPipe && p.parent >= 0
    ensures var s := InitStdio(c, fds, PairOk(p));
            s == Setup(0, p) &&
            var o := OpenStream(c, s.fds, openErr);
            o.fds == Pipe(p.parent, -1) && o.err == openErr && o.mode.Some? &&
            (14 in o.mode.value <==> 5 in c.flags) && (15 in o.mode.value <==> 4 in c.flags)
  {
    assert 0 in c.flags * StdioMask;
  }

  /** A container that does not create a pipe is left alone by uv__process_open_stream, whatever its `fds`. */
  lemma OnlyPipesAreOpened(c: Container, fds: Pipe, openErr: int)
    requires Kind(c) == UV_IGNORE || Kind(c) == UV_INHERIT_FD || Kind(c) == UV_INHERIT_STREAM
    ensures OpenStream(c, fds, openErr) == Opened(0, fds, None)
  {
    Bit(c.flags, 0);
    assert 0 !in Kind(c) && 0 in StdioMask;
  }

  // ---------------------------------------------------------------------
  // Wait statuses
  // ---------------------------------------------------------------------

  /** WIFEXITED: the low seven bits of the status are clear. */
  predicate Exited(status: int)
  {
    status % 0x80 == 0
  }

  /** WIFSIGNALED: the low seven bits are neither 0 (exited) nor 0x7f (stopped). */
  predicate Signaled(status: int)
  {
    status % 0x80 != 0 && status % 0x80 != 0x7f
  }

  /** The `exit_status` uv__chld passes: WEXITSTATUS for a normal exit, else 0. */
  function ExitStatus(status: int): (r: int)
    ensures 0 <= r < 0x100
    ensures !Exited(status) ==> r == 0
  {
    if Exited(status) then (status / 0x100) % 0x100 else 0
  }

  /** The `term_signal` uv__chld passes: WTERMSIG for a child killed by a signal, else 0. */
  function TermSignal(status: int): (r: int)
    ensures 0 <= r < 0x7f
    ensures r == 0 <==> !Signaled(status)
  {
    if Signaled(status) then status % 0x80 else 0
  }

  /** A child that exited with `code` is reported with that code and no signal. */
  lemma ExitedRoundTrip(code: int)
    requires 0 <= code < 0x100
    ensures ExitStatus(code * 0x100) == code && TermSignal(code * 0x100) == 0
  {
  }

  /** A child killed by `sig`, with or without a core dump, is reported with that signal and exit status 0. */
  lemma KilledRoundTrip(sig: int, core: bool)
    requires 0 < sig < 0x7f
    ensures var status := sig + (if core then 0x80 else 0);
            TermSignal(status) == sig && ExitStatus(status) == 0
  {
  }

  /** A stopped child (status 0x7f in the low byte) is reported as neither exited nor killed. */
  lemma StoppedIsNeither(sig: int)
    requires 0 <= sig < 0x100
    ensures ExitStatus(sig * 0x100 + 0x7f) == 0 && TermSignal(sig * 0x100 + 0x7f) == 0
  {
  }

  /** No status carries both a nonzero exit status and a terminating signal. */
  lemma NeverBoth(status: int)
    ensures ExitStatus(status) == 0 || TermSignal(status) == 0
  {
  }

  // ---------------------------------------------------------------------
  // Reaping
  // ---------------------------------------------------------------------

  /**
   * What waitpid(pid, &status, WNOHANG) finally returns for one child, after
   * its EINTR retries: the pid with a status, 0 while the child runs, or -1
   * with ECHILD.  Any other error aborts the process and is not modelled.
   */
  datatype Reap = Done(status: int) | Running | NoChild

  /** One invocation of `exit_cb(process, exit_status, term_signal)`. */
  datatype Exit = Exit(process: int, cb: Callback, exitStatus: int, termSignal: int)

  /** Every process of `s` has a pid, and waitpid has an answer for it. */
  ghost predicate Answered(s: seq<int>, pid: map<int, int>, waitpid: map<int, Reap>)
  {
    forall i :: 0 <= i < |s| ==> s[i] in pid && pid[s[i]] in waitpid
  }

  /** The processes of `s` that waitpid reports as exited, in queue order. */
  ghost function Reaped(s: seq<int>, pid: map<int, int>, waitpid: map<int, Reap>): seq<int>
    requires Answered(s, pid, waitpid)
  {
    if s == [] then []
    else
      var x := s[|s| - 1];
      Reaped(s[..|s| - 1], pid, waitpid) + (if waitpid[pid[x]].Done? then [x] else [])
  }

  /** The processes of `s` that waitpid reports as running or gone, in queue order. */
  ghost function Kept(s: seq<int>, pid: map<int, int>, waitpid: map<int, Reap>): seq<int>
    requires Answered(s, pid, waitpid)
  {
    if s == [] then []
    else
      var x := s[|s| - 1];
      Kept(s[..|s| - 1], pid, waitpid) + (if waitpid[pid[x]].Done? then [] else [x])
  }

  /** `status` once the reaped processes of `s` have their status stored. */
  ghost function Collected(s: seq<int>, pid: map<int, int>, waitpid: map<int, Reap>, status: map<int, int>): map<int, int>
    requires Answered(s, pid, waitpid)
  {
    if s == [] then status
    else
      var x := s[|s| - 1];
      var m := Collected(s[..|s| - 1], pid, waitpid, status);
      if waitpid[pid[x]].Done? then m[x := waitpid[pid[x]].status] else m
  }

  /** Every process of `r` has its `exit_cb` and its status recorded. */
  ghost predicate Reported(r: seq<int>, exitCb: map<int, Option<Callback>>, status: map<int, int>)
  {
    forall i :: 0 <= i < |r| ==> r[i] in exitCb && r[i] in status
  }

  /** The callbacks invoked for the reaped processes `r`, in order: one for each whose `exit_cb` is set. */
  ghost function Exits(r: seq<int>, exitCb: map<int, Option<Callback>>, status: map<int, int>): (e: seq<Exit>)
    requires Reported(r, exitCb, status)
    ensures forall i :: 0 <= i < |e| ==>
              var p := e[i].process;
              p in exitCb && p in status && exitCb[p] == Some(e[i].cb) &&
              e[i].exitStatus == ExitStatus(status[p]) && e[i].termSignal == TermSignal(status[p])
  {
    if r == [] then []
    else
      var x := r[|r| - 1];
      Exits(r[..|r| - 1], exitCb, status) +
      (if exitCb[x].Some? then [Exit(x, exitCb[x].value, ExitStatus(status[x]), TermSignal(status[x]))] else [])
  }

  /** The processes whose callbacks `e` invokes, in order. */
  ghost function Invoked(e: seq<Exit>): (ps: seq<int>)
    ensures |ps| == |e| && forall i :: 0 <= i < |e| ==> ps[i] == e[i].process
  {
    if e == [] then [] else Invoked(e[..|e| - 1]) + [e[|e| - 1].process]
  }

  /** The elements of `s`. */
  ghost function Members(s: seq<int>): set<int>
  {
    set x | x in s
  }

  /** The reaped and the kept processes are exactly those waitpid reports as exited and as not exited. */
  lemma {:induction false} SplitMembers(s: seq<int>, pid: map<int, int>, waitpid: map<int, Reap>)
    requires Answered(s, pid, waitpid)
    ensures forall x :: x in Reaped(s, pid, waitpid) <==> x in s && waitpid[pid[x]].Done?
    ensures forall x :: x in Kept(s, pid, waitpid) <==> x in s && !waitpid[pid[x]].Done?
  {
    if s != [] {
      var t, x := s[..|s| - 1], s[|s| - 1];
      SplitMembers(t, pid, waitpid);
      assert s == t + [x];
    }
  }

  /** Together the two halves of the split are a permutation of `s`. */
  lemma {:induction false} SplitPermutes(s: seq<int>, pid: map<int, int>, waitpid: map<int, Reap>)
    requires Answered(s, pid, waitpid)
    ensures multiset(Reaped(s, pid, waitpid)) + multiset(Kept(s, pid, waitpid)) == multiset(s)
  {
    if s != [] {
      var t, x := s[..|s| - 1], s[|s| - 1];
      SplitPermutes(t, pid, waitpid);
      assert s == t + [x];
    }
  }

  /** Both halves of the split keep the distinctness of the queue. */
  lemma {:induction false} SplitDistinct(s: seq<int>, pid: map<int, int>, waitpid: map<int, Reap>)
    requires Answered(s, pid, waitpid) && Distinct(s)
    ensures Distinct(Reaped(s, pid, waitpid)) && Distinct(Kept(s, pid, waitpid))
  {
    if s != [] {
      var t, x := s[..|s| - 1], s[|s| - 1];
      assert Distinct(t);
      SplitDistinct(t, pid, waitpid);
      SplitMembers(t, pid, waitpid);
      assert x !in t;
    }
  }

  /** The stored status of every reaped process is the one waitpid reported; no other entry changes. */
  lemma {:induction false} CollectedStatus(s: seq<int>, pid: map<int, int>, waitpid: map<int, Reap>, status: map<int, int>)
    requires Answered(s, pid, waitpid)
    ensures var m := Collected(s, pid, waitpid, status);
            forall x :: x in m <==> x in status || x in Reaped(s, pid, waitpid)
    ensures var m := Collected(s, pid, waitpid, status);
            forall i :: 0 <= i < |s| && waitpid[pid[s[i]]].Done? ==> s[i] in m && m[s[i]] == waitpid[pid[s[i]]].status
    ensures var m := Collected(s, pid, waitpid, status);
            forall x :: x in status && x !in Reaped(s, pid, waitpid) ==> m[x] == status[x]
  {
    if s != [] {
      var t := s[..|s| - 1];
      CollectedStatus(t, pid, waitpid, status);
    }
  }

  /** The reaped processes are distinct, and each has a callback slot and, once collected, a status. */
  lemma ReapedKnown(s: seq<int>, pid: map<int, int>, waitpid: map<int, Reap>, exitCb: map<int, Option<Callback>>,
                    status: map<int, int>)
    requires Answered(s, pid, waitpid) && Distinct(s)
    requires forall x :: x in Members(s) ==> x in exitCb
    ensures var r := Reaped(s, pid, waitpid);
            Distinct(r) && forall i :: 0 <= i < |r| ==> r[i] in exitCb && r[i] in Collected(s, pid, waitpid, status)
  {
    SplitMembers(s, pid, waitpid);
    SplitDistinct(s, pid, waitpid);
    CollectedStatus(s, pid, waitpid, status);
  }

  /** Every reaped process with a callback has it invoked exactly once, and no other callback runs. */
  lemma {:induction false} ExitsOnce(r: seq<int>, exitCb: map<int, Option<Callback>>, status: map<int, int>)
    requires Reported(r, exitCb, status)
    requires Distinct(r)
    ensures Distinct(Invoked(Exits(r, exitCb, status)))
    ensures forall x :: x in Invoked(Exits(r, exitCb, status)) <==> x in r && exitCb[x].Some?
  {
    if r != [] {
      var t, x := r[..|r| - 1], r[|r| - 1];
      assert Distinct(t) && x !in t;
      ExitsOnce(t, exitCb, status);
      var e := Exits(r, exitCb, status);
      var et := Exits(t, exitCb, status);
      if exitCb[x].Some? {
        assert e == et + [Exit(x, exitCb[x].value, ExitStatus(status[x]), TermSignal(status[x]))];
        assert e[..|e| - 1] == et;
        assert Invoked(e) == Invoked(et) + [x];
      } else {
        assert e == et;
      }
    }
  }

  /** Taking out the element just after `a` from `a + t`. */
  lemma DropAfter(a: seq<int>, t: seq<int>)
    requires t != []
    ensures Without(a + t, |a|) == a + t[1..]
  {
    assert (a + t)[..|a|] == a;
    assert (a + t)[|a| + 1..] == t[1..];
  }

  class Processes {
    /** The link slots of the loop queue and of every process handle. */
    const arena: Arena
    /** The sentinel `loop->process_handles`. */
    const handles: int
    /** The local queue `pending` of uv__chld. */
    const pending: int

    /** The process handles whose active flag is set. */
    var active: set<int>
    /** `process->pid` of every spawned handle. */
    var pid: map<int, int>
    /** `process->exit_cb`; `None` is NULL. */
    var exitCb: map<int, Option<Callback>>
    /** `process->status` of every reaped handle. */
    var status: map<int, int>
    /** Whether `loop->child_watcher` is started. */
    var watching: bool

    /** A slot that can be a process handle. */
    predicate IsProcess(h: int)
    {
      0 <= h < arena.N && h != handles && h != pending
    }

    /** The arena holds the process queue; every other queue, `pending` included, is at most a self-cycle or in use by uv__chld. */
    ghost predicate QueueOk()
      reads arena, arena.next, arena.prev
    {
      arena.Valid() && 0 <= handles < arena.N && 0 <= pending < arena.N && handles != pending &&
      handles in arena.lists && pending !in arena.owner &&
      (forall h :: h in arena.lists && h != handles && h != pending ==> arena.lists[h] == []) &&
      (forall x :: x in arena.owner ==> arena.owner[x] == handles || arena.owner[x] == pending)
    }

    /** At rest every queued process is on `process_handles` and `pending` is empty. */
    ghost predicate Resting()
      reads arena, arena.next, arena.prev
    {
      QueueOk() && (pending in arena.lists ==> arena.lists[pending] == []) &&
      (forall x :: x in arena.owner ==> arena.owner[x] == handles)
    }

    /**
     * The active processes are exactly the queued ones, each with a pid and a
     * callback slot, and the SIGCHLD watcher runs while any process is queued.
     */
    ghost predicate Valid()
      reads this, arena, arena.next, arena.prev
    {
      Resting() && active == arena.owner.Keys &&
      (forall x :: x in active ==> x in pid && x in exitCb) &&
      (arena.lists[handles] != [] ==> watching)
    }

    /** At rest the queued processes are distinct, and they are the queued slots of the arena. */
    lemma RestingQueue()
      requires Resting()
      ensures Distinct(Queued()) && arena.owner.Keys == Members(Queued())
    {
      SoleList(arena.N, arena.next[..], arena.prev[..], arena.lists, arena.owner, handles);
      assert forall x :: x in arena.owner <==> x in Members(Queued());
    }

    /** A rested arena whose active set only shrank, with the watcher running if processes remain, is valid. */
    lemma Revalid(a0: set<int>)
      requires Resting() && active == arena.owner.Keys && active <= a0
      requires forall x :: x in a0 ==> x in pid && x in exitCb
      requires arena.lists[handles] != [] ==> watching
      ensures Valid()
    {
    }

    /** Once `pending` is empty again, everything queued is on `process_handles`. */
    lemma Rested()
      requires QueueOk() && pending in arena.lists && arena.lists[pending] == []
      ensures Resting()
    {
      forall x | x in arena.owner
        ensures arena.owner[x] == handles
      {
        assert x in arena.lists[arena.owner[x]];
      }
    }

    /** The running processes in queue order. */
    ghost function Queued(): seq<int>
      reads arena
      requires handles in arena.lists
    {
      arena.lists[handles]
    }

    /** A loop with no processes over `n` link slots; slot 0 is `process_handles`, slot 1 the `pending` of uv__chld. */
    constructor (n: nat)
      requires n >= 2
      ensures Valid() && fresh(arena) && arena.N == n
      ensures Queued() == [] && active == {} && !watching
      ensures pid == map[] && exitCb == map[] && status == map[]
    {
      var a := new Arena(n);
      arena := a;
      handles := 0;
      pending := 1;
      active := {};
      pid := map[];
      exitCb := map[];
      status := map[];
      watching := false;
      new;
      a.Init(0);
    }

    /**
     * The bookkeeping of uv_spawn around the fork: the handle's link becomes a
     * self-cycle, the SIGCHLD watcher is started, and a child whose exec
     * succeeded is queued and made active; pid and callback are stored
     * either way.  `execError` is the error the child reported.
     */
    method Spawned(h: int, p: int, cb: Option<Callback>, execError: int) returns (r: int)
      requires Valid() && IsProcess(h) && h !in active
      modifies this, arena, arena.next, arena.prev
      ensures Valid() && r == execError && watching
      ensures execError == 0 ==> Queued() == old(Queued()) + [h] && active == old(active) + {h}
      ensures execError != 0 ==>
                Queued() == old(Queued()) && active == old(active) && h in arena.lists && arena.lists[h] == []
      ensures pid == old(pid)[h := p] && exitCb == old(exitCb)[h := cb] && status == old(status)
    {
      Link(h, execError == 0);
      watching := true;
      if execError == 0 {
        active := active + {h};
      }
      pid := pid[h := p];
      exitCb := exitCb[h := cb];
      r := execError;
    }

    /** QUEUE_INIT of a process's link, then QUEUE_INSERT_TAIL onto `process_handles` when `queue` holds. */
    method Link(h: int, queue: bool)
      requires Resting() && IsProcess(h) && h !in arena.owner
      modifies arena, arena.next, arena.prev
      ensures Resting()
      ensures queue ==> arena.lists[handles] == old(arena.lists[handles]) + [h] && arena.owner.Keys == old(arena.owner.Keys) + {h}
      ensures !queue ==>
                arena.lists[handles] == old(arena.lists[handles]) && arena.owner.Keys == old(arena.owner.Keys) &&
                h in arena.lists && arena.lists[h] == []
    {
      arena.Init(h);
      if queue {
        arena.InsertTail(handles, h);
      }
    }

    /**
     * uv__process_close: the handle leaves the queue (a reaped handle is a
     * self-cycle and stays one) and is stopped; the SIGCHLD watcher stops
     * exactly when no process is left queued.
     */
    method Close(h: int)
      requires Valid() && IsProcess(h) && (h in active || (h in arena.lists && arena.lists[h] == []))
      modifies this, arena, arena.next, arena.prev
      ensures Valid()
      ensures old(h in active) ==> Queued() == Without(old(Queued()), IndexOf(old(Queued()), h))
      ensures old(h !in active) ==> Queued() == old(Queued())
      ensures active == old(active) - {h}
      ensures watching <==> old(watching) && Queued() != []
      ensures pid == old(pid) && exitCb == old(exitCb) && status == old(status)
    {
      arena.Unlink(h);
      active := active - {h};
      var empty := arena.IsEmpty(handles);
      if empty {
        watching := false;
      }
    }

    /**
     * uv__chld: every queued process whose child waitpid reports as exited
     * has its status stored and moves to `pending`, in queue order, while the
     * others stay queued in order; then each moved process becomes a stopped
     * self-cycle and has its exit callback, if any, invoked with the decoded
     * status.  `pending` ends empty.
     */
    method Chld(signum: int, waitpid: map<int, Reap>) returns (exits: seq<Exit>)
      requires Valid() && signum == SIGCHLD && Answered(Queued(), pid, waitpid)
      modifies this, arena, arena.next, arena.prev
      ensures Valid()
      ensures pid == old(pid) && exitCb == old(exitCb) && watching == old(watching)
      ensures Queued() == Kept(old(Queued()), pid, waitpid)
      ensures active == old(active) - Members(Reaped(old(Queued()), pid, waitpid))
      ensures forall x :: x in Reaped(old(Queued()), pid, waitpid) ==> x in arena.lists && arena.lists[x] == []
      ensures status == Collected(old(Queued()), pid, waitpid, old(status))
      ensures var r := Reaped(old(Queued()), pid, waitpid);
              Reported(r, exitCb, status) && exits == Exits(r, exitCb, status)
      ensures pending in arena.lists && arena.lists[pending] == []
    {
      ghost var s, a0 := Queued(), active;
      RestingQueue();
      arena.Init(pending);
      SortAll(s, waitpid);
      ghost var r := Reaped(s, pid, waitpid);
      ReapedKnown(s, pid, waitpid, exitCb, old(status));
      exits := ReleaseAll(r, Kept(s, pid, waitpid), Members(s));
      Rested();
      assert Queued() != [] ==> s != [];
      Revalid(a0);
    }

    /** The first loop of uv__chld has looked at the processes `done` and has `rest` still to visit. */
    ghost predicate SortedUpTo(done: seq<int>, rest: seq<int>, o0: set<int>, pid: map<int, int>, waitpid: map<int, Reap>)
      reads arena, arena.next, arena.prev
    {
      QueueOk() && Answered(done, pid, waitpid) && Answered(rest, pid, waitpid) &&
      arena.owner.Keys == o0 && pending in arena.lists &&
      arena.lists[handles] == Kept(done, pid, waitpid) + rest &&
      arena.lists[pending] == Reaped(done, pid, waitpid)
    }

    /** The invariant of the first loop of uv__chld over `s`, with `q` the next element to visit. */
    ghost predicate Sorting(s: seq<int>, done: seq<int>, rest: seq<int>, q: int, o0: set<int>, pid: map<int, int>,
                            waitpid: map<int, Reap>, status: map<int, int>, status0: map<int, int>)
      reads arena, arena.next, arena.prev
    {
      SortedUpTo(done, rest, o0, pid, waitpid) && Cursor(rest, 0, q, handles) && done + rest == s &&
      status == Collected(done, pid, waitpid, status0)
    }

    /** The first loop of uv__chld: the exited processes of `s` move, in order, to `pending`. */
    method SortAll(ghost s: seq<int>, waitpid: map<int, Reap>)
      requires QueueOk() && Answered(s, pid, waitpid)
      requires arena.lists[handles] == s && pending in arena.lists && arena.lists[pending] == []
      modifies this`status, arena, arena.next, arena.prev
      ensures QueueOk() && pending in arena.lists && arena.owner.Keys == old(arena.owner.Keys)
      ensures arena.lists[handles] == Kept(s, pid, waitpid) && arena.lists[pending] == Reaped(s, pid, waitpid)
      ensures status == Collected(s, pid, waitpid, old(status))
    {
      ghost var o0 := arena.owner.Keys;
      var q := arena.Head(handles);
      if s != [] {
        assert s[0] in arena.owner;
      }
      ghost var done: seq<int>, rest := [], s;
      assert done + rest == s;
      var collected := status;
      while q != handles
        invariant Sorting(s, done, rest, q, o0, pid, waitpid, collected, old(status))
        decreases |rest|
      {
        q, collected := Sort(s, done, rest, q, o0, waitpid, old(status), collected);
        done, rest := done + [rest[0]], rest[1..];
      }
      assert done == s;
      status := collected;
    }

    /** One turn of the first loop: `q` is looked at, and moves to `pending` if its child has exited. */
    method Sort(ghost s: seq<int>, ghost done: seq<int>, ghost rest: seq<int>, q: int, ghost o0: set<int>,
                waitpid: map<int, Reap>, ghost status0: map<int, int>, collected: map<int, int>)
      returns (next: int, collected': map<int, int>)
      requires Sorting(s, done, rest, q, o0, pid, waitpid, collected, status0) && rest != []
      modifies arena, arena.next, arena.prev
      ensures Sorting(s, done + [rest[0]], rest[1..], next, o0, pid, waitpid, collected', status0)
    {
      SortStep(done, rest, pid, waitpid);
      CollectStep(done, q, pid, waitpid, status0);
      next := Successor(done, rest, q, o0, waitpid);
      collected' := collected;
      match waitpid[pid[q]]
      case Done(st) =>
        collected' := collected[q := st];
        Move(q);
      case Running =>
      case NoChild =>
    }

    /** The queue element after `q`: the next process to visit, or the sentinel after the last. */
    method Successor(ghost done: seq<int>, ghost rest: seq<int>, q: int, ghost o0: set<int>, waitpid: map<int, Reap>)
      returns (next: int)
      requires SortedUpTo(done, rest, o0, pid, waitpid) && Cursor(rest, 0, q, handles) && rest != []
      ensures Cursor(rest[1..], 0, next, handles)
      ensures q in arena.owner && arena.owner[q] == handles
      ensures IndexOf(arena.lists[handles], q) == |Kept(done, pid, waitpid)|
    {
      ghost var kept := Kept(done, pid, waitpid);
      ghost var l := arena.lists[handles];
      assert l[|kept|] == q;
      assert Linked(arena.next[..], arena.prev[..], handles, l);
      IndexOfDistinct(l, |kept|);
      next := arena.Next(q);
      if 1 < |rest| {
        assert l[|kept| + 1] == rest[1];
        assert rest[1] in arena.owner;
      }
    }

    /** QUEUE_REMOVE from `process_handles` and QUEUE_INSERT_TAIL onto `pending`. */
    method Move(q: int)
      requires QueueOk() && pending in arena.lists && q in arena.owner && arena.owner[q] == handles
      modifies arena, arena.next, arena.prev
      ensures QueueOk() && pending in arena.lists && arena.owner.Keys == old(arena.owner.Keys)
      ensures arena.lists[handles] == Without(old(arena.lists[handles]), IndexOf(old(arena.lists[handles]), q))
      ensures arena.lists[pending] == old(arena.lists[pending]) + [q]
    {
      arena.Remove(q);
      arena.InsertTail(pending, q);
    }

    /** The second loop of uv__chld over `r` has released `done`; `rest` is still on `pending`, `q` first. */
    ghost predicate Releasing(r: seq<int>, done: seq<int>, rest: seq<int>, q: int, kept: seq<int>, o0: set<int>)
      reads arena, arena.next, arena.prev
    {
      QueueOk() && pending in arena.lists && pending !in r && done + rest == r &&
      arena.lists[handles] == kept && arena.lists[pending] == rest &&
      arena.owner.Keys == o0 - Members(done) &&
      (forall x :: x in done ==> x in arena.lists && arena.lists[x] == []) &&
      Cursor(rest, 0, q, pending)
    }

    /** The second loop of uv__chld: every process of `r` is released, and the callbacks of those that have one run. */
    method ReleaseAll(ghost r: seq<int>, ghost kept: seq<int>, ghost o0: set<int>) returns (exits: seq<Exit>)
      requires QueueOk() && pending in arena.lists
      requires arena.lists[handles] == kept && arena.lists[pending] == r && arena.owner.Keys == o0 && active == o0
      requires Reported(r, exitCb, status)
      modifies this`active, arena, arena.next, arena.prev
      ensures QueueOk() && pending in arena.lists && arena.lists[pending] == [] && arena.lists[handles] == kept
      ensures arena.owner.Keys == o0 - Members(r) && active == arena.owner.Keys
      ensures forall x :: x in r ==> x in arena.lists && arena.lists[x] == []
      ensures exits == Exits(r, exitCb, status)
    {
      NotAmongElements(arena.lists, arena.owner, pending, pending);
      var q := arena.Head(pending);
      if r != [] {
        assert r[0] in arena.owner;
      }
      exits := [];
      ghost var done: seq<int>, rest := [], r;
      assert done + rest == r && Members(done) == {} && o0 - {} == o0;
      while q != pending
        invariant Releasing(r, done, rest, q, kept, o0) && active == arena.owner.Keys
        invariant Reported(done, exitCb, status) && Reported(rest, exitCb, status)
        invariant exits == Exits(done, exitCb, status)
        decreases |rest|
      {
        ExitStep(done, rest, exitCb, status);
        var process := q;
        q := Release(r, done, rest, process, kept, o0);
        if exitCb[process].Some? {
          exits := exits + [Exit(process, exitCb[process].value, ExitStatus(status[process]), TermSignal(status[process]))];
        }
        done, rest := done + [rest[0]], rest[1..];
      }
      assert done == r;
    }

    /** One turn of the second loop: `q` leaves `pending`, becomes a self-cycle and is stopped. */
    method Release(ghost r: seq<int>, ghost done: seq<int>, ghost rest: seq<int>, q: int, ghost kept: seq<int>,
                   ghost o0: set<int>) returns (next: int)
      requires Releasing(r, done, rest, q, kept, o0) && rest != [] && active == arena.owner.Keys
      modifies this`active, arena, arena.next, arena.prev
      ensures Releasing(r, done + [rest[0]], rest[1..], next, kept, o0) && active == arena.owner.Keys
    {
      assert rest[0] == q && q in arena.owner && arena.owner[q] == pending;
      next := arena.Next(q);
      if 1 < |rest| {
        assert rest[1] in arena.owner;
      }
      Detach(q);
      active := active - {q};
      ReleaseStep(done, rest);
    }

    /** QUEUE_REMOVE of the front of `pending`, then QUEUE_INIT: `q` becomes a self-cycle. */
    method Detach(q: int)
      requires QueueOk() && pending in arena.lists && arena.lists[pending] != [] && arena.lists[pending][0] == q
      modifies arena, arena.next, arena.prev
      ensures QueueOk() && pending in arena.lists
      ensures arena.lists == old(arena.lists)[pending := old(arena.lists[pending])[1..]][q := []]
      ensures arena.owner == old(arena.owner) - {q}
    {
      ghost var l := arena.lists[pending];
      assert q in arena.owner && arena.owner[q] == pending;
      arena.Remove(q);
      assert Without(l, 0) == l[1..];
      arena.Init(q);
    }
  }

  /** The loop cursor `q` of a walk over `s` that has passed `k` elements: the next one, or the sentinel `h`. */
  ghost predicate Cursor(s: seq<int>, k: nat, q: int, h: int)
  {
    (q == h <==> k == |s|) && (k < |s| ==> q == s[k])
  }

  /**
   * One step of the first loop on values: the split and the queue contents
   * advance by the next process `rest[0]`.
   */
  lemma SortStep(done: seq<int>, rest: seq<int>, pid: map<int, int>, waitpid: map<int, Reap>)
    requires Answered(done, pid, waitpid) && Answered(rest, pid, waitpid) && rest != []
    ensures Answered(done + [rest[0]], pid, waitpid) && Answered(rest[1..], pid, waitpid)
    ensures done + [rest[0]] + rest[1..] == done + rest
    ensures var x, kept := rest[0], Kept(done, pid, waitpid);
            if waitpid[pid[x]].Done? then
              Reaped(done + [x], pid, waitpid) == Reaped(done, pid, waitpid) + [x] &&
              Kept(done + [x], pid, waitpid) + rest[1..] == Without(kept + rest, |kept|)
            else
              Reaped(done + [x], pid, waitpid) == Reaped(done, pid, waitpid) &&
              Kept(done + [x], pid, waitpid) + rest[1..] == kept + rest
  {
    var x := rest[0];
    var t := done + [x];
    assert t[..|t| - 1] == done && t[|t| - 1] == x;
    assert Answered(t, pid, waitpid) by {
      forall i | 0 <= i < |t| ensures t[i] in pid && pid[t[i]] in waitpid {
        if i < |done| { assert t[i] == done[i]; }
      }
    }
    var kept := Kept(done, pid, waitpid);
    assert rest == [x] + rest[1..];
    if waitpid[pid[x]].Done? {
      assert Kept(t, pid, waitpid) == kept;
      DropAfter(kept, rest);
    } else {
      assert Kept(t, pid, waitpid) == kept + [x];
    }
  }

  /** One step of the first loop on the stored statuses: the status of `x` is stored if it was reaped. */
  lemma CollectStep(done: seq<int>, x: int, pid: map<int, int>, waitpid: map<int, Reap>, status: map<int, int>)
    requires Answered(done + [x], pid, waitpid)
    ensures Answered(done, pid, waitpid) && x in pid && pid[x] in waitpid
    ensures Collected(done + [x], pid, waitpid, status) ==
              if waitpid[pid[x]].Done? then Collected(done, pid, waitpid, status)[x := waitpid[pid[x]].status]
              else Collected(done, pid, waitpid, status)
  {
    var t := done + [x];
    assert t[..|done|] == done && t[|done|] == x;
  }

  /** One step of the second loop on values: the released prefix grows by the next process `rest[0]`. */
  lemma ReleaseStep(done: seq<int>, rest: seq<int>)
    requires rest != []
    ensures Members(done + [rest[0]]) == Members(done) + {rest[0]}
    ensures done + [rest[0]] + rest[1..] == done + rest
    ensures forall x :: x in done + [rest[0]] <==> x in done || x == rest[0]
  {
    assert rest == [rest[0]] + rest[1..];
  }

  /** One step of the second loop on the callbacks: the next process adds its call, if it has a callback. */
  lemma ExitStep(done: seq<int>, rest: seq<int>, exitCb: map<int, Option<Callback>>, status: map<int, int>)
    requires Reported(done, exitCb, status) && Reported(rest, exitCb, status) && rest != []
    ensures Reported(done + [rest[0]], exitCb, status) && Reported(rest[1..], exitCb, status)
    ensures var x := rest[0];
            Exits(done + [x], exitCb, status) ==
              Exits(done, exitCb, status) +
              (if exitCb[x].Some? then [Exit(x, exitCb[x].value, ExitStatus(status[x]), TermSignal(status[x]))] else [])
  {
    var t := done + [rest[0]];
    assert t[..|done|] == done && t[|done|] == rest[0];
    forall i | 0 <= i < |t| ensures t[i] in exitCb && t[i] in status {
      if i < |done| { assert t[i] == done[i]; }
    }
  }
}
