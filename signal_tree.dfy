/**
 * The process-wide signal registry of src/unix/signal.c: a red-black tree of
 * started signal handles ordered by `uv__signal_compare`.  Here the tree is
 * its in-order sequence, so insertion and removal are sorted-sequence
 * operations and `RB_NFIND`/`RB_NEXT` are a scan and an index step.
 */
module SignalTree {
  import opened Common

  /**
   * The fields `uv__signal_compare` reads: the signal number, the one-shot
   * flag, the loop pointer (0 is NULL) and the handle's own address.
   */
  datatype Key = Key(signum: int, oneShot: bool, loop: nat, id: nat)

  /** The one-shot bit as `flags & UV_SIGNAL_ONE_SHOT` orders it. */
  function Flag(b: bool): int
  {
    if b then 1 else 0
  }

  /** uv__signal_compare: signal number, then persistent before one-shot, then loop, then address. */
  function Compare(a: Key, b: Key): (c: int)
    ensures c == -1 || c == 0 || c == 1
    ensures c == 0 <==> a == b
  {
    if a.signum < b.signum then -1
    else if a.signum > b.signum then 1
    else if Flag(a.oneShot) < Flag(b.oneShot) then -1
    else if Flag(a.oneShot) > Flag(b.oneShot) then 1
    else if a.loop < b.loop then -1
    else if a.loop > b.loop then 1
    else if a.id < b.id then -1
    else if a.id > b.id then 1
    else 0
  }

  predicate Less(a: Key, b: Key)
  {
    Compare(a, b) == -1
  }

  /** Swapping the arguments negates the result. */
  lemma CompareAntisymmetric(a: Key, b: Key)
    ensures Compare(a, b) == -Compare(b, a)
  {
  }

  /** The order is transitive, so it is a strict total order together with the two lemmas above. */
  lemma CompareTransitive(a: Key, b: Key, c: Key)
    requires Less(a, b) && Less(b, c)
    ensures Less(a, c)
  {
  }

  /** The in-order sequence of the tree: strictly increasing. */
  ghost predicate Sorted(t: seq<Key>)
  {
    forall i, j :: 0 <= i < j < |t| ==> Less(t[i], t[j])
  }

  /** In the tree, signal numbers never decrease from left to right. */
  lemma SignumsAscend(t: seq<Key>, i: int, j: int)
    requires Sorted(t) && 0 <= i <= j < |t|
    ensures t[i].signum <= t[j].signum
  {
    if i < j {
      assert Less(t[i], t[j]);
    }
  }

  lemma SortedTail(t: seq<Key>)
    requires Sorted(t) && t != []
    ensures Sorted(t[1..])
  {
    var u := t[1..];
    forall i, j | 0 <= i < j < |u|
      ensures Less(u[i], u[j])
    {
      assert u[i] == t[i + 1] && u[j] == t[j + 1];
    }
  }

  /** RB_INSERT: `k` goes to its ordered place. */
  function Insert(t: seq<Key>, k: Key): (r: seq<Key>)
    requires Sorted(t) && k !in t
    ensures Sorted(r) && |r| == |t| + 1
    ensures forall x :: x in r <==> x in t || x == k
    decreases |t|
  {
    if t == [] then [k]
    else if Less(k, t[0]) then
      assert Sorted([k] + t) by {
        forall j | 0 <= j < |t|
          ensures Less(k, t[j])
        {
          if j > 0 {
            CompareTransitive(k, t[0], t[j]);
          }
        }
        forall i, j | 0 <= i < j < |[k] + t|
          ensures Less(([k] + t)[i], ([k] + t)[j])
        {
          if i > 0 {
            assert ([k] + t)[i] == t[i - 1] && ([k] + t)[j] == t[j - 1];
          }
        }
      }
      [k] + t
    else
      SortedTail(t);
      var rest := Insert(t[1..], k);
      assert Sorted([t[0]] + rest) by {
        assert Less(t[0], k) by {
          CompareAntisymmetric(k, t[0]);
        }
        forall j | 0 <= j < |rest|
          ensures Less(t[0], rest[j])
        {
          assert rest[j] in rest;
          if rest[j] != k {
            var m :| 0 <= m < |t[1..]| && t[1..][m] == rest[j];
            assert t[m + 1] == rest[j];
          }
        }
        forall i, j | 0 <= i < j < |[t[0]] + rest|
          ensures Less(([t[0]] + rest)[i], ([t[0]] + rest)[j])
        {
          if i > 0 {
            assert ([t[0]] + rest)[i] == rest[i - 1] && ([t[0]] + rest)[j] == rest[j - 1];
          }
        }
      }
      [t[0]] + rest
  }

  /** RB_REMOVE: `k` leaves, everything else keeps its order. */
  function Remove(t: seq<Key>, k: Key): (r: seq<Key>)
    requires Sorted(t)
    ensures Sorted(r)
    ensures forall x :: x in r <==> x in t && x != k
    ensures k in t ==> |r| == |t| - 1
    ensures k !in t ==> r == t
    decreases |t|
  {
    if t == [] then []
    else if t[0] == k then
      SortedTail(t);
      assert k !in t[1..] by {
        forall j | 0 <= j < |t[1..]|
          ensures t[1..][j] != k
        {
          assert Less(t[0], t[j + 1]);
        }
      }
      t[1..]
    else
      SortedTail(t);
      var rest := Remove(t[1..], k);
      assert Sorted([t[0]] + rest) by {
        forall j | 0 <= j < |rest|
          ensures Less(t[0], rest[j])
        {
          assert rest[j] in rest;
          var m :| 0 <= m < |t[1..]| && t[1..][m] == rest[j];
          assert t[m + 1] == rest[j];
        }
        forall i, j | 0 <= i < j < |[t[0]] + rest|
          ensures Less(([t[0]] + rest)[i], ([t[0]] + rest)[j])
        {
          if i > 0 {
            assert ([t[0]] + rest)[i] == rest[i - 1] && ([t[0]] + rest)[j] == rest[j - 1];
          }
        }
      }
      [t[0]] + rest
  }

  /** The key `uv__signal_first_handle` searches with: flags 0, loop NULL, any address. */
  function Lookup(signum: int): Key
  {
    Key(signum, false, 0, 0)
  }

  /** RB_NFIND as a position: the first entry not below `lookup`, or `|t|`. */
  function NFind(t: seq<Key>, lookup: Key): (i: nat)
    ensures i <= |t|
    ensures forall j :: 0 <= j < i ==> Less(t[j], lookup)
    ensures i < |t| ==> !Less(t[i], lookup)
    decreases |t|
  {
    if t == [] then 0
    else if !Less(t[0], lookup) then 0
    else 1 + NFind(t[1..], lookup)
  }

  /** Below the lookup key means exactly a smaller signal number. */
  lemma BelowLookup(k: Key, signum: int)
    ensures Less(k, Lookup(signum)) <==> k.signum < signum
  {
  }

  /** The position of uv__signal_first_handle's candidate: the first entry whose number is not below `signum`. */
  function FirstIndex(t: seq<Key>, signum: int): (i: nat)
    ensures i <= |t|
    ensures forall j :: 0 <= j < i ==> t[j].signum < signum
    ensures i < |t| ==> t[i].signum >= signum
  {
    var i := NFind(t, Lookup(signum));
    assert forall j :: 0 <= j < i ==> t[j].signum < signum by {
      forall j | 0 <= j < i
        ensures t[j].signum < signum
      {
        BelowLookup(t[j], signum);
      }
    }
    if i < |t| then BelowLookup(t[i], signum); i else i
  }

  /** uv__signal_first_handle: the candidate if it has the number, else NULL. */
  function FirstHandle(t: seq<Key>, signum: int): Option<Key>
  {
    var i := FirstIndex(t, signum);
    if i < |t| && t[i].signum == signum then Some(t[i]) else None
  }

  /** The entries registered for `signum`, in tree order. */
  function Matching(t: seq<Key>, signum: int): seq<Key>
    decreases |t|
  {
    if t == [] then []
    else (if t[0].signum == signum then [t[0]] else []) + Matching(t[1..], signum)
  }

  /**
   * uv__signal_first_handle finds the least entry with the number, and none
   * exactly when no entry has it; a one-shot first entry means every entry
   * with the number is one-shot, because persistent ones sort first.
   */
  lemma {:induction false} FirstHandleLeast(t: seq<Key>, signum: int)
    requires Sorted(t)
    ensures FirstHandle(t, signum).None? <==> forall x :: x in t ==> x.signum != signum
    ensures FirstHandle(t, signum).Some? ==>
              var f := FirstHandle(t, signum).value;
              f in t && f.signum == signum &&
              (forall x :: x in t && x.signum == signum && x != f ==> Less(f, x)) &&
              (f.oneShot ==> forall x :: x in t && x.signum == signum ==> x.oneShot)
  {
    var i := FirstIndex(t, signum);
    if i < |t| && t[i].signum == signum {
      var f := t[i];
      forall x | x in t && x.signum == signum && x != f
        ensures Less(f, x)
      {
        var j :| 0 <= j < |t| && t[j] == x;
        if j < i {
          assert false;
        } else {
          assert j != i;
        }
      }
    } else {
      forall x | x in t
        ensures x.signum != signum
      {
        var j :| 0 <= j < |t| && t[j] == x;
        if j >= i {
          SignumsAscend(t, i, j);
        }
      }
    }
  }

  /** An entry is matched exactly when it is registered with the number. */
  lemma {:induction false} MatchingMembers(t: seq<Key>, signum: int, x: Key)
    ensures x in Matching(t, signum) <==> x in t && x.signum == signum
    decreases |t|
  {
    if t != [] {
      MatchingMembers(t[1..], signum, x);
      assert x in t <==> x == t[0] || x in t[1..];
    }
  }

  /** The end of the run of entries with `signum` that starts at `i`. */
  function RunEnd(t: seq<Key>, i: nat, signum: int): (e: nat)
    requires i <= |t|
    ensures i <= e <= |t|
    ensures forall j :: i <= j < e ==> t[j].signum == signum
    ensures e < |t| ==> t[e].signum != signum
    decreases |t| - i
  {
    if i < |t| && t[i].signum == signum then RunEnd(t, i + 1, signum) else i
  }

  /** In the tree, the entries for `signum` are exactly the run that starts at the first handle. */
  lemma MatchingIsRun(t: seq<Key>, signum: int)
    requires Sorted(t)
    ensures Matching(t, signum) == t[FirstIndex(t, signum)..RunEnd(t, FirstIndex(t, signum), signum)]
  {
    var lo := FirstIndex(t, signum);
    var hi := RunEnd(t, lo, signum);
    RunTail(t, lo, hi, signum);
    MatchingSlices(t, lo, hi, signum);
  }

  /** With no match before `lo`, only matches up to `hi` and none after, the matches are `t[lo..hi]`. */
  lemma MatchingSlices(t: seq<Key>, lo: nat, hi: nat, signum: int)
    requires lo <= hi <= |t|
    requires forall j :: 0 <= j < lo ==> t[j].signum < signum
    requires forall j :: lo <= j < hi ==> t[j].signum == signum
    requires forall x :: x in t[hi..] ==> x.signum != signum
    ensures Matching(t, signum) == t[lo..hi]
  {
    var a, b, c := t[..lo], t[lo..hi], t[hi..];
    assert Matching(t, signum) == Matching(a + b, signum) + Matching(c, signum) by {
      assert t == (a + b) + c;
      MatchingConcat(a + b, c, signum);
    }
    assert Matching(a + b, signum) == b by {
      MatchingConcat(a, b, signum);
      MatchingNone(a, signum);
      MatchingAll(b, signum);
    }
    assert Matching(c, signum) == [] by {
      MatchingNone(c, signum);
    }
    assert b + [] == b;
  }

  /** Past the run, no entry has the number. */
  lemma RunTail(t: seq<Key>, lo: nat, hi: nat, signum: int)
    requires Sorted(t) && lo <= hi <= |t|
    requires lo < |t| ==> t[lo].signum >= signum
    requires forall j :: lo <= j < hi ==> t[j].signum == signum
    requires hi < |t| ==> t[hi].signum != signum
    ensures forall x :: x in t[hi..] ==> x.signum != signum
  {
    forall j | hi <= j < |t|
      ensures t[j].signum > signum
    {
      SignumsAscend(t, hi, j);
      if hi > lo {
        SignumsAscend(t, lo, hi);
      }
    }
  }

  lemma {:induction false} MatchingConcat(a: seq<Key>, b: seq<Key>, signum: int)
    ensures Matching(a + b, signum) == Matching(a, signum) + Matching(b, signum)
    decreases |a|
  {
    if a != [] {
      var h := if a[0].signum == signum then [a[0]] else [];
      assert (a + b)[0] == a[0] && (a + b)[1..] == a[1..] + b;
      MatchingConcat(a[1..], b, signum);
      assert Matching(a + b, signum) == h + (Matching(a[1..], signum) + Matching(b, signum));
      assert h + (Matching(a[1..], signum) + Matching(b, signum)) == (h + Matching(a[1..], signum)) + Matching(b, signum);
    } else {
      assert a + b == b;
    }
  }

  lemma {:induction false} MatchingNone(a: seq<Key>, signum: int)
    requires forall x :: x in a ==> x.signum != signum
    ensures Matching(a, signum) == []
    decreases |a|
  {
    if a != [] {
      assert a[0] in a;
      MatchingNone(a[1..], signum);
    }
  }

  lemma {:induction false} MatchingAll(a: seq<Key>, signum: int)
    requires forall i :: 0 <= i < |a| ==> a[i].signum == signum
    ensures Matching(a, signum) == a
    decreases |a|
  {
    if a != [] {
      MatchingAll(a[1..], signum);
    }
  }

  /** The first handle depends only on which entries carry the number. */
  lemma FirstHandleSame(a: seq<Key>, b: seq<Key>, signum: int)
    requires Sorted(a) && Sorted(b)
    requires forall x: Key :: x.signum == signum ==> (x in a <==> x in b)
    ensures FirstHandle(a, signum) == FirstHandle(b, signum)
  {
    FirstHandleLeast(a, signum);
    FirstHandleLeast(b, signum);
    if FirstHandle(a, signum).Some? && FirstHandle(b, signum).Some? {
      var fa, fb := FirstHandle(a, signum).value, FirstHandle(b, signum).value;
      if fa != fb {
        assert Less(fa, fb) && Less(fb, fa);
        CompareAntisymmetric(fa, fb);
      }
    }
  }

  /** After RB_INSERT the first handle for the new entry's number is the smaller of the new entry and the old first one. */
  lemma InsertFirst(t: seq<Key>, k: Key)
    requires Sorted(t) && k !in t
    ensures FirstHandle(Insert(t, k), k.signum) ==
              if FirstHandle(t, k.signum).None? || Less(k, FirstHandle(t, k.signum).value) then Some(k)
              else FirstHandle(t, k.signum)
  {
    var u := Insert(t, k);
    FirstHandleLeast(t, k.signum);
    FirstHandleLeast(u, k.signum);
    assert k in u;
    var g := FirstHandle(u, k.signum).value;
    if FirstHandle(t, k.signum).Some? {
      var f := FirstHandle(t, k.signum).value;
      assert f in u;
      if Less(k, f) {
        if g != k {
          assert Less(g, k) && (g == f || Less(f, g));
          CompareTransitive(g, k, f);
          CompareAntisymmetric(g, f);
        }
      } else {
        CompareAntisymmetric(k, f);
        if g != f {
          assert g == k || Less(f, g);
          CompareAntisymmetric(f, g);
        }
      }
    }
  }

  /** RB_REMOVE undoes RB_INSERT. */
  lemma {:induction false} RemoveInsert(t: seq<Key>, k: Key)
    requires Sorted(t) && k !in t
    ensures Remove(Insert(t, k), k) == t
    decreases |t|
  {
    var u := Insert(t, k);
    if t == [] {
      assert u == [k];
    } else if Less(k, t[0]) {
      assert u == [k] + t && u[1..] == t;
    } else {
      SortedTail(t);
      var rest := Insert(t[1..], k);
      assert u == [t[0]] + rest && u[0] != k && u[1..] == rest;
      RemoveInsert(t[1..], k);
      assert t == [t[0]] + t[1..];
    }
  }

  /** Before RB_REMOVE, the first handle for the removed entry's number was the smaller of it and the first one left. */
  lemma RemoveFirst(t: seq<Key>, k: Key)
    requires Sorted(t) && k in t
    ensures var f := FirstHandle(Remove(t, k), k.signum);
            FirstHandle(t, k.signum) == if f.None? || Less(k, f.value) then Some(k) else f
  {
    var u := Remove(t, k);
    FirstHandleSame(t, Insert(u, k), k.signum);
    InsertFirst(u, k);
  }
}
