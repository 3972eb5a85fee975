/**
 * The intrusive circular queue of src/queue.h.
 *
 * Every `QUEUE` link of the C code is a slot of an arena: slot `k` has a
 * successor `next[k]` and a predecessor `prev[k]`, both slot indices.  A queue
 * is named by its sentinel slot; its contents are the slots met when walking
 * `next` from the sentinel back to itself.  The recovery of the owning
 * structure from a link (`QUEUE_DATA`) becomes the identity: a handle is
 * named by the index of its link slot.
 *
 * The ghost map `lists` gives the contents of every sentinel, and `owner`
 * gives the sentinel of every queued element.  A slot that is in neither map
 * is detached: its links are stale and only `Init` or an insertion may use it.
 */
module Queue {

  /** The cycle h -> s[0] -> ... -> s[|s|-1] -> h is laid out in `nx` and `pv`. */
  ghost predicate Linked(nx: seq<int>, pv: seq<int>, h: int, s: seq<int>)
  {
    0 <= h < |nx| && |nx| == |pv| &&
    (forall i :: 0 <= i < |s| ==> 0 <= s[i] < |nx|) &&
    (s == [] ==> nx[h] == h && pv[h] == h) &&
    (s != [] ==> nx[h] == s[0] && pv[s[0]] == h && nx[s[|s| - 1]] == h && pv[h] == s[|s| - 1]) &&
    (forall i :: 0 <= i < |s| - 1 ==> nx[s[i]] == s[i + 1] && pv[s[i + 1]] == s[i])
  }

  /** No slot occurs twice in `s`. */
  ghost predicate Distinct(s: seq<int>)
  {
    forall i, j :: 0 <= i < j < |s| ==> s[i] != s[j]
  }

  /** Every sentinel's cycle is laid out, without repeated slots. */
  ghost predicate AllLinked(nx: seq<int>, pv: seq<int>, lists: map<int, seq<int>>)
  {
    forall h {:trigger Linked(nx, pv, h, lists[h])} :: h in lists ==> Linked(nx, pv, h, lists[h]) && Distinct(lists[h])
  }

  /** `owner` is the inverse of `lists`: each queued slot belongs to exactly one sentinel, and no sentinel is queued. */
  ghost predicate Owned(lists: map<int, seq<int>>, owner: map<int, int>)
  {
    (forall h :: h in lists ==> h !in owner) &&
    (forall h, i :: h in lists && 0 <= i < |lists[h]| ==> lists[h][i] in owner && owner[lists[h][i]] == h) &&
    (forall x :: x in owner ==> owner[x] in lists && x in lists[owner[x]])
  }

  /** The arena invariant on the values of the link arrays. */
  ghost predicate Inv(n: nat, nx: seq<int>, pv: seq<int>, lists: map<int, seq<int>>, owner: map<int, int>)
  {
    |nx| == n && |pv| == n &&
    (forall k :: 0 <= k < n ==> 0 <= nx[k] < n && 0 <= pv[k] < n) &&
    (forall h :: h in lists ==> 0 <= h < n) && (forall x :: x in owner ==> 0 <= x < n) &&
    AllLinked(nx, pv, lists) && Owned(lists, owner)
  }

  /** The position of `x` in `s`. */
  ghost function IndexOf(s: seq<int>, x: int): (i: nat)
    requires x in s
    ensures i < |s| && s[i] == x
    ensures forall j :: 0 <= j < i ==> s[j] != x
  {
    if s[0] == x then 0 else 1 + IndexOf(s[1..], x)
  }

  /** `s` with the element at position `i` taken out. */
  function Without(s: seq<int>, i: nat): seq<int>
    requires i < |s|
  {
    s[..i] + s[i + 1..]
  }

  /** Taking out the front element of a queue leaves the rest. */
  lemma PopFront(t: seq<int>)
    requires t != []
    ensures Without(t, IndexOf(t, t[0])) == t[1..]
  {
  }

  /** Every sentinel whose slots avoid `changed` keeps its cycle when only the links of `changed` are rewritten. */
  lemma OthersStayLinked(nx: seq<int>, pv: seq<int>, nx2: seq<int>, pv2: seq<int>,
                         lists: map<int, seq<int>>, lists2: map<int, seq<int>>, changed: set<int>)
    requires AllLinked(nx, pv, lists)
    requires |nx2| == |nx| && |pv2| == |pv| && |nx| == |pv|
    requires forall k :: 0 <= k < |nx| && k !in changed ==> nx2[k] == nx[k] && pv2[k] == pv[k]
    requires forall g :: g in lists2 ==> g in lists && lists2[g] == lists[g] && g !in changed
    requires forall g, i :: g in lists2 && 0 <= i < |lists2[g]| ==> lists2[g][i] !in changed
    ensures AllLinked(nx2, pv2, lists2)
  {
    forall g | g in lists2
      ensures Linked(nx2, pv2, g, lists2[g]) && Distinct(lists2[g])
    {
      assert Linked(nx, pv, g, lists[g]);
    }
  }

  /**
   * The cycles of the sentinels outside `hs` survive a rewrite of the links of `changed`, when every
   * changed slot is in `hs`, an element of a sentinel in `hs`, or a slot used by no queue.
   */
  lemma FrameOthers(nx: seq<int>, pv: seq<int>, nx2: seq<int>, pv2: seq<int>,
                    lists: map<int, seq<int>>, owner: map<int, int>, hs: set<int>, changed: set<int>)
    requires AllLinked(nx, pv, lists) && Owned(lists, owner)
    requires |nx2| == |nx| && |pv2| == |pv| && |nx| == |pv|
    requires forall k :: 0 <= k < |nx| && k !in changed ==> nx2[k] == nx[k] && pv2[k] == pv[k]
    requires forall c :: c in hs ==> c !in owner
    requires forall c :: c in changed ==> c in hs || (c in owner && owner[c] in hs) || (c !in owner && c !in lists)
    ensures AllLinked(nx2, pv2, lists - hs)
  {
    var others := lists - hs;
    forall g, k | g in others && 0 <= k < |others[g]| ensures others[g][k] !in changed {
      var x := others[g][k];
      assert others[g] == lists[g];
      assert x in owner && owner[x] == g && g !in hs && g !in owner;
      assert x !in hs;
    }
    OthersStayLinked(nx, pv, nx2, pv2, lists, others, changed);
  }

  /** A slot queued under another sentinel `g` is neither `h` nor one of `h`'s elements. */
  lemma ForeignSlots(lists: map<int, seq<int>>, owner: map<int, int>, h: int, g: int, i: int)
    requires Owned(lists, owner)
    requires h in lists && g in lists && g != h && 0 <= i < |lists[g]|
    ensures lists[g][i] != h && lists[g][i] in owner && owner[lists[g][i]] == g
    ensures lists[g][i] !in lists[h]
  {
    forall j | 0 <= j < |lists[h]| ensures lists[h][j] != lists[g][i] {
      assert owner[lists[h][j]] == h;
    }
  }

  /** Neither a sentinel nor a free slot occurs among the elements of a sentinel. */
  lemma NotAmongElements(lists: map<int, seq<int>>, owner: map<int, int>, h: int, q: int)
    requires Owned(lists, owner) && h in lists && q !in owner
    ensures h !in lists[h] && q !in lists[h]
  {
    forall j | 0 <= j < |lists[h]| ensures lists[h][j] in owner {
    }
  }

  /** Ownership after `q` is inserted under `h`, whose contents become `t` (those of `h` plus `q`). */
  lemma OwnedAfterInsert(lists: map<int, seq<int>>, owner: map<int, int>, h: int, q: int, t: seq<int>)
    requires Owned(lists, owner)
    requires h in lists && q != h && q !in owner && (q in lists ==> lists[q] == [])
    requires forall y :: y in t <==> y in lists[h] || y == q
    ensures Owned((lists - {q})[h := t], owner[q := h])
  {
    var lists2, owner2 := (lists - {q})[h := t], owner[q := h];
    forall g, i | g in lists2 && 0 <= i < |lists2[g]|
      ensures lists2[g][i] in owner2 && owner2[lists2[g][i]] == g
    {
      var y := lists2[g][i];
      if g == h && y != q {
        assert y in t;
        var j := IndexOf(lists[h], y);
        assert owner[lists[h][j]] == h;
      }
    }
    forall x | x in owner2 ensures owner2[x] in lists2 && x in lists2[owner2[x]] {
      if x != q {
        var g := owner[x];
        assert x in lists[g];
        assert lists[g] != [];
      }
    }
  }

  /** QUEUE_INSERT_TAIL lays out the cycle of `h` with `q` appended. */
  lemma TailLinked(nx: seq<int>, pv: seq<int>, h: int, s: seq<int>, q: int)
    requires Linked(nx, pv, h, s) && 0 <= q < |nx| && q != h && q !in s && h !in s
    ensures var l := pv[h]; Linked(nx[q := h][l := q], pv[q := l][h := q], h, s + [q])
  {
    var l := pv[h];
    var nx2, pv2 := nx[q := h][l := q], pv[q := l][h := q];
    forall i | 0 <= i < |s| - 1
      ensures nx2[s[i]] == s[i + 1] && pv2[s[i + 1]] == s[i]
    {
    }
  }

  /** QUEUE_INSERT_HEAD lays out the cycle of `h` with `q` prepended. */
  lemma HeadLinked(nx: seq<int>, pv: seq<int>, h: int, s: seq<int>, q: int)
    requires Linked(nx, pv, h, s) && 0 <= q < |nx| && q != h && q !in s && h !in s
    ensures var f := nx[h]; Linked(nx[q := f][h := q], pv[q := h][f := q], h, [q] + s)
  {
    var f := nx[h];
    var nx2, pv2 := nx[q := f][h := q], pv[q := h][f := q];
    var t := [q] + s;
    forall i | 0 <= i < |t| - 1
      ensures nx2[t[i]] == t[i + 1] && pv2[t[i + 1]] == t[i]
    {
      if i > 0 {
        assert t[i] == s[i - 1] && t[i + 1] == s[i];
      }
    }
  }

  /** Effect of QUEUE_INIT on the values of the arena. */
  lemma InitStep(n: nat, nx: seq<int>, pv: seq<int>, lists: map<int, seq<int>>, owner: map<int, int>, q: int)
    requires Inv(n, nx, pv, lists, owner)
    requires 0 <= q < n && q !in owner && (q in lists ==> lists[q] == [])
    ensures Inv(n, nx[q := q], pv[q := q], lists[q := []], owner)
  {
    var others := lists - {q};
    forall g, i | g in others && 0 <= i < |others[g]| ensures others[g][i] !in {q} {
      assert others[g][i] in owner;
    }
    OthersStayLinked(nx, pv, nx[q := q], pv[q := q], lists, others, {q});
    assert lists[q := []] == others[q := []];
    UpdateInRange(nx, pv, q, q, q, q);
    AssembleOne(n, nx[q := q], pv[q := q], others, q, [], lists[q := []], owner);
  }

  /** The cycles of the sentinels other than `h` and `q` are untouched by a write to the links of `q`, `h` and `e`. */
  lemma OthersAfterInsert(nx: seq<int>, pv: seq<int>, nx2: seq<int>, pv2: seq<int>,
                          lists: map<int, seq<int>>, owner: map<int, int>, h: int, q: int, e: int)
    requires AllLinked(nx, pv, lists) && Owned(lists, owner)
    requires h in lists && q !in owner && (e == h || e in lists[h])
    requires |nx2| == |nx| && |pv2| == |pv| && |nx| == |pv|
    requires forall k :: 0 <= k < |nx| && k !in {q, h, e} ==> nx2[k] == nx[k] && pv2[k] == pv[k]
    ensures AllLinked(nx2, pv2, lists - {q, h})
  {
    var others := lists - {q, h};
    forall g, i | g in others && 0 <= i < |others[g]| ensures others[g][i] !in {q, h, e} {
      ForeignSlots(lists, owner, h, g, i);
    }
    OthersStayLinked(nx, pv, nx2, pv2, lists, others, {q, h, e});
  }

  /** Effect of QUEUE_INSERT_TAIL on the values of the arena. */
  lemma InsertTailStep(n: nat, nx: seq<int>, pv: seq<int>, lists: map<int, seq<int>>, owner: map<int, int>,
                       h: int, q: int)
    requires Inv(n, nx, pv, lists, owner)
    requires h in lists && 0 <= q < n && q != h && q !in owner && (q in lists ==> lists[q] == [])
    ensures var l := pv[h];
            Inv(n, nx[q := h][l := q], pv[q := l][h := q],
                (lists - {q})[h := lists[h] + [q]], owner[q := h])
  {
    var s := lists[h];
    var l := pv[h];
    var nx2, pv2 := nx[q := h][l := q], pv[q := l][h := q];
    assert Linked(nx, pv, h, s);
    NotAmongElements(lists, owner, h, q);
    assert l == h || l in s;
    OthersAfterInsert(nx, pv, nx2, pv2, lists, owner, h, q, l);
    TailLinked(nx, pv, h, s, q);
    assert Distinct(s + [q]);
    OwnedAfterInsert(lists, owner, h, q, s + [q]);
    assert (lists - {q})[h := s + [q]] == (lists - {q, h})[h := s + [q]];
    UpdateInRange(nx, pv, q, h, q, l);
    UpdateInRange(nx[q := h], pv[q := l], l, q, h, q);
    AssembleOne(n, nx2, pv2, lists - {q, h}, h, s + [q], (lists - {q})[h := s + [q]], owner[q := h]);
  }

  /** Effect of QUEUE_INSERT_HEAD on the values of the arena. */
  lemma InsertHeadStep(n: nat, nx: seq<int>, pv: seq<int>, lists: map<int, seq<int>>, owner: map<int, int>,
                       h: int, q: int)
    requires Inv(n, nx, pv, lists, owner)
    requires h in lists && 0 <= q < n && q != h && q !in owner && (q in lists ==> lists[q] == [])
    ensures var f := nx[h];
            Inv(n, nx[q := f][h := q], pv[q := h][f := q],
                (lists - {q})[h := [q] + lists[h]], owner[q := h])
  {
    var s := lists[h];
    var f := nx[h];
    var nx2, pv2 := nx[q := f][h := q], pv[q := h][f := q];
    assert Linked(nx, pv, h, s);
    NotAmongElements(lists, owner, h, q);
    assert f == h || f in s;
    OthersAfterInsert(nx, pv, nx2, pv2, lists, owner, h, q, f);
    HeadLinked(nx, pv, h, s, q);
    assert Distinct([q] + s);
    OwnedAfterInsert(lists, owner, h, q, [q] + s);
    assert (lists - {q})[h := [q] + s] == (lists - {q, h})[h := [q] + s];
    UpdateInRange(nx, pv, q, f, q, h);
    UpdateInRange(nx[q := f], pv[q := h], h, q, f, q);
    AssembleOne(n, nx2, pv2, lists - {q, h}, h, [q] + s, (lists - {q})[h := [q] + s], owner[q := h]);
  }

  /** All links point inside the arena. */
  ghost predicate InRange(nx: seq<int>, pv: seq<int>)
  {
    |nx| == |pv| && forall k :: 0 <= k < |nx| ==> 0 <= nx[k] < |nx| && 0 <= pv[k] < |nx|
  }

  /** The slots of `s` and `t` are pairwise different. */
  ghost predicate Disjoint(s: seq<int>, t: seq<int>)
  {
    forall a, b :: 0 <= a < |s| && 0 <= b < |t| ==> s[a] != t[b]
  }

  /** In a sequence without repetitions, the position of the element at position `k` is `k`. */
  lemma IndexOfDistinct(s: seq<int>, k: nat)
    requires Distinct(s) && k < |s|
    ensures IndexOf(s, s[k]) == k
  {
  }

  /** The arena invariant, assembled from the rewritten sentinel `h` and the untouched others. */
  lemma AssembleOne(n: nat, nx: seq<int>, pv: seq<int>, others: map<int, seq<int>>, h: int, t: seq<int>,
                    lists2: map<int, seq<int>>, owner2: map<int, int>)
    requires |nx| == n && InRange(nx, pv)
    requires AllLinked(nx, pv, others) && Linked(nx, pv, h, t) && Distinct(t)
    requires lists2 == others[h := t] && Owned(lists2, owner2)
    ensures Inv(n, nx, pv, lists2, owner2)
  {
    forall g | g in lists2 ensures Linked(nx, pv, g, lists2[g]) && Distinct(lists2[g]) {
      if g != h { assert Linked(nx, pv, g, others[g]); }
    }
    forall g | g in lists2 ensures 0 <= g < n {
      if g in others { assert Linked(nx, pv, g, others[g]); }
    }
    forall x | x in owner2 ensures 0 <= x < n {
      var g := owner2[x];
      var k := IndexOf(lists2[g], x);
      if g in others { assert Linked(nx, pv, g, others[g]); }
    }
  }

  /** The arena invariant, assembled from two rewritten sentinels `h`, `m` and the untouched others. */
  lemma AssembleTwo(n: nat, nx: seq<int>, pv: seq<int>, others: map<int, seq<int>>, h: int, t: seq<int>,
                    m: int, u: seq<int>, lists2: map<int, seq<int>>, owner2: map<int, int>)
    requires |nx| == n && InRange(nx, pv)
    requires AllLinked(nx, pv, others) && Linked(nx, pv, h, t) && Distinct(t) && Linked(nx, pv, m, u) && Distinct(u)
    requires lists2 == others[h := t][m := u] && Owned(lists2, owner2)
    ensures Inv(n, nx, pv, lists2, owner2)
  {
    forall g | g in lists2 ensures Linked(nx, pv, g, lists2[g]) && Distinct(lists2[g]) {
      if g != h && g != m { assert Linked(nx, pv, g, others[g]); }
    }
    forall g | g in lists2 ensures 0 <= g < n {
      if g in others { assert Linked(nx, pv, g, others[g]); }
    }
    forall x | x in owner2 ensures 0 <= x < n {
      var g := owner2[x];
      var k := IndexOf(lists2[g], x);
      if g in others { assert Linked(nx, pv, g, others[g]); }
    }
  }

  /** Replacing the entry of `h` gives the same map as adding it to the map without it. */
  lemma UpdateOne(lists: map<int, seq<int>>, h: int, t: seq<int>)
    ensures lists[h := t] == (lists - {h})[h := t]
  {
  }

  /** Replacing the entries of `h` and `m` gives the same map as adding them to the map without them. */
  lemma UpdateTwo(lists: map<int, seq<int>>, h: int, t: seq<int>, m: int, u: seq<int>)
    ensures lists[h := t][m := u] == (lists - {h, m})[h := t][m := u]
  {
  }

  /** Dropping `m` and replacing `h` gives the same map as adding `h` to the map without both. */
  lemma DropAndUpdate(lists: map<int, seq<int>>, h: int, t: seq<int>, m: int)
    ensures (lists - {m})[h := t] == (lists - {h, m})[h := t]
  {
  }

  /** One write to each link sequence keeps every link inside the arena. */
  lemma UpdateInRange(nx: seq<int>, pv: seq<int>, i: int, v: int, j: int, w: int)
    requires InRange(nx, pv) && 0 <= i < |nx| && 0 <= v < |nx| && 0 <= j < |nx| && 0 <= w < |nx|
    ensures InRange(nx[i := v], pv[j := w])
  {
  }

  /** Positions of `Without(s, i)` in terms of positions of `s`. */
  lemma WithoutAt(s: seq<int>, i: nat, j: nat)
    requires i < |s| && j < |s| - 1
    ensures Without(s, i)[j] == if j < i then s[j] else s[j + 1]
  {
  }

  /** One link pair of the cycle left by QUEUE_REMOVE. */
  lemma RemovePair(nx: seq<int>, pv: seq<int>, h: int, s: seq<int>, i: nat, j: nat)
    requires InRange(nx, pv) && Linked(nx, pv, h, s) && Distinct(s) && h !in s && i < |s|
    requires j < |s| - 2
    ensures var p, n := pv[s[i]], nx[s[i]]; var t := Without(s, i);
            nx[p := n][t[j]] == t[j + 1] && pv[n := p][t[j + 1]] == t[j]
  {
    var p, n := pv[s[i]], nx[s[i]];
    var t := Without(s, i);
    WithoutAt(s, i, j);
    WithoutAt(s, i, j + 1);
    assert p == if i == 0 then h else s[i - 1];
    assert n == if i == |s| - 1 then h else s[i + 1];
    if j + 1 < i {
      assert t[j] == s[j] && t[j + 1] == s[j + 1];
      assert s[j] != p;
    } else if j + 1 > i {
      assert t[j] == s[j + 1] && t[j + 1] == s[j + 2];
      assert s[j + 1] != p && s[j + 2] != n;
    }
  }

  /** The sentinel's own links after QUEUE_REMOVE reach the new first and last elements. */
  lemma RemoveEnds(nx: seq<int>, pv: seq<int>, h: int, s: seq<int>, i: nat)
    requires InRange(nx, pv) && Linked(nx, pv, h, s) && Distinct(s) && h !in s && i < |s|
    ensures var p, n := pv[s[i]], nx[s[i]]; var t := Without(s, i);
            (t == [] ==> nx[p := n][h] == h && pv[n := p][h] == h) &&
            (t != [] ==> nx[p := n][h] == t[0] && pv[n := p][t[0]] == h &&
                         nx[p := n][t[|t| - 1]] == h && pv[n := p][h] == t[|t| - 1])
  {
    var q := s[i];
    var p, n := pv[q], nx[q];
    var t := Without(s, i);
    assert p == if i == 0 then h else s[i - 1];
    assert n == if i == |s| - 1 then h else s[i + 1];
    if t != [] {
      WithoutAt(s, i, 0);
      WithoutAt(s, i, |t| - 1);
      if i == 0 {
        assert t[0] == n;
      } else {
        assert t[0] == s[0] && s[0] != n;
      }
      if i == |s| - 1 {
        assert t[|t| - 1] == p;
      } else {
        assert t[|t| - 1] == s[|s| - 1] && s[|s| - 1] != p;
      }
    }
  }

  /** QUEUE_REMOVE lays out the cycle of `h` without the element at position `i`. */
  lemma RemoveLinked(nx: seq<int>, pv: seq<int>, h: int, s: seq<int>, i: nat)
    requires InRange(nx, pv) && Linked(nx, pv, h, s) && Distinct(s) && h !in s && i < |s|
    ensures var p, n := pv[s[i]], nx[s[i]];
            Linked(nx[p := n], pv[n := p], h, Without(s, i))
  {
    var q := s[i];
    var p, n := pv[q], nx[q];
    var nx2, pv2 := nx[p := n], pv[n := p];
    var t := Without(s, i);
    RemoveEnds(nx, pv, h, s, i);
    forall j | 0 <= j < |t| ensures 0 <= t[j] < |nx2| {
      WithoutAt(s, i, j);
    }
    forall j | 0 <= j < |t| - 1
      ensures nx2[t[j]] == t[j + 1] && pv2[t[j + 1]] == t[j]
    {
      RemovePair(nx, pv, h, s, i, j);
    }
  }

  /** Removing one element keeps a sequence free of repetitions. */
  lemma DistinctWithout(s: seq<int>, i: nat)
    requires Distinct(s) && i < |s|
    ensures Distinct(Without(s, i))
  {
    var t := Without(s, i);
    forall a, b | 0 <= a < b < |t| ensures t[a] != t[b] {
      WithoutAt(s, i, a);
      WithoutAt(s, i, b);
    }
  }

  /** Ownership after QUEUE_REMOVE takes the element at position `i` out of `h`. */
  lemma OwnedAfterRemove(lists: map<int, seq<int>>, owner: map<int, int>, h: int, i: nat)
    requires Owned(lists, owner) && h in lists && i < |lists[h]| && Distinct(lists[h])
    ensures var s := lists[h];
            Owned(lists[h := Without(s, i)], owner - {s[i]})
  {
    var s := lists[h];
    var q := s[i];
    var t := Without(s, i);
    var lists2, owner2 := lists[h := t], owner - {q};
    forall g, k | g in lists2 && 0 <= k < |lists2[g]|
      ensures lists2[g][k] in owner2 && owner2[lists2[g][k]] == g
    {
      if g == h {
        WithoutAt(s, i, k);
      } else {
        ForeignSlots(lists, owner, h, g, k);
      }
    }
    forall x | x in owner2 ensures owner2[x] in lists2 && x in lists2[owner2[x]] {
      if owner[x] == h {
        var j := IndexOf(s, x);
        if j < i { WithoutAt(s, i, j); } else { WithoutAt(s, i, j - 1); }
      }
    }
  }

  /** The sentinels other than `h` keep their cycles across QUEUE_REMOVE's two writes. */
  lemma RemoveFrame(nx: seq<int>, pv: seq<int>, lists: map<int, seq<int>>, owner: map<int, int>,
                    h: int, p: int, m: int)
    requires AllLinked(nx, pv, lists) && Owned(lists, owner) && InRange(nx, pv) && h in lists
    requires 0 <= p < |nx| && 0 <= m < |nx|
    requires (p == h || (p in owner && owner[p] == h)) && (m == h || (m in owner && owner[m] == h))
    ensures AllLinked(nx[p := m], pv[m := p], lists - {h})
  {
    FrameOthers(nx, pv, nx[p := m], pv[m := p], lists, owner, {h}, {p, m});
  }

  /** Effect of QUEUE_REMOVE on the values of the arena: `q` leaves its queue and is detached. */
  lemma RemoveStep(n: nat, nx: seq<int>, pv: seq<int>, lists: map<int, seq<int>>, owner: map<int, int>, q: int)
    requires Inv(n, nx, pv, lists, owner) && q in owner
    ensures var h := owner[q]; var p, m := pv[q], nx[q];
            Inv(n, nx[p := m], pv[m := p], lists[h := Without(lists[h], IndexOf(lists[h], q))], owner - {q})
    ensures pv[q] != q && nx[q] != q
  {
    var h := owner[q];
    var s := lists[h];
    var i := IndexOf(s, q);
    var p, m := pv[q], nx[q];
    var nx2, pv2 := nx[p := m], pv[m := p];
    var t := Without(s, i);
    var others: map<int, seq<int>> := lists - {h};
    assert InRange(nx, pv) && Linked(nx, pv, h, s) && Distinct(s) && h !in s by {
      NotAmongElements(lists, owner, h, h);
    }
    assert Linked(nx2, pv2, h, t) by {
      RemoveLinked(nx, pv, h, s, i);
    }
    assert p != q && m != q && 0 <= p < n && 0 <= m < n && (p == h || (p in owner && owner[p] == h))
        && (m == h || (m in owner && owner[m] == h)) by {
      assert p == if i == 0 then h else s[i - 1];
      assert m == if i == |s| - 1 then h else s[i + 1];
    }
    RemoveFrame(nx, pv, lists, owner, h, p, m);
    assert Distinct(t) by {
      DistinctWithout(s, i);
    }
    assert Owned(lists[h := t], owner - {q}) by {
      OwnedAfterRemove(lists, owner, h, i);
    }
    UpdateInRange(nx, pv, p, m, m, p);
    UpdateOne(lists, h, t);
    AssembleOne(n, nx2, pv2, others, h, t, lists[h := t], owner - {q});
  }

  /** One link pair of `s` away from the cut survives QUEUE_SPLIT at position `i`. */
  lemma SplitPair(nx: seq<int>, pv: seq<int>, h: int, s: seq<int>, i: nat, n: int, j: nat)
    requires InRange(nx, pv) && Linked(nx, pv, h, s) && Distinct(s) && h !in s && i < |s|
    requires 0 <= n < |nx| && n != h && n !in s
    requires j + 1 < |s| && j + 1 != i
    ensures var q, l, p := s[i], pv[h], pv[s[i]];
            nx[l := n][n := q][p := h][s[j]] == s[j + 1] && pv[n := l][h := p][q := n][s[j + 1]] == s[j]
  {
    var q, l, p := s[i], pv[h], pv[s[i]];
    assert p == if i == 0 then h else s[i - 1];
    assert l == s[|s| - 1];
    assert s[j] != l && s[j] != p && s[j + 1] != q;
  }

  /** QUEUE_SPLIT leaves `h` with the elements before position `i`. */
  lemma SplitFront(nx: seq<int>, pv: seq<int>, h: int, s: seq<int>, i: nat, n: int)
    requires InRange(nx, pv) && Linked(nx, pv, h, s) && Distinct(s) && h !in s && i < |s|
    requires 0 <= n < |nx| && n != h && n !in s
    ensures var q, l, p := s[i], pv[h], pv[s[i]];
            Linked(nx[l := n][n := q][p := h], pv[n := l][h := p][q := n], h, s[..i])
  {
    var q, l, p := s[i], pv[h], pv[s[i]];
    var nx2, pv2 := nx[l := n][n := q][p := h], pv[n := l][h := p][q := n];
    var a := s[..i];
    assert p == if i == 0 then h else s[i - 1];
    assert l == s[|s| - 1];
    forall j | 0 <= j < |a| ensures 0 <= a[j] < |nx| {
      assert a[j] == s[j];
    }
    forall j | 0 <= j < |a| - 1
      ensures nx2[a[j]] == a[j + 1] && pv2[a[j + 1]] == a[j]
    {
      assert a[j] == s[j] && a[j + 1] == s[j + 1];
      SplitPair(nx, pv, h, s, i, n, j);
    }
    if i > 0 {
      assert a[0] == s[0] && a[|a| - 1] == p;
      assert s[0] != q;
    }
  }

  /** The link pairs of `s` from position `i` on survive QUEUE_SPLIT at position `i`. */
  lemma SplitBackPairs(nx: seq<int>, pv: seq<int>, h: int, s: seq<int>, i: nat, n: int)
    requires InRange(nx, pv) && Linked(nx, pv, h, s) && Distinct(s) && h !in s && i < |s|
    requires 0 <= n < |nx| && n != h && n !in s
    ensures var q, l, p := s[i], pv[h], pv[s[i]];
            var nx2, pv2 := nx[l := n][n := q][p := h], pv[n := l][h := p][q := n];
            (forall k :: i <= k < |s| - 1 ==> nx2[s[k]] == s[k + 1] && pv2[s[k + 1]] == s[k]) &&
            nx2[n] == q && pv2[q] == n && nx2[l] == n && pv2[n] == l && l == s[|s| - 1]
  {
    var q, l, p := s[i], pv[h], pv[s[i]];
    assert p == if i == 0 then h else s[i - 1];
    assert l == s[|s| - 1];
    forall k | i <= k < |s| - 1
      ensures nx[l := n][n := q][p := h][s[k]] == s[k + 1] && pv[n := l][h := p][q := n][s[k + 1]] == s[k]
    {
      SplitPair(nx, pv, h, s, i, n, k);
    }
    assert l != p && n != p && q != h;
  }

  /** QUEUE_SPLIT makes `n` the sentinel of the elements from position `i` on. */
  lemma SplitBack(nx: seq<int>, pv: seq<int>, h: int, s: seq<int>, i: nat, n: int)
    requires InRange(nx, pv) && Linked(nx, pv, h, s) && Distinct(s) && h !in s && i < |s|
    requires 0 <= n < |nx| && n != h && n !in s
    ensures var q, l, p := s[i], pv[h], pv[s[i]];
            Linked(nx[l := n][n := q][p := h], pv[n := l][h := p][q := n], n, s[i..])
  {
    var q, l, p := s[i], pv[h], pv[s[i]];
    var nx2, pv2 := nx[l := n][n := q][p := h], pv[n := l][h := p][q := n];
    var b := s[i..];
    SplitBackPairs(nx, pv, h, s, i, n);
    forall j | 0 <= j < |b| ensures 0 <= b[j] < |nx| {
      assert b[j] == s[i + j];
    }
    forall j | 0 <= j < |b| - 1
      ensures nx2[b[j]] == b[j + 1] && pv2[b[j + 1]] == b[j]
    {
      assert b[j] == s[i + j] && b[j + 1] == s[i + j + 1];
    }
    assert b[0] == q && b[|b| - 1] == l;
  }

  /** QUEUE_SPLIT lays out `h` with the elements before position `i`, and `n` with the rest. */
  lemma SplitLinked(nx: seq<int>, pv: seq<int>, h: int, s: seq<int>, i: nat, n: int)
    requires InRange(nx, pv) && Linked(nx, pv, h, s) && Distinct(s) && h !in s && i < |s|
    requires 0 <= n < |nx| && n != h && n !in s
    ensures var q, l, p := s[i], pv[h], pv[s[i]];
            var nx2, pv2 := nx[l := n][n := q][p := h], pv[n := l][h := p][q := n];
            Linked(nx2, pv2, h, s[..i]) && Linked(nx2, pv2, n, s[i..])
  {
    SplitFront(nx, pv, h, s, i, n);
    SplitBack(nx, pv, h, s, i, n);
  }

  /** Both halves of a sequence without repetitions have none. */
  lemma DistinctSlices(s: seq<int>, i: nat)
    requires Distinct(s) && i <= |s|
    ensures Distinct(s[..i]) && Distinct(s[i..])
  {
    var b := s[i..];
    forall j, k | 0 <= j < k < |b| ensures b[j] != b[k] {
      assert b[j] == s[i + j] && b[k] == s[i + k];
    }
  }

  /** The owner map after QUEUE_SPLIT at position `i` of `h` into `n`. */
  ghost function SplitOwner(lists: map<int, seq<int>>, owner: map<int, int>, h: int, i: nat, n: int): map<int, int>
    requires h in lists
    requires forall x :: x in owner && owner[x] == h ==> x in lists[h]
  {
    map x | x in owner :: if owner[x] == h && IndexOf(lists[h], x) >= i then n else owner[x]
  }

  /** `owner` with every element of sentinel `from` handed to sentinel `to`. */
  ghost function Reassign(owner: map<int, int>, from: int, to: int): (r: map<int, int>)
    ensures r.Keys == owner.Keys
    ensures forall x :: x in r ==> r[x] == if owner[x] == from then to else owner[x]
  {
    map x | x in owner :: if owner[x] == from then to else owner[x]
  }

  /** Splitting at the first position hands every element to the new sentinel. */
  lemma SplitAtHead(lists: map<int, seq<int>>, owner: map<int, int>, h: int, n: int)
    requires Owned(lists, owner) && h in lists
    ensures SplitOwner(lists, owner, h, 0, n) == Reassign(owner, h, n)
  {
  }

  /** An empty sentinel owns nothing, so handing its elements over changes nothing. */
  lemma ReassignEmpty(lists: map<int, seq<int>>, owner: map<int, int>, h: int, n: int)
    requires Owned(lists, owner) && h in lists && lists[h] == []
    ensures Reassign(owner, h, n) == owner
  {
    forall x | x in owner ensures owner[x] != h {
      assert x in lists[owner[x]];
    }
  }

  /** After QUEUE_SPLIT every element listed under a sentinel is owned by it. */
  lemma SplitElementsOwned(lists: map<int, seq<int>>, owner: map<int, int>, h: int, i: nat, n: int)
    requires Owned(lists, owner) && h in lists && i < |lists[h]| && Distinct(lists[h])
    requires n != h && n !in owner && (n in lists ==> lists[n] == [])
    ensures var s := lists[h]; var lists2 := lists[h := s[..i]][n := s[i..]];
            var owner2 := SplitOwner(lists, owner, h, i, n);
            forall g, k :: g in lists2 && 0 <= k < |lists2[g]| ==> lists2[g][k] in owner2 && owner2[lists2[g][k]] == g
  {
    var s := lists[h];
    var a, b := s[..i], s[i..];
    var lists2 := lists[h := a][n := b];
    var owner2 := SplitOwner(lists, owner, h, i, n);
    forall g, k | g in lists2 && 0 <= k < |lists2[g]|
      ensures lists2[g][k] in owner2 && owner2[lists2[g][k]] == g
    {
      if g == h {
        assert a[k] == s[k];
        IndexOfDistinct(s, k);
      } else if g == n {
        assert b[k] == s[i + k];
        IndexOfDistinct(s, i + k);
      } else {
        ForeignSlots(lists, owner, h, g, k);
      }
    }
  }

  /** After QUEUE_SPLIT every owned slot is listed under its owner. */
  lemma SplitOwnersList(lists: map<int, seq<int>>, owner: map<int, int>, h: int, i: nat, n: int)
    requires Owned(lists, owner) && h in lists && i < |lists[h]|
    requires n != h && n !in owner && (n in lists ==> lists[n] == [])
    ensures var s := lists[h]; var lists2 := lists[h := s[..i]][n := s[i..]];
            var owner2 := SplitOwner(lists, owner, h, i, n);
            forall x :: x in owner2 ==> owner2[x] in lists2 && x in lists2[owner2[x]]
  {
    var s := lists[h];
    var a, b := s[..i], s[i..];
    var lists2 := lists[h := a][n := b];
    var owner2 := SplitOwner(lists, owner, h, i, n);
    forall x | x in owner2 ensures owner2[x] in lists2 && x in lists2[owner2[x]] {
      var g := owner[x];
      if g == h {
        var j := IndexOf(s, x);
        if j < i { assert a[j] == x; } else { assert b[j - i] == x; }
      } else {
        assert x in lists[g];
        assert lists[g] != [];
      }
    }
  }

  /** Ownership after QUEUE_SPLIT: the elements from position `i` on belong to `n`. */
  lemma OwnedAfterSplit(lists: map<int, seq<int>>, owner: map<int, int>, h: int, i: nat, n: int)
    requires Owned(lists, owner) && h in lists && i < |lists[h]| && Distinct(lists[h])
    requires n != h && n !in owner && (n in lists ==> lists[n] == [])
    ensures var s := lists[h];
            Owned(lists[h := s[..i]][n := s[i..]], SplitOwner(lists, owner, h, i, n))
  {
    SplitElementsOwned(lists, owner, h, i, n);
    SplitOwnersList(lists, owner, h, i, n);
  }

  /** The sentinels other than `h` and `n` keep their cycles across QUEUE_SPLIT's six writes. */
  lemma SplitFrame(nx: seq<int>, pv: seq<int>, lists: map<int, seq<int>>, owner: map<int, int>,
                   h: int, q: int, n: int, l: int, p: int)
    requires AllLinked(nx, pv, lists) && Owned(lists, owner) && InRange(nx, pv)
    requires h in lists && n !in owner && (n in lists ==> lists[n] == [])
    requires 0 <= h < |nx| && 0 <= n < |nx| && 0 <= l < |nx| && 0 <= p < |nx| && 0 <= q < |nx|
    requires l in owner && owner[l] == h && q in owner && owner[q] == h
    requires p == h || (p in owner && owner[p] == h)
    ensures AllLinked(nx[l := n][n := q][p := h], pv[n := l][h := p][q := n], lists - {h, n})
  {
    FrameOthers(nx, pv, nx[l := n][n := q][p := h], pv[n := l][h := p][q := n], lists, owner, {h, n}, {l, n, p, h, q});
  }

  /** Effect of QUEUE_SPLIT on the values of the arena. */
  lemma SplitStep(sz: nat, nx: seq<int>, pv: seq<int>, lists: map<int, seq<int>>, owner: map<int, int>,
                  h: int, q: int, n: int)
    requires Inv(sz, nx, pv, lists, owner)
    requires h in lists && q in owner && owner[q] == h
    requires 0 <= n < sz && n != h && n !in owner && (n in lists ==> lists[n] == [])
    ensures var s := lists[h]; var i := IndexOf(s, q); var l, p := pv[h], pv[q];
            Inv(sz, nx[l := n][n := q][p := h], pv[n := l][h := p][q := n],
                lists[h := s[..i]][n := s[i..]], SplitOwner(lists, owner, h, i, n))
  {
    var s := lists[h];
    var i := IndexOf(s, q);
    var l, p := pv[h], pv[q];
    var nx2, pv2 := nx[l := n][n := q][p := h], pv[n := l][h := p][q := n];
    var a, b := s[..i], s[i..];
    var others: map<int, seq<int>> := lists - {h, n};
    var lists2, owner2 := lists[h := a][n := b], SplitOwner(lists, owner, h, i, n);
    assert InRange(nx, pv) && Linked(nx, pv, h, s) && Distinct(s) && h !in s && n !in s by {
      NotAmongElements(lists, owner, h, n);
    }
    assert Linked(nx2, pv2, h, a) && Linked(nx2, pv2, n, b) by {
      SplitLinked(nx, pv, h, s, i, n);
    }
    assert 0 <= l < sz && 0 <= p < sz && 0 <= q < sz && 0 <= h < sz && owner[l] == h && (p == h || owner[p] == h) by {
      assert p == if i == 0 then h else s[i - 1];
      assert l == s[|s| - 1];
    }
    SplitFrame(nx, pv, lists, owner, h, q, n, l, p);
    assert Distinct(a) && Distinct(b) by {
      DistinctSlices(s, i);
    }
    assert Owned(lists2, owner2) by {
      OwnedAfterSplit(lists, owner, h, i, n);
    }
    UpdateInRange(nx, pv, l, n, n, l);
    UpdateInRange(nx[l := n], pv[n := l], n, q, h, p);
    UpdateInRange(nx[l := n][n := q], pv[n := l][h := p], p, h, q, n);
    UpdateTwo(lists, h, a, n, b);
    AssembleTwo(sz, nx2, pv2, others, h, a, n, b, lists2, owner2);
  }

  /** QUEUE_ADD with an empty `n` leaves the cycle of `h` as it was. */
  lemma AddEmptyLinked(nx: seq<int>, pv: seq<int>, h: int, s: seq<int>, n: int)
    requires InRange(nx, pv) && Linked(nx, pv, h, s) && Linked(nx, pv, n, [])
    requires h != n && n !in s
    ensures var l := pv[h];
            Linked(nx[l := n][l := h], pv[n := l][h := l], h, s)
  {
    var l := pv[h];
    assert l == if s == [] then h else s[|s| - 1];
    assert nx[l := n][l := h] == nx;
  }

  /** QUEUE_ADD with a non-empty `n` keeps the link pairs inside `h`'s own elements. */
  lemma AddPairLeft(nx: seq<int>, pv: seq<int>, h: int, s: seq<int>, n: int, t: seq<int>, j: nat)
    requires InRange(nx, pv) && Linked(nx, pv, h, s) && Linked(nx, pv, n, t) && t != []
    requires Distinct(s) && Disjoint(s, t) && h !in s && h !in t
    requires j + 1 < |s|
    ensures var l, f, p := pv[h], t[0], t[|t| - 1];
            nx[l := f][p := h][s[j]] == s[j + 1] && pv[f := l][h := p][s[j + 1]] == s[j]
  {
    var l, f, p := pv[h], t[0], t[|t| - 1];
    assert l == s[|s| - 1];
    assert s[j] != l && s[j] != p && s[j + 1] != f;
  }

  /** QUEUE_ADD with a non-empty `n` keeps the link pairs inside `n`'s elements. */
  lemma AddPairRight(nx: seq<int>, pv: seq<int>, h: int, s: seq<int>, n: int, t: seq<int>, k: nat)
    requires InRange(nx, pv) && Linked(nx, pv, h, s) && Linked(nx, pv, n, t)
    requires Distinct(t) && Disjoint(s, t) && h !in t
    requires k + 1 < |t|
    ensures var l, f, p := pv[h], t[0], t[|t| - 1];
            nx[l := f][p := h][t[k]] == t[k + 1] && pv[f := l][h := p][t[k + 1]] == t[k]
  {
    var l, f, p := pv[h], t[0], t[|t| - 1];
    assert l == if s == [] then h else s[|s| - 1];
    assert t[k] != l && t[k] != p && t[k + 1] != f;
  }

  /** QUEUE_ADD with a non-empty `n` lays out the cycle of `h` followed by the elements of `n`. */
  lemma AddNonEmptyLinked(nx: seq<int>, pv: seq<int>, h: int, s: seq<int>, n: int, t: seq<int>)
    requires InRange(nx, pv) && Linked(nx, pv, h, s) && Linked(nx, pv, n, t) && t != []
    requires Distinct(s) && Distinct(t) && Disjoint(s, t)
    requires h != n && h !in s && n !in s && h !in t && n !in t
    ensures var l, f, p := pv[h], t[0], t[|t| - 1];
            Linked(nx[l := f][p := h], pv[f := l][h := p], h, s + t)
  {
    var l, f, p := pv[h], t[0], t[|t| - 1];
    var nx2, pv2 := nx[l := f][p := h], pv[f := l][h := p];
    var u := s + t;
    assert l == if s == [] then h else s[|s| - 1];
    forall j | 0 <= j < |u| - 1
      ensures nx2[u[j]] == u[j + 1] && pv2[u[j + 1]] == u[j]
    {
      if j + 1 < |s| {
        assert u[j] == s[j] && u[j + 1] == s[j + 1];
        AddPairLeft(nx, pv, h, s, n, t, j);
      } else if j + 1 == |s| {
        assert u[j] == l && u[j + 1] == f;
        assert l != p;
      } else {
        assert u[j] == t[j - |s|] && u[j + 1] == t[j + 1 - |s|];
        AddPairRight(nx, pv, h, s, n, t, j - |s|);
      }
    }
    assert u[|u| - 1] == p;
    if s == [] { assert u[0] == f; } else { assert u[0] == s[0]; assert s[0] != f; }
  }

  /** Concatenating disjoint sequences without repetitions gives one without repetitions. */
  lemma DistinctConcat(s: seq<int>, t: seq<int>)
    requires Distinct(s) && Distinct(t) && Disjoint(s, t)
    ensures Distinct(s + t)
  {
    var u := s + t;
    forall a, b | 0 <= a < b < |u| ensures u[a] != u[b] {
      if a >= |s| {
        assert u[a] == t[a - |s|] && u[b] == t[b - |s|];
      } else if b >= |s| {
        assert u[a] == s[a] && u[b] == t[b - |s|];
      }
    }
  }

  /** Ownership after QUEUE_ADD: `n`'s elements now belong to `h`, and `n` is no longer a sentinel. */
  lemma OwnedAfterAdd(lists: map<int, seq<int>>, owner: map<int, int>, h: int, n: int)
    requires Owned(lists, owner) && h in lists && n in lists && h != n
    ensures Owned((lists - {n})[h := lists[h] + lists[n]],
                  Reassign(owner, n, h))
  {
    var s, t := lists[h], lists[n];
    var u := s + t;
    var lists2 := (lists - {n})[h := u];
    var owner2 := Reassign(owner, n, h);
    forall g, k | g in lists2 && 0 <= k < |lists2[g]|
      ensures lists2[g][k] in owner2 && owner2[lists2[g][k]] == g
    {
      if g == h {
        if k < |s| { assert u[k] == s[k]; } else { assert u[k] == t[k - |s|]; }
      } else {
        ForeignSlots(lists, owner, n, g, k);
      }
    }
    forall x | x in owner2 ensures owner2[x] in lists2 && x in lists2[owner2[x]] {
      var g := owner[x];
      if g == h || g == n {
        var j := IndexOf(lists[g], x);
        if g == h { assert u[j] == x; } else { assert u[|s| + j] == x; }
      } else {
        assert x in lists[g];
      }
    }
  }

  /** The sentinels other than `h` and `n` keep their cycles across QUEUE_ADD's four writes. */
  lemma AddFrame(nx: seq<int>, pv: seq<int>, lists: map<int, seq<int>>, owner: map<int, int>,
                 h: int, n: int, l: int, f: int, p: int)
    requires AllLinked(nx, pv, lists) && Owned(lists, owner) && InRange(nx, pv)
    requires h in lists && n in lists
    requires 0 <= h < |nx| && 0 <= l < |nx| && 0 <= f < |nx| && 0 <= p < |nx|
    requires (l == h || (l in owner && owner[l] == h)) && (f == n || (f in owner && owner[f] == n))
    requires p == l || (p in owner && owner[p] == n)
    ensures AllLinked(nx[l := f][p := h], pv[f := l][h := p], lists - {h, n})
  {
    FrameOthers(nx, pv, nx[l := f][p := h], pv[f := l][h := p], lists, owner, {h, n}, {l, f, p, h, n});
  }

  /** Effect of QUEUE_ADD on the values of the arena: `n`'s elements join `h` and `n` is left detached. */
  lemma AddStep(sz: nat, nx: seq<int>, pv: seq<int>, lists: map<int, seq<int>>, owner: map<int, int>,
                h: int, n: int)
    requires Inv(sz, nx, pv, lists, owner)
    requires h in lists && n in lists && h != n
    ensures var l, f := pv[h], nx[n];
            var p := if f == n then l else pv[n];
            Inv(sz, nx[l := f][p := h], pv[f := l][h := p],
                (lists - {n})[h := lists[h] + lists[n]],
                Reassign(owner, n, h))
    ensures pv[h] != n
  {
    var s, t := lists[h], lists[n];
    var l, f := pv[h], nx[n];
    var p := if f == n then l else pv[n];
    var nx2, pv2 := nx[l := f][p := h], pv[f := l][h := p];
    var others: map<int, seq<int>> := lists - {h, n};
    var lists2 := (lists - {n})[h := s + t];
    var owner2 := Reassign(owner, n, h);
    assert InRange(nx, pv) && Linked(nx, pv, h, s) && Linked(nx, pv, n, t) && Distinct(s) && Distinct(t)
        && h !in s && n !in s && h !in t && n !in t by {
      NotAmongElements(lists, owner, h, n);
      NotAmongElements(lists, owner, n, h);
    }
    assert Disjoint(s, t) by {
      forall a, b | 0 <= a < |s| && 0 <= b < |t| ensures s[a] != t[b] {
        assert owner[s[a]] == h && owner[t[b]] == n;
      }
    }
    assert Linked(nx2, pv2, h, s + t) by {
      if t == [] {
        AddEmptyLinked(nx, pv, h, s, n);
        assert s + t == s;
      } else {
        AddNonEmptyLinked(nx, pv, h, s, n, t);
      }
    }
    assert 0 <= l < sz && 0 <= f < sz && 0 <= p < sz && (l == h || owner[l] == h)
        && (f == n || owner[f] == n) && (p == l || owner[p] == n) by {
      assert l == if s == [] then h else s[|s| - 1];
      assert f == if t == [] then n else t[0];
      assert p == if t == [] then l else t[|t| - 1];
    }
    AddFrame(nx, pv, lists, owner, h, n, l, f, p);
    assert Distinct(s + t) by {
      DistinctConcat(s, t);
    }
    assert Owned(lists2, owner2) by {
      OwnedAfterAdd(lists, owner, h, n);
    }
    UpdateInRange(nx, pv, l, f, f, l);
    UpdateInRange(nx[l := f], pv[f := l], p, h, h, p);
    DropAndUpdate(lists, h, s + t, n);
    AssembleOne(sz, nx2, pv2, others, h, s + t, lists2, owner2);
  }

  /** When every list but `h` is the empty `e`, every element belongs to `h`. */
  lemma SoleOwner(lists: map<int, seq<int>>, owner: map<int, int>, h: int, e: int)
    requires Owned(lists, owner) && lists.Keys == {h, e} && lists[e] == []
    ensures forall x :: x in owner ==> owner[x] == h
  {
  }

  /** When everything belongs to `h`, the elements are exactly `h`'s distinct contents. */
  lemma SoleList(n: nat, nx: seq<int>, pv: seq<int>, lists: map<int, seq<int>>, owner: map<int, int>, h: int)
    requires Inv(n, nx, pv, lists, owner) && h in lists
    requires forall x :: x in owner ==> owner[x] == h
    ensures Distinct(lists[h])
    ensures forall x :: x in owner <==> x in lists[h]
  {
    assert Linked(nx, pv, h, lists[h]);
  }

  class Arena {
    /** Number of link slots. */
    const N: nat
    /** `QUEUE_NEXT` of every slot. */
    const next: array<int>
    /** `QUEUE_PREV` of every slot. */
    const prev: array<int>

    /** Contents of every sentinel, in `next` order. */
    ghost var lists: map<int, seq<int>>
    /** The sentinel of the queue holding each queued slot. */
    ghost var owner: map<int, int>

    ghost predicate Valid()
      reads this, next, prev
    {
      next.Length == N && prev.Length == N && next != prev &&
      Inv(N, next[..], prev[..], lists, owner)
    }

    /** Slot `q` may become a sentinel or be inserted: it is not queued, and if it is a sentinel its queue is empty. */
    ghost predicate Free(q: int)
      reads this
    {
      0 <= q < N && q !in owner && (q in lists ==> lists[q] == [])
    }

    constructor (n: nat)
      ensures Valid() && N == n && lists == map[] && owner == map[]
      ensures fresh(next) && fresh(prev)
    {
      N := n;
      next := new int[n](k => k);
      prev := new int[n](k => k);
      lists := map[];
      owner := map[];
    }

    /** QUEUE_INIT: `q` becomes an empty queue, a self-cycle. */
    method Init(q: int)
      requires Valid() && Free(q)
      modifies this, next, prev
      ensures Valid()
      ensures lists == old(lists)[q := []] && owner == old(owner)
    {
      InitStep(N, next[..], prev[..], lists, owner, q);
      next[q] := q;
      prev[q] := q;
      lists := lists[q := []];
    }

    /** QUEUE_EMPTY. */
    method IsEmpty(q: int) returns (b: bool)
      requires Valid() && q in lists
      ensures b <==> lists[q] == []
    {
      assert Linked(next[..], prev[..], q, lists[q]);
      b := next[q] == q;
      if lists[q] != [] {
        assert lists[q][0] in owner;
      }
    }

    /** QUEUE_HEAD: the first element, or the sentinel itself when the queue is empty. */
    method Head(h: int) returns (q: int)
      requires Valid() && h in lists
      ensures lists[h] != [] ==> q == lists[h][0]
      ensures lists[h] == [] ==> q == h
    {
      assert Linked(next[..], prev[..], h, lists[h]);
      q := next[h];
    }

    /** QUEUE_NEXT of a queued element: its successor, or its sentinel after the last one. */
    method Next(x: int) returns (y: int)
      requires Valid() && x in owner
      ensures var s := lists[owner[x]]; var i := IndexOf(s, x);
              y == if i + 1 < |s| then s[i + 1] else owner[x]
    {
      ghost var s := lists[owner[x]];
      ghost var i := IndexOf(s, x);
      assert Linked(next[..], prev[..], owner[x], s);
      y := next[x];
    }

    /** QUEUE_FOREACH: walking `next` from the sentinel visits its contents once each, in order. */
    method ForEach(h: int) returns (visited: seq<int>)
      requires Valid() && h in lists
      ensures visited == lists[h]
    {
      ghost var s := lists[h];
      assert Linked(next[..], prev[..], h, s);
      assert forall i :: 0 <= i < |s| ==> s[i] in owner;
      assert h !in s;
      visited := [];
      var q := next[h];
      while q != h
        invariant |visited| <= |s|
        invariant visited == s[..|visited|]
        invariant q == if |visited| < |s| then s[|visited|] else h
        decreases |s| - |visited|
      {
        visited := visited + [q];
        q := next[q];
      }
    }

    /** QUEUE_INSERT_HEAD: `q` becomes the first element of `h`. */
    method InsertHead(h: int, q: int)
      requires Valid() && h in lists && Free(q) && q != h
      modifies this, next, prev
      ensures Valid()
      ensures lists == (old(lists) - {q})[h := [q] + old(lists[h])]
      ensures owner == old(owner)[q := h]
    {
      InsertHeadStep(N, next[..], prev[..], lists, owner, h, q);
      ghost var nx, pv, f := next[..], prev[..], next[h];
      next[q] := next[h];
      prev[q] := h;
      prev[next[q]] := q;
      next[h] := q;
      assert next[..] == nx[q := f][h := q];
      assert prev[..] == pv[q := h][f := q];
      lists := (lists - {q})[h := [q] + lists[h]];
      owner := owner[q := h];
    }

    /** QUEUE_INSERT_TAIL: `q` becomes the last element of `h`. */
    method InsertTail(h: int, q: int)
      requires Valid() && h in lists && Free(q) && q != h
      modifies this, next, prev
      ensures Valid()
      ensures lists == (old(lists) - {q})[h := old(lists[h]) + [q]]
      ensures owner == old(owner)[q := h]
    {
      InsertTailStep(N, next[..], prev[..], lists, owner, h, q);
      ghost var nx, pv, l := next[..], prev[..], prev[h];
      next[q] := h;
      prev[q] := prev[h];
      next[prev[q]] := q;
      prev[h] := q;
      assert next[..] == nx[q := h][l := q];
      assert prev[..] == pv[q := l][h := q];
      lists := (lists - {q})[h := lists[h] + [q]];
      owner := owner[q := h];
    }

    /** QUEUE_REMOVE: `q` leaves its queue, the others keep their order, and `q` is detached with stale links. */
    method Remove(q: int)
      requires Valid() && q in owner
      modifies this, next, prev
      ensures Valid()
      ensures var h := old(owner[q]); var s := old(lists[h]);
              lists == old(lists)[h := Without(s, IndexOf(s, q))]
      ensures owner == old(owner) - {q}
      ensures next[q] == old(next[q]) && prev[q] == old(prev[q])
    {
      RemoveStep(N, next[..], prev[..], lists, owner, q);
      ghost var nx, pv, p, m := next[..], prev[..], prev[q], next[q];
      ghost var h := owner[q];
      ghost var i := IndexOf(lists[h], q);
      next[prev[q]] := next[q];
      prev[next[q]] := prev[q];
      assert next[..] == nx[p := m];
      assert prev[..] == pv[m := p];
      lists := lists[h := Without(lists[h], i)];
      owner := owner - {q};
    }

    /**
     * QUEUE_REMOVE on a link that is either queued or a self-cycle: a queued
     * `q` leaves its queue as with `Remove`; relinking a self-cycle to itself
     * changes nothing.
     */
    method Unlink(q: int)
      requires Valid() && (q in owner || (q in lists && lists[q] == []))
      modifies this, next, prev
      ensures Valid()
      ensures old(q in owner) ==>
                var h := old(owner[q]); var s := old(lists[h]);
                lists == old(lists)[h := Without(s, IndexOf(s, q))] && owner == old(owner) - {q}
      ensures old(q !in owner) ==> lists == old(lists) && owner == old(owner)
    {
      ghost var queued := q in owner;
      ghost var nx, pv, p, m := next[..], prev[..], prev[q], next[q];
      if queued {
        RemoveStep(N, nx, pv, lists, owner, q);
      } else {
        assert Linked(nx, pv, q, lists[q]);
      }
      next[prev[q]] := next[q];
      prev[next[q]] := prev[q];
      assert next[..] == nx[p := m];
      assert prev[..] == pv[m := p];
      if queued {
        ghost var h := owner[q];
        lists := lists[h := Without(lists[h], IndexOf(lists[h], q))];
        owner := owner - {q};
      }
    }

    /** QUEUE_SPLIT: `h` keeps the elements before `q`; `n` becomes a queue of `q` and everything after it. */
    method Split(h: int, q: int, n: int)
      requires Valid() && h in lists && q in owner && owner[q] == h && Free(n) && n != h
      modifies this, next, prev
      ensures Valid()
      ensures var s := old(lists[h]); var i := IndexOf(s, q);
              lists == old(lists)[h := s[..i]][n := s[i..]] &&
              owner == SplitOwner(old(lists), old(owner), h, i, n)
    {
      SplitStep(N, next[..], prev[..], lists, owner, h, q, n);
      ghost var nx, pv, l, p := next[..], prev[..], prev[h], prev[q];
      ghost var s := lists[h];
      ghost var i := IndexOf(s, q);
      prev[n] := prev[h];
      next[prev[n]] := n;
      next[n] := q;
      prev[h] := prev[q];
      next[prev[h]] := h;
      prev[q] := n;
      assert next[..] == nx[l := n][n := q][p := h];
      assert prev[..] == pv[n := l][h := p][q := n];
      owner := SplitOwner(lists, owner, h, i, n);
      lists := lists[h := s[..i]][n := s[i..]];
    }

    /** QUEUE_MOVE: `n` takes over all of `h`'s elements, in order, and `h` is left empty. */
    method Move(h: int, n: int)
      requires Valid() && h in lists && Free(n) && n != h
      modifies this, next, prev
      ensures Valid()
      ensures lists == old(lists)[h := []][n := old(lists[h])]
      ensures owner == Reassign(old(owner), h, n)
    {
      var empty := IsEmpty(h);
      if empty {
        ReassignEmpty(lists, owner, h, n);
        Init(n);
      } else {
        var q := Head(h);
        assert lists[h][0] in owner;
        SplitAtHead(lists, owner, h, n);
        Split(h, q, n);
        assert old(lists[h])[0..] == old(lists[h]);
        assert old(lists[h])[..0] == [];
      }
    }

    /** QUEUE_ADD: `h` ends with its own elements followed by `n`'s; `n` is left detached. */
    method Add(h: int, n: int)
      requires Valid() && h in lists && n in lists && h != n
      modifies this, next, prev
      ensures Valid()
      ensures lists == (old(lists) - {n})[h := old(lists[h]) + old(lists[n])]
      ensures owner == Reassign(old(owner), n, h)
    {
      AddStep(N, next[..], prev[..], lists, owner, h, n);
      ghost var nx, pv, l, f := next[..], prev[..], prev[h], next[n];
      ghost var p := if f == n then l else pv[n];
      ghost var s, t, o := lists[h], lists[n], owner;
      next[prev[h]] := next[n];
      prev[next[n]] := prev[h];
      prev[h] := prev[n];
      next[prev[h]] := h;
      assert next[..] == nx[l := f][p := h];
      assert prev[..] == pv[f := l][h := p];
      lists := (lists - {n})[h := s + t];
      owner := Reassign(o, n, h);
    }
  }
}
