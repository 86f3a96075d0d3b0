/** The block map of the shared-memory queue: runs of blocks, each marked with a countdown to its end. */
module SmqMap {
  import opened Arith

  type Map = seq<nat>

  /** A used block says how many blocks of its run are left from it on. */
  predicate CountsDown(m: Map, i: nat) {
    i < |m| && (m[i] > 0 ==> i + m[i] <= |m| && (m[i] > 1 ==> i + 1 < |m| && m[i + 1] == m[i] - 1))
  }

  predicate MapOk(m: Map) { |m| > 0 && forall i :: 0 <= i < |m| ==> CountsDown(m, i) }

  /** Block i is the first of a run. */
  predicate Starts(m: Map, i: nat) { i < |m| && m[i] > 0 && (i > 0 ==> m[i - 1] <= 1) }

  predicate AllFree(m: Map, at: nat, n: nat) { at + n <= |m| && forall i :: at <= i < at + n ==> m[i] == 0 }

  /** n blocks from `at` on, taken as one run. */
  function Take(m: Map, at: nat, n: nat): (r: Map)
    requires at + n <= |m|
    ensures |r| == |m| && forall i :: 0 <= i < |m| ==> r[i] == if at <= i < at + n then n - (i - at) else m[i]
  {
    seq(|m|, i requires 0 <= i < |m| => if at <= i < at + n then n - (i - at) else m[i])
  }

  /** n blocks from `at` on, given back. */
  function Give(m: Map, at: nat, n: nat): (r: Map)
    requires at + n <= |m|
    ensures |r| == |m| && forall i :: 0 <= i < |m| ==> r[i] == if at <= i < at + n then 0 else m[i]
  {
    seq(|m|, i requires 0 <= i < |m| => if at <= i < at + n then 0 else m[i])
  }

  /** The blocks of a run count down one by one. */
  lemma {:induction false} InRun(m: Map, at: nat, k: nat)
    requires MapOk(m) && at < |m| && k < m[at]
    ensures at + k < |m| && m[at + k] == m[at] - k
    decreases k
  {
    assert CountsDown(m, at);
    if k > 0 {
      InRun(m, at, k - 1);
      assert CountsDown(m, at + k - 1);
    }
  }

  /** A run is used as a whole and nothing in it starts another. */
  lemma RunBlocks(m: Map, at: nat, k: nat)
    requires MapOk(m) && Starts(m, at) && at <= k < at + m[at]
    ensures k < |m| && m[k] == m[at] - (k - at) && (k > at ==> !Starts(m, k))
  {
    InRun(m, at, k - at);
    if k > at { InRun(m, at, k - at - 1); }
  }

  /** Different runs have no block in common. */
  lemma RunsApart(m: Map, a: nat, b: nat)
    requires MapOk(m) && Starts(m, a) && Starts(m, b) && a < b
    ensures a + m[a] <= b
  {
    if b < a + m[a] { RunBlocks(m, a, b); }
  }

  lemma TakeOk(m: Map, at: nat, n: nat)
    requires MapOk(m) && AllFree(m, at, n) && n > 0
    ensures MapOk(Take(m, at, n)) && Starts(Take(m, at, n), at)
    ensures forall i: nat :: i != at ==> (Starts(Take(m, at, n), i) <==> Starts(m, i))
  {
    var r := Take(m, at, n);
    forall i | 0 <= i < |r| ensures CountsDown(r, i) {
      assert CountsDown(m, i);
      if i + 1 < |m| { assert CountsDown(m, i + 1); }
    }
    if at > 0 { assert CountsDown(m, at - 1); }
    forall i: nat | i != at ensures Starts(r, i) <==> Starts(m, i) {
      if 0 < i < |m| { assert CountsDown(m, i - 1) && CountsDown(m, i); }
    }
  }

  lemma GiveOk(m: Map, at: nat)
    requires MapOk(m) && Starts(m, at)
    ensures at + m[at] <= |m| && MapOk(Give(m, at, m[at])) && AllFree(Give(m, at, m[at]), at, m[at])
    ensures forall i: nat :: Starts(Give(m, at, m[at]), i) <==> Starts(m, i) && i != at
  {
    assert CountsDown(m, at);
    var n := m[at];
    var r := Give(m, at, n);
    InRun(m, at, n - 1);
    forall i | 0 <= i < |r| ensures CountsDown(r, i) { GiveCounts(m, at, i); }
    forall i: nat ensures Starts(r, i) <==> Starts(m, i) && i != at {
      if i < |m| { GiveStarts(m, at, i); }
    }
  }

  lemma GiveCounts(m: Map, at: nat, i: nat)
    requires MapOk(m) && Starts(m, at) && at + m[at] <= |m| && i < |m|
    ensures CountsDown(Give(m, at, m[at]), i)
  {
    assert CountsDown(m, i);
    if i + 1 == at {
    } else if at <= i + 1 < at + m[at] {
      RunBlocks(m, at, i + 1);
    }
  }

  lemma GiveStarts(m: Map, at: nat, i: nat)
    requires MapOk(m) && Starts(m, at) && at + m[at] <= |m| && i < |m|
    ensures Starts(Give(m, at, m[at]), i) <==> Starts(m, i) && i != at
  {
    if at <= i < at + m[at] { RunBlocks(m, at, i); }
    if i > 0 && at <= i - 1 < at + m[at] { RunBlocks(m, at, i - 1); }
  }

  datatype Search = Found(at: nat) | NoMemory | Unfinished

  class BlockMap {
    var cells: Map
    var read: nat

    ghost predicate Valid() reads this { MapOk(cells) && read < |cells| }

    /** smq_blockmap_ctor: one block fewer than the rings have slots. */
    constructor (slots: nat)
      requires slots > 1
      ensures Valid() && |cells| == slots - 1 && forall i :: 0 <= i < |cells| ==> cells[i] == 0
    {
      cells, read := seq(slots - 1, _ => 0), 0;
    }

    /** smq_blockmap_get for one block: found exactly if there is a free one. */
    method GetOne() returns (r: Search)
      requires Valid()
      modifies this
      ensures Valid() && !r.Unfinished?
      ensures r.Found? ==> AllFree(old(cells), r.at, 1) && cells == Take(old(cells), r.at, 1)
      ensures r.NoMemory? ==> cells == old(cells) && !HasRoom(cells, 1)
    {
      var start, n := read, |cells|;
      ghost var wrapped := false;
      while true
        invariant Valid() && cells == old(cells) && n == |cells| && start < n
        invariant if wrapped then read < start else start <= read
        invariant forall k :: (if wrapped then start <= k < n || 0 <= k < read else start <= k < read) ==> cells[k] != 0
        decreases if wrapped then start - read else n - read + start
      {
        if cells[read] == 0 {
          TakeOk(cells, read, 1);
          r := Found(read);
          assert Take(cells, read, 1) == cells[read := 1];
          cells := cells[read := 1];
          read := Next(read, n);
          return;
        }
        if read + 1 == n { wrapped := true; }
        read := Next(read, n);
        if read == start { break; }
      }
      NoneFree(cells);
      r := NoMemory;
    }

    /**
     * smq_blockmap_get for more. `fuel` bounds the turns, since a search that fails may not end. Two rounds are enough
     * for every search that ends.
     */
    method GetMany(n: nat, fuel: nat) returns (r: Search)
      requires Valid() && 1 < n <= 255
      modifies this
      ensures Valid()
      ensures r.Found? ==>
        AllFree(old(cells), r.at, n) && cells == Take(old(cells), r.at, n) && read == r.at + n - 1
      ensures !r.Found? ==> cells == old(cells)
      ensures r.NoMemory? ==> !HasRoom(cells, n) && Ends(cells, old(read))
      ensures r.Unfinished? && fuel >= 2 * |cells| ==> !HasRoom(cells, n) && !Ends(cells, old(read))
    {
      hide Outlook, HasRoom, Ends;
      var start, size, found: nat, turns := read, |cells|, 0, 0;
      var mark := size;
      ghost var s := Scan(read, start, mark, found, turns, false);
      OutlookStart(cells, n, s);
      while turns < fuel
        invariant Valid() && cells == old(cells) && size == |cells| && mark <= size && (mark < size ==> start == mark)
        invariant mark <= read ==> found == read - mark && found < n && AllFree(cells, mark, found)
        invariant s.read == read && s.start == start && s.mark == mark && s.found == found && s.turns == turns <= fuel
        invariant Outlook(cells, n, old(read), s)
      {
        ghost var before := s;
        if cells[read] == 0 {
          if mark > read {
            mark, start, found := read, read, 0;
          }
          found := found + 1;
          if found == n {
            r := Found(mark);
            TakeOk(cells, mark, n);
            MarkRun(mark, n);
            read := read + cells[read] - 1;
            return;
          }
        } else {
          assert CountsDown(cells, read);
          found, read, mark := 0, read + cells[read] - 1, size;
        }
        read := Next(read, size);
        turns := turns + 1;
        s := Scan(read, start, mark, found, turns, before.wrapped || read <= before.read);
        OutlookTurn(cells, n, old(read), before, s);
        if read == start { return NoMemory; }
      }
      OutlookEnd(cells, n, old(read), s);
      r := Unfinished;
    }

    method MarkRun(mark: nat, n: nat)
      requires mark + n <= |cells|
      modifies this`cells
      ensures cells == Take(old(cells), mark, n)
    {
      var i := 0;
      while i < n
        invariant 0 <= i <= n && |cells| == |old(cells)|
        invariant forall k :: 0 <= k < |cells| ==>
          cells[k] == if mark <= k < mark + i then n - (k - mark) else old(cells)[k]
      {
        cells := cells[mark + i := n - i];
        i := i + 1;
      }
      assert cells == Take(old(cells), mark, n);
    }

    /** smq_blockmap_put */
    method Put(at: nat)
      requires Valid() && Starts(cells, at)
      modifies this`cells
      ensures Valid() && at + old(cells)[at] <= |old(cells)| && cells == Give(old(cells), at, old(cells)[at])
    {
      GiveOk(cells, at);
      var left, i := cells[at], at;
      while left > 0
        invariant at <= i && i + left == at + old(cells)[at] && |cells| == |old(cells)|
        invariant forall k :: 0 <= k < |cells| ==> cells[k] == if at <= k < i then 0 else old(cells)[k]
      {
        cells := cells[i := 0];
        left, i := left - 1, i + 1;
      }
      assert cells == Give(old(cells), at, old(cells)[at]);
    }
  }

  // ---------------------------------------------------------------------------------------------
  // The search finds what there is.

  ghost predicate HasRoom(m: Map, n: nat) { exists p: nat :: AllFree(m, p, n) }

  lemma NoneFree(m: Map)
    requires forall i :: 0 <= i < |m| ==> m[i] != 0
    ensures !HasRoom(m, 1)
  {
    forall p: nat ensures !AllFree(m, p, 1) {
      if p < |m| { assert m[p] != 0; }
    }
  }

  /** Room for n from p on, where nothing is free before. */
  predicate FirstOf(m: Map, p: nat, n: nat) { AllFree(m, p, n) && (p > 0 ==> m[p - 1] != 0) }

  lemma {:induction false} FirstFrom(m: Map, p: nat, n: nat) returns (q: nat)
    requires AllFree(m, p, n) && n > 0
    ensures FirstOf(m, q, n)
    decreases p
  {
    q := p;
    if p > 0 && m[p - 1] == 0 { q := FirstFrom(m, p - 1, n); }
  }

  /** The variables of the search, the turns it took, and whether it went past the end. */
  datatype Scan = Scan(read: nat, start: nat, mark: nat, found: nat, turns: nat, wrapped: bool)

  /** The search from `from` will come to p, and not come to `start` before. */
  predicate Towards(m: Map, n: nat, from: nat, s: Scan, p: nat) {
    && FirstOf(m, p, n) && s.read < |m| && (s.turns == 0 ==> s.start == s.read == from && s.mark == |m| && !s.wrapped)
    && if from > p && !s.wrapped then
         from <= s.start <= s.read && (s.start == s.read ==> s.turns == 0) && s.turns <= s.read - from
       else
         && s.turns <= (if s.wrapped then |m| + s.read - from else s.read - from) && (s.wrapped <==> from > p)
         && if s.read <= p then s.start > p || s.start < s.read || s.turns == 0
            else s.read < p + n && s.mark == s.start == p && s.found == s.read - p
  }

  ghost predicate OnWay(m: Map, n: nat, from: nat, s: Scan) { exists p: nat :: Towards(m, n, from, s, p) }

  /** What the loop of the search keeps. */
  predicate ScanOk(m: Map, n: nat, s: Scan) {
    && MapOk(m) && s.read < |m| && s.mark <= |m| && (s.mark < |m| ==> s.start == s.mark)
    && (s.mark <= s.read ==> s.found == s.read - s.mark && s.found < n && AllFree(m, s.mark, s.found))
  }

  /** One turn that does not find the last block. */
  predicate Turned(m: Map, n: nat, s: Scan, t: Scan) requires s.read < |m| {
    && (if m[s.read] == 0 then
          && (if s.mark > s.read then t.mark == t.start == s.read && t.found == 1
              else t.mark == s.mark && t.start == s.start && t.found == s.found + 1)
          && t.found != n && t.read == Next(s.read, |m|)
        else
          && t.found == 0 && t.mark == |m| && t.start == s.start
          && s.read + m[s.read] - 1 < |m| && t.read == Next(s.read + m[s.read] - 1, |m|))
    && t.turns == s.turns + 1 && t.wrapped == (s.wrapped || t.read <= s.read)
  }

  lemma WayStart(m: Map, n: nat, s: Scan)
    requires MapOk(m) && n > 0 && s.read < |m| && s == Scan(s.read, s.read, |m|, 0, 0, false)
    ensures HasRoom(m, n) ==> OnWay(m, n, s.read, s)
  {
    if HasRoom(m, n) {
      var p: nat :| AllFree(m, p, n);
      p := FirstFrom(m, p, n);
      assert Towards(m, n, s.read, s, p);
    }
  }

  /** A free block is not jumped over. */
  lemma NotOver(m: Map, at: nat, p: nat)
    requires MapOk(m) && at < p < |m| && m[p] == 0
    ensures at + m[at] <= p
  {
    if p < at + m[at] { InRun(m, at, p - at); }
  }

  lemma TurnTowards(m: Map, n: nat, from: nat, s: Scan, t: Scan, p: nat)
    requires ScanOk(m, n, s) && 1 < n && from < |m| && Towards(m, n, from, s, p) && Turned(m, n, s, t)
    ensures Towards(m, n, from, t, p) && t.read != t.start
  {
    assert m[p] == 0;
    if s.read < p { NotOver(m, s.read, p); }
  }

  lemma WayOn(m: Map, n: nat, from: nat, s: Scan, t: Scan)
    requires ScanOk(m, n, s) && 1 < n && from < |m| && OnWay(m, n, from, s) && Turned(m, n, s, t)
    ensures OnWay(m, n, from, t) && t.read != t.start
  {
    var p: nat :| Towards(m, n, from, s, p);
    TurnTowards(m, n, from, s, t, p);
  }

  /** The way is no longer than two rounds. */
  lemma WayEnds(m: Map, n: nat, from: nat, s: Scan)
    requires OnWay(m, n, from, s)
    ensures s.turns < 2 * |m|
  {
  }

  // ---------------------------------------------------------------------------------------------
  // When a search that fails ends.

  /** A run of free blocks begins at p. */
  predicate FreeStart(m: Map, p: nat) { FirstOf(m, p, 1) }

  predicate NoneFreeIn(m: Map) { forall i :: 0 <= i < |m| ==> m[i] != 0 }

  /** There is one run of free blocks, or none and the search begins where a run of used ones does. */
  ghost predicate Ends(m: Map, from: nat) {
    (exists p: nat :: OnlyStart(m, p)) || (NoneFreeIn(m) && Starts(m, from))
  }

  ghost predicate OnlyStart(m: Map, p: nat) { FreeStart(m, p) && forall q: nat :: FreeStart(m, q) ==> q == p }

  /** With one run of free blocks, all from its beginning to any free block is free. */
  lemma OneRun(m: Map, p: nat, c: nat)
    requires OnlyStart(m, p) && c < |m| && m[c] == 0
    ensures p <= c && AllFree(m, p, c - p + 1)
  {
    var q := RunBack(m, c);
    assert FreeStart(m, q);
  }

  lemma {:induction false} RunBack(m: Map, c: nat) returns (q: nat)
    requires c < |m| && m[c] == 0
    ensures q <= c && FreeStart(m, q) && AllFree(m, q, c - q + 1)
    decreases c
  {
    q := c;
    if c > 0 && m[c - 1] == 0 { q := RunBack(m, c - 1); }
  }

  /** The search goes to the one free run for the first time, or away from it and back. */
  ghost predicate Closes(m: Map, from: nat, s: Scan, p: nat, back: bool) {
    && OnlyStart(m, p) && s.read < |m| && from < |m|
    && if back then
         && s.start == p != s.read && (m[s.read] == 0 ==> s.mark == p)
         && s.turns <= |m| + if s.read > p then s.read - p else |m| - p + s.read
       else
         && s.turns <= (if s.wrapped then |m| + s.read - from else s.read - from)
         && (s.read <= p ==> s.mark > p) && (if s.wrapped then s.read <= p < from else from <= p ==> s.read <= p)
  }

  /** On the way to the free run, or in it for the first time. */
  lemma ClosesTo(m: Map, n: nat, from: nat, s: Scan, t: Scan, p: nat)
    requires ScanOk(m, n, s) && 1 < n && !HasRoom(m, n) && Closes(m, from, s, p, false) && Turned(m, n, s, t)
    ensures t.read == t.start || Closes(m, from, t, p, false) || Closes(m, from, t, p, true)
  {
    assert FreeStart(m, p) && m[p] == 0;
    if s.read < p { NotOver(m, s.read, p); }
    if s.read != p && m[s.read] == 0 { OneRun(m, p, s.read); }
    if m[t.read] == 0 { OneRun(m, p, t.read); }
  }

  /** Away from it, and back to its beginning. */
  lemma ClosesBack(m: Map, n: nat, from: nat, s: Scan, t: Scan, p: nat)
    requires ScanOk(m, n, s) && 1 < n && Closes(m, from, s, p, true) && Turned(m, n, s, t)
    ensures t.read == t.start || Closes(m, from, t, p, true)
  {
    assert FreeStart(m, p) && m[p] == 0;
    if s.read < p { NotOver(m, s.read, p); }
    if m[s.read] == 0 { OneRun(m, p, s.read); }
    if m[t.read] == 0 { OneRun(m, p, t.read); }
  }

  /** With nothing free, a search that begins with a run of used blocks comes back to it. */
  predicate Circles(m: Map, from: nat, s: Scan) {
    && NoneFreeIn(m) && Starts(m, from) && s.start == from && s.read < |m|
    && if s.wrapped then s.read < from && s.turns <= |m| + s.read - from
       else from <= s.read && s.turns <= s.read - from
  }

  lemma CirclesOn(m: Map, n: nat, from: nat, s: Scan, t: Scan)
    requires ScanOk(m, n, s) && Circles(m, from, s) && Turned(m, n, s, t)
    ensures t.read == t.start || Circles(m, from, t)
  {
    if s.read < from && from < s.read + m[s.read] { InRun(m, s.read, from - 1 - s.read); }
  }

  /** q lies ahead of the search, before it comes to `start` again. */
  predicate Before(s: Scan, q: nat) {
    q != s.start && if s.read < s.start then s.read <= q < s.start else q >= s.read || q < s.start
  }

  /** There is always another free run ahead. */
  ghost predicate Chases(m: Map, s: Scan) {
    s.read < |m| && exists p: nat, q: nat :: p != q && FreeStart(m, p) && FreeStart(m, q) && Before(s, q)
  }

  lemma ChasesOn(m: Map, n: nat, s: Scan, t: Scan)
    requires ScanOk(m, n, s) && Chases(m, s) && Turned(m, n, s, t)
    ensures Chases(m, t) && t.read != t.start
  {
    var p: nat, q: nat :| p != q && FreeStart(m, p) && FreeStart(m, q) && Before(s, q);
    assert m[p] == 0 && m[q] == 0;
    if m[s.read] == 0 && s.mark > s.read {
      var q' := if p == s.read then q else p;
      assert Before(t, q') && FreeStart(m, q') && FreeStart(m, p) && FreeStart(m, q);
    } else {
      if s.read < q { NotOver(m, s.read, q); }
      assert Before(t, q);
    }
  }

  /** With nothing free, a search that begins within a run never comes back to where it began. */
  predicate Misses(m: Map, s: Scan) {
    NoneFreeIn(m) && s.start < |m| && !Starts(m, s.start) && s.read < |m| &&
      (Starts(m, s.read) || (s.turns == 0 && s.read == s.start))
  }

  lemma MissesOn(m: Map, n: nat, s: Scan, t: Scan)
    requires ScanOk(m, n, s) && Misses(m, s) && Turned(m, n, s, t)
    ensures Misses(m, t) && t.read != t.start
  {
    InRun(m, s.read, m[s.read] - 1);
  }

  /** What becomes of the search. */
  ghost predicate Outlook(m: Map, n: nat, from: nat, s: Scan) {
    if HasRoom(m, n) then OnWay(m, n, from, s)
    else if NoneFreeIn(m) then (if Starts(m, from) then Circles(m, from, s) else Misses(m, s))
    else if exists p: nat :: OnlyStart(m, p) then
      exists p: nat, back: bool :: Closes(m, from, s, p, back)
    else Chases(m, s)
  }

  /** Free blocks, but not one run of them: at least two. */
  lemma TwoStarts(m: Map, start: nat) returns (p: nat, q: nat)
    requires !NoneFreeIn(m) && !exists p: nat :: OnlyStart(m, p)
    ensures p != q && FreeStart(m, p) && FreeStart(m, q) && q != start
  {
    var c :| 0 <= c < |m| && m[c] == 0;
    p := RunBack(m, c);
    assert !OnlyStart(m, p);
    q :| FreeStart(m, q) && q != p;
    if q == start { p, q := q, p; }
  }

  lemma OutlookStart(m: Map, n: nat, s: Scan)
    requires MapOk(m) && n > 0 && s.read < |m| && s == Scan(s.read, s.read, |m|, 0, 0, false)
    ensures Outlook(m, n, s.read, s)
  {
    WayStart(m, n, s);
    hide HasRoom, OnWay;
    if !HasRoom(m, n) && !NoneFreeIn(m) {
      if p: nat :| OnlyStart(m, p) {
        assert Closes(m, s.read, s, p, false);
      } else {
        var p, q := TwoStarts(m, s.read);
        assert Before(s, q);
      }
    }
  }

  lemma OutlookTurn(m: Map, n: nat, from: nat, s: Scan, t: Scan)
    requires ScanOk(m, n, s) && 1 < n && from < |m| && Outlook(m, n, from, s) && Turned(m, n, s, t)
    ensures t.read != t.start ==> Outlook(m, n, from, t)
    ensures t.read == t.start ==> !HasRoom(m, n) && Ends(m, from)
  {
    hide HasRoom, OnWay, ScanOk, Turned, Misses, Circles, Chases, Closes, OnlyStart;
    if HasRoom(m, n) {
      WayOn(m, n, from, s, t);
    } else if NoneFreeIn(m) {
      if Starts(m, from) { CirclesOn(m, n, from, s, t); } else { MissesOn(m, n, s, t); }
    } else if exists p: nat :: OnlyStart(m, p) {
      var p: nat, back: bool :| Closes(m, from, s, p, back);
      if back { ClosesBack(m, n, from, s, t, p); } else { ClosesTo(m, n, from, s, t, p); }
    } else {
      ChasesOn(m, n, s, t);
    }
  }

  /** After two rounds, only a search that never ends goes on. */
  lemma OutlookEnd(m: Map, n: nat, from: nat, s: Scan)
    requires Outlook(m, n, from, s) && from < |m|
    ensures s.turns >= 2 * |m| ==> !HasRoom(m, n) && !Ends(m, from)
  {
    hide HasRoom;
    if HasRoom(m, n) { WayEnds(m, n, from, s); }
    forall p: nat | NoneFreeIn(m) ensures !OnlyStart(m, p) {
      if p < |m| { assert m[p] != 0; }
    }
  }

  /** Two blocks, both taken by one message: the next search for two blocks goes on for ever. */
  method Endless(fuel: nat) returns (bm: BlockMap, r: Search)
    ensures fresh(bm) && bm.Valid() && r.Unfinished?
  {
    bm := new BlockMap(3);
    assert AllFree(bm.cells, 0, 2);
    r := bm.GetMany(2, 4);
    assert bm.cells == [2, 1] && bm.read == 1;
    assert !Starts(bm.cells, 1) && bm.cells[0] != 0 && bm.cells[1] != 0;
    r := bm.GetMany(2, fuel);
  }

  /** The next index of n, back to 0 after the last. */
  function Next(i: nat, n: nat): (j: nat)
    requires i < n
    ensures j == if i + 1 == n then 0 else i + 1
  {
    NextIs(i, n);
    (i + 1) % n
  }

  lemma NextIs(i: nat, n: nat)
    requires i < n
    ensures (i + 1) % n == if i + 1 == n then 0 else i + 1
  {
    if i + 1 == n { DivUnique(n, n, 1); } else { DivUnique(i + 1, n, 0); }
  }
}
