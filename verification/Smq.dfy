/** The shared-memory queue: a producer and a consumer, a ring of messages sent, a ring of blocks given back, and the
    block map. */
module Smq {
  import opened Counting
  import opened SmqMap

  /** The contents of one block. */
  type Block = nat

  datatype Node = Node(index: nat, num: nat)

  // ---------------------------------------------------------------------------------------------
  // Rings.

  function Dist(r: nat, w: nat, n: nat): nat requires r < n && w < n { if r <= w then w - r else w + n - r }

  /** What is in a ring from the read index up to the write index. */
  function Ring<T>(s: seq<T>, r: nat, w: nat): (q: seq<T>)
    requires r < |s| && w < |s|
    ensures |q| == Dist(r, w, |s|)
    ensures forall i :: 0 <= i < |q| ==> q[i] == s[if r + i < |s| then r + i else r + i - |s|]
  {
    seq(Dist(r, w, |s|), i requires 0 <= i < Dist(r, w, |s|) => s[if r + i < |s| then r + i else r + i - |s|])
  }

  /** Unless it is full but for one slot, a ring takes another element at its end. */
  lemma RingPush<T>(s: seq<T>, r: nat, w: nat, x: T)
    requires r < |s| && w < |s| && Dist(r, w, |s|) + 1 < |s|
    ensures Ring(s[w := x], r, Next(w, |s|)) == Ring(s, r, w) + [x]
  {
  }

  lemma RingPop<T>(s: seq<T>, r: nat, w: nat)
    requires r < |s| && w < |s| && r != w
    ensures Ring(s, r, w) != [] && Ring(s, r, w)[0] == s[r] && Ring(s, Next(r, |s|), w) == Ring(s, r, w)[1..]
  {
  }

  // ---------------------------------------------------------------------------------------------
  // The state of both sides.

  datatype Queue = Queue(cells: Map, blocks: seq<Block>, sent: seq<Node>, sw: nat, sr: nat, free: seq<nat>, fw: nat,
      fr: nat) {
    predicate Sized() {
      && 1 < |sent| == |free| == |blocks| == |cells| + 1
      && sw < |sent| && sr < |sent| && fw < |free| && fr < |free|
    }

    function Sent(): seq<Node> requires Sized() { Ring(sent, sr, sw) }
    function Free(): seq<nat> requires Sized() { Ring(free, fr, fw) }
  }

  function Indices(ns: seq<Node>): (s: seq<nat>)
    ensures |s| == |ns| && forall i :: 0 <= i < |ns| ==> s[i] == ns[i].index
  {
    seq(|ns|, i requires 0 <= i < |ns| => ns[i].index)
  }

  /** The blocks of a run hold a message. */
  predicate Holds(blocks: seq<Block>, node: Node, msg: seq<Block>) {
    node.index + node.num <= |blocks| && blocks[node.index..node.index + node.num] == msg
  }

  /** Messages and the runs they are in. */
  ghost predicate Carry(cells: Map, blocks: seq<Block>, ns: seq<Node>, msgs: seq<seq<Block>>) {
    |msgs| == |ns| && forall k :: 0 <= k < |ns| ==>
      Starts(cells, ns[k].index) && cells[ns[k].index] == ns[k].num && Holds(blocks, ns[k], msgs[k])
  }

  /** Three lists without repetition and without a common element, which together name all runs. */
  ghost predicate Split(cells: Map, a: seq<nat>, b: seq<nat>, c: seq<nat>) {
    && Distinct(a) && Distinct(b) && Distinct(c)
    && (forall x :: x in a ==> x !in b && x !in c) && (forall x :: x in b ==> x !in c)
    && (forall i: nat :: Starts(cells, i) <==> i in a || i in b || i in c)
  }

  /** Every run is in the sent ring, in the consumer's hands or in the free ring, and in one only; messages are intact
      and in order. */
  ghost predicate Ok(q: Queue, held: seq<Node>, kept: seq<seq<Block>>, pending: seq<seq<Block>>) {
    && q.Sized() && MapOk(q.cells)
    && Split(q.cells, Indices(q.Sent()), Indices(held), q.Free())
    && Carry(q.cells, q.blocks, q.Sent(), pending) && Carry(q.cells, q.blocks, held, kept)
  }

  /** There is always a slot to spare: the map has one block fewer than the rings have slots. */
  lemma NeverFull(cells: Map, a: seq<nat>, b: seq<nat>, c: seq<nat>)
    requires Split(cells, a, b, c)
    ensures |a| + |b| + |c| <= |cells|
  {
    var all := a + b + c;
    forall i | 0 <= i < |all| ensures all[i] < |cells| {
      assert all[i] in a || all[i] in b || all[i] in c;
      assert Starts(cells, all[i]);
    }
    DistinctBoth(a, b);
    DistinctBoth(a + b, c);
    AtMost(all, |cells|);
  }

  // ---------------------------------------------------------------------------------------------
  // Steps.

  /** A message written into blocks. */
  function WriteMsg(blocks: seq<Block>, at: nat, msg: seq<Block>): (r: seq<Block>)
    requires at + |msg| <= |blocks|
    ensures |r| == |blocks| &&
      forall i :: 0 <= i < |r| ==> r[i] == if at <= i < at + |msg| then msg[i - at] else blocks[i]
  {
    blocks[..at] + msg + blocks[at + |msg|..]
  }

  /** A run that starts outside a free range stays clear of it. */
  lemma ClearOf(cells: Map, i: nat, at: nat, n: nat)
    requires MapOk(cells) && Starts(cells, i) && AllFree(cells, at, n) && n > 0
    ensures i + cells[i] <= at || at + n <= i
  {
    if at < i + cells[i] && i < at + n {
      var k := if i <= at then at else i;
      RunBlocks(cells, i, k);
    }
  }

  lemma CarryTake(cells: Map, blocks: seq<Block>, ns: seq<Node>, msgs: seq<seq<Block>>, at: nat, msg: seq<Block>)
    requires MapOk(cells) && Carry(cells, blocks, ns, msgs) && AllFree(cells, at, |msg|) && msg != []
    requires |cells| <= |blocks|
    ensures Carry(Take(cells, at, |msg|), WriteMsg(blocks, at, msg), ns, msgs)
  {
    TakeOk(cells, at, |msg|);
    forall k | 0 <= k < |ns| ensures
      var i := ns[k].index;
      Starts(Take(cells, at, |msg|), i) && Take(cells, at, |msg|)[i] == ns[k].num &&
        Holds(WriteMsg(blocks, at, msg), ns[k], msgs[k])
    {
      ClearOf(cells, ns[k].index, at, |msg|);
      var i, n := ns[k].index, ns[k].num;
      assert WriteMsg(blocks, at, msg)[i..i + n] == blocks[i..i + n];
    }
  }

  lemma SendOk(q: Queue, held: seq<Node>, kept: seq<seq<Block>>, pending: seq<seq<Block>>, at: nat, msg: seq<Block>)
    requires Ok(q, held, kept, pending) && AllFree(q.cells, at, |msg|) && msg != []
    ensures Ok(q.(cells := Take(q.cells, at, |msg|), blocks := WriteMsg(q.blocks, at, msg),
                  sent := q.sent[q.sw := Node(at, |msg|)], sw := Next(q.sw, |q.sent|)), held, kept, pending + [msg])
  {
    var n := |msg|;
    var cells := Take(q.cells, at, n);
    var a, b, c := Indices(q.Sent()), Indices(held), q.Free();
    TakeOk(q.cells, at, n);
    assert !Starts(q.cells, at);
    assert Split(cells, a + [at], b, c);
    NeverFull(cells, a + [at], b, c);
    RingPush(q.sent, q.sr, q.sw, Node(at, n));
    assert Indices(q.Sent() + [Node(at, n)]) == a + [at];
    CarryTake(q.cells, q.blocks, q.Sent(), pending, at, msg);
    CarryTake(q.cells, q.blocks, held, kept, at, msg);
    assert WriteMsg(q.blocks, at, msg)[at..at + n] == msg;
  }

  lemma HeadMoves(cells: Map, a: seq<nat>, b: seq<nat>, c: seq<nat>)
    requires Split(cells, a, b, c) && a != []
    ensures Split(cells, a[1..], b + [a[0]], c)
  {
    assert a == [a[0]] + a[1..];
    assert a[0] in a;
    forall x | x in a[1..] ensures x != a[0] {
      var k :| 0 <= k < |a| - 1 && a[1..][k] == x;
      assert a[k + 1] == x;
    }
  }

  lemma CarryWithout(cells: Map, blocks: seq<Block>, ns: seq<Node>, msgs: seq<seq<Block>>, j: nat)
    requires Carry(cells, blocks, ns, msgs) && j < |ns|
    ensures Carry(cells, blocks, Without(ns, j), Without(msgs, j))
  {
    forall k | 0 <= k < |ns| - 1 ensures
      var node := Without(ns, j)[k];
      Starts(cells, node.index) && cells[node.index] == node.num && Holds(blocks, node, Without(msgs, j)[k])
    {
      var i := if k < j then k else k + 1;
      assert Without(ns, j)[k] == ns[i] && Without(msgs, j)[k] == msgs[i];
    }
  }

  lemma OneMoves(cells: Map, a: seq<nat>, b: seq<nat>, c: seq<nat>, j: nat)
    requires Split(cells, a, b, c) && j < |b|
    ensures Split(cells, a, Without(b, j), c + [b[j]])
  {
    assert b[j] in b;
    DistinctBoth(c, [b[j]]);
    var b' := Without(b, j);
    forall x: nat ensures x in b' <==> x in b && x != b[j] { WithoutHas(b, j, x); }
    forall k, l | 0 <= k < l < |b'| ensures b'[k] != b'[l] {
      assert b'[k] == b[if k < j then k else k + 1] && b'[l] == b[if l < j then l else l + 1];
    }
  }

  lemma WithoutHas(b: seq<nat>, j: nat, x: nat)
    requires Distinct(b) && j < |b|
    ensures x in Without(b, j) <==> x in b && x != b[j]
  {
    var b' := Without(b, j);
    if x in b' {
      var k :| 0 <= k < |b'| && b'[k] == x;
      assert b[if k < j then k else k + 1] == x;
    }
    if x in b && x != b[j] {
      var k :| 0 <= k < |b| && b[k] == x;
      assert b'[if k < j then k else k - 1] == x;
    }
  }

  lemma ReceiveOk(q: Queue, held: seq<Node>, kept: seq<seq<Block>>, pending: seq<seq<Block>>)
    requires Ok(q, held, kept, pending) && q.sr != q.sw
    ensures pending != [] && Holds(q.blocks, q.sent[q.sr], pending[0]) && q.sent[q.sr].index < |q.cells|
    ensures Ok(q.(sr := Next(q.sr, |q.sent|)), held + [q.sent[q.sr]], kept + [pending[0]], pending[1..])
  {
    RingPop(q.sent, q.sr, q.sw);
    var node := q.sent[q.sr];
    var s := q.Sent();
    assert Indices(held + [node]) == Indices(held) + [node.index];
    assert Indices(s[1..]) == Indices(s)[1..];
    assert Starts(q.cells, s[0].index);
    hide Ring, Indices;
    HeadMoves(q.cells, Indices(s), Indices(held), q.Free());
  }

  function Without<T>(s: seq<T>, j: nat): seq<T> requires j < |s| { s[..j] + s[j + 1..] }

  lemma FreeOk(q: Queue, held: seq<Node>, kept: seq<seq<Block>>, pending: seq<seq<Block>>, j: nat)
    requires Ok(q, held, kept, pending) && j < |held|
    ensures Ok(q.(free := q.free[q.fw := held[j].index], fw := Next(q.fw, |q.free|)), Without(held, j),
      Without(kept, j), pending)
  {
    var a, b, c, x := Indices(q.Sent()), Indices(held), q.Free(), held[j].index;
    NeverFull(q.cells, a, b, c);
    RingPush(q.free, q.fr, q.fw, x);
    var b' := Indices(Without(held, j));
    assert b' == Without(b, j);
    CarryWithout(q.cells, q.blocks, held, kept, j);
    hide Ring, Indices, Carry, Without;
    OneMoves(q.cells, a, b, c, j);
  }

  /** The free ring after smq_free. */
  function Freed(q: Queue, index: nat): Queue
    requires q.Sized()
  {
    q.(free := q.free[q.fw := index], fw := Next(q.fw, |q.free|))
  }

  ghost predicate Among(hs: seq<Node>, held: seq<Node>) { forall n :: n in hs ==> n in held }

  /** Freeing what is not held breaks the queue, whatever the consumer still holds after it. */
  lemma FreedOnlyHeld(q: Queue, held: seq<Node>, kept: seq<seq<Block>>, pending: seq<seq<Block>>, index: nat)
    requires Ok(q, held, kept, pending)
    ensures index !in Indices(held) ==> forall hs, ks :: Among(hs, held) ==> !Ok(Freed(q, index), hs, ks, pending)
  {
    if index !in Indices(held) {
      forall hs, ks | Among(hs, held) ensures !Ok(Freed(q, index), hs, ks, pending) {
        if Ok(Freed(q, index), hs, ks, pending) {
          FreedHeld(q, held, kept, pending, index, hs, ks);
        }
      }
    }
  }

  lemma FreedHeld(q: Queue, held: seq<Node>, kept: seq<seq<Block>>, pending: seq<seq<Block>>, index: nat,
      hs: seq<Node>, ks: seq<seq<Block>>)
    requires Ok(q, held, kept, pending) && Among(hs, held) && Ok(Freed(q, index), hs, ks, pending)
    ensures index in Indices(held)
  {
    var a, b, c := Indices(q.Sent()), Indices(held), q.Free();
    NeverFull(q.cells, a, b, c);
    if Dist(q.fr, q.fw, |q.free|) + 1 < |q.free| {
      RingPush(q.free, q.fr, q.fw, index);
      RingHas(c, index);
    } else {
      FullRing(q, held, kept, pending, index);
      AmongNone(hs, held);
      assert false;
    }
  }

  lemma AmongNone(hs: seq<Node>, held: seq<Node>)
    requires Among(hs, held)
    ensures held == [] ==> hs == []
  {
    if hs != [] { assert hs[0] in hs; }
  }

  /** With the free ring full, nothing is anywhere else; one more and it looks empty. */
  lemma FullRing(q: Queue, held: seq<Node>, kept: seq<seq<Block>>, pending: seq<seq<Block>>, index: nat)
    requires Ok(q, held, kept, pending) && Dist(q.fr, q.fw, |q.free|) + 1 >= |q.free|
    ensures held == [] && q.Sent() == [] && Freed(q, index).Sized() && Freed(q, index).Free() == []
    ensures exists i: nat :: Starts(q.cells, i)
  {
    var a, b, c := Indices(q.Sent()), Indices(held), q.Free();
    NeverFull(q.cells, a, b, c);
    assert c[0] in c;
    assert Starts(q.cells, c[0]);
  }

  /** An element after others that it is not among. */
  lemma RingHas(c: seq<nat>, x: nat)
    ensures x in c + [x] && (Distinct(c + [x]) ==> x !in c)
  {
    assert (c + [x])[|c|] == x;
    if x in c {
      var k :| 0 <= k < |c| && c[k] == x;
      assert (c + [x])[k] == x;
    }
  }

  lemma CarryGive(cells: Map, blocks: seq<Block>, ns: seq<Node>, msgs: seq<seq<Block>>, at: nat)
    requires MapOk(cells) && Carry(cells, blocks, ns, msgs) && Starts(cells, at) && at + cells[at] <= |cells|
    requires at !in Indices(ns)
    ensures Carry(Give(cells, at, cells[at]), blocks, ns, msgs)
  {
    GiveOk(cells, at);
    forall k | 0 <= k < |ns| ensures
      var i := ns[k].index; Starts(Give(cells, at, cells[at]), i) && Give(cells, at, cells[at])[i] == ns[k].num
    {
      assert Indices(ns)[k] == ns[k].index;
      if ns[k].index < at { RunsApart(cells, ns[k].index, at); } else { RunsApart(cells, at, ns[k].index); }
    }
  }

  lemma DrainOk(q: Queue, held: seq<Node>, kept: seq<seq<Block>>, pending: seq<seq<Block>>)
    requires Ok(q, held, kept, pending) && q.fr != q.fw
    ensures var at := q.free[q.fr];
      && Starts(q.cells, at) && at + q.cells[at] <= |q.cells|
      && Ok(q.(cells := Give(q.cells, at, q.cells[at]), fr := Next(q.fr, |q.free|)), held, kept, pending)
  {
    RingPop(q.free, q.fr, q.fw);
    var at := q.free[q.fr];
    var a, b, c := Indices(q.Sent()), Indices(held), q.Free();
    assert c == [at] + c[1..];
    assert at in c;
    GiveOk(q.cells, at);
    assert Split(Give(q.cells, at, q.cells[at]), a, b, c[1..]);
    CarryGive(q.cells, q.blocks, q.Sent(), pending, at);
    CarryGive(q.cells, q.blocks, held, kept, at);
  }

  // ---------------------------------------------------------------------------------------------

  /** smq_alloc_send's and smq_receive's results. `Busy` stands for a search that goes on. */
  datatype Status = Success | NoMem | BadParm | Underflow | Fault | Busy

  class SharedQueue {
    const slots: nat
    const bm: BlockMap
    var blocks: seq<Block>
    var sent: seq<Node>
    var sw: nat
    var sr: nat
    var free: seq<nat>
    var fw: nat
    var fr: nat
    /** Runs in the consumer's hands with the messages in them, and messages under way. */
    ghost var held: seq<Node>
    ghost var kept: seq<seq<Block>>
    ghost var pending: seq<seq<Block>>
    /** All messages ever sent, and all received. */
    ghost var log: seq<seq<Block>>
    ghost var got: seq<seq<Block>>

    ghost function View(): Queue reads this, bm { Queue(bm.cells, blocks, sent, sw, sr, free, fw, fr) }

    ghost predicate Valid()
      reads this, bm
    {
      Ok(View(), held, kept, pending) && bm.Valid() && slots == |sent| && log == got + pending
    }

    constructor (slots: nat)
      requires slots > 1
      ensures Valid() && fresh(bm) && this.slots == slots && log == [] && held == []
    {
      this.slots := slots;
      bm := new BlockMap(slots);
      blocks, sent, free := seq(slots, _ => 0), seq(slots, _ => Node(0, 0)), seq(slots, _ => 0);
      sw, sr, fw, fr := 0, 0, 0, 0;
      held, kept, pending, log, got := [], [], [], [], [];
    }

    /** The first loop of smq_alloc_send: give back to the map what the consumer has freed. */
    method Drain() returns (r: Status)
      requires Valid()
      modifies this`fr, bm`cells
      ensures Valid() && r == Success && fr == fw
    {
      hide Ok, Give, MapOk, Starts;
      Indexes(View(), held, kept, pending);
      while fr != fw
        invariant Valid() && fr < slots && fw < slots
        decreases Dist(fr, fw, slots)
      {
        DrainOk(View(), held, kept, pending);
        Indexes(View(), held, kept, pending);
        var index := free[fr];
        if index >= slots { return BadParm; }
        fr := Next(fr, slots);
        bm.Put(index);
      }
      r := Success;
    }

    /** smq_blockmap_get */
    method Get(n: nat, fuel: nat) returns (r: Search)
      requires bm.Valid() && 1 <= n <= 255
      modifies bm
      ensures bm.Valid()
      ensures r.Found? ==> AllFree(old(bm.cells), r.at, n) && bm.cells == Take(old(bm.cells), r.at, n)
      ensures !r.Found? ==> bm.cells == old(bm.cells)
      ensures r.NoMemory? || (r.Unfinished? && fuel >= 2 * |bm.cells|) ==> !HasRoom(bm.cells, n)
      ensures n == 1 ==> !r.Unfinished?
      ensures n > 1 && r.NoMemory? ==> Ends(bm.cells, old(bm.read))
      ensures r.Unfinished? && fuel >= 2 * |bm.cells| ==> !Ends(bm.cells, old(bm.read))
    {
      if n == 1 { r := bm.GetOne(); } else { r := bm.GetMany(n, fuel); }
    }

    /**
     * smq_alloc_send for a message of whole blocks. `ready` says whether the consumer is up, `copied` whether the
     * message could be copied from user space, and `fuel` how long to search.
     */
    method AllocSend(msg: seq<Block>, ready: bool, copied: bool, fuel: nat) returns (r: Status)
      requires Valid() && 1 <= |msg| <= 255
      modifies this`blocks, this`sent, this`sw, this`fr, this`pending, this`log, bm
      ensures Valid() && (ready ==> fr == fw)
      ensures r == Success ==> log == old(log) + [msg] && pending == old(pending) + [msg]
      ensures r != Success ==> log == old(log) && pending == old(pending) && sent == old(sent) && sw == old(sw)
      ensures r in {Success, NoMem, Fault, Busy} && (r == Fault ==> !copied) && (r == Success ==> copied)
      ensures r == NoMem || (r == Busy && fuel >= 2 * |bm.cells|) ==> !HasRoom(bm.cells, |msg|)
      ensures |msg| == 1 ==> r != Busy
      ensures |msg| > 1 && r == NoMem ==> Ends(bm.cells, old(bm.read))
      ensures r == Busy && fuel >= 2 * |bm.cells| ==> !Ends(bm.cells, old(bm.read))
      ensures !ready && copied && HasRoom(old(bm.cells), |msg|) && (|msg| == 1 || fuel >= 2 * |bm.cells|) ==>
        r == Success
      ensures r != Success && !ready ==> bm.cells == old(bm.cells)
    {
      hide Ok, Give, Take, MapOk, Starts, AllFree, WriteMsg, Ends, HasRoom;
      if ready {
        r := Drain();
        if r != Success { return; }
      }
      ghost var q := View();
      assert q.Sized() && MapOk(q.cells) by { Indexes(q, held, kept, pending); }
      var s := Get(|msg|, fuel);
      if s.NoMemory? { return NoMem; }
      if s.Unfinished? { return Busy; }
      var at := s.at;
      TakeBack(q.cells, at, |msg|);
      if !copied {
        bm.Put(at);
        return Fault;
      }
      Post(at, msg, q);
      r := Success;
    }

    /** The end of smq_alloc_send: fill the blocks taken and post them. */
    method Post(at: nat, msg: seq<Block>, ghost q: Queue)
      requires Ok(q, held, kept, pending) && AllFree(q.cells, at, |msg|) && msg != []
      requires View() == q.(cells := Take(q.cells, at, |msg|))
      requires bm.Valid() && slots == |sent| && log == got + pending
      modifies this`blocks, this`sent, this`sw, this`pending, this`log
      ensures Valid() && log == old(log) + [msg] && pending == old(pending) + [msg]
    {
      hide Ok, Take, MapOk, Starts, WriteMsg;
      Indexes(q, held, kept, pending);
      SendOk(q, held, kept, pending, at, msg);
      blocks := WriteMsg(blocks, at, msg);
      sent := sent[sw := Node(at, |msg|)];
      sw := Next(sw, slots);
      pending, log := pending + [msg], log + [msg];
    }

    /** smq_receive: the oldest message that is under way, and whether there are more. */
    method Receive() returns (r: Status, index: nat, msg: seq<Block>, more: bool)
      requires Valid()
      modifies this`sr, this`held, this`kept, this`pending, this`got
      ensures Valid()
      ensures r == Underflow <==> old(pending) == []
      ensures r == Underflow ==> sr == old(sr) && held == old(held) && pending == old(pending) && got == old(got)
      ensures r == Success ==> old(pending) != [] && msg == old(pending)[0] && got == old(got) + [msg]
      ensures r == Success ==> held == old(held) + [Node(index, |msg|)] && (more <==> pending != [])
      ensures r == Success || r == Underflow
    {
      hide Ok, MapOk, Starts;
      Indexes(View(), held, kept, pending);
      index, msg, more := 0, [], false;
      if sr == sw { return Underflow, index, msg, more; }
      ReceiveOk(View(), held, kept, pending);
      var node := sent[sr];
      if node.index >= slots { return BadParm, index, msg, more; }
      sr := Next(sr, slots);
      held, kept, got, pending := held + [node], kept + [pending[0]], got + [pending[0]], pending[1..];
      index, msg := node.index, blocks[node.index..node.index + node.num];
      Indexes(View(), held, kept, pending);
      more := sr != sw;
      r := Success;
    }

    /** smq_free by the consumer. What it frees is not checked: all stays well exactly if it is what it holds. */
    method Release(index: nat) returns (r: Status)
      requires Valid()
      modifies this`free, this`fw, this`held, this`kept
      ensures (r == BadParm <==> index >= slots) && (r == BadParm || r == Success)
      ensures r == BadParm ==> Valid() && held == old(held) && View() == old(View())
      ensures r == Success ==> View() == Freed(old(View()), index)
      ensures r == Success && index in Indices(old(held)) ==>
        Valid() && exists j :: 0 <= j < |old(held)| && old(held)[j].index == index && held == Without(old(held), j)
      ensures r == Success && index !in Indices(old(held)) ==>
        held == old(held) && forall hs, ks :: Among(hs, held) ==> !Ok(View(), hs, ks, pending)
    {
      hide Ok, MapOk, Starts, Among;
      Indexes(View(), held, kept, pending);
      if index >= slots { return BadParm; }
      FreedOnlyHeld(View(), held, kept, pending, index);
      if index in Indices(held) {
        ghost var j :| 0 <= j < |held| && held[j].index == index;
        FreeOk(View(), held, kept, pending, j);
        held, kept := Without(held, j), Without(kept, j);
      }
      free := free[fw := index];
      fw := Next(fw, slots);
      r := Success;
    }
  }

  /** Plain facts about a queue. */
  lemma Indexes(q: Queue, held: seq<Node>, kept: seq<seq<Block>>, pending: seq<seq<Block>>)
    requires Ok(q, held, kept, pending)
    ensures q.Sized() && MapOk(q.cells) && |kept| == |held| && (q.sr == q.sw <==> pending == [])
    ensures forall i: nat :: Starts(q.cells, i) ==> i < |q.cells|
  {
  }

  /** Taking blocks and giving them back leaves the map as it was. */
  lemma TakeBack(m: Map, at: nat, n: nat)
    requires MapOk(m) && AllFree(m, at, n) && n > 0
    ensures MapOk(Take(m, at, n)) && Starts(Take(m, at, n), at) && Take(m, at, n)[at] == n
    ensures Give(Take(m, at, n), at, n) == m
  {
    TakeOk(m, at, n);
  }
}
