/** The blocks of a CiliumLoadBalancerIPPool and the two operations the operator
    performs on them (internal/controller/publicipclaim_controller.go:467-593). */
module PoolBlocks {
  import opened Common

  /** A block is a CIDR, or an address range that carries no "cidr" key. */
  datatype Block = Cidr(cidr: string) | Range(start: string, stop: string)

  function BlockOf(ip: string): Block { Cidr(ip + "/32") }

  // --------------------------------------------------------- specifications

  function Ensured(blocks: seq<Block>, b: Block): seq<Block> {
    if b in blocks then blocks else blocks + [b]
  }

  function Without(blocks: seq<Block>, b: Block): seq<Block> {
    if blocks == [] then []
    else
      var rest := Without(blocks[..|blocks| - 1], b);
      if blocks[|blocks| - 1] == b then rest else rest + [blocks[|blocks| - 1]]
  }

  predicate DuplicateFree(blocks: seq<Block>) {
    forall i, j :: 0 <= i < j < |blocks| ==> blocks[i] != blocks[j]
  }

  // ------------------------------------------------------------- properties

  lemma BlockOfInjective(a: string, b: string)
    requires BlockOf(a) == BlockOf(b)
    ensures a == b
  {
    assert (a + "/32")[..|a + "/32"| - 3] == a;
    assert (b + "/32")[..|b + "/32"| - 3] == b;
  }

  /** Removal takes every copy of the block and keeps every other block as often as it was there. */
  lemma {:induction false} WithoutKeepsOthers(blocks: seq<Block>, b: Block)
    ensures multiset(Without(blocks, b)) == multiset(blocks)[b := 0]
    decreases |blocks|
  {
    if blocks == [] {
    } else {
      var front := blocks[..|blocks| - 1];
      assert blocks == front + [blocks[|blocks| - 1]];
      WithoutKeepsOthers(front, b);
    }
  }

  lemma WithoutMembers(blocks: seq<Block>, b: Block, x: Block)
    ensures x in Without(blocks, b) <==> x in blocks && x != b
  {
    WithoutKeepsOthers(blocks, b);
    assert x in Without(blocks, b) <==> x in multiset(Without(blocks, b));
    assert x in blocks <==> x in multiset(blocks);
  }

  /** Removal works block by block and keeps the order: splitting the pool
      anywhere, the result is the two results one after the other. */
  lemma {:induction false} WithoutKeepsOrder(front: seq<Block>, back: seq<Block>, b: Block)
    ensures Without(front + back, b) == Without(front, b) + Without(back, b)
    decreases |back|
  {
    if back == [] {
      assert front + back == front;
    } else {
      var last := |back| - 1;
      assert (front + back)[..|front + back| - 1] == front + back[..last];
      WithoutKeepsOrder(front, back[..last], b);
    }
  }

  lemma {:induction false} WithoutAbsent(blocks: seq<Block>, b: Block)
    requires b !in blocks
    ensures Without(blocks, b) == blocks
    decreases |blocks|
  {
    if blocks == [] {
    } else {
      assert blocks == blocks[..|blocks| - 1] + [blocks[|blocks| - 1]];
      WithoutAbsent(blocks[..|blocks| - 1], b);
    }
  }

  lemma {:induction false} RemovalIsIdempotent(blocks: seq<Block>, b: Block)
    ensures Without(Without(blocks, b), b) == Without(blocks, b)
  {
    WithoutMembers(blocks, b, b);
    WithoutAbsent(Without(blocks, b), b);
  }

  /** Adding an absent address and removing it again restores the pool. */
  lemma EnsureThenRemove(blocks: seq<Block>, b: Block)
    requires b !in blocks
    ensures Without(Ensured(blocks, b), b) == blocks
  {
    assert (blocks + [b])[..|blocks|] == blocks;
    WithoutAbsent(blocks, b);
  }

  lemma EnsureKeepsDuplicateFree(blocks: seq<Block>, b: Block)
    requires DuplicateFree(blocks)
    ensures DuplicateFree(Ensured(blocks, b)) && b in Ensured(blocks, b)
    ensures blocks <= Ensured(blocks, b)
  {
    var n := Ensured(blocks, b);
    forall i, j | 0 <= i < j < |n| ensures n[i] != n[j] {
      if j == |blocks| { assert blocks[i] in blocks; }
    }
  }

  // -------------------------------------------------- the operations' loops

  /** The scan-then-append of defaultEnsureIPInPool (:496-506). */
  method AppendIfMissing(blocks: seq<Block>, b: Block) returns (r: seq<Block>, present: bool)
    ensures r == Ensured(blocks, b) && (present <==> b in blocks)
  {
    for i := 0 to |blocks|
      invariant b !in blocks[..i]
    {
      if blocks[i] == b { return blocks, true; }
    }
    assert blocks[..|blocks|] == blocks;
    r, present := blocks + [b], false;
  }

  /** The rebuild loop of defaultRemoveIPFromPool (:563-574). */
  method RebuildWithout(blocks: seq<Block>, b: Block) returns (r: seq<Block>, removed: bool)
    ensures r == Without(blocks, b) && (removed <==> b in blocks)
  {
    r, removed := [], false;
    for i := 0 to |blocks|
      invariant r == Without(blocks[..i], b) && (removed <==> b in blocks[..i])
    {
      assert blocks[..i + 1][..i] == blocks[..i];
      if blocks[i] == b { removed := true; } else { r := r + [blocks[i]]; }
    }
    assert blocks[..|blocks|] == blocks;
  }

  // ------------------------------------------------------- the pool objects

  /** The pools as the two served API versions show them. */
  class Pools {
    var v2: map<string, seq<Block>>
    var v2alpha1: map<string, seq<Block>>

    constructor ()
      ensures v2 == map[] && v2alpha1 == map[]
    {
      v2, v2alpha1 := map[], map[];
    }

    predicate Exists(name: string) reads this { name in v2 || name in v2alpha1 }

    /** The blocks the operator sees: those of v2 when the pool is served there. */
    function Blocks(name: string): seq<Block>
      reads this
      requires Exists(name)
    {
      if name in v2 then v2[name] else v2alpha1[name]
    }

    /** Update of a pool under the version it was read from. */
    method Update(name: string, blocks: seq<Block>, w: WriteResult) returns (ok: bool)
      requires Exists(name)
      modifies this
      ensures v2.Keys == old(v2.Keys) && v2alpha1.Keys == old(v2alpha1.Keys)
      ensures ok == w.Applied?
      ensures Blocks(name) == if w.Rejected? then old(Blocks(name)) else blocks
      ensures forall p :: p != name && old(Exists(p)) ==> Blocks(p) == old(Blocks(p))
    {
      ok := w.Applied?;
      if !w.Rejected? {
        if name in v2 { v2 := v2[name := blocks]; } else { v2alpha1 := v2alpha1[name := blocks]; }
      }
    }

    /** readOk: both reads of the pool were answered; w: what became of the update. */
    method EnsureIPInPool(name: string, ip: string, readOk: bool, w: WriteResult) returns (ok: bool)
      modifies this
      ensures v2.Keys == old(v2.Keys) && v2alpha1.Keys == old(v2alpha1.Keys)
      ensures forall p :: p != name && old(Exists(p)) ==> Blocks(p) == old(Blocks(p))
      ensures ok ==> old(Exists(name)) && Cidr(ip + "/32") in Blocks(name)
      ensures old(Exists(name)) ==>
        Blocks(name) == (if readOk && !w.Rejected? then Ensured(old(Blocks(name)), BlockOf(ip)) else old(Blocks(name)))
      ensures ok <==> readOk && old(Exists(name)) && (BlockOf(ip) in old(Blocks(name)) || w.Applied?)
    {
      if !readOk || !Exists(name) { return false; }
      var blocks, present := AppendIfMissing(Blocks(name), BlockOf(ip));
      if present { return true; }
      ok := Update(name, blocks, w);
    }

    method RemoveIPFromPool(name: string, ip: string, readOk: bool, w: WriteResult) returns (ok: bool)
      modifies this
      ensures v2.Keys == old(v2.Keys) && v2alpha1.Keys == old(v2alpha1.Keys)
      ensures forall p :: p != name && old(Exists(p)) ==> Blocks(p) == old(Blocks(p))
      ensures ok && ip != "" && old(Exists(name)) ==> Cidr(ip + "/32") !in Blocks(name)
      ensures old(Exists(name)) ==>
        Blocks(name) == (if ip != "" && readOk && !w.Rejected? then Without(old(Blocks(name)), BlockOf(ip))
            else old(Blocks(name)))
      ensures ok <==> ip == "" || (readOk && (old(Exists(name)) && BlockOf(ip) in old(Blocks(name)) ==> w.Applied?))
    {
      if ip == "" { return true; }
      if !readOk { return false; }
      if !Exists(name) { return true; }
      var blocks, removed := RebuildWithout(Blocks(name), BlockOf(ip));
      WithoutMembers(Blocks(name), BlockOf(ip), BlockOf(ip));
      if !removed {
        WithoutAbsent(Blocks(name), BlockOf(ip));
        return true;
      }
      ok := Update(name, blocks, w);
    }
  }
}
