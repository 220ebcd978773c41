/** Allocation tables, and which inode owns which data block. */
module Inodes {
  import opened Counting

  datatype Kind = File | Directory
  datatype Inode = Inode(kind: Kind, size: nat, block: int)

  /** The first FREE slot of an allocation table, or -1. */
  function FirstFree(taken: seq<bool>): (r: int)
    ensures r == -1 ==> forall i :: 0 <= i < |taken| ==> taken[i]
    ensures r != -1 ==> 0 <= r < |taken| && !taken[r] && forall i :: 0 <= i < r ==> taken[i]
  {
    if taken == [] then -1
    else if !taken[0] then 0
    else
      var r := FirstFree(taken[1..]);
      if r == -1 then -1 else r + 1
  }

  ghost function TakenSet(taken: seq<bool>): set<int> {
    set i | 0 <= i < |taken| && taken[i]
  }

  /** A table has no FREE slot iff it has as many TAKEN ones as slots. */
  lemma FullTable(taken: seq<bool>)
    ensures |TakenSet(taken)| <= |taken|
    ensures FirstFree(taken) == -1 <==> |TakenSet(taken)| == |taken|
  {
    FillsRange(TakenSet(taken), |taken|);
    var i := FirstFree(taken);
    if i != -1 {
      assert i in Range(|taken|) && i !in TakenSet(taken);
    }
  }

  /** A TAKEN inode with a non-zero size, which therefore has a data block. */
  predicate HasBlock(inodes: seq<Inode>, taken: seq<bool>, i: int)
    requires |inodes| == |taken|
  {
    0 <= i < |inodes| && taken[i] && inodes[i].size > 0
  }

  predicate Owns(inodes: seq<Inode>, taken: seq<bool>, i: int, b: int)
    requires |inodes| == |taken|
  {
    HasBlock(inodes, taken, i) && inodes[i].block == b
  }

  /** A block is TAKEN iff exactly one TAKEN non-empty inode owns it. */
  ghost predicate BlockMap(inodes: seq<Inode>, taken: seq<bool>, blocks: seq<bool>, blockSize: nat) {
    && |inodes| == |taken|
    && (forall i :: 0 <= i < |inodes| && taken[i] ==> inodes[i].size <= blockSize)
    && (forall i :: HasBlock(inodes, taken, i) ==> 0 <= inodes[i].block < |blocks| && blocks[inodes[i].block])
    && (forall i, j :: HasBlock(inodes, taken, i) && HasBlock(inodes, taken, j) && inodes[i].block == inodes[j].block
          ==> i == j)
    && (forall b :: 0 <= b < |blocks| && blocks[b] ==> exists i :: Owns(inodes, taken, i, b))
  }

  /** Only inode `i` differs between two inode tables. */
  ghost predicate SameBut(inodes: seq<Inode>, taken: seq<bool>, inodes': seq<Inode>, taken': seq<bool>, i: int) {
    && |inodes| == |taken| == |inodes'| == |taken'|
    && 0 <= i < |inodes|
    && inodes' == inodes[i := inodes'[i]]
    && taken' == taken[i := taken'[i]]
  }

  /** Deletion and truncation: the inode gives up its block. */
  lemma BlockReleased(inodes: seq<Inode>, taken: seq<bool>, blocks: seq<bool>, size: nat,
                      inodes': seq<Inode>, taken': seq<bool>, i: int)
    requires BlockMap(inodes, taken, blocks, size) && SameBut(inodes, taken, inodes', taken', i)
    requires HasBlock(inodes, taken, i) && (taken'[i] ==> inodes'[i].size == 0)
    ensures BlockMap(inodes', taken', blocks[inodes[i].block := false], size)
  {
    var blocks' := blocks[inodes[i].block := false];
    forall j | HasBlock(inodes', taken', j) ensures HasBlock(inodes, taken, j) && inodes'[j] == inodes[j] && j != i {}
    forall b | 0 <= b < |blocks'| && blocks'[b] ensures exists j :: Owns(inodes', taken', j, b) {
      var j :| Owns(inodes, taken, j, b);
      assert Owns(inodes', taken', j, b);
    }
  }

  /** The inode changes, but owns the same block before and after, or none either time. */
  lemma BlockKept(inodes: seq<Inode>, taken: seq<bool>, blocks: seq<bool>, size: nat,
                  inodes': seq<Inode>, taken': seq<bool>, i: int)
    requires BlockMap(inodes, taken, blocks, size) && SameBut(inodes, taken, inodes', taken', i)
    requires HasBlock(inodes, taken, i) == HasBlock(inodes', taken', i)
    requires HasBlock(inodes, taken, i) ==> inodes'[i].block == inodes[i].block && inodes'[i].size <= size
    ensures BlockMap(inodes', taken', blocks, size)
  {
    forall j | 0 <= j < |inodes|
      ensures HasBlock(inodes', taken', j) == HasBlock(inodes, taken, j)
      ensures HasBlock(inodes, taken, j) ==> inodes'[j].block == inodes[j].block
    {}
    forall b | 0 <= b < |blocks| && blocks[b] ensures exists j :: Owns(inodes', taken', j, b) {
      var j :| Owns(inodes, taken, j, b);
      assert Owns(inodes', taken', j, b);
    }
  }

  /** First write to an empty file: the inode gets a block nobody had. */
  lemma BlockGained(inodes: seq<Inode>, taken: seq<bool>, blocks: seq<bool>, size: nat,
                    inodes': seq<Inode>, i: int, b: int)
    requires BlockMap(inodes, taken, blocks, size) && SameBut(inodes, taken, inodes', taken, i)
    requires !HasBlock(inodes, taken, i) && Owns(inodes', taken, i, b) && inodes'[i].size <= size
    requires 0 <= b < |blocks| && !blocks[b]
    ensures BlockMap(inodes', taken, blocks[b := true], size)
  {
    forall j | HasBlock(inodes', taken, j) && j != i
      ensures HasBlock(inodes, taken, j) && inodes'[j] == inodes[j] && inodes[j].block != b
    {}
    var blocks' := blocks[b := true];
    forall c | 0 <= c < |blocks'| && blocks'[c] ensures exists j :: Owns(inodes', taken, j, c) {
      if c == b {
        assert Owns(inodes', taken, i, c);
      } else {
        var j :| Owns(inodes, taken, j, c);
        assert Owns(inodes', taken, j, c);
      }
    }
  }

  ghost function Owners(inodes: seq<Inode>, taken: seq<bool>): set<int>
    requires |inodes| == |taken|
  {
    set i | 0 <= i < |inodes| && HasBlock(inodes, taken, i)
  }

  /** No leak, no sharing: as many TAKEN blocks as non-empty TAKEN inodes. */
  lemma BlocksInUse(inodes: seq<Inode>, taken: seq<bool>, blocks: seq<bool>, size: nat)
    requires BlockMap(inodes, taken, blocks, size)
    ensures |TakenSet(blocks)| == |Owners(inodes, taken)|
  {
    var blockOf := map i | i in Owners(inodes, taken) :: inodes[i].block;
    assert blockOf.Keys == Owners(inodes, taken);
    forall b | b in TakenSet(blocks) ensures b in blockOf.Values {
      var i :| Owns(inodes, taken, i, b);
      assert i in blockOf;
    }
    assert blockOf.Values == TakenSet(blocks);
    InjectiveSize(blockOf);
  }
}
