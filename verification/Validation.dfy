/** Continuity verdicts: does a notification connect to what the snapshot stands on. */
module Validation {
  import opened Types
  import opened Chains

  datatype CurrentState = CurrentState(block: nat, blockHash: B256, stale: bool)
  {
    predicate IsInitial() {
      block == 0 || blockHash == ZERO_HASH
    }
  }

  datatype CommitValidation = CommitValid | CommitAcceptAny | Gap(expected: nat, got: nat) | OverlapMismatch
  {
    predicate IsAcceptable() {
      CommitValid? || CommitAcceptAny?
    }
  }

  datatype ReorgValidation = ReorgValid | ReorgAcceptAny | Mismatch
  {
    predicate IsAcceptable() {
      ReorgValid? || ReorgAcceptAny?
    }
  }

  /** The scan over a chain's blocks for the current block, by number and hash. */
  predicate Contains(blocks: seq<Block>, block: nat, hash: B256) {
    exists i :: 0 <= i < |blocks| && blocks[i].number == block && blocks[i].hash == hash
  }

  function ValidateChainCommitted(current: CurrentState, first: Block, blocks: seq<Block>): CommitValidation {
    if current.IsInitial() || current.stale then CommitAcceptAny
    else if first.number == current.block + 1 && first.parentHash == current.blockHash then CommitValid
    else if first.number <= current.block then
      if Contains(blocks, current.block, current.blockHash) then CommitValid else OverlapMismatch
    else Gap(current.block + 1, first.number)
  }

  function ValidateChainReorged(current: CurrentState, oldTip: Block, oldBlocks: seq<Block>): ReorgValidation {
    if current.IsInitial() then ReorgAcceptAny
    else if oldTip.hash == current.blockHash then ReorgValid
    else if Contains(oldBlocks, current.block, current.blockHash) then ReorgValid
    else Mismatch
  }

  ghost predicate Member(blocks: seq<Block>, hash: B256) {
    exists i :: 0 <= i < |blocks| && blocks[i].hash == hash
  }

  /** A snapshot position that names a real block. */
  ghost predicate Placed(node: Node, current: CurrentState) {
    current.blockHash != ZERO_HASH && current.block == Number(node, current.blockHash) && current.block > 0
  }

  lemma MemberIsContained(node: Node, current: CurrentState, blocks: seq<Block>)
    requires WellFormed(node) && Linked(node, blocks) && Placed(node, current)
    ensures Member(blocks, current.blockHash) <==> Contains(blocks, current.block, current.blockHash)
  {
    if i :| 0 <= i < |blocks| && blocks[i].hash == current.blockHash {
      assert blocks[i] == node.block(blocks[i].hash);
      assert blocks[i].number == current.block;
    }
  }

  /** On a live position a linked chain is accepted exactly when the current block is the parent of its
      first block or one of its blocks, and then the new tip is the current block or descends from it. */
  lemma CommitAcceptedIffConnected(node: Node, current: CurrentState, chain: Chain)
    requires WellFormed(node) && Linked(node, chain.blocks) && Placed(node, current) && !current.stale
    ensures ValidateChainCommitted(current, First(chain), chain.blocks).IsAcceptable()
            <==> First(chain).parentHash == current.blockHash || Member(chain.blocks, current.blockHash)
    ensures ValidateChainCommitted(current, First(chain), chain.blocks).IsAcceptable()
            ==> Descends(node, Tip(chain).hash, current.blockHash)
  {
    var blocks := chain.blocks;
    MemberIsContained(node, current, blocks);
    LinkedRoot(node, blocks, |blocks| - 1);
    if i :| 0 <= i < |blocks| && blocks[i].hash == current.blockHash {
      LinkedNumbers(node, blocks, i);
      LinkedMember(node, blocks, current.blockHash, i);
    }
  }

  /** A live position off the chain is told apart: an overlap that misses, or a hole with its bounds. */
  lemma CommitRefusalNamesTheHole(node: Node, current: CurrentState, chain: Chain)
    requires WellFormed(node) && Linked(node, chain.blocks) && Placed(node, current) && !current.stale
    requires !(First(chain).parentHash == current.blockHash || Member(chain.blocks, current.blockHash))
    ensures ValidateChainCommitted(current, First(chain), chain.blocks)
            == (if First(chain).number <= current.block then OverlapMismatch
                else Gap(current.block + 1, First(chain).number))
  {
    CommitAcceptedIffConnected(node, current, chain);
  }

  /** A reorg is accepted exactly when the current block is on the old chain. Then the block below the
      old chain is an ancestor of the current block, and of the new tip when the new chain forks there. */
  lemma ReorgAcceptedIffOnOldChain(node: Node, current: CurrentState, old_: Chain, new_: Chain)
    requires WellFormed(node) && Linked(node, old_.blocks) && Linked(node, new_.blocks) && Placed(node, current)
    ensures ValidateChainReorged(current, Tip(old_), old_.blocks).IsAcceptable()
            <==> Member(old_.blocks, current.blockHash)
    ensures ValidateChainReorged(current, Tip(old_), old_.blocks).IsAcceptable() ==>
              && Number(node, First(old_).parentHash) == First(old_).number - 1
              && Descends(node, current.blockHash, First(old_).parentHash)
              && (First(new_).parentHash == First(old_).parentHash
                  ==> Descends(node, Tip(new_).hash, First(old_).parentHash))
  {
    MemberIsContained(node, current, old_.blocks);
    LinkedRoot(node, new_.blocks, |new_.blocks| - 1);
    if Tip(old_).hash == current.blockHash {
      assert old_.blocks[|old_.blocks| - 1].hash == current.blockHash;
    }
    if i :| 0 <= i < |old_.blocks| && old_.blocks[i].hash == current.blockHash {
      LinkedRoot(node, old_.blocks, i);
    }
  }
}
