/** Blocks, the chains a notification carries, and the full node that answers for every block. */
module Chains {
  import opened Types

  datatype Block = Block(
    number: nat,
    hash: B256,
    parentHash: B256,
    header: Header,
    withdrawals: Option<Withdrawals>,
    receipts: seq<Receipt>,
    txHashes: seq<B256>)

  datatype BundleAccount = BundleAccount(info: Option<AccountInfo>, storage: map<U256, U256>)

  type BundleState = map<Address, BundleAccount>

  /** The execution outcome of a chain: present values of what it touched, and the code it created. */
  datatype Bundle = Bundle(state: BundleState, contracts: map<B256, Bytecode>)

  datatype RawChain = RawChain(blocks: seq<Block>, outcome: Bundle)

  /** A chain has at least one block; the source's `tip` and `first` panic on an empty one. */
  type Chain = c: RawChain | c.blocks != []
    witness RawChain([Block(1, 1, 1, Header(0), None, [], [])], Bundle(map[], map[]))

  function First(c: Chain): Block { c.blocks[0] }

  function Tip(c: Chain): Block { c.blocks[|c.blocks| - 1] }

  datatype Notification =
    | ChainCommitted(committed: Chain)
    | ChainReorged(old_: Chain, new_: Chain)
    | ChainReverted(reverted: Chain)

  // ---------------------------------------------------------------------------------------------
  // The full node

  /** What an archive of every block would answer, by block hash. */
  datatype Node = Node(
    block: B256 -> Block,
    account: (B256, Address) -> AccountInfo,
    slot: (B256, Address, U256) -> U256,
    keccak: Bytecode -> B256)

  /** The account an address has when nothing lives there. */
  function Vacant(node: Node): AccountInfo {
    AccountInfo(0, 0, node.keccak([]))
  }

  function Number(node: Node, h: B256): nat {
    node.block(h).number
  }

  function Parent(node: Node, h: B256): B256 {
    node.block(h).parentHash
  }

  /** Hashes identify blocks, and a block's number is one more than its parent's. */
  ghost predicate WellFormed(node: Node) {
    forall h: B256 :: && node.block(h).hash == h
                      && (Number(node, h) > 0 ==> Number(node, Parent(node, h)) == Number(node, h) - 1)
  }

  /** The ancestor of `h` at height `n`. */
  ghost function Ancestor(node: Node, h: B256, n: nat): (a: B256)
    requires WellFormed(node) && n <= Number(node, h)
    ensures Number(node, a) == n
    decreases Number(node, h)
  {
    if Number(node, h) == n then h else Ancestor(node, Parent(node, h), n)
  }

  ghost predicate Descends(node: Node, h: B256, a: B256)
    requires WellFormed(node)
  {
    Number(node, a) <= Number(node, h) && Ancestor(node, h, Number(node, a)) == a
  }

  /** Ancestors of an ancestor are ancestors. */
  lemma {:induction false} AncestorOfAncestor(node: Node, h: B256, m: nat, n: nat)
    requires WellFormed(node) && n <= m <= Number(node, h)
    ensures Ancestor(node, Ancestor(node, h, m), n) == Ancestor(node, h, n)
    decreases Number(node, h)
  {
    if Number(node, h) == m {
    } else {
      AncestorOfAncestor(node, Parent(node, h), m, n);
    }
  }

  // ---------------------------------------------------------------------------------------------
  // Chains of the node

  /** Consecutive real blocks, each the child of the one before; genesis is never in a notification. */
  ghost predicate Linked(node: Node, blocks: seq<Block>) {
    && (forall i :: 0 <= i < |blocks| ==> blocks[i] == node.block(blocks[i].hash)
                                          && blocks[i].number > 0 && blocks[i].hash != ZERO_HASH)
    && (forall i :: 0 < i < |blocks| ==> blocks[i].parentHash == blocks[i - 1].hash)
  }

  lemma {:induction false} LinkedNumbers(node: Node, blocks: seq<Block>, i: nat)
    requires WellFormed(node) && Linked(node, blocks) && i < |blocks|
    ensures blocks[i].number == blocks[0].number + i
  {
    if i == 0 {
    } else {
      LinkedNumbers(node, blocks, i - 1);
      assert Parent(node, blocks[i].hash) == blocks[i - 1].hash;
      assert Number(node, blocks[i].hash) == Number(node, blocks[i - 1].hash) + 1;
    }
  }

  /** Every block of a linked chain is an ancestor of its tip. */
  lemma {:induction false} LinkedAncestors(node: Node, blocks: seq<Block>, i: nat, j: nat)
    requires WellFormed(node) && Linked(node, blocks) && i <= j < |blocks|
    ensures blocks[i].number <= blocks[j].number && Ancestor(node, blocks[j].hash, blocks[i].number) == blocks[i].hash
    decreases j
  {
    LinkedNumbers(node, blocks, i);
    LinkedNumbers(node, blocks, j);
    if i == j {
    } else {
      LinkedAncestors(node, blocks, i, j - 1);
      assert blocks[j].parentHash == blocks[j - 1].hash;
    }
  }

  /** And so is the parent of its first block. */
  lemma LinkedRoot(node: Node, blocks: seq<Block>, j: nat)
    requires WellFormed(node) && Linked(node, blocks) && j < |blocks|
    ensures Descends(node, blocks[j].hash, blocks[0].parentHash)
    ensures Number(node, blocks[0].parentHash) == blocks[0].number - 1
  {
    LinkedAncestors(node, blocks, 0, j);
    var n := blocks[0].number - 1;
    assert Number(node, blocks[0].hash) == n + 1;
    AncestorOfAncestor(node, blocks[j].hash, blocks[0].number, n);
    assert Ancestor(node, blocks[0].hash, n) == Ancestor(node, blocks[0].parentHash, n) == blocks[0].parentHash;
  }

  lemma LinkedMember(node: Node, blocks: seq<Block>, h: B256, i: nat)
    requires WellFormed(node) && Linked(node, blocks) && i < |blocks| && blocks[i].hash == h
    ensures Descends(node, blocks[|blocks| - 1].hash, h)
  {
    LinkedAncestors(node, blocks, i, |blocks| - 1);
  }
}
