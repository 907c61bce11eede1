/** Basic blocks and their links (src/ir/cfg.cpp). A block has room for two successors. */
module Cfg {
  import opened ExprLowering
  import opened StmtLowering
  import Ir

  const DUD_BLOCK := -1

  datatype BasicBlock = BasicBlock(steps: seq<Ir.Step>, truthy: int, falsy: int)

  function Unlinked(steps: seq<Ir.Step>): BasicBlock {
    BasicBlock(steps, DUD_BLOCK, DUD_BLOCK)
  }

  /** The first link of a block becomes its truthy successor, the second its falsy one, any
      further link is dropped. */
  function AddLink(b: BasicBlock, to: int): BasicBlock {
    if b.truthy == DUD_BLOCK then b.(truthy := to)
    else if b.falsy == DUD_BLOCK then b.(falsy := to)
    else b
  }

  /** Linking from a block that does not exist has no defined effect. */
  function LinkBlocks(blocks: seq<BasicBlock>, link: Link): Option<seq<BasicBlock>> {
    if 0 <= link.from < |blocks| then Some(blocks[link.from := AddLink(blocks[link.from], link.to)]) else None
  }

  function ApplyLinks(blocks: seq<BasicBlock>, links: seq<Link>): Option<seq<BasicBlock>>
    decreases |links|
  {
    if links == [] then Some(blocks)
    else
      match LinkBlocks(blocks, links[0])
      case None => None
      case Some(bs) => ApplyLinks(bs, links[1..])
  }

  /** Targets of the links that leave a block, in queue order. */
  function Targets(links: seq<Link>, from: int): seq<int> {
    if links == [] then []
    else (if links[0].from == from then [links[0].to] else []) + Targets(links[1..], from)
  }

  lemma {:induction false} TargetsAppend(a: seq<Link>, b: seq<Link>, from: int)
    ensures Targets(a + b, from) == Targets(a, from) + Targets(b, from)
  {
    if a == [] {
      assert a + b == b;
    } else {
      TargetsAppend(a[1..], b, from);
      assert (a + b)[1..] == a[1..] + b;
    }
  }

  /** Successors a block keeps of those offered. */
  function FirstTwo(targets: seq<int>): seq<int> {
    if |targets| <= 2 then targets else targets[..2]
  }

  /** Successors of a block, truthy first. */
  function Successors(b: BasicBlock): seq<int> {
    (if b.truthy == DUD_BLOCK then [] else [b.truthy]) + (if b.falsy == DUD_BLOCK then [] else [b.falsy])
  }

  ghost predicate LinksValid(links: seq<Link>, count: int) {
    forall i | 0 <= i < |links| :: 0 <= links[i].from < count && links[i].to != DUD_BLOCK
  }

  /** Slots are filled in order. */
  ghost predicate Orderly(b: BasicBlock) {
    b.truthy == DUD_BLOCK ==> b.falsy == DUD_BLOCK
  }

  /** Every block ends up with the first two targets queued for it; its steps are untouched. */
  lemma {:induction false} ApplyLinksFacts(blocks: seq<BasicBlock>, links: seq<Link>)
    requires LinksValid(links, |blocks|) && forall k | 0 <= k < |blocks| :: Orderly(blocks[k])
    ensures ApplyLinks(blocks, links).Some?
    ensures var r := ApplyLinks(blocks, links).value;
            && |r| == |blocks|
            && forall k | 0 <= k < |r| ::
                 r[k].steps == blocks[k].steps
                 && Successors(r[k]) == FirstTwo(Successors(blocks[k]) + Targets(links, k))
    decreases |links|
  {
    if links != [] {
      var link := links[0];
      var next := blocks[link.from := AddLink(blocks[link.from], link.to)];
      assert forall i | 0 <= i < |links[1..]| :: links[1..][i] == links[i + 1];
      ApplyLinksFacts(next, links[1..]);
      var r := ApplyLinks(blocks, links).value;
      forall k | 0 <= k < |r|
        ensures r[k].steps == blocks[k].steps && Successors(r[k]) == FirstTwo(Successors(blocks[k]) + Targets(links, k))
      {
        if k == link.from {
          AddLinkKeeps(blocks[k], link.to, Targets(links[1..], k));
        } else {
          assert [] + Targets(links[1..], k) == Targets(links[1..], k);
        }
      }
    }
  }

  lemma AddLinkKeeps(b: BasicBlock, to: int, rest: seq<int>)
    requires Orderly(b) && to != DUD_BLOCK
    ensures Orderly(AddLink(b, to))
    ensures FirstTwo(Successors(AddLink(b, to)) + rest) == FirstTwo(Successors(b) + ([to] + rest))
  {
    assert Successors(b) + ([to] + rest) == Successors(b) + [to] + rest;
    var l, r := FirstTwo(Successors(AddLink(b, to)) + rest), FirstTwo(Successors(b) + [to] + rest);
    assert |l| == |r| && forall i | 0 <= i < |l| :: l[i] == r[i];
  }
}
