/** The mutable control-flow graph of one function (src/ir/cfg.cpp). */
module ControlFlowGraph {
  import opened ExprLowering
  import opened StmtLowering
  import opened Cfg
  import Ir

  class FlowGraph {
    var blocks: seq<BasicBlock>

    constructor ()
      ensures blocks == []
    {
      blocks := [];
    }

    /** The block with the given id, if there is one. */
    method GetBlock(id: int) returns (b: Option<BasicBlock>)
      ensures b == if 0 <= id < |blocks| then Some(blocks[id]) else None
    {
      if 0 <= id < |blocks| {
        return Some(blocks[id]);
      }
      return None;
    }

    method AddBlock() returns (id: int)
      modifies this
      ensures id == |old(blocks)| && blocks == old(blocks) + [Unlinked([])]
    {
      id := |blocks|;
      blocks := blocks + [Unlinked([])];
    }

    /** Add a step to the newest block. */
    method Append(step: Ir.Step)
      requires blocks != []
      modifies this
      ensures |blocks| == |old(blocks)| && blocks[..|blocks| - 1] == old(blocks)[..|blocks| - 1]
      ensures blocks[|blocks| - 1] == old(blocks[|blocks| - 1].(steps := blocks[|blocks| - 1].steps + [step]))
    {
      var last := |blocks| - 1;
      blocks := blocks[last := blocks[last].(steps := blocks[last].steps + [step])];
    }

    /** Fill the first free successor slot of an existing block; a third link is dropped. */
    method LinkTo(from: int, to: int)
      requires 0 <= from < |blocks|
      modifies this
      ensures Some(blocks) == LinkBlocks(old(blocks), Link(from, to))
      ensures forall k | 0 <= k < |blocks| && k != from :: blocks[k] == old(blocks[k])
      ensures Orderly(old(blocks[from])) && to != DUD_BLOCK ==>
                Successors(blocks[from]) == FirstTwo(old(Successors(blocks[from])) + [to])
    {
      var b := blocks[from];
      if b.truthy == DUD_BLOCK {
        blocks := blocks[from := b.(truthy := to)];
      } else if b.falsy == DUD_BLOCK {
        blocks := blocks[from := b.(falsy := to)];
      }
      assert blocks == old(blocks)[from := AddLink(b, to)];
    }
  }
}
