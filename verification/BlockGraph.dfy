/** The shape of the control-flow graph that structured statements lower to: how many
    blocks they add and which links they queue, in queue order. */
module BlockGraph {
  import opened Syntax
  import opened StmtLowering

  /** Blocks added after the current one. */
  function NewBlocks(s: Stmt): nat {
    match s
    case If(_, thn, els) => BlocksIn(thn) + 2 + (if els.Else? then BlocksIn(els.body) + 1 else 0)
    case While(_, body) => BlocksIn(body) + 2
    case _ => 0
  }

  function BlocksIn(ss: seq<Stmt>): nat {
    if ss == [] then 0 else NewBlocks(ss[0]) + BlocksIn(ss[1..])
  }

  /** Links queued by a statement met while block `here` is the newest. */
  function LinksOf(s: Stmt, here: int): seq<Link> {
    match s
    case If(_, thn, els) =>
      var t := here + 1;
      if els.Else? then
        var f := t + BlocksIn(thn) + 1;
        var post := f + BlocksIn(els.body) + 1;
        LinksIn(thn, t) + [Link(here, t)] + LinksIn(els.body, f) + [Link(here, f), Link(f, post)]
      else
        var post := t + BlocksIn(thn) + 1;
        LinksIn(thn, t) + [Link(here, t), Link(t, post), Link(here, post)]
    case While(_, body) =>
      var b := here + 1;
      var post := b + BlocksIn(body) + 1;
      LinksIn(body, b) + [Link(b, here), Link(here, b), Link(here, post)]
    case _ => []
  }

  function LinksIn(ss: seq<Stmt>, here: int): seq<Link> {
    if ss == [] then [] else LinksOf(ss[0], here) + LinksIn(ss[1..], here + NewBlocks(ss[0]))
  }
}
