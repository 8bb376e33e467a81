/** Over every run of any blocks, the tables but for the outputs are those that the surviving blocks left. */
module ChainRestore {
  import opened ChainTables
  import opened Histories
  import opened ChainSpec
  import opened ChainInverse
  import opened BlockInverse
  import opened ChainRuns

  /** The tables in which each surviving block was added. */
  ghost function Befores(h: Hashes, ops: seq<Op>): (ts: seq<Tables>)
    ensures |ts| == |Surviving(h, ops)|
  {
    if ops == [] then [] else
      var init := ops[..|ops| - 1];
      var ts := Befores(h, init);
      match ops[|ops| - 1]
      case Add(a) => if AddBlock(h, Run(h, init), a).Done? then ts + [Run(h, init)] else ts
      case Pop => if PopBlock(h, Run(h, init)).Done? && ts != [] then ts[..|ts| - 1] else ts
  }

  ghost function AddTo(h: Hashes): (Tables, Addition) -> Outcome<Tables>
  {
    (t: Tables, a: Addition) => AddBlock(h, t, a)
  }

  function PopFrom(h: Hashes): Tables -> Outcome<(Tables, (Block, seq<Transaction>))>
  {
    (t: Tables) =>
      match PopBlock(h, t)
      case Thrown(f) => Thrown(f)
      case Done(p) => Done((p.tables, (p.blk, p.txs)))
  }

  function Returns(): Addition -> (Block, seq<Transaction>)
  {
    (a: Addition) => (a.blk, Reversed(a.txs))
  }

  /** Each block was added to its tables; but for the outputs, those after it are the tables of the next block or,
      after the last one, `t`. */
  ghost predicate LeftBy(h: Hashes, t: Tables, blocks: seq<Addition>, befores: seq<Tables>)
  {
    Tracked(AddTo(h), Matching(h), Rest, EMPTY, t, blocks, befores)
  }

  lemma {:induction false} PopTakesBack(h: Hashes)
    ensures TakesBack(PopFrom(h), Returns(), AddTo(h), Matching(h), Rest)
  {
    var pop, add := PopFrom(h), AddTo(h);
    forall t: Tables, a: Addition, other: Tables |
        CommitmentsMatch(h, t) && add(t, a).Done? && Rest(other) == Rest(add(t, a).value) && pop(other).Done?
      ensures Rest(pop(other).value.0) == Rest(t) && pop(other).value.1 == (a.blk, Reversed(a.txs))
    {
      PopRestoresRest(h, t, a, add(t, a).value, other, PopBlock(h, other).value);
    }
  }

  lemma {:induction false} PopLeftBy(h: Hashes, t: Tables, blocks: seq<Addition>, befores: seq<Tables>, p: Popped)
    requires LeftBy(h, t, blocks, befores) && blocks != [] && PopBlock(h, t) == Done(p)
    ensures var n := |blocks| - 1;
            && |befores| == |blocks| && p.blk == blocks[n].blk && p.txs == Reversed(blocks[n].txs)
            && LeftBy(h, p.tables, blocks[..n], befores[..n])
  {
    PopTakesBack(h);
    TrackedPop(PopFrom(h), Returns(), AddTo(h), Matching(h), Rest, EMPTY, t, blocks, befores);
  }

  lemma {:induction false} NothingToPop(h: Hashes, t: Tables, befores: seq<Tables>)
    requires LeftBy(h, t, [], befores)
    ensures PopBlock(h, t).Thrown?
  {
    assert t.chain == Rest(t).chain == [];
  }

  lemma {:induction false} AddLeftBy(h: Hashes, t: Tables, a: Addition, t': Tables, blocks: seq<Addition>,
                                     befores: seq<Tables>)
    requires LeftBy(h, t, blocks, befores) && CommitmentsMatch(h, t) && AddBlock(h, t, a) == Done(t')
    ensures LeftBy(h, t', blocks + [a], befores + [t])
  {
    TrackedPush(AddTo(h), Matching(h), Rest, EMPTY, t, a, t', blocks, befores);
  }

  /** Over every run, of any blocks whatever, the tables but for the outputs are those that the surviving blocks
      left. */
  lemma {:induction false} RunLeftBy(h: Hashes, ops: seq<Op>)
    ensures LeftBy(h, Run(h, ops), Surviving(h, ops), Befores(h, ops))
  {
    if ops != [] {
      var init := ops[..|ops| - 1];
      var t, blocks, befores := Run(h, init), Surviving(h, init), Befores(h, init);
      RunLeftBy(h, init);
      CommitmentsAlwaysMatch(h, init);
      match ops[|ops| - 1] {
        case Add(a) => if AddBlock(h, t, a).Done? { AddLeftBy(h, t, a, AddBlock(h, t, a).value, blocks, befores); }
        case Pop => if PopBlock(h, t).Done? {
            if blocks == [] {
              NothingToPop(h, t, befores);
            } else {
              PopLeftBy(h, t, blocks, befores, PopBlock(h, t).value);
            }
          }
      }
    }
  }

  /** Over every run, of any blocks whatever, a pop that succeeds returns the last surviving block and its transactions
      reversed, and there is one. */
  lemma {:induction false} PopReturnsSurvivor(h: Hashes, ops: seq<Op>, p: Popped)
    requires PopBlock(h, Run(h, ops)) == Done(p)
    ensures var blocks := Surviving(h, ops);
            blocks != [] && p.blk == blocks[|blocks| - 1].blk && p.txs == Reversed(blocks[|blocks| - 1].txs)
  {
    var blocks, befores := Surviving(h, ops), Befores(h, ops);
    RunLeftBy(h, ops);
    if blocks == [] { NothingToPop(h, Run(h, ops), befores); } else { PopLeftBy(h, Run(h, ops), blocks, befores, p); }
  }
}
