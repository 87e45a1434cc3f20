/** Where the ingredients are at every stage, and how each accepted command moves them. */
module EveningLedger {
  import opened Basics
  import opened EveningCheckpoint
  import opened EveningReducer
  import opened EveningScript
  import opened EveningTheorems
  import opened EveningRuns

  /** Units of `id` the active order has used at stage `s`. */
  function InHand(d: Definition, s: Stage, id: string): nat
    requires InScript(d, s)
  {
    match s
    case Perform(o, k) => Uses(d.orders[o].steps[..k], id)
    case Present => Uses(d.orders[0].steps, id)
    case Plate(o) => Uses(d.orders[o].steps, id)
    case Serve(o) => Uses(d.orders[o].steps, id)
    case _ => 0
  }

  /** Counting uses is counting the steps that name the component. */
  lemma {:induction false} UsesMeans(steps: seq<EveningCheckpoint.Step>, id: string)
    ensures Uses(steps, id) == |set i | 0 <= i < |steps| && steps[i].componentRef == Some(id)|
  {
    var all := set i | 0 <= i < |steps| && steps[i].componentRef == Some(id);
    if steps != [] {
      var n := |steps| - 1;
      var front := steps[..n];
      UsesMeans(front, id);
      var fewer := set i | 0 <= i < n && front[i].componentRef == Some(id);
      assert all == if steps[n].componentRef == Some(id) then fewer + {n} else fewer;
    }
  }

  /** What row `i` of stage `s` adds, and to which bucket. */
  lemma RowUse(d: Definition, s: Stage, id: string, i: nat)
    requires InScript(d, s) && i < |d.orders|
    ensures var row := RowAt(d, s, i);
      && 0 <= row.stepIndex <= |d.orders[i].steps|
      && (i < ActiveAt(d, s) ==> BucketOf(row.state) == InServed && Uses(StepsDone(d.orders[i], row), id) == Uses(d.orders[i].steps, id))
      && (i == ActiveAt(d, s) ==> BucketOf(row.state) == InPlaced && Uses(StepsDone(d.orders[i], row), id) == InHand(d, s, id))
      && (i > ActiveAt(d, s) ==> BucketOf(row.state) == InPlaced && Uses(StepsDone(d.orders[i], row), id) == 0)
  {
    var steps := d.orders[i].steps;
    assert steps[..|steps|] == steps && steps[..0] == [];
  }

  /** One more order and its row. */
  lemma UsedNext(defs: seq<OrderDef>, rows: seq<OrderRow>, id: string, b: Bucket, i: nat)
    requires i < |defs| && i < |rows| && RowsFit(defs[..i], rows[..i]) && 0 <= rows[i].stepIndex <= |defs[i].steps|
    ensures RowsFit(defs[..i + 1], rows[..i + 1])
    ensures Used(defs[..i + 1], rows[..i + 1], id, b) ==
      Used(defs[..i], rows[..i], id, b) + if BucketOf(rows[i].state) == b then Uses(StepsDone(defs[i], rows[i]), id) else 0
  {
    assert defs[..i + 1][..i] == defs[..i] && rows[..i + 1][..i] == rows[..i];
    hide Uses;
  }

  lemma TotalNext(defs: seq<OrderDef>, id: string, i: nat)
    requires i < |defs|
    ensures Total(defs[..i + 1], id) == Total(defs[..i], id) + Uses(defs[i].steps, id)
  {
    assert defs[..i + 1][..i] == defs[..i];
    hide Uses;
  }

  lemma {:induction false} StagePrefix(d: Definition, s: Stage, id: string, m: nat)
    requires InScript(d, s) && m <= |d.orders|
    ensures RowsFit(d.orders[..m], RowsAt(d, s)[..m])
    ensures Used(d.orders[..m], RowsAt(d, s)[..m], id, InDiscarded) == 0
    ensures Used(d.orders[..m], RowsAt(d, s)[..m], id, InServed) == Total(d.orders[..if m < ActiveAt(d, s) then m else ActiveAt(d, s)], id)
    ensures Used(d.orders[..m], RowsAt(d, s)[..m], id, InPlaced) == if ActiveAt(d, s) < m then InHand(d, s, id) else 0
  {
    if m > 0 {
      var i := m - 1;
      StagePrefix(d, s, id, i);
      RowUse(d, s, id, i);
      var rows := RowsAt(d, s);
      assert rows[i] == RowAt(d, s, i);
      hide RowAt, InHand, Uses, RowsAt, ActiveAt, Used, Total, RowsFit;
      UsedNext(d.orders, rows, id, InDiscarded, i);
      UsedNext(d.orders, rows, id, InServed, i);
      UsedNext(d.orders, rows, id, InPlaced, i);
      TotalNext(d.orders, id, i);
    }
  }

  /** The ledger of a stage: everything served so far, what is in hand, and the rest still available. */
  lemma StageLedger(d: Definition, s: Stage, id: string)
    requires InScript(d, s)
    ensures ActiveAt(d, s) <= |d.orders|
    ensures var row := Ledger(d.orders, RowsAt(d, s), id);
      && row.id == id && row.total == Total(d.orders, id)
      && row.served == Total(d.orders[..ActiveAt(d, s)], id)
      && row.placed == InHand(d, s, id)
      && row.discarded == 0
      && row.available == row.total - row.placed - row.served
  {
    StagePrefix(d, s, id, |d.orders|);
    assert d.orders[..|d.orders|] == d.orders && RowsAt(d, s)[..|d.orders|] == RowsAt(d, s);
    if ActiveAt(d, s) == |d.orders| { assert InHand(d, s, id) == 0; }
  }

  /** How component `id` moves between two ledgers when a command is accepted at stage `s`. */
  ghost predicate Flows(d: Definition, s: Stage, id: string, before: ComponentRow, after: ComponentRow)
    requires InScript(d, s)
  {
    match s
    case Perform(o, k) =>
      if d.orders[o].steps[k].componentRef == Some(id) then after == before.(available := before.available - 1, placed := before.placed + 1)
      else after == before
    case Serve(o) =>
      var n := Uses(d.orders[o].steps, id);
      after == before.(placed := before.placed - n, served := before.served + n)
    case Stopped => after == ComponentRow(id, before.total, before.total, 0, 0, 0)
    case _ => after == before
  }

  /** How what is in hand and what has been handed over change from a stage to its successor. */
  lemma HandsOn(d: Definition, s: Stage, id: string)
    requires Authored(d) && InScript(d, s) && InScript(d, Successor(d, s)) && s !in {Done, Stopped}
    ensures ActiveAt(d, s) <= ActiveAt(d, Successor(d, s)) <= |d.orders|
    ensures s.Serve? ==>
      && Total(d.orders[..ActiveAt(d, Successor(d, s))], id) == Total(d.orders[..ActiveAt(d, s)], id) + Uses(d.orders[s.order].steps, id)
      && InHand(d, s, id) == Uses(d.orders[s.order].steps, id) && InHand(d, Successor(d, s), id) == 0
    ensures !s.Serve? ==> ActiveAt(d, Successor(d, s)) == ActiveAt(d, s)
    ensures s.Perform? ==>
      InHand(d, Successor(d, s), id) == InHand(d, s, id) + (if d.orders[s.order].steps[s.step].componentRef == Some(id) then 1 else 0)
    ensures !s.Serve? && !s.Perform? ==> InHand(d, Successor(d, s), id) == InHand(d, s, id)
  {
    match s {
      case Perform(o, k) =>
        var steps := d.orders[o].steps;
        assert steps[..k + 1][..k] == steps[..k];
        if k + 1 == |steps| { assert steps[..k + 1] == steps; }
      case AcceptOrder(o) => assert d.orders[o].steps[..0] == [];
      case Serve(o) => assert d.orders[..o + 1][..o] == d.orders[..o];
      case _ =>
    }
  }

  /** A step places exactly its own unit, serving hands over the order's units, and a new shift restocks. */
  lemma MoveFlows(d: Definition, s: Stage, id: string)
    requires Authored(d) && InScript(d, s) && InScript(d, Successor(d, s)) && s != Done
    ensures s != Stopped ==>
      Flows(d, s, id, Ledger(d.orders, RowsAt(d, s), id), Ledger(d.orders, RowsAt(d, Successor(d, s)), id))
    ensures s == Stopped ==> Ledger(d.orders, RowsAt(d, FirstStage(d)), id) == ComponentRow(id, Total(d.orders, id), Total(d.orders, id), 0, 0, 0)
  {
    StageLedger(d, s, id);
    StageLedger(d, Successor(d, s), id);
    if s != Stopped { HandsOn(d, s, id); } else { assert d.orders[..0] == []; }
    hide Authored, Ledger, RowsAt, InHand, ActiveAt, Uses;
    if s == Stopped { FreshTotals(d, id); }
  }

  lemma FreshTotals(d: Definition, id: string)
    requires Authored(d)
    ensures InScript(d, FirstStage(d)) && ActiveAt(d, FirstStage(d)) == 0 && InHand(d, FirstStage(d), id) == 0
    ensures Total(d.orders[..0], id) == 0
  {
  }

  lemma {:induction false} DiscardPrefix(defs: seq<OrderDef>, rows: seq<OrderRow>, id: string)
    requires RowsFit(defs, rows)
    ensures Used(defs, DiscardedRows(rows), id, InPlaced) == 0
    ensures Used(defs, DiscardedRows(rows), id, InServed) == Used(defs, rows, id, InServed)
    ensures Used(defs, DiscardedRows(rows), id, InDiscarded) == Used(defs, rows, id, InDiscarded) + Used(defs, rows, id, InPlaced)
    decreases |defs|
  {
    if defs != [] {
      var last := |defs| - 1;
      DiscardPrefix(defs[..last], rows[..last], id);
      assert DiscardedRows(rows)[..last] == DiscardedRows(rows[..last]);
    }
  }

  /** The checkpoint's own ledger row for the `k`-th component. */
  function Stock(d: Definition, c: Checkpoint, k: nat): ComponentRow
    requires |d.orders| > 0 && Valid(d, c) && k < |d.componentIds|
  {
    c.components[k]
  }

  /** Every accepted command moves each component as the script says; abandoning discards what was placed. */
  lemma CommandFlows(d: Definition, c: Checkpoint, cmd: Command, k: nat)
    requires Authored(d) && Steady(d, c) && k < |d.componentIds|
    requires Reduce(d, c, cmd).Success? && Reduce(d, c, cmd).value.accepted
    ensures InScript(d, StageOf(d, c)) && Steady(d, Reduce(d, c, cmd).value.checkpoint)
    ensures cmd.name != CmdAbandon ==>
      Flows(d, StageOf(d, c), d.componentIds[k], Stock(d, c, k), Stock(d, Reduce(d, c, cmd).value.checkpoint, k))
    ensures cmd.name == CmdAbandon ==>
      Stock(d, Reduce(d, c, cmd).value.checkpoint, k)
      == Stock(d, c, k).(placed := 0, discarded := Stock(d, c, k).discarded + Stock(d, c, k).placed)
  {
    var id := d.componentIds[k];
    AcceptedStep(d, c, cmd);
    SteadyStage(d, c);
    StockIsLedger(d, c, k);
    StockIsLedger(d, Reduce(d, c, cmd).value.checkpoint, k);
    var s := StageOf(d, c);
    hide Shape, Invariants, Bookkeeping, StageOf, Authored, Conserved, Reduce, Ledger, RowsAt, Offers, Stock;
    if cmd.name == CmdAbandon {
      DiscardLedger(d, c.orders, id);
    } else {
      OffersWellFormed(d, s, cmd);
      MoveFlows(d, s, id);
      StockTotal(d, c, k);
    }
  }

  lemma StockIsLedger(d: Definition, c: Checkpoint, k: nat)
    requires |d.orders| > 0 && Valid(d, c) && k < |d.componentIds|
    ensures RowsFit(d.orders, c.orders) && Stock(d, c, k) == Ledger(d.orders, c.orders, d.componentIds[k])
  {
  }

  lemma StockTotal(d: Definition, c: Checkpoint, k: nat)
    requires |d.orders| > 0 && Valid(d, c) && k < |d.componentIds|
    ensures Stock(d, c, k).total == Total(d.orders, d.componentIds[k])
  {
    StockIsLedger(d, c, k);
  }

  lemma DiscardLedger(d: Definition, rows: seq<OrderRow>, id: string)
    requires RowsFit(d.orders, rows)
    ensures Ledger(d.orders, DiscardedRows(rows), id)
      == Ledger(d.orders, rows, id).(placed := 0, discarded := Ledger(d.orders, rows, id).discarded + Ledger(d.orders, rows, id).placed)
  {
    DiscardPrefix(d.orders, rows, id);
  }

  /** In every valid checkpoint each component's parts are non-negative and add up to its authored total. */
  lemma StockIsConserved(d: Definition, c: Checkpoint, k: nat)
    requires Authored(d) && Valid(d, c) && k < |d.componentIds|
    ensures var r := Stock(d, c, k);
      && r.id == d.componentIds[k] && r.total == Total(d.orders, r.id)
      && r.available + r.placed + r.served + r.discarded == r.total
      && r.available >= 0 && r.placed >= 0 && r.served >= 0 && r.discarded >= 0
  {
    UsedSplitsTotal(d.orders, c.orders, d.componentIds[k]);
    assert Stock(d, c, k) == Ledger(d.orders, c.orders, d.componentIds[k]);
  }
}
