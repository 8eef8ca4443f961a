/** Reconciliation and orchestration together: what a mismatch does to the next cycle's signal. */
module EntryBlocks {
  import opened Common
  import opened Ticks
  import R = Reconciliation
  import opened Nodes
  import opened Orchestrator

  /** The orchestrator asks the block registry, over the blocks left by a run of reconciliation cycles. */
  ghost predicate AsksRegistry(w: World, b: R.Blocks, getOk: bool) {
    w.blocked.Some? &&
    forall symbol, exchange :: w.blocked.value(symbol, exchange) <==> R.Sees(b, Key(exchange, symbol), getOk)
  }

  /**
   * A signal on a symbol the latest reconciliation cycle found mismatched is blocked exactly when the registry's
   * Redis read works or the block is in its memory; the orchestration cycle then counts no signal.
   */
  lemma {:induction false} MismatchBlocksSignal(start: R.State, rounds: seq<R.Round>, s: SystemState, cfg: Config,
      w: World, entry: SignalEntry, getOk: bool)
    requires rounds != [] && Key(entry.exchange, entry.symbol) in Last(rounds).keys
    requires AsksRegistry(w, R.Run(start, rounds).blocks, getOk)
    requires w.redis.Some? && w.redis.value.signal == Entry(entry)
    ensures var blocks := R.Run(start, rounds).blocks;
            SignalBlocked(w, entry) <==> getOk || Key(entry.exchange, entry.symbol) in blocks.memory
    ensures SignalBlocked(w, entry) ==> Invoke(s, cfg, w).checkpoint.values.signalsToday == s.signalsToday
  {
    R.MismatchedIsRecorded(start, rounds);
    assert Key(entry.exchange, entry.symbol) in R.Recorded(R.Run(start, rounds).blocks);
    CycleCountsAdmitted(s, cfg, w);
  }

  /**
   * Without Redis, or when every deletion succeeded, and with working reads, a signal that passes the other gates is
   * counted exactly when its symbol is not among the current mismatches.
   */
  lemma {:induction false} CountedIffReconciled(start: R.State, rounds: seq<R.Round>, s: SystemState, cfg: Config,
      w: World, entry: SignalEntry)
    requires R.Fresh(start) && (start.blocks.redis.None? || R.DeletesSucceed(rounds))
    requires AsksRegistry(w, R.Run(start, rounds).blocks, true)
    requires w.redis.Some? && w.redis.value.signal == Entry(entry) && !w.redis.value.halted && !w.redis.value.degraded
    requires !Halted(s) && RegimeNode(s, w).marketRegime != CHAOS
    ensures Invoke(s, cfg, w).checkpoint.values.signalsToday ==
            s.signalsToday + (if Key(entry.exchange, entry.symbol) in R.Run(start, rounds).last then 0 else 1)
  {
    R.BlockedIsMismatched(start, rounds);
    CycleCountsAdmitted(s, cfg, w);
    var key, blocks := Key(entry.exchange, entry.symbol), R.Run(start, rounds).blocks;
    assert R.Sees(blocks, key, true) <==> key in R.Recorded(blocks);
  }
}
