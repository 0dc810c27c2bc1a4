/** A fishing round pays once, whatever runs beside it. */
module CharityRounds {
  import opened Options
  import opened Charity

  /** What the round `id` has paid, entry by entry. */
  function Payouts(id: RoundId, history: seq<Entry>): seq<int> {
    if history == [] then []
    else (if Pays(id, history[0]) then [history[0].payout] else []) + Payouts(id, history[1..])
  }

  predicate Pays(id: RoundId, e: Entry) {
    e.DidSettleRound? && e.round == id
  }

  predicate Starts(e: TimedEvent, id: RoundId) {
    e.event.OnAccount? && e.event.account.EvStartRound? && e.event.account.round == id
  }

  /** Round ids are drawn at random and not drawn again. */
  predicate NeverStarted(es: seq<TimedEvent>, id: RoundId) {
    forall e <- es :: !Starts(e, id)
  }

  /** A round without a win settles too, for nothing. */
  function Due(round: Round): int {
    if round.won > 0 then round.won else 0
  }

  /** A step pays for a round only while it is open, what was decided at its start, and then closes it. */
  lemma StepPaysRound(l: Ledger, e: TimedEvent, id: RoundId)
    requires !Starts(e, id)
    ensures
      var tx := Step(l, e);
      && (Pays(id, tx.entry) ==>
            && id in l.rounds && !l.rounds[id].settled && tx.entry.payout == Due(l.rounds[id])
            && id in tx.after.rounds && tx.after.rounds[id].settled)
      && (id in tx.after.rounds ==>
            && id in l.rounds && Due(tx.after.rounds[id]) == Due(l.rounds[id])
            && (tx.after.rounds[id].settled <==> l.rounds[id].settled || Pays(id, tx.entry)))
  {}

  /** An open round is paid at most once, and exactly what its start decided; a settled or deleted one never. */
  lemma {:induction false} RoundPaysOnce(l: Ledger, es: seq<TimedEvent>, id: RoundId)
    requires NeverStarted(es, id)
    ensures
      var payouts := Payouts(id, Run(l, es).history);
      if id in l.rounds && !l.rounds[id].settled then payouts == [] || payouts == [Due(l.rounds[id])] else payouts == []
    decreases es
  {
    if es != [] {
      assert !Starts(es[0], id);
      var tx := Step(l, es[0]);
      StepPaysRound(l, es[0], id);
      RoundPaysOnce(tx.after, es[1..], id);
    }
  }
}
