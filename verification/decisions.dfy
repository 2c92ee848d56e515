/** The decision recorder: a reviewer's approve/reject verdict per purchase
    order number, validated and then upserted into the decision table. */
module Decisions {
  import opened Wrappers

  datatype Verdict = Approved | Rejected

  function VerdictName(v: Verdict): string {
    match v
    case Approved => "approved"
    case Rejected => "rejected"
  }

  /** Only the two exact spellings are accepted. */
  function ParseVerdict(s: string): (r: Option<Verdict>)
    ensures r.Some? <==> s == "approved" || s == "rejected"
    ensures r.Some? ==> VerdictName(r.value) == s
  {
    if s == "approved" then Some(Approved)
    else if s == "rejected" then Some(Rejected)
    else None
  }

  /** What is stored per purchase order number; `timestamp` and `user` are
      opaque values supplied by the caller. */
  datatype DecisionRecord = DecisionRecord(verdict: Verdict, comment: string, timestamp: string, user: string)

  type DecisionTable = map<string, DecisionRecord>

  datatype DecisionError = InvalidDecision

  /** The acknowledgement returned to the submitter. */
  datatype Ack = Ack(poNumber: string, verdict: Verdict)

  /** The table after the request, and the reply. */
  datatype SaveOutcome = SaveOutcome(table: DecisionTable, reply: Result<Ack, DecisionError>)

  /** The decision lookup done per purchase order during reconciliation. */
  function Lookup(table: DecisionTable, poNumber: string): (r: Option<DecisionRecord>)
    ensures r.Some? <==> poNumber in table
    ensures r.Some? ==> table[poNumber] == r.value
  {
    if poNumber in table then Some(table[poNumber]) else None
  }

  /** `save_reconciliation_decision`: refuse anything but `approved` or
      `rejected` without writing; otherwise overwrite the entry for
      `poNumber`, whether or not such a purchase order exists. */
  function SaveDecision(table: DecisionTable, poNumber: string, decision: string, comment: string,
                        timestamp: string, user: string): (out: SaveOutcome)
    ensures out.reply.Failure? <==> decision != "approved" && decision != "rejected"
    ensures out.reply.Failure? ==> out.table == table
    ensures out.reply.Success? ==>
      && out.table.Keys == table.Keys + {poNumber}
      && out.reply.value == Ack(poNumber, out.table[poNumber].verdict)
      && VerdictName(out.table[poNumber].verdict) == decision
      && out.table[poNumber].comment == comment
      && out.table[poNumber].timestamp == timestamp
      && out.table[poNumber].user == user
      && forall k :: k in table && k != poNumber ==> out.table[k] == table[k]
  {
    match ParseVerdict(decision)
    case None => SaveOutcome(table, Failure(InvalidDecision))
    case Some(v) =>
      SaveOutcome(table[poNumber := DecisionRecord(v, comment, timestamp, user)], Success(Ack(poNumber, v)))
  }

  /** Saving twice for one purchase order leaves one entry, the later one. */
  lemma LastWriteWins(table: DecisionTable, poNumber: string, first: string, second: string,
                      c1: string, c2: string, t1: string, t2: string, user: string)
    requires ParseVerdict(first).Some? && ParseVerdict(second).Some?
    ensures var after := SaveDecision(SaveDecision(table, poNumber, first, c1, t1, user).table,
                                      poNumber, second, c2, t2, user).table;
      && after.Keys == table.Keys + {poNumber}
      && after[poNumber] == DecisionRecord(ParseVerdict(second).value, c2, t2, user)
  {
  }
}
