/** The outbox: what waits to be sent for an account, in the order it will be sent. */
module CoreOutbox {
  import opened Domain
  import opened Ordering
  import opened CoreState

  function EnvelopeKey(e: OutgoingMessage): nat { e.message }

  ghost function WaitingEnvelopes(c: Core, account: nat): set<OutgoingMessage> {
    set m | m in c.messages && c.Waiting(account, m) :: c.Envelope(m)
  }

  /** The waiting messages of `account`, oldest identifier first. */
  ghost function Outbox(c: Core, account: nat): (q: seq<OutgoingMessage>)
    ensures Ascending(q, EnvelopeKey, NatLess)
    ensures forall e :: e in q <==> c.Waiting(account, e.message) && e == c.Envelope(e.message)
  {
    NatLessIsStrict();
    Arrange(WaitingEnvelopes(c, account), EnvelopeKey, NatLess)
  }

  /** Any ascending listing of the waiting messages is the outbox. */
  lemma OutboxIsUnique(c: Core, account: nat, q: seq<OutgoingMessage>)
    requires Ascending(q, EnvelopeKey, NatLess)
    requires forall e :: e in q <==> c.Waiting(account, e.message) && e == c.Envelope(e.message)
    ensures q == Outbox(c, account)
  {
    NatLessIsStrict();
    AscendingIsUnique(q, Outbox(c, account), EnvelopeKey, NatLess);
  }
}
