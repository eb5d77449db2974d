/** The ledger of shared-memory response loans: what was admitted, and how each admission was settled. */
module Loans {
  import opened ControlCodec

  /** Calls made on the native memory context. A failed admission queues its own release. */
  datatype LoanEvent =
    | Admitted(block: Block, token: nat)
    | AdmissionFailed(block: Block)
    | Consumed(token: nat)
    | Released(token: nat)

  /** The descriptors passed to admission, in order. */
  ghost function Submitted(events: seq<LoanEvent>): seq<Block> {
    if events == [] then [] else
      var before, e := Submitted(events[..|events| - 1]), events[|events| - 1];
      if e.Admitted? || e.AdmissionFailed? then before + [e.block] else before
  }

  ghost function AdmittedTokens(events: seq<LoanEvent>): multiset<nat> {
    if events == [] then multiset{} else
      var before, e := AdmittedTokens(events[..|events| - 1]), events[|events| - 1];
      if e.Admitted? then before + multiset{e.token} else before
  }

  ghost function SettledTokens(events: seq<LoanEvent>): multiset<nat> {
    if events == [] then multiset{} else
      var before, e := SettledTokens(events[..|events| - 1]), events[|events| - 1];
      if e.Consumed? || e.Released? then before + multiset{e.token} else before
  }

  /** At every moment only admitted loans had been settled, and none twice. */
  ghost predicate SettledInOrder(events: seq<LoanEvent>) {
    forall i :: 0 <= i <= |events| ==> SettledTokens(events[..i]) <= AdmittedTokens(events[..i])
  }

  /**
   * Every successful admission is followed by exactly one settlement, except for the loans in
   * `held`, which have none yet.
   */
  ghost predicate Balanced(events: seq<LoanEvent>, held: set<nat>) {
    && (forall t :: AdmittedTokens(events)[t] <= 1)
    && AdmittedTokens(events) == SettledTokens(events) + multiset(held)
    && SettledInOrder(events)
  }

  /** Loan tokens are never reused. */
  ghost predicate TokensBelow(events: seq<LoanEvent>, next: nat) {
    forall t :: t in AdmittedTokens(events) ==> t < next
  }

  lemma AppendEvent(events: seq<LoanEvent>, e: LoanEvent)
    ensures Submitted(events + [e]) == if e.Admitted? || e.AdmissionFailed? then Submitted(events) + [e.block] else Submitted(events)
    ensures AdmittedTokens(events + [e]) == AdmittedTokens(events) + if e.Admitted? then multiset{e.token} else multiset{}
    ensures SettledTokens(events + [e]) == SettledTokens(events) + if e.Consumed? || e.Released? then multiset{e.token} else multiset{}
    ensures SettledInOrder(events) && SettledTokens(events + [e]) <= AdmittedTokens(events + [e]) ==> SettledInOrder(events + [e])
  {
    var all := events + [e];
    assert all[..|all| - 1] == events;
    if SettledInOrder(events) && SettledTokens(all) <= AdmittedTokens(all) {
      forall i | 0 <= i <= |all| ensures SettledTokens(all[..i]) <= AdmittedTokens(all[..i]) {
        assert i == |all| ==> all[..i] == all;
        assert i < |all| ==> all[..i] == events[..i];
      }
    }
  }

  /** A fresh admission adds one held loan. */
  lemma AdmitBalances(events: seq<LoanEvent>, held: set<nat>, block: Block, token: nat)
    requires Balanced(events, held) && token !in AdmittedTokens(events)
    ensures token !in held && Balanced(events + [Admitted(block, token)], held + {token})
  {
    AppendEvent(events, Admitted(block, token));
    assert token !in multiset(held);
    assert multiset(held + {token}) == multiset(held) + multiset{token};
  }

  lemma FailedAdmissionBalances(events: seq<LoanEvent>, held: set<nat>, block: Block)
    requires Balanced(events, held)
    ensures Balanced(events + [AdmissionFailed(block)], held)
  {
    AppendEvent(events, AdmissionFailed(block));
  }

  /** Settling a held loan removes it from the held ones. */
  lemma SettleBalances(events: seq<LoanEvent>, held: set<nat>, e: LoanEvent)
    requires Balanced(events, held) && (e.Consumed? || e.Released?) && e.token in held
    ensures Balanced(events + [e], held - {e.token})
  {
    AppendEvent(events, e);
    assert multiset(held) == multiset(held - {e.token}) + multiset{e.token};
  }

  /** With nothing held, every admitted loan has exactly one settlement and nothing else was settled. */
  lemma NothingHeldMeansExactlyOnce(events: seq<LoanEvent>, token: nat)
    requires Balanced(events, {})
    ensures AdmittedTokens(events)[token] == SettledTokens(events)[token] <= 1
  {
    var none: set<nat> := {};
    assert multiset(none) == multiset{};
  }
}
