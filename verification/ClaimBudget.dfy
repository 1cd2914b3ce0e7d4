/** How large an answer to `claim` is on the wire, and what a caller with a bounded reader may be handed. */
module ClaimBudget {
  import opened Basics
  import opened BrokerCore
  import opened BrokerSystem
  import opened BrokerTheorems

  /** `claimResponseBytes`: the envelope line and four characters per three payload bytes, rounded up. */
  function ResponseBytes(envelope: nat, payload: nat): nat {
    envelope + 4 * ((payload + 2) / 3)
  }

  /** `claimPayloadBudget`: the largest payload whose line is meant to fit. */
  function PayloadBudget(envelope: nat, ceiling: nat): nat {
    var forBase64 := ceiling - ResponseBytes(envelope, 0);
    if forBase64 <= 0 then 0 else forBase64 / 4 * 3
  }

  /** The two are exact inverses on every payload that has a byte in it. */
  lemma BudgetIsExact(envelope: nat, ceiling: nat, payload: nat)
    requires payload > 0
    ensures payload <= PayloadBudget(envelope, ceiling) <==> ResponseBytes(envelope, payload) <= ceiling
  {
    var groups := (payload + 2) / 3;
    if ceiling > envelope {
      var quads := (ceiling - envelope) / 4;
      assert payload <= quads * 3 <==> groups <= quads;
    }
  }

  /** Over all payloads the inverse fails in one case exactly: an empty payload under a ceiling the envelope alone does not fit. */
  lemma BudgetFailsIff(envelope: nat, ceiling: nat, payload: nat)
    ensures (payload <= PayloadBudget(envelope, ceiling) <==> ResponseBytes(envelope, payload) <= ceiling) <==> !(payload == 0 && ceiling < envelope)
  {
    if payload > 0 {
      BudgetIsExact(envelope, ceiling, payload);
    }
  }

  /**
   * A claim made with the budget of a declared ceiling consumes the payload only
   * if its line fits, and refuses it, untouched, only if its line does not.
   */
  lemma ClaimConsumesOnlyWhatFits(cfg: Config, es: seq<Event>, n: nat, envelope: nat, ceiling: nat)
    requires n < |es| && es[n].ClaimText? && es[n].id < |Run(cfg, es[..n]).core.recs|
    requires es[n].capacity == Some(PayloadBudget(envelope, ceiling))
    ensures var said := SaidAt(cfg, es, n);
      && said.Said?
      && (said.answer.Delivered? ==> ResponseBytes(envelope, |said.answer.payload|) <= ceiling)
      && (said.answer.ResponseTooLarge? ==>
            && ResponseBytes(envelope, said.answer.payloadBytes) > ceiling
            && Run(cfg, es[..n + 1]) == Run(cfg, es[..n]))
  {
    RunKeeps(cfg, es[..n]);
    assert es[..n + 1][..n] == es[..n];
    var said := SaidAt(cfg, es, n);
    ClaimAnswers(cfg, Run(cfg, es[..n]), es[n]);
    if said.answer.Delivered? {
      BudgetIsExact(envelope, ceiling, |said.answer.payload|);
    } else if said.answer.ResponseTooLarge? {
      BudgetIsExact(envelope, ceiling, said.answer.payloadBytes);
    }
  }
}
