/**
 * The business factory's gates (src/ab_factory/core.py): provisioning, readiness, activation and
 * the runway check, over injected signals.
 */
module Factory {
  import opened Common

  /** The fields of a blueprint the gates look at; its budgets are validated not to be negative. */
  datatype Blueprint = Blueprint(businessId: string, experimentBudget: nat, llmBudget: nat)

  datatype Status = Draft | Active | Sunset

  datatype Reason = BelowBudget(cash: int, budget: int) | KillSwitchActive | ComplianceNotClear

  datatype Refusal = NotActive(status: Status) | AmountNotPositive | InsufficientRunway(amount: int, cash: int)

  datatype Underfunded = Underfunded(businessId: string, capital: int, budget: int)

  /** The live signals besides the cash balance. */
  datatype Signals = Signals(killSwitchClear: bool, complianceClear: bool)

  predicate Ready(blueprint: Blueprint, cash: int, signals: Signals) {
    cash >= blueprint.experimentBudget && signals.killSwitchClear && signals.complianceClear
  }

  function Unready(blueprint: Blueprint, cash: int, signals: Signals): seq<Reason> {
    (if cash < blueprint.experimentBudget then [BelowBudget(cash, blueprint.experimentBudget)] else [])
    + (if !signals.killSwitchClear then [KillSwitchActive] else [])
    + (if !signals.complianceClear then [ComplianceNotClear] else [])
  }

  /** Nothing iff the business is funded, not killed and compliant; else exactly what it lacks. */
  lemma UnreadyAre(blueprint: Blueprint, cash: int, signals: Signals)
    ensures var reasons := Unready(blueprint, cash, signals);
      && (reasons == [] <==> Ready(blueprint, cash, signals))
      && (forall c, b :: BelowBudget(c, b) in reasons <==> c == cash < blueprint.experimentBudget == b)
      && (KillSwitchActive in reasons <==> !signals.killSwitchClear)
      && (ComplianceNotClear in reasons <==> !signals.complianceClear)
  {}

  /** Why a business may not launch. */
  method Readiness(blueprint: Blueprint, cash: int, signals: Signals) returns (reasons: seq<Reason>)
    ensures reasons == Unready(blueprint, cash, signals)
    ensures reasons == [] <==>
      cash >= blueprint.experimentBudget && signals.killSwitchClear && signals.complianceClear
    ensures forall c, b :: BelowBudget(c, b) in reasons <==> c == cash < blueprint.experimentBudget == b
    ensures KillSwitchActive in reasons <==> !signals.killSwitchClear
    ensures ComplianceNotClear in reasons <==> !signals.complianceClear
  {
    UnreadyAre(blueprint, cash, signals);
    reasons := [];
    if cash < blueprint.experimentBudget {
      reasons := reasons + [BelowBudget(cash, blueprint.experimentBudget)];
    }
    if !signals.killSwitchClear {
      reasons := reasons + [KillSwitchActive];
    }
    if !signals.complianceClear {
      reasons := reasons + [ComplianceNotClear];
    }
  }

  /** None if the business may spend the amount. */
  function CanSpend(status: Status, amount: int, cash: int): Option<Refusal> {
    if status != Active then Some(NotActive(status))
    else if amount <= 0 then Some(AmountNotPositive)
    else if amount > cash then Some(InsufficientRunway(amount, cash))
    else None
  }

  class Business {
    const blueprint: Blueprint
    const capital: int
    var status: Status

    /** A fresh draft; `Provision` refuses an underfunded request first. */
    constructor (blueprint: Blueprint, capital: int)
      requires capital >= blueprint.experimentBudget
      ensures this.blueprint == blueprint && this.capital == capital && status == Draft
    {
      this.blueprint, this.capital, status := blueprint, capital, Draft;
    }

    /** Flip a draft to active iff it passed the gate; anything else stays as it is. */
    method Activate(ready: bool)
      modifies this
      ensures status == AfterGate(old(status), ready)
    {
      if ready && status == Draft {
        status := Active;
      }
    }
  }

  function AfterGate(status: Status, ready: bool): Status {
    if ready && status == Draft then Active else status
  }

  method Provision(blueprint: Blueprint, capital: int) returns (r: Result<Business, Underfunded>)
    ensures r.Ok? <==> capital >= blueprint.experimentBudget
    ensures r.Ok? ==>
        fresh(r.value) && r.value.blueprint == blueprint && r.value.capital == capital && r.value.status == Draft
    ensures r.Err? ==> r.error == Underfunded(blueprint.businessId, capital, blueprint.experimentBudget)
  {
    if capital < blueprint.experimentBudget {
      return Err(Underfunded(blueprint.businessId, capital, blueprint.experimentBudget));
    }
    var business := new Business(blueprint, capital);
    return Ok(business);
  }
}
