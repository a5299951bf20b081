/** The rewrite `improve_contract` returns when no model is configured:
    three fixed `str.replace` substitutions, one after the other. */
module MockImprove {
  import opened PyStrings
  import opened PyReplace

  const LateFee := "₹500 per day after 5 days grace period"
  const LateFeeFixed := "₹200 per day after 7 days grace period"
  const RentIncrease := "15% annually after first year"
  const RentIncreaseFixed := "8% annually after first year, capped at market rates"
  const Penalty := "penalty of ₹60,000 if terminated within first 12 months"
  const PenaltyFixed := "graduated penalty: ₹30,000 if terminated within 6 months, ₹15,000 if terminated within 12 months"

  /** The chain of app.py: the late-fee phrase first, then the rent-increase
      phrase, then the penalty phrase, each replaced at every occurrence in
      the text the previous step produced. */
  function Improve(contract: string): string {
    ReplaceAll(
      ReplaceAll(
        ReplaceAll(contract, LateFee, LateFeeFixed),
        RentIncrease, RentIncreaseFixed),
      Penalty, PenaltyFixed)
  }

  /** Each step is a whole-string replacement in the sense of `ReplaceSpec`:
      the text before the step is cut at the leftmost occurrences of the
      phrase, and the text after it glues the same pieces with the fix. */
  lemma ImproveSteps(contract: string)
    ensures var afterFee := ReplaceAll(contract, LateFee, LateFeeFixed);
      var afterRent := ReplaceAll(afterFee, RentIncrease, RentIncreaseFixed);
      && Join(Split(contract, LateFee), LateFee) == contract
      && LeftmostPieces(Split(contract, LateFee), LateFee)
      && afterFee == Join(Split(contract, LateFee), LateFeeFixed)
      && Join(Split(afterFee, RentIncrease), RentIncrease) == afterFee
      && LeftmostPieces(Split(afterFee, RentIncrease), RentIncrease)
      && afterRent == Join(Split(afterFee, RentIncrease), RentIncreaseFixed)
      && Join(Split(afterRent, Penalty), Penalty) == afterRent
      && LeftmostPieces(Split(afterRent, Penalty), Penalty)
      && Improve(contract) == Join(Split(afterRent, Penalty), PenaltyFixed)
  {
    var afterFee := ReplaceAll(contract, LateFee, LateFeeFixed);
    var afterRent := ReplaceAll(afterFee, RentIncrease, RentIncreaseFixed);
    ReplaceSpec(contract, LateFee, LateFeeFixed);
    ReplaceSpec(afterFee, RentIncrease, RentIncreaseFixed);
    ReplaceSpec(afterRent, Penalty, PenaltyFixed);
  }

  /** A contract that holds none of the three phrases comes back unchanged. */
  lemma ImproveUntouched(contract: string)
    requires !Contains(contract, LateFee)
    requires !Contains(contract, RentIncrease)
    requires !Contains(contract, Penalty)
    ensures Improve(contract) == contract
  {
    ReplaceAbsent(contract, LateFee, LateFeeFixed);
    ReplaceAbsent(contract, RentIncrease, RentIncreaseFixed);
    ReplaceAbsent(contract, Penalty, PenaltyFixed);
  }
}
