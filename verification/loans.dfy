/**
 One row of the loans table, as the dashboard reads it once the CSV is loaded.
 Dates are day numbers (the `.dt.date` of a parsed timestamp); money amounts
 are whole numbers of cents and counts are natural numbers.
 */
module Loans {

  datatype Loan = Loan(
    country: string,
    sector: string,
    activity: string,
    genders: string,       // `borrower_genders`, compared as one string
    repayment: string,     // `repayment_interval`
    disbursed: int,        // day of `disbursed_time`
    region: string,
    partner: int,          // `partner_id`
    fundedAmount: nat,
    loanAmount: nat,
    lenderCount: nat,
    borrowerCount: nat)

  /** The five categorical columns a sidebar selector can constrain. */
  datatype Column = Country | Sector | Activity | Gender | Repayment

  /** The selectors, in the order the sidebar cascades through them. */
  const Columns: seq<Column> := [Country, Sector, Activity, Gender, Repayment]

  function Field(l: Loan, c: Column): string
  {
    match c
    case Country => l.country
    case Sector => l.sector
    case Activity => l.activity
    case Gender => l.genders
    case Repayment => l.repayment
  }

  /** Position of a selector in the cascade. */
  function Rank(c: Column): (i: nat)
    ensures i < |Columns| && Columns[i] == c
  {
    match c
    case Country => 0
    case Sector => 1
    case Activity => 2
    case Gender => 3
    case Repayment => 4
  }

  /** `Rank` and `Columns` are inverse: the cascade lists each selector once. */
  lemma RankOfColumn(i: nat)
    requires i < |Columns|
    ensures Rank(Columns[i]) == i
  {
  }

  // Column accessors, named so that groupings and sums can be passed around
  // as function values.
  function Region(l: Loan): string { l.region }
  function PartnerId(l: Loan): int { l.partner }
  function FundedAmount(l: Loan): int { l.fundedAmount }
  function LoanAmount(l: Loan): int { l.loanAmount }
  function LenderCount(l: Loan): int { l.lenderCount }
  function BorrowerCount(l: Loan): int { l.borrowerCount }

  /** Every row weighs one: grouping by it counts occurrences (`value_counts`). */
  function One(l: Loan): int { 1 }
}
