/** The shapes shared by the ledger packages (services/ledger/internal/domain/types.go). */
module Domain {

  datatype Option<+T> = None | Some(value: T)

  /** A caller can send any text as a direction; only the first two are stored. */
  datatype Direction = Debit | Credit | Unrecognised(text: string) {

    function Opposite(): Side {
      if this == Debit then Credit else Debit
    }
  }

  type Side = d: Direction | d.Debit? || d.Credit? witness Debit

  datatype Status = Active | Frozen | Closed | Pending

  /** What the metadata column holds for each product. Times are in nanoseconds. */
  datatype Terms =
    | NoTerms
    | Savings(savingsRateBps: int, lockedUntil: int)
    | Loan(principalKobo: int, loanRateBps: int, tenorDays: int, maturity: Option<int>, provisionedKobo: int)

  datatype Account = Account(
    number: string,
    customer: Option<string>,
    product: string,
    normal: Side,
    status: Status,
    allowNegative: bool,
    terms: Terms)

  datatype LineInput = LineInput(account: nat, direction: Direction, amount: int)

  datatype Line = Line(account: nat, direction: Side, amount: int, currency: string)

  /** A journal entry together with its lines; its id is its position in the journal. */
  datatype Entry = Entry(
    reference: string,
    key: string,
    entryType: string,
    currency: string,
    description: string,
    reversalOf: Option<nat>,
    lines: seq<Line>)

  datatype Event = Event(entryId: nat, entryType: string, reference: string, currency: string, lineCount: nat)
}
