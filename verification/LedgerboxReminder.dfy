/** The letter's recipient, subject and body (`lib/reminder.ts`). */
module LedgerboxReminder {
  import opened LedgerboxFormat
  import opened LedgerboxTypes
  import opened Texts

  datatype Letter = Letter(to: string, subject: string, body: string)

  const STUDIO_OWNER := "Mira Halden"
  const STUDIO_NAME := "Halden Studio"
  const STUDIO_INBOX := "hello@halden.example"

  function DayCount(days: nat): string {
    Decimal(days) + " " + if days == 1 then "day" else "days"
  }

  function FirstName(name: string): string {
    if name == [] || name[0] == ' ' then [] else [name[0]] + FirstName(name[1..])
  }

  function Opening(tone: Tone, number: string, days: nat): string {
    match tone
    case Gentle =>
      "Hope the work has been landing well. " + number +
      (if days > 0 then " is " + DayCount(days) + " past its due date and" else " is") +
      " still showing as open on our side - no rush if it is already in a payment run, just flagging it" +
      (if days > 0 then "." else " ahead of the due date.")
    case Firm =>
      if days > 0 then
        number + " is now " + DayCount(days) + " past its due date. Please let us know today when payment" +
        " will be made, or we will pause scheduled work until it clears."
      else
        number + " is still open on our side. Please let us know today when payment will be made."
  }

  function Late(days: nat): string {
    " outstanding" + if days > 0 then ", " + DayCount(days) + " past due" else ""
  }

  function Subject(number: string, balance: int, days: nat): string {
    number + ": " + FormatMoney(balance) + Late(days)
  }

  /** What a reminder drafted now would say. */
  function LetterFor(row: Row, tone: Tone): Letter {
    var number := row.invoice.number;
    var days: nat := if row.daysOverdue > 0 then row.daysOverdue else 0;
    Letter(
      row.client.email,
      Subject(number, row.balance, days),
      "Hi " + FirstName(row.client.contact) + ",\n\n" + Opening(tone, number, days) + "\n\n" +
      "Outstanding: " + FormatMoney(row.balance) + " of " + FormatMoney(row.invoice.amount) + ".\n\n" +
      "Thanks,\n" + STUDIO_OWNER + "\n" + STUDIO_NAME + "\n" + STUDIO_INBOX)
  }

  /** The subject alone gives the balance away: a letter whose balance moved cannot pass for today's. */
  lemma SubjectStatesTheBalance(number: string, a: int, b: int, days: nat)
    requires Subject(number, a, days) == Subject(number, b, days)
    ensures a == b
  {
    Cancel(number + ": ", FormatMoney(a), FormatMoney(b), Late(days));
    FormatInjective(a, b);
  }

  lemma Cancel(head: string, x: string, y: string, tail: string)
    requires head + x + tail == head + y + tail
    ensures x == y
  {
    var whole := head + x + tail;
    assert |x| == |y|;
    assert whole[|head|..|head| + |x|] == x;
    assert whole[|head|..|head| + |x|] == y;
  }
}
