/** The invoice page: the parts total of a job card, the service charge the
    mechanic types in, the grand total, the invoice number, and the body it
    posts to create the invoice. The PDF and its upload are not part of
    this model: the uploaded file's URL is a parameter. */
module InvoicePage {
  import opened Common
  import opened Text
  import opened Schema
  import opened GarageRoutes
  import opened JobCardPage

  /** partsTotal: price times quantity summed over the card's parts, or 0
      when the card has no parts array. */
  function PartsTotal(spareParts: Option<seq<PartLine>>): (r: int)
    ensures spareParts.None? ==> r == 0
    ensures spareParts.Some? ==> r == SubmitTotal(spareParts.value)
  {
    if spareParts.Some? then Sum(spareParts.value, LineTotal) else 0
  }

  /** totalAmount: the parts total plus the service charge. */
  function InvoiceTotal(card: JobCard, serviceCharge: int): (r: int)
    ensures r - serviceCharge == PartsTotal(card.spareParts)
  {
    PartsTotal(card.spareParts) + serviceCharge
  }

  /** The service charge field starts at 0. */
  const InitialServiceCharge: int := 0

  /** Before the mechanic types a charge, the total is the parts total. */
  lemma InitialTotalIsPartsTotal(card: JobCard)
    ensures InvoiceTotal(card, InitialServiceCharge) == PartsTotal(card.spareParts)
  {
  }

  /** `INV-${Date.now()}`: the prefix and the millisecond clock in decimal. */
  function InvoiceNumber(now: nat): (r: string)
    ensures |r| > 4 && r[..4] == "INV-" && AllDigits(r[4..])
    ensures DigitsValue(r[4..]) == now
  {
    DigitsOfNatToString(now);
    "INV-" + NatToString(now)
  }

  /** Invoices numbered at different instants have different numbers. */
  lemma InvoiceNumbersDiffer(a: nat, b: nat)
    requires a != b
    ensures InvoiceNumber(a) != InvoiceNumber(b)
  {
  }

  /** The body handleGeneratePDF posts: the card's id and customer, the
      number, the uploaded PDF's URL, the three amounts, and whether the
      WhatsApp button was the one pressed. The garage id comes from the
      route, not the body. */
  function InvoicePayload(card: JobCard, serviceCharge: int, now: nat, pdfUrl: string, sendWhatsApp: bool): (n: NewInvoice)
    ensures n.jobCardId == card.id && n.customerId == card.customerId
    ensures n.partsTotal == PartsTotal(card.spareParts) && n.serviceCharge == serviceCharge
    ensures n.totalAmount == n.partsTotal + n.serviceCharge
    ensures n.invoiceNumber == InvoiceNumber(now) && n.pdfUrl == Some(pdfUrl)
    ensures n.whatsappSent == Given(sendWhatsApp)
  {
    NewInvoice("", card.id, card.customerId, InvoiceNumber(now), Some(pdfUrl), Given(sendWhatsApp),
               InvoiceTotal(card, serviceCharge), PartsTotal(card.spareParts), serviceCharge)
  }

  /** The invoice stored from the page's body balances: its total is its
      parts total plus its service charge, so what it adds to the garage's
      profit is its service charge less its parts total. */
  lemma StoredInvoiceBalances(id: string, at: nat, g: string, card: JobCard, serviceCharge: int, now: nat,
                              pdfUrl: string, sendWhatsApp: bool)
    ensures var v := InsertedInvoice(id, at, InvoicePayload(card, serviceCharge, now, pdfUrl, sendWhatsApp).(garageId := g));
            v.totalAmount == v.partsTotal + v.serviceCharge
            && v.whatsappSent == Some(sendWhatsApp) && v.jobCardId == card.id && v.garageId == g
  {
  }

  /** For a card filed from the job-card page, the invoice page's parts total
      is the total that page sent, and the invoice total adds the service
      charge to it. */
  lemma InvoiceAgreesWithTheCard(id: string, at: nat, form: JobCardForm, rows: seq<PartLine>, g: string, c: string,
                                 serviceCharge: int)
    ensures var card := InsertedJobCard(id, at, ParseJobCard(SubmitBody(form, rows), g).(customerId := c));
            PartsTotal(card.spareParts) == card.totalAmount.value
            && InvoiceTotal(card, serviceCharge) == card.totalAmount.value + serviceCharge
  {
    SubmittedCardKeepsTheTotal(id, at, form, rows, g, c);
  }
}
