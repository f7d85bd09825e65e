/** The spare-parts page: the search and low-stock filter over the garage's
    parts, the Low Stock badge, and the add/edit form with the body it
    submits. Money fields are integers here, as everywhere in the model. */
module SparePartsPage {
  import opened Common
  import opened Text
  import opened Schema
  import opened Storage

  /** JavaScript's `quantity <= lowStockThreshold` when the threshold may be
      null: null compares as 0. */
  predicate AtOrBelowThreshold(p: SparePart)
  {
    p.quantity <= OrZero(p.lowStockThreshold)
  }

  /** The search test: the lower-cased name or part number includes the
      lower-cased term. */
  predicate MatchesSearch(p: SparePart, term: string)
  {
    Includes(ToLower(p.name), ToLower(term)) || Includes(ToLower(p.partNumber), ToLower(term))
  }

  /** Kept by filteredParts: matches the search, and with the toggle on is
      also at or below its threshold. */
  predicate Shown(p: SparePart, term: string, lowOnly: bool)
  {
    MatchesSearch(p, term) && (lowOnly ==> AtOrBelowThreshold(p))
  }

  /** filteredParts: the parts the list shows, in the order fetched. */
  function FilteredParts(parts: seq<SparePart>, term: string, lowOnly: bool): (r: seq<SparePart>)
    ensures forall p :: p in r <==> p in parts && Shown(p, term, lowOnly)
    ensures forall p :: multiset(r)[p] == if Shown(p, term, lowOnly) then multiset(parts)[p] else 0
    ensures IsSubsequence(r, parts)
  {
    Filter(parts, (p: SparePart) => Shown(p, term, lowOnly))
  }

  /** An empty search with the toggle off shows every part. */
  lemma EmptySearchShowsAll(parts: seq<SparePart>)
    ensures FilteredParts(parts, "", false) == parts
  {
    forall i | 0 <= i < |parts| ensures Shown(parts[i], "", false) {
      IncludesEmpty(ToLower(parts[i].name));
    }
    FilterKeepsAll(parts, (p: SparePart) => Shown(p, "", false));
  }

  /** With the toggle on, every part shown is at or below its threshold, and
      every part shown that has a threshold is one the server's low-stock
      query returns too. */
  lemma LowOnlyShowsLowStock(parts: seq<SparePart>, term: string)
    ensures forall p :: p in FilteredParts(parts, term, true) ==> AtOrBelowThreshold(p)
    ensures forall p :: p in FilteredParts(parts, term, true) && p.lowStockThreshold.Some? ==> LowStock(p)
  {
  }

  /** The Low Stock badge (and the red dot and red stock figure). */
  predicate ShowsLowStockBadge(p: SparePart): (shown: bool)
    ensures p.lowStockThreshold.Some? ==> (shown <==> LowStock(p))
    ensures p.lowStockThreshold.None? ==> (shown <==> p.quantity <= 0)
  {
    AtOrBelowThreshold(p)
  }

  /** For a part whose threshold is null the two differ: out of stock, it
      carries the badge but the server's low-stock list leaves it out. */
  lemma NullThresholdBadgeOnly(p: SparePart)
    requires p.lowStockThreshold.None? && p.quantity <= 0
    ensures ShowsLowStockBadge(p) && !LowStock(p)
  {
  }

  /** The form's text fields. */
  datatype SparePartForm = SparePartForm(name: string, partNumber: string, price: string, quantity: string,
                                         lowStockThreshold: string, barcode: string)

  /** resetForm (and the initial form): every field empty except the
      threshold, which is "2". */
  function EmptyForm(): (f: SparePartForm)
    ensures f.name == "" && f.partNumber == "" && f.price == "" && f.quantity == "" && f.barcode == ""
    ensures ParseInt(f.lowStockThreshold) == Some(DefaultLowStockThreshold)
  {
    assert AllDigits("2");
    SparePartForm("", "", "", "", "2", "")
  }

  /** handleEdit: the part's values as text. `lowStockThreshold.toString()`
      throws on a null threshold, which is None here. */
  function EditForm(p: SparePart): (r: Option<SparePartForm>)
    ensures r.Some? <==> p.lowStockThreshold.Some?
  {
    if p.lowStockThreshold.None? then None
    else
      var code := if p.barcode.Some? then p.barcode.value else "";
      Some(SparePartForm(p.name, p.partNumber, IntToString(p.price), IntToString(p.quantity),
                         IntToString(p.lowStockThreshold.value), code))
  }

  /** The body handleSubmit sends. A number that does not parse is NaN,
      which JSON turns into null (None here); an empty barcode is sent as
      null. */
  datatype PartBody = PartBody(name: string, partNumber: string, price: Option<int>, quantity: Option<int>,
                               lowStockThreshold: Option<int>, barcode: Option<string>)

  function SubmitPart(f: SparePartForm): (b: PartBody)
    ensures b.barcode.None? <==> f.barcode == ""
    ensures b.barcode.Some? ==> b.barcode.value == f.barcode
    ensures b.name == f.name && b.partNumber == f.partNumber
    ensures b.price == ParseInt(f.price) && b.quantity == ParseInt(f.quantity)
    ensures b.lowStockThreshold == ParseInt(f.lowStockThreshold)
  {
    PartBody(f.name, f.partNumber, ParseInt(f.price), ParseInt(f.quantity), ParseInt(f.lowStockThreshold),
             if f.barcode == "" then None else Some(f.barcode))
  }

  /** A new part submitted with only its name, number, price and quantity
      filled in is sent with threshold 2, the column default, and no barcode. */
  lemma FreshFormSendsTheDefaults(name: string, partNumber: string, price: string, quantity: string)
    ensures var b := SubmitPart(EmptyForm().(name := name, partNumber := partNumber, price := price, quantity := quantity));
            b.lowStockThreshold == Some(DefaultLowStockThreshold) && b.barcode.None?
  {
  }

  /** Opening a part for editing and submitting without changes sends the
      part's own values back; a part with an empty-string barcode is sent
      with a null one. */
  lemma EditThenSubmitSendsThePart(p: SparePart)
    requires p.lowStockThreshold.Some?
    ensures var b := SubmitPart(EditForm(p).value);
            b.name == p.name && b.partNumber == p.partNumber
            && b.price == Some(p.price) && b.quantity == Some(p.quantity)
            && b.lowStockThreshold == p.lowStockThreshold
            && b.barcode == (if p.barcode == Some("") then None else p.barcode)
  {
    ParseIntOfIntToString(p.price);
    ParseIntOfIntToString(p.quantity);
    ParseIntOfIntToString(p.lowStockThreshold.value);
  }
}
