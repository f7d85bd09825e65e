/** The parts list of the new-job-card page: the rows the mechanic picks
    from the garage's spare parts, edited by hand or by scanning barcodes,
    and the total sent with the card. A row is a `PartLine`, the same record
    the server stores in a card's `spareParts`. */
module JobCardPage {
  import opened Common
  import opened Schema
  import opened Storage
  import opened GarageRoutes

  /** The row "Add Part" appends: no part chosen yet, quantity 1, price 0. */
  function BlankLine(): PartLine
  {
    PartLine("", "", 1, 0)
  }

  /** addSparePart: one blank row at the end, the rows before it as they were. */
  function AddSparePart(rows: seq<PartLine>): (r: seq<PartLine>)
    ensures |r| == |rows| + 1 && r[..|rows|] == rows && r[|rows|] == BlankLine()
  {
    rows + [BlankLine()]
  }

  /** `filter((_, i) => i !== index)` over `rows`, whose first element sits
      at position `at` of the whole list. */
  function KeepOthers(rows: seq<PartLine>, index: int, at: int): seq<PartLine>
  {
    if rows == [] then []
    else (if at == index then [] else [rows[0]]) + KeepOthers(rows[1..], index, at + 1)
  }

  lemma {:induction false} KeepOthersDropsOne(rows: seq<PartLine>, index: int, at: int)
    ensures KeepOthers(rows, index, at)
         == if at <= index < at + |rows| then rows[..index - at] + rows[index - at + 1..] else rows
  {
    if rows != [] {
      KeepOthersDropsOne(rows[1..], index, at + 1);
      if at == index {
      } else if at < index < at + |rows| {
        assert rows[..index - at] == [rows[0]] + rows[1..][..index - at - 1];
        assert rows[index - at + 1..] == rows[1..][index - at..];
      } else {
        assert rows == [rows[0]] + rows[1..];
      }
    }
  }

  /** removeSparePart: exactly row `index` goes, the others keep their
      order; an index outside the list removes nothing. */
  function RemoveSparePart(rows: seq<PartLine>, index: int): (r: seq<PartLine>)
    ensures 0 <= index < |rows| ==> r == rows[..index] + rows[index + 1..]
    ensures !(0 <= index < |rows|) ==> r == rows
  {
    KeepOthersDropsOne(rows, index, 0);
    KeepOthers(rows, index, 0)
  }

  /** `spareParts.find(p => p.barcode === barcode)`: a part with no barcode
      never matches. */
  function PartByBarcode(parts: seq<SparePart>, barcode: string): (r: Option<SparePart>)
    ensures r.Some? ==> r.value in parts && r.value.barcode == Some(barcode)
    ensures r.Some? ==> exists i :: 0 <= i < |parts| && parts[i] == r.value
                                    && forall j :: 0 <= j < i ==> parts[j].barcode != Some(barcode)
    ensures r.None? ==> forall p :: p in parts ==> p.barcode != Some(barcode)
  {
    if parts == [] then None
    else if parts[0].barcode == Some(barcode) then Some(parts[0])
    else
      var r := PartByBarcode(parts[1..], barcode);
      if r.Some? then
        var i :| 0 <= i < |parts[1..]| && parts[1..][i] == r.value
                 && forall j :: 0 <= j < i ==> parts[1..][j].barcode != Some(barcode);
        assert parts[i + 1] == r.value;
        assert forall j :: 1 <= j <= i ==> parts[j] == parts[1..][j - 1];
        r
      else r
  }

  /** `rows.findIndex(p => p.id === id)`: the first row for part `id`. */
  function RowOf(rows: seq<PartLine>, id: string): (r: Option<nat>)
    ensures r.Some? ==> r.value < |rows| && rows[r.value].id == id
                        && forall j :: 0 <= j < r.value ==> rows[j].id != id
    ensures r.None? ==> forall j :: 0 <= j < |rows| ==> rows[j].id != id
  {
    if rows == [] then None
    else if rows[0].id == id then Some(0)
    else
      var r := RowOf(rows[1..], id);
      if r.Some? then
        assert forall j :: 1 <= j <= r.value ==> rows[j] == rows[1..][j - 1];
        Some(r.value + 1)
      else
        assert forall j :: 1 <= j < |rows| ==> rows[j] == rows[1..][j - 1];
        None
  }

  /** The row a catalogue part becomes: its id, name and price, with the
      given quantity. */
  function LineOf(p: SparePart, quantity: int): PartLine
  {
    PartLine(p.id, p.name, quantity, p.price)
  }

  /** One call of updateSparePart(index, field, value). */
  datatype Edit = SetId(id: string) | SetName(name: string) | SetQuantity(quantity: int) | SetPrice(price: int)

  function LineTotal(l: PartLine): int
  {
    l.price * l.quantity
  }

  /** The totalAmount handleSubmit sends: price times quantity summed over
      the rows, with no service charge. */
  function SubmitTotal(rows: seq<PartLine>): (total: int)
    ensures rows == [] ==> total == 0
    ensures (forall i :: 0 <= i < |rows| ==> rows[i].price >= 0 && rows[i].quantity >= 0) ==> total >= 0
  {
    NonNegativeLinesSum(rows);
    Sum(rows, LineTotal)
  }

  /** Lines with no negative price or quantity sum to no less than zero. */
  lemma {:induction false} NonNegativeLinesSum(rows: seq<PartLine>)
    ensures (forall i :: 0 <= i < |rows| ==> rows[i].price >= 0 && rows[i].quantity >= 0) ==> Sum(rows, LineTotal) >= 0
  {
    if rows != [] && forall i :: 0 <= i < |rows| ==> rows[i].price >= 0 && rows[i].quantity >= 0 {
      assert forall i :: 0 <= i < |rows[1..]| ==> rows[1..][i] == rows[i + 1];
      NonNegativeLinesSum(rows[1..]);
      assert LineTotal(rows[0]) >= 0;
    }
  }

  /** A blank row adds nothing to the total. */
  lemma BlankRowCostsNothing(rows: seq<PartLine>)
    ensures SubmitTotal(AddSparePart(rows)) == SubmitTotal(rows)
  {
    SumAppend(rows, [BlankLine()], LineTotal);
  }

  /** Removing a row takes exactly its price times quantity off the total. */
  lemma RemovedRowLeavesTotal(rows: seq<PartLine>, index: int)
    requires 0 <= index < |rows|
    ensures SubmitTotal(RemoveSparePart(rows, index)) == SubmitTotal(rows) - LineTotal(rows[index])
  {
    assert rows == rows[..index] + [rows[index]] + rows[index + 1..];
    SumAppend(rows[..index] + [rows[index]], rows[index + 1..], LineTotal);
    SumAppend(rows[..index], [rows[index]], LineTotal);
    SumAppend(rows[..index], rows[index + 1..], LineTotal);
  }

  /** Raising one row's quantity by one adds that row's price to the total. */
  lemma BumpAddsOnePrice(rows: seq<PartLine>, index: int)
    requires 0 <= index < |rows|
    ensures SubmitTotal(rows[index := rows[index].(quantity := rows[index].quantity + 1)])
         == SubmitTotal(rows) + rows[index].price
  {
    var l := rows[index];
    var r := rows[index := l.(quantity := l.quantity + 1)];
    assert LineTotal(l.(quantity := l.quantity + 1)) == LineTotal(l) + l.price;
    assert rows == rows[..index] + [l] + rows[index + 1..];
    assert r == rows[..index] + [l.(quantity := l.quantity + 1)] + rows[index + 1..];
    SumAppend(rows[..index] + [l], rows[index + 1..], LineTotal);
    SumAppend(rows[..index], [l], LineTotal);
    SumAppend(rows[..index] + [l.(quantity := l.quantity + 1)], rows[index + 1..], LineTotal);
    SumAppend(rows[..index], [l.(quantity := l.quantity + 1)], LineTotal);
  }

  /** The form fields the page keeps besides the parts. */
  datatype JobCardForm = JobCardForm(customerName: string, phone: string, bikeNumber: string,
                                     complaint: string, date: string)

  /** The body handleSubmit posts: the form, the rows and their total. The
      page sends no customer id and no service charge; the server is to file
      the card under the customer it finds or creates. */
  function SubmitBody(form: JobCardForm, rows: seq<PartLine>): (b: JobCardRequest)
    ensures b.customerId.None? && b.serviceCharge.Omitted?
    ensures b.spareParts == Some(rows) && b.totalAmount == Given(SubmitTotal(rows))
    ensures b.customerName == form.customerName && b.phone == form.phone
    ensures b.bikeNumber == form.bikeNumber && b.complaint == form.complaint
  {
    JobCardRequest(None, form.customerName, form.phone, form.bikeNumber, form.complaint,
                   Some(rows), Omitted, Given(SubmitTotal(rows)))
  }

  /** As the route validates it, every card the page submits is refused:
      the body has no customer id. */
  lemma PageCardIsRefusedAsWritten(form: JobCardForm, rows: seq<PartLine>, garageId: string)
    ensures ParseJobCardAsWritten(SubmitBody(form, rows), garageId).None?
  {
  }

  /** With the validation the handler needs, a card filed from the page keeps
      the rows and their total, and its service charge takes the column
      default 0. */
  lemma SubmittedCardKeepsTheTotal(id: string, at: nat, form: JobCardForm, rows: seq<PartLine>, g: string, c: string)
    ensures var j := InsertedJobCard(id, at, ParseJobCard(SubmitBody(form, rows), g).(customerId := c));
            j.spareParts == Some(rows) && j.totalAmount == Some(SubmitTotal(rows))
            && j.serviceCharge == Some(0) && j.status == Pending && j.garageId == g && j.customerId == c
  {
  }

  /** The page's list of chosen parts, and the garage's parts it picks from. */
  class PartsEditor {
    var selected: seq<PartLine>
    const catalogue: seq<SparePart>

    constructor (parts: seq<SparePart>)
      ensures selected == [] && catalogue == parts
    {
      selected := [];
      catalogue := parts;
    }

    /** updateSparePart(index, field, value). Choosing a part by id copies
        the part's id, name and price into the row and keeps the row's
        quantity; an id that names no part changes nothing. Any other field
        is overwritten on its own. Every other row stays. */
    method UpdateSparePart(index: nat, e: Edit)
      requires index < |selected|
      modifies this
      ensures |selected| == |old(selected)|
      ensures forall j :: 0 <= j < |selected| && j != index ==> selected[j] == old(selected)[j]
      ensures e.SetId? ==>
                var part := FindKey(catalogue, PartKey, e.id);
                if part.Some? then selected[index] == LineOf(part.value, old(selected)[index].quantity)
                else selected == old(selected)
      ensures e.SetName? ==> selected[index] == old(selected)[index].(name := e.name)
      ensures e.SetQuantity? ==> selected[index] == old(selected)[index].(quantity := e.quantity)
      ensures e.SetPrice? ==> selected[index] == old(selected)[index].(price := e.price)
    {
      var row := selected[index];
      match e {
        case SetId(id) =>
          var part := FindKey(catalogue, PartKey, id);
          if part.Some? {
            selected := selected[index := LineOf(part.value, row.quantity)];
          }
        case SetName(name) =>
          selected := selected[index := row.(name := name)];
        case SetQuantity(quantity) =>
          selected := selected[index := row.(quantity := quantity)];
        case SetPrice(price) =>
          selected := selected[index := row.(price := price)];
      }
    }

    /** handleBarcodeScanned. A scanned part already in the list gets one
        more of it in its first row; a new one is appended with quantity 1;
        an unknown barcode changes nothing. The result tells which toast the
        page shows: "Part Added" (true) or "Part Not Found" (false). */
    method HandleBarcodeScanned(barcode: string) returns (added: bool)
      modifies this
      ensures added <==> PartByBarcode(catalogue, barcode).Some?
      ensures !added ==> selected == old(selected)
      ensures added ==>
                var part := PartByBarcode(catalogue, barcode).value;
                var at := RowOf(old(selected), part.id);
                if at.Some? then selected == old(selected)[at.value := old(selected)[at.value].(quantity := old(selected)[at.value].quantity + 1)]
                else selected == old(selected) + [LineOf(part, 1)]
    {
      var part := PartByBarcode(catalogue, barcode);
      if part.None? {
        return false;
      }
      var p := part.value;
      var existing := RowOf(selected, p.id);
      if existing.Some? {
        var i := existing.value;
        UpdateSparePart(i, SetQuantity(selected[i].quantity + 1));
        assert selected == old(selected)[i := old(selected)[i].(quantity := old(selected)[i].quantity + 1)];
      } else {
        selected := selected + [LineOf(p, 1)];
      }
      added := true;
    }
  }

  /** Scanning a part not yet in the list adds its price to the total (for
      one already there, see `BumpAddsOnePrice`). */
  lemma ScanAddsOnePrice(rows: seq<PartLine>, part: SparePart)
    ensures SubmitTotal(rows + [LineOf(part, 1)]) == SubmitTotal(rows) + part.price
  {
    SumAppend(rows, [LineOf(part, 1)], LineTotal);
  }
}
