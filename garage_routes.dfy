/** The garage-scoped handlers that write: job-card creation with its
    stock debit, job-card update, invoice issuance, the spare-part update
    and delete, and the garage update. Each handler runs after the guard
    chain of its route (see `Middleware.Gate`); the garage update is
    modelled together with its chain because its chain is where it goes
    wrong. */
module GarageRoutes {
  import opened Common
  import opened Schema
  import opened Storage
  import opened Middleware

  // ---------------------------------------------------------------------
  // Customer reuse

  predicate SameVehicle(c: Customer, phone: string, bikeNumber: string)
  {
    c.phone == phone && c.bikeNumber == bikeNumber
  }

  /** `i` is the first position of `customers` holding that phone and bike. */
  predicate FirstVehicleAt(customers: seq<Customer>, phone: string, bikeNumber: string, i: int)
  {
    0 <= i < |customers| && SameVehicle(customers[i], phone, bikeNumber)
    && forall j :: 0 <= j < i ==> !SameVehicle(customers[j], phone, bikeNumber)
  }

  /** `customers.find(c => c.phone === phone && c.bikeNumber === bikeNumber)`. */
  function MatchingCustomer(customers: seq<Customer>, phone: string, bikeNumber: string): (r: Option<Customer>)
    ensures r.Some? ==> exists i :: FirstVehicleAt(customers, phone, bikeNumber, i) && customers[i] == r.value
    ensures r.None? ==> forall c :: c in customers ==> !SameVehicle(c, phone, bikeNumber)
  {
    if customers == [] then None
    else if SameVehicle(customers[0], phone, bikeNumber) then
      assert FirstVehicleAt(customers, phone, bikeNumber, 0);
      Some(customers[0])
    else
      var r := MatchingCustomer(customers[1..], phone, bikeNumber);
      assert customers == [customers[0]] + customers[1..];
      if r.Some? then
        var i :| FirstVehicleAt(customers[1..], phone, bikeNumber, i) && customers[1..][i] == r.value;
        assert FirstVehicleAt(customers, phone, bikeNumber, i + 1);
        r
      else r
  }

  // ---------------------------------------------------------------------
  // Stock debit

  /** One pass of the loop body: if the listed part belongs to the garage,
      its quantity drops by the listed quantity (with no floor at zero);
      a part that does not resolve is skipped. */
  function DebitOne(parts: seq<SparePart>, line: PartLine, garageId: string): (after: seq<SparePart>)
    ensures |after| == |parts|
    ensures forall i :: 0 <= i < |parts| ==> after[i] == parts[i].(quantity := after[i].quantity)
    ensures forall i :: 0 <= i < |parts| && parts[i].id != line.id ==> after[i] == parts[i]
  {
    var part := FindScoped(parts, PartKey, PartTenant, line.id, garageId);
    if part.Some? then PatchWhere(parts, PartKey, line.id, PatchSparePart, QuantityPatch(part.value.quantity - line.quantity))
    else parts
  }

  /** The stock after the loop has run over `lines`, in order. */
  function DebitAll(parts: seq<SparePart>, lines: seq<PartLine>, garageId: string): (after: seq<SparePart>)
    ensures |after| == |parts|
    ensures forall i :: 0 <= i < |parts| ==> after[i] == parts[i].(quantity := after[i].quantity)
    decreases |lines|
  {
    if lines == [] then parts
    else DebitOne(DebitAll(parts, lines[..|lines| - 1], garageId), lines[|lines| - 1], garageId)
  }

  /** The total quantity `lines` lists for part `id`. */
  function ListedQuantity(lines: seq<PartLine>, id: string): int
    decreases |lines|
  {
    if lines == [] then 0
    else ListedQuantity(lines[..|lines| - 1], id) + (if lines[|lines| - 1].id == id then lines[|lines| - 1].quantity else 0)
  }

  predicate DistinctIds(parts: seq<SparePart>)
  {
    forall a, b :: 0 <= a < b < |parts| ==> parts[a].id != parts[b].id
  }

  /** What the debit loop does to the stock as a whole: each part of the
      garage loses the total quantity the lines list for it, and every part
      of another garage is untouched. */
  lemma {:induction false} DebitAllClosedForm(parts: seq<SparePart>, lines: seq<PartLine>, garageId: string)
    requires DistinctIds(parts)
    ensures |DebitAll(parts, lines, garageId)| == |parts|
    ensures forall i :: 0 <= i < |parts| ==>
              DebitAll(parts, lines, garageId)[i]
              == if parts[i].garageId == garageId
                 then parts[i].(quantity := parts[i].quantity - ListedQuantity(lines, parts[i].id))
                 else parts[i]
    decreases |lines|
  {
    if lines != [] {
      var pre := lines[..|lines| - 1];
      var last := lines[|lines| - 1];
      DebitAllClosedForm(parts, pre, garageId);
      var d := DebitAll(parts, pre, garageId);
      assert forall i :: 0 <= i < |d| ==> d[i].id == parts[i].id;
      DebitOneOnDistinct(d, last, garageId);
    }
  }

  /** One pass over parts with distinct ids: the garage's part with the
      listed id loses the listed quantity, and every other part is kept. */
  lemma DebitOneOnDistinct(d: seq<SparePart>, line: PartLine, garageId: string)
    requires DistinctIds(d)
    ensures forall i :: 0 <= i < |d| ==>
              DebitOne(d, line, garageId)[i]
              == if d[i].garageId == garageId && d[i].id == line.id
                 then d[i].(quantity := d[i].quantity - line.quantity)
                 else d[i]
  {
    var part := FindScoped(d, PartKey, PartTenant, line.id, garageId);
    if part.Some? {
      var k :| 0 <= k < |d| && d[k] == part.value;
      forall i | 0 <= i < |d| && d[i].id == line.id ensures i == k {
      }
    } else {
      forall i | 0 <= i < |d| && d[i].garageId == garageId ensures d[i].id != line.id {
        assert d[i] in d;
      }
    }
  }

  /** The stock debit has no floor: a part can go below zero. */
  lemma DebitCanGoNegative(p: SparePart, line: PartLine)
    requires line.id == p.id && p.quantity == 1 && line.quantity == 3
    ensures DebitAll([p], [line], p.garageId) == [p.(quantity := -2)]
  {
    DebitAllClosedForm([p], [line], p.garageId);
    assert [line][..0] == [];
  }

  // ---------------------------------------------------------------------
  // POST /api/garages/:garageId/job-cards

  /** DebitOne in terms of the part the lookup found. */
  lemma DebitOneBy(parts: seq<SparePart>, line: PartLine, garageId: string, found: Option<SparePart>)
    requires found == FindScoped(parts, PartKey, PartTenant, line.id, garageId)
    ensures found.Some? ==> DebitOne(parts, line, garageId) == PatchWhere(parts, PartKey, line.id, PatchSparePart, QuantityPatch(found.value.quantity - line.quantity))
    ensures found.None? ==> DebitOne(parts, line, garageId) == parts
  {
    var part := FindScoped(parts, PartKey, PartTenant, line.id, garageId);
    assert part == found;
    if found.Some? {
      var q := QuantityPatch(part.value.quantity - line.quantity);
      assert DebitOne(parts, line, garageId) == PatchWhere(parts, PartKey, line.id, PatchSparePart, q);
    }
  }

  /** The loop body: look the part up in the garage and, if found, write
      back its quantity less the listed quantity. */
  method DebitLine(s: Store, line: PartLine, garageId: string)
    requires s.Valid()
    modifies s
    ensures s.Valid()
    ensures s.State() == old(s.State()).(spareParts := DebitOne(old(s.spareParts), line, garageId))
  {
    var part := s.GetSparePart(line.id, garageId);
    DebitOneBy(s.spareParts, line, garageId, part);
    if part.Some? {
      var _ := s.UpdateSparePart(line.id, QuantityPatch(part.value.quantity - line.quantity));
    }
  }

  lemma DebitAllStep(parts: seq<SparePart>, lines: seq<PartLine>, k: nat, garageId: string)
    requires k < |lines|
    ensures DebitAll(parts, lines[..k + 1], garageId) == DebitOne(DebitAll(parts, lines[..k], garageId), lines[k], garageId)
  {
    assert lines[..k + 1][..k] == lines[..k];
  }

  /** The loop over the card's parts: each part that resolves in the garage
      is debited by the listed quantity, in list order. */
  method DebitStock(s: Store, lines: seq<PartLine>, garageId: string)
    requires s.Valid()
    modifies s
    ensures s.Valid()
    ensures s.State() == old(s.State()).(spareParts := DebitAll(old(s.spareParts), lines, garageId))
  {
    var k := 0;
    while k < |lines|
      invariant 0 <= k <= |lines|
      invariant s.Valid()
      invariant s.State() == old(s.State()).(spareParts := DebitAll(old(s.spareParts), lines[..k], garageId))
    {
      DebitLine(s, lines[k], garageId);
      DebitAllStep(old(s.spareParts), lines, k, garageId);
      k := k + 1;
    }
    assert lines[..k] == lines;
  }

  /** The JSON body of a job-card POST, before validation. */
  datatype JobCardRequest = JobCardRequest(customerId: Option<string>, customerName: string, phone: string,
                                           bikeNumber: string, complaint: string,
                                           spareParts: Option<seq<PartLine>>, serviceCharge: Nullable<int>,
                                           totalAmount: Nullable<int>)

  /** `insertJobCardSchema.parse({ ...req.body, garageId })` as written: the
      insert schema omits id, createdAt, status and completedAt but not
      customerId, a required column, so a body without one is rejected
      before the handler can look the customer up. */
  function ParseJobCardAsWritten(req: JobCardRequest, garageId: string): (r: Option<NewJobCard>)
    ensures r.Some? <==> req.customerId.Some?
    ensures r.Some? ==> r.value == ParseJobCard(req, garageId).(customerId := req.customerId.value)
  {
    if req.customerId.None? then None
    else Some(NewJobCard(garageId, req.customerId.value, req.customerName, req.phone, req.bikeNumber,
                         req.complaint, req.spareParts, req.serviceCharge, req.totalAmount))
  }

  /** The validation the handler needs: customerId is not asked of the
      client, since the handler fills it in with the customer it finds or
      creates (left empty until then). Every other field is taken as sent. */
  function ParseJobCard(req: JobCardRequest, garageId: string): (n: NewJobCard)
    ensures n.garageId == garageId && n.customerName == req.customerName && n.phone == req.phone
    ensures n.bikeNumber == req.bikeNumber && n.complaint == req.complaint
    ensures n.spareParts == req.spareParts && n.serviceCharge == req.serviceCharge
    ensures n.totalAmount == req.totalAmount
  {
    NewJobCard(garageId, req.customerId.GetOr(""), req.customerName, req.phone, req.bikeNumber,
               req.complaint, req.spareParts, req.serviceCharge, req.totalAmount)
  }

  /** The route as written: a body the schema rejects is answered 500 and
      nothing is written; a body with a customer id is filed as `PostJobCard`
      files it (the sent customer id is then replaced by the one found or
      created). */
  method PostJobCardAsWritten(s: Store, garageId: string, req: JobCardRequest) returns (r: Result<JobCard>)
    requires s.Valid()
    modifies s
    ensures s.Valid()
    ensures req.customerId.None? ==>
              r == Err(HttpError(500, "Failed to create job card")) && s.State() == old(s.State())
    ensures req.customerId.Some? && old(s.GetGarage(garageId)).None? ==>
              r == Err(HttpError(500, "Failed to create job card")) && s.State() == old(s.State())
    ensures req.customerId.Some? && old(s.GetGarage(garageId)).Some? ==> r.Ok?
    ensures req.customerId.Some? && r.Ok? ==>
              var body := ParseJobCardAsWritten(req, garageId).value;
              var filed := FiledState(old(s.State()), garageId, body);
              r.value == filed.1
              && s.State() == filed.0.(spareParts := DebitAll(old(s.spareParts), body.spareParts.GetOr([]), garageId))
  {
    var body := ParseJobCardAsWritten(req, garageId);
    if body.None? {
      return Err(HttpError(500, "Failed to create job card"));
    }
    r := PostJobCard(s, garageId, body.value);
  }

  /** The customer a new card is filed under is the first garage customer
      (newest first) with the same phone and bike; otherwise a new customer
      is created from the card's name, phone and bike. The card is inserted
      with that customer's id and the listed parts (default []), then every
      listed part of the garage is debited. A missing garage makes the
      insert fail with 500 and nothing is written. */
  method PostJobCard(s: Store, garageId: string, body: NewJobCard) returns (r: Result<JobCard>)
    requires s.Valid()
    modifies s
    ensures s.Valid()
    ensures old(s.GetGarage(garageId)).None? ==>
              r == Err(HttpError(500, "Failed to create job card")) && s.State() == old(s.State())
    ensures old(s.GetGarage(garageId)).Some? ==> r.Ok?
    ensures r.Ok? ==>
              var filed := FiledState(old(s.State()), garageId, body);
              var lines := body.spareParts.GetOr([]);
              r.value == filed.1
              && s.State() == filed.0.(spareParts := DebitAll(old(s.spareParts), lines, garageId))
  {
    var card := FileJobCard(s, garageId, body);
    if card.None? {
      return Err(HttpError(500, "Failed to create job card"));
    }
    DebitStock(s, card.value.spareParts.value, garageId);
    r := Ok(card.value);
  }

  /** The card a job-card POST inserts for customer `customerId`. */
  function FiledCard(serial: nat, now: nat, garageId: string, body: NewJobCard, customerId: string): JobCard
  {
    InsertedJobCard(IdOf(serial), now, body.(garageId := garageId, customerId := customerId, spareParts := Some(body.spareParts.GetOr([]))))
  }

  /** The database after the customer lookup-or-insert and the card insert
      of a job-card POST, with the inserted card. */
  function FiledState(d: Db, garageId: string, body: NewJobCard): (r: (Db, JobCard))
    ensures r.0 == d.(customers := r.0.customers, jobCards := d.jobCards + [r.1], serial := r.0.serial)
    ensures d.customers <= r.0.customers && |r.0.customers| <= |d.customers| + 1
    ensures d.serial < r.0.serial <= d.serial + 2 && r.1.id == IdOf(r.0.serial - 1)
  {
    var found := MatchingCustomer(Where(Reverse(d.customers), CustomerTenant, garageId), body.phone, body.bikeNumber);
    var newCustomer := InsertedCustomer(IdOf(d.serial), d.now,
                                        NewCustomer(garageId, body.customerName, body.phone, body.bikeNumber));
    var customer := if found.Some? then found.value else newCustomer;
    var cardSerial := if found.Some? then d.serial else d.serial + 1;
    var card := FiledCard(cardSerial, d.now, garageId, body, customer.id);
    (d.(customers := if found.Some? then d.customers else d.customers + [newCustomer],
        jobCards := d.jobCards + [card], serial := cardSerial + 1), card)
  }

  /** A filed card is pending, carries the listed parts, and belongs to a
      customer of the same garage with the card's phone and bike; a customer
      is added exactly when the garage had none with that phone and bike. */
  lemma FiledCardHasItsCustomer(d: Db, garageId: string, body: NewJobCard)
    ensures var f := FiledState(d, garageId, body);
            var card := f.1;
            card.garageId == garageId && card.status == Pending && card.completedAt.None?
            && card.spareParts == Some(body.spareParts.GetOr([]))
            && (exists c :: c in f.0.customers && c.id == card.customerId && c.garageId == garageId
                            && SameVehicle(c, body.phone, body.bikeNumber))
            && (f.0.customers != d.customers <==>
                  forall c :: c in d.customers && c.garageId == garageId ==> !SameVehicle(c, body.phone, body.bikeNumber))
  {
    var mine := Where(Reverse(d.customers), CustomerTenant, garageId);
    var found := MatchingCustomer(mine, body.phone, body.bikeNumber);
    var f := FiledState(d, garageId, body);
    if found.Some? {
      var i :| FirstVehicleAt(mine, body.phone, body.bikeNumber, i) && mine[i] == found.value;
      assert found.value in mine;
      assert found.value in f.0.customers;
    } else {
      var c := f.0.customers[|d.customers|];
      assert c in f.0.customers;
      assert |f.0.customers| != |d.customers|;
    }
  }

  /** FiledState when the garage already has the customer. */
  lemma FiledStateFound(d: Db, garageId: string, body: NewJobCard, found: Customer)
    requires MatchingCustomer(Where(Reverse(d.customers), CustomerTenant, garageId), body.phone, body.bikeNumber) == Some(found)
    ensures var card := FiledCard(d.serial, d.now, garageId, body, found.id);
            FiledState(d, garageId, body) == (d.(jobCards := d.jobCards + [card], serial := d.serial + 1), card)
  {
    var card := FiledCard(d.serial, d.now, garageId, body, found.id);
    assert FiledState(d, garageId, body).1 == card;
    assert FiledState(d, garageId, body).0 == d.(customers := d.customers, jobCards := d.jobCards + [card], serial := d.serial + 1);
  }

  /** FiledState when the customer is created first. */
  lemma FiledStateNew(d: Db, garageId: string, body: NewJobCard)
    requires MatchingCustomer(Where(Reverse(d.customers), CustomerTenant, garageId), body.phone, body.bikeNumber).None?
    ensures var c := InsertedCustomer(IdOf(d.serial), d.now, NewCustomer(garageId, body.customerName, body.phone, body.bikeNumber));
            var card := FiledCard(d.serial + 1, d.now, garageId, body, c.id);
            FiledState(d, garageId, body) == (d.(customers := d.customers + [c], jobCards := d.jobCards + [card], serial := d.serial + 2), card)
  {
  }

  /** The card insert of a job-card POST, for a customer already stored. */
  method FileFor(s: Store, garageId: string, body: NewJobCard, c: Customer) returns (r: Option<JobCard>)
    requires s.Valid() && c in s.customers
    modifies s
    ensures s.Valid()
    ensures r.None? <==> old(s.GetGarage(garageId)).None?
    ensures r.None? ==> s.State() == old(s.State())
    ensures r.Some? ==> r.value == FiledCard(old(s.serial), old(s.now), garageId, body, c.id)
                        && s.State() == old(s.State()).(jobCards := old(s.jobCards) + [r.value], serial := old(s.serial) + 1)
  {
    r := s.CreateJobCard(body.(garageId := garageId, customerId := c.id, spareParts := Some(body.spareParts.GetOr([]))));
  }

  /** Files the card without touching stock; None when the garage does not exist. */
  method FileJobCard(s: Store, garageId: string, body: NewJobCard) returns (r: Option<JobCard>)
    requires s.Valid()
    modifies s
    ensures s.Valid()
    ensures r.None? <==> old(s.GetGarage(garageId)).None?
    ensures r.None? ==> s.State() == old(s.State())
    ensures r.Some? ==> (s.State(), r.value) == FiledState(old(s.State()), garageId, body)
  {
    ghost var d := s.State();
    var found := MatchingCustomer(s.GetCustomers(garageId), body.phone, body.bikeNumber);
    if found.Some? {
      FiledStateFound(d, garageId, body, found.value);
      r := FileFor(s, garageId, body, found.value);
      if r.Some? {
        assert s.State() == d.(jobCards := d.jobCards + [r.value], serial := d.serial + 1);
      }
    } else {
      FiledStateNew(d, garageId, body);
      var c := s.CreateCustomer(NewCustomer(garageId, body.customerName, body.phone, body.bikeNumber));
      if c.None? {
        return None;
      }
      ghost var e := s.State();
      assert e == d.(customers := d.customers + [c.value], serial := d.serial + 1);
      r := FileFor(s, garageId, body, c.value);
      if r.Some? {
        assert s.State() == e.(jobCards := e.jobCards + [r.value], serial := e.serial + 1);
        assert s.State() == d.(customers := d.customers + [c.value], jobCards := d.jobCards + [r.value], serial := d.serial + 2);
      }
    }
  }

  // ---------------------------------------------------------------------
  // PUT /api/garages/:garageId/job-cards/:id

  /** The body a job-card update keeps: the insert schema omits status and
      completedAt, so those two keys are stripped from the request. */
  function JobCardUpdateBody(p: JobCardPatch): (q: JobCardPatch)
    ensures q.status.None? && q.completedAt.None?
    ensures q.(status := p.status, completedAt := p.completedAt) == p
  {
    p.(status := None, completedAt := None)
  }

  /** A job-card update never changes the status or the completion time. */
  lemma UpdateKeepsCompletion(j: JobCard, p: JobCardPatch)
    ensures PatchJobCard(j, JobCardUpdateBody(p)).status == j.status
    ensures PatchJobCard(j, JobCardUpdateBody(p)).completedAt == j.completedAt
  {
  }

  /** Updates the card with that id in whichever garage it is. */
  method PutJobCard(s: Store, garageId: string, id: string, patch: JobCardPatch) returns (r: Result<Option<JobCard>>)
    requires s.Valid()
    modifies s
    ensures s.Valid()
    ensures s.State() == old(s.State()).(jobCards := PatchWhere(old(s.jobCards), JobCardKey, id, PatchJobCard, JobCardUpdateBody(patch)))
    ensures r == Ok(if old(s.JobCardById(id)).Some? then Some(PatchJobCard(old(s.JobCardById(id)).value, JobCardUpdateBody(patch))) else None)
  {
    var card := s.UpdateJobCard(id, JobCardUpdateBody(patch));
    r := Ok(card);
  }

  // ---------------------------------------------------------------------
  // POST /api/garages/:garageId/invoices

  /** Inserts the invoice, marks the referenced job card completed now, and,
      if the card's customer is in this garage, adds one job, the invoice
      total and a visit to that customer. There is no check for an earlier
      invoice of the same card. The insert fails with 500 and writes nothing
      when the garage, the job card or the customer does not exist. */
  method PostInvoice(s: Store, garageId: string, body: NewInvoice) returns (r: Result<Invoice>)
    requires s.Valid()
    modifies s
    ensures s.Valid()
    ensures old(s.GetGarage(garageId)).None? || old(s.JobCardById(body.jobCardId)).None?
            || old(s.CustomerById(body.customerId)).None? ==>
              r == Err(HttpError(500, "Failed to create invoice")) && s.State() == old(s.State())
    ensures old(s.GetGarage(garageId)).Some? && old(s.JobCardById(body.jobCardId)).Some?
            && old(s.CustomerById(body.customerId)).Some? ==>
              var v := InsertedInvoice(IdOf(old(s.serial)), old(s.now), body.(garageId := garageId));
              var cid := old(s.JobCardById(body.jobCardId)).value.customerId;
              var c := old(s.GetCustomer(cid, garageId));
              r == Ok(v)
              && s.State() == old(s.State()).(
                   invoices := old(s.invoices) + [v],
                   jobCards := PatchWhere(old(s.jobCards), JobCardKey, body.jobCardId, PatchJobCard, CompletionPatch(old(s.now))),
                   customers := if c.Some? then PatchWhere(old(s.customers), CustomerKey, cid, PatchCustomer,
                                                           VisitPatch(c.value, body.totalAmount, old(s.now)))
                                else old(s.customers),
                   serial := old(s.serial) + 1)
  {
    var inv := s.CreateInvoice(body.(garageId := garageId));
    if inv.None? {
      return Err(HttpError(500, "Failed to create invoice"));
    }
    var card := CompleteJobCard(s, inv.value.jobCardId);
    RecordVisit(s, card.customerId, garageId, inv.value.totalAmount);
    r := Ok(inv.value);
  }

  /** updateJobCard(id, {status: 'completed', completedAt: now}) on a card
      that exists; returns the updated card. */
  method CompleteJobCard(s: Store, id: string) returns (card: JobCard)
    requires s.Valid() && s.JobCardById(id).Some?
    modifies s
    ensures s.Valid()
    ensures s.State() == old(s.State()).(jobCards := PatchWhere(old(s.jobCards), JobCardKey, id, PatchJobCard, CompletionPatch(old(s.now))))
    ensures card == PatchJobCard(old(s.JobCardById(id)).value, CompletionPatch(old(s.now)))
  {
    var updated := s.UpdateJobCard(id, CompletionPatch(s.now));
    card := updated.value;
  }

  /** If the customer is found in the garage: one more job, the amount added
      to what they spent, and the visit time; otherwise nothing changes. */
  method RecordVisit(s: Store, customerId: string, garageId: string, amount: int)
    requires s.Valid()
    modifies s
    ensures s.Valid()
    ensures var c := old(s.GetCustomer(customerId, garageId));
            s.State() == old(s.State()).(customers := if c.Some? then PatchWhere(old(s.customers), CustomerKey, customerId, PatchCustomer,
                                                                                 VisitPatch(c.value, amount, old(s.now)))
                                                     else old(s.customers))
  {
    var customer := s.GetCustomer(customerId, garageId);
    if customer.Some? {
      ghost var people := s.customers;
      var p := VisitPatch(customer.value, amount, s.now);
      KeyedRowIsUnique(people, CustomerKey, customer.value);
      var _ := s.UpdateCustomer(customer.value.id, p);
    }
  }

  /** After an invoice, its job card is completed at the invoice time and
      still belongs to the same customer. */
  lemma InvoiceClosesTheCard(cards: seq<JobCard>, id: string, at: nat)
    requires FindKey(cards, JobCardKey, id).Some?
    ensures var card := FindKey(PatchWhere(cards, JobCardKey, id, PatchJobCard, CompletionPatch(at)), JobCardKey, id);
            card.Some? && card.value.status == Completed && card.value.completedAt == Some(at)
            && card.value.customerId == FindKey(cards, JobCardKey, id).value.customerId
  {
    FindKeyAfterPatch(cards, JobCardKey, id, PatchJobCard, CompletionPatch(at));
  }

  /** After an invoice, the card's customer has one more job, the invoice
      total added to what they spent, and the invoice time as last visit;
      nothing else about them changes. */
  lemma InvoiceCountsTheVisit(customers: seq<Customer>, c: Customer, amount: int, at: nat)
    requires c in customers
    requires forall a, b :: 0 <= a < b < |customers| ==> customers[a].id != customers[b].id
    ensures var d := FindKey(PatchWhere(customers, CustomerKey, c.id, PatchCustomer, VisitPatch(c, amount, at)), CustomerKey, c.id);
            d.Some? && d.value.totalJobs == Some(OrZero(c.totalJobs) + 1)
            && d.value.totalSpent == Some(OrZero(c.totalSpent) + amount) && d.value.lastVisit == Some(at)
            && d.value.(totalJobs := c.totalJobs, totalSpent := c.totalSpent, lastVisit := c.lastVisit) == c
  {
    KeyedRowIsUnique(customers, CustomerKey, c);
    FindKeyAfterPatch(customers, CustomerKey, c.id, PatchCustomer, VisitPatch(c, amount, at));
  }

  /** Two invoices for the same card count two jobs and both totals. */
  lemma RepeatInvoiceCountsTwice(c: Customer, a: int, b: int, t1: nat, t2: nat)
    ensures var c1 := PatchCustomer(c, VisitPatch(c, a, t1));
            var c2 := PatchCustomer(c1, VisitPatch(c1, b, t2));
            c2.totalJobs == Some(OrZero(c.totalJobs) + 2) && c2.totalSpent == Some(OrZero(c.totalSpent) + a + b)
  {
  }

  // ---------------------------------------------------------------------
  // PUT and DELETE /api/garages/:garageId/spare-parts/:id

  /** As written: updates the part with that id in whichever garage it is;
      the garage in the path is only used by the guard. */
  method PutSparePart(s: Store, garageId: string, id: string, patch: SparePartPatch) returns (r: Result<Option<SparePart>>)
    requires s.Valid()
    modifies s
    ensures s.Valid()
    ensures s.State() == old(s.State()).(spareParts := PatchWhere(old(s.spareParts), PartKey, id, PatchSparePart, patch))
    ensures r == Ok(if old(s.SparePartById(id)).Some? then Some(PatchSparePart(old(s.SparePartById(id)).value, patch)) else None)
  {
    var part := s.UpdateSparePart(id, patch);
    r := Ok(part);
  }

  /** The unscoped update reaches a part of another garage: an admin of
      garage `g` who names the id of another garage's part changes it. */
  lemma UnscopedUpdateReachesOtherGarages(parts: seq<SparePart>, i: nat, g: string, q: int)
    requires i < |parts| && parts[i].garageId != g && parts[i].quantity != q
    ensures PatchWhere(parts, PartKey, parts[i].id, PatchSparePart, QuantityPatch(q))[i] != parts[i]
  {
  }

  /** The update an intended, garage-scoped PUT makes: only a part of this garage changes. */
  function ScopedPartPatch(parts: seq<SparePart>, id: string, garageId: string, patch: SparePartPatch): seq<SparePart>
  {
    if FindScoped(parts, PartKey, PartTenant, id, garageId).Some? then PatchWhere(parts, PartKey, id, PatchSparePart, patch)
    else parts
  }

  /** A garage-scoped update leaves every part of every other garage as it was. */
  lemma ScopedPatchStaysInGarage(parts: seq<SparePart>, id: string, garageId: string, patch: SparePartPatch)
    requires DistinctIds(parts)
    ensures |ScopedPartPatch(parts, id, garageId, patch)| == |parts|
    ensures forall i :: 0 <= i < |parts| && parts[i].garageId != garageId ==> ScopedPartPatch(parts, id, garageId, patch)[i] == parts[i]
  {
    var hit := FindScoped(parts, PartKey, PartTenant, id, garageId);
    if hit.Some? {
      var k :| 0 <= k < |parts| && parts[k] == hit.value;
      forall i | 0 <= i < |parts| && parts[i].garageId != garageId ensures parts[i].id != id {
        assert i != k;
      }
    }
  }

  /** Corrected: the part is updated only if it belongs to the garage in the path. */
  method PutSparePartScoped(s: Store, garageId: string, id: string, patch: SparePartPatch) returns (r: Result<Option<SparePart>>)
    requires s.Valid()
    modifies s
    ensures s.Valid()
    ensures s.State() == old(s.State()).(spareParts := ScopedPartPatch(old(s.spareParts), id, garageId, patch))
    ensures r == Ok(if old(s.GetSparePart(id, garageId)).Some? then Some(PatchSparePart(old(s.GetSparePart(id, garageId)).value, patch)) else None)
  {
    var part := s.GetSparePart(id, garageId);
    if part.None? {
      return Ok(None);
    }
    KeyedRowIsUnique(s.spareParts, PartKey, part.value);
    var updated := s.UpdateSparePart(id, patch);
    r := Ok(updated);
  }

  /** Deletes the part only if it belongs to the garage in the path; answers
      success either way. */
  method DeleteSparePartRoute(s: Store, garageId: string, id: string) returns (r: Result<bool>)
    requires s.Valid()
    modifies s
    ensures s.Valid()
    ensures r == Ok(true)
    ensures s.State() == old(s.State()).(spareParts := DeleteWhere(old(s.spareParts), PartKey, PartTenant, id, garageId))
    ensures forall p :: p in s.spareParts <==> p in old(s.spareParts) && !(p.id == id && p.garageId == garageId)
  {
    s.DeleteSparePart(id, garageId);
    r := Ok(true);
  }

  // ---------------------------------------------------------------------
  // PUT /api/garages/:id

  /** As written: the route names its garage `:id`, not `:garageId`, so the
      garage check sees no route parameter and compares the body's garageId. */
  method PutGarage(s: Store, header: Option<string>, verify: string -> Option<string>, id: string,
                   bodyGarageId: Option<string>, patch: GaragePatch) returns (r: Result<Option<Garage>>)
    requires s.Valid()
    modifies s
    ensures s.Valid()
    ensures var gate := old(Gate(s, header, verify, Some([GarageAdmin]), None, bodyGarageId));
            (gate.Err? ==> r == Err(gate.error) && s.State() == old(s.State()))
            && (gate.Ok? ==> s.State() == old(s.State()).(garages := PatchWhere(old(s.garages), GarageKey, id, PatchGarage, patch))
                             && r == Ok(if old(s.GetGarage(id)).Some? then Some(PatchGarage(old(s.GetGarage(id)).value, patch)) else None))
  {
    var gate := Gate(s, header, verify, Some([GarageAdmin]), None, bodyGarageId);
    if gate.Err? {
      return Err(gate.error);
    }
    var g := s.UpdateGarage(id, patch);
    r := Ok(g);
  }

  /** The admin of garage `a` gets through the guard of PUT /api/garages/`b`
      for any `b` by sending their own garage id in the body. */
  lemma GaragePutAdmitsOtherGarages(u: User, a: string, b: string)
    requires u.role == GarageAdmin && u.garageId == Some(a) && a != "" && b != "" && a != b
    ensures RequireRole(Some(u), [GarageAdmin]).Pass?
    ensures RequireGarageAccess(u, None, Some(a)).Pass?
    ensures RequireGarageAccess(u, Some(b), Some(a)).Fail?
  {
  }

  /** Corrected: the guard checks the garage named in the path. */
  method PutGarageChecked(s: Store, header: Option<string>, verify: string -> Option<string>, id: string,
                          bodyGarageId: Option<string>, patch: GaragePatch) returns (r: Result<Option<Garage>>)
    requires s.Valid()
    modifies s
    ensures s.Valid()
    ensures var gate := old(Gate(s, header, verify, Some([GarageAdmin]), Some(id), bodyGarageId));
            (gate.Err? ==> r == Err(gate.error) && s.State() == old(s.State()))
            && (gate.Ok? ==> s.State() == old(s.State()).(garages := PatchWhere(old(s.garages), GarageKey, id, PatchGarage, patch))
                             && r == Ok(if old(s.GetGarage(id)).Some? then Some(PatchGarage(old(s.GetGarage(id)).value, patch)) else None))
    ensures r.Ok? && id != "" ==>
              var u := old(Gate(s, header, verify, Some([GarageAdmin]), Some(id), bodyGarageId)).value;
              u.role == GarageAdmin && u.garageId == Some(id)
  {
    var gate := Gate(s, header, verify, Some([GarageAdmin]), Some(id), bodyGarageId);
    if gate.Err? {
      return Err(gate.error);
    }
    if id != "" {
      GateIsolatesGarages(s, header, verify, Some([GarageAdmin]), id, bodyGarageId);
    }
    var g := s.UpdateGarage(id, patch);
    r := Ok(g);
  }
}
