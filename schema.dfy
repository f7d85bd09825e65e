/** The six tables of the shared schema: the record each row holds, the
    column defaults, the fields each insert schema accepts (the omitted
    ones take their defaults), and the partial updates the storage layer
    applies. Money is counted in paise; timestamps are clock readings. */
module Schema {
  import opened Common

  /** The `role` column, unconstrained text: the three roles the server
      knows, and any other value, which registration can write when the
      activation code names an inherited property (see
      `AuthRoutes.ActivationLookupAsWritten`); such a value carries that code. */
  datatype Role = GarageAdmin | MechanicStaff | SuperAdmin | Unlisted(code: string)

  /** The job-card `status` column: 'pending' or 'completed'. */
  datatype JobStatus = Pending | Completed

  /** The text stored in the `status` column and used in `?status=` queries. */
  function StatusText(s: JobStatus): string
  {
    match s
    case Pending => "pending"
    case Completed => "completed"
  }

  datatype Garage = Garage(id: string, name: string, ownerName: string, phone: string,
                           email: string, logo: Option<string>, createdAt: nat)

  /** garageId is the only nullable tenant column. */
  datatype User = User(id: string, email: string, password: string, role: Role,
                       garageId: Option<string>, name: string, createdAt: nat)

  /** totalJobs and totalSpent are nullable columns with defaults 0 and "0". */
  datatype Customer = Customer(id: string, garageId: string, name: string, phone: string,
                               bikeNumber: string, totalJobs: Option<int>, totalSpent: Option<int>,
                               lastVisit: Option<nat>, createdAt: nat)

  /** lowStockThreshold is nullable (default 2); barcode is nullable. */
  datatype SparePart = SparePart(id: string, garageId: string, name: string, partNumber: string,
                                 price: int, quantity: int, lowStockThreshold: Option<int>,
                                 barcode: Option<string>, createdAt: nat)

  /** One element of a job card's `spareParts` JSON array: a copy of the
      part's id, name and unit price taken when the card was written. */
  datatype PartLine = PartLine(id: string, name: string, quantity: int, price: int)

  /** spareParts is a nullable JSON column (default []); serviceCharge and
      totalAmount are nullable decimals (default "0"). */
  datatype JobCard = JobCard(id: string, garageId: string, customerId: string, customerName: string,
                             phone: string, bikeNumber: string, complaint: string, status: JobStatus,
                             spareParts: Option<seq<PartLine>>, serviceCharge: Option<int>,
                             totalAmount: Option<int>, createdAt: nat, completedAt: Option<nat>)

  /** pdfUrl is nullable; whatsappSent is a nullable boolean (default false). */
  datatype Invoice = Invoice(id: string, garageId: string, jobCardId: string, customerId: string,
                             invoiceNumber: string, pdfUrl: Option<string>, whatsappSent: Option<bool>,
                             totalAmount: int, partsTotal: int, serviceCharge: int, createdAt: nat)

  /** A JSON field of an insert payload that has a column default and may
      also be null: left out, sent as null, or given. */
  datatype Nullable<T> = Omitted | Null | Given(value: T)

  /** The column value an insert stores for such a field with default `d`. */
  function StoredOr<T>(n: Nullable<T>, d: T): (r: Option<T>)
    ensures n.Omitted? ==> r == Some(d)
    ensures n.Null? ==> r.None?
    ensures n.Given? ==> r == Some(n.value)
  {
    match n
    case Omitted => Some(d)
    case Null => None
    case Given(v) => Some(v)
  }

  // Insert shapes: id and createdAt are always omitted and generated.
  datatype NewGarage = NewGarage(name: string, ownerName: string, phone: string, email: string,
                                 logo: Option<string>)
  datatype NewUser = NewUser(email: string, password: string, role: Role, garageId: Option<string>,
                             name: string)
  /** totalJobs, totalSpent and lastVisit are omitted by the insert schema. */
  datatype NewCustomer = NewCustomer(garageId: string, name: string, phone: string, bikeNumber: string)
  datatype NewSparePart = NewSparePart(garageId: string, name: string, partNumber: string, price: int,
                                       quantity: Option<int>, lowStockThreshold: Nullable<int>,
                                       barcode: Option<string>)
  /** status and completedAt are omitted by the insert schema. */
  datatype NewJobCard = NewJobCard(garageId: string, customerId: string, customerName: string,
                                   phone: string, bikeNumber: string, complaint: string,
                                   spareParts: Option<seq<PartLine>>, serviceCharge: Nullable<int>,
                                   totalAmount: Nullable<int>)
  datatype NewInvoice = NewInvoice(garageId: string, jobCardId: string, customerId: string,
                                   invoiceNumber: string, pdfUrl: Option<string>,
                                   whatsappSent: Nullable<bool>, totalAmount: int, partsTotal: int,
                                   serviceCharge: int)

  const DefaultQuantity: int := 0
  const DefaultLowStockThreshold: int := 2

  /** The row an insert of `n` returns. */
  function InsertedGarage(id: string, createdAt: nat, n: NewGarage): (g: Garage)
    ensures g.id == id && g.createdAt == createdAt
    ensures g.name == n.name && g.ownerName == n.ownerName && g.phone == n.phone
    ensures g.email == n.email && g.logo == n.logo
  {
    Garage(id, n.name, n.ownerName, n.phone, n.email, n.logo, createdAt)
  }

  function InsertedUser(id: string, createdAt: nat, n: NewUser): (u: User)
    ensures u.id == id && u.createdAt == createdAt
    ensures u.email == n.email && u.password == n.password && u.role == n.role
    ensures u.garageId == n.garageId && u.name == n.name
  {
    User(id, n.email, n.password, n.role, n.garageId, n.name, createdAt)
  }

  /** A new customer starts with no jobs, nothing spent and no visit. */
  function InsertedCustomer(id: string, createdAt: nat, n: NewCustomer): (c: Customer)
    ensures c.id == id && c.createdAt == createdAt
    ensures c.garageId == n.garageId && c.name == n.name && c.phone == n.phone
    ensures c.bikeNumber == n.bikeNumber
    ensures c.totalJobs == Some(0) && c.totalSpent == Some(0) && c.lastVisit == None
  {
    Customer(id, n.garageId, n.name, n.phone, n.bikeNumber, Some(0), Some(0), None, createdAt)
  }

  /** Quantity defaults to 0 and the threshold to 2; a threshold sent as
      null is stored as null. */
  function InsertedSparePart(id: string, createdAt: nat, n: NewSparePart): (p: SparePart)
    ensures p.id == id && p.createdAt == createdAt
    ensures p.garageId == n.garageId && p.name == n.name && p.partNumber == n.partNumber
    ensures p.price == n.price && p.barcode == n.barcode
    ensures p.quantity == n.quantity.GetOr(DefaultQuantity)
    ensures n.lowStockThreshold.Omitted? ==> p.lowStockThreshold == Some(DefaultLowStockThreshold)
    ensures n.lowStockThreshold.Null? ==> p.lowStockThreshold == None
    ensures n.lowStockThreshold.Given? ==> p.lowStockThreshold == Some(n.lowStockThreshold.value)
  {
    var threshold := match n.lowStockThreshold
      case Omitted => Some(DefaultLowStockThreshold)
      case Null => None
      case Given(t) => Some(t);
    SparePart(id, n.garageId, n.name, n.partNumber, n.price, n.quantity.GetOr(DefaultQuantity),
              threshold, n.barcode, createdAt)
  }

  /** Every created job card is pending, with no completion time; the parts
      list defaults to [] and both amounts to 0 when left out, while an
      amount sent as null is stored as NULL. */
  function InsertedJobCard(id: string, createdAt: nat, n: NewJobCard): (j: JobCard)
    ensures j.id == id && j.createdAt == createdAt
    ensures j.status == Pending && j.completedAt == None
    ensures j.garageId == n.garageId && j.customerId == n.customerId
    ensures j.customerName == n.customerName && j.phone == n.phone
    ensures j.bikeNumber == n.bikeNumber && j.complaint == n.complaint
    ensures j.spareParts == Some(n.spareParts.GetOr([]))
    ensures j.serviceCharge == StoredOr(n.serviceCharge, 0)
    ensures j.totalAmount == StoredOr(n.totalAmount, 0)
  {
    JobCard(id, n.garageId, n.customerId, n.customerName, n.phone, n.bikeNumber, n.complaint,
            Pending, Some(n.spareParts.GetOr([])), StoredOr(n.serviceCharge, 0),
            StoredOr(n.totalAmount, 0), createdAt, None)
  }

  /** whatsappSent defaults to false when left out (null when sent as
      null); pdfUrl stays null unless given. */
  function InsertedInvoice(id: string, createdAt: nat, n: NewInvoice): (v: Invoice)
    ensures v.id == id && v.createdAt == createdAt
    ensures v.garageId == n.garageId && v.jobCardId == n.jobCardId && v.customerId == n.customerId
    ensures v.invoiceNumber == n.invoiceNumber && v.pdfUrl == n.pdfUrl
    ensures v.whatsappSent == StoredOr(n.whatsappSent, false)
    ensures v.totalAmount == n.totalAmount && v.partsTotal == n.partsTotal
    ensures v.serviceCharge == n.serviceCharge
  {
    Invoice(id, n.garageId, n.jobCardId, n.customerId, n.invoiceNumber, n.pdfUrl,
            StoredOr(n.whatsappSent, false), n.totalAmount, n.partsTotal, n.serviceCharge, createdAt)
  }

  // Partial updates: each Some field overwrites its column, None leaves it.
  datatype GaragePatch = GaragePatch(name: Option<string>, ownerName: Option<string>,
                                     phone: Option<string>, email: Option<string>,
                                     logo: Option<string>)
  datatype CustomerPatch = CustomerPatch(garageId: Option<string>, name: Option<string>,
                                         phone: Option<string>, bikeNumber: Option<string>,
                                         totalJobs: Option<int>, totalSpent: Option<int>,
                                         lastVisit: Option<nat>)
  datatype SparePartPatch = SparePartPatch(garageId: Option<string>, name: Option<string>,
                                           partNumber: Option<string>, price: Option<int>,
                                           quantity: Option<int>, lowStockThreshold: Option<int>,
                                           barcode: Option<string>)
  datatype JobCardPatch = JobCardPatch(garageId: Option<string>, customerId: Option<string>,
                                       customerName: Option<string>, phone: Option<string>,
                                       bikeNumber: Option<string>, complaint: Option<string>,
                                       status: Option<JobStatus>, spareParts: Option<seq<PartLine>>,
                                       serviceCharge: Option<int>, totalAmount: Option<int>,
                                       completedAt: Option<nat>)
  datatype InvoicePatch = InvoicePatch(garageId: Option<string>, jobCardId: Option<string>,
                                       customerId: Option<string>, invoiceNumber: Option<string>,
                                       pdfUrl: Option<string>, whatsappSent: Option<bool>,
                                       totalAmount: Option<int>, partsTotal: Option<int>,
                                       serviceCharge: Option<int>)

  /** A value given in a patch, or the current one. */
  function Over<T>(given: Option<T>, current: T): T
  {
    if given.Some? then given.value else current
  }

  /** A value given in a patch for a nullable column, or the current one. */
  function OverNullable<T>(given: Option<T>, current: Option<T>): Option<T>
  {
    if given.Some? then given else current
  }

  function PatchGarage(g: Garage, p: GaragePatch): (r: Garage)
    ensures r.id == g.id && r.createdAt == g.createdAt
    ensures r.name == Over(p.name, g.name) && r.ownerName == Over(p.ownerName, g.ownerName)
    ensures r.phone == Over(p.phone, g.phone) && r.email == Over(p.email, g.email)
    ensures r.logo == OverNullable(p.logo, g.logo)
  {
    g.(name := Over(p.name, g.name), ownerName := Over(p.ownerName, g.ownerName),
       phone := Over(p.phone, g.phone), email := Over(p.email, g.email),
       logo := OverNullable(p.logo, g.logo))
  }

  function PatchCustomer(c: Customer, p: CustomerPatch): (r: Customer)
    ensures r.id == c.id && r.createdAt == c.createdAt
    ensures r.garageId == Over(p.garageId, c.garageId) && r.name == Over(p.name, c.name)
    ensures r.phone == Over(p.phone, c.phone) && r.bikeNumber == Over(p.bikeNumber, c.bikeNumber)
    ensures r.totalJobs == OverNullable(p.totalJobs, c.totalJobs)
    ensures r.totalSpent == OverNullable(p.totalSpent, c.totalSpent)
    ensures r.lastVisit == OverNullable(p.lastVisit, c.lastVisit)
  {
    c.(garageId := Over(p.garageId, c.garageId), name := Over(p.name, c.name),
       phone := Over(p.phone, c.phone), bikeNumber := Over(p.bikeNumber, c.bikeNumber),
       totalJobs := OverNullable(p.totalJobs, c.totalJobs),
       totalSpent := OverNullable(p.totalSpent, c.totalSpent),
       lastVisit := OverNullable(p.lastVisit, c.lastVisit))
  }

  function PatchSparePart(s: SparePart, p: SparePartPatch): (r: SparePart)
    ensures r.id == s.id && r.createdAt == s.createdAt
    ensures r.garageId == Over(p.garageId, s.garageId) && r.name == Over(p.name, s.name)
    ensures r.partNumber == Over(p.partNumber, s.partNumber) && r.price == Over(p.price, s.price)
    ensures r.quantity == Over(p.quantity, s.quantity)
    ensures r.lowStockThreshold == OverNullable(p.lowStockThreshold, s.lowStockThreshold)
    ensures r.barcode == OverNullable(p.barcode, s.barcode)
  {
    s.(garageId := Over(p.garageId, s.garageId), name := Over(p.name, s.name),
       partNumber := Over(p.partNumber, s.partNumber), price := Over(p.price, s.price),
       quantity := Over(p.quantity, s.quantity),
       lowStockThreshold := OverNullable(p.lowStockThreshold, s.lowStockThreshold),
       barcode := OverNullable(p.barcode, s.barcode))
  }

  function PatchJobCard(j: JobCard, p: JobCardPatch): (r: JobCard)
    ensures r.id == j.id && r.createdAt == j.createdAt
    ensures r.garageId == Over(p.garageId, j.garageId) && r.customerId == Over(p.customerId, j.customerId)
    ensures r.customerName == Over(p.customerName, j.customerName) && r.phone == Over(p.phone, j.phone)
    ensures r.bikeNumber == Over(p.bikeNumber, j.bikeNumber) && r.complaint == Over(p.complaint, j.complaint)
    ensures r.status == Over(p.status, j.status)
    ensures r.spareParts == OverNullable(p.spareParts, j.spareParts)
    ensures r.serviceCharge == OverNullable(p.serviceCharge, j.serviceCharge)
    ensures r.totalAmount == OverNullable(p.totalAmount, j.totalAmount)
    ensures r.completedAt == OverNullable(p.completedAt, j.completedAt)
  {
    j.(garageId := Over(p.garageId, j.garageId), customerId := Over(p.customerId, j.customerId),
       customerName := Over(p.customerName, j.customerName), phone := Over(p.phone, j.phone),
       bikeNumber := Over(p.bikeNumber, j.bikeNumber), complaint := Over(p.complaint, j.complaint),
       status := Over(p.status, j.status), spareParts := OverNullable(p.spareParts, j.spareParts),
       serviceCharge := OverNullable(p.serviceCharge, j.serviceCharge),
       totalAmount := OverNullable(p.totalAmount, j.totalAmount),
       completedAt := OverNullable(p.completedAt, j.completedAt))
  }

  function PatchInvoice(v: Invoice, p: InvoicePatch): (r: Invoice)
    ensures r.id == v.id && r.createdAt == v.createdAt
    ensures r.garageId == Over(p.garageId, v.garageId) && r.jobCardId == Over(p.jobCardId, v.jobCardId)
    ensures r.customerId == Over(p.customerId, v.customerId)
    ensures r.invoiceNumber == Over(p.invoiceNumber, v.invoiceNumber)
    ensures r.pdfUrl == OverNullable(p.pdfUrl, v.pdfUrl)
    ensures r.whatsappSent == OverNullable(p.whatsappSent, v.whatsappSent)
    ensures r.totalAmount == Over(p.totalAmount, v.totalAmount) && r.partsTotal == Over(p.partsTotal, v.partsTotal)
    ensures r.serviceCharge == Over(p.serviceCharge, v.serviceCharge)
  {
    v.(garageId := Over(p.garageId, v.garageId), jobCardId := Over(p.jobCardId, v.jobCardId),
       customerId := Over(p.customerId, v.customerId), invoiceNumber := Over(p.invoiceNumber, v.invoiceNumber),
       pdfUrl := OverNullable(p.pdfUrl, v.pdfUrl), whatsappSent := OverNullable(p.whatsappSent, v.whatsappSent),
       totalAmount := Over(p.totalAmount, v.totalAmount), partsTotal := Over(p.partsTotal, v.partsTotal),
       serviceCharge := Over(p.serviceCharge, v.serviceCharge))
  }

  /** Overwriting twice with the same fields is overwriting once. */
  lemma PatchesAreIdempotent(g: Garage, gp: GaragePatch, c: Customer, cp: CustomerPatch,
                             s: SparePart, sp: SparePartPatch, j: JobCard, jp: JobCardPatch,
                             v: Invoice, vp: InvoicePatch)
    ensures PatchGarage(PatchGarage(g, gp), gp) == PatchGarage(g, gp)
    ensures PatchCustomer(PatchCustomer(c, cp), cp) == PatchCustomer(c, cp)
    ensures PatchSparePart(PatchSparePart(s, sp), sp) == PatchSparePart(s, sp)
    ensures PatchJobCard(PatchJobCard(j, jp), jp) == PatchJobCard(j, jp)
    ensures PatchInvoice(PatchInvoice(v, vp), vp) == PatchInvoice(v, vp)
  {
  }
}
