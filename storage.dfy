/** The storage layer: the six tables held in memory by a `Store` object,
    with the lookups, inserts, partial updates and the delete the server
    issues against them. Row ids are decimal serial numbers and creation
    times are readings of the store's clock, so every table is kept in
    insertion order, oldest first. */
module Storage {
  import opened Common
  import opened Text
  import opened Schema

  // ---------------------------------------------------------------------
  // Row ids

  /** The id given to the row created when the serial counter is `n`. */
  function IdOf(n: nat): string
  {
    NatToString(n)
  }

  /** `id` was given out before the counter reached `serial`. */
  predicate Issued(id: string, serial: nat)
  {
    id != [] && AllDigits(id) && DigitsValue(id) < serial
  }

  /** The next id is new: no id given out earlier equals it. */
  lemma FreshId(id: string, serial: nat)
    requires Issued(id, serial)
    ensures id != IdOf(serial)
  {
    DigitsOfNatToString(serial);
  }

  // ---------------------------------------------------------------------
  // Columns used as keys

  function GarageKey(g: Garage): string { g.id }
  function GarageTime(g: Garage): int { g.createdAt }
  function UserKey(u: User): string { u.id }
  function UserEmail(u: User): string { u.email }
  function UserTime(u: User): int { u.createdAt }
  function CustomerKey(c: Customer): string { c.id }
  function CustomerTenant(c: Customer): string { c.garageId }
  function CustomerTime(c: Customer): int { c.createdAt }
  function PartKey(p: SparePart): string { p.id }
  function PartTenant(p: SparePart): string { p.garageId }
  function PartTime(p: SparePart): int { p.createdAt }
  function JobCardKey(j: JobCard): string { j.id }
  function JobCardTenant(j: JobCard): string { j.garageId }
  function JobCardTime(j: JobCard): int { j.createdAt }
  function InvoiceKey(v: Invoice): string { v.id }
  function InvoiceTenant(v: Invoice): string { v.garageId }
  function InvoiceCustomer(v: Invoice): string { v.customerId }
  function InvoiceTime(v: Invoice): int { v.createdAt }

  // ---------------------------------------------------------------------
  // Table operations, generic in the row type

  /** The rows whose column `col` equals `v`, in table order (a WHERE clause). */
  function Where<T(!new)>(rows: seq<T>, col: T -> string, v: string): (r: seq<T>)
    ensures forall x :: x in r <==> x in rows && col(x) == v
    ensures IsSubsequence(r, rows)
  {
    if rows == [] then []
    else
      assert rows == [rows[0]] + rows[1..];
      if col(rows[0]) == v then [rows[0]] + Where(rows[1..], col, v) else Where(rows[1..], col, v)
  }

  /** A WHERE clause keeps each matching row as often as the table holds it. */
  lemma {:induction false} WhereKeepsMultiplicity<T(!new)>(rows: seq<T>, col: T -> string, v: string, x: T)
    ensures multiset(Where(rows, col, v))[x] == if col(x) == v then multiset(rows)[x] else 0
  {
    if rows != [] {
      assert rows == [rows[0]] + rows[1..];
      WhereKeepsMultiplicity(rows[1..], col, v, x);
    }
  }

  /** A WHERE clause over a table with a row appended at the end. */
  lemma {:induction false} WhereAppend<T(!new)>(rows: seq<T>, x: T, col: T -> string, v: string)
    ensures Where(rows + [x], col, v) == Where(rows, col, v) + (if col(x) == v then [x] else [])
  {
    if rows == [] {
      assert [x][1..] == [];
    } else {
      assert (rows + [x])[1..] == rows[1..] + [x];
      WhereAppend(rows[1..], x, col, v);
    }
  }

  /** SELECT ... WHERE key = k LIMIT 1: the first row with that key. */
  function FindKey<T>(rows: seq<T>, key: T -> string, k: string): (r: Option<T>)
    ensures r.Some? ==> r.value in rows && key(r.value) == k
    ensures r.None? ==> forall x :: x in rows ==> key(x) != k
  {
    if rows == [] then None
    else if key(rows[0]) == k then Some(rows[0])
    else FindKey(rows[1..], key, k)
  }

  /** SELECT ... WHERE key = k AND tenant = g LIMIT 1. */
  function FindScoped<T>(rows: seq<T>, key: T -> string, tenant: T -> string, k: string, g: string): (r: Option<T>)
    ensures r.Some? ==> r.value in rows && key(r.value) == k && tenant(r.value) == g
    ensures r.None? ==> forall x :: x in rows ==> !(key(x) == k && tenant(x) == g)
  {
    if rows == [] then None
    else if key(rows[0]) == k && tenant(rows[0]) == g then Some(rows[0])
    else FindScoped(rows[1..], key, tenant, k, g)
  }

  /** UPDATE ... SET <patch> WHERE key = k: every row with that key is patched. */
  function PatchWhere<T, P>(rows: seq<T>, key: T -> string, k: string, apply: (T, P) -> T, p: P): (r: seq<T>)
    ensures |r| == |rows|
    ensures forall i :: 0 <= i < |rows| ==> r[i] == if key(rows[i]) == k then apply(rows[i], p) else rows[i]
  {
    if rows == [] then []
    else [if key(rows[0]) == k then apply(rows[0], p) else rows[0]] + PatchWhere(rows[1..], key, k, apply, p)
  }

  /** DELETE ... WHERE key = k AND tenant = g. */
  function DeleteWhere<T(!new)>(rows: seq<T>, key: T -> string, tenant: T -> string, k: string, g: string): (r: seq<T>)
    ensures forall x :: x in r <==> x in rows && !(key(x) == k && tenant(x) == g)
    ensures forall x :: multiset(r)[x] == if key(x) == k && tenant(x) == g then 0 else multiset(rows)[x]
    ensures IsSubsequence(r, rows)
  {
    if rows == [] then []
    else
      assert rows == [rows[0]] + rows[1..];
      var rest := DeleteWhere(rows[1..], key, tenant, k, g);
      if key(rows[0]) == k && tenant(rows[0]) == g then rest else [rows[0]] + rest
  }

  /** A delete that matches no row leaves the table as it was. */
  lemma {:induction false} DeleteNothing<T(!new)>(rows: seq<T>, key: T -> string, tenant: T -> string, k: string, g: string)
    requires forall i :: 0 <= i < |rows| ==> !(key(rows[i]) == k && tenant(rows[i]) == g)
    ensures DeleteWhere(rows, key, tenant, k, g) == rows
  {
    if rows != [] {
      DeleteNothing(rows[1..], key, tenant, k, g);
    }
  }

  /** Reading a row back after patching it gives the patched row, provided
      the patch keeps the key. */
  lemma {:induction false} FindKeyAfterPatch<T, P>(rows: seq<T>, key: T -> string, k: string, apply: (T, P) -> T, p: P)
    requires forall x :: key(apply(x, p)) == key(x)
    ensures FindKey(PatchWhere(rows, key, k, apply, p), key, k)
         == if FindKey(rows, key, k).Some? then Some(apply(FindKey(rows, key, k).value, p)) else None
  {
    if rows != [] {
      var r := PatchWhere(rows, key, k, apply, p);
      assert r[1..] == PatchWhere(rows[1..], key, k, apply, p);
      FindKeyAfterPatch(rows[1..], key, k, apply, p);
    }
  }

  /** With distinct keys, the row carrying a key is the one a lookup finds. */
  lemma {:induction false} FindKeyUnique<T>(rows: seq<T>, key: T -> string, i: nat)
    requires i < |rows|
    requires forall a, b :: 0 <= a < b < |rows| ==> key(rows[a]) != key(rows[b])
    ensures FindKey(rows, key, key(rows[i])) == Some(rows[i])
  {
    if i > 0 {
      FindKeyUnique(rows[1..], key, i - 1);
    }
  }

  // ---------------------------------------------------------------------
  // Table invariant

  /** Every id was given out and is unique, and creation times are not in
      the future and do not decrease along the table. */
  predicate TableOk<T>(rows: seq<T>, key: T -> string, time: T -> int, serial: nat, now: nat)
  {
    (forall i :: 0 <= i < |rows| ==> Issued(key(rows[i]), serial) && time(rows[i]) <= now)
    && (forall i, j :: 0 <= i < j < |rows| ==> key(rows[i]) != key(rows[j]))
    && NonDecreasing(rows, time)
  }

  /** Appending a row with the next id, stamped now, keeps the invariant. */
  lemma TableGrow<T>(rows: seq<T>, key: T -> string, time: T -> int, serial: nat, now: nat, x: T)
    requires TableOk(rows, key, time, serial, now)
    requires key(x) == IdOf(serial) && time(x) == now
    ensures TableOk(rows + [x], key, time, serial + 1, now)
  {
    var r := rows + [x];
    DigitsOfNatToString(serial);
    forall i, j | 0 <= i < j < |r| ensures key(r[i]) != key(r[j]) {
      if j == |rows| {
        FreshId(key(rows[i]), serial);
      }
    }
  }

  /** Advancing the counter or the clock keeps the invariant. */
  lemma TableAge<T>(rows: seq<T>, key: T -> string, time: T -> int, serial: nat, now: nat, serial': nat, now': nat)
    requires TableOk(rows, key, time, serial, now)
    requires serial <= serial' && now <= now'
    ensures TableOk(rows, key, time, serial', now')
  {
  }

  /** Changing rows without changing their ids or creation times keeps the invariant. */
  lemma TableReshape<T>(rows: seq<T>, rows': seq<T>, key: T -> string, time: T -> int, serial: nat, now: nat)
    requires TableOk(rows, key, time, serial, now)
    requires |rows'| == |rows|
    requires forall i :: 0 <= i < |rows| ==> key(rows'[i]) == key(rows[i]) && time(rows'[i]) == time(rows[i])
    ensures TableOk(rows', key, time, serial, now)
  {
  }

  /** Dropping the first row keeps the invariant. */
  lemma TableTail<T>(rows: seq<T>, key: T -> string, time: T -> int, serial: nat, now: nat)
    requires rows != [] && TableOk(rows, key, time, serial, now)
    ensures TableOk(rows[1..], key, time, serial, now)
  {
    var t := rows[1..];
    forall i | 0 <= i < |t| ensures Issued(key(t[i]), serial) && time(t[i]) <= now {
      assert t[i] == rows[i + 1];
    }
    forall i, j | 0 <= i < j < |t| ensures key(t[i]) != key(t[j]) && time(t[i]) <= time(t[j]) {
      assert t[i] == rows[i + 1] && t[j] == rows[j + 1];
    }
  }

  /** Deleting rows keeps the invariant. */
  lemma {:induction false} TableShrink<T>(r: seq<T>, rows: seq<T>, key: T -> string, time: T -> int, serial: nat, now: nat)
    requires IsSubsequence(r, rows) && TableOk(rows, key, time, serial, now)
    ensures TableOk(r, key, time, serial, now)
  {
    if r != [] {
      TableTail(rows, key, time, serial, now);
      if r[0] == rows[0] && IsSubsequence(r[1..], rows[1..]) {
        TableShrink(r[1..], rows[1..], key, time, serial, now);
        SubsequenceMembers(r[1..], rows[1..]);
        forall i, j | 0 <= i < j < |r| ensures key(r[i]) != key(r[j]) && time(r[i]) <= time(r[j]) {
          if i == 0 {
            assert r[j] == r[1..][j - 1];
            assert r[j] in rows[1..];
            var k :| 0 <= k < |rows[1..]| && rows[1..][k] == r[j];
            assert rows[k + 1] == r[j];
          } else {
            assert r[i] == r[1..][i - 1] && r[j] == r[1..][j - 1];
          }
        }
        forall i | 0 <= i < |r| ensures Issued(key(r[i]), serial) && time(r[i]) <= now {
          if i > 0 {
            assert r[i] == r[1..][i - 1];
          }
        }
      } else {
        TableShrink(r, rows[1..], key, time, serial, now);
      }
    }
  }

  /** Reading a table backwards and keeping some rows lists them newest first. */
  lemma NewestFirst<T(!new)>(r: seq<T>, rows: seq<T>, time: T -> int)
    requires IsSubsequence(r, Reverse(rows)) && NonDecreasing(rows, time)
    ensures NonIncreasing(r, time)
  {
    ReverseOrders(rows, time);
    SubsequenceKeepsOrder(r, Reverse(rows), time);
  }

  // ---------------------------------------------------------------------
  // The whole database as a value

  datatype Db = Db(garages: seq<Garage>, users: seq<User>, customers: seq<Customer>,
                   spareParts: seq<SparePart>, jobCards: seq<JobCard>, invoices: seq<Invoice>,
                   serial: nat, now: nat)

  /** The unique constraint on users.email. */
  predicate EmailsUnique(users: seq<User>)
  {
    forall i, j :: 0 <= i < j < |users| ==> users[i].email != users[j].email
  }

  predicate DbOk(d: Db)
  {
    TableOk(d.garages, GarageKey, GarageTime, d.serial, d.now)
    && TableOk(d.users, UserKey, UserTime, d.serial, d.now)
    && TableOk(d.customers, CustomerKey, CustomerTime, d.serial, d.now)
    && TableOk(d.spareParts, PartKey, PartTime, d.serial, d.now)
    && TableOk(d.jobCards, JobCardKey, JobCardTime, d.serial, d.now)
    && TableOk(d.invoices, InvoiceKey, InvoiceTime, d.serial, d.now)
    && EmailsUnique(d.users)
  }

  /** A database whose counter moved on: every table still satisfies its invariant. */
  lemma DbAge(d: Db, serial': nat, now': nat)
    requires DbOk(d) && d.serial <= serial' && d.now <= now'
    ensures DbOk(d.(serial := serial', now := now'))
  {
    TableAge(d.garages, GarageKey, GarageTime, d.serial, d.now, serial', now');
    TableAge(d.users, UserKey, UserTime, d.serial, d.now, serial', now');
    TableAge(d.customers, CustomerKey, CustomerTime, d.serial, d.now, serial', now');
    TableAge(d.spareParts, PartKey, PartTime, d.serial, d.now, serial', now');
    TableAge(d.jobCards, JobCardKey, JobCardTime, d.serial, d.now, serial', now');
    TableAge(d.invoices, InvoiceKey, InvoiceTime, d.serial, d.now, serial', now');
  }

  /** Appending the next row, stamped now, to one table and moving the
      counter on keeps the database invariant. */
  lemma DbInsertGarage(d: Db, x: Garage, e: Db)
    requires DbOk(d) && x.id == IdOf(d.serial) && x.createdAt == d.now
    requires e == d.(garages := d.garages + [x], serial := d.serial + 1)
    ensures DbOk(e)
  {
    TableGrow(d.garages, GarageKey, GarageTime, d.serial, d.now, x);
    DbAge(d, d.serial + 1, d.now);
  }

  lemma DbInsertUser(d: Db, x: User, e: Db)
    requires DbOk(d) && x.id == IdOf(d.serial) && x.createdAt == d.now
    requires forall u :: u in d.users ==> u.email != x.email
    requires e == d.(users := d.users + [x], serial := d.serial + 1)
    ensures DbOk(e)
  {
    TableGrow(d.users, UserKey, UserTime, d.serial, d.now, x);
    DbAge(d, d.serial + 1, d.now);
    forall i | 0 <= i < |d.users| ensures d.users[i].email != x.email {
      assert d.users[i] in d.users;
    }
  }

  lemma DbInsertCustomer(d: Db, x: Customer, e: Db)
    requires DbOk(d) && x.id == IdOf(d.serial) && x.createdAt == d.now
    requires e == d.(customers := d.customers + [x], serial := d.serial + 1)
    ensures DbOk(e)
  {
    TableGrow(d.customers, CustomerKey, CustomerTime, d.serial, d.now, x);
    DbAge(d, d.serial + 1, d.now);
  }

  lemma DbInsertSparePart(d: Db, x: SparePart, e: Db)
    requires DbOk(d) && x.id == IdOf(d.serial) && x.createdAt == d.now
    requires e == d.(spareParts := d.spareParts + [x], serial := d.serial + 1)
    ensures DbOk(e)
  {
    TableGrow(d.spareParts, PartKey, PartTime, d.serial, d.now, x);
    DbAge(d, d.serial + 1, d.now);
  }

  lemma DbInsertJobCard(d: Db, x: JobCard, e: Db)
    requires DbOk(d) && x.id == IdOf(d.serial) && x.createdAt == d.now
    requires e == d.(jobCards := d.jobCards + [x], serial := d.serial + 1)
    ensures DbOk(e)
  {
    TableGrow(d.jobCards, JobCardKey, JobCardTime, d.serial, d.now, x);
    DbAge(d, d.serial + 1, d.now);
  }

  lemma DbInsertInvoice(d: Db, x: Invoice, e: Db)
    requires DbOk(d) && x.id == IdOf(d.serial) && x.createdAt == d.now
    requires e == d.(invoices := d.invoices + [x], serial := d.serial + 1)
    ensures DbOk(e)
  {
    TableGrow(d.invoices, InvoiceKey, InvoiceTime, d.serial, d.now, x);
    DbAge(d, d.serial + 1, d.now);
  }

  /** Replacing one table by rows that satisfy its invariant keeps the database invariant. */
  lemma DbReplaceGarages(d: Db, rows: seq<Garage>, e: Db)
    requires DbOk(d) && TableOk(rows, GarageKey, GarageTime, d.serial, d.now) && e == d.(garages := rows)
    ensures DbOk(e)
  {
  }

  lemma DbReplaceCustomers(d: Db, rows: seq<Customer>, e: Db)
    requires DbOk(d) && TableOk(rows, CustomerKey, CustomerTime, d.serial, d.now) && e == d.(customers := rows)
    ensures DbOk(e)
  {
  }

  lemma DbReplaceSpareParts(d: Db, rows: seq<SparePart>, e: Db)
    requires DbOk(d) && TableOk(rows, PartKey, PartTime, d.serial, d.now) && e == d.(spareParts := rows)
    ensures DbOk(e)
  {
  }

  lemma DbReplaceJobCards(d: Db, rows: seq<JobCard>, e: Db)
    requires DbOk(d) && TableOk(rows, JobCardKey, JobCardTime, d.serial, d.now) && e == d.(jobCards := rows)
    ensures DbOk(e)
  {
  }

  lemma DbReplaceInvoices(d: Db, rows: seq<Invoice>, e: Db)
    requires DbOk(d) && TableOk(rows, InvoiceKey, InvoiceTime, d.serial, d.now) && e == d.(invoices := rows)
    ensures DbOk(e)
  {
  }

  // ---------------------------------------------------------------------
  // Sales statistics

  datatype SalesStats = SalesStats(totalInvoices: int, totalPartsTotal: int,
                                   totalServiceCharges: int, totalProfit: int)

  function InvoicePartsTotal(v: Invoice): int { v.partsTotal }
  function InvoiceServiceCharge(v: Invoice): int { v.serviceCharge }

  /** SQL sum(): NULL over no rows. */
  function SqlSum(rows: seq<Invoice>, f: Invoice -> int): Option<int>
  {
    if rows == [] then None else Some(Sum(rows, f))
  }

  /** The figures reported over a set of invoices; a NULL sum reads as 0. */
  function StatsOf(rows: seq<Invoice>): (r: SalesStats)
    ensures r.totalInvoices == |rows|
    ensures r.totalPartsTotal == Sum(rows, InvoicePartsTotal)
    ensures r.totalServiceCharges == Sum(rows, InvoiceServiceCharge)
    ensures r.totalProfit == r.totalServiceCharges - r.totalPartsTotal
    ensures rows == [] ==> r == SalesStats(0, 0, 0, 0)
  {
    var parts := OrZero(SqlSum(rows, InvoicePartsTotal));
    var service := OrZero(SqlSum(rows, InvoiceServiceCharge));
    SalesStats(|rows|, parts, service, service - parts)
  }

  /** The figures once one more invoice is counted. */
  function AddToStats(s: SalesStats, v: Invoice): SalesStats
  {
    SalesStats(s.totalInvoices + 1, s.totalPartsTotal + v.partsTotal,
               s.totalServiceCharges + v.serviceCharge,
               s.totalProfit + v.serviceCharge - v.partsTotal)
  }

  /** Counting one more invoice adds one to the count and its amounts to the sums. */
  lemma StatsOfAppend(rows: seq<Invoice>, v: Invoice)
    ensures StatsOf(rows + [v]) == AddToStats(StatsOf(rows), v)
  {
    SumAppend(rows, [v], InvoicePartsTotal);
    SumAppend(rows, [v], InvoiceServiceCharge);
  }

  /** The figures of garage `g` once invoice `v` of that garage is inserted. */
  lemma StatsAfterInsert(rows: seq<Invoice>, v: Invoice, g: string)
    requires v.garageId == g
    ensures StatsOf(Where(rows + [v], InvoiceTenant, g)) == AddToStats(StatsOf(Where(rows, InvoiceTenant, g)), v)
  {
    WhereAppend(rows, v, InvoiceTenant, g);
    StatsOfAppend(Where(rows, InvoiceTenant, g), v);
  }

  /** Two invoices: parts 100 and 30, service 50 and 70, give count 2,
      parts 130, service 120 and a profit of -10. */
  lemma SalesStatsExample(a: Invoice, b: Invoice)
    requires a.partsTotal == 10000 && a.serviceCharge == 5000
    requires b.partsTotal == 3000 && b.serviceCharge == 7000
    ensures StatsOf([a, b]) == SalesStats(2, 13000, 12000, -1000)
  {
    assert [a, b][1..] == [b] && [b][1..] == [];
    assert Sum([b], InvoicePartsTotal) == InvoicePartsTotal(b) + Sum([], InvoicePartsTotal);
    assert Sum([a, b], InvoicePartsTotal) == InvoicePartsTotal(a) + Sum([b], InvoicePartsTotal);
    assert Sum([b], InvoiceServiceCharge) == InvoiceServiceCharge(b) + Sum([], InvoiceServiceCharge);
    assert Sum([a, b], InvoiceServiceCharge) == InvoiceServiceCharge(a) + Sum([b], InvoiceServiceCharge);
  }

  // ---------------------------------------------------------------------
  // Predicates the queries use

  /** quantity <= low_stock_threshold in SQL: a NULL threshold makes the
      comparison unknown, so the row is not returned. */
  predicate LowStock(p: SparePart): (low: bool)
    ensures p.lowStockThreshold.None? ==> !low
    ensures p.lowStockThreshold.Some? ==> (low <==> p.quantity <= p.lowStockThreshold.value)
  {
    p.lowStockThreshold.Some? && p.quantity <= p.lowStockThreshold.value
  }

  /** status = <text> on job cards. */
  function WithStatus(rows: seq<JobCard>, status: string): (r: seq<JobCard>)
    ensures forall j :: j in r <==> j in rows && StatusText(j.status) == status
    ensures forall j :: multiset(r)[j] == if StatusText(j.status) == status then multiset(rows)[j] else 0
    ensures IsSubsequence(r, rows)
  {
    if rows == [] then []
    else
      assert rows == [rows[0]] + rows[1..];
      var rest := WithStatus(rows[1..], status);
      if StatusText(rows[0].status) == status then [rows[0]] + rest else rest
  }

  /** The partial updates the server itself builds. */
  function QuantityPatch(q: int): SparePartPatch
  {
    SparePartPatch(None, None, None, None, Some(q), None, None)
  }

  function CompletionPatch(at: nat): JobCardPatch
  {
    JobCardPatch(None, None, None, None, None, None, Some(Completed), None, None, None, Some(at))
  }

  /** One more job, the amount added to the spend, and the visit time. */
  function VisitPatch(c: Customer, amount: int, at: nat): CustomerPatch
  {
    CustomerPatch(None, None, None, None, Some(OrZero(c.totalJobs) + 1),
                  Some(OrZero(c.totalSpent) + amount), Some(at))
  }

  // ---------------------------------------------------------------------
  // The store

  class Store {
    var garages: seq<Garage>
    var users: seq<User>
    var customers: seq<Customer>
    var spareParts: seq<SparePart>
    var jobCards: seq<JobCard>
    var invoices: seq<Invoice>
    /** The serial number of the next row id. */
    var serial: nat
    /** The clock that stamps createdAt and the server's `new Date()`. */
    var now: nat

    function State(): Db
      reads this
    {
      Db(garages, users, customers, spareParts, jobCards, invoices, serial, now)
    }

    predicate Valid()
      reads this
    {
      DbOk(State())
    }

    /** An empty database. */
    constructor ()
      ensures Valid()
      ensures State() == Db([], [], [], [], [], [], 0, 0)
    {
      garages, users, customers, spareParts, jobCards, invoices := [], [], [], [], [], [];
      serial, now := 0, 0;
    }

    /** Time passes between requests. */
    method AdvanceClock(dt: nat)
      requires Valid()
      modifies this
      ensures Valid()
      ensures State() == old(State()).(now := old(now) + dt)
    {
      ghost var d := State();
      now := now + dt;
      DbAge(d, d.serial, d.now + dt);
      assert State() == d.(serial := d.serial, now := d.now + dt);
    }

    // ----- lookups

    function GetUserByEmail(email: string): (r: Option<User>)
      reads this`users
      ensures r.Some? ==> r.value in users && r.value.email == email
      ensures r.None? ==> forall u :: u in users ==> u.email != email
    {
      FindKey(users, UserEmail, email)
    }

    function GetGarage(id: string): (r: Option<Garage>)
      reads this`garages
      ensures r.Some? ==> r.value in garages && r.value.id == id
      ensures r.None? ==> forall g :: g in garages ==> g.id != id
    {
      FindKey(garages, GarageKey, id)
    }

    /** The customer with this id in any garage (what an update by id touches). */
    function CustomerById(id: string): (r: Option<Customer>)
      reads this`customers
      ensures r.Some? ==> r.value in customers && r.value.id == id
      ensures r.None? ==> forall c :: c in customers ==> c.id != id
    {
      FindKey(customers, CustomerKey, id)
    }

    function JobCardById(id: string): (r: Option<JobCard>)
      reads this`jobCards
      ensures r.Some? ==> r.value in jobCards && r.value.id == id
      ensures r.None? ==> forall j :: j in jobCards ==> j.id != id
    {
      FindKey(jobCards, JobCardKey, id)
    }

    function SparePartById(id: string): (r: Option<SparePart>)
      reads this`spareParts
      ensures r.Some? ==> r.value in spareParts && r.value.id == id
      ensures r.None? ==> forall p :: p in spareParts ==> p.id != id
    {
      FindKey(spareParts, PartKey, id)
    }

    function InvoiceById(id: string): (r: Option<Invoice>)
      reads this`invoices
      ensures r.Some? ==> r.value in invoices && r.value.id == id
      ensures r.None? ==> forall v :: v in invoices ==> v.id != id
    {
      FindKey(invoices, InvoiceKey, id)
    }

    /** The garage's customers, newest first. */
    function GetCustomers(garageId: string): (r: seq<Customer>)
      reads this`customers
      ensures forall c :: c in r <==> c in customers && c.garageId == garageId
      ensures IsSubsequence(r, Reverse(customers))
    {
      Where(Reverse(customers), CustomerTenant, garageId)
    }

    /** A customer only if both the id and the garage match. */
    function GetCustomer(id: string, garageId: string): (r: Option<Customer>)
      reads this`customers
      ensures r.Some? ==> r.value in customers && r.value.id == id && r.value.garageId == garageId
      ensures r.None? ==> forall c :: c in customers ==> !(c.id == id && c.garageId == garageId)
    {
      FindScoped(customers, CustomerKey, CustomerTenant, id, garageId)
    }

    /** The garage's parts, newest first. */
    function GetSpareParts(garageId: string): (r: seq<SparePart>)
      reads this`spareParts
      ensures forall p :: p in r <==> p in spareParts && p.garageId == garageId
      ensures IsSubsequence(r, Reverse(spareParts))
    {
      Where(Reverse(spareParts), PartTenant, garageId)
    }

    /** Exactly the garage's parts whose quantity is at or below a non-null threshold. */
    function GetLowStockParts(garageId: string): (r: seq<SparePart>)
      reads this`spareParts
      ensures forall p :: p in r <==> p in spareParts && p.garageId == garageId
                                      && p.lowStockThreshold.Some? && p.quantity <= p.lowStockThreshold.value
    {
      Filter(Where(spareParts, PartTenant, garageId), LowStock)
    }

    function GetSparePart(id: string, garageId: string): (r: Option<SparePart>)
      reads this`spareParts
      ensures r.Some? ==> r.value in spareParts && r.value.id == id && r.value.garageId == garageId
      ensures r.None? ==> forall p :: p in spareParts ==> !(p.id == id && p.garageId == garageId)
    {
      FindScoped(spareParts, PartKey, PartTenant, id, garageId)
    }

    /** The garage's job cards, newest first; an empty status (the query
        parameter left out) applies no status filter. */
    function GetJobCards(garageId: string, status: string): (r: seq<JobCard>)
      reads this`jobCards
      ensures forall j :: j in r <==> j in jobCards && j.garageId == garageId
                                      && (status != "" ==> StatusText(j.status) == status)
      ensures IsSubsequence(r, Reverse(jobCards))
    {
      var mine := Where(Reverse(jobCards), JobCardTenant, garageId);
      if status != "" then
        var r := WithStatus(mine, status);
        SubsequenceTransitive(r, mine, Reverse(jobCards));
        r
      else mine
    }

    function GetJobCard(id: string, garageId: string): (r: Option<JobCard>)
      reads this`jobCards
      ensures r.Some? ==> r.value in jobCards && r.value.id == id && r.value.garageId == garageId
      ensures r.None? ==> forall j :: j in jobCards ==> !(j.id == id && j.garageId == garageId)
    {
      FindScoped(jobCards, JobCardKey, JobCardTenant, id, garageId)
    }

    /** The garage's invoices, newest first. */
    function GetInvoices(garageId: string): (r: seq<Invoice>)
      reads this`invoices
      ensures forall v :: v in r <==> v in invoices && v.garageId == garageId
      ensures IsSubsequence(r, Reverse(invoices))
    {
      Where(Reverse(invoices), InvoiceTenant, garageId)
    }

    /** One customer's invoices within one garage, newest first. */
    function GetCustomerInvoices(customerId: string, garageId: string): (r: seq<Invoice>)
      reads this`invoices
      ensures forall v :: v in r <==> v in invoices && v.customerId == customerId && v.garageId == garageId
      ensures IsSubsequence(r, Reverse(invoices))
    {
      var theirs := Where(Reverse(invoices), InvoiceCustomer, customerId);
      var r := Where(theirs, InvoiceTenant, garageId);
      SubsequenceTransitive(r, theirs, Reverse(invoices));
      r
    }

    /** Count, parts total, service charges and their difference over the garage's invoices. */
    function GetSalesStats(garageId: string): (r: SalesStats)
      reads this`invoices
      ensures r.totalInvoices == |Where(invoices, InvoiceTenant, garageId)|
      ensures r.totalPartsTotal == Sum(Where(invoices, InvoiceTenant, garageId), InvoicePartsTotal)
      ensures r.totalServiceCharges == Sum(Where(invoices, InvoiceTenant, garageId), InvoiceServiceCharge)
      ensures r.totalProfit == r.totalServiceCharges - r.totalPartsTotal
      ensures (forall v :: v in invoices ==> v.garageId != garageId) ==> r == SalesStats(0, 0, 0, 0)
    {
      var rows := Where(invoices, InvoiceTenant, garageId);
      assert rows != [] ==> rows[0] in rows;
      StatsOf(rows)
    }

    // ----- inserts

    method CreateGarage(n: NewGarage) returns (g: Garage)
      requires Valid()
      modifies this
      ensures Valid()
      ensures g == InsertedGarage(IdOf(old(serial)), old(now), n)
      ensures State() == old(State()).(garages := old(garages) + [g], serial := old(serial) + 1)
    {
      g := InsertedGarage(IdOf(serial), now, n);
      ghost var d := State();
      garages := garages + [g];
      serial := serial + 1;
      DbInsertGarage(d, g, State());
    }

    /** Fails (None) on a duplicate email or a garage id naming no garage. */
    method CreateUser(n: NewUser) returns (r: Option<User>)
      requires Valid()
      modifies this
      ensures Valid()
      ensures r.None? <==> (old(GetUserByEmail(n.email)).Some?
                            || (n.garageId.Some? && old(GetGarage(n.garageId.value)).None?))
      ensures r.None? ==> State() == old(State())
      ensures r.Some? ==> r.value == InsertedUser(IdOf(old(serial)), old(now), n)
      ensures r.Some? ==> State() == old(State()).(users := old(users) + [r.value], serial := old(serial) + 1)
    {
      if GetUserByEmail(n.email).Some? || (n.garageId.Some? && GetGarage(n.garageId.value).None?) {
        return None;
      }
      var u := InsertedUser(IdOf(serial), now, n);
      ghost var d := State();
      users := users + [u];
      serial := serial + 1;
      DbInsertUser(d, u, State());
      r := Some(u);
    }

    /** Fails (None) when the garage does not exist. */
    method CreateCustomer(n: NewCustomer) returns (r: Option<Customer>)
      requires Valid()
      modifies this
      ensures Valid()
      ensures r.None? <==> old(GetGarage(n.garageId)).None?
      ensures r.None? ==> State() == old(State())
      ensures r.Some? ==> r.value == InsertedCustomer(IdOf(old(serial)), old(now), n)
      ensures r.Some? ==> State() == old(State()).(customers := old(customers) + [r.value], serial := old(serial) + 1)
    {
      if GetGarage(n.garageId).None? {
        return None;
      }
      var c := InsertedCustomer(IdOf(serial), now, n);
      ghost var d := State();
      customers := customers + [c];
      serial := serial + 1;
      DbInsertCustomer(d, c, State());
      r := Some(c);
    }

    /** Fails (None) when the garage does not exist. */
    method CreateSparePart(n: NewSparePart) returns (r: Option<SparePart>)
      requires Valid()
      modifies this
      ensures Valid()
      ensures r.None? <==> old(GetGarage(n.garageId)).None?
      ensures r.None? ==> State() == old(State())
      ensures r.Some? ==> r.value == InsertedSparePart(IdOf(old(serial)), old(now), n)
      ensures r.Some? ==> State() == old(State()).(spareParts := old(spareParts) + [r.value], serial := old(serial) + 1)
    {
      if GetGarage(n.garageId).None? {
        return None;
      }
      var p := InsertedSparePart(IdOf(serial), now, n);
      ghost var d := State();
      spareParts := spareParts + [p];
      serial := serial + 1;
      DbInsertSparePart(d, p, State());
      r := Some(p);
    }

    /** Fails (None) when the garage or the customer does not exist. */
    method CreateJobCard(n: NewJobCard) returns (r: Option<JobCard>)
      requires Valid()
      modifies this
      ensures Valid()
      ensures r.None? <==> old(GetGarage(n.garageId)).None? || old(CustomerById(n.customerId)).None?
      ensures r.None? ==> State() == old(State())
      ensures r.Some? ==> r.value == InsertedJobCard(IdOf(old(serial)), old(now), n)
      ensures r.Some? ==> State() == old(State()).(jobCards := old(jobCards) + [r.value], serial := old(serial) + 1)
    {
      if GetGarage(n.garageId).None? || CustomerById(n.customerId).None? {
        return None;
      }
      var j := InsertedJobCard(IdOf(serial), now, n);
      ghost var d := State();
      jobCards := jobCards + [j];
      serial := serial + 1;
      DbInsertJobCard(d, j, State());
      r := Some(j);
    }

    /** Fails (None) when the garage, the job card or the customer does not
        exist; otherwise the garage's sales figures count the new invoice. */
    method CreateInvoice(n: NewInvoice) returns (r: Option<Invoice>)
      requires Valid()
      modifies this
      ensures Valid()
      ensures r.None? <==> (old(GetGarage(n.garageId)).None? || old(JobCardById(n.jobCardId)).None?
                            || old(CustomerById(n.customerId)).None?)
      ensures r.None? ==> State() == old(State())
      ensures r.Some? ==> r.value == InsertedInvoice(IdOf(old(serial)), old(now), n)
      ensures r.Some? ==> State() == old(State()).(invoices := old(invoices) + [r.value], serial := old(serial) + 1)
      ensures r.Some? ==> GetSalesStats(n.garageId) == AddToStats(old(GetSalesStats(n.garageId)), r.value)
    {
      if GetGarage(n.garageId).None? || JobCardById(n.jobCardId).None? || CustomerById(n.customerId).None? {
        return None;
      }
      var v := InsertedInvoice(IdOf(serial), now, n);
      ghost var d := State();
      StatsAfterInsert(invoices, v, n.garageId);
      invoices := invoices + [v];
      serial := serial + 1;
      DbInsertInvoice(d, v, State());
      r := Some(v);
    }

    // ----- updates by id, with no garage filter

    /** Returns the updated row, or None when no row has that id. */
    method UpdateGarage(id: string, p: GaragePatch) returns (r: Option<Garage>)
      requires Valid()
      modifies this
      ensures Valid()
      ensures State() == old(State()).(garages := PatchWhere(old(garages), GarageKey, id, PatchGarage, p))
      ensures r == if old(GetGarage(id)).Some? then Some(PatchGarage(old(GetGarage(id)).value, p)) else None
    {
      var rows := PatchWhere(garages, GarageKey, id, PatchGarage, p);
      TableReshape(garages, rows, GarageKey, GarageTime, serial, now);
      FindKeyAfterPatch(garages, GarageKey, id, PatchGarage, p);
      ghost var d := State();
      garages := rows;
      DbReplaceGarages(d, rows, State());
      r := GetGarage(id);
    }

    method UpdateCustomer(id: string, p: CustomerPatch) returns (r: Option<Customer>)
      requires Valid()
      modifies this
      ensures Valid()
      ensures State() == old(State()).(customers := PatchWhere(old(customers), CustomerKey, id, PatchCustomer, p))
      ensures r == if old(CustomerById(id)).Some? then Some(PatchCustomer(old(CustomerById(id)).value, p)) else None
    {
      var rows := PatchWhere(customers, CustomerKey, id, PatchCustomer, p);
      TableReshape(customers, rows, CustomerKey, CustomerTime, serial, now);
      FindKeyAfterPatch(customers, CustomerKey, id, PatchCustomer, p);
      ghost var d := State();
      customers := rows;
      DbReplaceCustomers(d, rows, State());
      r := CustomerById(id);
    }

    method UpdateSparePart(id: string, p: SparePartPatch) returns (r: Option<SparePart>)
      requires Valid()
      modifies this
      ensures Valid()
      ensures State() == old(State()).(spareParts := PatchWhere(old(spareParts), PartKey, id, PatchSparePart, p))
      ensures r == if old(SparePartById(id)).Some? then Some(PatchSparePart(old(SparePartById(id)).value, p)) else None
    {
      var rows := PatchWhere(spareParts, PartKey, id, PatchSparePart, p);
      TableReshape(spareParts, rows, PartKey, PartTime, serial, now);
      FindKeyAfterPatch(spareParts, PartKey, id, PatchSparePart, p);
      ghost var d := State();
      spareParts := rows;
      DbReplaceSpareParts(d, rows, State());
      r := SparePartById(id);
    }

    method UpdateJobCard(id: string, p: JobCardPatch) returns (r: Option<JobCard>)
      requires Valid()
      modifies this
      ensures Valid()
      ensures State() == old(State()).(jobCards := PatchWhere(old(jobCards), JobCardKey, id, PatchJobCard, p))
      ensures r == if old(JobCardById(id)).Some? then Some(PatchJobCard(old(JobCardById(id)).value, p)) else None
    {
      var rows := PatchWhere(jobCards, JobCardKey, id, PatchJobCard, p);
      TableReshape(jobCards, rows, JobCardKey, JobCardTime, serial, now);
      FindKeyAfterPatch(jobCards, JobCardKey, id, PatchJobCard, p);
      ghost var d := State();
      jobCards := rows;
      DbReplaceJobCards(d, rows, State());
      r := JobCardById(id);
    }

    method UpdateInvoice(id: string, p: InvoicePatch) returns (r: Option<Invoice>)
      requires Valid()
      modifies this
      ensures Valid()
      ensures State() == old(State()).(invoices := PatchWhere(old(invoices), InvoiceKey, id, PatchInvoice, p))
      ensures r == if old(InvoiceById(id)).Some? then Some(PatchInvoice(old(InvoiceById(id)).value, p)) else None
    {
      var rows := PatchWhere(invoices, InvoiceKey, id, PatchInvoice, p);
      TableReshape(invoices, rows, InvoiceKey, InvoiceTime, serial, now);
      FindKeyAfterPatch(invoices, InvoiceKey, id, PatchInvoice, p);
      ghost var d := State();
      invoices := rows;
      DbReplaceInvoices(d, rows, State());
      r := InvoiceById(id);
    }

    // ----- delete

    /** Removes the part with this id only if it belongs to the garage; no
        match is not an error. */
    method DeleteSparePart(id: string, garageId: string)
      requires Valid()
      modifies this
      ensures Valid()
      ensures State() == old(State()).(spareParts := DeleteWhere(old(spareParts), PartKey, PartTenant, id, garageId))
      ensures old(GetSparePart(id, garageId)).None? ==> State() == old(State())
    {
      var rows := DeleteWhere(spareParts, PartKey, PartTenant, id, garageId);
      TableShrink(rows, spareParts, PartKey, PartTime, serial, now);
      if GetSparePart(id, garageId).None? {
        forall i | 0 <= i < |spareParts| ensures !(spareParts[i].id == id && spareParts[i].garageId == garageId) {
          assert spareParts[i] in spareParts;
        }
        DeleteNothing(spareParts, PartKey, PartTenant, id, garageId);
      }
      ghost var d := State();
      spareParts := rows;
      DbReplaceSpareParts(d, rows, State());
    }
  }

  // ---------------------------------------------------------------------
  // Properties of the queries

  /** Listings ordered by createdAt descending come out newest first. */
  lemma ListingsNewestFirst(s: Store, garageId: string, status: string, customerId: string)
    requires s.Valid()
    ensures NonIncreasing(s.GetCustomers(garageId), CustomerTime)
    ensures NonIncreasing(s.GetSpareParts(garageId), PartTime)
    ensures NonIncreasing(s.GetJobCards(garageId, status), JobCardTime)
    ensures NonIncreasing(s.GetInvoices(garageId), InvoiceTime)
    ensures NonIncreasing(s.GetCustomerInvoices(customerId, garageId), InvoiceTime)
  {
    NewestFirst(s.GetCustomers(garageId), s.customers, CustomerTime);
    NewestFirst(s.GetSpareParts(garageId), s.spareParts, PartTime);
    var cards := Where(Reverse(s.jobCards), JobCardTenant, garageId);
    NewestFirst(cards, s.jobCards, JobCardTime);
    if status != "" {
      SubsequenceKeepsOrder(WithStatus(cards, status), cards, JobCardTime);
    }
    NewestFirst(s.GetInvoices(garageId), s.invoices, InvoiceTime);
    var theirs := Where(Reverse(s.invoices), InvoiceCustomer, customerId);
    NewestFirst(theirs, s.invoices, InvoiceTime);
    SubsequenceKeepsOrder(Where(theirs, InvoiceTenant, garageId), theirs, InvoiceTime);
  }

  /** At most one user has a given email, and the lookup returns that one. */
  lemma UserByEmailIsTheUser(s: Store, u: User)
    requires s.Valid() && u in s.users
    ensures s.GetUserByEmail(u.email) == Some(u)
  {
    var i :| 0 <= i < |s.users| && s.users[i] == u;
    FindKeyUnique(s.users, UserEmail, i);
  }

  /** A scoped lookup of a row that exists in another garage finds nothing. */
  lemma ScopedLookupsIsolateGarages(s: Store, id: string, garageId: string)
    requires s.Valid()
    requires s.SparePartById(id).Some? && s.SparePartById(id).value.garageId != garageId
    requires s.CustomerById(id).Some? ==> s.CustomerById(id).value.garageId != garageId
    requires s.JobCardById(id).Some? ==> s.JobCardById(id).value.garageId != garageId
    ensures s.GetSparePart(id, garageId).None?
    ensures s.GetCustomer(id, garageId).None?
    ensures s.GetJobCard(id, garageId).None?
  {
    KeyedRowIsUnique(s.spareParts, PartKey, s.SparePartById(id).value);
    if s.GetCustomer(id, garageId).Some? {
      KeyedRowIsUnique(s.customers, CustomerKey, s.GetCustomer(id, garageId).value);
    }
    if s.GetJobCard(id, garageId).Some? {
      KeyedRowIsUnique(s.jobCards, JobCardKey, s.GetJobCard(id, garageId).value);
    }
  }

  /** With distinct keys, a lookup by a member's key finds that member. */
  lemma KeyedRowIsUnique<T>(rows: seq<T>, key: T -> string, x: T)
    requires x in rows
    requires forall a, b :: 0 <= a < b < |rows| ==> key(rows[a]) != key(rows[b])
    ensures FindKey(rows, key, key(x)) == Some(x)
  {
    var i :| 0 <= i < |rows| && rows[i] == x;
    FindKeyUnique(rows, key, i);
  }
}
