/**
 * `stripe_webhook` (POST /webhook): classifies a verified Stripe event and,
 * for a completed checkout, marks the record paid with the conditional
 * statement `UPDATE ... SET estado = 'pagado' WHERE id = ? AND estado != 'pagado'`.
 */
module Webhook {
  import opened Wrappers
  import opened Records
  import PyInt

  const CompletedType: string := "checkout.session.completed"
  const MetadataKey: string := "predio_id"

  /** The parts of a Stripe event the handler reads: its type and the session's metadata. */
  datatype Event = Event(kind: string, metadata: map<string, string>)

  /**
   * The result of `stripe.Webhook.construct_event` on the raw body and the
   * Stripe-Signature header: a ValueError, a SignatureVerificationError, or
   * the verified event. The HMAC check itself is Stripe's.
   */
  datatype Verification = InvalidPayload | InvalidSignature | Verified(event: Event)

  /** What the handler does before touching the database: answer at once, or mark a record paid. */
  datatype Decision = Reply(response: Response) | MarkPaid(id: int)

  const Success: Response := Response(200, Json("success"))

  predicate IsCompleted(v: Verification) {
    v.Verified? && v.event.kind == CompletedType
  }

  function Classify(v: Verification): (d: Decision)
    // Verification failures are client errors, so Stripe does not retry them
    ensures d.Reply? && d.response.code == 400 <==> !v.Verified?
    // Every other event type is acknowledged and ignored
    ensures v.Verified? && !IsCompleted(v) ==> d == Reply(Success)
    // Bad metadata is a permanent failure: acknowledged with 200, never a write
    ensures IsCompleted(v) && MetadataKey !in v.event.metadata ==>
      d == Reply(Response(200, Json("metadata_missing")))
    ensures (IsCompleted(v) && MetadataKey in v.event.metadata
             && PyInt.Parse(v.event.metadata[MetadataKey]).None?) ==>
      d == Reply(Response(200, Json("invalid_predio_id")))
    // A write is decided only for a completed event whose metadata id parses, and for that id
    ensures d.MarkPaid? <==>
      IsCompleted(v) && MetadataKey in v.event.metadata
      && PyInt.Parse(v.event.metadata[MetadataKey]).Some?
    ensures d.MarkPaid? ==> PyInt.Parse(v.event.metadata[MetadataKey]) == Some(d.id)
    ensures d.Reply? ==> d.response.code in {200, 400}
  {
    match v
    case InvalidPayload => Reply(Response(400, Text("Invalid payload")))
    case InvalidSignature => Reply(Response(400, Text("Invalid signature")))
    case Verified(event) =>
      if event.kind != CompletedType then Reply(Success)
      else if MetadataKey !in event.metadata then Reply(Response(200, Json("metadata_missing")))
      else
        match PyInt.Parse(event.metadata[MetadataKey])
        case None => Reply(Response(200, Json("invalid_predio_id")))
        case Some(id) => MarkPaid(id)
  }

  /** True when the conditional UPDATE's WHERE clause selects row `id`. */
  predicate Selected(t: Table, id: int) {
    id in t && t[id].estado == Pendiente
  }

  /** The table after the conditional UPDATE for `id` has been committed. */
  function MarkedPaid(t: Table, id: int): (u: Table)
    ensures u.Keys == t.Keys
    ensures forall k | k in t && k != id :: u[k] == t[k]
    ensures id in t ==> u[id].folio == t[id].folio && u[id].monto == t[id].monto
    ensures id in t ==> u[id].estado == (if t[id].estado == SinEstado then SinEstado else Pagado)
  {
    if Selected(t, id) then t[id := t[id].(estado := Pagado)] else t
  }

  /** `cursor.rowcount` after that UPDATE: how many rows it changed. */
  function RowsAffected(t: Table, id: int): (n: nat)
    ensures n <= 1
    ensures n == 1 <==> id in t && t[id].estado == Pendiente
    ensures n == 0 <==> MarkedPaid(t, id) == t
  {
    if Selected(t, id) then 1 else 0
  }

  /**
   * `u` is `t` with some unpaid records turned to paid and nothing else
   * changed: the only transition this system makes.
   */
  ghost predicate Advances(t: Table, u: Table) {
    && t.Keys == u.Keys
    && forall k | k in t :: u[k] == t[k] || (t[k].estado == Pendiente && u[k] == t[k].(estado := Pagado))
  }

  lemma AdvancesTransitive(t: Table, u: Table, w: Table)
    requires Advances(t, u) && Advances(u, w)
    ensures Advances(t, w)
  {
  }

  /** Applying the UPDATE twice leaves the table as once, and the second changes no row. */
  lemma MarkPaidIdempotent(t: Table, id: int)
    ensures MarkedPaid(MarkedPaid(t, id), id) == MarkedPaid(t, id)
    ensures RowsAffected(MarkedPaid(t, id), id) == 0
  {
  }

  /** The UPDATE never touches a paid record and never writes anything but 'pagado'. */
  lemma MarkPaidAdvances(t: Table, id: int)
    ensures Advances(t, MarkedPaid(t, id))
  {
  }

  /** Updates for two records give the same table in either order. */
  lemma MarkPaidCommutes(t: Table, a: int, b: int)
    ensures MarkedPaid(MarkedPaid(t, a), b) == MarkedPaid(MarkedPaid(t, b), a)
  {
  }

  /** The handler's response and the table after the request. */
  datatype Outcome = Outcome(response: Response, table: Table)

  /** The whole handler as a function of the table before the request. */
  function Handle(t: Table, v: Verification, db: Db): (r: Outcome)
    ensures r.response.code == 400 <==> !v.Verified?
    // Only a failed connection or a failed UPDATE asks Stripe to retry
    ensures r.response.code == 500 <==> Classify(v).MarkPaid? && !db.Healthy?
    ensures r.response.code in {200, 400, 500}
    // Where classification answers at once, that answer is the response and nothing is written
    ensures Classify(v).Reply? ==> r == Outcome(Classify(v).response, t)
    // The table changes only on the success path, and only by the conditional UPDATE
    ensures r.response.code != 200 ==> r.table == t
    ensures r.table != t ==> r.response == Success && Classify(v).MarkPaid?
    ensures Classify(v).MarkPaid? && db.Healthy? ==>
      r.response == Success && r.table == MarkedPaid(t, Classify(v).id)
    ensures Advances(t, r.table)
  {
    match Classify(v)
    case Reply(response) => Outcome(response, t)
    case MarkPaid(id) =>
      match db
      case ConnectFails => Outcome(Response(500, Text("DB Connection Error")), t)
      case StatementRaises => Outcome(Response(500, Text("Database Update Failed")), t)
      case Healthy =>
        MarkPaidAdvances(t, id);
        Outcome(Success, MarkedPaid(t, id))
  }

  /** The number of rows affected is diagnostic only: the response never depends on the table. */
  lemma ResponseIgnoresTable(t: Table, t': Table, v: Verification, db: Db)
    ensures Handle(t, v, db).response == Handle(t', v, db).response
  {
  }

  /**
   * Once a delivery has been handled with the database up, redelivering the
   * same event changes nothing, whatever the database does, and with the
   * database up it is answered as the first time, the UPDATE affecting no row.
   */
  lemma RedeliveryHarmless(t: Table, v: Verification, db: Db)
    ensures var first := Handle(t, v, Healthy);
      && Handle(first.table, v, db).table == first.table
      && Handle(first.table, v, Healthy).response == first.response
      && (Classify(v).MarkPaid? ==> RowsAffected(first.table, Classify(v).id) == 0)
  {
  }

  /** One delivery of a webhook: the verification result and how the database behaves. */
  datatype Delivery = Delivery(verification: Verification, db: Db)

  /** The table after a sequence of deliveries, handled one after another. */
  function Replay(t: Table, deliveries: seq<Delivery>): Table
    decreases |deliveries|
  {
    if deliveries == [] then t
    else Replay(Handle(t, deliveries[0].verification, deliveries[0].db).table, deliveries[1..])
  }

  /**
   * Over any sequence of deliveries, paid records stay paid, records with no
   * status stay as they are, nothing but `estado` changes, and no record is
   * added or removed.
   */
  lemma {:induction false} ReplayAdvances(t: Table, deliveries: seq<Delivery>)
    ensures Advances(t, Replay(t, deliveries))
    decreases |deliveries|
  {
    if deliveries != [] {
      var d := deliveries[0];
      var u := Handle(t, d.verification, d.db).table;
      ReplayAdvances(u, deliveries[1..]);
      AdvancesTransitive(t, u, Replay(u, deliveries[1..]));
    }
  }

  lemma {:induction false} PaidStaysPaid(t: Table, deliveries: seq<Delivery>, id: int)
    requires id in t && t[id].estado == Pagado
    ensures id in Replay(t, deliveries) && Replay(t, deliveries)[id] == t[id]
  {
    ReplayAdvances(t, deliveries);
  }

  /**
   * The completed-checkout event Stripe sends for a session whose metadata
   * holds `id`: Stripe keeps metadata values as strings, so the int the
   * checkout passed arrives as its `str()`. The webhook recovers exactly
   * that id, whatever else the metadata holds.
   */
  function CompletionFor(id: int, metadata: map<string, string>): (v: Verification)
    ensures IsCompleted(v) && MetadataKey in v.event.metadata && v.event.metadata[MetadataKey] == PyInt.Str(id)
    ensures Classify(v) == MarkPaid(id)
  {
    PyInt.ParseStr(id);
    Verified(Event(CompletedType, metadata[MetadataKey := PyInt.Str(id)]))
  }

  /**
   * For every table, a completed payment for the id the checkout charged is
   * answered 200 success and applies the conditional UPDATE to that id.
   */
  lemma CompletionHandled(t: Table, id: int, metadata: map<string, string>)
    ensures Handle(t, CompletionFor(id, metadata), Healthy) == Outcome(Success, MarkedPaid(t, id))
  {
  }

  /** The unpaid case: exactly that record becomes paid, with one row affected. */
  lemma CompletionMarksRecord(t: Table, id: int, metadata: map<string, string>)
    requires id in t && t[id].estado == Pendiente
    ensures var r := Handle(t, CompletionFor(id, metadata), Healthy);
      && r.response == Success
      && r.table == t[id := t[id].(estado := Pagado)]
      && RowsAffected(t, id) == 1
  {
    CompletionHandled(t, id, metadata);
  }

  /**
   * The table as the application holds it: the rows of PREDIOS_PRUEB,
   * updated in place by the webhook.
   */
  class PrediosTable {
    var rows: Table

    constructor (initial: Table)
      ensures rows == initial
    {
      rows := initial;
    }

    /** Executes the conditional UPDATE for `id` and returns `cursor.rowcount`. */
    method Update(id: int) returns (rowcount: nat)
      modifies this
      ensures rows == MarkedPaid(old(rows), id)
      ensures rowcount == RowsAffected(old(rows), id)
      ensures rowcount <= 1
    {
      if id in rows && rows[id].estado == Pendiente {
        rows := rows[id := rows[id].(estado := Pagado)];
        rowcount := 1;
      } else {
        rowcount := 0;
      }
    }

    /**
     * Handles one webhook request. A statement that raises is rolled back,
     * so the table is as it was before the request.
     */
    method HandleWebhook(v: Verification, db: Db) returns (response: Response)
      modifies this
      ensures response == Handle(old(rows), v, db).response
      ensures rows == Handle(old(rows), v, db).table
      ensures Advances(old(rows), rows)
    {
      var decision := Classify(v);
      match decision
      case Reply(r) =>
        response := r;
      case MarkPaid(id) =>
        if db.ConnectFails? {
          response := Response(500, Text("DB Connection Error"));
        } else {
          var before := rows;
          var rowcount := Update(id);  // only logged by the handler
          if db.StatementRaises? {
            rows := before;
            response := Response(500, Text("Database Update Failed"));
          } else {
            response := Success;
          }
        }
    }
  }
}
