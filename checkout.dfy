/**
 * `crear_checkout` (POST /crear-checkout): parses the record id from the
 * form, reads that record, converts its amount to centavos and asks Stripe
 * for a checkout session, redirecting the client to it.
 */
module Checkout {
  import opened Wrappers
  import opened Records
  import PyInt

  const Currency: string := "mxn"

  /**
   * What is sent to `stripe.checkout.Session.create`: one line item of
   * `unitAmount` centavos (currency "mxn", quantity 1) named `productName`,
   * with the record id as the session's metadata.
   */
  datatype SessionRequest = SessionRequest(unitAmount: int, productName: string, predioId: int)

  /** How Stripe answers `Session.create`: a session URL, or an exception. */
  datatype StripeReply = Created(url: string) | Raised

  /**
   * The handler's response and the session it asked Stripe for, if it got
   * that far.
   */
  datatype Outcome = Outcome(response: Response, session: Option<SessionRequest>)

  /**
   * `int(monto * 100)` for an exact decimal amount: the amount in centavos,
   * truncated toward zero (Python's `int()` on a Decimal).
   */
  function Centavos(pesos: real): (c: int)
    ensures 0.0 <= pesos ==> c as real <= pesos * 100.0 < c as real + 1.0
    ensures pesos < 0.0 ==> c as real - 1.0 < pesos * 100.0 <= c as real
  {
    if pesos >= 0.0 then (pesos * 100.0).Floor else -((-pesos * 100.0).Floor)
  }

  /** Truncation, unlike flooring, is symmetric around zero. */
  lemma CentavosOdd(pesos: real)
    ensures Centavos(-pesos) == -Centavos(pesos)
  {
  }

  /** An amount with at most two decimal places converts exactly. */
  lemma CentavosExact(pesos: real, k: int)
    requires pesos * 100.0 == k as real
    ensures Centavos(pesos) == k
  {
  }

  /** A fraction of a centavo is dropped toward zero on either side. */
  lemma CentavosFraction()
    ensures Centavos(1234.56) == 123456
    ensures Centavos(0.005) == 0 && Centavos(-0.005) == 0
    ensures Centavos(-12.349) == -1234
  {
  }

  /** The line item's name: a fixed prefix followed by the record's folio, which can be read back. */
  function ProductName(folio: string): (name: string)
    ensures |name| == |folio| + 12 && name[..12] == "Pago predio " && name[12..] == folio
  {
    "Pago predio " + folio
  }

  /**
   * The handler, given the raw form field (None when it is absent), the
   * database's behaviour, the table, and Stripe's answer.
   */
  function CrearCheckout(form: Option<string>, db: Db, table: Table, stripe: StripeReply): (r: Outcome)
    // A missing or non-integer id is a client error, decided before the database
    ensures r.response.code == 400 <==> form.None? || PyInt.Parse(form.value).None?
    // A parsed id that has no record gives 404, and no session is created
    ensures r.response.code == 404 <==>
      && form.Some? && PyInt.Parse(form.value).Some? && db.Healthy?
      && PyInt.Parse(form.value).value !in table
    // A session is requested exactly for an existing record with a numeric amount
    ensures r.session.Some? <==>
      && form.Some? && PyInt.Parse(form.value).Some? && db.Healthy?
      && PyInt.Parse(form.value).value in table
      && table[PyInt.Parse(form.value).value].monto.Decimal?
    // ... and charges that record's amount, re-read from the table, for that record
    ensures r.session.Some? ==>
      var id := r.session.value.predioId;
      && form.Some? && PyInt.Parse(form.value) == Some(id) && id in table
      && table[id].monto.Decimal?
      && r.session.value.unitAmount == Centavos(table[id].monto.pesos)
      && r.session.value.productName == ProductName(table[id].folio)
    // The client is redirected (303) only to the URL of a created session
    ensures r.response.code == 303 <==> r.session.Some? && stripe.Created?
    ensures r.response.code == 303 ==> r.response.body == Location(stripe.url)
    ensures r.response.code in {303, 400, 404, 500}
  {
    if form.None? then
      Outcome(Response(400, ErrorPage), None)
    else
      match PyInt.Parse(form.value)
      case None => Outcome(Response(400, Text("ID de predio inválido")), None)
      case Some(id) =>
        if db.ConnectFails? then
          Outcome(Response(500, Text("Error interno del servidor")), None)
        else if db.StatementRaises? then
          Outcome(Response(500, ErrorPage), None)
        else if id !in table then
          Outcome(Response(404, Text("Predio no encontrado")), None)
        else
          var predio := table[id];
          match predio.monto
          case SinMonto =>
            Outcome(Response(500, Text("Monto de predio inválido en la base de datos.")), None)
          case Decimal(pesos) =>
            var request := SessionRequest(Centavos(pesos), ProductName(predio.folio), id);
            match stripe
            case Raised => Outcome(Response(500, ErrorPage), Some(request))
            case Created(url) => Outcome(Response(303, Location(url)), Some(request))
  }

  /**
   * An id that does not parse is rejected the same way whatever the
   * database and Stripe would have done: nothing after the parse is reached.
   */
  lemma BadIdBeforeDatabase(form: Option<string>, db: Db, db': Db, t: Table, t': Table,
                            stripe: StripeReply, stripe': StripeReply)
    requires form.None? || PyInt.Parse(form.value).None?
    ensures CrearCheckout(form, db, t, stripe) == CrearCheckout(form, db', t', stripe')
    ensures CrearCheckout(form, db, t, stripe).session.None?
  {
  }

  /**
   * The amount charged depends only on the stored record, never on
   * anything else the client sends: two tables that agree on the record
   * give the same session.
   */
  lemma AmountFromStore(form: Option<string>, t: Table, t': Table, stripe: StripeReply, stripe': StripeReply)
    requires form.Some? && PyInt.Parse(form.value).Some?
    requires var id := PyInt.Parse(form.value).value; (id in t <==> id in t') && (id in t ==> t[id] == t'[id])
    ensures CrearCheckout(form, Healthy, t, stripe).session == CrearCheckout(form, Healthy, t', stripe').session
  {
  }

  /** A record whose amount is 1234.56 is charged 123456 centavos. */
  lemma ChargeExample(id: int, folio: string, estado: Estado, t: Table, url: string)
    requires id in t && t[id] == Predio(folio, Decimal(1234.56), estado)
    ensures CrearCheckout(Some(PyInt.Str(id)), Healthy, t, Created(url))
         == Outcome(Response(303, Location(url)), Some(SessionRequest(123456, "Pago predio " + folio, id)))
  {
    PyInt.ParseStr(id);
    CentavosFraction();
  }
}
