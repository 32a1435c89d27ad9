# Property payments: checkout and webhook model

This project models the two handlers of the property-payment web application
(`app.py`) that carry logic:

- `crear_checkout` (POST /crear-checkout). It parses the record (`predio`) id
  from the form and reads that record from the table `PREDIOS_PRUEB`. It
  converts the stored amount (`monto`) to centavos with `int(monto * 100)` and
  asks Stripe for a checkout session. Then it redirects the client to it.
- `stripe_webhook` (POST /webhook). It classifies a Stripe event. For a
  completed checkout it marks the record paid with the conditional statement
  `UPDATE ... SET estado = 'pagado' WHERE id = ? AND estado != 'pagado'`.

Modules:

- `Wrappers` holds `Option`.
- `PyInt` models Python's `int(text)` and `str(n)` on ASCII text. Both handlers
  call `int()` on a string. The id that checkout puts into the session metadata
  comes back to the webhook as its `str()` rendering.
- `Records` holds the table row (`Predio`: folio, monto, estado) and the table
  `map<int, Predio>`. It also holds the database's behaviour for one request
  (`Db`) and the HTTP `Response`.
- `Checkout` models `crear_checkout` as a pure function.
- `Webhook` models the event classification and the conditional UPDATE as
  functions. Its class `PrediosTable` holds the table and updates it in place:
  `Update` runs the UPDATE and returns the row count, and `HandleWebhook`
  handles a request, rolling back when a statement raises.

The code never checks that the id is positive: `int()` accepts `-5`, `0` and
`" 7 "`, so the model accepts them too.

`estado` is modelled with three values. `Pagado` is 'pagado'. `Pendiente` is
any other non-NULL value. `SinEstado` is SQL NULL. For a NULL row,
`estado != 'pagado'` is not true in SQL. So the UPDATE leaves such a row alone
and affects 0 rows.

Inputs the model takes as parameters:

- the result of Stripe's signature check (`Verification`);
- the result of `Session.create` (`StripeReply`);
- whether the connection opens and whether a statement raises (`Db`);
- whether the form field is present (`Option<string>`).

## Model

| member | source | states |
|---|---|---|
| PyInt.ParseDigitsGrammar | app.py:162 | The digit part of `int()` succeeds exactly on digit groups: a digit first and last, only digits and single underscores between them. |
| PyInt.ParseDigitsValue | app.py:162 | Digit groups parse to the number their digits spell once the underscores are dropped (`int("1_000") == 1000`). |
| PyInt.Parse | app.py:84 | `int(text)` succeeds exactly when the text, stripped of whitespace, is an optional sign followed by digit groups; otherwise it raises ValueError (None). |
| PyInt.Str | app.py:127 | `str(n)`, as Stripe stores the int metadata: non-empty, ending in a digit, starting with '-' exactly for a negative n. |
| PyInt.ParseStr | app.py:127 | `int(str(n)) == n` for every integer, negative ones included. |
| PyInt.ParsePadded | app.py:84 | `int()` accepts the rendering of any integer with arbitrary whitespace before and after it. |
| PyInt.ParseLeadingZero | app.py:162 | A leading zero does not change the parsed value (`int("007") == 7`). |
| Checkout.Centavos | app.py:106 | `int(monto * 100)` truncates toward zero: for a non-negative amount the result is the largest integer not above monto*100, for a negative one the smallest not below. |
| Checkout.CentavosOdd | app.py:106 | Converting the negated amount gives the negated result (truncation, not flooring). |
| Checkout.CentavosExact | app.py:106 | An amount whose value times 100 is an integer converts to exactly that integer. |
| Checkout.CentavosFraction | app.py:106 | 1234.56 gives 123456; 0.005 and -0.005 give 0; -12.349 gives -1234. |
| Checkout.ProductName | app.py:117 | The line item's name is "Pago predio " followed by the folio, which can be read back from it. |
| Checkout.CrearCheckout | app.py:80-132 | 400 exactly when the form field is missing or not an integer; 404 exactly when the id parses, the database is up and no record has it. A session is requested exactly for an existing record with a numeric amount. It is for that id, charges Centavos of the stored amount and is named after the folio. 303 to the session URL exactly when Stripe created it. No other codes. |
| Checkout.BadIdBeforeDatabase | app.py:83-91 | A missing or non-integer id gets the same response whatever the database, the table and Stripe would do, and no session is requested. |
| Checkout.AmountFromStore | app.py:88-106 | The session requested depends only on the stored record for the parsed id, never on anything else. |
| Checkout.ChargeExample | app.py:104-119 | A record with amount 1234.56 is redirected to its session with a request for 123456 centavos, named "Pago predio " + folio, for that id. |
| Webhook.Classify | app.py:143-165 | 400 exactly when verification fails. Another event type gives 200 success. A completed event without `predio_id` gives 200 metadata_missing; one whose id does not parse gives 200 invalid_predio_id. A write is decided exactly for a completed event whose id parses, and for that id. |
| Webhook.MarkedPaid | app.py:176-180 | The UPDATE keeps the key set, changes no other record and no other column. Afterwards the id maps to 'pagado' if it was present, unless its estado was NULL. |
| Webhook.RowsAffected | app.py:176-181 | rowcount is 0 or 1. It is 1 exactly when the record exists with a non-NULL estado other than 'pagado'. It is 0 exactly when the UPDATE leaves the table unchanged. |
| Webhook.MarkPaidIdempotent | app.py:175-178 | Applying the UPDATE twice gives the table of applying it once, and the second application affects 0 rows. |
| Webhook.MarkPaidAdvances | app.py:177 | The UPDATE only turns an unpaid record to paid: it never changes a paid or NULL-status record and never writes another status. |
| Webhook.MarkPaidCommutes | app.py:176-178 | Updates for two ids give the same table in either order. |
| Webhook.Handle | app.py:135-192 | Where Classify answers at once (400 for a failed verification; 200 success, metadata_missing or invalid_predio_id), that answer is the response and the table is unchanged. Codes are 200, 400 or 500. 400 exactly when verification fails. 500 exactly when a write was decided and the connection or the UPDATE failed. Any non-200 response leaves the table unchanged. The table changes only on the 200 success path, by the conditional UPDATE for the parsed id. Every path only advances records to paid. |
| Webhook.ResponseIgnoresTable | app.py:180-192 | The response never depends on the table, so the row count is diagnostic only. |
| Webhook.RedeliveryHarmless | app.py:175-192 | After a delivery handled with the database up, redelivering the same event leaves the table unchanged whatever the database does. With the database up it gets the same response, and its UPDATE affects 0 rows. |
| Webhook.ReplayAdvances | app.py:176-178 | Over any sequence of deliveries the key set is unchanged and each record either stays as it was or goes from unpaid to paid with its other columns kept. |
| Webhook.PaidStaysPaid | app.py:177 | A paid record is unchanged by any sequence of deliveries. |
| Webhook.CompletionFor | app.py:126-128 | The completed event carrying `str(id)` in its metadata, whatever else the metadata holds, is classified as a write for exactly that id. |
| Webhook.CompletionHandled | app.py:153-192 | For every table, that event with the database up is answered 200 success and applies the conditional UPDATE for the id. |
| Webhook.CompletionMarksRecord | app.py:126-180 | The unpaid case: the completed event for the id checkout put in the metadata is answered 200 success and marks exactly that record paid, with one row affected. |
| Webhook.PrediosTable.Update | app.py:176-181 | Updates the table in place to MarkedPaid of the old table and returns RowsAffected of the old table, which is at most 1. |
| Webhook.PrediosTable.HandleWebhook | app.py:135-192 | Returns Handle's response and leaves Handle's table, undoing the UPDATE when a statement raises. The new table advances the old one. |

## Left out

- The search handler `buscar_predio` is not modelled. It uses SQL `LIKE` with the user's text unescaped, so `%` and `_` act as wildcards. Its matching also depends on the MySQL collation.
- `index`, `exito`, `cancelado`, template rendering and routing are left out. They are presentation only.
- `get_db_connection`, configuration loading and the closing of cursors and connections are I/O. The model takes only their outcome (`Db`).
- Stripe's signature check (`construct_event`) and `Session.create` are foreign calls. Only their success or failure (and the session URL) is modelled.
- The constant session parameters are not part of `SessionRequest`: payment method "card", mode "payment", quantity 1, and the success and cancel URLs. The currency "mxn" is the constant `Checkout.Currency`.
- The log lines, including the printed row count, are not modelled. The row count itself is `RowsAffected`.
- Concurrent duplicate deliveries are not modelled. Their safety rests on MySQL evaluating the conditional UPDATE atomically per statement.
- `monto` is modelled as an exact decimal. A FLOAT column (binary rounding) is not modelled. Decimal context precision (28 digits) is not modelled either. A text-typed column is not modelled: there `* 100` repeats the string.
- A verified event is assumed to have the shape Stripe guarantees (type, data.object, metadata). A KeyError from a malformed one is not modelled.
- PyInt.Parse: models `int()` on ASCII text only. CPython also accepts Unicode decimal digits and Unicode whitespace. Recent CPython versions also reject strings of more than 4300 digits.
- `Pendiente` stands for every non-NULL status other than 'pagado' as the column's collation compares it. Case- or padding-insensitive matches of 'pagado' are not modelled separately.
