/**
 * The table PREDIOS_PRUEB (one row per property record, keyed by `id`), the
 * HTTP responses the handlers return, and how the database behaves during
 * one request.
 */
module Records {

  /**
   * The `estado` column as the webhook's UPDATE sees it. `Pendiente` stands
   * for every non-NULL value that is not 'pagado' (the unpaid state);
   * `SinEstado` is SQL NULL, for which `estado != 'pagado'` is not true.
   */
  datatype Estado = Pagado | Pendiente | SinEstado

  /** The `monto` column: an exact DECIMAL amount in pesos, or NULL. */
  datatype Monto = Decimal(pesos: real) | SinMonto

  datatype Predio = Predio(folio: string, monto: Monto, estado: Estado)

  /** The whole table, keyed by the primary key `id`. */
  type Table = map<int, Predio>

  /**
   * How the database behaves for one request: the connection cannot be
   * opened (`get_db_connection` returns None), a statement raises
   * `mysql.connector.Error`, or everything succeeds.
   */
  datatype Db = ConnectFails | StatementRaises | Healthy

  /**
   * A response body: plain text, `jsonify({'status': ...})`, a redirect's
   * Location, or the framework's own error page (a request that lacks a
   * form field, or an exception the handler does not catch).
   */
  datatype Body = Text(text: string) | Json(status: string) | Location(url: string) | ErrorPage

  datatype Response = Response(code: int, body: Body)

}
