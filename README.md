# Grain movements service — a Dafny model

`app.py` is a Flask service over one SQLite table, `movimentacoes`. Each row
is one inbound (`entrada`) or outbound (`saida`) movement of a grain
product. The service has four routes: list (with an optional date range),
create, update and delete. This project models the logic under the HTTP and
database plumbing. It proves what each route returns and what it does to
the table.

- `json.dfy` (`JsonValues`): the decoded request body as a Python value,
  Python truthiness, `dict.get`, and `isinstance(q, (int, float))`. That
  check accepts `bool`, because `bool` is a subclass of `int`.
- `validation.dfy` (`Validation`): the checks that `add_movimentacao` and
  `update_movimentacao` share. They run in this order: "Dados inválidos",
  then "Campos obrigatórios faltando", then "Quantidade deve ser um número
  positivo". A body that is true but not an object makes `data.get` raise
  outside the `try`. That outcome is kept separate (`NotAnObject`).
- `sql.dfy` (`Sql`): how `sqlite3` binds a Python value to a `?` parameter.
  An `int` outside 64 bits raises `OverflowError`. A `list` or `dict` is an
  unsupported type. Both failures happen inside the `try` and give 500. The
  file also has the TEXT affinity of `tipo`, `data`, `produto` and
  `destino` (an INTEGER is stored as its decimal text), the BINARY text
  collation as a total order, and SQLite's comparison of a stored value
  with a text parameter.
- `query.dfy` (`ListQuery`): the `SELECT` text and the parameter list that
  `get_movimentacoes` builds. A missing or empty `dataInicio`/`dataFim`
  adds nothing. The file also has the row predicate the conditions denote.
- `table.dfy` (`Movements`): the table as a class. It holds the rows in
  rowid order and the AUTOINCREMENT counter (`lastId`). A ghost set records
  every id ever issued. There are methods for `INSERT`, `UPDATE`, `DELETE`
  and `SELECT`, each specified by functions on the row sequence.
- `handlers.dfy` (`Handlers`): the four routes. Each one returns a status
  and a payload, and each keeps the table invariant: ids unique and
  increasing, every stored `quantidade > 0`, and `tipo`, `data` and
  `produto` neither NULL nor empty text.

Inputs that Flask and the clock supply become parameters: the decoded body
(`None` when `get_json()` finds none), the integer path id, the two query
arguments, and the `datetime.now().isoformat()` text `now`. Text order is
code-point order. That is the order `memcmp` gives on UTF-8, which SQLite's
BINARY collation uses for both `data >= ?` and `ORDER BY timestamp`.

The query arguments are `dataInicio` and `dataFim`. The JSON keys are `tipo`, `data`, `produto`, `quantidade` and `destino`. The text
fields are checked only for truthiness, so a non-string value such as a
number passes validation and is stored (as text, by the column's
affinity). A body that is true but not an
object (a non-empty list, say) gives a 500 from the unhandled
`AttributeError`, not a 400.

## Model

| member | source | states |
|---|---|---|
| `Validation.Validate` | app.py:96-110 | An absent, null or empty body is "Dados inválidos" before any field is read. Any other body that is true but not an object crashes. A falsy `tipo`, `data` or `produto`, or a null `quantidade`, is "Campos obrigatórios faltando" whatever the quantity is. A body that passes those checks and still has a bad quantity is "Quantidade deve ser um número positivo". An accepted movement carries exactly the body's values, with `destino` defaulting to null. The same code is at app.py:130-144. |
| `Validation.AcceptedIffWellFormed` | app.py:97-110 | The chain of checks accepts a body exactly when it is an object whose `tipo`, `data` and `produto` are true and whose `quantidade` is a positive int, float or bool. This holds in both directions. |
| `Validation.BooleanQuantity` | app.py:109-110 | `true` is accepted as a quantity, and `false` is refused as non-positive. |
| `Validation.QuantityRefused` | app.py:109-110 | Once the required fields are present, a string, list or object quantity is refused, and so is a number that is zero or less. |
| `Sql.Adapt` | app.py:114-117 | Binding a parameter fails exactly for a list, a dict, or an int outside 64 bits. JSON null binds as NULL, and only null does. A number binds to a numeric value equal to Python's value for it. A string binds as TEXT. |
| `Sql.TextAffinity` | app.py:46-50 | A value bound to a TEXT column is never stored as an INTEGER: an integer (or a bool) becomes its decimal text, and NULL stays NULL and only NULL does. Text and real values are kept. |
| `Sql.DecimalTextRoundTrip` | app.py:46-50 | The decimal text stored for an integer reads back as that integer, so distinct integers are stored as distinct texts. |
| `Sql.DigitsRoundTrip` | app.py:46-50 | The digits written for a natural number denote that number. |
| `Sql.NumberComparedAsText` | app.py:72-77 | A `data` of `5` is stored as '5' and compared as text, so it passes `data >= '2024-01-01'` and fails `data <= '2024-12-31'`. |
| `Sql.TextLeReflexive` | app.py:73-80 | Text comparison is reflexive. |
| `Sql.TextLeAntisymmetric` | app.py:73-80 | Text comparison is antisymmetric. |
| `Sql.TextLeTransitive` | app.py:73-80 | Text comparison is transitive. |
| `Sql.TextLeTotal` | app.py:73-80 | Text comparison is total, so `ORDER BY timestamp` is a total preorder. |
| `ListQuery.Params` | app.py:72-77 | The parameter list has one bound per condition, in the conditions' order. |
| `ListQuery.RenderedPlaceholders` | app.py:66-82 | The statement text has exactly as many `?` as there are parameters. |
| `ListQuery.FiltersMeaning` | app.py:69-77 | A row passes the `WHERE` clause exactly when its `data` is at least `dataInicio` and at most `dataFim`. Each bound applies only when it is present and non-empty. |
| `ListQuery.FiltersSql` | app.py:72-77 | The condition text is `AND data >= ?` when the start bound is given, then `AND data <= ?` when the end bound is given. |
| `ListQuery.RenderShape` | app.py:66-80 | Every rendered statement starts with `SELECT * FROM movimentacoes WHERE 1=1` and ends with `ORDER BY timestamp DESC`. |
| `ListQuery.BuildQuery` | app.py:66-80 | The built text is the rendering of the handler's conditions (whose shape `RenderShape` states). The params are `[dataInicio]`, `[dataFim]`, both in that order, or empty. The text has one `?` per parameter. |
| `Movements.CountIdUnique` | app.py:148-151 | With unique ids, the row count of a statement `WHERE id = ?` is 1 when the id is present and 0 when it is not. |
| `Movements.ReplaceCols` | app.py:148-151 | An update keeps the number of rows and the order. It replaces the columns of the rows with that id, keeps the id, and leaves every other row as it was. |
| `Movements.RemoveId` | app.py:169 | A delete keeps exactly the rows with another id. It removes as many rows as it matched, and the ids stay increasing. |
| `Movements.RemoveIdTwice` | app.py:169-175 | A second delete of the same id matches no row and leaves the table as the first delete left it. |
| `Movements.AbsentIdUntouched` | app.py:148-156 | An update on an id no row has leaves the rows unchanged. |
| `Movements.RemoveAbsent` | app.py:169-174 | A delete on an id no row has leaves the rows unchanged. |
| `Movements.Filter` | app.py:72-82 | The `WHERE` clause keeps exactly the rows that meet the conditions, and no row more often than it occurs. |
| `Movements.FilterKeepsOrder` | app.py:72-82 | The `WHERE` clause keeps the rows' relative order: rows in increasing id order stay in increasing id order. |
| `Movements.InsertNewestOrdered` | app.py:80 | Inserting a row into a list ordered newest-first keeps it ordered newest-first. |
| `Movements.SortNewest` | app.py:80 | The sorted rows are a permutation of the input in non-increasing `timestamp` order. |
| `Movements.IncreasingOnce` | app.py:45 | Rows with increasing ids hold each row exactly once. |
| `Movements.FilterOnce` | app.py:72-82 | Over a table in rowid order, the `WHERE` clause yields exactly the matching rows, each exactly once. |
| `Movements.TimestampsPermute` | app.py:80 | Two arrangements of the same rows have the same timestamps, counted with multiplicity. |
| `Movements.DescendingDetermined` | app.py:80 | Two non-increasing arrangements of the same texts are equal. |
| `Movements.NewestFirstListingsAgree` | app.py:80 | Any two newest-first arrangements of the same rows have the same timestamp at every position, so `ORDER BY timestamp DESC` fixes the listing up to the order of rows with equal timestamps. |
| `Movements.Query` | app.py:82 | The list statement returns exactly the matching rows, each as often as the filter yields it, sorted by non-increasing `timestamp`. |
| `Movements.MovementTable.constructor` | app.py:44-52 | A new table is empty and has issued no id. |
| `Movements.MovementTable.Insert` | app.py:114-117 | The new row's id is one more than the largest id ever issued, so it is fresh and greater than every earlier id. The row is appended with the given columns. When the largest 64-bit id has been used, the insert fails and nothing changes. |
| `Movements.MovementTable.Update` | app.py:148-151 | The returned count is 1 if the id is present and 0 if not. The rows become the old rows with that row's columns replaced. The counter and the issued ids are unchanged. |
| `Movements.MovementTable.Delete` | app.py:169 | The returned count is 1 if the id is present and 0 if not. The rows become the old rows without that id. Deleted ids are never issued again. |
| `Movements.MovementTable.Select` | app.py:82 | The result is exactly the rows that meet the conditions, as a permutation of the filtered rows, newest first. |
| `Handlers.Refusal` | app.py:97-110 | Each validation refusal is a 400. A body that is true but not an object is a 500. |
| `Handlers.Record` | app.py:114-117 | Binding fails exactly when one of the five values cannot be bound. A bound record stores `tipo`, `data`, `produto` and `destino` as the TEXT columns store the bound values (a string as sent, an integer as its decimal text), the body's quantity as a positive real, and `now` as its timestamp. For a body that passed validation, `tipo`, `data` and `produto` are neither NULL nor empty text (a true value never binds to ''), and the quantity is positive. |
| `Handlers.AddMovement` | app.py:91-122 | A refused body gets its 400 or 500 and the table is unchanged. A binding failure, or an exhausted id counter, gives 500 and no change. Otherwise the status is 201 and exactly one row is appended. That row has a fresh id greater than every id ever issued, the validated values, and `timestamp = now`. Existing rows are unchanged. |
| `Handlers.UpdateMovement` | app.py:125-159 | A refused body gets its 400 or 500 and the table is unchanged. A binding failure (including an id outside 64 bits) gives 500 and no change. An absent id gives 404 and no change. A present id gives 200: only that row changes, it keeps its id, and its six other columns become the new values with `timestamp = now`. |
| `Handlers.DeleteMovement` | app.py:162-177 | An id outside 64 bits gives 500. An absent id gives 404 and no change. A present id gives 200 and removes exactly that row. The counter is unchanged, so the id is never reused. |
| `Handlers.GetMovements` | app.py:60-88 | The status is 200. The listing is exactly the stored rows with `dataInicio <= data <= dataFim` under SQLite's comparison of the stored `data` with a text bound, each bound only if it is non-empty. On a valid table each of them is listed exactly once. The rows are in non-increasing `timestamp` order. |
| `Handlers.DeleteTwice` | app.py:169-175 | Deleting a present id twice gives 200 and then 404. The table ends without that row. |
| `Handlers.AddThenList` | app.py:112-120 | After a successful create, an unfiltered listing contains the new row. The row has a fresh id, the submitted values and `now`. |

## Left out

- Flask routing, `request.args`, `get_json()` parsing, `jsonify` and CORS are framework I/O. Their results are parameters here.
- Connection handling, `commit`/`close`, `init_db` and server start-up are left out. The table is modelled abstractly, and each statement runs atomically.
- Storage faults other than binding errors and AUTOINCREMENT exhaustion (disk errors, locking, corruption) are left out. They come from a library this model does not include. The text of `str(e)` in a 500 is not modelled (`StorageFailure`).
- Binding and AUTOINCREMENT exhaustion do get a deterministic 500 with no change: the statement fails before it writes.
- Flask's own page for the `AttributeError` that a truthy non-object body raises is `ServerFault`. Its HTML is not modelled.
- The clock: `datetime.now().isoformat()` is the parameter `now`. Nothing is assumed about successive values.
- Floating point: a JSON number with a fraction or exponent is a Dafny `real`. NaN and infinities, which Python's `json` accepts, are not modelled.
- Sql.TextAffinity: does not model the text form of a REAL. SQLite stores a float bound to `tipo`, `data`, `produto` or `destino` as its text rendering (`5.5` as '5.5'). That rendering is not modelled: the model keeps the real number and compares it with a text bound as a number, which sorts before all text. Through `Handlers.Record` this reaches `Handlers.GetMovements`: for such a value the model's listing and SQLite's can differ (a `data` of `5.5` is listed for `dataFim=2024-12-31` by the model, not by SQLite), and the value read back is text where the model has a number. Integers and bools are stored as decimal text in the model, as in SQLite.
- Strings that are not valid Unicode: Python's `json` accepts a lone surrogate such as `"\ud800"`. Binding it raises `UnicodeEncodeError` inside the `try`, which gives a 500. A Dafny `string` of `char` cannot hold a lone surrogate, so that input and its 500 are not modelled.
- The order of rows with equal timestamps is unspecified in SQLite. The model sorts with a fixed insertion sort, and every contract requires only non-increasing order.
- The built statement text is not parsed. The engine's evaluation is `Select` on the same conditions, and `BuildQuery` proves that the text and parameters render those conditions.
