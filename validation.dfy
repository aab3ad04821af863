/** Request-body validation, identical in `add_movimentacao` and
    `update_movimentacao`: three checks in a fixed order, each returning
    400 with its own message, before anything touches the database. A body
    that is true but not an object fails between the first and the second,
    with an uncaught `AttributeError` (a 500). */
module Validation {

  import opened Wrappers
  import opened JsonValues

  const InvalidDataMessage := "Dados inválidos"
  const MissingFieldsMessage := "Campos obrigatórios faltando"
  const BadQuantityMessage := "Quantidade deve ser um número positivo"

  /** The five values a handler reads out of the body with `data.get`. */
  datatype Movement = Movement(tipo: Json, data: Json, produto: Json, quantidade: Json, destino: Json)

  /** What validation decides. `NotAnObject` is a true body that is not a
      JSON object (a non-empty list or string, a non-zero number, `true`):
      `data.get` raises `AttributeError` outside the `try` block. */
  datatype Outcome =
    | InvalidData
    | MissingFields
    | BadQuantity
    | NotAnObject
    | Accepted(movement: Movement)

  /** The lookups `data.get('tipo')` ... `data.get('destino', None)`. */
  function Fields(d: map<string, Json>): Movement
  {
    Movement(Get(d, "tipo"), Get(d, "data"), Get(d, "produto"), Get(d, "quantidade"), Get(d, "destino"))
  }

  /** `all([tipo, data_movimentacao, produto, quantidade is not None])` */
  predicate HasRequired(m: Movement)
  {
    Truthy(m.tipo) && Truthy(m.data) && Truthy(m.produto) && m.quantidade != JNull
  }

  /** The negation of `not isinstance(q, (int, float)) or q <= 0`. */
  predicate PositiveNumber(v: Json)
  {
    IsNumber(v) && NumericValue(v) > 0.0
  }

  /** The checks in the handlers' order; `body` is `None` when
      `get_json()` found no JSON body. */
  function Validate(body: Option<Json>): (r: Outcome)
    // An absent, null or empty body is refused before any field is read.
    ensures r == InvalidData <==> body.None? || !Truthy(body.value)
    ensures r == NotAnObject <==> body.Some? && Truthy(body.value) && !body.value.JObject?
    // A missing field is reported whatever the quantity is.
    ensures r == MissingFields <==>
              body.Some? && body.value.JObject? && |body.value.fields| != 0 && !HasRequired(Fields(body.value.fields))
    // With every field present, a quantity that is not a positive number is refused.
    ensures r == BadQuantity <==>
              && body.Some? && body.value.JObject? && |body.value.fields| != 0
              && HasRequired(Fields(body.value.fields))
              && !PositiveNumber(Get(body.value.fields, "quantidade"))
    // An accepted movement carries exactly the body's values, destino defaulting to null.
    ensures r.Accepted? ==>
              && body.Some? && body.value.JObject?
              && r.movement == Fields(body.value.fields)
              && HasRequired(r.movement)
              && PositiveNumber(r.movement.quantidade)
  {
    if body.None? || !Truthy(body.value) then InvalidData
    else if !body.value.JObject? then NotAnObject
    else
      var m := Fields(body.value.fields);
      if !HasRequired(m) then MissingFields
      else if !IsNumber(m.quantidade) || NumericValue(m.quantidade) <= 0.0 then BadQuantity
      else Accepted(m)
  }

  /** A declarative statement of an acceptable body, written without the
      handlers' check order: the three text fields present and true, the
      quantity a positive `int`, `float` or `bool`. */
  predicate WellFormed(d: map<string, Json>)
  {
    && "tipo" in d && Truthy(d["tipo"])
    && "data" in d && Truthy(d["data"])
    && "produto" in d && Truthy(d["produto"])
    && "quantidade" in d && PositiveNumber(d["quantidade"])
  }

  /** The chain of checks accepts exactly the well-formed objects; in
      particular the emptiness check never refuses a well-formed body. */
  lemma AcceptedIffWellFormed(body: Option<Json>)
    ensures Validate(body).Accepted? <==> body.Some? && body.value.JObject? && WellFormed(body.value.fields)
  {
  }

  /** `bool` is an `int`: `true` is a valid quantity and `false` a
      non-positive one. */
  lemma BooleanQuantity(d: map<string, Json>)
    requires "tipo" in d && Truthy(d["tipo"])
    requires "data" in d && Truthy(d["data"])
    requires "produto" in d && Truthy(d["produto"])
    ensures Validate(Some(JObject(d["quantidade" := JBool(true)]))).Accepted?
    ensures Validate(Some(JObject(d["quantidade" := JBool(false)]))) == BadQuantity
  {
  }

  /** A quantity that is not a number, or a number that is not positive,
      is refused once the required fields are there. */
  lemma QuantityRefused(d: map<string, Json>, q: Json)
    requires "tipo" in d && Truthy(d["tipo"])
    requires "data" in d && Truthy(d["data"])
    requires "produto" in d && Truthy(d["produto"])
    requires q != JNull
    requires q.JString? || q.JArray? || q.JObject? || (IsNumber(q) && NumericValue(q) <= 0.0)
    ensures Validate(Some(JObject(d["quantidade" := q]))) == BadQuantity
  {
  }

}
