/** The four route handlers of app.py over one `MovementTable`. Flask's
    request parsing is replaced by parameters: the decoded JSON body, the
    `<int:movimentacao_id>` path segment, the two query arguments, and the
    `datetime.now().isoformat()` text as `now`. */
module Handlers {

  import opened Wrappers
  import opened JsonValues
  import opened Validation
  import opened Sql
  import opened ListQuery
  import opened Movements

  const AddedMessage := "Movimentação adicionada com sucesso!"
  const UpdatedMessage := "Movimentação atualizada com sucesso!"
  const DeletedMessage := "Movimentação excluída com sucesso!"
  const NotFoundMessage := "Movimentação não encontrada"

  /** The JSON a handler returns. `StorageFailure` is the `except` branch's
      `{"error": str(e)}`, whose text comes from sqlite3; `ServerFault` is
      Flask's own 500 page for an exception no handler catches. */
  datatype Payload =
    | Message(text: string)
    | Error(text: string)
    | Listing(rows: seq<Row>)
    | StorageFailure
    | ServerFault

  datatype Response = Response(status: int, payload: Payload)

  /** The response to a body that validation refuses. */
  function Refusal(o: Outcome): (r: Response)
    requires !o.Accepted?
    ensures r.status == if o.NotAnObject? then 500 else 400
  {
    match o
    case InvalidData => Response(400, Error(InvalidDataMessage))
    case MissingFields => Response(400, Error(MissingFieldsMessage))
    case BadQuantity => Response(400, Error(BadQuantityMessage))
    case NotAnObject => Response(500, ServerFault)
  }

  /** What the service promises of every stored row: a positive quantity,
      and the three NOT NULL columns filled, and not with empty text. */
  predicate Conforms(c: Columns)
  {
    && c.quantidade > 0.0
    && c.tipo != SqlNull && c.data != SqlNull && c.produto != SqlNull
    && c.tipo != SqlText("") && c.data != SqlText("") && c.produto != SqlText("")
  }

  predicate Conforming(rows: seq<Row>)
  {
    forall i :: 0 <= i < |rows| ==> Conforms(rows[i].cols)
  }

  /** The six column values an `INSERT` or `UPDATE` stores, once sqlite3
      has adapted them and the columns' affinities have applied; `None`
      when one of them cannot be bound. */
  function Record(m: Movement, now: string): (r: Option<Columns>)
    requires PositiveNumber(m.quantidade)
    ensures r.None? <==>
              Adapt(m.tipo).None? || Adapt(m.data).None? || Adapt(m.produto).None?
              || Adapt(m.quantidade).None? || Adapt(m.destino).None?
    // The stored columns are the validated values, as the columns store them.
    ensures r.Some? ==>
              && r.value.tipo == TextAffinity(Adapt(m.tipo).value)
              && r.value.data == TextAffinity(Adapt(m.data).value)
              && r.value.produto == TextAffinity(Adapt(m.produto).value)
              && r.value.destino == TextAffinity(Adapt(m.destino).value)
              && r.value.quantidade == NumericValue(m.quantidade)
              && r.value.timestamp == now
    // A string is stored as it was sent.
    ensures r.Some? && m.data.JString? ==> r.value.data == SqlText(m.data.s)
    // A validated movement always satisfies the table's constraints.
    ensures r.Some? && HasRequired(m) ==> Conforms(r.value)
  {
    match (Adapt(m.tipo), Adapt(m.data), Adapt(m.produto), Adapt(m.quantidade), Adapt(m.destino))
    case (Some(t), Some(d), Some(p), Some(q), Some(e)) =>
      Some(Columns(TextAffinity(t), TextAffinity(d), TextAffinity(p), SqlNumeric(q), TextAffinity(e), now))
    case _ => None
  }

  /** `add_movimentacao` (POST /api/movimentacoes). */
  method AddMovement(t: MovementTable, body: Option<Json>, now: string) returns (resp: Response)
    requires t.Valid() && Conforming(t.rows)
    modifies t
    ensures t.Valid() && Conforming(t.rows)
    // A refused body is answered before the try block: nothing is written.
    ensures !Validate(body).Accepted? ==> resp == Refusal(Validate(body)) && t.Untouched()
    ensures Validate(body).Accepted? ==>
              var record := Record(Validate(body).movement, now);
              if record.None? || old(t.lastId) == MaxInt64 then
                resp == Response(500, StorageFailure) && t.Untouched()
              else
                && resp == Response(201, Message(AddedMessage))
                && t.rows == old(t.rows) + [Row(old(t.lastId) + 1, record.value)]
                && (forall k :: k in old(t.issued) ==> k < old(t.lastId) + 1)
                && t.lastId == old(t.lastId) + 1
  {
    var outcome := Validate(body);
    if !outcome.Accepted? {
      return Refusal(outcome);
    }
    var record := Record(outcome.movement, now);
    if record.None? {
      return Response(500, StorageFailure);
    }
    var id := t.Insert(record.value);
    if id.None? {
      return Response(500, StorageFailure);
    }
    resp := Response(201, Message(AddedMessage));
  }

  /** `update_movimentacao` (PUT /api/movimentacoes/<id>). */
  method UpdateMovement(t: MovementTable, id: nat, body: Option<Json>, now: string) returns (resp: Response)
    requires t.Valid() && Conforming(t.rows)
    modifies t
    ensures t.Valid() && Conforming(t.rows)
    ensures !Validate(body).Accepted? ==> resp == Refusal(Validate(body)) && t.Untouched()
    ensures Validate(body).Accepted? ==>
              var record := Record(Validate(body).movement, now);
              if record.None? || id > MaxInt64 then
                resp == Response(500, StorageFailure) && t.Untouched()
              else if id !in Ids(old(t.rows)) then
                // rowcount 0
                resp == Response(404, Error(NotFoundMessage)) && t.Untouched()
              else
                && resp == Response(200, Message(UpdatedMessage))
                && |t.rows| == |old(t.rows)|
                && (forall i :: 0 <= i < |t.rows| ==>
                      t.rows[i] == if old(t.rows)[i].id == id then Row(id, record.value) else old(t.rows)[i])
                && t.lastId == old(t.lastId) && t.issued == old(t.issued)
  {
    var outcome := Validate(body);
    if !outcome.Accepted? {
      return Refusal(outcome);
    }
    var record := Record(outcome.movement, now);
    if record.None? || id > MaxInt64 {
      return Response(500, StorageFailure);
    }
    if id !in Ids(t.rows) {
      AbsentIdUntouched(t.rows, id, record.value);
    }
    var count := t.Update(id, record.value);
    if count == 0 {
      return Response(404, Error(NotFoundMessage));
    }
    resp := Response(200, Message(UpdatedMessage));
  }

  /** `delete_movimentacao` (DELETE /api/movimentacoes/<id>). */
  method DeleteMovement(t: MovementTable, id: nat) returns (resp: Response)
    requires t.Valid() && Conforming(t.rows)
    modifies t
    ensures t.Valid() && Conforming(t.rows)
    ensures id > MaxInt64 ==> resp == Response(500, StorageFailure) && t.Untouched()
    ensures id <= MaxInt64 && id !in Ids(old(t.rows)) ==>
              resp == Response(404, Error(NotFoundMessage)) && t.Untouched()
    ensures id <= MaxInt64 && id in Ids(old(t.rows)) ==>
              && resp == Response(200, Message(DeletedMessage))
              && t.rows == RemoveId(old(t.rows), id)
              && (forall x :: x in t.rows <==> x in old(t.rows) && x.id != id)
              && |t.rows| == |old(t.rows)| - 1
              && t.lastId == old(t.lastId) && t.issued == old(t.issued)
  {
    if id > MaxInt64 {
      return Response(500, StorageFailure);
    }
    if id !in Ids(t.rows) {
      RemoveAbsent(t.rows, id);
    }
    ghost var before := t.rows;
    CountIdUnique(before, id);
    var count := t.Delete(id);
    forall i | 0 <= i < |t.rows| ensures Conforms(t.rows[i].cols) {
      assert t.rows[i] in before;
    }
    if count == 0 {
      return Response(404, Error(NotFoundMessage));
    }
    resp := Response(200, Message(DeletedMessage));
  }

  /** `get_movimentacoes` (GET /api/movimentacoes?dataInicio=&dataFim=):
      exactly the rows whose `data` lies between the given bounds, newest
      `timestamp` first. */
  method GetMovements(t: MovementTable, dataInicio: Option<string>, dataFim: Option<string>) returns (resp: Response)
    ensures resp.status == 200 && resp.payload.Listing?
    ensures forall x :: x in resp.payload.rows <==>
              && x in t.rows
              && (Given(dataInicio) ==> AtLeast(x.cols.data, dataInicio.value))
              && (Given(dataFim) ==> AtMost(x.cols.data, dataFim.value))
    ensures multiset(resp.payload.rows) == multiset(Filter(t.rows, Filters(dataInicio, dataFim)))
    // Ids are unique, so each matching row is listed exactly once.
    ensures t.Valid() ==> forall x :: x in resp.payload.rows ==> multiset(resp.payload.rows)[x] == 1
    ensures NewestFirst(resp.payload.rows)
  {
    // The statement text and its parameters; the engine's reading of them
    // is `Select` on the same conditions.
    var query, params := BuildQuery(dataInicio, dataFim);
    var rows := t.Select(Filters(dataInicio, dataFim));
    forall x: Row {
      FiltersMeaning(dataInicio, dataFim, x.cols.data);
    }
    if t.Valid() {
      FilterOnce(t.rows, Filters(dataInicio, dataFim));
    }
    resp := Response(200, Listing(rows));
  }

  /** Deleting the same movement twice: 200, then 404. */
  method DeleteTwice(t: MovementTable, id: nat) returns (first: Response, second: Response)
    requires t.Valid() && Conforming(t.rows)
    requires id in Ids(t.rows)
    modifies t
    ensures first == Response(200, Message(DeletedMessage))
    ensures second == Response(404, Error(NotFoundMessage))
    ensures t.rows == RemoveId(old(t.rows), id)
  {
    assert id in t.issued;
    first := DeleteMovement(t, id);
    RemoveIdTwice(old(t.rows), id);
    CountIdUnique(t.rows, id);
    second := DeleteMovement(t, id);
  }

  /** A created movement is listed at once, with no date filter, carrying
      the submitted values, a fresh id and `now` as its timestamp. */
  method AddThenList(t: MovementTable, body: Option<Json>, now: string) returns (created: Response, listed: Response)
    requires t.Valid() && Conforming(t.rows)
    requires Validate(body).Accepted?
    requires Record(Validate(body).movement, now).Some?
    requires t.lastId < MaxInt64
    modifies t
    ensures created.status == 201 && listed.status == 200 && listed.payload.Listing?
    ensures var id := old(t.lastId) + 1;
            && id !in old(t.issued)
            && Row(id, Record(Validate(body).movement, now).value) in listed.payload.rows
  {
    created := AddMovement(t, body, now);
    listed := GetMovements(t, None, None);
    assert t.rows[|t.rows| - 1] == Row(old(t.lastId) + 1, Record(Validate(body).movement, now).value);
  }

}
