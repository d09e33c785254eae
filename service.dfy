/**
 * The equipment controller's actions as functions from the table to a
 * response and the new table. `DateTime.Now` is the parameter `now`.
 */
module Service {
  import opened Wrappers
  import opened Text
  import opened Equipment
  import opened Validation

  /** The controller's `IActionResult`s. */
  datatype Response =
    | OkRecord(record: Equipamento)     // 200 with one equipment
    | OkList(records: set<Equipamento>) // 200 with a list, in no particular order
    | OkStatus(status: string)          // 200 with `{ Status }`
    | Created(record: Equipamento)      // 201 with the new equipment
    | NoContent                         // 204
    | NotFound                          // 404
    | BadRequest(message: string)       // 400 with a message

  /** Every string field of the body is non-null. */
  predicate FieldsPresent(input: EquipamentoDto)
  {
    && input.codigo.Some? && input.tipo.Some? && input.modelo.Some?
    && input.statusOperacional.Some? && input.localizacaoAtual.Some?
  }

  /** `e` holds the seven fields of `input` unchanged. */
  predicate Carries(e: Equipamento, input: EquipamentoDto)
  {
    && input.codigo == Some(e.codigo)
    && input.tipo == Some(e.tipo)
    && input.modelo == Some(e.modelo)
    && input.horimetro == e.horimetro
    && input.statusOperacional == Some(e.statusOperacional)
    && input.dataAquisicao == e.dataAquisicao
    && input.localizacaoAtual == Some(e.localizacaoAtual)
  }

  /** The row the controller fills from `input` under `id`. */
  function FromInput(id: int, input: EquipamentoDto): Equipamento
    requires FieldsPresent(input)
  {
    Equipamento(id, input.codigo.value, input.tipo.value, input.modelo.value, input.horimetro,
                input.statusOperacional.value, input.dataAquisicao, input.localizacaoAtual.value)
  }

  /** `GetById`: the row filed under `id`, or NotFound. */
  function GetById(s: Store, id: int): (r: Response)
    requires Invariant(s)
    ensures r.OkRecord? || r.NotFound?
    ensures r.NotFound? <==> id !in s.rows
    ensures r.OkRecord? ==> r.record.id == id && r.record in Records(s.rows)
  {
    if id in s.rows then OkRecord(s.rows[id]) else NotFound
  }

  /** `GetAll`: every row, each one once. */
  function GetAll(s: Store): (r: Response)
    requires Invariant(s)
    ensures r.OkList?
    ensures forall id | id in s.rows :: s.rows[id] in r.records
    ensures forall e | e in r.records :: e.id in s.rows && s.rows[e.id] == e
  {
    RowsFiledUnderTheirIds(s);
    OkList(Records(s.rows))
  }

  /** `GetStatus`: the status of the row under `id`, or NotFound. */
  function GetStatus(s: Store, id: int): (r: Response)
    ensures r.OkStatus? || r.NotFound?
    ensures r.NotFound? <==> id !in s.rows
    ensures r.OkStatus? ==> r.status == s.rows[id].statusOperacional
  {
    if id in s.rows then OkStatus(s.rows[id].statusOperacional) else NotFound
  }

  /** `GetByTipo`: the rows whose `Tipo` equals `tipo` once both are lower-cased. */
  function GetByTipo(s: Store, tipo: string): (r: Response)
    ensures r.OkList?
    ensures r.records <= Records(s.rows)
    ensures forall e | e in Records(s.rows) :: e in r.records <==> EqualsIgnoreCase(e.tipo, tipo)
  {
    OkList(set e | e in Records(s.rows) && EqualsIgnoreCase(e.tipo, tipo))
  }

  /**
   * `Create`: on the first failing check, BadRequest with its message and no
   * change; otherwise one new row, under an id no row had, carrying the body's
   * fields as they came.
   */
  function Create(s: Store, input: EquipamentoDto, now: Ticks): (r: (Response, Store))
    requires Invariant(s)
    ensures Invariant(r.1)
    ensures r.0.Created? || r.0.BadRequest?
    ensures r.0.BadRequest? <==> ValidateCreate(input, now, s.rows).Fail?
    ensures r.0.BadRequest? ==> r.0.message == Message(ValidateCreate(input, now, s.rows).error) && r.1 == s
    ensures r.0.Created? ==>
      && r.0.record.id !in s.rows
      && Carries(r.0.record, input)
      && r.1.rows == s.rows[r.0.record.id := r.0.record]
  {
    var v := ValidateCreate(input, now, s.rows);
    if v.Fail? then (BadRequest(Message(v.error)), s)
    else
      ValidateCreatePasses(input, now, s.rows);
      ValidateFieldsPasses(input, now);
      var e := FromInput(s.nextId, input);
      InsertKeepsInvariant(s, e);
      (Created(e), Store(s.rows[s.nextId := e], s.nextId + 1))
  }

  /**
   * `Update`: NotFound before any check when `id` is absent; then BadRequest
   * on the first failing check; otherwise all seven fields of that one row are
   * overwritten and its id kept.
   */
  function Update(s: Store, id: int, input: EquipamentoDto, now: Ticks): (r: (Response, Store))
    requires Invariant(s)
    ensures Invariant(r.1)
    ensures id !in s.rows ==> r == (NotFound, s)
    ensures id in s.rows && ValidateUpdate(input, now, s.rows, id).Fail? ==>
      r == (BadRequest(Message(ValidateUpdate(input, now, s.rows, id).error)), s)
    ensures id in s.rows && ValidateUpdate(input, now, s.rows, id).Pass? ==> r.0.OkRecord?
    ensures r.0.OkRecord? ==>
      && id in s.rows
      && ValidateUpdate(input, now, s.rows, id).Pass?
      && r.0.record.id == id
      && Carries(r.0.record, input)
      && r.1.rows == s.rows[id := r.0.record]
      && r.1.nextId == s.nextId
    ensures r.0.NotFound? || r.0.BadRequest? || r.0.OkRecord?
  {
    if id !in s.rows then (NotFound, s)
    else
      var v := ValidateUpdate(input, now, s.rows, id);
      if v.Fail? then (BadRequest(Message(v.error)), s)
      else
        var e := FromInput(id, input);
        (OkRecord(e), Store(s.rows[id := e], s.nextId))
  }

  /**
   * `AvancarStatus`: NotFound when `id` is absent; otherwise the row's status
   * moves one step along the cycle and nothing else changes.
   */
  function AvancarStatus(s: Store, id: int): (r: (Response, Store))
    requires Invariant(s)
    ensures Invariant(r.1)
    ensures id !in s.rows ==> r == (NotFound, s)
    ensures id in s.rows ==>
      && r.0.OkRecord?
      && r.0.record.statusOperacional == NextStatus(s.rows[id].statusOperacional)
      && r.0.record.(statusOperacional := s.rows[id].statusOperacional) == s.rows[id]
      && r.1.rows == s.rows[id := r.0.record]
      && r.1.nextId == s.nextId
  {
    if id !in s.rows then (NotFound, s)
    else
      var e := s.rows[id];
      var e' := e.(statusOperacional := NextStatus(e.statusOperacional));
      (OkRecord(e'), Store(s.rows[id := e'], s.nextId))
  }

  /**
   * `AtualizarHorimetro`: NotFound when `id` is absent; BadRequest when the
   * reading is not positive; otherwise only that row's hour meter changes.
   */
  function AtualizarHorimetro(s: Store, id: int, horimetro: Hundredths): (r: (Response, Store))
    requires Invariant(s)
    ensures Invariant(r.1)
    ensures id !in s.rows ==> r == (NotFound, s)
    ensures id in s.rows && horimetro <= 0 ==> r == (BadRequest(Message(HorimetroNaoPositivo)), s)
    ensures id in s.rows && horimetro > 0 ==>
      && r.0.OkRecord?
      && r.0.record.horimetro == horimetro
      && r.0.record.(horimetro := s.rows[id].horimetro) == s.rows[id]
      && r.1.rows == s.rows[id := r.0.record]
      && r.1.nextId == s.nextId
  {
    if id !in s.rows then (NotFound, s)
    else if horimetro <= 0 then (BadRequest(Message(HorimetroNaoPositivo)), s)
    else
      var e' := s.rows[id].(horimetro := horimetro);
      (OkRecord(e'), Store(s.rows[id := e'], s.nextId))
  }

  /**
   * `AtualizarLocalizacao`: NotFound when `id` is absent; BadRequest when the
   * location is null or white space only; otherwise only that row's location
   * changes.
   */
  function AtualizarLocalizacao(s: Store, id: int, localizacaoAtual: Option<string>): (r: (Response, Store))
    requires Invariant(s)
    ensures Invariant(r.1)
    ensures id !in s.rows ==> r == (NotFound, s)
    ensures id in s.rows && IsNullOrWhiteSpace(localizacaoAtual) ==>
      r == (BadRequest(Message(LocalizacaoObrigatoria)), s)
    ensures id in s.rows && !IsNullOrWhiteSpace(localizacaoAtual) ==>
      && r.0.OkRecord?
      && Some(r.0.record.localizacaoAtual) == localizacaoAtual
      && r.0.record.(localizacaoAtual := s.rows[id].localizacaoAtual) == s.rows[id]
      && r.1.rows == s.rows[id := r.0.record]
      && r.1.nextId == s.nextId
  {
    if id !in s.rows then (NotFound, s)
    else if IsNullOrWhiteSpace(localizacaoAtual) then (BadRequest(Message(LocalizacaoObrigatoria)), s)
    else
      var e' := s.rows[id].(localizacaoAtual := localizacaoAtual.value);
      (OkRecord(e'), Store(s.rows[id := e'], s.nextId))
  }

  /** `Delete`: NotFound when `id` is absent; otherwise exactly that row is gone. */
  function Delete(s: Store, id: int): (r: (Response, Store))
    requires Invariant(s)
    ensures Invariant(r.1)
    ensures id !in s.rows ==> r == (NotFound, s)
    ensures id in s.rows ==>
      && r.0 == NoContent
      && r.1.rows.Keys == s.rows.Keys - {id}
      && (forall k | k in r.1.rows :: r.1.rows[k] == s.rows[k])
      && r.1.nextId == s.nextId
  {
    if id !in s.rows then (NotFound, s)
    else (NoContent, Store(s.rows - {id}, s.nextId))
  }

  /** Filing a row with a fresh id and an unused code keeps the table's invariant. */
  lemma InsertKeepsInvariant(s: Store, e: Equipamento)
    requires Invariant(s)
    requires e.id == s.nextId
    requires !CodeInUse(s.rows, e.codigo)
    ensures Invariant(Store(s.rows[e.id := e], s.nextId + 1))
  {
    var rows := s.rows[e.id := e];
    forall i, j | i in rows && j in rows && rows[i].codigo == rows[j].codigo
      ensures i == j
    {
      if i != e.id && j != e.id {
        assert s.rows[i].codigo == s.rows[j].codigo;
      }
    }
  }

  /** Each stored equipment is filed under its own id. */
  lemma RowsFiledUnderTheirIds(s: Store)
    requires Invariant(s)
    ensures forall e | e in Records(s.rows) :: e.id in s.rows && s.rows[e.id] == e
  {
    forall e | e in Records(s.rows)
      ensures e.id in s.rows && s.rows[e.id] == e
    {
      var id := KeyOf(s.rows, e);
    }
  }

  /** A stored value has a key it is stored under. */
  lemma KeyOf(rows: map<int, Equipamento>, e: Equipamento) returns (id: int)
    requires e in Records(rows)
    ensures id in rows && rows[id] == e
  {
    id :| id in rows && rows[id] == e;
  }
}
