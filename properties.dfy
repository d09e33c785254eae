/**
 * What the controller's actions guarantee together: the table invariant holds
 * after any sequence of requests, ids are never reused, an absent id is always
 * NotFound, three status advances are the identity, and the checks of
 * `Create` and `Update` behave as their source order and their differences
 * dictate.
 */
module Properties {
  import opened Wrappers
  import opened Text
  import opened Equipment
  import opened Validation
  import opened Service

  /** One call into the controller, with its route values and body. */
  datatype Request =
    | GetByIdRequest(id: int)
    | GetAllRequest
    | GetStatusRequest(id: int)
    | GetByTipoRequest(tipo: string)
    | CreateRequest(input: EquipamentoDto, now: Ticks)
    | UpdateRequest(id: int, input: EquipamentoDto, now: Ticks)
    | AvancarStatusRequest(id: int)
    | AtualizarHorimetroRequest(id: int, horimetro: Hundredths)
    | AtualizarLocalizacaoRequest(id: int, localizacaoAtual: Option<string>)
    | DeleteRequest(id: int)
  {
    /** The four reads. */
    predicate IsRead()
    {
      GetByIdRequest? || GetAllRequest? || GetStatusRequest? || GetByTipoRequest?
    }

    /** The id in the route, for the actions addressed to one row. */
    function Target(): Option<int>
    {
      match this
      case GetByIdRequest(id) => Some(id)
      case GetStatusRequest(id) => Some(id)
      case UpdateRequest(id, _, _) => Some(id)
      case AvancarStatusRequest(id) => Some(id)
      case AtualizarHorimetroRequest(id, _) => Some(id)
      case AtualizarLocalizacaoRequest(id, _) => Some(id)
      case DeleteRequest(id) => Some(id)
      case _ => None
    }
  }

  /**
   * Dispatch one request. Reads leave the table as it is; no request lowers
   * the next id, and every row that appears gets an id not generated before.
   */
  function Handle(s: Store, req: Request): (r: (Response, Store))
    requires Invariant(s)
    ensures Invariant(r.1)
    ensures req.IsRead() ==> r.1 == s
    ensures s.nextId <= r.1.nextId
    ensures forall id | id in r.1.rows && id !in s.rows :: s.nextId <= id
  {
    match req
    case GetByIdRequest(id) => (GetById(s, id), s)
    case GetAllRequest => (GetAll(s), s)
    case GetStatusRequest(id) => (GetStatus(s, id), s)
    case GetByTipoRequest(tipo) => (GetByTipo(s, tipo), s)
    case CreateRequest(input, now) => Create(s, input, now)
    case UpdateRequest(id, input, now) => Update(s, id, input, now)
    case AvancarStatusRequest(id) => AvancarStatus(s, id)
    case AtualizarHorimetroRequest(id, h) => AtualizarHorimetro(s, id, h)
    case AtualizarLocalizacaoRequest(id, l) => AtualizarLocalizacao(s, id, l)
    case DeleteRequest(id) => Delete(s, id)
  }

  /**
   * The table after a sequence of requests, one after another. Whatever the
   * requests, codes stay unique and rows stay filed under their ids.
   */
  function Run(s: Store, reqs: seq<Request>): (r: Store)
    requires Invariant(s)
    ensures Invariant(r)
    ensures s.nextId <= r.nextId
    ensures forall id | id in r.rows && id !in s.rows :: s.nextId <= id
    decreases |reqs|
  {
    if reqs == [] then s else Run(Handle(s, reqs[0]).1, reqs[1..])
  }

  /** Any request addressed to an absent id answers NotFound and changes nothing. */
  lemma AbsentIdIsNotFound(s: Store, req: Request)
    requires Invariant(s)
    requires req.Target().Some? && req.Target().value !in s.rows
    ensures Handle(s, req) == (NotFound, s)
  {
  }

  /** A deleted id stays absent whatever comes after: ids are never generated twice. */
  lemma {:induction false} DeletedIdStaysAbsent(s: Store, id: int, reqs: seq<Request>)
    requires Invariant(s)
    requires id in s.rows
    ensures var s' := Delete(s, id).1; id !in Run(s', reqs).rows && GetById(Run(s', reqs), id) == NotFound
  {
    var s' := Delete(s, id).1;
    assert id < s'.nextId;
  }

  /** Three `AvancarStatus` calls on one row give back the table they started from. */
  lemma AvancarStatusThriceIsIdentity(s: Store, id: int)
    requires Invariant(s)
    ensures AvancarStatus(AvancarStatus(AvancarStatus(s, id).1, id).1, id).1 == s
  {
    if id in s.rows {
      var e := s.rows[id];
      StatusCycleHasPeriodThree(e.statusOperacional);
      var s3 := AvancarStatus(AvancarStatus(AvancarStatus(s, id).1, id).1, id).1;
      assert s3.rows[id] == e;
      assert s3.rows == s.rows;
    }
  }

  /** The response of `Create` on a taken code contains the text the controller's tests look for. */
  lemma DuplicateMessageNamesTheCode()
    ensures Contains(Message(CodigoDuplicado), "Já existe um equipamento com esse código")
  {
    var head, tail := "O campo 'Codigo' deve ser único. ", "Já existe um equipamento com esse código.";
    var sub := "Já existe um equipamento com esse código";
    assert tail == sub + ".";
    assert Message(CodigoDuplicado) == head + sub + ".";
    assert (head + sub + ".")[|head|..|head| + |sub|] == sub;
    assert OccursAt(Message(CodigoDuplicado), sub, |head|);
  }

  /**
   * `Create` with a code some row already holds, and every other field valid,
   * is rejected with the duplicate-code message and changes nothing.
   */
  lemma CreateRejectsTakenCode(s: Store, input: EquipamentoDto, now: Ticks, other: int)
    requires Invariant(s)
    requires ValidateFields(input, now).Pass? && ParsesAs(input.tipo, TipoNames)
    requires other in s.rows && input.codigo == Some(s.rows[other].codigo)
    ensures Create(s, input, now) == (BadRequest(Message(CodigoDuplicado)), s)
  {
    assert CodeInUse(s.rows, input.codigo.value);
  }

  /** `Update` may keep the row's own code: with every field valid it succeeds. */
  lemma UpdateKeepsOwnCode(s: Store, id: int, input: EquipamentoDto, now: Ticks)
    requires Invariant(s)
    requires id in s.rows && input.codigo == Some(s.rows[id].codigo)
    requires ValidateFields(input, now).Pass?
    ensures Update(s, id, input, now).0.OkRecord?
  {
    if CodeInUseByOther(s.rows, input.codigo.value, id) {
      assert false;
    }
  }

  /** `Update` may not take a code another row holds. */
  lemma UpdateRejectsOthersCode(s: Store, id: int, input: EquipamentoDto, now: Ticks, other: int)
    requires Invariant(s)
    requires id in s.rows && other in s.rows && other != id
    requires input.codigo == Some(s.rows[other].codigo)
    requires ValidateFields(input, now).Pass?
    ensures Update(s, id, input, now) == (BadRequest(Message(CodigoDuplicado)), s)
  {
    assert CodeInUseByOther(s.rows, input.codigo.value, id);
  }

  /**
   * `Update` does not check `Tipo` against its names: a body `Create` rejects
   * for its type alone is accepted by `Update`, which stores that type.
   */
  lemma UpdateSkipsTipoCheck(s: Store, id: int, input: EquipamentoDto, now: Ticks)
    requires Invariant(s)
    requires id in s.rows && input.codigo == Some(s.rows[id].codigo)
    requires ValidateFields(input, now).Pass? && !ParsesAs(input.tipo, TipoNames)
    ensures Create(s, input, now).0 == BadRequest(Message(TipoInvalido))
    ensures Update(s, id, input, now).0.OkRecord? && Update(s, id, input, now).0.record.tipo == input.tipo.value
  {
    UpdateKeepsOwnCode(s, id, input, now);
  }

  /** "operacional" names the status `Operacional` for `Enum.TryParse` with ignoreCase. */
  lemma LowerCaseStatusParses()
    ensures TryParseName("operacional", StatusNames)
  {
    assert EqualsIgnoreCase("operacional", StatusNames[0]);
  }

  /** `Create`'s checks accept the status "operacional" wherever they accept "Operacional". */
  lemma LowerCaseStatusValidatesAsCanonical(input: EquipamentoDto, now: Ticks, rows: map<int, Equipamento>)
    requires input.statusOperacional == Some("operacional")
    requires ValidateCreate(input.(statusOperacional := Some(Operacional)), now, rows).Pass?
    ensures ValidateCreate(input, now, rows).Pass?
  {
    var canonical := input.(statusOperacional := Some(Operacional));
    ValidateCreatePasses(canonical, now, rows);
    ValidateFieldsPasses(canonical, now);
    assert FieldRules(canonical, now)[0].holds && FieldRules(canonical, now)[1].holds;
    assert FieldRules(canonical, now)[2].holds && FieldRules(canonical, now)[4].holds;
    assert FieldRules(canonical, now)[5].holds && FieldRules(canonical, now)[6].holds;
    LowerCaseStatusParses();
    ValidateFieldsAccepts(input, now);
  }

  /** An exact-match status other than the three names is a fixed point of the cycle. */
  lemma LowerCaseStatusIsFixed()
    ensures NextStatus("operacional") == "operacional"
  {
    assert "operacional"[0] != Operacional[0];
  }

  /**
   * `Create` accepts the status "operacional" wherever it accepts "Operacional"
   * and stores it as written; `AvancarStatus` compares exactly, so that row's
   * status never moves.
   */
  lemma LowerCaseStatusNeverAdvances(s: Store, input: EquipamentoDto, now: Ticks)
    requires Invariant(s)
    requires input.statusOperacional == Some("operacional")
    requires ValidateCreate(input.(statusOperacional := Some(Operacional)), now, s.rows).Pass?
    ensures Create(s, input, now).0.Created?
    ensures var (r, s') := Create(s, input, now);
      r.record.statusOperacional == "operacional" && AvancarStatus(s', r.record.id) == (OkRecord(r.record), s')
  {
    LowerCaseStatusValidatesAsCanonical(input, now, s.rows);
    LowerCaseStatusIsFixed();
    var (r, s') := Create(s, input, now);
    var e := r.record;
    assert e.statusOperacional == "operacional";
    assert s'.rows[e.id] == e;
    var (r2, s2) := AvancarStatus(s', e.id);
    assert r2.record == e;
    assert s2.rows == s'.rows;
  }

  /**
   * A location of spaces only is present for `Create` (which tests
   * `IsNullOrEmpty`) but missing for `AtualizarLocalizacao` (which tests
   * `IsNullOrWhiteSpace`).
   */
  lemma BlankLocationQuirk(s: Store, id: int, blank: string)
    requires Invariant(s) && id in s.rows
    requires blank != "" && forall i | 0 <= i < |blank| :: blank[i] == ' '
    ensures !IsNullOrEmpty(Some(blank))
    ensures AtualizarLocalizacao(s, id, Some(blank)) == (BadRequest(Message(LocalizacaoObrigatoria)), s)
  {
  }

  /** `GetByTipo` does not care how its argument is capitalised. */
  lemma GetByTipoIgnoresCase(s: Store, tipo: string, tipo': string)
    requires EqualsIgnoreCase(tipo, tipo')
    ensures GetByTipo(s, tipo) == GetByTipo(s, tipo')
  {
  }
}
