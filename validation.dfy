/**
 * The request bodies of `Create` and `Update` and the checks run on them. Each
 * check is a rule (a condition and the message sent back when it fails); the
 * controller answers with the reason of the first rule that fails, in a fixed
 * order.
 */
module Validation {
  import opened Wrappers
  import opened Text
  import opened Equipment

  /**
   * The fields the controller reads from `CreateEquipamentoDto` and
   * `UpdateEquipamentoDto`; strings may be null, numbers and dates may not.
   */
  datatype EquipamentoDto = EquipamentoDto(
    codigo: Option<string>,
    tipo: Option<string>,
    modelo: Option<string>,
    horimetro: Hundredths,
    statusOperacional: Option<string>,
    dataAquisicao: Ticks,
    localizacaoAtual: Option<string>)

  /** The reasons the controller answers BadRequest, one per check. */
  datatype ValidationError =
    | CodigoObrigatorio
    | TipoObrigatorio
    | ModeloObrigatorio
    | StatusObrigatorio
    | HorimetroNaoPositivo
    | DataFutura
    | LocalizacaoObrigatoria
    | StatusInvalido
    | TipoInvalido
    | CodigoDuplicado

  /** The text the controller sends back for each reason. */
  function Message(e: ValidationError): string
  {
    match e
    case CodigoObrigatorio => "O campo 'Codigo' é obrigatório."
    case TipoObrigatorio => "O campo 'Tipo' é obrigatório."
    case ModeloObrigatorio => "O campo 'Modelo' é obrigatório."
    case StatusObrigatorio => "O campo 'StatusOperacional' é obrigatório."
    case HorimetroNaoPositivo => "O campo 'Horimetro' deve ser um valor positivo."
    case DataFutura => "O campo 'DataAquisicao' não pode ser uma data futura."
    case LocalizacaoObrigatoria => "O campo 'LocalizacaoAtual' é obrigatório."
    case StatusInvalido =>
      "O campo 'StatusOperacional' deve ser um dos seguintes valores: Operacional, EmManutencao, ForaDeServico."
    case TipoInvalido =>
      "O campo 'Tipo' deve ser um dos seguintes valores: Escavadeira, Caminhao, Carregadeira, Retroescavadeira, Trator, Guindaste."
    case CodigoDuplicado =>
      "O campo 'Codigo' deve ser único. " + "Já existe um equipamento com esse código."
  }

  /** The outcome of validation: go on, or answer BadRequest for a reason. */
  datatype Outcome = Pass | Fail(error: ValidationError)

  /** One check: whether it holds, and the reason given when it does not. */
  datatype Rule = Rule(holds: bool, error: ValidationError)

  /** The position of the first rule that fails, or `|rules|` when all hold. */
  function FirstFailingIndex(rules: seq<Rule>): (k: nat)
    ensures k <= |rules|
    ensures forall j | 0 <= j < k :: rules[j].holds
    ensures k < |rules| ==> !rules[k].holds
  {
    if rules == [] then 0
    else if !rules[0].holds then 0
    else 1 + FirstFailingIndex(rules[1..])
  }

  /** Run the rules in order and stop at the first that fails. */
  function FirstFailure(rules: seq<Rule>): Outcome
  {
    var k := FirstFailingIndex(rules);
    if k == |rules| then Pass else Fail(rules[k].error)
  }

  /** `Enum.TryParse` on a field that may be null (null never parses). */
  predicate ParsesAs(s: Option<string>, names: seq<string>)
  {
    s.Some? && TryParseName(s.value, names)
  }

  /** Some row already holds `code`. */
  predicate CodeInUse(rows: map<int, Equipamento>, code: string)
  {
    exists id | id in rows :: rows[id].codigo == code
  }

  /** Some row other than the one under `self` holds `code`. */
  predicate CodeInUseByOther(rows: map<int, Equipamento>, code: string, self: int)
  {
    exists id | id in rows && id != self :: rows[id].codigo == code
  }

  /** The first four shared checks: the required strings, in the controller's order. */
  function RequiredRules(input: EquipamentoDto): seq<Rule>
  {
    [ Rule(!IsNullOrEmpty(input.codigo), CodigoObrigatorio),
      Rule(!IsNullOrEmpty(input.tipo), TipoObrigatorio),
      Rule(!IsNullOrEmpty(input.modelo), ModeloObrigatorio),
      Rule(!IsNullOrEmpty(input.statusOperacional), StatusObrigatorio) ]
  }

  /**
   * The other four shared checks: a positive hour meter, an acquisition date
   * not after `now`, a location, and a status that names a `StatusOperacional`.
   */
  function ValueRules(input: EquipamentoDto, now: Ticks): seq<Rule>
  {
    [ Rule(input.horimetro > 0, HorimetroNaoPositivo),
      Rule(input.dataAquisicao <= now, DataFutura),
      Rule(!IsNullOrEmpty(input.localizacaoAtual), LocalizacaoObrigatoria),
      Rule(ParsesAs(input.statusOperacional, StatusNames), StatusInvalido) ]
  }

  /** The checks `Create` and `Update` share, in their order. */
  function FieldRules(input: EquipamentoDto, now: Ticks): seq<Rule>
  {
    RequiredRules(input) + ValueRules(input, now)
  }

  /** `Create` adds: a `Tipo` that names a type, then a code no row holds. */
  function CreateRules(input: EquipamentoDto, now: Ticks, rows: map<int, Equipamento>): seq<Rule>
  {
    FieldRules(input, now)
      + [ Rule(ParsesAs(input.tipo, TipoNames), TipoInvalido),
          Rule(!(input.codigo.Some? && CodeInUse(rows, input.codigo.value)), CodigoDuplicado) ]
  }

  /** `Update` adds only: a code no other row holds. There is no `Tipo` check. */
  function UpdateRules(input: EquipamentoDto, now: Ticks, rows: map<int, Equipamento>, id: int): seq<Rule>
  {
    FieldRules(input, now)
      + [ Rule(!(input.codigo.Some? && CodeInUseByOther(rows, input.codigo.value, id)), CodigoDuplicado) ]
  }

  /** The checks `Create` and `Update` share, as the controller's chain of early returns. */
  function ValidateFields(input: EquipamentoDto, now: Ticks): Outcome
  {
    if IsNullOrEmpty(input.codigo) then Fail(CodigoObrigatorio)
    else if IsNullOrEmpty(input.tipo) then Fail(TipoObrigatorio)
    else if IsNullOrEmpty(input.modelo) then Fail(ModeloObrigatorio)
    else if IsNullOrEmpty(input.statusOperacional) then Fail(StatusObrigatorio)
    else if input.horimetro <= 0 then Fail(HorimetroNaoPositivo)
    else if input.dataAquisicao > now then Fail(DataFutura)
    else if IsNullOrEmpty(input.localizacaoAtual) then Fail(LocalizacaoObrigatoria)
    else if !TryParseName(input.statusOperacional.value, StatusNames) then Fail(StatusInvalido)
    else Pass
  }

  /** The checks of `Create`: the shared ones, then the `Tipo` name, then the unused code. */
  function ValidateCreate(input: EquipamentoDto, now: Ticks, rows: map<int, Equipamento>): Outcome
  {
    var fields := ValidateFields(input, now);
    if fields.Fail? then fields
    else if !TryParseName(input.tipo.value, TipoNames) then Fail(TipoInvalido)
    else if CodeInUse(rows, input.codigo.value) then Fail(CodigoDuplicado)
    else Pass
  }

  /** The checks of `Update` once the id was found: the shared ones, then the code. */
  function ValidateUpdate(input: EquipamentoDto, now: Ticks, rows: map<int, Equipamento>, id: int): Outcome
  {
    var fields := ValidateFields(input, now);
    if fields.Fail? then fields
    else if CodeInUseByOther(rows, input.codigo.value, id) then Fail(CodigoDuplicado)
    else Pass
  }

  /** A rule list answers with the reason of rule `p` when `p` is the first rule to fail. */
  lemma FirstFailureAt(rules: seq<Rule>, p: nat)
    requires p <= |rules|
    requires forall j | 0 <= j < p :: rules[j].holds
    requires p < |rules| ==> !rules[p].holds
    ensures FirstFailure(rules) == if p == |rules| then Pass else Fail(rules[p].error)
  {
    var k := FirstFailingIndex(rules);
    assert k < |rules| ==> !rules[k].holds;
  }

  /** Running two rule lists one after the other: the second is reached only when the first passes. */
  lemma FirstFailureAppend(a: seq<Rule>, b: seq<Rule>)
    ensures FirstFailure(a + b) == if FirstFailure(a).Fail? then FirstFailure(a) else FirstFailure(b)
  {
    var ka, kb := FirstFailingIndex(a), FirstFailingIndex(b);
    if ka < |a| {
      FirstFailureAt(a + b, ka);
    } else {
      FirstFailureAt(a + b, |a| + kb);
    }
  }

  /** The shared checks answer with the reason of the first field rule that fails. */
  lemma ValidateFieldsFollowsRules(input: EquipamentoDto, now: Ticks)
    ensures ValidateFields(input, now) == FirstFailure(FieldRules(input, now))
  {
    var required, values := RequiredRules(input), ValueRules(input, now);
    FirstFailureAppend(required, values);
    if IsNullOrEmpty(input.codigo) { FirstFailureAt(required, 0); }
    else if IsNullOrEmpty(input.tipo) { FirstFailureAt(required, 1); }
    else if IsNullOrEmpty(input.modelo) { FirstFailureAt(required, 2); }
    else if IsNullOrEmpty(input.statusOperacional) { FirstFailureAt(required, 3); }
    else {
      FirstFailureAt(required, 4);
      if input.horimetro <= 0 { FirstFailureAt(values, 0); }
      else if input.dataAquisicao > now { FirstFailureAt(values, 1); }
      else if IsNullOrEmpty(input.localizacaoAtual) { FirstFailureAt(values, 2); }
      else if !TryParseName(input.statusOperacional.value, StatusNames) { FirstFailureAt(values, 3); }
      else { FirstFailureAt(values, 4); }
    }
  }

  /** `Create` answers with the reason of the first of its rules that fails, in their order. */
  lemma ValidateCreateFollowsRules(input: EquipamentoDto, now: Ticks, rows: map<int, Equipamento>)
    ensures ValidateCreate(input, now, rows) == FirstFailure(CreateRules(input, now, rows))
  {
    var extra := [ Rule(ParsesAs(input.tipo, TipoNames), TipoInvalido),
                   Rule(!(input.codigo.Some? && CodeInUse(rows, input.codigo.value)), CodigoDuplicado) ];
    ValidateFieldsFollowsRules(input, now);
    FirstFailureAppend(FieldRules(input, now), extra);
    if ValidateFields(input, now).Pass? {
      if !ParsesAs(input.tipo, TipoNames) { FirstFailureAt(extra, 0); }
      else if input.codigo.Some? && CodeInUse(rows, input.codigo.value) { FirstFailureAt(extra, 1); }
      else { FirstFailureAt(extra, 2); }
    }
  }

  /** `Update` answers with the reason of the first of its rules that fails, in their order. */
  lemma ValidateUpdateFollowsRules(input: EquipamentoDto, now: Ticks, rows: map<int, Equipamento>, id: int)
    ensures ValidateUpdate(input, now, rows, id) == FirstFailure(UpdateRules(input, now, rows, id))
  {
    var extra := [ Rule(!(input.codigo.Some? && CodeInUseByOther(rows, input.codigo.value, id)), CodigoDuplicado) ];
    ValidateFieldsFollowsRules(input, now);
    FirstFailureAppend(FieldRules(input, now), extra);
    if ValidateFields(input, now).Pass? {
      if input.codigo.Some? && CodeInUseByOther(rows, input.codigo.value, id) { FirstFailureAt(extra, 0); }
      else { FirstFailureAt(extra, 1); }
    }
  }

  /** When the checks of `Create` pass, every field is present, valid, and the code is unused. */
  lemma ValidateCreatePasses(input: EquipamentoDto, now: Ticks, rows: map<int, Equipamento>)
    requires ValidateCreate(input, now, rows).Pass?
    ensures ValidateFields(input, now).Pass?
    ensures ParsesAs(input.tipo, TipoNames)
    ensures input.codigo.Some? && !CodeInUse(rows, input.codigo.value)
  {
  }

  /** When the checks of `Update` pass, every field is present, valid, and no other row has the code. */
  lemma ValidateUpdatePasses(input: EquipamentoDto, now: Ticks, rows: map<int, Equipamento>, id: int)
    requires ValidateUpdate(input, now, rows, id).Pass?
    ensures ValidateFields(input, now).Pass?
    ensures input.codigo.Some? && !CodeInUseByOther(rows, input.codigo.value, id)
  {
  }

  /** When the shared checks pass, every string field is non-null and non-empty and the values are in range. */
  lemma ValidateFieldsPasses(input: EquipamentoDto, now: Ticks)
    requires ValidateFields(input, now).Pass?
    ensures forall k | 0 <= k < |FieldRules(input, now)| :: FieldRules(input, now)[k].holds
  {
    ValidateFieldsFollowsRules(input, now);
    FirstFailureAt(FieldRules(input, now), FirstFailingIndex(FieldRules(input, now)));
  }

  /** The shared checks pass once every field is present and in range. */
  lemma ValidateFieldsAccepts(input: EquipamentoDto, now: Ticks)
    requires !IsNullOrEmpty(input.codigo) && !IsNullOrEmpty(input.tipo) && !IsNullOrEmpty(input.modelo)
    requires !IsNullOrEmpty(input.statusOperacional) && !IsNullOrEmpty(input.localizacaoAtual)
    requires input.horimetro > 0 && input.dataAquisicao <= now
    requires ParsesAs(input.statusOperacional, StatusNames)
    ensures ValidateFields(input, now).Pass?
  {
  }
}
