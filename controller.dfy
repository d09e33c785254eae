/**
 * `EquipamentoController` over its table. The table (`_db.Equipamentos`) is a
 * map field that the actions update in place: `Create` adds a row, `Delete`
 * removes one, and `Update`, `AvancarStatus`, `AtualizarHorimetro` and
 * `AtualizarLocalizacao` fetch a row, assign its fields and store it back.
 * Each action's response and new table are those of the function of the same
 * name in `Service`.
 */
module Controller {
  import opened Wrappers
  import opened Text
  import opened Equipment
  import opened Validation
  import opened Service

  class EquipamentoController {
    /** The rows of `equipamentos_pesados`, by id. */
    var equipamentos: map<int, Equipamento>
    /** The id the database generates for the next inserted row. */
    var nextId: int

    /** The table as a value. */
    function Table(): Store
      reads this
    {
      Store(equipamentos, nextId)
    }

    ghost predicate Valid()
      reads this
    {
      Invariant(Table())
    }

    /** A controller over an existing table (the injected `AppDbContext`). */
    constructor (rows: map<int, Equipamento>, next: int)
      requires Invariant(Store(rows, next))
      ensures Valid() && Table() == Store(rows, next)
    {
      equipamentos := rows;
      nextId := next;
    }

    method GetById(id: int) returns (r: Response)
      requires Valid()
      ensures r == Service.GetById(Table(), id)
    {
      if id !in equipamentos {
        return NotFound;
      }
      r := OkRecord(equipamentos[id]);
    }

    method GetAll() returns (r: Response)
      requires Valid()
      ensures r == Service.GetAll(Table())
    {
      r := OkList(Records(equipamentos));
    }

    method GetStatus(id: int) returns (r: Response)
      requires Valid()
      ensures r == Service.GetStatus(Table(), id)
    {
      if id !in equipamentos {
        return NotFound;
      }
      r := OkStatus(equipamentos[id].statusOperacional);
    }

    method GetByTipo(tipo: string) returns (r: Response)
      requires Valid()
      ensures r == Service.GetByTipo(Table(), tipo)
    {
      r := OkList(set e | e in Records(equipamentos) && Lower(e.tipo) == Lower(tipo));
    }

    method Create(input: EquipamentoDto, now: Ticks) returns (r: Response)
      requires Valid()
      modifies this
      ensures Valid()
      ensures (r, Table()) == Service.Create(old(Table()), input, now)
    {
      var check := ValidateCreate(input, now, equipamentos);
      if check.Fail? {
        return BadRequest(Message(check.error));
      }
      ValidateCreatePasses(input, now, equipamentos);
      ValidateFieldsPasses(input, now);
      var equipamento := Equipamento(
        nextId, input.codigo.value, input.tipo.value, input.modelo.value, input.horimetro,
        input.statusOperacional.value, input.dataAquisicao, input.localizacaoAtual.value);
      InsertKeepsInvariant(Table(), equipamento);
      equipamentos := equipamentos[nextId := equipamento];
      nextId := nextId + 1;
      r := Created(equipamento);
    }

    method Update(id: int, input: EquipamentoDto, now: Ticks) returns (r: Response)
      requires Valid()
      modifies this
      ensures Valid()
      ensures (r, Table()) == Service.Update(old(Table()), id, input, now)
    {
      if id !in equipamentos {
        return NotFound;
      }
      var check := ValidateUpdate(input, now, equipamentos, id);
      if check.Fail? {
        return BadRequest(Message(check.error));
      }
      ValidateUpdatePasses(input, now, equipamentos, id);
      ValidateFieldsPasses(input, now);
      ghost var before := Table();
      var equipamento := equipamentos[id];
      equipamento := equipamento.(codigo := input.codigo.value);
      equipamento := equipamento.(tipo := input.tipo.value);
      equipamento := equipamento.(modelo := input.modelo.value);
      equipamento := equipamento.(horimetro := input.horimetro);
      equipamento := equipamento.(statusOperacional := input.statusOperacional.value);
      equipamento := equipamento.(dataAquisicao := input.dataAquisicao);
      equipamento := equipamento.(localizacaoAtual := input.localizacaoAtual.value);
      equipamentos := equipamentos[id := equipamento];
      r := OkRecord(equipamento);
      assert (r, Table()) == Service.Update(before, id, input, now);
    }

    method AvancarStatus(id: int) returns (r: Response)
      requires Valid()
      modifies this
      ensures Valid()
      ensures (r, Table()) == Service.AvancarStatus(old(Table()), id)
    {
      if id !in equipamentos {
        return NotFound;
      }
      var equipamento := equipamentos[id];
      if equipamento.statusOperacional == Operacional {
        equipamento := equipamento.(statusOperacional := ForaDeServico);
      } else if equipamento.statusOperacional == ForaDeServico {
        equipamento := equipamento.(statusOperacional := EmManutencao);
      } else if equipamento.statusOperacional == EmManutencao {
        equipamento := equipamento.(statusOperacional := Operacional);
      }
      equipamentos := equipamentos[id := equipamento];
      r := OkRecord(equipamento);
    }

    method AtualizarHorimetro(id: int, horimetro: Hundredths) returns (r: Response)
      requires Valid()
      modifies this
      ensures Valid()
      ensures (r, Table()) == Service.AtualizarHorimetro(old(Table()), id, horimetro)
    {
      if id !in equipamentos {
        return NotFound;
      }
      if horimetro <= 0 {
        return BadRequest(Message(HorimetroNaoPositivo));
      }
      var equipamento := equipamentos[id].(horimetro := horimetro);
      equipamentos := equipamentos[id := equipamento];
      r := OkRecord(equipamento);
    }

    method AtualizarLocalizacao(id: int, localizacaoAtual: Option<string>) returns (r: Response)
      requires Valid()
      modifies this
      ensures Valid()
      ensures (r, Table()) == Service.AtualizarLocalizacao(old(Table()), id, localizacaoAtual)
    {
      if id !in equipamentos {
        return NotFound;
      }
      if IsNullOrWhiteSpace(localizacaoAtual) {
        return BadRequest(Message(LocalizacaoObrigatoria));
      }
      var equipamento := equipamentos[id].(localizacaoAtual := localizacaoAtual.value);
      equipamentos := equipamentos[id := equipamento];
      r := OkRecord(equipamento);
    }

    method Delete(id: int) returns (r: Response)
      requires Valid()
      modifies this
      ensures Valid()
      ensures (r, Table()) == Service.Delete(old(Table()), id)
    {
      if id !in equipamentos {
        return NotFound;
      }
      equipamentos := equipamentos - {id};
      r := NoContent;
    }
  }

  // The scenarios of the controller's unit tests, each on a table of its own,
  // followed through the contracts above.

  /** A stored row is found by its id; an id never stored is not. */
  method GetByIdScenario(now: Ticks)
  {
    var eq01 := Equipamento(1, "EQ01", "Escavadeira", "CAT320", 10000, Operacional, now, "Obra A");
    var c := new EquipamentoController(map[1 := eq01], 2);
    var found := c.GetById(1);
    assert found.OkRecord? && found.record.codigo == "EQ01";
    var missing := c.GetById(99);
    assert missing == NotFound;
  }

  /** The first advance of "Operacional" gives "ForaDeServico". */
  method AvancarStatusScenario(now: Ticks)
  {
    var st01 := Equipamento(10, "ST01", "Trator", "D6", 10000, Operacional, now, "Pátio");
    var c := new EquipamentoController(map[10 := st01], 11);
    var advanced := c.AvancarStatus(10);
    assert 10 in c.equipamentos && c.equipamentos[10].statusOperacional == ForaDeServico;
  }

  /** Deleting a stored row answers NoContent, and the row is no longer found. */
  method DeleteScenario(now: Ticks)
  {
    var del := Equipamento(5, "DEL", "Guindaste", "X", 1000, Operacional, now, "Porto");
    var c := new EquipamentoController(map[5 := del], 6);
    var deleted := c.Delete(5);
    assert deleted == NoContent;
    var gone := c.GetById(5);
    assert gone == NotFound;
  }
}
