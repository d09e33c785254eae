/**
 * The equipment entity, the two enumerations the controller validates against,
 * the status cycle, and the equipment table with its invariants.
 */
module Equipment {
  import opened Text

  /** A `numeric(5,2)` hour-meter reading, counted in hundredths of an hour. */
  type Hundredths = int

  /** A `DateTime`, as a count of ticks. */
  type Ticks = int

  /** One row of `equipamentos_pesados`; also the shape of `ResponseEquipamentoDto`. */
  datatype Equipamento = Equipamento(
    id: int,
    codigo: string,
    tipo: string,
    modelo: string,
    horimetro: Hundredths,
    statusOperacional: string,
    dataAquisicao: Ticks,
    localizacaoAtual: string)

  const Operacional := "Operacional"
  const EmManutencao := "EmManutencao"
  const ForaDeServico := "ForaDeServico"

  /** The names of `StatusOperacional`, as listed in the controller's error message. */
  const StatusNames: seq<string> := [Operacional, EmManutencao, ForaDeServico]

  /** The names of `Tipo`, as listed in the controller's error message. */
  const TipoNames: seq<string> :=
    ["Escavadeira", "Caminhao", "Carregadeira", "Retroescavadeira", "Trator", "Guindaste"]

  /** `Enum.TryParse<E>(s, ignoreCase: true, out _)` over the names of `E`. */
  predicate TryParseName(s: string, names: seq<string>)
  {
    exists i | 0 <= i < |names| :: EqualsIgnoreCase(s, names[i])
  }

  /**
   * The status after `AvancarStatus`: Operacional, then ForaDeServico, then
   * EmManutencao, then Operacional again. The comparison is exact, so any other
   * string (including another spelling of a status name) is left as it is.
   */
  function NextStatus(s: string): (r: string)
    ensures r == s <==> s !in StatusNames
    ensures s in StatusNames <==> r in StatusNames
  {
    if s == Operacional then ForaDeServico
    else if s == ForaDeServico then EmManutencao
    else if s == EmManutencao then Operacional
    else s
  }

  /** Three advances bring every status back to where it started. */
  lemma StatusCycleHasPeriodThree(s: string)
    ensures NextStatus(NextStatus(NextStatus(s))) == s
  {
  }

  /** No two rows share a `Codigo` (the unique index on `codigo`). */
  predicate CodesUnique(rows: map<int, Equipamento>)
  {
    forall i, j | i in rows && j in rows :: rows[i].codigo == rows[j].codigo ==> i == j
  }

  /** The equipment stored in `rows`, without their keys. */
  function Records(rows: map<int, Equipamento>): set<Equipamento>
  {
    set id | id in rows :: rows[id]
  }

  /** The table: its rows by id, and the next id the database will generate. */
  datatype Store = Store(rows: map<int, Equipamento>, nextId: int)

  /**
   * Generated ids are positive, every row is filed under its own id, which is
   * below the next id to be generated, and codes are unique.
   */
  predicate Invariant(s: Store)
  {
    && 0 < s.nextId
    && (forall id | id in s.rows :: s.rows[id].id == id && 0 < id < s.nextId)
    && CodesUnique(s.rows)
  }
}
