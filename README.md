# Heavy-equipment inventory: the equipment controller, verified in Dafny

This project models `EquipamentoController`, the REST controller of a
heavy-equipment inventory (Desafio Final Bootcamp Deloitte, "EquipamentosPesados").
The controller keeps one table of equipment. Each row has an id, a unique
`Codigo`, a `Tipo`, a `Modelo`, an hour meter (`Horimetro`), a
`StatusOperacional`, an acquisition date and a current location. Its actions
are four reads (`GetById`, `GetAll`, `GetStatus`, `GetByTipo`), `Create`,
`Update`, `AvancarStatus`, `AtualizarHorimetro`, `AtualizarLocalizacao` and
`Delete`.

Modules, one per file:

- `Wrappers` (wrappers.dfy): `Option`, standing for a C# string that may be null.
- `Text` (text.dfy): `string.IsNullOrEmpty`, `string.IsNullOrWhiteSpace` with
  the full `Char.IsWhiteSpace` set, `ToLower`, and case-insensitive equality.
- `Equipment` (equipment.dfy): the row type, the enumeration names, the
  status cycle `NextStatus`, and the table `Store` with its `Invariant`.
  The invariant says ids are positive, every row is filed under its own id
  below the next id to generate, and codes are unique.
- `Validation` (validation.dfy): the request body, the reasons for a 400
  response with their exact Portuguese texts, and the checks of `Create` and
  `Update`. The checks are written as the controller's chains of early
  returns. They are proved equal to "the first failing rule" over rule
  tables in source order.
- `Service` (service.dfy): each action as a function from the table to a
  response and the new table. Each function's contract states the error
  paths, the one row that changes, and that the invariant is kept.
- `Properties` (properties.dfy): requests, and running any sequence of them.
  Lemmas cover the invariant, NotFound on absent ids, ids never reused, the
  three-step status cycle, and the quirks listed below.
- `Controller` (controller.dfy): the class `EquipamentoController`. Its map
  field is the table, which the actions update in place: `Create` adds a
  row, `Delete` removes one, and the other mutating actions fetch a row,
  assign its fields and store it back. Each method's contract equates its
  response and new table with the `Service` function. The file also follows
  three of the repository's controller unit-test scenarios through these
  contracts.

Behaviour kept as the code has it, even where it looks unintended:

- `Create` accepts a status name in any letter case, because
  `Enum.TryParse` ignores case. It stores the string exactly as sent.
  `AvancarStatus` compares exact strings, so a row created as
  `"operacional"` never advances (`Properties.LowerCaseStatusNeverAdvances`).
- `Create` tests the location with `IsNullOrEmpty`, but `AtualizarLocalizacao`
  tests it with `IsNullOrWhiteSpace`. So `"   "` is accepted by the first and
  refused by the second (`Properties.BlankLocationQuirk`).
- `Update` has no `Tipo` name check (`Properties.UpdateSkipsTipoCheck`).
- The status cycle is Operacional, ForaDeServico, EmManutencao, and back to
  Operacional. Any other string stays as it is.

The status names are those listed in the controller's message at
EquipamentosPesados/Controllers/EquipamentoControllers.cs:90. The type names
(Escavadeira, Caminhao, Carregadeira, Retroescavadeira, Trator, Guindaste)
are those listed at line 92 of the same file. `Horimetro` must be strictly
positive, as the checks at lines 83, 127 and 203 require.

## Model

| member | source | states |
|---|---|---|
| `Text.Lower` | EquipamentosPesados/Controllers/EquipamentoControllers.cs:63 | `ToLower()` keeps the length and lower-cases each character in place |
| `Text.EqualsIgnoreCaseIsLowerEquality` | EquipamentosPesados/Controllers/EquipamentoControllers.cs:63 | two strings are equal ignoring case exactly when their lower-cased forms are equal, both directions |
| `Equipment.NextStatus` | EquipamentosPesados/Controllers/EquipamentoControllers.cs:171-176 | a status moves exactly when it is one of the three names, and the three names map among themselves |
| `Equipment.StatusCycleHasPeriodThree` | EquipamentosPesados/Controllers/EquipamentoControllers.cs:171-176 | three advances give back any starting status |
| `Validation.FirstFailingIndex` | EquipamentosPesados/Controllers/EquipamentoControllers.cs:75-94 | the index found is the first failing rule: all before it hold, and it fails unless it is past the end |
| `Validation.FirstFailureAppend` | EquipamentosPesados/Controllers/EquipamentoControllers.cs:75-94 | a second group of checks is reached only when the first group passes |
| `Validation.ValidateFieldsFollowsRules` | EquipamentosPesados/Controllers/EquipamentoControllers.cs:75-90 | the shared chain returns the reason of the first failing check, in order: four required strings, Horimetro > 0, date not after now, location, status name |
| `Validation.ValidateCreateFollowsRules` | EquipamentosPesados/Controllers/EquipamentoControllers.cs:75-94 | `Create` answers with the first failing rule of ten: the shared eight, then the Tipo name, then the unused code |
| `Validation.ValidateUpdateFollowsRules` | EquipamentosPesados/Controllers/EquipamentoControllers.cs:119-138 | `Update` answers with the first failing rule of nine: the shared eight, then no other row holding the code |
| `Validation.ValidateCreatePasses` | EquipamentosPesados/Controllers/EquipamentoControllers.cs:75-94 | when `Create`'s checks pass, the fields pass, the Tipo names a type and no row holds the code |
| `Validation.ValidateUpdatePasses` | EquipamentosPesados/Controllers/EquipamentoControllers.cs:119-138 | when `Update`'s checks pass, the fields pass and no other row holds the code |
| `Validation.ValidateFieldsPasses` | EquipamentosPesados/Controllers/EquipamentoControllers.cs:75-90 | when the shared chain passes, every shared rule holds |
| `Validation.ValidateFieldsAccepts` | EquipamentosPesados/Controllers/EquipamentoControllers.cs:75-90 | the shared chain passes once every field is present and in range |
| `Service.GetById` | EquipamentosPesados/Controllers/EquipamentoControllers.cs:21-40 | NotFound exactly when the id is absent, otherwise the stored row, whose id is the one asked for |
| `Service.GetAll` | EquipamentosPesados/Controllers/EquipamentoControllers.cs:42-47 | the list holds every stored row and only stored rows |
| `Service.GetStatus` | EquipamentosPesados/Controllers/EquipamentoControllers.cs:49-56 | NotFound exactly when the id is absent, otherwise that row's status |
| `Service.GetByTipo` | EquipamentosPesados/Controllers/EquipamentoControllers.cs:58-67 | exactly the stored rows whose Tipo equals the argument ignoring case |
| `Service.Create` | EquipamentosPesados/Controllers/EquipamentoControllers.cs:71-111 | BadRequest with the first failing check's text and no change; otherwise one row added under an id no row had, with the body's fields verbatim; invariant kept |
| `Service.Update` | EquipamentosPesados/Controllers/EquipamentoControllers.cs:113-163 | NotFound exactly when the id is absent, before any check; for a present id, BadRequest with the first failing check's text and no change, and OkRecord exactly when the checks pass, with only that row changed, keeping its id and taking all seven fields; invariant kept |
| `Service.AvancarStatus` | EquipamentosPesados/Controllers/EquipamentoControllers.cs:165-193 | NotFound on an absent id; otherwise only that row's status moves one step of the cycle |
| `Service.AtualizarHorimetro` | EquipamentosPesados/Controllers/EquipamentoControllers.cs:195-211 | NotFound, then BadRequest for a reading <= 0, otherwise only that row's hour meter changes |
| `Service.AtualizarLocalizacao` | EquipamentosPesados/Controllers/EquipamentoControllers.cs:213-229 | NotFound, then BadRequest for a null or white-space location, otherwise only that row's location changes |
| `Service.Delete` | EquipamentosPesados/Controllers/EquipamentoControllers.cs:231-241 | NotFound on an absent id; otherwise NoContent, exactly that row is removed and the others are untouched |
| `Service.InsertKeepsInvariant` | EquipamentosPesados/Data/AppDbContext.cs:31-32 | adding a row under a fresh id with an unused code keeps codes unique |
| `Service.RowsFiledUnderTheirIds` | EquipamentosPesados/Models/Equipamento.cs:9-10 | each stored row is filed under its own `Id` |
| `Properties.Handle` | EquipamentosPesados/Controllers/EquipamentoControllers.cs:21-241 | any action keeps the invariant, reads change nothing, and new rows get ids never generated before |
| `Properties.Run` | EquipamentosPesados/Data/AppDbContext.cs:31-32 | after any sequence of requests, codes are still unique and rows still filed under their ids |
| `Properties.AbsentIdIsNotFound` | EquipamentosPesados/Controllers/EquipamentoControllers.cs:113-117 | every action addressed to an absent id (the two reads, Update, the three patches, Delete) answers NotFound and changes nothing |
| `Properties.DeletedIdStaysAbsent` | EquipamentosPesados.Tests/Controllers/EquipamentoControllersTest.cs:108-122 | after Delete the id is NotFound, and stays so whatever requests follow |
| `Properties.AvancarStatusThriceIsIdentity` | EquipamentosPesados/Controllers/EquipamentoControllers.cs:165-178 | three `AvancarStatus` on one row give back the original table |
| `Properties.DuplicateMessageNamesTheCode` | EquipamentosPesados.Tests/Controllers/EquipamentoControllersTest.cs:83-84 | the duplicate-code text contains "Já existe um equipamento com esse código" |
| `Properties.CreateRejectsTakenCode` | EquipamentosPesados/Controllers/EquipamentoControllers.cs:93-94 | an otherwise valid `Create` with a stored code is BadRequest with the duplicate-code text and no change |
| `Properties.UpdateKeepsOwnCode` | EquipamentosPesados/Controllers/EquipamentoControllers.cs:136-137 | `Update` keeping the row's own code succeeds when the fields are valid |
| `Properties.UpdateRejectsOthersCode` | EquipamentosPesados/Controllers/EquipamentoControllers.cs:136-138 | `Update` taking another row's code is BadRequest with the duplicate-code text and no change |
| `Properties.UpdateSkipsTipoCheck` | EquipamentosPesados/Controllers/EquipamentoControllers.cs:133-136 | a Tipo that names no type makes `Create` fail but `Update` succeed and store it |
| `Properties.LowerCaseStatusParses` | EquipamentosPesados/Controllers/EquipamentoControllers.cs:89 | "operacional" passes the case-insensitive status check |
| `Properties.LowerCaseStatusValidatesAsCanonical` | EquipamentosPesados/Controllers/EquipamentoControllers.cs:89-90 | `Create`'s checks accept "operacional" wherever they accept "Operacional" |
| `Properties.LowerCaseStatusIsFixed` | EquipamentosPesados/Controllers/EquipamentoControllers.cs:171-176 | the exact-match cycle leaves "operacional" unchanged |
| `Properties.LowerCaseStatusNeverAdvances` | EquipamentosPesados/Controllers/EquipamentoControllers.cs:96-110 | a row created with "operacional" stores it verbatim, and `AvancarStatus` then changes nothing |
| `Properties.BlankLocationQuirk` | EquipamentosPesados/Controllers/EquipamentoControllers.cs:221-222 | a location of spaces is non-empty for `Create` but refused by `AtualizarLocalizacao`, with no change |
| `Properties.GetByTipoIgnoresCase` | EquipamentosPesados/Controllers/EquipamentoControllers.cs:61-64 | arguments equal ignoring case give the same `GetByTipo` answer |
| `Controller.EquipamentoController.constructor` | EquipamentosPesados/Controllers/EquipamentoControllers.cs:16-19 | the controller starts over the table it is given |
| `Controller.EquipamentoController.GetById` | EquipamentosPesados/Controllers/EquipamentoControllers.cs:21-40 | answers as `Service.GetById` on the current table |
| `Controller.EquipamentoController.GetAll` | EquipamentosPesados/Controllers/EquipamentoControllers.cs:42-47 | answers as `Service.GetAll` on the current table |
| `Controller.EquipamentoController.GetStatus` | EquipamentosPesados/Controllers/EquipamentoControllers.cs:49-56 | answers as `Service.GetStatus` on the current table |
| `Controller.EquipamentoController.GetByTipo` | EquipamentosPesados/Controllers/EquipamentoControllers.cs:58-67 | answers as `Service.GetByTipo` on the current table |
| `Controller.EquipamentoController.Create` | EquipamentosPesados/Controllers/EquipamentoControllers.cs:71-111 | response and new table are those of `Service.Create` on the old table; invariant kept |
| `Controller.EquipamentoController.Update` | EquipamentosPesados/Controllers/EquipamentoControllers.cs:113-163 | response and new table are those of `Service.Update`, with the seven fields assigned one by one |
| `Controller.EquipamentoController.AvancarStatus` | EquipamentosPesados/Controllers/EquipamentoControllers.cs:165-193 | the if/else chain on the status gives the response and table of `Service.AvancarStatus` |
| `Controller.EquipamentoController.AtualizarHorimetro` | EquipamentosPesados/Controllers/EquipamentoControllers.cs:195-211 | response and new table are those of `Service.AtualizarHorimetro` |
| `Controller.EquipamentoController.AtualizarLocalizacao` | EquipamentosPesados/Controllers/EquipamentoControllers.cs:213-229 | response and new table are those of `Service.AtualizarLocalizacao` |
| `Controller.EquipamentoController.Delete` | EquipamentosPesados/Controllers/EquipamentoControllers.cs:231-241 | response and new table are those of `Service.Delete` |

## Left out

- HTTP transport, routing, `async`/`await` and `IActionResult`: a `Response` datatype replaces them (200 with a row, list or status; 201; 204; 404; 400 with the text).
- ASP.NET model binding: a missing body and any validation attributes on the request types are handled before the action runs. The request types are not part of this model; their fields are inferred from how the controller reads them.
- Hosting and dependency injection (EquipamentosPesados/Program.cs) are not part of this model.
- The ORM mapping's table and column names are not modelled. Of its constraints, only the unique index on `Codigo` is kept, as the table invariant.
- Column lengths: the mapping limits `Codigo` to 50 characters, `Tipo` and `Modelo` to 120, `StatusOperacional` to 50 and `LocalizacaoAtual` to 200 (EquipamentosPesados/Data/AppDbContext.cs:27, 37, 43, 55, 66). The controller never checks these lengths. A `Create`, `Update` or `AtualizarLocalizacao` whose string goes over its limit passes every check in the controller, and the database then throws on `SaveChangesAsync`. This path is not modelled: for such input the model answers `Created` or `OkRecord` and stores the row.
- `Horimetro` is a whole number of hundredths. Rounding of extra decimal places and overflow past 999.99, both from the `numeric(5,2)` column, are not modelled.
- `DateTime` is a tick count and `DateTime.Now` the parameter `now`. Time zones and `DateTimeKind` are not modelled.
- `Enum.TryParse` also accepts numbers, comma-separated lists and surrounding white space. Only a case-insensitive match with one listed name is modelled. The enumeration declarations are not part of this model; their names come from the controller's error messages.
- `ToLower` and `ignoreCase` fold only the ASCII letters A to Z. Culture-specific case mappings of other letters are not modelled.
- `GetAll` and `GetByTipo` return a set: the queries have no `ORDER BY`, so the order of the list is left open.
- Entity objects tracked by the context are values in the table. `Update` and the patches build a new value field by field and store it back. Aliasing and change tracking are not modelled.
- The database's id sequence is the counter `nextId`. Rows inserted with explicit ids, as the unit tests do, are given to the constructor with the counter above them. A clash between the sequence and explicit ids is not modelled.
- Concurrency: races between the code check and `SaveChangesAsync` are out of scope; the model is sequential.
- The duplicate-code unit test (EquipamentosPesados.Tests/Controllers/EquipamentoControllersTest.cs:60-85) is not replayed as a concrete scenario. Its content is the general lemma `Properties.CreateRejectsTakenCode` with `Properties.DuplicateMessageNamesTheCode`.
