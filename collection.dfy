/**
  One collection of the in-memory store and its four routes (list, create, update,
  delete). The server writes the same handlers three times, for `usuarios`, `clientes`
  and `fornecedores`; they differ only in the fields create copies, the key the
  created or updated record is returned under, and the not-found message, which
  `Kind` selects.
*/
module Collections {
  import opened Wrappers
  import opened Records
  import JsParseInt

  datatype Kind = Usuarios | Clientes | Fornecedores

  /** The fields that create destructures from the request body. */
  function CreatedFields(kind: Kind): (keys: seq<FieldName>)
    ensures "nome" in keys && "email" in keys
  {
    match kind
    case Usuarios => ["nome", "email", "login", "senha", "perfil"]
    case Clientes => ["nome", "email", "telefone"]
    case Fornecedores => ["nome", "email", "telefone"]
  }

  /** The key under which create and update return the record. */
  function EntityKey(kind: Kind): (key: string)
    ensures kind == Usuarios ==> key == "usuario"
    ensures kind == Clientes ==> key == "cliente"
    ensures kind == Fornecedores ==> key == "fornecedor"
  {
    match kind
    case Usuarios => "usuario"
    case Clientes => "cliente"
    case Fornecedores => "fornecedor"
  }

  /** The `mensagem` of the 404 answer of update and delete. */
  function NotFoundMessage(kind: Kind): (message: string)
    ensures kind == Usuarios ==> message == "Usuário não encontrado"
    ensures kind == Clientes ==> message == "Cliente não encontrado"
    ensures kind == Fornecedores ==> message == "Fornecedor não encontrado"
  {
    match kind
    case Usuarios => "Usuário não encontrado"
    case Clientes => "Cliente não encontrado"
    case Fornecedores => "Fornecedor não encontrado"
  }

  const InvalidCredentialsMessage := "Credenciais inválidas"

  /** Each route group answers under its own key and with its own 404 message. */
  lemma AnswersNameTheirCollection(a: Kind, b: Kind)
    requires a != b
    ensures EntityKey(a) != EntityKey(b)
    ensures NotFoundMessage(a) != NotFoundMessage(b)
    ensures NotFoundMessage(a) != InvalidCredentialsMessage
  {
  }

  /**
    A created user has exactly the fields `nome, email, login, senha, perfil`, and a
    created client or supplier exactly `nome, email, telefone`, whatever else the body holds.
  */
  lemma CreatedRecordKeys(kind: Kind, s: seq<Record>, body: Body)
    ensures var keys := NewRecord(s, CreatedFields(kind), body).fields.Keys;
      keys == if kind == Usuarios then {"nome", "email", "login", "senha", "perfil"}
              else {"nome", "email", "telefone"}
  {
    var keys := NewRecord(s, CreatedFields(kind), body).fields.Keys;
    var expected: set<string> := if kind == Usuarios then {"nome", "email", "login", "senha", "perfil"}
                                  else {"nome", "email", "telefone"};
    forall k ensures k in keys <==> k in expected {
      assert k in keys <==> k in CreatedFields(kind);
    }
  }

  /**
    What a successful route answers: the bare array of a list, `{ sucesso: true, <key>: record }`,
    or `{ sucesso: true }` alone.
  */
  datatype Payload = Listing(records: seq<Record>) | Entity(key: string, record: Record) | Confirmation

  /** Status 200 with a payload, 404 with a `mensagem`, or 401 with a `mensagem`. */
  datatype Response = Ok(payload: Payload) | NotFound(message: string) | Unauthorized(message: string)

  /** `Math.max(...s.map(r => r.id), 0)`, computed by one pass over the ids. */
  method ComputeHighestId(s: seq<Record>) returns (m: int)
    ensures m == HighestId(s)
  {
    m := 0;
    var i := 0;
    while i < |s|
      invariant 0 <= i <= |s|
      invariant m == HighestId(s[..i])
    {
      assert s[..i + 1][..i] == s[..i];
      if s[i].id > m {
        m := s[i].id;
      }
      i := i + 1;
    }
    assert s[..i] == s;
  }

  /** `s.findIndex(...)` (and `s.find(...)` through the index): a scan from the front for the first match. */
  method FindIndex(s: seq<Record>, q: Query) returns (i: int)
    ensures i == FirstIndex(s, q)
  {
    i := 0;
    while i < |s| && !Satisfies(s[i], q)
      invariant 0 <= i <= |s|
      invariant forall k :: 0 <= k < i ==> !Satisfies(s[k], q)
    {
      i := i + 1;
    }
    if i == |s| {
      i := -1;
    }
  }

  class Collection {
    const kind: Kind
    var records: seq<Record>

    constructor (kind: Kind, seed: seq<Record>)
      ensures this.kind == kind && records == seed
    {
      this.kind := kind;
      records := seed;
    }

    /** GET: every record, in order. */
    method List() returns (resp: Response)
      ensures resp == Ok(Listing(records))
    {
      resp := Ok(Listing(records));
    }

    /** POST: append a record with the next id and the listed fields of `body`. */
    method Create(body: Body) returns (resp: Response)
      modifies this
      ensures var created := NewRecord(old(records), CreatedFields(kind), body);
        && records == old(records) + [created]
        && resp == Ok(Entity(EntityKey(kind), created))
      ensures UniqueIds(old(records)) ==> UniqueIds(records)
    {
      var highest := ComputeHighestId(records);
      var created := Record(highest + 1, Pick(body, CreatedFields(kind)));
      if UniqueIds(records) {
        CreateKeepsIdsUnique(records, CreatedFields(kind), body);
      }
      records := records + [created];
      resp := Ok(Entity(EntityKey(kind), created));
    }

    /** PUT `/:id`: merge `patch` into the first record with the parsed id, or answer 404. */
    method Update(pathId: string, patch: Patch) returns (resp: Response)
      modifies this
      ensures var i := FirstIndex(old(records), ById(JsParseInt.ParseInt(pathId)));
        if i == -1 then
          records == old(records) && resp == NotFound(NotFoundMessage(kind))
        else
          && records == old(records)[i := Merge(old(records)[i], patch)]
          && resp == Ok(Entity(EntityKey(kind), records[i]))
      ensures UniqueIds(old(records)) && patch.id.None? ==> UniqueIds(records)
    {
      var id := JsParseInt.ParseInt(pathId);
      var i := FindIndex(records, ById(id));
      if i == -1 {
        resp := NotFound(NotFoundMessage(kind));
      } else {
        var updated := Merge(records[i], patch);
        if patch.id.None? && UniqueIds(records) {
          UpdateKeepsIdsUnique(records, i, patch);
        }
        records := records[i := updated];
        resp := Ok(Entity(EntityKey(kind), updated));
      }
    }

    /** DELETE `/:id`: remove the first record with the parsed id, or answer 404. */
    method Delete(pathId: string) returns (resp: Response)
      modifies this
      ensures var i := FirstIndex(old(records), ById(JsParseInt.ParseInt(pathId)));
        if i == -1 then
          records == old(records) && resp == NotFound(NotFoundMessage(kind))
        else
          records == Without(old(records), i) && resp == Ok(Confirmation)
      ensures UniqueIds(old(records)) ==> UniqueIds(records)
    {
      var id := JsParseInt.ParseInt(pathId);
      var i := FindIndex(records, ById(id));
      if i == -1 {
        resp := NotFound(NotFoundMessage(kind));
      } else {
        if UniqueIds(records) {
          DeleteKeepsIdsUnique(records, i);
        }
        records := records[..i] + records[i + 1..];
        resp := Ok(Confirmation);
      }
    }
  }
}
