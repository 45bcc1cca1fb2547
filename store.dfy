/**
  The server as a whole: the three collections with their seed records, and the
  process-wide `usuarioLogado` slot that login sets and logout clears. Nothing else
  reads the slot: the collection routes are methods of `Collection`, which cannot see
  it.
*/
module Server {
  import opened Wrappers
  import opened Records
  import opened Collections
  import JsParseInt

  /** The two users the process starts with: ids 1 and 2, each with all five user fields. */
  function SeedUsuarios(): (s: seq<Record>)
    ensures |s| == 2 && s[0].id == 1 && s[1].id == 2
    ensures forall k :: 0 <= k < |s| ==> s[k].fields.Keys == set f | f in CreatedFields(Usuarios)
  {
    [
      Record(1, map["nome" := Str("João Silva"), "email" := Str("joao@example.com"), "login" := Str("joao"),
                    "senha" := Str("123"), "perfil" := Str("Administrador")]),
      Record(2, map["nome" := Str("Maria Oliveira"), "email" := Str("maria@example.com"), "login" := Str("maria"),
                    "senha" := Str("123"), "perfil" := Str("Usuário")])
    ]
  }

  /** The two clients the process starts with: ids 1 and 2, each with the three client fields. */
  function SeedClientes(): (s: seq<Record>)
    ensures |s| == 2 && s[0].id == 1 && s[1].id == 2
    ensures forall k :: 0 <= k < |s| ==> s[k].fields.Keys == set f | f in CreatedFields(Clientes)
  {
    [
      Record(1, map["nome" := Str("Cliente A"), "email" := Str("clientea@example.com"), "telefone" := Str("1234567890")]),
      Record(2, map["nome" := Str("Cliente B"), "email" := Str("clienteb@example.com"), "telefone" := Str("0987654321")])
    ]
  }

  /** The two suppliers the process starts with: ids 1 and 2, each with the three supplier fields. */
  function SeedFornecedores(): (s: seq<Record>)
    ensures |s| == 2 && s[0].id == 1 && s[1].id == 2
    ensures forall k :: 0 <= k < |s| ==> s[k].fields.Keys == set f | f in CreatedFields(Fornecedores)
  {
    [
      Record(1, map["nome" := Str("Fornecedor X"), "email" := Str("fornecedor@example.com"), "telefone" := Str("1111111111")]),
      Record(2, map["nome" := Str("Fornecedor Y"), "email" := Str("fornecedor2@example.com"), "telefone" := Str("2222222222")])
    ]
  }

  /** The query of the login handler, built from the `email` and `senha` of the request body. */
  function LoginQuery(body: Body): (q: Query)
    ensures q.ByCredentials?
    ensures q.email == BodyField(body, "email") && q.senha == BodyField(body, "senha")
  {
    ByCredentials(BodyField(body, "email"), BodyField(body, "senha"))
  }

  class Store {
    const usuarios: Collection
    const clientes: Collection
    const fornecedores: Collection
    var usuarioLogado: Option<Record>

    /** Each collection serves its own routes (so the three are distinct objects). */
    ghost predicate Valid() {
      usuarios.kind == Usuarios && clientes.kind == Clientes && fornecedores.kind == Fornecedores
    }

    /** The state at process start: the seed records and no one logged in. */
    constructor ()
      ensures Valid()
      ensures fresh(usuarios) && fresh(clientes) && fresh(fornecedores)
      ensures usuarios.records == SeedUsuarios()
      ensures clientes.records == SeedClientes()
      ensures fornecedores.records == SeedFornecedores()
      ensures usuarioLogado == None
    {
      usuarios := new Collection(Usuarios, SeedUsuarios());
      clientes := new Collection(Clientes, SeedClientes());
      fornecedores := new Collection(Fornecedores, SeedFornecedores());
      usuarioLogado := None;
    }

    /**
      POST `/api/login`: the first user whose `email` and `senha` equal the body's is
      logged in and returned; otherwise 401 and the slot keeps its value.
    */
    method Login(body: Body) returns (resp: Response)
      modifies this
      ensures var i := FirstIndex(usuarios.records, LoginQuery(body));
        if i == -1 then
          usuarioLogado == old(usuarioLogado) && resp == Unauthorized(InvalidCredentialsMessage)
        else
          && usuarioLogado == Some(usuarios.records[i])
          && resp == Ok(Entity(EntityKey(Usuarios), usuarios.records[i]))
      ensures resp.Ok? <==>
        exists k :: 0 <= k < |usuarios.records| && Satisfies(usuarios.records[k], LoginQuery(body))
      ensures unchanged(usuarios, clientes, fornecedores)
    {
      var i := FindIndex(usuarios.records, LoginQuery(body));
      if i == -1 {
        resp := Unauthorized(InvalidCredentialsMessage);
      } else {
        usuarioLogado := Some(usuarios.records[i]);
        resp := Ok(Entity(EntityKey(Usuarios), usuarios.records[i]));
      }
    }

    /** POST `/api/logout`: always succeeds and leaves no one logged in, whatever the slot held. */
    method Logout() returns (resp: Response)
      modifies this
      ensures usuarioLogado == None && resp == Ok(Confirmation)
      ensures unchanged(usuarios, clientes, fornecedores)
    {
      usuarioLogado := None;
      resp := Ok(Confirmation);
    }
  }

  /** The seed ids are unique and the next id of every collection is 3. */
  lemma SeedState()
    ensures UniqueIds(SeedUsuarios()) && UniqueIds(SeedClientes()) && UniqueIds(SeedFornecedores())
    ensures NextId(SeedUsuarios()) == 3 && NextId(SeedClientes()) == 3 && NextId(SeedFornecedores()) == 3
  {
  }

  /** The seeded João logs in with his password; a wrong password matches no one. */
  lemma SeedLogin()
    ensures FirstIndex(SeedUsuarios(), LoginQuery(map["email" := Str("joao@example.com"), "senha" := Str("123")])) == 0
    ensures FirstIndex(SeedUsuarios(), LoginQuery(map["email" := Str("joao@example.com"), "senha" := Str("wrong")])) == -1
  {
  }

  /** Creating Ana on the seed users gives id 3, after João and Maria. */
  lemma CreateAnaOnSeed()
    ensures var ana := map["nome" := Str("Ana"), "email" := Str("ana@x.com"), "login" := Str("ana"),
                           "senha" := Str("1"), "perfil" := Str("Usuário")];
      var after := SeedUsuarios() + [NewRecord(SeedUsuarios(), CreatedFields(Usuarios), ana)];
      && |after| == 3 && after[..2] == SeedUsuarios()
      && after[2].id == 3 && after[2].fields == ana
  {
    var s := SeedUsuarios();
    var ana := map["nome" := Str("Ana"), "email" := Str("ana@x.com"), "login" := Str("ana"),
                   "senha" := Str("1"), "perfil" := Str("Usuário")];
    var created := NewRecord(s, CreatedFields(Usuarios), ana);
    assert HighestId(s) == 2 by {
      assert HighestId(s[..1]) == 1 by {
        assert s[..1][..0] == [];
      }
      assert s[..|s| - 1] == s[..1];
    }
    assert ana.Keys == set k | k in CreatedFields(Usuarios) by {
      CreatedRecordKeys(Usuarios, s, ana);
    }
    PickKeepsListedBody(ana, CreatedFields(Usuarios));
    assert (s + [created])[..2] == s;
  }

  /** The path segments `"1"` and `"2"` select the seed records with those ids. */
  lemma SeedPathIds()
    ensures FirstIndex(SeedClientes(), ById(JsParseInt.ParseInt("1"))) == 0
    ensures FirstIndex(SeedClientes(), ById(JsParseInt.ParseInt("2"))) == 1
  {
    assert JsParseInt.IntToDecimal(1) == "1";
    assert JsParseInt.IntToDecimal(2) == "2";
    JsParseInt.ParseIntRoundTrip(1);
    JsParseInt.ParseIntRoundTrip(2);
    FirstIndexOfUniqueId(SeedClientes(), 0);
    FirstIndexOfUniqueId(SeedClientes(), 1);
  }

  /**
    DELETE `/api/clientes/1` on the seed leaves client 2, so the next client id is 3;
    DELETE `/api/clientes/2` frees id 2 for the next client.
  */
  lemma DeleteSeedClient()
    ensures Without(SeedClientes(), 0) == [SeedClientes()[1]] && NextId(Without(SeedClientes(), 0)) == 3
    ensures Without(SeedClientes(), 1) == [SeedClientes()[0]] && NextId(Without(SeedClientes(), 1)) == 2
  {
    var s := SeedClientes();
    assert Without(s, 0) == [s[1]];
    assert Without(s, 1) == [s[0]];
    assert HighestId([s[1]]) == 2 by {
      assert [s[1]][..0] == [];
    }
    assert HighestId([s[0]]) == 1 by {
      assert [s[0]][..0] == [];
    }
  }

  /** A patch that carries an `id` can give two clients the same id. */
  lemma PatchedIdCanCollide()
    ensures !UniqueIds(SeedClientes()[1 := Merge(SeedClientes()[1], Patch(Some(1), map[]))])
  {
    var after := SeedClientes()[1 := Merge(SeedClientes()[1], Patch(Some(1), map[]))];
    assert after[0].id == 1 && after[1].id == 1;
  }

  /**
    A user created from an empty body has `email` and `senha` undefined, and a login
    with an empty body matches it, since `undefined === undefined`.
  */
  lemma EmptyBodyLogsIn()
    ensures var after := SeedUsuarios() + [NewRecord(SeedUsuarios(), CreatedFields(Usuarios), map[])];
      FirstIndex(after, LoginQuery(map[])) == 2
  {
    var after := SeedUsuarios() + [NewRecord(SeedUsuarios(), CreatedFields(Usuarios), map[])];
    var q := LoginQuery(map[]);
    assert q == ByCredentials(Undefined, Undefined);
    assert !Satisfies(after[0], q) && !Satisfies(after[1], q);
    assert Satisfies(after[2], q);
  }
}
