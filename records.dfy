/**
  The records kept by the server: a JSON object with an integer `id` and any other
  fields, the request bodies that create and patch them, the `find`/`findIndex`
  queries that select them, and the functions that say what each route does to a
  collection's contents.
*/
module Records {
  import opened Wrappers

  /** A JSON primitive, or `undefined` for a field that a create body left out. */
  datatype Value = Str(s: string) | Num(n: int) | Bool(b: bool) | Null | Undefined

  /** A field name other than `id`. */
  type FieldName = k: string | k != "id" witness "nome"

  /** The fields of a record besides `id`. */
  type FieldMap = m: map<string, Value> | "id" !in m witness map[]

  datatype Record = Record(id: int, fields: FieldMap)

  /** A parsed JSON request body. */
  type Body = map<string, Value>

  /** The body of an update: an `id` key, when there is one, and every other key. */
  datatype Patch = Patch(id: Option<int>, fields: FieldMap)

  /** `record.key` in JavaScript: `undefined` when the record has no such field. */
  function FieldValue(r: Record, key: string): (v: Value)
    ensures key == "id" ==> v == Num(r.id)
    ensures key != "id" && key in r.fields ==> v == r.fields[key]
    ensures key != "id" && key !in r.fields ==> v == Undefined
  {
    if key == "id" then Num(r.id)
    else if key in r.fields then r.fields[key]
    else Undefined
  }

  /**
    The callbacks given to `find` and `findIndex`: `u.id === parseInt(req.params.id)`,
    where `None` is `NaN`, and `u.email === email && u.senha === senha`. Strict equality
    on the primitives of `Value` is equality of values (no `NaN` among them).
  */
  datatype Query = ById(id: Option<int>) | ByCredentials(email: Value, senha: Value)

  predicate Satisfies(r: Record, q: Query)
    ensures q == ById(None) ==> !Satisfies(r, q)
    ensures q.ById? && q.id.Some? ==> (Satisfies(r, q) <==> r.id == q.id.value)
    ensures q.ByCredentials? ==>
      (Satisfies(r, q) <==> FieldValue(r, "email") == q.email && FieldValue(r, "senha") == q.senha)
  {
    match q
    case ById(id) => id.Some? && r.id == id.value
    case ByCredentials(email, senha) => FieldValue(r, "email") == email && FieldValue(r, "senha") == senha
  }

  /** `findIndex`: the position of the first record that satisfies `q`, or -1. */
  function FirstIndex(s: seq<Record>, q: Query): (i: int)
    ensures -1 <= i < |s|
    ensures i == -1 <==> forall k :: 0 <= k < |s| ==> !Satisfies(s[k], q)
    ensures 0 <= i ==> Satisfies(s[i], q) && forall k :: 0 <= k < i ==> !Satisfies(s[k], q)
  {
    if s == [] then -1
    else if Satisfies(s[0], q) then 0
    else
      var j := FirstIndex(s[1..], q);
      if j == -1 then -1 else j + 1
  }

  /** `Math.max(...s.map(r => r.id), 0)`. */
  function HighestId(s: seq<Record>): (m: int)
    ensures m >= 0
    ensures forall k :: 0 <= k < |s| ==> s[k].id <= m
    ensures m == 0 || exists k :: 0 <= k < |s| && s[k].id == m
  {
    if s == [] then 0
    else
      var m := HighestId(s[..|s| - 1]);
      if s[|s| - 1].id > m then s[|s| - 1].id else m
  }

  /** The id the next created record receives. */
  function NextId(s: seq<Record>): (n: int)
    ensures n >= 1
    ensures forall k :: 0 <= k < |s| ==> s[k].id < n
  {
    HighestId(s) + 1
  }

  /** `req.body.key`, read by destructuring: `undefined` when the body has no such key. */
  function BodyField(body: Body, key: string): (v: Value)
    ensures key in body ==> v == body[key]
    ensures key !in body ==> v == Undefined
  {
    if key in body then body[key] else Undefined
  }

  /** The object `{ nome, email, ... }` built from destructured fields: exactly the listed keys, `undefined` where absent. */
  function Pick(body: Body, keys: seq<FieldName>): (m: FieldMap)
    ensures forall k :: k in m <==> k in keys
    ensures forall k :: k in keys ==> m[k] == BodyField(body, k)
  {
    map k | k in keys :: BodyField(body, k)
  }

  /** A body that holds exactly the listed fields is kept whole. */
  lemma PickKeepsListedBody(body: Body, keys: seq<FieldName>)
    requires body.Keys == set k | k in keys
    ensures Pick(body, keys) == body
  {
    var m := Pick(body, keys);
    assert m.Keys == body.Keys;
    forall k | k in m ensures m[k] == body[k] {
    }
  }

  /** The record that create appends to `s`. */
  function NewRecord(s: seq<Record>, keys: seq<FieldName>, body: Body): (r: Record)
    ensures r.id == HighestId(s) + 1
    ensures s == [] ==> r.id == 1
    ensures forall k :: 0 <= k < |s| ==> s[k].id < r.id
    ensures r.fields.Keys == set k | k in keys
  {
    Record(NextId(s), Pick(body, keys))
  }

  /** `Object.assign(r, patch)`: every key of the patch overwrites, every other key is kept. */
  function Merge(r: Record, p: Patch): (m: Record)
    ensures m.id == if p.id.Some? then p.id.value else r.id
    ensures m.fields.Keys == r.fields.Keys + p.fields.Keys
    ensures forall k :: k in p.fields ==> m.fields[k] == p.fields[k]
    ensures forall k :: k in r.fields && k !in p.fields ==> m.fields[k] == r.fields[k]
  {
    Record(p.id.GetOr(r.id), r.fields + p.fields)
  }

  /** `s.splice(i, 1)`: `s` without its element at `i`, the others in their order. */
  function Without(s: seq<Record>, i: int): (r: seq<Record>)
    requires 0 <= i < |s|
    ensures |r| == |s| - 1
    ensures forall k :: 0 <= k < i ==> r[k] == s[k]
    ensures forall k :: i <= k < |r| ==> r[k] == s[k + 1]
    ensures multiset(r) + multiset{s[i]} == multiset(s)
  {
    assert s == s[..i] + [s[i]] + s[i + 1..];
    s[..i] + s[i + 1..]
  }

  /** No two records of `s` share an id. */
  predicate UniqueIds(s: seq<Record>) {
    forall j, k :: 0 <= j < k < |s| ==> s[j].id != s[k].id
  }

  /** Create keeps ids unique, since the new id exceeds every existing one. */
  lemma CreateKeepsIdsUnique(s: seq<Record>, keys: seq<FieldName>, body: Body)
    requires UniqueIds(s)
    ensures UniqueIds(s + [NewRecord(s, keys, body)])
  {
  }

  /** Delete keeps ids unique. */
  lemma DeleteKeepsIdsUnique(s: seq<Record>, i: int)
    requires 0 <= i < |s| && UniqueIds(s)
    ensures UniqueIds(Without(s, i))
  {
    var r := Without(s, i);
    forall j, k | 0 <= j < k < |r| ensures r[j].id != r[k].id {
      var j' := if j < i then j else j + 1;
      var k' := if k < i then k else k + 1;
      assert r[j] == s[j'] && r[k] == s[k'];
    }
  }

  /** Update keeps ids unique when the patch has no `id` key. */
  lemma UpdateKeepsIdsUnique(s: seq<Record>, i: int, p: Patch)
    requires 0 <= i < |s| && UniqueIds(s) && p.id.None?
    ensures UniqueIds(s[i := Merge(s[i], p)])
  {
  }

  /** A record whose id is found by `findIndex` is the one `find` selects. */
  lemma FirstIndexOfUniqueId(s: seq<Record>, k: int)
    requires UniqueIds(s) && 0 <= k < |s|
    ensures FirstIndex(s, ById(Some(s[k].id))) == k
  {
  }

  /** Every id left after a delete was in the collection before, so the next id never grows. */
  lemma DeleteNeverRaisesNextId(s: seq<Record>, i: int)
    requires 0 <= i < |s|
    ensures NextId(Without(s, i)) <= NextId(s)
  {
    var r := Without(s, i);
    var m := HighestId(r);
    if m != 0 {
      var k :| 0 <= k < |r| && r[k].id == m;
      assert r[k] == s[if k < i then k else k + 1];
    }
  }

  /** Deleting a record other than the one holding the highest id leaves the next id as it was. */
  lemma DeleteOtherKeepsNextId(s: seq<Record>, i: int)
    requires 0 <= i < |s| && s[i].id != HighestId(s)
    ensures NextId(Without(s, i)) == NextId(s)
  {
    var r := Without(s, i);
    DeleteNeverRaisesNextId(s, i);
    if HighestId(s) != 0 {
      var k :| 0 <= k < |s| && s[k].id == HighestId(s);
      KeptRecordBoundsNext(s, i, k);
    }
  }

  lemma KeptRecordBoundsNext(s: seq<Record>, i: int, k: int)
    requires 0 <= i < |s| && 0 <= k < |s| && k != i
    ensures s[k].id < NextId(Without(s, i))
  {
    var r := Without(s, i);
    var k' := if k < i then k else k - 1;
    assert r[k'] == s[k];
  }

  /**
    Deleting the record that holds the highest id `m >= 1`, with unique ids, frees `m`
    for reuse exactly when `m` is 1 or `m - 1` is still present; otherwise the next id
    falls below `m`.
  */
  lemma DeleteHighestThenCreate(s: seq<Record>, i: int)
    requires 0 <= i < |s| && UniqueIds(s) && s[i].id == HighestId(s) && s[i].id >= 1
    ensures NextId(Without(s, i)) <= s[i].id
    ensures NextId(Without(s, i)) == s[i].id <==>
      (s[i].id == 1 || exists k :: 0 <= k < |Without(s, i)| && Without(s, i)[k].id == s[i].id - 1)
  {
    var r := Without(s, i);
    var m := s[i].id;
    forall k | 0 <= k < |r| ensures r[k].id < m {
      var k' := if k < i then k else k + 1;
      assert r[k] == s[k'] && k' != i;
    }
    var h := HighestId(r);
    assert h < m by {
      if h != 0 {
        var k :| 0 <= k < |r| && r[k].id == h;
      }
    }
    if m > 1 && h + 1 == m {
      var k :| 0 <= k < |r| && r[k].id == h;
    }
  }

  /** Ids 1, 2, 3: deleting id 2 (not the highest) and then id 3 makes id 2 the next one again. */
  lemma SuccessiveDeletesReuseId(a: FieldMap, b: FieldMap, c: FieldMap)
    ensures var s := [Record(1, a), Record(2, b), Record(3, c)];
      NextId(s) == 4 && NextId(Without(s, 1)) == 4 && NextId(Without(Without(s, 1), 1)) == 2
  {
    var s := [Record(1, a), Record(2, b), Record(3, c)];
    assert Without(s, 1) == [Record(1, a), Record(3, c)];
    assert Without(Without(s, 1), 1) == [Record(1, a)];
    assert HighestId([Record(1, a)]) == 1 by {
      assert [Record(1, a)][..0] == [];
    }
  }
}
