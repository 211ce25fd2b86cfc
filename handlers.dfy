/** The five route handlers of backend/app.js over the `usuarios` table.
    The table is held in a class; each handler takes the record and the id of
    the request, and `fault`, which stands for the database driver reporting
    an error for the one statement the handler issues. */
module Handlers {
  import opened Js
  import opened Validation

  const ListFailed := "Erro ao buscar usuários"
  const FetchFailed := "Erro ao buscar usuário"
  const NotFound := "Usuário não encontrado"
  const CreateFailed := "Erro ao criar usuário"
  const CreatedMessage := "Usuário criado com sucesso"
  const UpdateFailed := "Erro ao atualizar usuário"
  const UpdatedMessage := "Usuário atualizado com sucesso"
  const DeleteFailed := "Erro ao excluir usuário"
  const DeletedMessage := "Usuário excluído com sucesso"

  /** A row of `usuarios`: its id and the columns the inserts and updates set. */
  datatype Row = Row(id: int, columns: JsObject)

  /** The JSON bodies the handlers send. */
  datatype Body =
    | RowList(rows: seq<Row>)
    | OneRow(row: Row)
    | CreatedBody(id: int, message: string)
    | MessageBody(message: string)
    | ErroBody(erro: string)
    | ErrorsBody(errors: seq<string>)

  datatype Response = Response(status: int, body: Body)

  /** The top-level properties of the JSON a body is sent as. A list is sent
      as an array, which has no named properties. */
  function BodyProperties(body: Body): (props: JsObject)
  {
    match body
    case RowList(_) => map[]
    case OneRow(row) => row.columns["id" := Num(row.id)]
    case CreatedBody(id, m) => map["id" := Num(id), "message" := Str(m)]
    case MessageBody(m) => map["message" := Str(m)]
    case ErroBody(e) => map["erro" := Str(e)]
    case ErrorsBody(es) => map["errors" := Arr(seq(|es|, i requires 0 <= i < |es| => Str(es[i])))]
  }

  predicate Increasing(s: seq<int>)
  {
    forall a, b :: 0 <= a < b < |s| ==> s[a] < s[b]
  }

  /** s without the occurrences of x. */
  function Remove(s: seq<int>, x: int): (r: seq<int>)
    ensures |r| <= |s|
    ensures forall y :: y in r <==> y in s && y != x
  {
    if s == [] then []
    else if s[0] == x then Remove(s[1..], x)
    else [s[0]] + Remove(s[1..], x)
  }

  lemma {:induction false} RemoveKeepsIncreasing(s: seq<int>, x: int)
    requires Increasing(s)
    ensures Increasing(Remove(s, x))
  {
    if s != [] {
      var t := s[1..];
      assert Increasing(t) by {
        forall a, b | 0 <= a < b < |t| ensures t[a] < t[b] {
          assert t[a] == s[a + 1] && t[b] == s[b + 1];
        }
      }
      RemoveKeepsIncreasing(t, x);
      var r := Remove(t, x);
      if s[0] != x {
        var u := [s[0]] + r;
        forall a, b | 0 <= a < b < |u| ensures u[a] < u[b] {
          if a == 0 {
            assert u[b] == r[b - 1];
            assert r[b - 1] in t;
            var k :| 0 <= k < |t| && t[k] == r[b - 1];
            assert s[k + 1] == t[k];
          } else {
            assert u[a] == r[a - 1] && u[b] == r[b - 1];
          }
        }
      }
    }
  }

  /** The rows of `table` listed in the order of `order`. */
  function Listing(table: map<int, JsObject>, order: seq<int>): (list: seq<Row>)
    requires forall i :: 0 <= i < |order| ==> order[i] in table
    ensures |list| == |order|
    ensures forall i :: 0 <= i < |order| ==> list[i] == Row(order[i], table[order[i]])
  {
    if order == [] then [] else [Row(order[0], table[order[0]])] + Listing(table, order[1..])
  }

  class UsuariosTable {
    /** The rows, by id. */
    var rows: map<int, JsObject>
    /** The ids of the rows in primary-key order, the order a full select lists them in. */
    var ids: seq<int>
    /** The next AUTO_INCREMENT value. */
    var nextId: int

    ghost predicate Valid()
      reads this
    {
      && 1 <= nextId
      && Increasing(ids)
      && (forall k :: k in rows <==> k in ids)
      && (forall k :: k in rows ==> 1 <= k < nextId)
    }

    /** An empty table. */
    constructor ()
      ensures Valid()
      ensures rows == map[] && ids == [] && nextId == 1
    {
      rows := map[];
      ids := [];
      nextId := 1;
    }

    /** GET /usuarios: every row, each once, in ascending id; 500 when the
        select fails. */
    method ListAll(fault: bool) returns (resp: Response)
      requires Valid()
      ensures fault ==> resp == Response(500, ErroBody(ListFailed))
      ensures !fault ==> resp.status == 200 && resp.body.RowList? && |resp.body.rows| == |ids|
      ensures !fault ==>
                var list := resp.body.rows;
                && (forall i :: 0 <= i < |list| ==> list[i].id in rows && list[i].columns == rows[list[i].id])
                && (forall k :: k in rows ==> exists i :: 0 <= i < |list| && list[i].id == k)
                && (forall a, b :: 0 <= a < b < |list| ==> list[a].id < list[b].id)
    {
      if fault {
        resp := Response(500, ErroBody(ListFailed));
      } else {
        var table, order := rows, ids;
        assert forall i :: 0 <= i < |order| ==> order[i] in table by {
          forall i | 0 <= i < |order| ensures order[i] in table {
            assert order[i] in order;
          }
        }
        var list := Listing(table, order);
        assert forall k :: k in table ==> exists i :: 0 <= i < |list| && list[i].id == k by {
          forall k | k in table ensures exists i :: 0 <= i < |list| && list[i].id == k {
            var i :| 0 <= i < |order| && order[i] == k;
            assert list[i].id == k;
          }
        }
        resp := Response(200, RowList(list));
      }
    }

    /** GET /usuarios/:id: the row with that id, 404 when there is none, 500
        when the select fails. */
    method GetById(id: int, fault: bool) returns (resp: Response)
      requires Valid()
      ensures fault ==> resp == Response(500, ErroBody(FetchFailed))
      ensures !fault && id !in rows ==> resp == Response(404, ErroBody(NotFound))
      ensures !fault && id in rows ==> resp == Response(200, OneRow(Row(id, rows[id])))
    {
      if fault {
        resp := Response(500, ErroBody(FetchFailed));
      } else if id !in rows {
        resp := Response(404, ErroBody(NotFound));
      } else {
        resp := Response(200, OneRow(Row(id, rows[id])));
      }
    }

    /** POST /usuarios: a record that fails validation is answered 400 with
        its messages and never reaches the table; otherwise the record is
        inserted under a fresh AUTO_INCREMENT id, answered 201 with that id. */
    method Post(usuario: JsObject, fault: bool) returns (resp: Response)
      requires Valid()
      modifies this
      ensures Valid()
      ensures ValidateUser(usuario) != [] ==>
                resp == Response(400, ErrorsBody(ValidateUser(usuario))) && unchanged(this)
      ensures ValidateUser(usuario) == [] && fault ==>
                resp == Response(500, ErroBody(CreateFailed)) && unchanged(this)
      ensures ValidateUser(usuario) == [] && !fault ==>
                && resp == Response(201, CreatedBody(old(nextId), CreatedMessage))
                && 1 <= old(nextId) && old(nextId) !in old(rows)
                && rows == old(rows)[old(nextId) := usuario]
                && ids == old(ids) + [old(nextId)]
    {
      var errors := ValidateUser(usuario);
      if |errors| > 0 {
        return Response(400, ErrorsBody(errors));
      }
      if fault {
        resp := Response(500, ErroBody(CreateFailed));
      } else {
        var id := nextId;
        assert Increasing(ids + [id]) by {
          var u := ids + [id];
          forall a, b | 0 <= a < b < |u| ensures u[a] < u[b] {
            assert u[a] == ids[a];
            assert ids[a] in ids;
            if b < |ids| {
              assert u[b] == ids[b];
            }
          }
        }
        rows := rows[id := usuario];
        ids := ids + [id];
        nextId := nextId + 1;
        resp := Response(201, CreatedBody(id, CreatedMessage));
      }
    }

    /** PUT /usuarios/:id: a record that fails validation is answered 400;
        an id with no row (zero affected rows) 404; otherwise the supplied
        columns of that row are overwritten and the rest of it, and every
        other row, stay as they were. */
    method Put(id: int, usuario: JsObject, fault: bool) returns (resp: Response)
      requires Valid()
      modifies this
      ensures Valid()
      ensures ValidateUser(usuario) != [] ==>
                resp == Response(400, ErrorsBody(ValidateUser(usuario))) && unchanged(this)
      ensures ValidateUser(usuario) == [] && fault ==>
                resp == Response(500, ErroBody(UpdateFailed)) && unchanged(this)
      ensures ValidateUser(usuario) == [] && !fault && id !in old(rows) ==>
                resp == Response(404, ErroBody(NotFound)) && unchanged(this)
      ensures ValidateUser(usuario) == [] && !fault && id in old(rows) ==>
                && resp == Response(200, MessageBody(UpdatedMessage))
                && rows == old(rows)[id := old(rows)[id] + usuario]
                && ids == old(ids) && nextId == old(nextId)
    {
      var errors := ValidateUser(usuario);
      if |errors| > 0 {
        return Response(400, ErrorsBody(errors));
      }
      if fault {
        resp := Response(500, ErroBody(UpdateFailed));
      } else if id !in rows {
        resp := Response(404, ErroBody(NotFound));
      } else {
        rows := rows[id := rows[id] + usuario];
        resp := Response(200, MessageBody(UpdatedMessage));
      }
    }

    /** DELETE /usuarios/:id: an id with no row (zero affected rows) is
        answered 404; otherwise exactly that row is removed. */
    method Delete(id: int, fault: bool) returns (resp: Response)
      requires Valid()
      modifies this
      ensures Valid()
      ensures fault ==> resp == Response(500, ErroBody(DeleteFailed)) && unchanged(this)
      ensures !fault && id !in old(rows) ==> resp == Response(404, ErroBody(NotFound)) && unchanged(this)
      ensures !fault && id in old(rows) ==>
                && resp == Response(200, MessageBody(DeletedMessage))
                && rows == old(rows) - {id}
                && ids == Remove(old(ids), id) && nextId == old(nextId)
    {
      if fault {
        resp := Response(500, ErroBody(DeleteFailed));
      } else if id !in rows {
        resp := Response(404, ErroBody(NotFound));
      } else {
        RemoveKeepsIncreasing(ids, id);
        rows := rows - {id};
        ids := Remove(ids, id);
        resp := Response(200, MessageBody(DeletedMessage));
      }
    }
  }

  /** Creating a valid record and reading it back by the id the creation
      returned gives the record as it was sent. */
  method CreateThenGet(table: UsuariosTable, usuario: JsObject) returns (created: Response, fetched: Response)
    requires table.Valid()
    requires ValidateUser(usuario) == []
    modifies table
    ensures table.Valid()
    ensures created.status == 201 && created.body.CreatedBody?
    ensures fetched == Response(200, OneRow(Row(created.body.id, usuario)))
  {
    created := table.Post(usuario, false);
    fetched := table.GetById(created.body.id, false);
  }

  /** Updating a stored row with a valid record and reading it back gives
      the supplied columns with their new values and every other column as
      it was. */
  method PutThenGet(table: UsuariosTable, id: int, usuario: JsObject) returns (updated: Response, fetched: Response)
    requires table.Valid()
    requires ValidateUser(usuario) == [] && id in table.rows
    modifies table
    ensures table.Valid()
    ensures updated == Response(200, MessageBody(UpdatedMessage))
    ensures fetched.status == 200 && fetched.body.OneRow? && fetched.body.row.id == id
    ensures forall c :: c in usuario ==> c in fetched.body.row.columns && fetched.body.row.columns[c] == usuario[c]
    ensures forall c :: c in old(table.rows[id]) && c !in usuario ==>
              c in fetched.body.row.columns && fetched.body.row.columns[c] == old(table.rows[id])[c]
    ensures forall c :: c in fetched.body.row.columns ==> c in old(table.rows[id]) || c in usuario
  {
    updated := table.Put(id, usuario, false);
    fetched := table.GetById(id, false);
  }

  /** Deleting a stored row and reading it back is 404; a second delete is
      404 as well. */
  method DeleteThenGet(table: UsuariosTable, id: int) returns (deleted: Response, fetched: Response, again: Response)
    requires table.Valid() && id in table.rows
    modifies table
    ensures table.Valid()
    ensures deleted == Response(200, MessageBody(DeletedMessage))
    ensures fetched == Response(404, ErroBody(NotFound))
    ensures again == Response(404, ErroBody(NotFound))
    ensures forall k :: k in old(table.rows) && k != id ==> k in table.rows && table.rows[k] == old(table.rows)[k]
  {
    deleted := table.Delete(id, false);
    fetched := table.GetById(id, false);
    again := table.Delete(id, false);
  }

  /** Create Ana, read her back, delete her, and reading her again is 404. */
  method AnaScenario() returns (created: Response, fetched: Response, deleted: Response, refetched: Response)
    ensures created.status == 201 && created.body.CreatedBody?
    ensures fetched.status == 200 && fetched.body.OneRow?
    ensures Prop(fetched.body.row.columns, "nome") == Str("Ana")
    ensures deleted == Response(200, MessageBody(DeletedMessage))
    ensures refetched == Response(404, ErroBody(NotFound))
  {
    var table := new UsuariosTable();
    var ana := map["nome" := Str("Ana"), "email" := Str("ana@x.com")];
    AnaIsValid();
    created := table.Post(ana, false);
    var id := created.body.id;
    fetched := table.GetById(id, false);
    deleted := table.Delete(id, false);
    refetched := table.GetById(id, false);
  }

  /** An empty name and a malformed email are refused together, name first,
      and nothing is stored. */
  method RefusedScenario() returns (resp: Response, listed: Response)
    ensures resp == Response(400, ErrorsBody([NomeObrigatorio, EmailInvalido]))
    ensures listed == Response(200, RowList([]))
  {
    var table := new UsuariosTable();
    EmptyNameAndBadEmail();
    resp := table.Post(map["nome" := Str(""), "email" := Str("bad")], false);
    listed := table.ListAll(false);
  }
}
