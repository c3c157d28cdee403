/**
 * The user table and `UsuarioService`. The table keeps its users in store order;
 * a user's id, email and telefone each identify at most one user (the store's
 * primary key and its two unique indexes). The password encoder is an opaque
 * function given to the service when it is built.
 */
module UsuarioService {
  import opened Wrappers
  import opened Entities
  import opened Errors
  import opened UsuarioUpdate

  /** `UsuarioResponseDTO`: a user as the service returns it, without the password. */
  datatype UsuarioResponse = UsuarioResponse(id: Option<Id>, nome: string, telefone: string, email: string, tipo: TipoUsuario)

  function Resposta(u: Usuario): UsuarioResponse
  {
    UsuarioResponse(u.id, u.nome, u.telefone, u.email, u.tipo)
  }

  /** What the repository's finders look a user up by. */
  datatype Chave = PorId(id: Id) | PorEmail(email: string) | PorTelefone(telefone: string)

  predicate Casa(u: Usuario, c: Chave)
  {
    match c
    case PorId(id) => u.id == Some(id)
    case PorEmail(email) => u.email == email
    case PorTelefone(telefone) => u.telefone == telefone
  }

  /** The position of the first user, in store order, that the key matches. */
  function Buscar(us: seq<Usuario>, c: Chave): (r: Option<nat>)
    ensures r.Some? ==> r.value < |us| && Casa(us[r.value], c)
    ensures r.Some? ==> forall j :: 0 <= j < r.value ==> !Casa(us[j], c)
    ensures r.None? <==> forall i :: 0 <= i < |us| ==> !Casa(us[i], c)
  {
    if us == [] then None
    else if Casa(us[0], c) then Some(0)
    else match Buscar(us[1..], c)
      case None => None
      case Some(i) => Some(i + 1)
  }

  /** `findById`, `findByEmail`, `findByTelefone`. */
  function Encontrar(us: seq<Usuario>, c: Chave): (r: Option<Usuario>)
    ensures r.Some? <==> exists i :: 0 <= i < |us| && Casa(us[i], c)
    ensures r.Some? ==> r.value in us && Casa(r.value, c)
  {
    match Buscar(us, c)
    case None => None
    case Some(i) => Some(us[i])
  }

  /** The table's invariant: every stored user has an id, and no two users share an
      id, an email or a phone. */
  ghost predicate TabelaValida(us: seq<Usuario>)
  {
    && (forall i :: 0 <= i < |us| ==> us[i].id.Some?)
    && (forall i, j :: 0 <= i < j < |us| ==>
          us[i].id != us[j].id && us[i].email != us[j].email && us[i].telefone != us[j].telefone)
  }

  /** In a valid table a key matches at most one user, so the finders' answer is the
      user the key names. */
  lemma BuscarUnico(us: seq<Usuario>, c: Chave, i: nat)
    requires TabelaValida(us)
    requires i < |us| && Casa(us[i], c)
    ensures Buscar(us, c) == Some(i)
    ensures Encontrar(us, c) == Some(us[i])
  {
  }

  /** The store's `save`: replaces the user with the same id in place, or appends the
      user when its id is new. */
  function Save(us: seq<Usuario>, u: Usuario): (r: seq<Usuario>)
    requires TabelaValida(us) && u.id.Some?
    ensures (exists i :: 0 <= i < |us| && us[i].id == u.id) ==>
              |r| == |us| && forall i :: 0 <= i < |us| ==> r[i] == (if us[i].id == u.id then u else us[i])
    ensures (forall i :: 0 <= i < |us| ==> us[i].id != u.id) ==> r == us + [u]
  {
    match Buscar(us, PorId(u.id.value))
    case None => us + [u]
    case Some(i) => us[i := u]
  }

  /** Saving a user whose email and phone no other user holds keeps the table valid. */
  lemma {:induction false} SavePreservaUnicidade(us: seq<Usuario>, u: Usuario)
    requires TabelaValida(us) && u.id.Some?
    requires forall i :: 0 <= i < |us| && us[i].id != u.id ==> us[i].email != u.email && us[i].telefone != u.telefone
    ensures TabelaValida(Save(us, u))
  {
    var r := Save(us, u);
    if exists i :: 0 <= i < |us| && us[i].id == u.id {
      var k :| 0 <= k < |us| && us[k].id == u.id;
      forall i, j | 0 <= i < j < |r|
        ensures r[i].id != r[j].id && r[i].email != r[j].email && r[i].telefone != r[j].telefone
      {
        assert i != k ==> us[i].id != u.id;
        assert j != k ==> us[j].id != u.id;
      }
    }
  }

  /** `listarTodos()`: one response per stored user, in store order. */
  function ListarTodos(us: seq<Usuario>): (r: seq<UsuarioResponse>)
    ensures |r| == |us|
    ensures forall i :: 0 <= i < |us| ==> r[i] == Resposta(us[i])
  {
    if us == [] then [] else [Resposta(us[0])] + ListarTodos(us[1..])
  }

  /** `buscarUsuarioPorEmail(email)`: the user holding the email, or not-found. */
  function BuscarUsuarioPorEmail(us: seq<Usuario>, email: string): (r: Result<UsuarioResponse, Erro>)
    ensures r.Failure? <==> forall i :: 0 <= i < |us| ==> us[i].email != email
    ensures r.Failure? ==> r.error == UsuarioNaoEncontradoEmail(email)
    ensures r.Success? ==> exists u :: u in us && u.email == email && r.value == Resposta(u)
  {
    match Encontrar(us, PorEmail(email))
    case None => Failure(UsuarioNaoEncontradoEmail(email))
    case Some(u) => Success(Resposta(u))
  }

  /** The update's phone check: a filled-in phone that another user (an id other than
      `id`) already holds is refused; the user's own phone is accepted. */
  predicate TelefoneDeOutro(us: seq<Usuario>, dto: UsuarioUpdateDto, id: Id)
  {
    && Preenchido(dto.telefone)
    && match Encontrar(us, PorTelefone(dto.telefone.value))
       case None => false
       case Some(dono) => dono.id != Some(id)
  }

  /** In a valid table the phone check refuses exactly a filled-in phone that a user
      with another id holds. */
  lemma TelefoneDeOutroSpec(us: seq<Usuario>, dto: UsuarioUpdateDto, id: Id)
    requires TabelaValida(us)
    ensures TelefoneDeOutro(us, dto, id) <==>
              Preenchido(dto.telefone) &&
              exists i :: 0 <= i < |us| && us[i].telefone == dto.telefone.value && us[i].id != Some(id)
  {
    if Preenchido(dto.telefone) && exists i :: 0 <= i < |us| && us[i].telefone == dto.telefone.value {
      var i :| 0 <= i < |us| && us[i].telefone == dto.telefone.value;
      BuscarUnico(us, PorTelefone(dto.telefone.value), i);
    }
  }

  /** The setters the update methods apply: each of telefone, nome and senha changes
      only when the request fills it in, and a new password is stored encoded; id,
      email and tipo never change. */
  function AplicarAtualizacao(u: Usuario, dto: UsuarioUpdateDto, encoder: string -> string): (r: Usuario)
    ensures r.id == u.id && r.email == u.email && r.tipo == u.tipo
    ensures r.telefone == (if Preenchido(dto.telefone) then dto.telefone.value else u.telefone)
    ensures r.nome == (if Preenchido(dto.nome) then dto.nome.value else u.nome)
    ensures r.senha == (if Preenchido(dto.senha) then encoder(dto.senha.value) else u.senha)
  {
    var u1 := if Preenchido(dto.telefone) then u.(telefone := dto.telefone.value) else u;
    var u2 := if Preenchido(dto.nome) then u1.(nome := dto.nome.value) else u1;
    if Preenchido(dto.senha) then u2.(senha := encoder(dto.senha.value)) else u2
  }

  /** The store's `delete` of the user holding `email`, by position. */
  function Remover(us: seq<Usuario>, email: string): (r: seq<Usuario>)
    ensures (forall i :: 0 <= i < |us| ==> us[i].email != email) ==> r == us
    ensures (exists i :: 0 <= i < |us| && us[i].email == email) ==>
              |r| == |us| - 1 && forall u :: u in r ==> u in us
  {
    match Buscar(us, PorEmail(email))
    case None => us
    case Some(i) => us[..i] + us[i + 1..]
  }

  /** The position in the table of the `j`th user left after deleting position `i`. */
  function Origem(j: nat, i: nat): (o: nat)
    ensures o == j || o == j + 1
  {
    if j < i then j else j + 1
  }

  /** Deleting position `i` shifts every later user down by one. */
  lemma SemPosicao(us: seq<Usuario>, i: nat)
    requires i < |us|
    ensures |us[..i] + us[i + 1..]| == |us| - 1
    ensures forall j :: 0 <= j < |us| - 1 ==> (us[..i] + us[i + 1..])[j] == us[Origem(j, i)]
  {
  }

  /** Deleting the user at position `i`, who holds `email`, from a valid table removes
      exactly that user: the others stay, in order, and the table stays valid. */
  lemma {:induction false} RemoverSpec(us: seq<Usuario>, email: string, i: nat)
    requires TabelaValida(us)
    requires i < |us| && us[i].email == email
    ensures Remover(us, email) == us[..i] + us[i + 1..]
    ensures |Remover(us, email)| == |us| - 1
    ensures forall u :: u in Remover(us, email) <==> u in us && u.email != email
    ensures TabelaValida(Remover(us, email))
  {
    BuscarUnico(us, PorEmail(email), i);
    var r := us[..i] + us[i + 1..];
    SemPosicao(us, i);
    forall u
      ensures u in r <==> u in us && u.email != email
    {
      if u in r {
        var j :| 0 <= j < |r| && r[j] == u;
        assert u == us[Origem(j, i)];
      }
      if u in us && u.email != email {
        var j :| 0 <= j < |us| && us[j] == u;
        assert r[if j < i then j else j - 1] == u;
      }
    }
    forall j, k | 0 <= j < k < |r|
      ensures r[j].id != r[k].id && r[j].email != r[k].email && r[j].telefone != r[k].telefone
    {
      assert r[j] == us[Origem(j, i)] && r[k] == us[Origem(k, i)];
    }
  }

  class UsuarioServico {
    /** The user table (`UsuarioRepository`), in store order. */
    var usuarios: seq<Usuario>
    /** `PasswordEncoder.encode`. */
    const encoder: string -> string

    ghost predicate Valid()
      reads this
    {
      TabelaValida(usuarios)
    }

    constructor (encoder: string -> string)
      ensures Valid() && usuarios == [] && this.encoder == encoder
    {
      usuarios := [];
      this.encoder := encoder;
    }

    /** `criarUsuario(novo)`: refuses an email already in use, then a phone already in
        use; otherwise saves the user as given, with the store's generated id
        `idGerado` when it has none. */
    method CriarUsuario(novo: Usuario, idGerado: Id) returns (r: Result<Usuario, Erro>)
      requires Valid()
      requires forall i :: 0 <= i < |usuarios| ==> usuarios[i].id != Some(idGerado)
      modifies this
      ensures Valid()
      ensures (exists i :: 0 <= i < |old(usuarios)| && old(usuarios)[i].email == novo.email) ==>
                r == Failure(EmailJaRegistrado(novo.email)) && usuarios == old(usuarios)
      ensures (forall i :: 0 <= i < |old(usuarios)| ==> old(usuarios)[i].email != novo.email) &&
              (exists i :: 0 <= i < |old(usuarios)| && old(usuarios)[i].telefone == novo.telefone) ==>
                r == Failure(TelefoneJaRegistrado(novo.telefone)) && usuarios == old(usuarios)
      ensures (forall i :: 0 <= i < |old(usuarios)| ==>
                 old(usuarios)[i].email != novo.email && old(usuarios)[i].telefone != novo.telefone) ==>
                var salvo := if novo.id.Some? then novo else novo.(id := Some(idGerado));
                r == Success(salvo) && usuarios == Save(old(usuarios), salvo)
      ensures r.Success? && novo.id.None? ==> usuarios == old(usuarios) + [r.value]
    {
      var comEmail := Encontrar(usuarios, PorEmail(novo.email));
      var comTelefone := Encontrar(usuarios, PorTelefone(novo.telefone));
      if comEmail.Some? {
        return Failure(EmailJaRegistrado(novo.email));
      }
      if comTelefone.Some? {
        return Failure(TelefoneJaRegistrado(novo.telefone));
      }
      var salvo := if novo.id.Some? then novo else novo.(id := Some(idGerado));
      SavePreservaUnicidade(usuarios, salvo);
      usuarios := Save(usuarios, salvo);
      r := Success(salvo);
    }

    /** The shared body of both update paths: checks the phone, applies the filled-in
        fields to `alvo` and saves it. */
    method Atualizar(alvo: Usuario, dto: UsuarioUpdateDto) returns (r: Result<UsuarioResponse, Erro>)
      requires Valid() && alvo in usuarios
      modifies this
      ensures Valid()
      ensures TelefoneDeOutro(old(usuarios), dto, alvo.id.value) ==>
                r == Failure(TelefoneJaRegistrado(dto.telefone.value)) && usuarios == old(usuarios)
      ensures !TelefoneDeOutro(old(usuarios), dto, alvo.id.value) ==>
                var salvo := AplicarAtualizacao(alvo, dto, encoder);
                r == Success(Resposta(salvo)) && usuarios == Save(old(usuarios), salvo)
      ensures r.Success? ==>
                && |usuarios| == |old(usuarios)|
                && forall i :: 0 <= i < |usuarios| ==>
                     usuarios[i] == if old(usuarios)[i] == alvo then AplicarAtualizacao(alvo, dto, encoder) else old(usuarios)[i]
    {
      var k :| 0 <= k < |usuarios| && usuarios[k] == alvo;
      var id := alvo.id.value;
      if Preenchido(dto.telefone) {
        var dono := Encontrar(usuarios, PorTelefone(dto.telefone.value));
        if dono.Some? && dono.value.id != Some(id) {
          return Failure(TelefoneJaRegistrado(dto.telefone.value));
        }
      }
      var salvo := AplicarAtualizacao(alvo, dto, encoder);
      TelefoneDeOutroSpec(usuarios, dto, id);
      forall i | 0 <= i < |usuarios| && usuarios[i].id != salvo.id
        ensures usuarios[i].email != salvo.email && usuarios[i].telefone != salvo.telefone
      {
        assert i != k;
      }
      forall i | 0 <= i < |usuarios|
        ensures usuarios[i].id == alvo.id <==> usuarios[i] == alvo
      {
        assert usuarios[i].id == alvo.id ==> i == k;
      }
      SavePreservaUnicidade(usuarios, salvo);
      usuarios := Save(usuarios, salvo);
      r := Success(Resposta(salvo));
    }

    /** `atualizarMeuPerfil(dto, logado)`: the signed-in user updates their own record.
        The signed-in user is the record the authentication layer loaded from this table. */
    method AtualizarMeuPerfil(dto: UsuarioUpdateDto, logado: Usuario) returns (r: Result<UsuarioResponse, Erro>)
      requires Valid() && logado in usuarios
      modifies this
      ensures Valid()
      ensures TelefoneDeOutro(old(usuarios), dto, logado.id.value) ==>
                r == Failure(TelefoneJaRegistrado(dto.telefone.value)) && usuarios == old(usuarios)
      ensures !TelefoneDeOutro(old(usuarios), dto, logado.id.value) ==>
                var salvo := AplicarAtualizacao(logado, dto, encoder);
                r == Success(Resposta(salvo)) && usuarios == Save(old(usuarios), salvo)
    {
      r := Atualizar(logado, dto);
    }

    /** `atualizarUsuarioPeloBarbeiro(id, dto)`: a barber updates any user by id; an
        unknown id is not-found and changes nothing. */
    method AtualizarUsuarioPeloBarbeiro(id: Id, dto: UsuarioUpdateDto) returns (r: Result<UsuarioResponse, Erro>)
      requires Valid()
      modifies this
      ensures Valid()
      ensures Encontrar(old(usuarios), PorId(id)).None? ==>
                r == Failure(UsuarioNaoEncontradoId(id)) && usuarios == old(usuarios)
      ensures Encontrar(old(usuarios), PorId(id)).Some? ==>
                var alvo := Encontrar(old(usuarios), PorId(id)).value;
                if TelefoneDeOutro(old(usuarios), dto, id) then
                  r == Failure(TelefoneJaRegistrado(dto.telefone.value)) && usuarios == old(usuarios)
                else
                  var salvo := AplicarAtualizacao(alvo, dto, encoder);
                  r == Success(Resposta(salvo)) && usuarios == Save(old(usuarios), salvo)
    {
      var alvo := Encontrar(usuarios, PorId(id));
      if alvo.None? {
        return Failure(UsuarioNaoEncontradoId(id));
      }
      r := Atualizar(alvo.value, dto);
    }

    /** `excluirUsuarioPorEmail(email)`: removes the user holding the email, keeping the
        others in order; an unknown email is not-found and changes nothing. */
    method ExcluirUsuarioPorEmail(email: string) returns (r: Outcome<Erro>)
      requires Valid()
      modifies this
      ensures Valid()
      ensures (forall i :: 0 <= i < |old(usuarios)| ==> old(usuarios)[i].email != email) ==>
                r == Fail(UsuarioNaoEncontradoEmail(email)) && usuarios == old(usuarios)
      ensures (exists i :: 0 <= i < |old(usuarios)| && old(usuarios)[i].email == email) ==>
                r == Pass && usuarios == Remover(old(usuarios), email)
    {
      var alvo := Buscar(usuarios, PorEmail(email));
      if alvo.None? {
        return Fail(UsuarioNaoEncontradoEmail(email));
      }
      RemoverSpec(usuarios, email, alvo.value);
      usuarios := Remover(usuarios, email);
      r := Pass;
    }
  }
}
