/**
 * The persisted entities: users (`Usuario`) and appointments (`Agendamento`),
 * with the enumerations they use. Identifiers are opaque strings, and a Java
 * reference that may be `null` is an Option.
 */
module Entities {
  import opened Wrappers

  type Id = string

  /** The user's kind: a plain client or a barber. */
  datatype TipoUsuario = Cliente | Barbeiro

  /** The services on offer; each determines how long an appointment lasts. */
  datatype TipoServico = Corte | Barba | CorteEBarba

  /** An appointment's status: AGENDADO, CANCELADO or CONCLUIDO. */
  datatype StatusAgendamento = Agendado | Cancelado | Concluido

  /** A user record. `id` is unset until the user table assigns one on save. */
  datatype Usuario = Usuario(
    id: Option<Id>,
    nome: string,
    telefone: string,
    email: string,
    senha: string,
    tipo: TipoUsuario)

  /** An appointment record, with the client's and the barber's display names copied
      in at booking time. `horario` is the start time in minutes (see module Clock). */
  datatype Agendamento = Agendamento(
    id: Id,
    usuarioId: Id,
    barbeiroId: Id,
    nomeCliente: string,
    nomeBarbeiro: string,
    tipoServico: TipoServico,
    horario: int,
    status: StatusAgendamento)

  /** The names of the granted authorities. */
  const AutoridadeBarbeiro: string := "BARBEIRO"
  const AutoridadeCliente: string := "CLIENTE"

  /** The five-argument constructor `Usuario(nome, email, telefone, senha, tipo)`: note
      that its argument order (email before telefone) differs from the field order. */
  function NovoUsuario(nome: string, email: string, telefone: string, senha: string, tipo: TipoUsuario): (u: Usuario)
    ensures u.id == None
    ensures u.nome == nome && u.email == email && u.telefone == telefone
    ensures u.senha == senha && u.tipo == tipo
  {
    Usuario(None, nome, telefone, email, senha, tipo)
  }

  /** `getAuthorities()`: a barber is granted BARBEIRO and CLIENTE, in that order, and
      every other user CLIENTE alone. So every user may act as a client, and only
      barbers hold the barber authority. */
  function Authorities(u: Usuario): (r: seq<string>)
    ensures AutoridadeCliente in r
    ensures AutoridadeBarbeiro in r <==> u.tipo == Barbeiro
    ensures u.tipo == Barbeiro ==> r == [AutoridadeBarbeiro, AutoridadeCliente]
    ensures u.tipo != Barbeiro ==> r == [AutoridadeCliente]
  {
    if u.tipo == Barbeiro then [AutoridadeBarbeiro, AutoridadeCliente] else [AutoridadeCliente]
  }

  /** `getUsername()`: users sign in with their email. */
  function Username(u: Usuario): (r: string)
    ensures r == u.email
  {
    u.email
  }

  /** `getPassword()`: the stored password (hash). */
  function Password(u: Usuario): (r: string)
    ensures r == u.senha
  {
    u.senha
  }

  /** A user built by the constructor signs in with the email and password it was given,
      however the constructor orders its arguments. */
  lemma NovoUsuarioCredentials(nome: string, email: string, telefone: string, senha: string, tipo: TipoUsuario)
    ensures Username(NovoUsuario(nome, email, telefone, senha, tipo)) == email
    ensures Password(NovoUsuario(nome, email, telefone, senha, tipo)) == senha
    ensures "BARBEIRO" in Authorities(NovoUsuario(nome, email, telefone, senha, tipo)) <==> tipo == Barbeiro
  {
  }
}
