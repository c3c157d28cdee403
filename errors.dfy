/** The exceptions the two services throw, one constructor per distinct failure. */
module Errors {
  import opened Entities

  datatype Erro =
    // appointment validation, in the order the checks run
    | HorarioNoPassado
    | Domingo
    | ForaDoExpediente
    | IntervaloInvalido
    | BarbeiroNaoEncontrado
    | NaoEhBarbeiro
    | HorarioOcupado
    // appointment lookup, ownership and state
    | AgendamentoNaoEncontrado(agendamentoId: Id)
    | AcessoNegado
    | StatusNaoPermite(status: StatusAgendamento)
    | CancelamentoForaDoPrazo
    | AindaNaoOcorreu
    // the user table
    | EmailJaRegistrado(email: string)
    | TelefoneJaRegistrado(telefone: string)
    | UsuarioNaoEncontradoEmail(email: string)
    | UsuarioNaoEncontradoId(usuarioId: Id)
}
