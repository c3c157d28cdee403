/**
 * `AgendamentoService`: booking, rescheduling, cancelling and completing
 * appointments over the appointment store, plus its read-side queries. The
 * current time `agora` is a parameter, in minutes (module Clock); the user table
 * is read through its finders; the store's generated id for a new appointment is
 * a parameter too.
 */
module AgendamentoService {
  import opened Wrappers
  import opened Clock
  import opened Entities
  import opened Errors
  import opened SchedulingPolicy
  import UsuarioService

  /** `AgendamentoRequestDTO`, also the shape of the reschedule request. */
  datatype AgendamentoRequest = AgendamentoRequest(barbeiroId: Id, tipoServico: TipoServico, horario: int)

  /** The store's `findByBarbeiroIdAndHorarioBetween(barbeiroId, de, ate)`. The store
      derives `Between` as strict bounds on both ends. */
  function BuscarPorBarbeiroEHorarioEntre(agendamentos: map<Id, Agendamento>, barbeiroId: Id, de: int, ate: int): (r: map<Id, Agendamento>)
    ensures forall k :: k in r <==> k in agendamentos && agendamentos[k].barbeiroId == barbeiroId && de < agendamentos[k].horario < ate
    ensures forall k :: k in r ==> r[k] == agendamentos[k]
  {
    map k | k in agendamentos && agendamentos[k].barbeiroId == barbeiroId && de < agendamentos[k].horario < ate :: agendamentos[k]
  }

  /** The barber's appointments the conflict scan fetches: those starting less than two
      hours either side of `inicio`. */
  function Proximos(agendamentos: map<Id, Agendamento>, barbeiroId: Id, inicio: int): (r: map<Id, Agendamento>)
    ensures forall k :: k in r ==> k in agendamentos && r[k] == agendamentos[k] && r[k].barbeiroId == barbeiroId
    ensures forall k ::
              (k in agendamentos && agendamentos[k].barbeiroId == barbeiroId &&
               inicio - DuracaoMaxima < agendamentos[k].horario < inicio + DuracaoMaxima) ==> k in r
  {
    BuscarPorBarbeiroEHorarioEntre(agendamentos, barbeiroId, inicio - JanelaBusca, inicio + JanelaBusca)
  }

  /** Some appointment in the barber's whole calendar, other than the one `ignorar`
      names, overlaps a booking of `tipo` at `inicio`, whatever its status. */
  ghost predicate ConflitoNaAgenda(agendamentos: map<Id, Agendamento>, barbeiroId: Id, inicio: int, tipo: TipoServico, ignorar: Option<Id>)
  {
    exists k :: k in agendamentos && agendamentos[k].barbeiroId == barbeiroId &&
      ignorar != Some(agendamentos[k].id) && Conflita(inicio, tipo, agendamentos[k])
  }

  /** The two-hour window misses nothing: scanning only the fetched appointments finds a
      conflict exactly when the barber's whole calendar holds one, because no service
      lasts longer than an hour. */
  lemma {:induction false} JanelaSuficiente(agendamentos: map<Id, Agendamento>, barbeiroId: Id, inicio: int, tipo: TipoServico, ignorar: Option<Id>)
    ensures HaConflito(Proximos(agendamentos, barbeiroId, inicio), inicio, tipo, ignorar)
            <==> ConflitoNaAgenda(agendamentos, barbeiroId, inicio, tipo, ignorar)
  {
    var proximos := Proximos(agendamentos, barbeiroId, inicio);
    if ConflitoNaAgenda(agendamentos, barbeiroId, inicio, tipo, ignorar) {
      var k :| k in agendamentos && agendamentos[k].barbeiroId == barbeiroId &&
        ignorar != Some(agendamentos[k].id) && Conflita(inicio, tipo, agendamentos[k]);
      ConflitoDentroDaJanela(inicio, tipo, agendamentos[k]);
      assert k in proximos;
    }
  }

  /** The checks create and reschedule share, in order: the start time, the barber's
      existence, the barber's type, then the conflict scan over the fetched window. On
      success it gives the barber's record. */
  ghost function Verificar(agendamentos: map<Id, Agendamento>, usuarios: seq<Usuario>, req: AgendamentoRequest, agora: int, ignorar: Option<Id>)
    : (r: Result<Usuario, Erro>)
    ensures ValidarHorario(req.horario, agora).Fail? ==> r == Failure(ValidarHorario(req.horario, agora).error)
    ensures ValidarHorario(req.horario, agora).Pass? ==>
              match UsuarioService.Encontrar(usuarios, UsuarioService.PorId(req.barbeiroId))
              case None => r == Failure(BarbeiroNaoEncontrado)
              case Some(b) =>
                if b.tipo != Barbeiro then r == Failure(NaoEhBarbeiro)
                else if ConflitoNaAgenda(agendamentos, req.barbeiroId, req.horario, req.tipoServico, ignorar) then r == Failure(HorarioOcupado)
                else r == Success(b)
    ensures r.Success? <==>
              && agora <= req.horario && SlotOferecido(req.horario)
              && (exists i :: 0 <= i < |usuarios| && usuarios[i].id == Some(req.barbeiroId))
              && UsuarioService.Encontrar(usuarios, UsuarioService.PorId(req.barbeiroId)).value.tipo == Barbeiro
              && !ConflitoNaAgenda(agendamentos, req.barbeiroId, req.horario, req.tipoServico, ignorar)
  {
    JanelaSuficiente(agendamentos, req.barbeiroId, req.horario, req.tipoServico, ignorar);
    match ValidarHorario(req.horario, agora)
    case Fail(e) => Failure(e)
    case Pass =>
      match UsuarioService.Encontrar(usuarios, UsuarioService.PorId(req.barbeiroId))
      case None => Failure(BarbeiroNaoEncontrado)
      case Some(b) =>
        if b.tipo != Barbeiro then Failure(NaoEhBarbeiro)
        else if HaConflito(Proximos(agendamentos, req.barbeiroId, req.horario), req.horario, req.tipoServico, ignorar) then Failure(HorarioOcupado)
        else Success(b)
  }

  /** Every record is stored under its own id. */
  ghost predicate IdsConsistentes(agendamentos: map<Id, Agendamento>)
  {
    forall k :: k in agendamentos ==> agendamentos[k].id == k
  }

  /** No two appointments of one barber overlap, whatever their status. */
  ghost predicate SemSobreposicao(agendamentos: map<Id, Agendamento>)
  {
    forall k1, k2 ::
      (k1 in agendamentos && k2 in agendamentos && k1 != k2 && agendamentos[k1].barbeiroId == agendamentos[k2].barbeiroId)
      ==> !Conflita(agendamentos[k1].horario, agendamentos[k1].tipoServico, agendamentos[k2])
  }

  /** Every stored start is a slot the shop offers: create and reschedule validate the
      time before saving, and a status change leaves it alone. */
  ghost predicate HorariosOferecidos(agendamentos: map<Id, Agendamento>)
  {
    forall k :: k in agendamentos ==> SlotOferecido(agendamentos[k].horario)
  }

  /** Storing a record under its id keeps the calendar free of overlaps when no other
      appointment of its barber overlaps it: the case of a new booking and of a
      rescheduled one. */
  lemma {:induction false} GravarPreservaSemSobreposicao(agendamentos: map<Id, Agendamento>, a: Agendamento)
    requires IdsConsistentes(agendamentos) && SemSobreposicao(agendamentos)
    requires !ConflitoNaAgenda(agendamentos, a.barbeiroId, a.horario, a.tipoServico, Some(a.id))
    ensures IdsConsistentes(agendamentos[a.id := a]) && SemSobreposicao(agendamentos[a.id := a])
  {
    var m := agendamentos[a.id := a];
    forall k1, k2 | k1 in m && k2 in m && k1 != k2 && m[k1].barbeiroId == m[k2].barbeiroId
      ensures !Conflita(m[k1].horario, m[k1].tipoServico, m[k2])
    {
      if k1 == a.id {
        assert agendamentos[k2].id == k2;
        assert !Conflita(a.horario, a.tipoServico, m[k2]);
      } else if k2 == a.id {
        assert agendamentos[k1].id == k1;
        assert !Conflita(a.horario, a.tipoServico, m[k1]);
        ConflitaSimetrico(a, m[k1]);
      }
    }
  }

  /** Changing only an appointment's status keeps every invariant of the calendar. */
  lemma MudarStatusPreserva(agendamentos: map<Id, Agendamento>, id: Id, status: StatusAgendamento)
    requires IdsConsistentes(agendamentos) && SemSobreposicao(agendamentos) && HorariosOferecidos(agendamentos)
    requires id in agendamentos
    ensures IdsConsistentes(agendamentos[id := agendamentos[id].(status := status)])
    ensures SemSobreposicao(agendamentos[id := agendamentos[id].(status := status)])
    ensures HorariosOferecidos(agendamentos[id := agendamentos[id].(status := status)])
  {
  }

  /** `cancelarPeloCliente`'s checks on the loaded appointment, in order: the caller must
      own it as client, it must still be AGENDADO, and the whole hours until its start
      (truncated) must be at least one, that is, 60 minutes or more. */
  function DecisaoCancelamentoCliente(a: Agendamento, clienteId: Option<Id>, agora: int): (r: Outcome<Erro>)
    ensures Some(a.usuarioId) != clienteId ==> r == Fail(AcessoNegado)
    ensures Some(a.usuarioId) == clienteId && a.status != Agendado ==> r == Fail(StatusNaoPermite(a.status))
    ensures Some(a.usuarioId) == clienteId && a.status == Agendado && a.horario - agora < MinutesPerHour ==>
              r == Fail(CancelamentoForaDoPrazo)
    ensures r.Pass? <==> Some(a.usuarioId) == clienteId && a.status == Agendado && a.horario - agora >= MinutesPerHour
  {
    HoursBetweenAtLeastOne(agora, a.horario);
    if Some(a.usuarioId) != clienteId then Fail(AcessoNegado)
    else if a.status != Agendado then Fail(StatusNaoPermite(a.status))
    else if HoursBetween(agora, a.horario) < 1 then Fail(CancelamentoForaDoPrazo)
    else Pass
  }

  /** `cancelarPeloBarbeiro`'s checks: the caller must be the appointment's barber, and it
      must still be AGENDADO; there is no notice period. */
  function DecisaoCancelamentoBarbeiro(a: Agendamento, barbeiroId: Option<Id>): (r: Outcome<Erro>)
    ensures Some(a.barbeiroId) != barbeiroId ==> r == Fail(AcessoNegado)
    ensures r.Pass? <==> Some(a.barbeiroId) == barbeiroId && a.status == Agendado
    ensures r.Fail? && Some(a.barbeiroId) == barbeiroId ==> r == Fail(StatusNaoPermite(a.status))
  {
    if Some(a.barbeiroId) != barbeiroId then Fail(AcessoNegado)
    else if a.status != Agendado then Fail(StatusNaoPermite(a.status))
    else Pass
  }

  /** `marcarComoConcluido`'s checks: the caller must be the appointment's barber, it must
      still be AGENDADO, and its start must not be after `agora`. */
  function DecisaoConclusao(a: Agendamento, barbeiroId: Option<Id>, agora: int): (r: Outcome<Erro>)
    ensures Some(a.barbeiroId) != barbeiroId ==> r == Fail(AcessoNegado)
    ensures Some(a.barbeiroId) == barbeiroId && a.status != Agendado ==> r == Fail(StatusNaoPermite(a.status))
    ensures Some(a.barbeiroId) == barbeiroId && a.status == Agendado && a.horario > agora ==> r == Fail(AindaNaoOcorreu)
    ensures r.Pass? <==> Some(a.barbeiroId) == barbeiroId && a.status == Agendado && a.horario <= agora
  {
    if Some(a.barbeiroId) != barbeiroId then Fail(AcessoNegado)
    else if a.status != Agendado then Fail(StatusNaoPermite(a.status))
    else if a.horario > agora then Fail(AindaNaoOcorreu)
    else Pass
  }

  /** CANCELADO and CONCLUIDO are terminal: no caller, at no time, can cancel or complete
      an appointment in either status. */
  lemma EstadosTerminais(a: Agendamento, ator: Option<Id>, agora: int)
    requires a.status != Agendado
    ensures DecisaoCancelamentoCliente(a, ator, agora).Fail?
    ensures DecisaoCancelamentoBarbeiro(a, ator).Fail?
    ensures DecisaoConclusao(a, ator, agora).Fail?
  {
  }

  /** The status changes the service can make: none, or from AGENDADO. */
  predicate PodeSeguir(de: StatusAgendamento, para: StatusAgendamento)
  {
    de == para || de == Agendado
  }

  /** `buscarPorId(id, logado)`: the appointment, for its client, its barber or any
      barber; access denied for everybody else. */
  function BuscarPorId(agendamentos: map<Id, Agendamento>, id: Id, logado: Usuario): (r: Result<Agendamento, Erro>)
    ensures id !in agendamentos ==> r == Failure(AgendamentoNaoEncontrado(id))
    ensures id in agendamentos ==>
              (r.Success? <==> logado.id == Some(agendamentos[id].usuarioId) || logado.id == Some(agendamentos[id].barbeiroId) || logado.tipo == Barbeiro)
    ensures id in agendamentos && r.Failure? ==> r.error == AcessoNegado
    ensures r.Success? ==> id in agendamentos && r.value == agendamentos[id]
  {
    if id !in agendamentos then Failure(AgendamentoNaoEncontrado(id))
    else
      var a := agendamentos[id];
      var isClienteDono := logado.id == Some(a.usuarioId);
      var isBarbeiroDoAgendamento := logado.id == Some(a.barbeiroId);
      var isAdminBarbeiro := AutoridadeBarbeiro in Authorities(logado);
      if !isClienteDono && !isBarbeiroDoAgendamento && !isAdminBarbeiro then Failure(AcessoNegado)
      else Success(a)
  }

  /** A client (a user who is not a barber) sees an appointment by id only when it is
      theirs, as client or as barber. */
  lemma AcessoDeCliente(agendamentos: map<Id, Agendamento>, id: Id, logado: Usuario)
    requires id in agendamentos && logado.tipo == Cliente
    ensures BuscarPorId(agendamentos, id, logado).Success? <==>
              logado.id == Some(agendamentos[id].usuarioId) || logado.id == Some(agendamentos[id].barbeiroId)
  {
  }

  /** What a booking stores its client can read back by id, and finds among their
      appointments. */
  lemma CriadoVisivelAoCliente(agendamentos: map<Id, Agendamento>, a: Agendamento, cliente: Usuario)
    requires cliente.id == Some(a.usuarioId)
    ensures BuscarPorId(agendamentos[a.id := a], a.id, cliente) == Success(a)
    ensures a in ListarMeusAgendamentos(agendamentos[a.id := a], a.usuarioId, None)
  {
    assert a.id in agendamentos[a.id := a];
  }

  /** The conflict scan does not look at status: a CANCELADO appointment keeps its slot
      taken for its barber. */
  lemma CanceladoAindaOcupa(agendamentos: map<Id, Agendamento>, k: Id, inicio: int, tipo: TipoServico)
    requires k in agendamentos && agendamentos[k].status == Cancelado
    requires Conflita(inicio, tipo, agendamentos[k])
    ensures ConflitoNaAgenda(agendamentos, agendamentos[k].barbeiroId, inicio, tipo, None)
  {
  }

  /** Appointments of day `d` whose start lies strictly after its midnight and not after
      its last minute, the strict bounds of the store's `Between`. */
  predicate NoDia(a: Agendamento, d: int)
  {
    StartOfDay(d) < a.horario <= EndOfDay(d)
  }

  /** The day filter keeps the appointments starting on day `d`, except one at midnight
      exactly, which the strict lower bound leaves out. */
  lemma NoDiaSpec(d: int)
    ensures forall a: Agendamento :: NoDia(a, d) <==> Day(a.horario) == d && MinuteOfDay(a.horario) != 0
  {
    forall a: Agendamento
      ensures NoDia(a, d) <==> Day(a.horario) == d && MinuteOfDay(a.horario) != 0
    {
      WithinDay(a.horario, d);
    }
  }

  /** An offered slot is never at midnight, so in a store whose starts are all offered
      slots the strict day bounds lose nothing. */
  lemma {:induction false} SlotNaoEhMeiaNoite(agendamentos: map<Id, Agendamento>)
    requires HorariosOferecidos(agendamentos)
    ensures forall a :: a in agendamentos.Values ==> MinuteOfDay(a.horario) != 0
  {
    forall a | a in agendamentos.Values
      ensures MinuteOfDay(a.horario) != 0
    {
      var k :| k in agendamentos && agendamentos[k] == a;
      assert SlotOferecido(agendamentos[k].horario);
    }
  }

  /** `listarMeusAgendamentos(clienteId, data)`: all of the client's appointments when no
      date is given, else those of that day. */
  function ListarMeusAgendamentos(agendamentos: map<Id, Agendamento>, clienteId: Id, data: Option<int>): (r: set<Agendamento>)
    ensures forall a :: a in r <==>
              a in agendamentos.Values && a.usuarioId == clienteId &&
              (data.Some? ==> Day(a.horario) == data.value && MinuteOfDay(a.horario) != 0)
  {
    if data.None? then
      set k | k in agendamentos && agendamentos[k].usuarioId == clienteId :: agendamentos[k]
    else
      NoDiaSpec(data.value);
      set k | k in agendamentos && agendamentos[k].usuarioId == clienteId && NoDia(agendamentos[k], data.value) :: agendamentos[k]
  }

  /** `listarTodosAgendamentos(data, barbeiroLogado)`: the barber's appointments of the
      given day, or of today when no date is given. */
  function ListarTodosAgendamentos(agendamentos: map<Id, Agendamento>, data: Option<int>, barbeiroLogado: Usuario, agora: int)
    : (r: set<Agendamento>)
    ensures forall a :: a in r <==>
              a in agendamentos.Values && barbeiroLogado.id == Some(a.barbeiroId) &&
              Day(a.horario) == (if data.Some? then data.value else Day(agora)) && MinuteOfDay(a.horario) != 0
  {
    var dataFiltro := if data.Some? then data.value else Day(agora);
    NoDiaSpec(dataFiltro);
    set k | k in agendamentos && barbeiroLogado.id == Some(agendamentos[k].barbeiroId) && NoDia(agendamentos[k], dataFiltro)
      :: agendamentos[k]
  }

  /** In a store whose starts are offered slots, a dated `listarMeusAgendamentos` is
      exactly the client's appointments of that day. */
  lemma ListarMeusNoDia(agendamentos: map<Id, Agendamento>, clienteId: Id, d: int)
    requires HorariosOferecidos(agendamentos)
    ensures forall a :: a in ListarMeusAgendamentos(agendamentos, clienteId, Some(d)) <==>
              a in agendamentos.Values && a.usuarioId == clienteId && Day(a.horario) == d
  {
    SlotNaoEhMeiaNoite(agendamentos);
  }

  /** In a store whose starts are offered slots, `listarTodosAgendamentos` is exactly the
      barber's appointments of the chosen day, today when no date is given. */
  lemma ListarTodosNoDia(agendamentos: map<Id, Agendamento>, data: Option<int>, barbeiroLogado: Usuario, agora: int)
    requires HorariosOferecidos(agendamentos)
    ensures forall a :: a in ListarTodosAgendamentos(agendamentos, data, barbeiroLogado, agora) <==>
              a in agendamentos.Values && barbeiroLogado.id == Some(a.barbeiroId) &&
              Day(a.horario) == (if data.Some? then data.value else Day(agora))
  {
    SlotNaoEhMeiaNoite(agendamentos);
  }

  class AgendamentoServico {
    /** The appointment store (`AgendamentoRepository`), by id. */
    var agendamentos: map<Id, Agendamento>

    ghost predicate Valid()
      reads this
    {
      IdsConsistentes(agendamentos) && SemSobreposicao(agendamentos) && HorariosOferecidos(agendamentos)
    }

    constructor ()
      ensures Valid() && agendamentos == map[]
    {
      agendamentos := map[];
    }

    /** `criarAgendamento(req, cliente)`: validates, scans for conflicts and stores a new
        AGENDADO appointment under the store's generated id `idGerado`, with the client's
        and the barber's names copied in. The confirmation email is best-effort and
        cannot affect the booking, so it is not modelled. */
    method CriarAgendamento(req: AgendamentoRequest, cliente: Usuario, usuarios: seq<Usuario>, agora: int, idGerado: Id)
      returns (r: Result<Agendamento, Erro>)
      requires Valid()
      requires cliente.id.Some?
      requires idGerado !in agendamentos
      modifies this
      ensures Valid()
      ensures Verificar(old(agendamentos), usuarios, req, agora, None).Failure? ==>
                r == Failure(Verificar(old(agendamentos), usuarios, req, agora, None).error) && agendamentos == old(agendamentos)
      ensures Verificar(old(agendamentos), usuarios, req, agora, None).Success? ==>
                var barbeiro := Verificar(old(agendamentos), usuarios, req, agora, None).value;
                var novo := Agendamento(idGerado, cliente.id.value, req.barbeiroId, cliente.nome, barbeiro.nome,
                                        req.tipoServico, req.horario, Agendado);
                r == Success(novo) && agendamentos == old(agendamentos)[idGerado := novo]
    {
      var validacao := ValidarHorario(req.horario, agora);
      if validacao.Fail? {
        return Failure(validacao.error);
      }
      var barbeiro := UsuarioService.Encontrar(usuarios, UsuarioService.PorId(req.barbeiroId));
      if barbeiro.None? {
        return Failure(BarbeiroNaoEncontrado);
      }
      if barbeiro.value.tipo != Barbeiro {
        return Failure(NaoEhBarbeiro);
      }
      var proximos := Proximos(agendamentos, req.barbeiroId, req.horario);
      var conflito := VerificarConflito(proximos, req.horario, req.tipoServico, None);
      if conflito {
        return Failure(HorarioOcupado);
      }
      var novo := Agendamento(idGerado, cliente.id.value, req.barbeiroId, cliente.nome, barbeiro.value.nome,
                              req.tipoServico, req.horario, Agendado);
      JanelaSuficiente(agendamentos, req.barbeiroId, req.horario, req.tipoServico, None);
      GravarPreservaSemSobreposicao(agendamentos, novo);
      agendamentos := agendamentos[idGerado := novo];
      r := Success(novo);
    }

    /** `atualizarAgendamento(id, req, clienteLogado)`: the owning client moves the
        appointment to a new barber, service and time. The same checks as a booking run,
        the scan skipping the appointment itself; only the barber, the barber's name,
        the service and the time change, whatever the status. */
    method AtualizarAgendamento(id: Id, req: AgendamentoRequest, clienteLogado: Usuario, usuarios: seq<Usuario>, agora: int)
      returns (r: Result<Agendamento, Erro>)
      requires Valid()
      modifies this
      ensures Valid()
      ensures r.Failure? ==> agendamentos == old(agendamentos)
      ensures id !in old(agendamentos) ==> r == Failure(AgendamentoNaoEncontrado(id))
      ensures id in old(agendamentos) && clienteLogado.id != Some(old(agendamentos)[id].usuarioId) ==> r == Failure(AcessoNegado)
      ensures id in old(agendamentos) && clienteLogado.id == Some(old(agendamentos)[id].usuarioId) ==>
                match Verificar(old(agendamentos), usuarios, req, agora, Some(id))
                case Failure(e) => r == Failure(e)
                case Success(barbeiro) =>
                  var atualizado := old(agendamentos)[id].(barbeiroId := req.barbeiroId, nomeBarbeiro := barbeiro.nome,
                                                         tipoServico := req.tipoServico, horario := req.horario);
                  r == Success(atualizado) && agendamentos == old(agendamentos)[id := atualizado]
    {
      if id !in agendamentos {
        return Failure(AgendamentoNaoEncontrado(id));
      }
      var existente := agendamentos[id];
      if clienteLogado.id != Some(existente.usuarioId) {
        return Failure(AcessoNegado);
      }
      var validacao := ValidarHorario(req.horario, agora);
      if validacao.Fail? {
        return Failure(validacao.error);
      }
      var barbeiro := UsuarioService.Encontrar(usuarios, UsuarioService.PorId(req.barbeiroId));
      if barbeiro.None? {
        return Failure(BarbeiroNaoEncontrado);
      }
      if barbeiro.value.tipo != Barbeiro {
        return Failure(NaoEhBarbeiro);
      }
      var proximos := Proximos(agendamentos, req.barbeiroId, req.horario);
      var conflito := VerificarConflito(proximos, req.horario, req.tipoServico, Some(id));
      if conflito {
        return Failure(HorarioOcupado);
      }
      var atualizado := existente.(barbeiroId := req.barbeiroId, nomeBarbeiro := barbeiro.value.nome,
                                   tipoServico := req.tipoServico, horario := req.horario);
      JanelaSuficiente(agendamentos, req.barbeiroId, req.horario, req.tipoServico, Some(id));
      GravarPreservaSemSobreposicao(agendamentos, atualizado);
      agendamentos := agendamentos[id := atualizado];
      r := Success(atualizado);
    }

    /** `cancelarPeloCliente(id, clienteLogado)`: sets the status to CANCELADO when
        `DecisaoCancelamentoCliente` allows it; nothing else changes. */
    method CancelarPeloCliente(id: Id, clienteLogado: Usuario, agora: int) returns (r: Outcome<Erro>)
      requires Valid()
      modifies this
      ensures Valid()
      ensures id !in old(agendamentos) ==> r == Fail(AgendamentoNaoEncontrado(id))
      ensures id in old(agendamentos) ==> r == DecisaoCancelamentoCliente(old(agendamentos)[id], clienteLogado.id, agora)
      ensures r.Fail? ==> agendamentos == old(agendamentos)
      ensures r.Pass? ==> agendamentos == old(agendamentos)[id := old(agendamentos)[id].(status := Cancelado)]
      ensures forall k :: k in old(agendamentos) ==> k in agendamentos && PodeSeguir(old(agendamentos)[k].status, agendamentos[k].status)
    {
      if id !in agendamentos {
        return Fail(AgendamentoNaoEncontrado(id));
      }
      r := DecisaoCancelamentoCliente(agendamentos[id], clienteLogado.id, agora);
      if r.Pass? {
        MudarStatusPreserva(agendamentos, id, Cancelado);
        agendamentos := agendamentos[id := agendamentos[id].(status := Cancelado)];
      }
    }

    /** `cancelarPeloBarbeiro(id, barbeiroLogado)`: sets the status to CANCELADO when
        `DecisaoCancelamentoBarbeiro` allows it; nothing else changes. */
    method CancelarPeloBarbeiro(id: Id, barbeiroLogado: Usuario) returns (r: Outcome<Erro>)
      requires Valid()
      modifies this
      ensures Valid()
      ensures id !in old(agendamentos) ==> r == Fail(AgendamentoNaoEncontrado(id))
      ensures id in old(agendamentos) ==> r == DecisaoCancelamentoBarbeiro(old(agendamentos)[id], barbeiroLogado.id)
      ensures r.Fail? ==> agendamentos == old(agendamentos)
      ensures r.Pass? ==> agendamentos == old(agendamentos)[id := old(agendamentos)[id].(status := Cancelado)]
      ensures forall k :: k in old(agendamentos) ==> k in agendamentos && PodeSeguir(old(agendamentos)[k].status, agendamentos[k].status)
    {
      if id !in agendamentos {
        return Fail(AgendamentoNaoEncontrado(id));
      }
      r := DecisaoCancelamentoBarbeiro(agendamentos[id], barbeiroLogado.id);
      if r.Pass? {
        MudarStatusPreserva(agendamentos, id, Cancelado);
        agendamentos := agendamentos[id := agendamentos[id].(status := Cancelado)];
      }
    }

    /** `marcarComoConcluido(id, barbeiroLogado)`: sets the status to CONCLUIDO when
        `DecisaoConclusao` allows it; nothing else changes. */
    method MarcarComoConcluido(id: Id, barbeiroLogado: Usuario, agora: int) returns (r: Outcome<Erro>)
      requires Valid()
      modifies this
      ensures Valid()
      ensures id !in old(agendamentos) ==> r == Fail(AgendamentoNaoEncontrado(id))
      ensures id in old(agendamentos) ==> r == DecisaoConclusao(old(agendamentos)[id], barbeiroLogado.id, agora)
      ensures r.Fail? ==> agendamentos == old(agendamentos)
      ensures r.Pass? ==> agendamentos == old(agendamentos)[id := old(agendamentos)[id].(status := Concluido)]
      ensures forall k :: k in old(agendamentos) ==> k in agendamentos && PodeSeguir(old(agendamentos)[k].status, agendamentos[k].status)
    {
      if id !in agendamentos {
        return Fail(AgendamentoNaoEncontrado(id));
      }
      r := DecisaoConclusao(agendamentos[id], barbeiroLogado.id, agora);
      if r.Pass? {
        MudarStatusPreserva(agendamentos, id, Concluido);
        agendamentos := agendamentos[id := agendamentos[id].(status := Concluido)];
      }
    }
  }
}
