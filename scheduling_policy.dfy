/**
 * The pure scheduling rules of `AgendamentoService`: how long each service takes,
 * which start times may be booked, and when two appointments overlap.
 */
module SchedulingPolicy {
  import opened Wrappers
  import opened Clock
  import opened Entities
  import opened Errors

  /** Opening and closing time of day, in minutes since midnight (09:00 and 18:00). */
  const Abertura: int := 9 * MinutesPerHour
  const Fechamento: int := 18 * MinutesPerHour

  /** The longest service, in minutes. */
  const DuracaoMaxima: int := 60

  /** Half-width of the window of existing appointments fetched for the conflict scan
      (`minusHours(2)` / `plusHours(2)`). */
  const JanelaBusca: int := 2 * MinutesPerHour

  /** `getDuracaoPorTipo`: a cut or a beard takes half an hour, both together take the
      longest, a full hour. */
  function DuracaoPorTipo(tipo: TipoServico): (d: int)
    ensures 0 < d <= DuracaoMaxima
    ensures d == DuracaoMaxima <==> tipo == CorteEBarba
    ensures d == 30 <==> tipo != CorteEBarba
  {
    match tipo
    case Corte => 30
    case Barba => 30
    case CorteEBarba => 60
  }

  /** The slots the shop offers, defined independently of the checks below: a day other
      than Sunday, at one of the nineteen half-hour marks 09:00, 09:30, ..., 18:00. */
  ghost predicate SlotOferecido(h: int)
  {
    Weekday(h) != Sunday && exists k :: 0 <= k <= 18 && MinuteOfDay(h) == Abertura + 30 * k
  }

  /** The checks create and reschedule run on a start time `h`, in order, each with its
      own error: not before `agora` (`agora` itself passes), not on a Sunday, a time of
      day from 09:00 through 18:00 inclusive, and on the hour or the half hour. */
  function ValidarHorario(h: int, agora: int): (r: Outcome<Erro>)
    ensures h < agora ==> r == Fail(HorarioNoPassado)
    ensures agora <= h && Weekday(h) == Sunday ==> r == Fail(Domingo)
    ensures agora <= h && Weekday(h) != Sunday && (MinuteOfDay(h) < Abertura || MinuteOfDay(h) > Fechamento) ==>
              r == Fail(ForaDoExpediente)
    ensures (agora <= h && Weekday(h) != Sunday && Abertura <= MinuteOfDay(h) <= Fechamento &&
             MinuteOfHour(h) != 0 && MinuteOfHour(h) != 30) ==> r == Fail(IntervaloInvalido)
    ensures r.Pass? <==> agora <= h && SlotOferecido(h)
  {
    var resultado :=
      if h < agora then Fail(HorarioNoPassado)
      else if Weekday(h) == Sunday then Fail(Domingo)
      else if MinuteOfDay(h) < Abertura || MinuteOfDay(h) > Fechamento then Fail(ForaDoExpediente)
      else if MinuteOfHour(h) != 0 && MinuteOfHour(h) != 30 then Fail(IntervaloInvalido)
      else Pass;
    SlotGrid(h);
    resultado
  }

  /** The checks on time of day and minute accept exactly the half-hour marks from
      09:00 through 18:00. */
  lemma SlotGrid(h: int)
    ensures (Abertura <= MinuteOfDay(h) <= Fechamento && (MinuteOfHour(h) == 0 || MinuteOfHour(h) == 30))
            <==> exists k :: 0 <= k <= 18 && MinuteOfDay(h) == Abertura + 30 * k
  {
    var m := MinuteOfDay(h);
    if Abertura <= m <= Fechamento && (MinuteOfHour(h) == 0 || MinuteOfHour(h) == 30) {
      var k := (m - Abertura) / 30;
      assert m == Abertura + 30 * k;
    }
    if exists k :: 0 <= k <= 18 && m == Abertura + 30 * k {
      var k :| 0 <= k <= 18 && m == Abertura + 30 * k;
      assert m == (9 + k / 2) * MinutesPerHour + 30 * (k % 2);
    }
  }

  /** The boundaries of the business-hours check: 09:00 and 18:00 are accepted, 08:30
      and 18:30 are not, on any day but Sunday and at any time not in the past. */
  lemma HorarioBoundaries(dia: int, agora: int)
    requires dia % 7 != Sunday
    requires agora <= StartOfDay(dia)
    ensures ValidarHorario(StartOfDay(dia) + Abertura, agora) == Pass
    ensures ValidarHorario(StartOfDay(dia) + Fechamento, agora) == Pass
    ensures ValidarHorario(StartOfDay(dia) + Abertura - 30, agora) == Fail(ForaDoExpediente)
    ensures ValidarHorario(StartOfDay(dia) + Fechamento + 30, agora) == Fail(ForaDoExpediente)
    ensures ValidarHorario(StartOfDay(dia) + Abertura + 15, agora) == Fail(IntervaloInvalido)
  {
    var s := StartOfDay(dia);
    DayAndMinuteOfDay(s + Abertura, dia, Abertura);
    DayAndMinuteOfDay(s + Fechamento, dia, Fechamento);
    DayAndMinuteOfDay(s + Abertura - 30, dia, Abertura - 30);
    DayAndMinuteOfDay(s + Fechamento + 30, dia, Fechamento + 30);
    DayAndMinuteOfDay(s + Abertura + 15, dia, Abertura + 15);
  }

  /** Sunday is refused at every minute of the day, before the hours are looked at:
      even 09:00, an offered time on any other day, fails with the Sunday error, and
      09:00 two days later passes. Day 6 is the first Sunday, so the rule is not vacuous. */
  lemma DomingoRecusado(dia: int, agora: int)
    requires dia % 7 == Sunday
    requires agora <= StartOfDay(dia)
    ensures ValidarHorario(StartOfDay(dia) + Abertura, agora) == Fail(Domingo)
    ensures forall h :: Day(h) == dia ==> ValidarHorario(h, agora) == Fail(Domingo)
    ensures ValidarHorario(StartOfDay(dia) + Abertura + 2 * MinutesPerDay, agora) == Pass
  {
    var s := StartOfDay(dia);
    DayAndMinuteOfDay(s + Abertura, dia, Abertura);
    DayAndMinuteOfDay(s + Abertura + 2 * MinutesPerDay, dia + 2, Abertura);
    SlotGrid(s + Abertura + 2 * MinutesPerDay);
    assert MinuteOfDay(s + Abertura + 2 * MinutesPerDay) == Abertura + 30 * 0;
    forall h | Day(h) == dia
      ensures ValidarHorario(h, agora) == Fail(Domingo)
    {
      WeekdaySameDay(h, s);
      DayAndMinuteOfDay(h, dia, MinuteOfDay(h));
    }
  }

  /** The minute `t` lies in the half-open interval `[inicio, fim)`. */
  predicate Ocupa(inicio: int, fim: int, t: int)
  {
    inicio <= t < fim
  }

  /** The overlap test `inicioA.isBefore(fimB) && fimA.isAfter(inicioB)`: for non-empty
      intervals `[inicioA, fimA)` and `[inicioB, fimB)` it holds exactly when some minute
      lies in both. */
  function Sobrepoe(inicioA: int, fimA: int, inicioB: int, fimB: int): (r: bool)
    ensures inicioA < fimA && inicioB < fimB ==>
              (r <==> exists t :: Ocupa(inicioA, fimA, t) && Ocupa(inicioB, fimB, t))
  {
    var comum := if inicioA < inicioB then inicioB else inicioA;
    assert inicioA < fimA && inicioB < fimB && inicioA < fimB && fimA > inicioB ==>
             Ocupa(inicioA, fimA, comum) && Ocupa(inicioB, fimB, comum);
    inicioA < fimB && fimA > inicioB
  }

  /** Back-to-back intervals, one ending as the other starts, do not overlap. */
  lemma EncostadosNaoSobrepoem(a: int, da: int, db: int)
    ensures !Sobrepoe(a, a + da, a + da, a + da + db)
    ensures !Sobrepoe(a + da, a + da + db, a, a + da)
  {
  }

  /** A booking of `tipo` starting at `inicio` overlaps the existing appointment `e`. */
  predicate Conflita(inicio: int, tipo: TipoServico, e: Agendamento)
  {
    Sobrepoe(inicio, inicio + DuracaoPorTipo(tipo), e.horario, e.horario + DuracaoPorTipo(e.tipoServico))
  }

  /** Overlap does not depend on which appointment is the new one. */
  lemma ConflitaSimetrico(a: Agendamento, b: Agendamento)
    ensures Conflita(a.horario, a.tipoServico, b) <==> Conflita(b.horario, b.tipoServico, a)
  {
  }

  /** Every appointment that overlaps a booking at `inicio` starts less than the longest
      duration away from it, well inside the two-hour window of the scan. */
  lemma ConflitoDentroDaJanela(inicio: int, tipo: TipoServico, e: Agendamento)
    requires Conflita(inicio, tipo, e)
    ensures inicio - DuracaoMaxima < e.horario < inicio + DuracaoMaxima
    ensures inicio - JanelaBusca < e.horario < inicio + JanelaBusca
  {
  }

  /** The scenario of a full hour at 10:00: a half-hour booking at 10:15 or 10:30 with
      the same barber overlaps it, one at 11:00 does not, and neither does one at 09:30. */
  lemma ConflitoExemplos(e: Agendamento)
    requires e.tipoServico == CorteEBarba
    ensures Conflita(e.horario + 15, Corte, e)
    ensures Conflita(e.horario + 30, Barba, e)
    ensures !Conflita(e.horario + 60, Corte, e)
    ensures !Conflita(e.horario - 30, Corte, e)
  {
  }

  /** Some appointment in `agendamentos`, other than the one whose id `ignorar` names,
      overlaps a booking of `tipo` at `inicio`. The status of the existing appointment
      plays no part. */
  ghost predicate HaConflito(agendamentos: map<Id, Agendamento>, inicio: int, tipo: TipoServico, ignorar: Option<Id>)
  {
    exists k :: k in agendamentos && ignorar != Some(agendamentos[k].id) && Conflita(inicio, tipo, agendamentos[k])
  }

  /** The conflict scan of create and reschedule: walks the fetched appointments,
      skipping the one being rescheduled, and stops at the first overlap. */
  method VerificarConflito(proximos: map<Id, Agendamento>, inicio: int, tipo: TipoServico, ignorar: Option<Id>)
    returns (conflito: bool)
    ensures conflito <==> HaConflito(proximos, inicio, tipo, ignorar)
  {
    var fim := inicio + DuracaoPorTipo(tipo);
    var restantes := proximos.Keys;
    while restantes != {}
      invariant restantes <= proximos.Keys
      invariant forall k :: k in proximos && k !in restantes && ignorar != Some(proximos[k].id) ==>
                  !Conflita(inicio, tipo, proximos[k])
      decreases restantes
    {
      var k :| k in restantes;
      var existente := proximos[k];
      if ignorar != Some(existente.id) {
        var fimExistente := existente.horario + DuracaoPorTipo(existente.tipoServico);
        if inicio < fimExistente && fim > existente.horario {
          return true;
        }
      }
      restantes := restantes - {k};
    }
    return false;
  }
}
