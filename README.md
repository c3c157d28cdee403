# Barbershop appointment scheduling core, in Dafny

This project models the scheduling core of a barbershop booking service (a Spring
application over MongoDB). Clients book, reschedule and cancel half-hour or
one-hour services with a barber. Barbers view their day, cancel appointments in
their calendar and mark them as done. The model has four parts:

- **Appointment validation.** A start time must not be in the past or on a Sunday. It
  must fall between 09:00 and 18:00 inclusive, on the hour or the half hour. The barber
  must exist and be of type BARBEIRO.
- **Conflict detection.** Each new booking is compared against the barber's existing
  appointments as half-open intervals. The service type sets the length: 30 minutes
  for a cut or a beard, 60 for both. Only appointments that start within two hours
  either side of the new start are fetched.
- **The status machine.** Every appointment starts as AGENDADO and can move once, to
  CANCELADO or CONCLUIDO. Each move has its own owner, role and time checks.
- **The user table.** Email and phone are unique. Users can be created, updated field
  by field and deleted by email. Each user type maps to its granted authorities.

Time is a whole number of minutes (module `Clock`). Minute 0 is a Monday at midnight.
The current time is a parameter of every operation that reads the clock. The
appointment store and the user table are classes. Their fields are a map from id to
appointment and a sequence of users in store order. State-changing operations are
methods on those classes. Each method is specified by the new state it leaves and the
error it returns, and the stores' invariants are preserved:

- no two appointments of one barber overlap;
- every stored appointment starts at a slot the shop offers;
- no two users share an id, an email or a phone.

Read-only queries are functions over the store contents.

Modules:

- `Wrappers`: the Option, Result and Outcome types.
- `Clock`: days, weekdays, minute of day, and whole-hour durations.
- `Entities`: users, appointments, roles and authorities.
- `Errors`: one constructor per exception the service throws.
- `UsuarioUpdate`: the partial-update request and its validation.
- `UsuarioService`: the user table.
- `SchedulingPolicy`: durations, slot validation and overlap.
- `AgendamentoService`: the appointment store and its operations.

## Where the code departs from its stated rules

The model follows the code in each of these cases.

- **Cancelled and completed appointments still block a slot.** The conflict scan does
  not look at status (`AgendamentoService.CanceladoAindaOcupa`). The store invariant
  `SemSobreposicao` is therefore stated over all appointments of a barber.
- **Rescheduling has no status check.** `AtualizarAgendamento` accepts a CANCELADO or
  CONCLUIDO appointment and keeps its status.
- **`Between` queries are strict.** The store's `...HorarioBetween(de, ate)` queries
  exclude both bounds, so a day's listing runs from just after midnight through 23:59.
  This only matters for an appointment at 00:00. The store invariant
  `HorariosOferecidos` keeps every stored start at an offered slot, so no appointment is
  at midnight and the day listings are exactly the appointments of that day
  (`ListarMeusNoDia`, `ListarTodosNoDia`). The
  ±2 hour conflict window stays sufficient (`JanelaSuficiente`).
- **The service accepts a booking that starts exactly at the current time.** Only a
  start strictly before now is refused there. The request's `@Future` constraint
  (src/main/java/com/example/SistemaBarbearia/dto/AgendamentoRequestDTO.java:13) is strict and refuses such a booking in the
  web layer, which is not part of this model.

## Model

| member | source | states |
|---|---|---|
| Clock.Day | src/main/java/com/example/SistemaBarbearia/service/AgendamentoService.java:145 | the date part of a `LocalDateTime` (as `LocalDate.now()` is the date of the current time): the time lies in that day's 1440 minutes |
| Clock.MinuteOfDay | src/main/java/com/example/SistemaBarbearia/service/AgendamentoService.java:44 | `toLocalTime()` is the minute of the day, in 0..1439, and with the day index it recomposes the time |
| Clock.MinuteOfHour | src/main/java/com/example/SistemaBarbearia/service/AgendamentoService.java:54 | `getMinute()` is the minute within the hour, in 0..59, the minute of the day less a whole number of hours |
| Clock.Weekday | src/main/java/com/example/SistemaBarbearia/service/AgendamentoService.java:39 | the day of the week of a time is one of seven values, Sunday being 6; it belongs to the whole day (`WeekdaySameDay`) |
| Clock.WeekdaySameDay | src/main/java/com/example/SistemaBarbearia/service/AgendamentoService.java:39 | every minute of a day has that day's weekday, and two times share a weekday iff their days are a whole number of weeks apart |
| Clock.WeekdayNextDay | src/main/java/com/example/SistemaBarbearia/service/AgendamentoService.java:39 | one day later is the next weekday, Sunday wrapping to Monday |
| Clock.StartOfDay | src/main/java/com/example/SistemaBarbearia/service/AgendamentoService.java:127 | `atStartOfDay` is minute 0 of the given day |
| Clock.EndOfDay | src/main/java/com/example/SistemaBarbearia/service/AgendamentoService.java:128 | `atTime(LocalTime.MAX)` as a whole minute is the last minute, 23:59, of the given day |
| Clock.WithinDay | src/main/java/com/example/SistemaBarbearia/service/AgendamentoService.java:127-130 | a time lies strictly after a day's start and not after its last minute iff it is on that day and not at midnight |
| Clock.HoursBetween | src/main/java/com/example/SistemaBarbearia/service/AgendamentoService.java:263 | `Duration.toHours` is the whole hours between two times, truncated toward zero, bounded on both sides |
| Clock.HoursBetweenAtLeastOne | src/main/java/com/example/SistemaBarbearia/service/AgendamentoService.java:263-265 | at least one whole hour iff at least 60 minutes separate the two times; 59 minutes truncate to 0 |
| Entities.NovoUsuario | src/main/java/com/example/SistemaBarbearia/entity/Usuario.java:39-45 | the five-argument constructor sets nome, email, telefone, senha and tipo and leaves the id unset |
| Entities.Authorities | src/main/java/com/example/SistemaBarbearia/entity/Usuario.java:47-51 | a barber gets exactly [BARBEIRO, CLIENTE] and anyone else exactly [CLIENTE]; CLIENTE is always granted; BARBEIRO is granted iff the type is barber |
| Entities.Username | src/main/java/com/example/SistemaBarbearia/entity/Usuario.java:58-61 | the sign-in name is the email |
| Entities.Password | src/main/java/com/example/SistemaBarbearia/entity/Usuario.java:53-56 | the sign-in password is the stored senha |
| Entities.NovoUsuarioCredentials | src/main/java/com/example/SistemaBarbearia/entity/Usuario.java:39-61 | a constructed user signs in with the email and password passed in, despite the constructor's argument order, and is a barber iff built as one |
| UsuarioUpdate.IsAtLeastOneFieldPresent | src/main/java/com/example/SistemaBarbearia/dto/UsuarioUpdateDTO.java:30-35 | true iff nome, telefone or senha is present and holds a character that is not whitespace |
| UsuarioUpdate.AllNullNotPresent | src/main/java/com/example/SistemaBarbearia/dto/UsuarioUpdateDTO.java:32-34 | a request with all three fields null is refused |
| UsuarioUpdate.WhitespaceOnlyIsAbsent | src/main/java/com/example/SistemaBarbearia/dto/UsuarioUpdateDTO.java:32-34 | a request whose fields are each null or whitespace only is refused |
| UsuarioUpdate.Utf16Length | src/main/java/com/example/SistemaBarbearia/dto/UsuarioUpdateDTO.java:21 | `String.length()` counts UTF-16 code units: one for a character within the Basic Multilingual Plane and two above it; between one and two per character overall |
| UsuarioUpdate.Utf16LengthConcat | src/main/java/com/example/SistemaBarbearia/dto/UsuarioUpdateDTO.java:21 | the length of a concatenation is the sum of the lengths, which with the one-character case fixes the length of every string, mixed text included |
| UsuarioUpdate.SenhaTamanhoValido | src/main/java/com/example/SistemaBarbearia/dto/UsuarioUpdateDTO.java:20-21 | a missing password passes; a supplied one passes iff its UTF-16 length is at least 6 (stated as such): six characters always pass, fewer than three never do, and for text within the Basic Multilingual Plane the bound is exactly six characters |
| UsuarioUpdate.SenhaTamanhoBoundary | src/main/java/com/example/SistemaBarbearia/dto/UsuarioUpdateDTO.java:20-21 | at the boundary: "12345" fails and "123456" passes; three characters above U+FFFF (six code units) pass, two of them and a letter (five) fail; two of them interleaved with two letters (six) pass |
| UsuarioService.Buscar | src/main/java/com/example/SistemaBarbearia/service/UsuarioService.java:28-29 | the finders return the first user in store order matching the id, email or phone, or nothing iff no user matches |
| UsuarioService.Encontrar | src/main/java/com/example/SistemaBarbearia/service/UsuarioService.java:28-29 | a finder's answer is present iff some stored user matches, and it is a stored matching user |
| UsuarioService.BuscarUnico | src/main/java/com/example/SistemaBarbearia/service/UsuarioService.java:28-37 | in a table with unique ids, emails and phones, a finder returns exactly the one user the key names |
| UsuarioService.Save | src/main/java/com/example/SistemaBarbearia/service/UsuarioService.java:39 | saving replaces the user with the same id in place, or appends a user with a new id |
| UsuarioService.SavePreservaUnicidade | src/main/java/com/example/SistemaBarbearia/service/UsuarioService.java:31-39 | saving a user whose email and phone no other user holds keeps ids, emails and phones unique |
| UsuarioService.ListarTodos | src/main/java/com/example/SistemaBarbearia/service/UsuarioService.java:42-47 | one password-free projection per stored user, in store order |
| UsuarioService.BuscarUsuarioPorEmail | src/main/java/com/example/SistemaBarbearia/service/UsuarioService.java:50-54 | not-found with the email iff no user holds it; otherwise the projection of a user holding it |
| UsuarioService.TelefoneDeOutroSpec | src/main/java/com/example/SistemaBarbearia/service/UsuarioService.java:61-66 | the update's phone check refuses exactly a non-blank phone held by a user with another id; the user's own phone passes |
| UsuarioService.AplicarAtualizacao | src/main/java/com/example/SistemaBarbearia/service/UsuarioService.java:67-79 | telefone, nome and senha change only when supplied non-blank; a new senha is stored encoded; id, email and tipo never change |
| UsuarioService.Remover | src/main/java/com/example/SistemaBarbearia/service/UsuarioService.java:120-122 | `delete` of the email's holder: an unknown email leaves the table as it is; otherwise one user fewer, all of them from the table |
| UsuarioService.RemoverSpec | src/main/java/com/example/SistemaBarbearia/service/UsuarioService.java:118-123 | deleting by email removes exactly the user holding it, keeps the others in order, and keeps the table's uniqueness |
| UsuarioService.UsuarioServico.constructor | src/main/java/com/example/SistemaBarbearia/service/UsuarioService.java:21-25 | an empty table, with the password encoder it is given |
| UsuarioService.UsuarioServico.CriarUsuario | src/main/java/com/example/SistemaBarbearia/service/UsuarioService.java:27-40 | a used email is refused first, then a used phone, with no change; otherwise the user is saved (appended when new) and the table stays unique |
| UsuarioService.UsuarioServico.Atualizar | src/main/java/com/example/SistemaBarbearia/service/UsuarioService.java:59-83 | the shared update: a phone held by another user fails with no change; otherwise only the target's record changes, by the supplied fields |
| UsuarioService.UsuarioServico.AtualizarMeuPerfil | src/main/java/com/example/SistemaBarbearia/service/UsuarioService.java:59-83 | the signed-in user's record is updated by the supplied fields, unless another user holds the new phone; uniqueness is kept |
| UsuarioService.UsuarioServico.AtualizarUsuarioPeloBarbeiro | src/main/java/com/example/SistemaBarbearia/service/UsuarioService.java:88-115 | an unknown id is not-found with no change; otherwise the same update as the profile path, on the user with that id |
| UsuarioService.UsuarioServico.ExcluirUsuarioPorEmail | src/main/java/com/example/SistemaBarbearia/service/UsuarioService.java:118-123 | an unknown email is not-found with no change; otherwise exactly that user is removed |
| SchedulingPolicy.DuracaoPorTipo | src/main/java/com/example/SistemaBarbearia/service/AgendamentoService.java:103-108 | cut and beard take 30 minutes, both together 60, the longest |
| SchedulingPolicy.ValidarHorario | src/main/java/com/example/SistemaBarbearia/service/AgendamentoService.java:33-56 | past, then Sunday, then outside 09:00-18:00, then off the half hour, each with its own error (`HorarioNoPassado`, `Domingo`, `ForaDoExpediente`, `IntervaloInvalido`); passes iff the time is not before now and is one of the nineteen offered slots of a non-Sunday |
| SchedulingPolicy.DomingoRecusado | src/main/java/com/example/SistemaBarbearia/service/AgendamentoService.java:38-41 | on a Sunday (day 6 is the first) every minute fails with the Sunday error, 09:00 included, while 09:00 two days later passes |
| SchedulingPolicy.SlotGrid | src/main/java/com/example/SistemaBarbearia/service/AgendamentoService.java:44-56 | the hours and minute checks together accept exactly the half-hour marks 09:00, 09:30, ..., 18:00 |
| SchedulingPolicy.HorarioBoundaries | src/main/java/com/example/SistemaBarbearia/service/AgendamentoService.java:44-56 | 09:00 and 18:00 pass, 08:30 and 18:30 are outside hours, 09:15 is off the grid |
| SchedulingPolicy.Sobrepoe | src/main/java/com/example/SistemaBarbearia/service/AgendamentoService.java:81 | the overlap test holds, for non-empty intervals, iff the two half-open intervals share a minute |
| SchedulingPolicy.EncostadosNaoSobrepoem | src/main/java/com/example/SistemaBarbearia/service/AgendamentoService.java:81 | back-to-back intervals do not overlap, in either order |
| SchedulingPolicy.ConflitaSimetrico | src/main/java/com/example/SistemaBarbearia/service/AgendamentoService.java:76-84 | a conflict between two appointments does not depend on which one is new |
| SchedulingPolicy.ConflitoDentroDaJanela | src/main/java/com/example/SistemaBarbearia/service/AgendamentoService.java:70-74 | any conflicting appointment starts less than 60 minutes, hence less than 2 hours, from the new start |
| SchedulingPolicy.ConflitoExemplos | src/main/java/com/example/SistemaBarbearia/service/AgendamentoService.java:76-84 | against an hour at 10:00, half-hours at 10:15 and 10:30 conflict; 11:00 and 09:30 do not |
| SchedulingPolicy.VerificarConflito | src/main/java/com/example/SistemaBarbearia/service/AgendamentoService.java:76-84 | the scan reports a conflict iff some fetched appointment, other than the skipped one, overlaps the booking |
| AgendamentoService.Proximos | src/main/java/com/example/SistemaBarbearia/service/AgendamentoService.java:70-74 | the fetch holds only the barber's stored appointments, and every one of them starting less than 60 minutes from the new start |
| AgendamentoService.BuscarPorBarbeiroEHorarioEntre | src/main/java/com/example/SistemaBarbearia/service/AgendamentoService.java:70-74 | the fetch returns exactly the barber's appointments strictly inside the bounds, unchanged |
| AgendamentoService.JanelaSuficiente | src/main/java/com/example/SistemaBarbearia/service/AgendamentoService.java:70-84 | a conflict among the fetched appointments exists iff one exists in the barber's whole calendar |
| AgendamentoService.Verificar | src/main/java/com/example/SistemaBarbearia/service/AgendamentoService.java:33-84 | the checks shared by create and reschedule, in source order, stated against the whole calendar; success iff a valid slot, an existing barber of type BARBEIRO, and no overlap |
| AgendamentoService.GravarPreservaSemSobreposicao | src/main/java/com/example/SistemaBarbearia/service/AgendamentoService.java:87-96 | storing an appointment that overlaps none of its barber's others keeps the calendar free of overlaps |
| AgendamentoService.MudarStatusPreserva | src/main/java/com/example/SistemaBarbearia/service/AgendamentoService.java:269-270 | a status change keeps the calendar's invariants: ids, no overlap, offered starts |
| AgendamentoService.DecisaoCancelamentoCliente | src/main/java/com/example/SistemaBarbearia/service/AgendamentoService.java:251-267 | not the owner, then not AGENDADO, then under an hour's notice, each with its own error; allowed iff owner, AGENDADO and at least 60 minutes ahead |
| AgendamentoService.DecisaoCancelamentoBarbeiro | src/main/java/com/example/SistemaBarbearia/service/AgendamentoService.java:282-289 | not the appointment's barber is access denied; allowed iff its barber and AGENDADO, with no notice period |
| AgendamentoService.DecisaoConclusao | src/main/java/com/example/SistemaBarbearia/service/AgendamentoService.java:305-317 | not its barber, then not AGENDADO, then still in the future; allowed iff its barber, AGENDADO and started |
| AgendamentoService.EstadosTerminais | src/main/java/com/example/SistemaBarbearia/service/AgendamentoService.java:256-258 | CANCELADO and CONCLUIDO appointments can be neither cancelled nor completed, by anyone at any time |
| AgendamentoService.BuscarPorId | src/main/java/com/example/SistemaBarbearia/service/AgendamentoService.java:156-171 | not-found for an unknown id; otherwise the appointment iff the caller is its client, its barber, or holds the BARBEIRO authority, else access denied |
| AgendamentoService.AcessoDeCliente | src/main/java/com/example/SistemaBarbearia/service/AgendamentoService.java:161-166 | a user who is not a barber sees an appointment iff it is theirs |
| AgendamentoService.CriadoVisivelAoCliente | src/main/java/com/example/SistemaBarbearia/service/AgendamentoService.java:96-99 | a stored booking is returned by id to its client and is listed among the client's appointments |
| AgendamentoService.CanceladoAindaOcupa | src/main/java/com/example/SistemaBarbearia/service/AgendamentoService.java:76-84 | an overlapping CANCELADO appointment still makes the slot taken |
| AgendamentoService.NoDiaSpec | src/main/java/com/example/SistemaBarbearia/service/AgendamentoService.java:127-130 | the day filter keeps exactly the appointments of that day, except one at midnight |
| AgendamentoService.ListarMeusAgendamentos | src/main/java/com/example/SistemaBarbearia/service/AgendamentoService.java:118-133 | exactly the client's appointments, restricted to the given day when a date is given |
| AgendamentoService.SlotNaoEhMeiaNoite | src/main/java/com/example/SistemaBarbearia/service/AgendamentoService.java:43-56 | in a store whose starts are offered slots, no appointment starts at midnight |
| AgendamentoService.ListarMeusNoDia | src/main/java/com/example/SistemaBarbearia/service/AgendamentoService.java:126-132 | with every stored start an offered slot, a dated client listing is exactly the client's appointments of that day |
| AgendamentoService.ListarTodosNoDia | src/main/java/com/example/SistemaBarbearia/service/AgendamentoService.java:144-153 | with every stored start an offered slot, the barber listing is exactly the barber's appointments of the chosen day, today by default |
| AgendamentoService.ListarTodosAgendamentos | src/main/java/com/example/SistemaBarbearia/service/AgendamentoService.java:143-154 | exactly the signed-in barber's appointments of the given day, or of today when no date is given |
| AgendamentoService.AgendamentoServico.constructor | src/main/java/com/example/SistemaBarbearia/service/AgendamentoService.java:23-27 | an empty, valid appointment store |
| AgendamentoService.AgendamentoServico.CriarAgendamento | src/main/java/com/example/SistemaBarbearia/service/AgendamentoService.java:29-100 | a failed check returns its error with no change; otherwise exactly one new AGENDADO record is added, with the request's fields and the two names copied, and the store stays free of overlaps with every start an offered slot |
| AgendamentoService.AgendamentoServico.AtualizarAgendamento | src/main/java/com/example/SistemaBarbearia/service/AgendamentoService.java:174-240 | not-found, then not the owning client, then the create checks skipping itself; on success only barber, barber name, service and time change, whatever the status |
| AgendamentoService.AgendamentoServico.CancelarPeloCliente | src/main/java/com/example/SistemaBarbearia/service/AgendamentoService.java:246-271 | not-found, else the client cancellation decision; on success only that status becomes CANCELADO, and no status moves except from AGENDADO |
| AgendamentoService.AgendamentoServico.CancelarPeloBarbeiro | src/main/java/com/example/SistemaBarbearia/service/AgendamentoService.java:277-293 | not-found, else the barber cancellation decision; on success only that status becomes CANCELADO |
| AgendamentoService.AgendamentoServico.MarcarComoConcluido | src/main/java/com/example/SistemaBarbearia/service/AgendamentoService.java:300-321 | not-found, else the completion decision; on success only that status becomes CONCLUIDO |

## Left out

- The clock. `LocalDateTime.now()` and `LocalDate.now()` become the parameter `agora`, in whole minutes. Sub-second and sub-minute precision is dropped. With seconds, 18:00:30 would fail the hours check, and 59.5 minutes of notice would truncate to 0 hours. The model cannot express either case.
- The calendar. Minute 0 is taken to be a Monday. No real dates, time zones or daylight-saving changes are modelled.
- Email notification. The confirmation email after a booking swallows its own failures and cannot affect the booking, so it is not modelled. EmailService is not part of this model.
- The web layer. Controllers, authentication (JWT, the authentication manager), the exception handlers and the `@Valid`/`@Future` request validation are not part of this model. The role gates become callers' obligations. The signed-in user passed to the services is a stored user with an id.
- AgendamentoService.AgendamentoServico.CriarAgendamento: requires the client to have an id and the generated id to be unused. The signed-in client is always a stored user, and the store generates fresh ids.
- UsuarioService.UsuarioServico.AtualizarMeuPerfil: requires the signed-in user to be a record of the table, as loaded by the authentication layer.
- The repositories. They become a map (appointments) and a sequence in store order (users); `save` is an upsert by id. The appointment repository's `findByUsuarioIdAndHorarioBetween` and the user repository's `ativo` queries are not part of this model, nor are the controller's deactivate and reactivate calls. The per-client listing is modelled as the filter its name describes.
- List order. The appointment listings are returned as sets, because the store returns them in an unspecified order.
- Concurrency. The check-then-act race between the conflict scan and the save needs store-level isolation, which is outside a sequential model.
- The password encoder. It is an opaque function fixed when the user service is built. `criarUsuario` stores the password it is given, unencoded: its only caller, src/main/java/com/example/SistemaBarbearia/controller/UsuarioController.java:31-34, passes the request body as it is, and the registration endpoint (src/main/java/com/example/SistemaBarbearia/controller/AuthController.java:46-61) encodes the password and saves the user itself without calling it. The stored password is the encoder's output only on the two update paths (`AplicarAtualizacao`).
- Response DTOs. They are field-for-field copies. The user projection drops the password; appointments are returned as stored.
- AgendamentoUpdateDTO is not part of this model. Its fields (barber id, service type, start time) are inferred from how they are used.
- The legacy skeleton classes in the other packages carry no logic and are not part of this model.
- Java's whitespace test. `String.isBlank` is modelled with the set of characters that `Character.isWhitespace` accepts.
