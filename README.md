# Mailing lifecycle core of a mailing service, in Dafny

This project models the core of a small mailing service. The service keeps clients (recipients), message templates, scheduled mailings and a log of delivery attempts. The model covers three pieces:

- **The mailing lifecycle** (`models.dfy`, module `Models`). A mailing's status is derived from the current time and its window `[start_time, end_time]`. It is `created` before the window, `started` inside it (both ends included) and `completed` after it. `Mailing.UpdateStatus` refreshes the stored `status` field and writes it only when it changes. `Clean` validates a window. It rejects a start that is not before the end first, then a start in the past.
- **The mailing form** (`forms.dfy`, module `Forms`). The form repeats the two window rules and skips them when either time is absent. On success it returns the cleaned data unchanged. When it is built for a user, it restricts the message and recipient choices to that user's records.
- **The dispatch command** (`send_mailings.dfy`, module `SendMailings`). `Handle` selects the mailings that are inside their window, active, and whose *stored* status is `started`. It sends each of them in turn. `SendMailing` calls the transport once per recipient, in order. It appends exactly one attempt row per recipient: a success with a fixed confirmation text, or a failure carrying the error's text. It tallies both counts, and one failure never stops the batch. The attempt log is a class (`AttemptStore`) whose only operation appends.

Time is an integer `now` passed in by the caller. The mail transport is an input: one `TransportOutcome` per recipient, either `Delivered` or `Raised(text)`. The sender address is a parameter.

Two consequences of the code are worth stating:

- The command never calls `update_status`, and no view does either, so selection trusts the stored status. `CachedStatusDecides` and `CreatedNeverSelected` state the consequence: a mailing still in its initial `created` status is never sent.
- The command rejects nothing: a mailing that fails the filter is skipped silently.

## Model

| member | source | states |
|---|---|---|
| `Models.DeriveStatus` | mailing/models.py:77-82 | `created` exactly when `now < start`; `started` exactly when `start <= now <= end` (both ends inclusive); `completed` exactly when `now >= start` and `now > end` |
| `Models.StatusPartitionsTime` | mailing/models.py:77-82 | for a window with `start < end`, the three statuses hold exactly for `now < start`, `start <= now <= end` and `now > end`, so they partition time |
| `Models.StatusMonotone` | mailing/models.py:77-82 | the derived status never moves back (created, started, completed) as `now` increases |
| `Models.Mailing.constructor` | mailing/models.py:52-58 | a new mailing has the given window, message, recipients, owner and active flag, and the default status `created` |
| `Models.Mailing.UpdateStatus` | mailing/models.py:72-86 | afterwards the stored status equals the derived one; it is written (and saved) exactly when the stored value differed; only the `status` field may change |
| `Models.UpdateStatusIsIdempotent` | mailing/models.py:84-86 | refreshing twice at the same `now` never writes on the second call |
| `Models.Clean` | mailing/models.py:88-97 | passes exactly when `start < end` and `start >= now`; fails with the ordering error exactly when `start >= end`; fails with the past-start error exactly when the order is right but `start < now`, so the ordering error takes precedence |
| `Models.CleanWindowNotCompleted` | mailing/models.py:77-97 | a window accepted at `now` is `created` at that moment, or `started` when it opens exactly at `now`; never `completed` |
| `Forms.CleanForm` | mailing/forms.py:41-53 | with either time absent the data is returned unchanged; with both present the ordering error comes exactly when `start >= end` and the past-start error exactly when `start < end` and `start < now`; it accepts and rejects exactly as `Models.Clean`; on success the data is unchanged |
| `Forms.OwnedBy` | mailing/forms.py:28-30 | the result holds exactly the input records owned by the user, each no more often than in the input; when the user owns every record it is the input itself |
| `Forms.InitChoices` | mailing/forms.py:25-30 | with no user both choice lists are unrestricted; with a user they hold exactly the messages and clients owned by that user |
| `SendMailings.AttemptFor` | mailing/management/commands/send_mailings.py:40-53 | the row for one recipient belongs to the mailing; it is a success exactly when the transport returned, with the fixed confirmation text, and otherwise a failure carrying the error's text |
| `SendMailings.AttemptsFor` | mailing/management/commands/send_mailings.py:30-53 | one row per recipient, and the i-th row is the row for the i-th recipient's transport outcome |
| `SendMailings.TalliesCoverLog` | mailing/management/commands/send_mailings.py:27-53 | the success count and the failure count of any attempt log add up to its length |
| `SendMailings.SuccessesAreDeliveries` | mailing/management/commands/send_mailings.py:40-53 | the success rows logged for a mailing number exactly the transport calls that returned without raising, and the failure rows the rest |
| `SendMailings.AttemptStore.Create` | mailing/management/commands/send_mailings.py:40-52 | the log gains exactly the new row at its end; earlier rows are unchanged |
| `SendMailings.SendToRecipient` | mailing/management/commands/send_mailings.py:31-53 | exactly one row is appended, success or failure according to the transport's outcome, and the caller learns which |
| `SendMailings.SendMailing` | mailing/management/commands/send_mailings.py:24-53 | the transport calls are `EnvelopesFor` the mailing: one per recipient in recipient order, each with the message's subject and body, the sender and that recipient's address alone; the log grows by exactly `AttemptsFor` of this mailing and is otherwise unchanged; `sent_count` is the number of success rows appended and of transport calls that returned, `error_count` the number of failure rows; the two sum to the number of recipients |
| `SendMailings.Eligible` | mailing/management/commands/send_mailings.py:12-18 | every selected mailing is in the list, inside its window (inclusive), active and has stored status `started`; every mailing of the list meeting those conditions is selected; no mailing is selected more often than it occurs in the list |
| `SendMailings.CachedStatusDecides` | mailing/management/commands/send_mailings.py:12-18 | for an active mailing inside its window the derived status is `started`, yet selection holds exactly when the stored status is `started` |
| `SendMailings.CreatedNeverSelected` | mailing/management/commands/send_mailings.py:12-18 | a mailing whose stored status is `created` is never selected |
| `SendMailings.EligibleWhenFresh` | mailing/management/commands/send_mailings.py:12-18 | when the stored status equals the derived one, a mailing is selected exactly when it is inside its window and active |
| `SendMailings.DispatchLogSize` | mailing/management/commands/send_mailings.py:20-22 | a run appends exactly one row per recipient of every mailing it sends |
| `SendMailings.DispatchLogOnlySent` | mailing/management/commands/send_mailings.py:20-22 | every row a run appends belongs to one of the mailings it sends |
| `SendMailings.SendAll` | mailing/management/commands/send_mailings.py:20-22 | sending a list of mailings in turn makes, for the k-th mailing, exactly the transport calls `EnvelopesFor` its message, the sender and its recipients; the log gains, in that order, exactly the attempts of each mailing for its recipients; earlier rows are unchanged |
| `SendMailings.Handle` | mailing/management/commands/send_mailings.py:11-22 | the mailings sent are exactly the selected ones, in order, none more often than it occurs in the input; for each of them the run makes exactly the transport calls `EnvelopesFor` its message, the sender and its recipients; the log grows by their attempts in that order and its earlier rows are unchanged |

## Left out

- Views, URL routing, templates, redirects and the per-view owner filters (`mailing/views.py`, `mailing/urls.py`) are not part of this model. The view that claims to start a mailing only shows a notice and sends nothing.
- Which records a user sees is decided in the views and is not modelled. The mailing list and detail views show every mailing to any logged-in user; the mailing edit and delete views and the client and message views filter by owner. No view checks a permission. No view passes a `user` to `MailingForm` either, so in the application as it stands the form's choices are never restricted to the user's records; `Forms.InitChoices` models both branches of the constructor.
- Users, login, registration and the uniqueness of e-mail addresses (`users/`) are not modelled. That uniqueness is a database query.
- The group and permission setup commands are not modelled; they only write to the database.
- Persistence is not modelled: saving, cascading deletes, the automatic `attempt_time` and the newest-first ordering of attempts. The attempt log is kept in append order.
- A database error while writing a log row is not modelled; the model assumes that writes to the log never fail. In the source, if writing the success row raises, that row is never written: the `except` branch writes the only row, a failure carrying the database error's text, and counts it as an error although the mail went out. If that failure write raises too, the exception leaves `send_mailing` and ends the rest of the run.
- The mail transport, the configured sender address and the clock are inputs. `send_mail` becomes one `TransportOutcome` per recipient, `DEFAULT_FROM_EMAIL` becomes the `fromEmail` parameter, and `timezone.now()` becomes `now`. Timestamps are integers; time zones are not modelled.
- Progress messages and the per-mailing summary line written to standard output are not modelled. In the source, `send_mailing` prints its own two tallies and returns nothing, so `handle` never sees a count. In the model `SendMailing` returns the tallies so that its contract can state them, and `SendAll` ignores them.
- The database's order of the selected mailings and of a mailing's recipients is taken to be the order of the input sequences.
- The window, message, recipients, owner and active flag of a `Mailing` are set at construction and never change in the model. In the source they change only through the edit form and views, which are outside this model. `status` is the only field the modelled operations write.
- `Mailing.clean` on a mailing with a missing time is not modelled: the window times of a `Mailing` are always present integers. In the source, a form submitted without a time skips the form's own check (as `Forms.CleanForm` does), and the model form then still calls `Mailing.clean` on the instance. On a new mailing the instance's missing time is `None`, and comparing it with a datetime raises a `TypeError`. On an edited mailing the form leaves a time that is absent from the cleaned data as it was stored, so `Mailing.clean` checks the stored time against the other one and raises no `TypeError`.
- Field-level form validation, which runs before the form's `clean`, is not modelled; `Forms.CleanedData` is its output, which `super().clean()` returns. Python truthiness in `if start_time and end_time` reduces to "both present", because a datetime value is always true.
- The Russian error texts of the two validation errors are represented by the constructors `StartNotBeforeEnd` and `StartInPast`.
- The transport outcomes for a run are indexed by the position of a mailing among the selected ones.
- `SendMailings.Eligible`: its contract states which mailings are selected, not that the selection keeps the order of the list; the definition keeps it, and `Handle` sends in that order.
- `Forms.OwnedBy`: its contract states which records are kept, not that their order is kept; the definition keeps it.
