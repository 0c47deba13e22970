/**
 * The dispatch command (mailing/management/commands/send_mailings.py): select
 * the mailings to send at time `now`, and for each one send the message to
 * every recipient, logging one attempt per recipient and tallying the outcomes.
 *
 * The mail transport is not modelled; what it does for each recipient is an
 * input: one `TransportOutcome` per recipient, in recipient order.
 */
module SendMailings {
  import opened Models

  /** What one call of the mail transport did: returned normally, or raised an error with this text. */
  datatype TransportOutcome = Delivered | Raised(text: string)

  /** The arguments of one transport call: subject, body, sender and the one-element recipient list. */
  datatype Envelope = Envelope(subject: string, body: string, fromEmail: string, recipientList: seq<string>)

  /** The server response recorded for every successful send. */
  const SuccessResponse: string := "Письмо успешно отправлено"

  /**
   * The attempt row logged for one recipient of mailing `mailingId`: a success
   * with the fixed confirmation text when the transport returned, a failure
   * carrying the error's text when it raised.
   */
  function AttemptFor(mailingId: nat, outcome: TransportOutcome): (a: MailingAttempt)
    ensures a.mailing == mailingId
    ensures a.status == Success <==> outcome.Delivered?
    ensures a.serverResponse == if outcome.Delivered? then SuccessResponse else outcome.text
  {
    match outcome
    case Delivered => MailingAttempt(mailingId, Success, SuccessResponse)
    case Raised(text) => MailingAttempt(mailingId, Failure, text)
  }

  /**
   * The attempt rows a send of mailing `mailingId` logs, given the transport's
   * outcome for each recipient: one per recipient, the i-th for the i-th.
   */
  function AttemptsFor(mailingId: nat, outcomes: seq<TransportOutcome>): (r: seq<MailingAttempt>)
    ensures |r| == |outcomes|
    ensures forall i :: 0 <= i < |r| ==> r[i] == AttemptFor(mailingId, outcomes[i])
  {
    if |outcomes| == 0 then []
    else AttemptsFor(mailingId, outcomes[..|outcomes| - 1]) + [AttemptFor(mailingId, outcomes[|outcomes| - 1])]
  }

  /** The number of rows of `log` with status `st`. */
  function CountStatus(log: seq<MailingAttempt>, st: AttemptStatus): (n: nat)
    ensures n <= |log|
  {
    if |log| == 0 then 0
    else CountStatus(log[..|log| - 1], st) + (if log[|log| - 1].status == st then 1 else 0)
  }

  /** Every logged attempt is a success or a failure, so the two tallies together cover the log. */
  lemma {:induction false} TalliesCoverLog(log: seq<MailingAttempt>)
    ensures CountStatus(log, Success) + CountStatus(log, Failure) == |log|
  {
    if log != [] {
      TalliesCoverLog(log[..|log| - 1]);
    }
  }

  /** Logging one more recipient extends the log of the earlier ones by that recipient's row. */
  lemma AttemptsStep(mailingId: nat, outcomes: seq<TransportOutcome>, i: nat)
    requires i < |outcomes|
    ensures AttemptsFor(mailingId, outcomes[..i + 1]) == AttemptsFor(mailingId, outcomes[..i]) + [AttemptFor(mailingId, outcomes[i])]
  {
    assert outcomes[..i + 1][..i] == outcomes[..i];
  }

  /** The number of transport calls that returned without raising. */
  function CountDelivered(outcomes: seq<TransportOutcome>): (n: nat)
    ensures n <= |outcomes|
  {
    if |outcomes| == 0 then 0
    else CountDelivered(outcomes[..|outcomes| - 1]) + (if outcomes[|outcomes| - 1].Delivered? then 1 else 0)
  }

  /** One more recipient adds one to the count exactly when its transport call returned. */
  lemma DeliveredStep(outcomes: seq<TransportOutcome>, i: nat)
    requires i < |outcomes|
    ensures CountDelivered(outcomes[..i + 1]) == CountDelivered(outcomes[..i]) + (if outcomes[i].Delivered? then 1 else 0)
  {
    assert outcomes[..i + 1][..i] == outcomes[..i];
  }

  /** The success rows logged for a mailing number exactly the transport calls that returned. */
  lemma {:induction false} SuccessesAreDeliveries(mailingId: nat, outcomes: seq<TransportOutcome>)
    ensures CountStatus(AttemptsFor(mailingId, outcomes), Success) == CountDelivered(outcomes)
    ensures CountStatus(AttemptsFor(mailingId, outcomes), Failure) == |outcomes| - CountDelivered(outcomes)
  {
    var log := AttemptsFor(mailingId, outcomes);
    if outcomes != [] {
      var prefix := outcomes[..|outcomes| - 1];
      SuccessesAreDeliveries(mailingId, prefix);
      assert log[..|log| - 1] == AttemptsFor(mailingId, prefix);
    }
    TalliesCoverLog(log);
  }

  /** The transport call for one recipient: the mailing's subject and body, from the sender, to that one address. */
  function EnvelopeFor(message: Message, fromEmail: string, client: Client): (e: Envelope)
    ensures e.subject == message.subject && e.body == message.body
    ensures e.fromEmail == fromEmail && e.recipientList == [client.email]
  {
    Envelope(message.subject, message.body, fromEmail, [client.email])
  }

  /** The transport calls for a mailing: one per recipient, in recipient order. */
  function EnvelopesFor(message: Message, fromEmail: string, recipients: seq<Client>): (r: seq<Envelope>)
    ensures |r| == |recipients|
    ensures forall k :: 0 <= k < |r| ==> r[k] == EnvelopeFor(message, fromEmail, recipients[k])
  {
    seq(|recipients|, k requires 0 <= k < |recipients| => EnvelopeFor(message, fromEmail, recipients[k]))
  }

  /** Regrouping a concatenation of three sequences. */
  lemma AppendAssoc<T>(a: seq<T>, b: seq<T>, c: seq<T>)
    ensures a + b + c == a + (b + c)
  {
  }

  /** The attempt log: the rows are only ever appended to. */
  class AttemptStore {
    var rows: seq<MailingAttempt>

    constructor ()
      ensures rows == []
    {
      rows := [];
    }

    /** Adds one row at the end; earlier rows are left as they were. */
    method Create(attempt: MailingAttempt)
      modifies this
      ensures rows == old(rows) + [attempt]
    {
      rows := rows + [attempt];
    }
  }

  /**
   * One pass of the send loop: the transport either returns, and a success
   * row is logged, or raises, and a failure row carrying the error's text is
   * logged instead. Either way exactly one row is added.
   */
  method SendToRecipient(mailingId: nat, outcome: TransportOutcome, store: AttemptStore) returns (delivered: bool)
    modifies store
    ensures store.rows == old(store.rows) + [AttemptFor(mailingId, outcome)]
    ensures delivered <==> outcome.Delivered?
  {
    match outcome {
      case Delivered =>
        store.Create(MailingAttempt(mailingId, Success, SuccessResponse));
        delivered := true;
      case Raised(text) =>
        store.Create(MailingAttempt(mailingId, Failure, text));
        delivered := false;
    }
  }

  /** Appending the envelope for recipient `i` extends the envelopes for recipients before `i` by one. */
  lemma EnvelopesStep(calls: seq<Envelope>, message: Message, fromEmail: string, recipients: seq<Client>, i: nat)
    requires |calls| == i < |recipients|
    requires forall k :: 0 <= k < i ==> calls[k] == EnvelopeFor(message, fromEmail, recipients[k])
    ensures forall k :: 0 <= k <= i ==>
              (calls + [EnvelopeFor(message, fromEmail, recipients[i])])[k] == EnvelopeFor(message, fromEmail, recipients[k])
  {
  }

  /**
   * Sends `mailing` to each of its recipients in turn. `outcomes[i]` is what
   * the transport does for the i-th recipient. A failure is logged and
   * counted, and the loop goes on to the next recipient.
   */
  method SendMailing(mailing: Mailing, fromEmail: string, outcomes: seq<TransportOutcome>, store: AttemptStore)
    returns (calls: seq<Envelope>, sentCount: nat, errorCount: nat)
    requires |outcomes| == |mailing.recipients|
    modifies store
    ensures calls == EnvelopesFor(mailing.message, fromEmail, mailing.recipients)
    ensures store.rows == old(store.rows) + AttemptsFor(mailing.id, outcomes)
    ensures sentCount == CountStatus(AttemptsFor(mailing.id, outcomes), Success)
    ensures errorCount == CountStatus(AttemptsFor(mailing.id, outcomes), Failure)
    ensures sentCount == CountDelivered(outcomes)
    ensures sentCount + errorCount == |mailing.recipients|
  {
    var id, message, recipients := mailing.id, mailing.message, mailing.recipients;
    calls := [];
    var sent, errors := 0, 0;
    var i := 0;
    while i < |recipients|
      invariant 0 <= i <= |recipients|
      invariant |calls| == i
      invariant forall k :: 0 <= k < i ==> calls[k] == EnvelopeFor(message, fromEmail, recipients[k])
      invariant store.rows == old(store.rows) + AttemptsFor(id, outcomes[..i])
      invariant sent == CountDelivered(outcomes[..i])
      invariant sent + errors == i
    {
      EnvelopesStep(calls, message, fromEmail, recipients, i);
      calls := calls + [EnvelopeFor(message, fromEmail, recipients[i])];
      AttemptsStep(id, outcomes, i);
      AppendAssoc(old(store.rows), AttemptsFor(id, outcomes[..i]), [AttemptFor(id, outcomes[i])]);
      DeliveredStep(outcomes, i);
      var delivered := SendToRecipient(id, outcomes[i], store);
      if delivered {
        sent := sent + 1;
      } else {
        errors := errors + 1;
      }
      i := i + 1;
    }
    assert calls == EnvelopesFor(message, fromEmail, recipients);
    assert outcomes[..i] == outcomes;
    SuccessesAreDeliveries(id, outcomes);
    sentCount, errorCount := sent, errors;
  }

  /** The selection made by the command: inside the window, active, and stored status 'started'. */
  predicate IsEligible(m: Mailing, now: Timestamp)
    reads m
  {
    m.startTime <= now <= m.endTime && m.isActive && m.status == Started
  }

  /**
   * The mailings of `ms` selected for sending at `now`, in their original
   * order; a mailing is selected no more often than it occurs in `ms`.
   */
  function Eligible(ms: seq<Mailing>, now: Timestamp): (r: seq<Mailing>)
    reads set m | m in ms
    ensures |r| <= |ms|
    ensures multiset(r) <= multiset(ms)
    ensures forall m :: m in r ==> m in ms && IsEligible(m, now)
    ensures forall m :: m in ms && IsEligible(m, now) ==> m in r
  {
    if |ms| == 0 then []
    else
      var rest := Eligible(ms[..|ms| - 1], now);
      var last := ms[|ms| - 1];
      assert forall m :: m in ms ==> m in ms[..|ms| - 1] || m == last;
      assert ms == ms[..|ms| - 1] + [last];
      if IsEligible(last, now) then rest + [last] else rest
  }

  /**
   * The stored status decides: a mailing inside its window and active is
   * selected exactly when its stored status is 'started', although its
   * derived status is 'started' in any case. The command never refreshes the
   * stored status.
   */
  lemma CachedStatusDecides(m: Mailing, now: Timestamp)
    requires m.startTime <= now <= m.endTime && m.isActive
    ensures DeriveStatus(now, m.startTime, m.endTime) == Started
    ensures IsEligible(m, now) <==> m.status == Started
  {
  }

  /**
   * A mailing whose stored status is still the initial 'created' is never
   * selected, at any time and whatever its window.
   */
  lemma CreatedNeverSelected(ms: seq<Mailing>, m: Mailing, now: Timestamp)
    requires m.status == Created
    ensures m !in Eligible(ms, now)
  {
  }

  /** When the stored status is fresh, selection is exactly "inside the window and active". */
  lemma EligibleWhenFresh(m: Mailing, now: Timestamp)
    requires m.status == DeriveStatus(now, m.startTime, m.endTime)
    ensures IsEligible(m, now) <==> m.startTime <= now <= m.endTime && m.isActive
  {
  }

  /**
   * Everything the command appends to the attempt log when it sends the
   * mailings `sent` in order; `transport[k]` holds the outcomes for the
   * recipients of `sent[k]`.
   */
  function DispatchLog(sent: seq<Mailing>, transport: seq<seq<TransportOutcome>>): (r: seq<MailingAttempt>)
    requires |transport| == |sent|
  {
    if |sent| == 0 then []
    else
      var n := |sent| - 1;
      DispatchLog(sent[..n], transport[..n]) + AttemptsFor(sent[n].id, transport[n])
  }

  /** Sending one more mailing appends its attempts to what the earlier ones logged. */
  lemma DispatchLogStep(sent: seq<Mailing>, transport: seq<seq<TransportOutcome>>, k: nat)
    requires |transport| == |sent| && k < |sent|
    ensures DispatchLog(sent[..k + 1], transport[..k + 1])
            == DispatchLog(sent[..k], transport[..k]) + AttemptsFor(sent[k].id, transport[k])
  {
    assert sent[..k + 1][..k] == sent[..k];
    assert transport[..k + 1][..k] == transport[..k];
  }

  /** The number of recipients of the mailings in `ms`. */
  function TotalRecipients(ms: seq<Mailing>): (n: nat)
  {
    if |ms| == 0 then 0 else TotalRecipients(ms[..|ms| - 1]) + |ms[|ms| - 1].recipients|
  }

  /** A run logs exactly one attempt per recipient of every mailing it sends. */
  lemma {:induction false} DispatchLogSize(sent: seq<Mailing>, transport: seq<seq<TransportOutcome>>)
    requires |transport| == |sent|
    requires forall k :: 0 <= k < |sent| ==> |transport[k]| == |sent[k].recipients|
    ensures |DispatchLog(sent, transport)| == TotalRecipients(sent)
  {
    if |sent| != 0 {
      var n := |sent| - 1;
      DispatchLogSize(sent[..n], transport[..n]);
    }
  }

  /** The ids of the mailings in `ms`. */
  function Ids(ms: seq<Mailing>): (s: set<nat>)
  {
    set m | m in ms :: m.id
  }

  /** Every row a run logs belongs to one of the mailings it sends. */
  lemma {:induction false} DispatchLogOnlySent(sent: seq<Mailing>, transport: seq<seq<TransportOutcome>>)
    requires |transport| == |sent|
    ensures forall a :: a in DispatchLog(sent, transport) ==> a.mailing in Ids(sent)
  {
    if |sent| != 0 {
      var n := |sent| - 1;
      DispatchLogOnlySent(sent[..n], transport[..n]);
      assert Ids(sent[..n]) <= Ids(sent);
      assert sent[n] in sent;
    }
  }

  /**
   * The loop of the command: send each mailing of `sent` in turn.
   * `transport[k]` is what the transport does for the recipients of `sent[k]`;
   * `calls[k]` are the transport calls made for `sent[k]`.
   */
  method SendAll(sent: seq<Mailing>, fromEmail: string, transport: seq<seq<TransportOutcome>>, store: AttemptStore)
    returns (calls: seq<seq<Envelope>>)
    requires |transport| == |sent|
    requires forall k :: 0 <= k < |sent| ==> |transport[k]| == |sent[k].recipients|
    modifies store
    ensures |calls| == |sent|
    ensures forall k :: 0 <= k < |sent| ==> calls[k] == EnvelopesFor(sent[k].message, fromEmail, sent[k].recipients)
    ensures store.rows == old(store.rows) + DispatchLog(sent, transport)
  {
    calls := [];
    var k := 0;
    while k < |sent|
      invariant 0 <= k <= |sent|
      invariant |calls| == k
      invariant forall j :: 0 <= j < k ==> calls[j] == EnvelopesFor(sent[j].message, fromEmail, sent[j].recipients)
      invariant store.rows == old(store.rows) + DispatchLog(sent[..k], transport[..k])
    {
      var mailing := sent[k];
      DispatchLogStep(sent, transport, k);
      AppendAssoc(old(store.rows), DispatchLog(sent[..k], transport[..k]), AttemptsFor(mailing.id, transport[k]));
      var mailingCalls, _, _ := SendMailing(mailing, fromEmail, transport[k], store);
      calls := calls + [mailingCalls];
      k := k + 1;
    }
    assert sent[..k] == sent;
    assert transport[..k] == transport;
  }

  /**
   * One run of the command at time `now`: select the mailings to send, then
   * send each of them in turn. Mailings that are not selected are skipped
   * without a trace. `transport[k]` is what the transport does for the
   * recipients of the k-th selected mailing, and `calls[k]` the transport
   * calls made for it.
   */
  method Handle(now: Timestamp, mailings: seq<Mailing>, fromEmail: string,
                transport: seq<seq<TransportOutcome>>, store: AttemptStore)
    returns (dispatched: seq<Mailing>, calls: seq<seq<Envelope>>)
    requires |transport| == |Eligible(mailings, now)|
    requires forall k :: 0 <= k < |transport| ==> |transport[k]| == |Eligible(mailings, now)[k].recipients|
    modifies store
    ensures dispatched == old(Eligible(mailings, now))
    ensures |calls| == |dispatched|
    ensures forall k :: 0 <= k < |dispatched| ==>
              calls[k] == EnvelopesFor(dispatched[k].message, fromEmail, dispatched[k].recipients)
    ensures store.rows == old(store.rows) + DispatchLog(dispatched, transport)
  {
    dispatched := Eligible(mailings, now);
    calls := SendAll(dispatched, fromEmail, transport, store);
  }
}
