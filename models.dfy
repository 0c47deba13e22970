/**
 * The entities of the mailing service (mailing/models.py): recipients, messages,
 * mailings and the attempt log, together with the status deriver and the
 * time-window validator of a mailing.
 *
 * Timestamps are integers (ticks of the clock); the current time is always an
 * explicit parameter `now`.
 */
module Models {
  import opened Wrappers

  type UserId = nat
  type Timestamp = int

  /** A recipient of mailings; owned by exactly one user. */
  datatype Client = Client(id: nat, email: string, fullName: string, comment: string, owner: UserId)

  /** A message template (subject and body); owned by exactly one user. */
  datatype Message = Message(id: nat, subject: string, body: string, owner: UserId)

  /** The three lifecycle states of a mailing ('created', 'started', 'completed'). */
  datatype MailingStatus = Created | Started | Completed

  /** The two outcomes recorded in an attempt ('success', 'failure'). */
  datatype AttemptStatus = Success | Failure

  /** One row of the attempt log: which mailing, how it went, what the server said. */
  datatype MailingAttempt = MailingAttempt(mailing: nat, status: AttemptStatus, serverResponse: string)

  /** The two reasons a mailing's time window is rejected. */
  datatype ValidationError =
    | StartNotBeforeEnd   // the start time is not before the end time
    | StartInPast         // the start time lies before the current time

  /** Position of a status in the lifecycle, used to state that time only moves it forward. */
  function Rank(s: MailingStatus): nat
  {
    match s
    case Created => 0
    case Started => 1
    case Completed => 2
  }

  /**
   * The status a mailing with window [startTime, endTime] has at time `now`.
   * Both ends of the window are inclusive and count as started.
   */
  function DeriveStatus(now: Timestamp, startTime: Timestamp, endTime: Timestamp): (s: MailingStatus)
    ensures s == Created <==> now < startTime
    ensures s == Started <==> startTime <= now <= endTime
    ensures s == Completed <==> startTime <= now && endTime < now
  {
    if now < startTime then Created
    else if startTime <= now <= endTime then Started
    else Completed
  }

  /** For a well-formed window every instant falls in exactly one of the three states. */
  lemma StatusPartitionsTime(now: Timestamp, startTime: Timestamp, endTime: Timestamp)
    requires startTime < endTime
    ensures DeriveStatus(now, startTime, endTime) == Created <==> now < startTime
    ensures DeriveStatus(now, startTime, endTime) == Started <==> startTime <= now <= endTime
    ensures DeriveStatus(now, startTime, endTime) == Completed <==> endTime < now
  {
  }

  /** The derived status never goes back as time advances. */
  lemma StatusMonotone(now1: Timestamp, now2: Timestamp, startTime: Timestamp, endTime: Timestamp)
    requires now1 <= now2
    ensures Rank(DeriveStatus(now1, startTime, endTime)) <= Rank(DeriveStatus(now2, startTime, endTime))
  {
  }

  /**
   * The window check of a mailing: the start must come before the end, and
   * (checked second) the start must not lie in the past.
   */
  function Clean(now: Timestamp, startTime: Timestamp, endTime: Timestamp): (r: Outcome<ValidationError>)
    ensures r.Pass? <==> startTime < endTime && now <= startTime
    ensures r == Fail(StartNotBeforeEnd) <==> endTime <= startTime
    ensures r == Fail(StartInPast) <==> startTime < endTime && startTime < now
  {
    if startTime >= endTime then Fail(StartNotBeforeEnd)
    else if startTime < now then Fail(StartInPast)
    else Pass
  }

  /**
   * A window accepted at time `now` has not finished at that time: it is
   * `created`, or `started` when it opens exactly at `now`.
   */
  lemma CleanWindowNotCompleted(now: Timestamp, startTime: Timestamp, endTime: Timestamp)
    requires Clean(now, startTime, endTime).Pass?
    ensures DeriveStatus(now, startTime, endTime) == (if startTime == now then Started else Created)
  {
  }

  /**
   * A scheduled mailing. Its `status` is a stored copy of the derived status
   * and the only field the mailing's own operations write; the other fields
   * are set when the mailing is built.
   */
  class Mailing {
    const id: nat
    const startTime: Timestamp
    const endTime: Timestamp
    var status: MailingStatus
    const message: Message
    const recipients: seq<Client>
    const owner: UserId
    const isActive: bool

    /** A new mailing starts with the default status 'created'. */
    constructor (id: nat, startTime: Timestamp, endTime: Timestamp, message: Message,
                 recipients: seq<Client>, owner: UserId, isActive: bool)
      ensures this.id == id && this.startTime == startTime && this.endTime == endTime
      ensures this.message == message && this.recipients == recipients
      ensures this.owner == owner && this.isActive == isActive
      ensures status == Created
    {
      this.id := id;
      this.startTime := startTime;
      this.endTime := endTime;
      this.status := Created;
      this.message := message;
      this.recipients := recipients;
      this.owner := owner;
      this.isActive := isActive;
    }

    /**
     * Refreshes the stored status from the window and `now`. Only `status` may
     * change; `saved` tells whether it was written (and persisted), which
     * happens exactly when the stored value differed from the derived one.
     */
    method UpdateStatus(now: Timestamp) returns (saved: bool)
      modifies this`status
      ensures status == DeriveStatus(now, startTime, endTime)
      ensures saved <==> old(status) != DeriveStatus(now, startTime, endTime)
      ensures !saved ==> status == old(status)
    {
      var newStatus;
      if now < startTime {
        newStatus := Created;
      } else if startTime <= now <= endTime {
        newStatus := Started;
      } else {
        newStatus := Completed;
      }
      saved := false;
      if status != newStatus {
        status := newStatus;
        saved := true;
      }
    }
  }

  /** Refreshing twice at the same instant writes at most once: the second call is a no-op. */
  method UpdateStatusIsIdempotent(m: Mailing, now: Timestamp) returns (first: bool, second: bool)
    modifies m`status
    ensures m.status == DeriveStatus(now, m.startTime, m.endTime)
    ensures first <==> old(m.status) != m.status
    ensures !second
  {
    first := m.UpdateStatus(now);
    second := m.UpdateStatus(now);
  }
}
