/**
 * The mailing form (mailing/forms.py): which messages and recipients a user may
 * pick, and the form-level check of the time window.
 */
module Forms {
  import opened Wrappers
  import opened Models

  /**
   * The fields of a submitted mailing form after field-level cleaning. A time
   * that failed to parse or was left empty is absent.
   */
  datatype CleanedData = CleanedData(
    startTime: Option<Timestamp>,
    endTime: Option<Timestamp>,
    message: Option<Message>,
    recipients: seq<Client>,
    isActive: bool)

  /**
   * The form-level window check: with both times present, the start must be
   * before the end and (checked second) not in the past; with either time
   * absent nothing is checked. On success the data is returned unchanged.
   */
  function CleanForm(now: Timestamp, data: CleanedData): (r: Result<CleanedData, ValidationError>)
    ensures r.Ok? ==> r.value == data
    ensures data.startTime.None? || data.endTime.None? ==> r == Ok(data)
    ensures r == Err(StartNotBeforeEnd) <==>
              data.startTime.Some? && data.endTime.Some? && data.endTime.value <= data.startTime.value
    ensures r == Err(StartInPast) <==>
              data.startTime.Some? && data.endTime.Some? &&
              data.startTime.value < data.endTime.value && data.startTime.value < now
    // With both times present the form accepts and rejects exactly as the model's own check.
    ensures data.startTime.Some? && data.endTime.Some? ==>
              match Clean(now, data.startTime.value, data.endTime.value)
              case Pass => r == Ok(data)
              case Fail(e) => r == Err(e)
  {
    match (data.startTime, data.endTime)
    case (Some(startTime), Some(endTime)) =>
      if startTime >= endTime then Err(StartNotBeforeEnd)
      else if startTime < now then Err(StartInPast)
      else Ok(data)
    case _ => Ok(data)
  }

  /** The elements of `xs` owned by `user`, in their original order. */
  function OwnedBy<T(!new)>(xs: seq<T>, ownerOf: T -> UserId, user: UserId): (r: seq<T>)
    ensures |r| <= |xs|
    ensures multiset(r) <= multiset(xs)
    ensures forall x :: x in r <==> x in xs && ownerOf(x) == user
    ensures (forall x :: x in xs ==> ownerOf(x) == user) ==> r == xs
  {
    if xs == [] then []
    else
      var rest := OwnedBy(xs[1..], ownerOf, user);
      assert forall x :: x in xs <==> x == xs[0] || x in xs[1..];
      assert xs == [xs[0]] + xs[1..];
      if ownerOf(xs[0]) == user then [xs[0]] + rest else rest
  }

  /** The choices a mailing form offers for its message and recipient fields. */
  datatype MailingChoices = MailingChoices(messages: seq<Message>, recipients: seq<Client>)

  /**
   * The choices set up when the form is built: restricted to the records the
   * given user owns, or every record when no user is given.
   */
  function InitChoices(messages: seq<Message>, clients: seq<Client>, user: Option<UserId>): (c: MailingChoices)
    ensures user.None? ==> c == MailingChoices(messages, clients)
    ensures user.Some? ==> forall m :: m in c.messages <==> m in messages && m.owner == user.value
    ensures user.Some? ==> forall k :: k in c.recipients <==> k in clients && k.owner == user.value
  {
    match user
    case None => MailingChoices(messages, clients)
    case Some(u) =>
      MailingChoices(OwnedBy(messages, (m: Message) => m.owner, u),
                     OwnedBy(clients, (k: Client) => k.owner, u))
  }
}
