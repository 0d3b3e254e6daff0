/**
 * The records the badge authority keeps in its document store, the messages it
 * sends, and the constants of its handshake. Every store document is a typed
 * record here; a field that the code tests for null, or that may be missing in
 * a stored document, is an Option.
 */
module Records {
  import opened Wrappers

  /** Time is wall-clock milliseconds, as returned by java.util.Date.getTime(). */
  const TenMinutesMs: int := 1000 * 60 * 10
  const FifteenMinutesMs: int := 1000 * 60 * 15
  const OneYearMs: int := 1000 * 60 * 60 * 24 * 365

  /** The HTTP status a sponsor application must answer to acknowledge a notification. */
  const HttpAccepted: int := 202

  /** Subject line of the verification-code email. */
  const VerificationSubject: string := "Your Badging Request"

  /** Why a badge was refused; the code is what is written into the transaction's state field. */
  datatype RefusalReason = TooManyRetries | UserTimeout {
    function Code(): (c: string)
      ensures |c| == 1
    {
      match this
      case TooManyRetries => "r"
      case UserTimeout => "t"
    }
  }

  /**
   * The values the state field of a transaction takes. A refusal stores its
   * reason code in the state field, so the too-many-retries refusal is stored
   * as "r", the same letter as the generic refused state.
   */
  datatype TxState = PendingCredentials | PendingVerification | Awarded | Refused(reason: RefusalReason) {
    function Code(): (c: string)
      ensures |c| == 1
    {
      match this
      case PendingCredentials => "p"
      case PendingVerification => "v"
      case Awarded => "a"
      case Refused(reason) => reason.Code()
    }
  }

  /** Badge kinds: "e" for the email-domain badge, "a" for a badge inferred from the domain. */
  datatype BadgeType = EmailBadge | InferredBadge {
    function Code(): (c: string)
      ensures |c| == 1
    {
      match this
      case EmailBadge => "e"
      case InferredBadge => "a"
    }
  }

  /** States carried by notifications to a sponsor application. */
  datatype NoticeState = Granted | RefusedNotice | Cancelled | ServerError {
    function Code(): (c: string)
      ensures |c| == 1
    {
      match this
      case Granted => "g"
      case RefusedNotice => "r"
      case Cancelled => "c"
      case ServerError => "e"
    }
  }

  /** A transaction's state field tells its state apart: no two states are stored as the same letter. */
  lemma TxStateCodeInjective(x: TxState, y: TxState)
    ensures x.Code() == y.Code() <==> x == y
  {
  }

  /** A notification's state letter tells its state apart. */
  lemma NoticeStateCodeInjective(x: NoticeState, y: NoticeState)
    ensures x.Code() == y.Code() <==> x == y
  {
  }

  /** Membership status of a sponsor application (stored, never consulted by the handshake). */
  datatype AppStatus = Active | MembershipExpired | MembershipSuspended

  /** A registered sponsor application, keyed by its id in the application collection. */
  datatype Application = Application(
    password: Option<string>,
    endpoint: string,
    callbackPath: string,
    status: AppStatus)

  /** A transaction document, keyed by its token in the transaction collection. */
  datatype Transaction = Transaction(
    state: Option<TxState>,
    sponsor: string,
    started: Option<int>,
    code: Option<string>,
    retries: Option<int>,
    email: Option<string>)

  /** A badge document; `id` is the identifier the store assigns on insertion. */
  datatype Badge = Badge(
    id: nat,
    name: string,
    owner: string,
    expires: Option<int>,
    kind: BadgeType,
    created: int,
    app: string)

  /** One entry of the domain graph: a domain and one of its abstractions ("Tech Industry"). */
  datatype GraphEntry = GraphEntry(domain: string, abstraction: string)

  /** One badge as described to the sponsor application. */
  datatype BadgeEntry = BadgeEntry(
    tx: string,
    badgeId: nat,
    kind: BadgeType,
    authority: string,
    name: string,
    state: NoticeState,
    expires: Option<int>)

  /** Bodies of the POSTs sent to sponsor applications. */
  datatype NoticeBody =
    | Grant(tx: string, authority: string, state: NoticeState, badges: seq<BadgeEntry>)
    | Refusal(tx: string, authority: string, reason: RefusalReason)
    | StoreFailure(tx: string, state: NoticeState)

  /** A POST attempted to a callback URL. */
  datatype Notice = Notice(url: string, body: NoticeBody)

  /** A verification email handed to the mail sender. */
  datatype Mail = Mail(to: string, subject: string, code: string)

  /** What an outbound POST gave back: an HTTP status, or a transport failure. */
  datatype PostResult = Status(code: int) | TransportError

  /** What inserting one badge gave: success, or a store error followed by an error POST. */
  datatype InsertOutcome = Inserted | InsertFailed(report: PostResult)

  /** What the mail sender did: sent, returned silently without sending, or threw. */
  datatype MailOutcome = MailSent | MailSkipped | MailFailed

  /**
   * The answers of the authority's request handlers. `Generic` is the message
   * page that carries an error or status code (null on one path); `Fault` is an
   * unchecked Java exception escaping the handler.
   */
  datatype Response =
    | Unauthorized
    | InternalError
    | Started(token: string)
    | EmailForm(invalidEmail: bool)
    | CodeForm(retry: bool)
    | Generic(code: Option<string>)
    | Fault

  /** The read-only configuration and reference collections. */
  datatype Config = Config(
    apps: map<string, Application>,
    graph: seq<GraphEntry>,
    authority: string,
    endpoint: string,
    devMode: bool,
    devSponsorDomain: string)

  /**
   * Everything a request can change: the transaction and badge collections,
   * the next badge identifier, and the POSTs and emails sent so far.
   */
  datatype Store = Store(
    txs: map<string, Transaction>,
    badges: seq<Badge>,
    nextId: nat,
    outbox: seq<Notice>,
    mailbox: seq<Mail>)

  /** A request's effect: the new store and the response. */
  datatype Step = Step(store: Store, resp: Response)
}
