/**
 * The badge-transaction handshake of BadgeManager as functions over a store
 * value: one function per request step, each taking the outside world (the
 * clock, the random bytes, what the store, the mail sender and the sponsor's
 * HTTP endpoint answer) as parameters. The class in Manager.dfy performs the
 * same steps in place and is proved to agree with these functions.
 */
module Protocol {
  import opened Wrappers
  import opened Records
  import Base64Url

  // ---------------------------------------------------------------------
  // Small helpers of BadgeManager
  // ---------------------------------------------------------------------

  /** Java's String.indexOf for one character: the first position of c in s, or -1. */
  function IndexOf(s: string, c: char): (i: int)
    ensures -1 <= i < |s|
    ensures i == -1 <==> c !in s
    ensures 0 <= i ==> s[i] == c && c !in s[..i]
    decreases |s|
  {
    if |s| == 0 then -1
    else if s[0] == c then 0
    else
      var j := IndexOf(s[1..], c);
      if j == -1 then -1
      else
        assert s[..j + 1] == [s[0]] + s[1..][..j];
        j + 1
  }

  /** getEmailDomain: what follows the first '@'; with no '@' the whole address. */
  function EmailDomain(email: string): (d: string)
    ensures '@' !in email ==> d == email
    ensures '@' in email ==>
      && |d| < |email|
      && email == email[..|email| - |d| - 1] + "@" + d
      && '@' !in email[..|email| - |d| - 1]
  {
    var i := IndexOf(email, '@');
    assert i >= 0 ==> email == email[..i] + "@" + email[i + 1..];
    email[i + 1..]
  }

  /** isEmailAddressValid: the address is present and holds an '@'; nothing else is checked. */
  function IsEmailValid(email: Option<string>): (ok: bool)
    ensures ok <==> email.Some? && '@' in email.value
  {
    email.Some? && IndexOf(email.value, '@') != -1
  }

  /**
   * checkApplication: the application exists and has a non-null stored
   * password equal to the given one. Its status is not looked at.
   */
  function CheckApplication(apps: map<string, Application>, appName: string, appPassword: Option<string>): (ok: bool)
    ensures ok <==> appName in apps && apps[appName].password.Some? && apps[appName].password == appPassword
  {
    if appName !in apps then false
    else
      match apps[appName].password
      case None => false
      case Some(pw) => appPassword.Some? && pw == appPassword.value
  }

  /** The transaction token: the application name followed by base64url of 20 random bytes. */
  function Token(appName: string, rand: seq<Base64Url.byte>): (t: string)
    requires |rand| == 20
    ensures |t| == |appName| + 27
    ensures t[..|appName|] == appName
    ensures forall i | |appName| <= i < |t| :: Base64Url.IsAlphabetChar(t[i])
  {
    appName + Base64Url.Encode(rand)
  }

  /** The verification code: base64url of 8 random bytes, eleven characters. */
  function VerificationCode(rand: seq<Base64Url.byte>): (c: string)
    requires |rand| == 8
    ensures |c| == 11
    ensures forall i | 0 <= i < |c| :: Base64Url.IsAlphabetChar(c[i])
  {
    Base64Url.Encode(rand)
  }

  /** The callback URL of a sponsor: its endpoint (the development host in dev mode), "/", its path. */
  function CallbackUrl(cfg: Config, app: Application): string {
    (if cfg.devMode then "http://" + cfg.devSponsorDomain else app.endpoint) + "/" + app.callbackPath
  }

  /** Decimal text of a non-negative number. */
  function NatToString(n: nat): (s: string)
    ensures |s| > 0
    decreases n
  {
    var digit := [('0' as int + n % 10) as char];
    if n < 10 then digit else NatToString(n / 10) + digit
  }

  /** Decimal text of an HTTP status, as Java's string concatenation prints an int. */
  function IntToString(i: int): string {
    if i < 0 then "-" + NatToString(-i) else NatToString(i)
  }

  /** The store's $inc of the retry count: a missing count becomes 1. */
  function Inc(retries: Option<int>): (r: Option<int>)
    ensures r.Some?
    ensures retries.Some? ==> r.value == retries.value + 1
    ensures retries.None? ==> r == Some(1)
  {
    match retries
    case None => Some(1)
    case Some(n) => Some(n + 1)
  }

  // ---------------------------------------------------------------------
  // Well-formed stores: what the handshake itself ever writes
  // ---------------------------------------------------------------------

  /** A transaction document as the handshake writes it. */
  predicate TxWellFormed(tx: Transaction) {
    && tx.state.Some? && tx.started.Some? && tx.retries.Some? && tx.retries.value >= 0
    && (tx.state.value == PendingCredentials <==> tx.code.None?)
    && (tx.code.Some? <==> tx.email.Some?)
    && (tx.email.Some? ==> '@' in tx.email.value)
  }

  /** Badge identifiers are below the next identifier and increase in insertion order. */
  predicate BadgeIdsOrdered(badges: seq<Badge>, nextId: nat) {
    && (forall i | 0 <= i < |badges| :: badges[i].id < nextId)
    && (forall i, j | 0 <= i < j < |badges| :: badges[i].id < badges[j].id)
  }

  predicate WellFormed(s: Store) {
    && (forall k | k in s.txs :: TxWellFormed(s.txs[k]))
    && BadgeIdsOrdered(s.badges, s.nextId)
  }

  // ---------------------------------------------------------------------
  // Phase 1: initBadgingTransaction
  // ---------------------------------------------------------------------

  /** The document inserted for a new transaction. */
  function NewTransaction(appName: string, now: int): Transaction {
    Transaction(Some(PendingCredentials), appName, Some(now), None, Some(0), None)
  }

  /**
   * Begin a transaction for a sponsor application. `rand` is None when the
   * secure random source throws; `insertOk` is false when the store reports an
   * error on insertion (a token already present is refused by the store too).
   */
  function Begin(cfg: Config, s: Store, appName: string, appPassword: Option<string>,
                 rand: Option<seq<Base64Url.byte>>, now: int, insertOk: bool): (st: Step)
    requires rand.Some? ==> |rand.value| == 20
    ensures st.resp == Unauthorized <==> !CheckApplication(cfg.apps, appName, appPassword)
    ensures st.resp.Started? <==>
      CheckApplication(cfg.apps, appName, appPassword) && rand.Some? && insertOk && Token(appName, rand.value) !in s.txs
    ensures !st.resp.Started? ==> st.store == s
    ensures st.resp.Started? ==>
      && rand.Some?
      && st.resp.token == Token(appName, rand.value)
      && st.store == s.(txs := s.txs[st.resp.token := NewTransaction(appName, now)])
  {
    if !CheckApplication(cfg.apps, appName, appPassword) then Step(s, Unauthorized)
    else if rand.None? then Step(s, InternalError)
    else
      var token := Token(appName, rand.value);
      if !insertOk || token in s.txs then Step(s, InternalError)
      else Step(s.(txs := s.txs[token := NewTransaction(appName, now)]), Started(token))
  }

  // ---------------------------------------------------------------------
  // Phase 2: processUserCredentials and makeValidationCodeResponse
  // ---------------------------------------------------------------------

  /** The filter of getActiveBadgesForEmailAddress as written: no expiry, or an expiry strictly before now. */
  predicate KeptAsActive(b: Badge, email: string, now: int) {
    b.owner == email && (b.expires.None? || b.expires.value < now)
  }

  /** getActiveBadgesForEmailAddress: the owner's badges the filter keeps, in collection order. */
  function ActiveBadges(badges: seq<Badge>, email: string, now: int): (r: seq<Badge>)
    ensures |r| <= |badges|
    ensures forall b :: b in r <==> b in badges && KeptAsActive(b, email, now)
    decreases |badges|
  {
    if |badges| == 0 then []
    else
      var init, last := badges[..|badges| - 1], badges[|badges| - 1];
      assert badges == init + [last];
      var r := ActiveBadges(init, email, now);
      if KeptAsActive(last, email, now) then r + [last] else r
  }

  /** The filter keeps collection order: filtering two runs of badges one after the other is filtering each. */
  lemma {:induction false} ActiveBadgesAppend(a: seq<Badge>, b: seq<Badge>, email: string, now: int)
    ensures ActiveBadges(a + b, email, now) == ActiveBadges(a, email, now) + ActiveBadges(b, email, now)
    decreases |b|
  {
    if |b| > 0 {
      var init, last := b[..|b| - 1], b[|b| - 1];
      assert (a + b)[..|a + b| - 1] == a + init && (a + b)[|a + b| - 1] == last;
      ActiveBadgesAppend(a, init, email, now);
      assert b[..|b| - 1] == init;
    }
    else {
      assert a + b == a;
    }
  }

  /** One badge as described to the sponsor in a grant notification. */
  function Entry(txId: string, authority: string, b: Badge): BadgeEntry {
    BadgeEntry(txId, b.id, b.kind, authority, b.name, Granted, b.expires)
  }

  /** The entries of a grant notification, built one badge at a time as transmitBadges does. */
  function Entries(txId: string, authority: string, badges: seq<Badge>): (r: seq<BadgeEntry>)
    ensures |r| == |badges|
    ensures forall i | 0 <= i < |r| ::
      && r[i].tx == txId && r[i].state == Granted && r[i].authority == authority
      && r[i].badgeId == badges[i].id && r[i].kind == badges[i].kind
      && r[i].name == badges[i].name && r[i].expires == badges[i].expires
    decreases |badges|
  {
    if |badges| == 0 then []
    else Entries(txId, authority, badges[..|badges| - 1]) + [Entry(txId, authority, badges[|badges| - 1])]
  }

  /** The grant notification POSTed by transmitBadges. */
  function GrantNotice(cfg: Config, txId: string, url: string, badges: seq<Badge>): Notice {
    Notice(url, Grant(txId, cfg.authority, Granted, Entries(txId, cfg.authority, badges)))
  }

  /** The result of transmitBadges: None (success) exactly when the sponsor answered 202. */
  function TransmitOutcome(post: PostResult): (r: Option<Response>)
    ensures r.None? <==> post == Status(HttpAccepted)
    ensures r.Some? ==> r.value.Generic? && r.value.code.Some? && "notify" <= r.value.code.value
  {
    match post
    case TransportError => Some(Generic(Some("notifyerror")))
    case Status(code) =>
      if code == HttpAccepted then None
      else Some(Generic(Some("notifynotaccepted-" + IntToString(code))))
  }

  /** The $set of makeValidationCodeResponse: state v, the code, the address and a new start time. */
  function EnterVerification(tx: Transaction, code: string, email: string, now: int): Transaction {
    tx.(state := Some(PendingVerification), code := Some(code), started := Some(now), email := Some(email))
  }

  /**
   * makeValidationCodeResponse: draw a code, update the transaction, then mail
   * the code. The update comes first, so a mail failure leaves the
   * transaction in the verification state.
   */
  function IssueCode(s: Store, token: string, email: string, now: int,
                     rand: Option<seq<Base64Url.byte>>, updateOk: bool, mail: MailOutcome): (st: Step)
    requires token in s.txs
    requires rand.Some? ==> |rand.value| == 8
    ensures st.store.badges == s.badges && st.store.nextId == s.nextId && st.store.outbox == s.outbox
    ensures !(rand.Some? && updateOk) ==> st.store == s
    ensures rand.Some? && updateOk ==>
      st.store.txs == s.txs[token := EnterVerification(s.txs[token], VerificationCode(rand.value), email, now)]
    ensures st.resp == CodeForm(false) <==> rand.Some? && updateOk && !mail.MailFailed?
    ensures rand.Some? && updateOk && mail.MailSent? ==>
      st.store.mailbox == s.mailbox + [Mail(email, VerificationSubject, VerificationCode(rand.value))]
    ensures !(rand.Some? && updateOk && mail.MailSent?) ==> st.store.mailbox == s.mailbox
  {
    if rand.None? then Step(s, Generic(Some("credencode")))
    else
      var code := VerificationCode(rand.value);
      if !updateOk then Step(s, Generic(Some("txupdb")))
      else
        var s1 := s.(txs := s.txs[token := EnterVerification(s.txs[token], code, email, now)]);
        match mail
        case MailSent => Step(s1.(mailbox := s1.mailbox + [Mail(email, VerificationSubject, code)]), CodeForm(false))
        case MailSkipped => Step(s1, CodeForm(false))
        case MailFailed => Step(s1, Generic(Some("mai")))
  }

  /**
   * The part of processUserCredentials after the guards and the address
   * check: the fast path (re-send the badges the filter keeps, writing nothing
   * to the transaction) or a verification code.
   */
  function AcceptEmail(cfg: Config, s: Store, token: string, email: string, now: int,
                       rand: Option<seq<Base64Url.byte>>, updateOk: bool, mail: MailOutcome,
                       post: PostResult): (st: Step)
    requires token in s.txs
    requires rand.Some? ==> |rand.value| == 8
    ensures st.store.badges == s.badges && st.store.nextId == s.nextId
    ensures st.store.txs == s.txs || (rand.Some? &&
      st.store.txs == s.txs[token := EnterVerification(s.txs[token], VerificationCode(rand.value), email, now)])
  {
    var active := ActiveBadges(s.badges, email, now);
    var sponsor := s.txs[token].sponsor;
    if |active| > 0 then
      if sponsor !in cfg.apps then Step(s, Generic(Some("noappreg")))
      else
        var url := CallbackUrl(cfg, cfg.apps[sponsor]);
        var s1 := s.(outbox := s.outbox + [GrantNotice(cfg, token, url, active)]);
        Step(s1, match TransmitOutcome(post) case None => Generic(None) case Some(r) => r)
    else IssueCode(s, token, email, now, rand, updateOk, mail)
  }

  /**
   * processUserCredentials: the token guards and the 15-minute timeout, the
   * address check, then AcceptEmail.
   */
  function SubmitEmail(cfg: Config, s: Store, token: Option<string>, email: Option<string>, now: int,
                       rand: Option<seq<Base64Url.byte>>, updateOk: bool, mail: MailOutcome,
                       post: PostResult): (st: Step)
    requires rand.Some? ==> |rand.value| == 8
    ensures st.store.badges == s.badges && st.store.nextId == s.nextId
    ensures st.store.txs.Keys == s.txs.Keys
    ensures forall k | k in s.txs && Some(k) != token :: st.store.txs[k] == s.txs[k]
    ensures st.store.txs != s.txs ==>
      && token.Some? && token.value in s.txs && IsEmailValid(email) && rand.Some?
      && st.store.txs == s.txs[token.value := EnterVerification(s.txs[token.value], VerificationCode(rand.value), email.value, now)]
  {
    if token.None? then Step(s, Generic(Some("crednotok")))
    else if token.value !in s.txs then Step(s, Generic(Some("crednotokreg")))
    else
      var tx := s.txs[token.value];
      if tx.state != Some(PendingCredentials) then Step(s, Generic(Some("credstateconflict")))
      else if tx.started.None? then Step(s, Generic(Some("crednocreate")))
      else if tx.started.value + FifteenMinutesMs < now then Step(s, Generic(Some("credtimeout")))
      else if !IsEmailValid(email) then Step(s, EmailForm(true))
      else AcceptEmail(cfg, s, token.value, email.value, now, rand, updateOk, mail, post)
  }

  // ---------------------------------------------------------------------
  // Phase 3: verify, transmitBadgeRefusal, createAndTransmitBadge, createBadge
  // ---------------------------------------------------------------------

  /**
   * transmitBadgeRefusal: with the sponsor registered, set the state field to
   * the refusal code and add 1 to the retry count (unless the store reports an
   * error), then POST the refusal; the POST's answer changes nothing.
   */
  function Refuse(cfg: Config, s: Store, txId: string, reason: RefusalReason, updateOk: bool): (r: Store)
    requires txId in s.txs
    ensures r.badges == s.badges && r.nextId == s.nextId && r.mailbox == s.mailbox
    ensures r.txs.Keys == s.txs.Keys
    ensures forall k | k in s.txs && k != txId :: r.txs[k] == s.txs[k]
    ensures s.txs[txId].sponsor !in cfg.apps ==> r == s
    ensures s.txs[txId].sponsor in cfg.apps ==>
      && |r.outbox| == |s.outbox| + 1 && r.outbox[..|s.outbox|] == s.outbox
      && r.outbox[|s.outbox|] == Notice(CallbackUrl(cfg, cfg.apps[s.txs[txId].sponsor]), Refusal(txId, cfg.authority, reason))
    ensures s.txs[txId].sponsor in cfg.apps && updateOk ==>
      r.txs[txId] == s.txs[txId].(state := Some(Refused(reason)), retries := Inc(s.txs[txId].retries))
    ensures !updateOk ==> r.txs == s.txs
  {
    var tx := s.txs[txId];
    if tx.sponsor !in cfg.apps then s
    else
      var app := cfg.apps[tx.sponsor];
      var s1 := if updateOk then s.(txs := s.txs[txId := tx.(state := Some(Refused(reason)), retries := Inc(tx.retries))]) else s;
      s1.(outbox := s1.outbox + [Notice(CallbackUrl(cfg, app), Refusal(txId, cfg.authority, reason))])
  }

  /** What createBadge hands back: the badge object, or the response to return. */
  datatype Created = Made(badge: Badge) | NotMade(resp: Response)

  datatype Creation = Creation(store: Store, result: Created)

  /**
   * createBadge: insert a badge without looking for an existing one. On a
   * store error it POSTs a server-error notice to `reportUrl`; when that POST is
   * answered 202 the badge object is handed back although it was never stored.
   */
  function CreateBadge(s: Store, name: string, owner: string, kind: BadgeType, expires: int,
                       appId: string, txId: string, reportUrl: string, now: int,
                       outcome: InsertOutcome): (c: Creation)
    ensures c.store.txs == s.txs && c.store.mailbox == s.mailbox && c.store.nextId == s.nextId + 1
    ensures c.result.Made? <==> outcome.Inserted? || outcome.report == Status(HttpAccepted)
    ensures c.result.Made? ==> c.result.badge == Badge(s.nextId, name, owner, Some(expires), kind, now, appId)
    ensures outcome.Inserted? ==> c.store.badges == s.badges + [Badge(s.nextId, name, owner, Some(expires), kind, now, appId)]
    ensures outcome.Inserted? ==> c.store.outbox == s.outbox
    ensures outcome.InsertFailed? ==>
      c.store.badges == s.badges && c.store.outbox == s.outbox + [Notice(reportUrl, StoreFailure(txId, ServerError))]
  {
    var b := Badge(s.nextId, name, owner, Some(expires), kind, now, appId);
    var s1 := s.(nextId := s.nextId + 1);
    match outcome
    case Inserted => Creation(s1.(badges := s1.badges + [b]), Made(b))
    case InsertFailed(report) =>
      var s2 := s1.(outbox := s1.outbox + [Notice(reportUrl, StoreFailure(txId, ServerError))]);
      match report
      case TransportError => Creation(s2, NotMade(Generic(Some("syscode-"))))
      case Status(code) =>
        if code == HttpAccepted then Creation(s2, Made(b))
        else Creation(s2, NotMade(Generic(Some("badstat-" + IntToString(code)))))
  }

  /** The abstractions the graph lists for a domain, in collection order. */
  function InferredNames(graph: seq<GraphEntry>, domain: string): (names: seq<string>)
    ensures |names| <= |graph|
    ensures forall n :: n in names <==> exists e :: e in graph && e.domain == domain && e.abstraction == n
    decreases |graph|
  {
    if |graph| == 0 then []
    else
      var rest := InferredNames(graph[1..], domain);
      assert forall e :: e in graph <==> e == graph[0] || e in graph[1..];
      if graph[0].domain == domain then [graph[0].abstraction] + rest else rest
  }

  /** The graph is read in collection order, one name per matching entry. */
  lemma {:induction false} InferredNamesAppend(g1: seq<GraphEntry>, g2: seq<GraphEntry>, domain: string)
    ensures InferredNames(g1 + g2, domain) == InferredNames(g1, domain) + InferredNames(g2, domain)
    decreases |g1|
  {
    if |g1| > 0 {
      assert (g1 + g2)[0] == g1[0] && (g1 + g2)[1..] == g1[1..] + g2;
      InferredNamesAppend(g1[1..], g2, domain);
    } else {
      assert g1 + g2 == g2;
    }
  }

  /** The badges minted by the inferred-badge loop and whether it ended in an exception. */
  datatype Minted = Minted(store: Store, badges: seq<Badge>, crashed: bool)

  /**
   * The loop of createAndTransmitBadge over the inferred names. A failed
   * creation ends it with an exception: the code casts the email badge, not the
   * failed result, to a Response. `inserts(next + i)` is the outcome of the
   * i-th insertion of this loop.
   */
  function MintInferred(s: Store, names: seq<string>, owner: string, expires: int, appId: string,
                        txId: string, reportUrl: string, now: int,
                        inserts: nat -> InsertOutcome, next: nat): (m: Minted)
    ensures m.store.txs == s.txs && m.store.mailbox == s.mailbox
    ensures s.badges <= m.store.badges
    ensures |m.badges| <= |names|
    ensures !m.crashed ==> |m.badges| == |names|
    decreases |names|
  {
    if |names| == 0 then Minted(s, [], false)
    else
      var c := CreateBadge(s, names[0], owner, InferredBadge, expires, appId, txId, reportUrl, now, inserts(next));
      match c.result
      case NotMade(_) => Minted(c.store, [], true)
      case Made(b) =>
        var rest := MintInferred(c.store, names[1..], owner, expires, appId, txId, reportUrl, now, inserts, next + 1);
        Minted(rest.store, [b] + rest.badges, rest.crashed)
  }

  /**
   * The i-th badge the loop makes carries the i-th name, the inferred kind,
   * the owner and the common expiry.
   */
  lemma {:induction false} MintInferredBadges(s: Store, names: seq<string>, owner: string, expires: int, appId: string,
                                              txId: string, reportUrl: string, now: int,
                                              inserts: nat -> InsertOutcome, next: nat)
    ensures var m := MintInferred(s, names, owner, expires, appId, txId, reportUrl, now, inserts, next);
      forall i | 0 <= i < |m.badges| ::
        && m.badges[i].name == names[i] && m.badges[i].kind == InferredBadge
        && m.badges[i].owner == owner && m.badges[i].expires == Some(expires)
    decreases |names|
  {
    if |names| > 0 {
      var c := CreateBadge(s, names[0], owner, InferredBadge, expires, appId, txId, reportUrl, now, inserts(next));
      if c.result.Made? {
        MintInferredBadges(c.store, names[1..], owner, expires, appId, txId, reportUrl, now, inserts, next + 1);
        var rest := MintInferred(c.store, names[1..], owner, expires, appId, txId, reportUrl, now, inserts, next + 1);
        var m := MintInferred(s, names, owner, expires, appId, txId, reportUrl, now, inserts, next);
        assert m.badges == [c.result.badge] + rest.badges;
        forall i | 0 <= i < |m.badges|
          ensures && m.badges[i].name == names[i] && m.badges[i].kind == InferredBadge
                  && m.badges[i].owner == owner && m.badges[i].expires == Some(expires)
        {
          if i > 0 {
            assert m.badges[i] == rest.badges[i - 1];
          }
        }
      }
    }
  }

  /** The badges `done` made before a run of the loop, followed by what the run makes. */
  function Followed(done: seq<Badge>, m: Minted): Minted {
    Minted(m.store, done + m.badges, m.crashed)
  }

  /** Running on after a prefix already made is the same as starting with the longer prefix. */
  lemma FollowedTwice(a: seq<Badge>, b: seq<Badge>, m: Minted)
    ensures Followed(a, Followed(b, m)) == Followed(a + b, m)
  {
    assert a + (b + m.badges) == (a + b) + m.badges;
  }

  /** One turn of the inferred-badge loop. */
  lemma MintInferredUnfold(s: Store, names: seq<string>, owner: string, expires: int, appId: string,
                           txId: string, reportUrl: string, now: int,
                           inserts: nat -> InsertOutcome, next: nat)
    requires |names| > 0
    ensures
      var c := CreateBadge(s, names[0], owner, InferredBadge, expires, appId, txId, reportUrl, now, inserts(next));
      MintInferred(s, names, owner, expires, appId, txId, reportUrl, now, inserts, next) ==
        if c.result.NotMade? then Minted(c.store, [], true)
        else Followed([c.result.badge], MintInferred(c.store, names[1..], owner, expires, appId, txId, reportUrl, now, inserts, next + 1))
  {
  }

  /** The response createAndTransmitBadge returns once the badges are transmitted. */
  function GrantResponse(post: PostResult): Response {
    match TransmitOutcome(post)
    case None => Generic(Some("granted"))
    case Some(r) => r
  }

  /**
   * createAndTransmitBadge: the email badge (named after the domain), one
   * inferred badge per graph entry of the domain, all expiring a year from now;
   * then state a (an update error is ignored) and the grant POST.
   * `inserts(0)` is the email badge's insertion, `inserts(i)` the i-th inferred one's.
   */
  function Mint(cfg: Config, s: Store, txId: string, now: int, updateOk: bool,
                post: PostResult, inserts: nat -> InsertOutcome): (st: Step)
    requires txId in s.txs
    ensures st.store.txs == s.txs || st.store.txs == s.txs[txId := s.txs[txId].(state := Some(Awarded))]
    ensures st.store.mailbox == s.mailbox
    ensures s.badges <= st.store.badges
  {
    var tx := s.txs[txId];
    if tx.email.None? then Step(s, Fault)
    else
      var email := tx.email.value;
      var domain := EmailDomain(email);
      if tx.sponsor !in cfg.apps then Step(s, Generic(Some("noappreg")))
      else
        var app := cfg.apps[tx.sponsor];
        var url := CallbackUrl(cfg, app);
        var reportUrl := cfg.endpoint + "/" + app.callbackPath;
        var expires := now + OneYearMs;
        var first := CreateBadge(s, domain, email, EmailBadge, expires, tx.sponsor, txId, reportUrl, now, inserts(0));
        match first.result
        case NotMade(resp) => Step(first.store, resp)
        case Made(b) =>
          var rest := MintInferred(first.store, InferredNames(cfg.graph, domain), email, expires,
                                   tx.sponsor, txId, reportUrl, now, inserts, 1);
          if rest.crashed then Step(rest.store, Fault)
          else
            var s1 := rest.store;
            var s2 := if updateOk then s1.(txs := s1.txs[txId := tx.(state := Some(Awarded))]) else s1;
            Step(s2.(outbox := s2.outbox + [GrantNotice(cfg, txId, url, [b] + rest.badges)]), GrantResponse(post))
  }

  /**
   * verify: compare the code first (whatever the state); on a mismatch refuse
   * after more than 2 retries, else refuse after 10 minutes, else count one
   * more retry. A missing stored code, submitted code or start time makes the
   * Java code throw, which is `Fault` here.
   */
  function Verify(cfg: Config, s: Store, token: Option<string>, code: Option<string>, now: int,
                  updateOk: bool, post: PostResult, inserts: nat -> InsertOutcome): (st: Step)
    ensures st.store.txs.Keys == s.txs.Keys
    ensures forall k | k in s.txs && Some(k) != token :: st.store.txs[k] == s.txs[k]
    ensures st.store.mailbox == s.mailbox
    ensures s.badges <= st.store.badges
    ensures st.store.badges != s.badges ==>
      token.Some? && token.value in s.txs && code.Some? && s.txs[token.value].code == code
  {
    if token.None? then Step(s, Generic(Some("vernotok")))
    else if token.value !in s.txs then Step(s, Generic(Some("vernotokreg")))
    else
      var tx := s.txs[token.value];
      if code.None? || tx.code.None? then Step(s, Fault)
      else if code.value == tx.code.value then Mint(cfg, s, token.value, now, updateOk, post, inserts)
      else if tx.retries.Some? && tx.retries.value > 2 then
        Step(Refuse(cfg, s, token.value, TooManyRetries, updateOk), Generic(Some("vertoomanyattempts")))
      else if tx.started.None? then Step(s, Fault)
      else if tx.started.value + TenMinutesMs < now then
        Step(Refuse(cfg, s, token.value, UserTimeout, updateOk), Generic(Some("vertimeout")))
      else if updateOk then
        Step(s.(txs := s.txs[token.value := tx.(retries := Inc(tx.retries))]), CodeForm(true))
      else Step(s, CodeForm(true))
  }
}
