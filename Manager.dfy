/**
 * BadgeManager as a class: the transaction and badge collections are fields
 * the request handlers update in place, the application and graph collections
 * and the deployment settings are constants, and the POSTs and emails sent are
 * recorded in two more fields. Each handler is proved to have exactly the
 * effect and the response of the matching function in Protocol.
 */
module Manager {
  import opened Wrappers
  import opened Records
  import Base64Url
  import Protocol
  import Invariants

  class BadgeManager {
    const config: Config
    var txs: map<string, Transaction>
    var badges: seq<Badge>
    var nextId: nat
    var outbox: seq<Notice>
    var mailbox: seq<Mail>

    /** The collections and send logs as one value. */
    function State(): Store
      reads this
    {
      Store(txs, badges, nextId, outbox, mailbox)
    }

    /** The store holds only what the handshake writes. */
    ghost predicate Valid()
      reads this
    {
      Protocol.WellFormed(State())
    }

    constructor (config: Config, store: Store)
      ensures this.config == config && State() == store
      ensures Valid() <==> Protocol.WellFormed(store)
    {
      this.config := config;
      txs, badges, nextId := store.txs, store.badges, store.nextId;
      outbox, mailbox := store.outbox, store.mailbox;
    }

    /** postBadgeCreationNotification: the POST is recorded; its answer is a parameter of the caller. */
    method Post(url: string, body: NoticeBody)
      modifies this`outbox
      ensures outbox == old(outbox) + [Notice(url, body)]
    {
      outbox := outbox + [Notice(url, body)];
    }

    /** initBadgingTransaction */
    method InitBadgingTransaction(appName: string, appPassword: Option<string>,
                                  rand: Option<seq<Base64Url.byte>>, now: int, insertOk: bool)
      returns (r: Response)
      requires rand.Some? ==> |rand.value| == 20
      modifies this
      ensures Step(State(), r) == Protocol.Begin(config, old(State()), appName, appPassword, rand, now, insertOk)
      ensures old(Valid()) ==> Valid()
    {
      Invariants.BeginPreservesWellFormed(config, State(), appName, appPassword, rand, now, insertOk);
      if !Protocol.CheckApplication(config.apps, appName, appPassword) {
        return Unauthorized;
      }
      if rand.None? {
        return InternalError;
      }
      var token := appName + Base64Url.Encode(rand.value);
      if !insertOk || token in txs {
        return InternalError;
      }
      txs := txs[token := Transaction(Some(PendingCredentials), appName, Some(now), None, Some(0), None)];
      r := Started(token);
    }

    /** getActiveBadgesForEmailAddress: a pass over the collection keeping what the filter keeps. */
    method GetActiveBadgesForEmailAddress(email: string, now: int) returns (r: seq<Badge>)
      ensures r == Protocol.ActiveBadges(badges, email, now)
    {
      r := [];
      var i := 0;
      while i < |badges|
        invariant 0 <= i <= |badges|
        invariant r == Protocol.ActiveBadges(badges[..i], email, now)
      {
        var b := badges[i];
        assert badges[..i + 1][..i] == badges[..i];
        if b.owner == email && (b.expires.None? || b.expires.value < now) {
          r := r + [b];
        }
        i := i + 1;
      }
      assert badges[..i] == badges;
    }

    /** transmitBadges: one entry per badge, in order, then the POST; null (None) means the sponsor answered 202. */
    method TransmitBadges(txId: string, url: string, toSend: seq<Badge>, post: PostResult)
      returns (r: Option<Response>)
      modifies this`outbox
      ensures outbox == old(outbox) + [Protocol.GrantNotice(config, txId, url, toSend)]
      ensures r == Protocol.TransmitOutcome(post)
    {
      var entries: seq<BadgeEntry> := [];
      for i := 0 to |toSend|
        invariant entries == Protocol.Entries(txId, config.authority, toSend[..i])
      {
        var b := toSend[i];
        assert toSend[..i + 1][..i] == toSend[..i];
        entries := entries + [BadgeEntry(txId, b.id, b.kind, config.authority, b.name, Granted, b.expires)];
      }
      assert toSend[..|toSend|] == toSend;
      Post(url, Grant(txId, config.authority, Granted, entries));
      match post
      case TransportError =>
        r := Some(Generic(Some("notifyerror")));
      case Status(code) =>
        if code == HttpAccepted {
          r := None;
        } else {
          r := Some(Generic(Some("notifynotaccepted-" + Protocol.IntToString(code))));
        }
    }

    /** makeValidationCodeResponse */
    method MakeValidationCodeResponse(token: string, email: string, now: int,
                                      rand: Option<seq<Base64Url.byte>>, updateOk: bool, mail: MailOutcome)
      returns (r: Response)
      requires token in txs
      requires rand.Some? ==> |rand.value| == 8
      modifies this`txs, this`mailbox
      ensures Step(State(), r) == Protocol.IssueCode(old(State()), token, email, now, rand, updateOk, mail)
    {
      if rand.None? {
        return Generic(Some("credencode"));
      }
      var code := Base64Url.Encode(rand.value);
      if !updateOk {
        return Generic(Some("txupdb"));
      }
      txs := txs[token := txs[token].(state := Some(PendingVerification), code := Some(code),
                                       started := Some(now), email := Some(email))];
      match mail
      case MailSent =>
        mailbox := mailbox + [Mail(email, VerificationSubject, code)];
        r := CodeForm(false);
      case MailSkipped =>
        r := CodeForm(false);
      case MailFailed =>
        r := Generic(Some("mai"));
    }

    /** processUserCredentials */
    method ProcessUserCredentials(token: Option<string>, email: Option<string>, now: int,
                                  rand: Option<seq<Base64Url.byte>>, updateOk: bool, mail: MailOutcome,
                                  post: PostResult)
      returns (r: Response)
      requires rand.Some? ==> |rand.value| == 8
      modifies this
      ensures Step(State(), r) == Protocol.SubmitEmail(config, old(State()), token, email, now, rand, updateOk, mail, post)
      ensures old(Valid()) ==> Valid()
    {
      Invariants.SubmitEmailPreservesWellFormed(config, State(), token, email, now, rand, updateOk, mail, post);
      if token.None? {
        return Generic(Some("crednotok"));
      }
      if token.value !in txs {
        return Generic(Some("crednotokreg"));
      }
      var tx := txs[token.value];
      if tx.state.None? || tx.state.value != PendingCredentials {
        return Generic(Some("credstateconflict"));
      }
      if tx.started.Some? {
        if tx.started.value + FifteenMinutesMs < now {
          return Generic(Some("credtimeout"));
        }
      } else {
        return Generic(Some("crednocreate"));
      }
      if !Protocol.IsEmailValid(email) {
        return EmailForm(true);
      }
      r := AcceptEmail(token.value, email.value, now, rand, updateOk, mail, post);
    }

    /** The fast path of processUserCredentials, or a verification code. */
    method AcceptEmail(token: string, email: string, now: int,
                       rand: Option<seq<Base64Url.byte>>, updateOk: bool, mail: MailOutcome, post: PostResult)
      returns (r: Response)
      requires token in txs
      requires rand.Some? ==> |rand.value| == 8
      modifies this`txs, this`outbox, this`mailbox
      ensures Step(State(), r) == Protocol.AcceptEmail(config, old(State()), token, email, now, rand, updateOk, mail, post)
    {
      var active := GetActiveBadgesForEmailAddress(email, now);
      if |active| > 0 {
        var sponsor := txs[token].sponsor;
        if sponsor !in config.apps {
          return Generic(Some("noappreg"));
        }
        var sent := TransmitBadges(token, Protocol.CallbackUrl(config, config.apps[sponsor]), active, post);
        r := if sent.None? then Generic(None) else sent.value;
      } else {
        r := MakeValidationCodeResponse(token, email, now, rand, updateOk, mail);
      }
    }

    /** transmitBadgeRefusal */
    method TransmitBadgeRefusal(txId: string, reason: RefusalReason, updateOk: bool)
      requires txId in txs
      modifies this`txs, this`outbox
      ensures State() == Protocol.Refuse(config, old(State()), txId, reason, updateOk)
    {
      var tx := txs[txId];
      if tx.sponsor !in config.apps {
        return;
      }
      var url := Protocol.CallbackUrl(config, config.apps[tx.sponsor]);
      if updateOk {
        txs := txs[txId := tx.(state := Some(Refused(reason)), retries := Protocol.Inc(tx.retries))];
      }
      Post(url, Refusal(txId, config.authority, reason));
    }

    /** createBadge: an unconditional insert; the store's error path POSTs a server-error notice. */
    method CreateBadge(name: string, owner: string, kind: BadgeType, expires: int, appId: string,
                       txId: string, reportUrl: string, now: int, outcome: InsertOutcome)
      returns (res: Protocol.Created)
      modifies this`badges, this`nextId, this`outbox
      ensures Protocol.Creation(State(), res) ==
        Protocol.CreateBadge(old(State()), name, owner, kind, expires, appId, txId, reportUrl, now, outcome)
    {
      var b := Badge(nextId, name, owner, Some(expires), kind, now, appId);
      nextId := nextId + 1;
      match outcome
      case Inserted =>
        badges := badges + [b];
        res := Protocol.Made(b);
      case InsertFailed(report) =>
        Post(reportUrl, StoreFailure(txId, ServerError));
        match report
        case TransportError =>
          res := Protocol.NotMade(Generic(Some("syscode-")));
        case Status(code) =>
          if code == HttpAccepted {
            res := Protocol.Made(b);
          } else {
            res := Protocol.NotMade(Generic(Some("badstat-" + Protocol.IntToString(code))));
          }
    }

    /**
     * The loop of createAndTransmitBadge over the domain's abstractions; `crashed`
     * reports the exception the loop throws when a creation fails.
     */
    method CreateInferredBadges(names: seq<string>, email: string, expires: int, appId: string,
                                txId: string, reportUrl: string, now: int, inserts: nat -> InsertOutcome)
      returns (made: seq<Badge>, crashed: bool)
      modifies this`badges, this`nextId, this`outbox
      ensures Protocol.Minted(State(), made, crashed) ==
        Protocol.MintInferred(old(State()), names, email, expires, appId, txId, reportUrl, now, inserts, 1)
    {
      ghost var whole := Protocol.MintInferred(State(), names, email, expires, appId, txId, reportUrl, now, inserts, 1);
      made, crashed := [], false;
      var i := 0;
      while i < |names|
        invariant 0 <= i <= |names|
        invariant whole == Protocol.Followed(made, Protocol.MintInferred(State(), names[i..], email, expires, appId, txId, reportUrl, now, inserts, 1 + i))
      {
        ghost var before := State();
        Protocol.MintInferredUnfold(before, names[i..], email, expires, appId, txId, reportUrl, now, inserts, 1 + i);
        assert names[i..][0] == names[i] && names[i..][1..] == names[i + 1..];
        var c := CreateBadge(names[i], email, InferredBadge, expires, appId, txId, reportUrl, now, inserts(1 + i));
        if c.NotMade? {
          assert made + [] == made;
          return made, true;
        }
        Protocol.FollowedTwice(made, [c.badge],
          Protocol.MintInferred(State(), names[i + 1..], email, expires, appId, txId, reportUrl, now, inserts, 2 + i));
        made := made + [c.badge];
        i := i + 1;
      }
    }

    /** createAndTransmitBadge */
    method CreateAndTransmitBadge(txId: string, now: int, updateOk: bool, post: PostResult,
                                  inserts: nat -> InsertOutcome)
      returns (r: Response)
      requires txId in txs
      modifies this
      ensures Step(State(), r) == Protocol.Mint(config, old(State()), txId, now, updateOk, post, inserts)
    {
      var tx := txs[txId];
      if tx.email.None? {
        return Fault;
      }
      var email := tx.email.value;
      var domain := Protocol.EmailDomain(email);
      if tx.sponsor !in config.apps {
        return Generic(Some("noappreg"));
      }
      var app := config.apps[tx.sponsor];
      var url := Protocol.CallbackUrl(config, app);
      var reportUrl := config.endpoint + "/" + app.callbackPath;
      var expires := now + OneYearMs;
      var first := CreateBadge(domain, email, EmailBadge, expires, tx.sponsor, txId, reportUrl, now, inserts(0));
      if first.NotMade? {
        return first.resp;
      }
      var names := Protocol.InferredNames(config.graph, domain);
      var inferred, crashed := CreateInferredBadges(names, email, expires, tx.sponsor, txId, reportUrl, now, inserts);
      if crashed {
        return Fault;
      }
      if updateOk {
        txs := txs[txId := tx.(state := Some(Awarded))];
      }
      var sent := TransmitBadges(txId, url, [first.badge] + inferred, post);
      r := if sent.None? then Generic(Some("granted")) else sent.value;
    }

    /** verify */
    method Verify(token: Option<string>, code: Option<string>, now: int, updateOk: bool,
                  post: PostResult, inserts: nat -> InsertOutcome)
      returns (r: Response)
      modifies this
      ensures Step(State(), r) == Protocol.Verify(config, old(State()), token, code, now, updateOk, post, inserts)
      ensures old(Valid()) ==> Valid()
    {
      Invariants.VerifyPreservesWellFormed(config, State(), token, code, now, updateOk, post, inserts);
      if token.None? {
        return Generic(Some("vernotok"));
      }
      if token.value !in txs {
        return Generic(Some("vernotokreg"));
      }
      var tx := txs[token.value];
      if code.None? || tx.code.None? {
        return Fault;
      }
      if code.value == tx.code.value {
        r := CreateAndTransmitBadge(token.value, now, updateOk, post, inserts);
        return;
      }
      if tx.retries.Some? && tx.retries.value > 2 {
        TransmitBadgeRefusal(token.value, TooManyRetries, updateOk);
        return Generic(Some("vertoomanyattempts"));
      } else if tx.started.None? {
        return Fault;
      } else if tx.started.value + TenMinutesMs < now {
        TransmitBadgeRefusal(token.value, UserTimeout, updateOk);
        return Generic(Some("vertimeout"));
      }
      if updateOk {
        txs := txs[token.value := tx.(retries := Protocol.Inc(tx.retries))];
      }
      r := CodeForm(true);
    }
  }
}
