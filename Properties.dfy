/**
 * Properties of the handshake as the code is written, including the places
 * where the code does less than its own comments and messages say: it keeps
 * expired badges as "active", never checks a transaction's state in verify,
 * never deduplicates badges, and keeps the retry count when a code is issued.
 */
module Properties {
  import opened Wrappers
  import opened Records
  import opened Protocol
  import Base64Url

  // ---------------------------------------------------------------------
  // Phase 1
  // ---------------------------------------------------------------------

  /** A token determines both the application name and the random bytes it was made from. */
  lemma TokenInjective(a1: string, r1: seq<Base64Url.byte>, a2: string, r2: seq<Base64Url.byte>)
    requires |r1| == 20 && |r2| == 20
    requires Token(a1, r1) == Token(a2, r2)
    ensures a1 == a2 && r1 == r2
  {
    var t := Token(a1, r1);
    assert |a1| == |a2|;
    assert a1 == t[..|a1|] == a2;
    assert Base64Url.Encode(r1) == t[|a1|..] == Base64Url.Encode(r2);
    Base64Url.EncodeInjective(r1, r2);
  }

  /** Changing an application's status never changes whether it authenticates. */
  lemma CheckApplicationIgnoresStatus(apps: map<string, Application>, appName: string,
                                      appPassword: Option<string>, status: AppStatus)
    requires appName in apps
    ensures CheckApplication(apps[appName := apps[appName].(status := status)], appName, appPassword)
         == CheckApplication(apps, appName, appPassword)
  {
  }

  // ---------------------------------------------------------------------
  // Phase 2
  // ---------------------------------------------------------------------

  /** The token guards and the timeout of processUserCredentials all pass. */
  predicate CredentialGuardsPass(s: Store, token: Option<string>, now: int) {
    && token.Some? && token.value in s.txs
    && s.txs[token.value].state == Some(PendingCredentials)
    && s.txs[token.value].started.Some?
    && now <= s.txs[token.value].started.value + FifteenMinutesMs
  }

  /**
   * A failing guard answers with a code and changes nothing; so does a
   * malformed address, which re-renders the form.
   */
  lemma SubmitEmailGuardsChangeNothing(cfg: Config, s: Store, token: Option<string>, email: Option<string>,
                                       now: int, rand: Option<seq<Base64Url.byte>>, updateOk: bool,
                                       mail: MailOutcome, post: PostResult)
    requires rand.Some? ==> |rand.value| == 8
    ensures var st := SubmitEmail(cfg, s, token, email, now, rand, updateOk, mail, post);
      && (!CredentialGuardsPass(s, token, now) ==> st.store == s && st.resp.Generic? && st.resp.code.Some?)
      && (CredentialGuardsPass(s, token, now) && !IsEmailValid(email) ==> st == Step(s, EmailForm(true)))
  {
  }

  /**
   * The timeout comparison is strict: an address submitted exactly fifteen
   * minutes after the transaction began passes the guards, one a millisecond
   * later is refused with "credtimeout" and changes nothing.
   */
  lemma EmailAcceptedUntilFifteenMinutes(cfg: Config, s: Store, appName: string, appPassword: Option<string>,
                                         rand: Option<seq<Base64Url.byte>>, t0: int,
                                         email: Option<string>, code: Option<seq<Base64Url.byte>>,
                                         updateOk: bool, mail: MailOutcome, post: PostResult)
    requires rand.Some? ==> |rand.value| == 20
    requires code.Some? ==> |code.value| == 8
    requires Begin(cfg, s, appName, appPassword, rand, t0, true).resp.Started?
    ensures var st := Begin(cfg, s, appName, appPassword, rand, t0, true);
      && CredentialGuardsPass(st.store, Some(st.resp.token), t0 + FifteenMinutesMs)
      && SubmitEmail(cfg, st.store, Some(st.resp.token), email, t0 + FifteenMinutesMs + 1, code, updateOk, mail, post)
         == Step(st.store, Generic(Some("credtimeout")))
  {
  }

  /**
   * Issuing a code writes state v, the code, the address and a new start time,
   * and keeps the sponsor and the retry count: the count is not reset.
   */
  lemma IssueCodeKeepsRetries(s: Store, token: string, email: string, now: int,
                              rand: seq<Base64Url.byte>, mail: MailOutcome)
    requires token in s.txs && |rand| == 8
    ensures var tx := IssueCode(s, token, email, now, Some(rand), true, mail).store.txs[token];
      && tx.state == Some(PendingVerification)
      && tx.code == Some(VerificationCode(rand))
      && tx.email == Some(email)
      && tx.started == Some(now)
      && tx.retries == s.txs[token].retries
      && tx.sponsor == s.txs[token].sponsor
  {
  }

  /** The update precedes the mail: a failed send answers "mai" with the transaction already in state v. */
  lemma MailFailureAfterUpdate(s: Store, token: string, email: string, now: int, rand: seq<Base64Url.byte>)
    requires token in s.txs && |rand| == 8
    ensures var st := IssueCode(s, token, email, now, Some(rand), true, MailFailed);
      && st.resp == Generic(Some("mai"))
      && st.store.txs[token].state == Some(PendingVerification)
      && st.store.mailbox == s.mailbox
  {
  }

  /**
   * The mail carries the code the transaction now holds, to the address it now
   * holds: the code the user reads is the one verify compares against.
   */
  lemma MailedCodeIsStored(s: Store, token: string, email: string, now: int, rand: seq<Base64Url.byte>)
    requires token in s.txs && |rand| == 8
    ensures var st := IssueCode(s, token, email, now, Some(rand), true, MailSent);
      var m := st.store.mailbox[|st.store.mailbox| - 1];
      && |st.store.mailbox| == |s.mailbox| + 1
      && st.store.txs[token].code == Some(m.code)
      && st.store.txs[token].email == Some(m.to)
      && m.subject == VerificationSubject
  {
  }

  /**
   * Past the guards, the fast path (re-send, no badge and no transaction
   * written) is taken exactly when the filter keeps some badge; otherwise a
   * verification code is issued.
   */
  lemma FastPathIffActiveBadges(cfg: Config, s: Store, token: Option<string>, email: Option<string>, now: int,
                                rand: Option<seq<Base64Url.byte>>, updateOk: bool, mail: MailOutcome,
                                post: PostResult)
    requires rand.Some? ==> |rand.value| == 8
    requires CredentialGuardsPass(s, token, now) && IsEmailValid(email)
    ensures var st := SubmitEmail(cfg, s, token, email, now, rand, updateOk, mail, post);
      var active := ActiveBadges(s.badges, email.value, now);
      var sponsor := s.txs[token.value].sponsor;
      && (|active| > 0 ==> st.store.txs == s.txs && st.store.mailbox == s.mailbox)
      && (|active| > 0 && sponsor in cfg.apps ==>
            st.store.outbox == s.outbox + [GrantNotice(cfg, token.value, CallbackUrl(cfg, cfg.apps[sponsor]), active)])
      && (|active| == 0 ==> st == IssueCode(s, token.value, email.value, now, rand, updateOk, mail))
  {
  }

  /**
   * The "active" filter keeps a dated badge only once its expiry has passed:
   * a badge is never reported active while it is still valid.
   */
  lemma ActiveBadgesAreExpired(badges: seq<Badge>, email: string, now: int, b: Badge)
    requires b in badges && b.owner == email && b.expires.Some?
    ensures b in ActiveBadges(badges, email, now) <==> b.expires.value < now
  {
  }

  // ---------------------------------------------------------------------
  // Phase 3
  // ---------------------------------------------------------------------

  /** A matching code always mints, whatever the state, the retry count or the time elapsed. */
  lemma MatchingCodeMints(cfg: Config, s: Store, token: string, code: string, now: int, updateOk: bool,
                          post: PostResult, inserts: nat -> InsertOutcome)
    requires token in s.txs && s.txs[token].code == Some(code)
    ensures Verify(cfg, s, Some(token), Some(code), now, updateOk, post, inserts)
         == Mint(cfg, s, token, now, updateOk, post, inserts)
  {
  }

  /** On a mismatch, more than two retries refuse the badge before the timeout is even looked at. */
  lemma RetriesCheckedBeforeTimeout(cfg: Config, s: Store, token: string, code: string, now: int, updateOk: bool,
                                    post: PostResult, inserts: nat -> InsertOutcome)
    requires token in s.txs && s.txs[token].code.Some? && s.txs[token].code != Some(code)
    requires s.txs[token].retries.Some? && s.txs[token].retries.value > 2
    ensures Verify(cfg, s, Some(token), Some(code), now, updateOk, post, inserts)
         == Step(Refuse(cfg, s, token, TooManyRetries, updateOk), Generic(Some("vertoomanyattempts")))
  {
  }

  /** On a mismatch within the retry budget, a code older than ten minutes refuses the badge. */
  lemma TimeoutRefusal(cfg: Config, s: Store, token: string, code: string, now: int, updateOk: bool,
                       post: PostResult, inserts: nat -> InsertOutcome)
    requires token in s.txs && s.txs[token].code.Some? && s.txs[token].code != Some(code)
    requires s.txs[token].retries.None? || s.txs[token].retries.value <= 2
    requires s.txs[token].started.Some? && s.txs[token].started.value + TenMinutesMs < now
    ensures Verify(cfg, s, Some(token), Some(code), now, updateOk, post, inserts)
         == Step(Refuse(cfg, s, token, UserTimeout, updateOk), Generic(Some("vertimeout")))
  {
  }

  /** Otherwise a wrong code adds exactly one to the retry count and changes nothing else. */
  lemma WrongCodeCountsRetry(cfg: Config, s: Store, token: string, code: string, now: int,
                             post: PostResult, inserts: nat -> InsertOutcome)
    requires token in s.txs && s.txs[token].code.Some? && s.txs[token].code != Some(code)
    requires s.txs[token].retries.None? || s.txs[token].retries.value <= 2
    requires s.txs[token].started.Some? && now <= s.txs[token].started.value + TenMinutesMs
    ensures var st := Verify(cfg, s, Some(token), Some(code), now, true, post, inserts);
      var tx := s.txs[token];
      && st.resp == CodeForm(true)
      && st.store == s.(txs := s.txs[token := tx.(retries := Inc(tx.retries))])
      && (tx.retries.Some? ==> st.store.txs[token].retries == Some(tx.retries.value + 1))
  {
  }

  /**
   * In a well-formed store a wrong code for a transaction past state p never
   * throws: such a transaction always has its code and its start time.
   */
  lemma WrongCodeNeverThrows(cfg: Config, s: Store, token: string, code: string, now: int,
                             updateOk: bool, post: PostResult, inserts: nat -> InsertOutcome)
    requires WellFormed(s) && token in s.txs
    requires s.txs[token].state != Some(PendingCredentials) && s.txs[token].code != Some(code)
    ensures Verify(cfg, s, Some(token), Some(code), now, updateOk, post, inserts).resp != Fault
  {
    assert TxWellFormed(s.txs[token]);
  }

  /** verify on a transaction that has not reached the code phase throws: it has no stored code. */
  lemma VerifyBeforeEmailThrows(cfg: Config, s: Store, appName: string, appPassword: Option<string>,
                                rand: Option<seq<Base64Url.byte>>, t0: int, code: Option<string>, now: int,
                                updateOk: bool, post: PostResult, inserts: nat -> InsertOutcome)
    requires rand.Some? ==> |rand.value| == 20
    requires Begin(cfg, s, appName, appPassword, rand, t0, true).resp.Started?
    ensures var st := Begin(cfg, s, appName, appPassword, rand, t0, true);
      Verify(cfg, st.store, Some(st.resp.token), code, now, updateOk, post, inserts) == Step(st.store, Fault)
  {
  }

  /** With no registered sponsor, minting answers "noappreg" and changes nothing. */
  lemma MintWithoutSponsor(cfg: Config, s: Store, txId: string, now: int, updateOk: bool,
                           post: PostResult, inserts: nat -> InsertOutcome)
    requires txId in s.txs && s.txs[txId].email.Some? && s.txs[txId].sponsor !in cfg.apps
    ensures Mint(cfg, s, txId, now, updateOk, post, inserts) == Step(s, Generic(Some("noappreg")))
  {
  }

  /** Every insertion succeeds. */
  ghost predicate AllInserted(inserts: nat -> InsertOutcome) {
    forall i :: inserts(i) == Inserted
  }

  /** When every insertion succeeds the loop stores one badge per name and POSTs nothing. */
  lemma {:induction false} MintInferredAllInserted(s: Store, names: seq<string>, owner: string, expires: int,
                                                   appId: string, txId: string, reportUrl: string, now: int,
                                                   inserts: nat -> InsertOutcome, next: nat)
    requires AllInserted(inserts)
    ensures var m := MintInferred(s, names, owner, expires, appId, txId, reportUrl, now, inserts, next);
      && !m.crashed
      && m.store.badges == s.badges + m.badges
      && m.store.nextId == s.nextId + |names|
      && m.store.outbox == s.outbox
    decreases |names|
  {
    if |names| > 0 {
      assert inserts(next) == Inserted;
      var b := Badge(s.nextId, names[0], owner, Some(expires), InferredBadge, now, appId);
      var c := CreateBadge(s, names[0], owner, InferredBadge, expires, appId, txId, reportUrl, now, Inserted);
      assert c.result == Made(b) && c.store.badges == s.badges + [b];
      var rest := MintInferred(c.store, names[1..], owner, expires, appId, txId, reportUrl, now, inserts, next + 1);
      assert MintInferred(s, names, owner, expires, appId, txId, reportUrl, now, inserts, next)
          == Minted(rest.store, [b] + rest.badges, rest.crashed);
      MintInferredAllInserted(c.store, names[1..], owner, expires, appId, txId, reportUrl, now, inserts, next + 1);
      assert s.badges + [b] + rest.badges == s.badges + ([b] + rest.badges);
    }
  }

  /** A successful insertion stores the badge under the next identifier and hands it back. */
  lemma InsertedCreation(s: Store, name: string, owner: string, kind: BadgeType, expires: int,
                         appId: string, txId: string, reportUrl: string, now: int)
    ensures var b := Badge(s.nextId, name, owner, Some(expires), kind, now, appId);
      CreateBadge(s, name, owner, kind, expires, appId, txId, reportUrl, now, Inserted)
        == Creation(s.(nextId := s.nextId + 1, badges := s.badges + [b]), Made(b))
  {
  }

  /**
   * Once the email badge is made and the loop ends without an exception,
   * createAndTransmitBadge writes state a (when the update succeeds) and POSTs
   * one grant for the email badge and the loop's badges.
   */
  lemma MintUnfold(cfg: Config, s: Store, txId: string, now: int, updateOk: bool,
                   post: PostResult, inserts: nat -> InsertOutcome)
    requires txId in s.txs && s.txs[txId].email.Some? && s.txs[txId].sponsor in cfg.apps
    ensures var tx := s.txs[txId];
      var email := tx.email.value;
      var domain := EmailDomain(email);
      var reportUrl := cfg.endpoint + "/" + cfg.apps[tx.sponsor].callbackPath;
      var first := CreateBadge(s, domain, email, EmailBadge, now + OneYearMs, tx.sponsor, txId, reportUrl, now, inserts(0));
      var rest := MintInferred(first.store, InferredNames(cfg.graph, domain), email, now + OneYearMs,
                               tx.sponsor, txId, reportUrl, now, inserts, 1);
      var s2 := if updateOk then rest.store.(txs := rest.store.txs[txId := tx.(state := Some(Awarded))]) else rest.store;
      first.result.Made? && !rest.crashed ==>
        Mint(cfg, s, txId, now, updateOk, post, inserts)
          == Step(s2.(outbox := s2.outbox + [GrantNotice(cfg, txId, CallbackUrl(cfg, cfg.apps[tx.sponsor]),
                                                         [first.result.badge] + rest.badges)]),
                  GrantResponse(post))
  {
  }

  /**
   * When every insertion succeeds, one creation followed by the loop stores the
   * created badge and then the loop's badges, and writes nothing else.
   */
  lemma CreateThenLoop(s: Store, name: string, names: seq<string>, owner: string, expires: int,
                       appId: string, txId: string, reportUrl: string, now: int, inserts: nat -> InsertOutcome)
    requires AllInserted(inserts)
    ensures var first := CreateBadge(s, name, owner, EmailBadge, expires, appId, txId, reportUrl, now, inserts(0));
      var rest := MintInferred(first.store, names, owner, expires, appId, txId, reportUrl, now, inserts, 1);
      && first.result == Made(Badge(s.nextId, name, owner, Some(expires), EmailBadge, now, appId))
      && !rest.crashed
      && rest.store.badges == s.badges + ([first.result.badge] + rest.badges)
      && rest.store.txs == s.txs && rest.store.outbox == s.outbox
  {
    assert inserts(0) == Inserted;
    InsertedCreation(s, name, owner, EmailBadge, expires, appId, txId, reportUrl, now);
    var b0 := Badge(s.nextId, name, owner, Some(expires), EmailBadge, now, appId);
    var s1 := s.(nextId := s.nextId + 1, badges := s.badges + [b0]);
    MintInferredAllInserted(s1, names, owner, expires, appId, txId, reportUrl, now, inserts, 1);
    var rest := MintInferred(s1, names, owner, expires, appId, txId, reportUrl, now, inserts, 1);
    assert s.badges + [b0] + rest.badges == s.badges + ([b0] + rest.badges);
  }

  /**
   * When every insertion succeeds, createAndTransmitBadge's first creation and
   * loop store the email badge and then the inferred ones, and write nothing else.
   */
  lemma MintedSequence(cfg: Config, s: Store, txId: string, now: int, inserts: nat -> InsertOutcome)
    requires txId in s.txs && s.txs[txId].email.Some? && s.txs[txId].sponsor in cfg.apps
    requires AllInserted(inserts)
    ensures var tx := s.txs[txId];
      var email := tx.email.value;
      var domain := EmailDomain(email);
      var reportUrl := cfg.endpoint + "/" + cfg.apps[tx.sponsor].callbackPath;
      var first := CreateBadge(s, domain, email, EmailBadge, now + OneYearMs, tx.sponsor, txId, reportUrl, now, inserts(0));
      var rest := MintInferred(first.store, InferredNames(cfg.graph, domain), email, now + OneYearMs,
                               tx.sponsor, txId, reportUrl, now, inserts, 1);
      && first.result == Made(Badge(s.nextId, domain, email, Some(now + OneYearMs), EmailBadge, now, tx.sponsor))
      && !rest.crashed
      && rest.store.badges == s.badges + ([first.result.badge] + rest.badges)
      && rest.store.txs == s.txs && rest.store.outbox == s.outbox
  {
    var tx := s.txs[txId];
    var domain := EmailDomain(tx.email.value);
    CreateThenLoop(s, domain, InferredNames(cfg.graph, domain), tx.email.value, now + OneYearMs, tx.sponsor, txId,
                   cfg.endpoint + "/" + cfg.apps[tx.sponsor].callbackPath, now, inserts);
  }

  /** The badges appended after a prefix are the first badge, then the loop's badges in order. */
  lemma AppendedBadges(prefix: seq<Badge>, b0: Badge, made: seq<Badge>, names: seq<string>, owner: string, expires: int)
    requires |made| == |names|
    requires forall i | 0 <= i < |made| ::
      && made[i].name == names[i] && made[i].kind == InferredBadge
      && made[i].owner == owner && made[i].expires == Some(expires)
    ensures var all := prefix + ([b0] + made);
      var added := all[|prefix|..];
      && all == prefix + added
      && |added| == 1 + |names|
      && added[0] == b0
      && (forall i | 0 <= i < |names| ::
            && added[1 + i].name == names[i] && added[1 + i].kind == InferredBadge
            && added[1 + i].owner == owner && added[1 + i].expires == Some(expires))
  {
    var added := (prefix + ([b0] + made))[|prefix|..];
    assert added == [b0] + made;
    forall i | 0 <= i < |names|
      ensures && added[1 + i].name == names[i] && added[1 + i].kind == InferredBadge
              && added[1 + i].owner == owner && added[1 + i].expires == Some(expires)
    {
      assert added[1 + i] == made[i];
    }
  }

  /**
   * A successful mint stores the email badge (named after the domain) and then
   * one inferred badge per graph entry of the domain, in order, all expiring a
   * year from now.
   */
  lemma MintAllInserted(cfg: Config, s: Store, txId: string, now: int, updateOk: bool,
                        post: PostResult, inserts: nat -> InsertOutcome)
    requires txId in s.txs && s.txs[txId].email.Some? && s.txs[txId].sponsor in cfg.apps
    requires AllInserted(inserts)
    ensures var st := Mint(cfg, s, txId, now, updateOk, post, inserts);
      var tx := s.txs[txId];
      var email := tx.email.value;
      var domain := EmailDomain(email);
      var names := InferredNames(cfg.graph, domain);
      var added := st.store.badges[|s.badges|..];
      && st.store.badges == s.badges + added
      && |added| == 1 + |names|
      && added[0] == Badge(s.nextId, domain, email, Some(now + OneYearMs), EmailBadge, now, tx.sponsor)
      && (forall i | 0 <= i < |names| ::
            && added[1 + i].name == names[i] && added[1 + i].kind == InferredBadge
            && added[1 + i].owner == email && added[1 + i].expires == Some(now + OneYearMs))
  {
    var tx := s.txs[txId];
    var email := tx.email.value;
    var domain := EmailDomain(email);
    var reportUrl := cfg.endpoint + "/" + cfg.apps[tx.sponsor].callbackPath;
    var names := InferredNames(cfg.graph, domain);
    MintedSequence(cfg, s, txId, now, inserts);
    MintUnfold(cfg, s, txId, now, updateOk, post, inserts);
    var first := CreateBadge(s, domain, email, EmailBadge, now + OneYearMs, tx.sponsor, txId, reportUrl, now, inserts(0));
    var rest := MintInferred(first.store, names, email, now + OneYearMs, tx.sponsor, txId, reportUrl, now, inserts, 1);
    MintInferredBadges(first.store, names, email, now + OneYearMs, tx.sponsor, txId, reportUrl, now, inserts, 1);
    assert Mint(cfg, s, txId, now, updateOk, post, inserts).store.badges == s.badges + ([first.result.badge] + rest.badges);
    AppendedBadges(s.badges, first.result.badge, rest.badges, names, email, now + OneYearMs);
  }

  /**
   * Once the badges are stored, state a is written when the update succeeds,
   * and one grant listing exactly the new badges is POSTed whether or not it
   * did.
   */
  lemma MintAllInsertedNotifies(cfg: Config, s: Store, txId: string, now: int, updateOk: bool,
                                post: PostResult, inserts: nat -> InsertOutcome)
    requires txId in s.txs && s.txs[txId].email.Some? && s.txs[txId].sponsor in cfg.apps
    requires AllInserted(inserts)
    ensures var st := Mint(cfg, s, txId, now, updateOk, post, inserts);
      var tx := s.txs[txId];
      && |s.badges| <= |st.store.badges|
      && st.store.txs == (if updateOk then s.txs[txId := tx.(state := Some(Awarded))] else s.txs)
      && st.store.outbox == s.outbox + [GrantNotice(cfg, txId, CallbackUrl(cfg, cfg.apps[tx.sponsor]), st.store.badges[|s.badges|..])]
      && st.resp == GrantResponse(post)
  {
    var tx := s.txs[txId];
    var email := tx.email.value;
    var domain := EmailDomain(email);
    var reportUrl := cfg.endpoint + "/" + cfg.apps[tx.sponsor].callbackPath;
    MintedSequence(cfg, s, txId, now, inserts);
    MintUnfold(cfg, s, txId, now, updateOk, post, inserts);
    var first := CreateBadge(s, domain, email, EmailBadge, now + OneYearMs, tx.sponsor, txId, reportUrl, now, inserts(0));
    var rest := MintInferred(first.store, InferredNames(cfg.graph, domain), email, now + OneYearMs,
                             tx.sponsor, txId, reportUrl, now, inserts, 1);
    var st := Mint(cfg, s, txId, now, updateOk, post, inserts);
    assert st.store.badges == rest.store.badges;
    assert rest.store.badges[|s.badges|..] == [first.result.badge] + rest.badges;
  }

  /**
   * createBadge never looks for an existing badge: verifying twice with the
   * right code stores the whole set twice, so the same (name, owner) pair is
   * held by two badges.
   */
  lemma RepeatedVerifyDuplicatesBadges(cfg: Config, s: Store, token: string, code: string,
                                       now1: int, now2: int, updateOk: bool, post: PostResult,
                                       inserts: nat -> InsertOutcome)
    requires token in s.txs && s.txs[token].code == Some(code)
    requires s.txs[token].email.Some? && s.txs[token].sponsor in cfg.apps
    requires AllInserted(inserts)
    ensures var st1 := Verify(cfg, s, Some(token), Some(code), now1, updateOk, post, inserts);
      var st2 := Verify(cfg, st1.store, Some(token), Some(code), now2, updateOk, post, inserts);
      var n := 1 + |InferredNames(cfg.graph, EmailDomain(s.txs[token].email.value))|;
      && |st2.store.badges| == |s.badges| + 2 * n
      && st2.store.badges[|s.badges|].name == st2.store.badges[|s.badges| + n].name
      && st2.store.badges[|s.badges|].owner == st2.store.badges[|s.badges| + n].owner
  {
    MatchingCodeMints(cfg, s, token, code, now1, updateOk, post, inserts);
    MintAllInserted(cfg, s, token, now1, updateOk, post, inserts);
    var st1 := Verify(cfg, s, Some(token), Some(code), now1, updateOk, post, inserts);
    assert st1.store.txs[token].code == Some(code);
    assert st1.store.txs[token].email == s.txs[token].email;
    assert st1.store.txs[token].sponsor == s.txs[token].sponsor;
    MintAllInsertedNotifies(cfg, s, token, now1, updateOk, post, inserts);
    MatchingCodeMints(cfg, st1.store, token, code, now2, updateOk, post, inserts);
    MintAllInserted(cfg, st1.store, token, now2, updateOk, post, inserts);
  }
}
