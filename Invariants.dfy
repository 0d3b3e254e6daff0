/**
 * Every request step keeps a store well formed: each transaction document has
 * a state, a start time and a non-negative retry count, carries a code and an
 * address exactly when it has left the credentials state, its address holds
 * an '@', and badge identifiers grow in insertion order.
 */
module Invariants {
  import opened Wrappers
  import opened Records
  import opened Protocol
  import Base64Url

  /** Writing one well-formed transaction document keeps the store well formed. */
  lemma WriteKeepsWellFormed(s: Store, k: string, tx: Transaction)
    requires WellFormed(s) && TxWellFormed(tx)
    ensures WellFormed(s.(txs := s.txs[k := tx]))
  {
  }

  lemma BeginPreservesWellFormed(cfg: Config, s: Store, appName: string, appPassword: Option<string>,
                                 rand: Option<seq<Base64Url.byte>>, now: int, insertOk: bool)
    requires rand.Some? ==> |rand.value| == 20
    ensures WellFormed(s) ==> WellFormed(Begin(cfg, s, appName, appPassword, rand, now, insertOk).store)
  {
    if WellFormed(s) && rand.Some? {
      WriteKeepsWellFormed(s, Token(appName, rand.value), NewTransaction(appName, now));
    }
  }

  lemma IssueCodePreservesWellFormed(s: Store, token: string, email: string, now: int,
                                     rand: Option<seq<Base64Url.byte>>, updateOk: bool, mail: MailOutcome)
    requires WellFormed(s) && token in s.txs && '@' in email
    requires rand.Some? ==> |rand.value| == 8
    ensures WellFormed(IssueCode(s, token, email, now, rand, updateOk, mail).store)
  {
    if rand.Some? && updateOk {
      var tx := EnterVerification(s.txs[token], VerificationCode(rand.value), email, now);
      assert TxWellFormed(s.txs[token]);
      WriteKeepsWellFormed(s, token, tx);
    }
  }

  lemma SubmitEmailPreservesWellFormed(cfg: Config, s: Store, token: Option<string>, email: Option<string>,
                                       now: int, rand: Option<seq<Base64Url.byte>>, updateOk: bool,
                                       mail: MailOutcome, post: PostResult)
    requires rand.Some? ==> |rand.value| == 8
    ensures WellFormed(s) ==> WellFormed(SubmitEmail(cfg, s, token, email, now, rand, updateOk, mail, post).store)
  {
    var st := SubmitEmail(cfg, s, token, email, now, rand, updateOk, mail, post);
    if WellFormed(s) && st.store.txs != s.txs {
      var tx := s.txs[token.value];
      assert TxWellFormed(tx);
      WriteKeepsWellFormed(s, token.value, EnterVerification(tx, VerificationCode(rand.value), email.value, now));
    }
  }

  lemma CreateBadgeKeepsIdsOrdered(s: Store, name: string, owner: string, kind: BadgeType, expires: int,
                                   appId: string, txId: string, reportUrl: string, now: int,
                                   outcome: InsertOutcome)
    requires BadgeIdsOrdered(s.badges, s.nextId)
    ensures var c := CreateBadge(s, name, owner, kind, expires, appId, txId, reportUrl, now, outcome);
      BadgeIdsOrdered(c.store.badges, c.store.nextId)
  {
  }

  lemma {:induction false} MintInferredKeepsIdsOrdered(s: Store, names: seq<string>, owner: string, expires: int,
                                                       appId: string, txId: string, reportUrl: string, now: int,
                                                       inserts: nat -> InsertOutcome, next: nat)
    requires BadgeIdsOrdered(s.badges, s.nextId)
    ensures var m := MintInferred(s, names, owner, expires, appId, txId, reportUrl, now, inserts, next);
      BadgeIdsOrdered(m.store.badges, m.store.nextId)
    decreases |names|
  {
    if |names| > 0 {
      CreateBadgeKeepsIdsOrdered(s, names[0], owner, InferredBadge, expires, appId, txId, reportUrl, now, inserts(next));
      var c := CreateBadge(s, names[0], owner, InferredBadge, expires, appId, txId, reportUrl, now, inserts(next));
      if c.result.Made? {
        MintInferredKeepsIdsOrdered(c.store, names[1..], owner, expires, appId, txId, reportUrl, now, inserts, next + 1);
      }
    }
  }

  lemma MintPreservesWellFormed(cfg: Config, s: Store, txId: string, now: int, updateOk: bool,
                                post: PostResult, inserts: nat -> InsertOutcome)
    requires WellFormed(s) && txId in s.txs && s.txs[txId].code.Some?
    ensures WellFormed(Mint(cfg, s, txId, now, updateOk, post, inserts).store)
  {
    var tx := s.txs[txId];
    if tx.email.Some? && tx.sponsor in cfg.apps {
      var email := tx.email.value;
      var domain := EmailDomain(email);
      var app := cfg.apps[tx.sponsor];
      var reportUrl := cfg.endpoint + "/" + app.callbackPath;
      var expires := now + OneYearMs;
      CreateBadgeKeepsIdsOrdered(s, domain, email, EmailBadge, expires, tx.sponsor, txId, reportUrl, now, inserts(0));
      var first := CreateBadge(s, domain, email, EmailBadge, expires, tx.sponsor, txId, reportUrl, now, inserts(0));
      var names := InferredNames(cfg.graph, domain);
      MintInferredKeepsIdsOrdered(first.store, names, email, expires, tx.sponsor, txId, reportUrl, now, inserts, 1);
      var rest := MintInferred(first.store, names, email, expires, tx.sponsor, txId, reportUrl, now, inserts, 1);
      assert WellFormed(rest.store);
      assert TxWellFormed(tx);
      WriteKeepsWellFormed(rest.store, txId, tx.(state := Some(Awarded)));
    }
  }

  lemma RefusePreservesWellFormed(cfg: Config, s: Store, txId: string, reason: RefusalReason, updateOk: bool)
    requires WellFormed(s) && txId in s.txs && s.txs[txId].code.Some?
    ensures WellFormed(Refuse(cfg, s, txId, reason, updateOk))
  {
    var tx := s.txs[txId];
    assert TxWellFormed(tx);
    WriteKeepsWellFormed(s, txId, tx.(state := Some(Refused(reason)), retries := Inc(tx.retries)));
  }

  /** A wrong code refuses the badge, counts one more retry, or changes nothing. */
  lemma MismatchPreservesWellFormed(cfg: Config, s: Store, token: string, code: string, now: int,
                                    updateOk: bool, post: PostResult, inserts: nat -> InsertOutcome)
    requires WellFormed(s) && token in s.txs && s.txs[token].code.Some? && s.txs[token].code != Some(code)
    ensures WellFormed(Verify(cfg, s, Some(token), Some(code), now, updateOk, post, inserts).store)
  {
    var tx := s.txs[token];
    assert TxWellFormed(tx);
    if tx.retries.Some? && tx.retries.value > 2 {
      RefusePreservesWellFormed(cfg, s, token, TooManyRetries, updateOk);
    } else if tx.started.Some? && tx.started.value + TenMinutesMs < now {
      RefusePreservesWellFormed(cfg, s, token, UserTimeout, updateOk);
    } else {
      WriteKeepsWellFormed(s, token, tx.(retries := Inc(tx.retries)));
    }
  }

  lemma VerifyPreservesWellFormed(cfg: Config, s: Store, token: Option<string>, code: Option<string>, now: int,
                                  updateOk: bool, post: PostResult, inserts: nat -> InsertOutcome)
    ensures WellFormed(s) ==> WellFormed(Verify(cfg, s, token, code, now, updateOk, post, inserts).store)
  {
    if WellFormed(s) && token.Some? && token.value in s.txs && code.Some? && s.txs[token.value].code.Some? {
      if Some(code.value) == s.txs[token.value].code {
        MintPreservesWellFormed(cfg, s, token.value, now, updateOk, post, inserts);
      } else {
        MismatchPreservesWellFormed(cfg, s, token.value, code.value, now, updateOk, post, inserts);
      }
    }
  }
}
