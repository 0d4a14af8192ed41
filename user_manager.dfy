/** The user table operations of gardenhub/managers.py (UserManager):
    creating accounts and turning a list of email addresses into accounts,
    inviting the addresses the table does not know yet. */
module UserManager {
  import opened Records
  import opened Models

  datatype CreateError =
    | EmailNotSet
    | NotStaff
    | NotSuperuser
      /** The unique constraint on email refused the insert. */
    | EmailTaken

  datatype Result<T> = Ok(value: T) | Err(error: CreateError)

  /** Account fields a caller may pass; None leaves the field to its
      default. */
  datatype ExtraFields = ExtraFields(isActive: Option<bool>, isStaff: Option<bool>, isSuperuser: Option<bool>)

  /** The account _create_user stores; unset flags take the model
      defaults, all false. */
  function NewAccount(email: string, password: Option<string>, extra: ExtraFields): Account {
    Account(email, "", "", "", "", password,
      extra.isActive.GetOr(false), extra.isStaff.GetOr(false), extra.isSuperuser.GetOr(false), None)
  }

  /** _create_user: refuse an empty email, otherwise insert the account. */
  method CreateAccount(db: Database, email: string, password: Option<string>, extra: ExtraFields)
    returns (r: Result<UserId>)
    requires db.Valid()
    modifies db
    ensures db.Valid()
    ensures db.graph == old(db.graph) && db.outbox == old(db.outbox)
    ensures email == "" ==> r == Err(EmailNotSet) && db.users == old(db.users)
    ensures email != "" && email in Emails(old(db.users)) ==> r == Err(EmailTaken) && db.users == old(db.users)
    ensures email != "" && email !in Emails(old(db.users)) ==>
      r.Ok? && r.value !in old(db.users) && db.users == old(db.users)[r.value := NewAccount(email, password, extra)]
  {
    if email == "" {
      return Err(EmailNotSet);
    }
    if email in Emails(db.users) {
      return Err(EmailTaken);
    }
    var u := db.nextUserId;
    InsertKeepsUnique(db.users, u, NewAccount(email, password, extra));
    db.users := db.users[u := NewAccount(email, password, extra)];
    db.nextUserId := u + 1;
    r := Ok(u);
  }

  /** create_user: staff and superuser flags default to false. */
  method CreateUser(db: Database, email: string, password: Option<string>, extra: ExtraFields)
    returns (r: Result<UserId>)
    requires db.Valid()
    modifies db
    ensures db.Valid()
    ensures db.graph == old(db.graph) && db.outbox == old(db.outbox)
    ensures r.Err? <==> email == "" || email in Emails(old(db.users))
    ensures r.Err? ==> db.users == old(db.users)
    ensures r.Ok? ==> (r.value !in old(db.users) &&
      db.users == old(db.users)[r.value := NewAccount(email, password, extra)])
  {
    r := CreateAccount(db, email, password,
      ExtraFields(extra.isActive, Some(extra.isStaff.GetOr(false)), Some(extra.isSuperuser.GetOr(false))));
  }

  /** create_superuser: active, staff and superuser default to true, and
      an explicit false for staff or superuser is refused before anything
      else is looked at. */
  method CreateSuperuser(db: Database, email: string, password: Option<string>, extra: ExtraFields)
    returns (r: Result<UserId>)
    requires db.Valid()
    modifies db
    ensures db.Valid()
    ensures db.graph == old(db.graph) && db.outbox == old(db.outbox)
    ensures r == Err(NotStaff) <==> extra.isStaff == Some(false)
    ensures r == Err(NotSuperuser) <==> extra.isStaff != Some(false) && extra.isSuperuser == Some(false)
    ensures r.Err? ==> db.users == old(db.users)
    ensures r.Ok? ==> r.value !in old(db.users) && db.users == old(db.users)[r.value :=
      NewAccount(email, password, ExtraFields(Some(extra.isActive.GetOr(true)), Some(true), Some(true)))]
    ensures r.Ok? <==> (extra.isStaff != Some(false) && extra.isSuperuser != Some(false)
      && email != "" && email !in Emails(old(db.users)))
  {
    var isStaff := extra.isStaff.GetOr(true);
    var isSuperuser := extra.isSuperuser.GetOr(true);
    if !isStaff {
      return Err(NotStaff);
    }
    if !isSuperuser {
      return Err(NotSuperuser);
    }
    r := CreateAccount(db, email, password,
      ExtraFields(Some(extra.isActive.GetOr(true)), Some(true), Some(true)));
  }

  // ---------------------------------------------------------------------
  // get_or_invite_users

  /** The addresses of `emails` that are not in `known`, in order of first
      appearance: the ones get_or_invite_users invites. */
  function NewEmails(known: set<string>, emails: seq<string>): seq<string>
    decreases |emails|
  {
    if emails == [] then []
    else
      var earlier := NewEmails(known, emails[..|emails| - 1]);
      var e := emails[|emails| - 1];
      if e in known || e in earlier then earlier else earlier + [e]
  }

  /** Every unknown address of the list is invited, once, and nothing
      else is. */
  lemma {:induction false} NewEmailsSpec(known: set<string>, emails: seq<string>)
    ensures forall e :: e in NewEmails(known, emails) <==> e in emails && e !in known
    ensures forall i, j :: 0 <= i < j < |NewEmails(known, emails)| ==>
      NewEmails(known, emails)[i] != NewEmails(known, emails)[j]
    ensures |NewEmails(known, emails)| <= |emails|
    decreases |emails|
  {
    if emails != [] {
      var prefix := emails[..|emails| - 1];
      NewEmailsSpec(known, prefix);
      assert emails == prefix + [emails[|emails| - 1]];
    }
  }

  /** An account the invitation loop created: blank apart from its email
      and a token. */
  predicate IsInvitee(a: Account) {
    a.activationToken.Some? && a == BlankAccount(a.email).(activationToken := a.activationToken)
  }

  /** `m` invites the account of `users` that has address `email`, with
      that account's token. */
  predicate InvitesTo(users: map<UserId, Account>, m: Mail, email: string, subject: string) {
    && m.to in users
    && users[m.to].email == email
    && m.subject == subject
    && m.body.Invitation?
    && users[m.to].activationToken == Some(m.body.activationToken)
  }

  function InvitationSubject(inviter: Account): string {
    GetFullName(inviter) + " invited you to join GardenHub"
  }

  /** The addresses of a list, as a set. */
  function AddressSet(emails: seq<string>): set<string> {
    set e | e in emails
  }

  lemma AddressSetAppend(emails: seq<string>, e: string)
    ensures AddressSet(emails + [e]) == AddressSet(emails) + {e}
  {
    assert e in emails + [e];
    forall x | x in AddressSet(emails) ensures x in AddressSet(emails + [e]) {
      assert x in emails + [e];
    }
  }

  /** Appending an address extends the invitation list exactly when the
      address is neither known nor already on the list. */
  lemma NewEmailsAppend(known: set<string>, emails: seq<string>, e: string)
    ensures NewEmails(known, emails + [e]) ==
      if e in known || e in emails then NewEmails(known, emails) else NewEmails(known, emails) + [e]
  {
    assert (emails + [e])[..|emails|] == emails;
    NewEmailsSpec(known, emails);
  }

  lemma EmailsAfterInsert(users: map<UserId, Account>, u: UserId, a: Account)
    requires u !in users
    ensures Emails(users[u := a]) == Emails(users) + {a.email}
  {
    var users' := users[u := a];
    forall e | e in Emails(users') ensures e in Emails(users) + {a.email} {
      var v :| v in users' && users'[v].email == e;
      if v != u {
        assert users[v].email == e;
      }
    }
    forall e | e in Emails(users) ensures e in Emails(users') {
      var v :| v in users && users[v].email == e;
      assert users'[v].email == e;
    }
    assert a.email == users'[u].email;
  }

  /** get_or_create on the email column, followed by issuing a token and
      mailing the invitation when the account was created. */
  method GetOrCreate(db: Database, e: string, subject: string) returns (u: UserId, created: bool)
    requires db.Valid()
    modifies db
    ensures db.Valid()
    ensures db.graph == old(db.graph)
    ensures created <==> e !in Emails(old(db.users))
    ensures u in db.users && db.users[u].email == e
    ensures Emails(db.users) == Emails(old(db.users)) + {e}
    ensures Extends(old(db.users), db.users)
    ensures !created ==> db.users == old(db.users) && db.outbox == old(db.outbox)
    ensures created ==>
      && u !in old(db.users)
      && IsInvitee(db.users[u])
      && db.users == old(db.users)[u := db.users[u]]
      && db.outbox == old(db.outbox) + [Mail(u, subject, Invitation(db.users[u].activationToken.value))]
  {
    if e in Emails(db.users) {
      u :| u in db.users && db.users[u].email == e;
      created := false;
    } else {
      u := db.nextUserId;
      var token := db.nextToken;
      var account := BlankAccount(e).(activationToken := Some(token));
      EmailsAfterInsert(db.users, u, account);
      InsertKeepsUnique(db.users, u, account);
      db.users := db.users[u := account];
      db.nextUserId := u + 1;
      db.nextToken := token + 1;
      db.outbox := db.outbox + [Mail(u, subject, Invitation(token))];
      created := true;
    }
  }

  /** `users` keeps every account of `users0` unchanged. */
  predicate Extends(users0: map<UserId, Account>, users: map<UserId, Account>) {
    forall u :: u in users0 ==> u in users && users[u] == users0[u]
  }

  /** Entry i of `ids` is the account of `users` with address `emails[i]`. */
  predicate Resolves(users: map<UserId, Account>, ids: seq<UserId>, emails: seq<string>) {
    && |ids| == |emails|
    && forall i :: 0 <= i < |ids| ==> ids[i] in users && users[ids[i]].email == emails[i]
  }

  lemma ResolvesAppend(users: map<UserId, Account>, users': map<UserId, Account>, ids: seq<UserId>,
                       emails: seq<string>, u: UserId, e: string)
    requires Resolves(users, ids, emails) && Extends(users, users')
    requires u in users' && users'[u].email == e
    ensures Resolves(users', ids + [u], emails + [e])
  {
    forall i | 0 <= i < |ids| ensures ids[i] in users' && users'[ids[i]].email == emails[i] {
      assert ids[i] in users;
    }
  }

  lemma ExtendsTransitive(a: map<UserId, Account>, b: map<UserId, Account>, c: map<UserId, Account>)
    requires Extends(a, b) && Extends(b, c)
    ensures Extends(a, c)
  {
  }

  /** The mails appended to `outbox0` to make `outbox` are one invitation
      per address of `invited`, in order. */
  predicate InvitedInOrder(users: map<UserId, Account>, outbox0: seq<Mail>, outbox: seq<Mail>,
                           invited: seq<string>, subject: string) {
    && |outbox| == |outbox0| + |invited|
    && outbox[..|outbox0|] == outbox0
    && forall j :: 0 <= j < |invited| ==> InvitesTo(users, outbox[|outbox0| + j], invited[j], subject)
  }

  /** Adding an account keeps earlier invitations valid. */
  lemma InvitedAfterInsert(users: map<UserId, Account>, u: UserId, a: Account, outbox0: seq<Mail>,
                           outbox: seq<Mail>, invited: seq<string>, subject: string)
    requires u !in users
    requires InvitedInOrder(users, outbox0, outbox, invited, subject)
    ensures InvitedInOrder(users[u := a], outbox0, outbox, invited, subject)
  {
    var users' := users[u := a];
    forall j | 0 <= j < |invited| ensures InvitesTo(users', outbox[|outbox0| + j], invited[j], subject) {
      assert InvitesTo(users, outbox[|outbox0| + j], invited[j], subject);
    }
  }

  /** Appending the invitation of a new address extends the invitation list. */
  lemma InvitedAppend(users: map<UserId, Account>, outbox0: seq<Mail>, outbox: seq<Mail>,
                      invited: seq<string>, subject: string, m: Mail, e: string)
    requires InvitedInOrder(users, outbox0, outbox, invited, subject)
    requires InvitesTo(users, m, e, subject)
    ensures InvitedInOrder(users, outbox0, outbox + [m], invited + [e], subject)
  {
    var outbox' := outbox + [m];
    assert outbox'[..|outbox0|] == outbox[..|outbox0|];
    forall j | 0 <= j < |invited| + 1 ensures InvitesTo(users, outbox'[|outbox0| + j], (invited + [e])[j], subject) {
      if j < |invited| {
        assert outbox'[|outbox0| + j] == outbox[|outbox0| + j];
      }
    }
  }

  /** What the invitation loop has achieved after resolving `prefix`,
      starting from the table `users0` whose addresses are `known` and the
      outbox `outbox0`. */
  predicate Progress(users0: map<UserId, Account>, known: set<string>, outbox0: seq<Mail>, subject: string,
                     users: map<UserId, Account>, outbox: seq<Mail>, ids: seq<UserId>, prefix: seq<string>) {
    && Resolves(users, ids, prefix)
    && Extends(users0, users)
    && Emails(users) == known + AddressSet(prefix)
    && (forall u :: u in users && u !in users0 ==> IsInvitee(users[u]))
    && InvitedInOrder(users, outbox0, outbox, NewEmails(known, prefix), subject)
  }

  /** One pass of the invitation loop: resolving address `e` to `u`, as
      GetOrCreate does, extends the progress by one address. */
  lemma ProgressStep(users0: map<UserId, Account>, known: set<string>, outbox0: seq<Mail>, subject: string,
                     before: map<UserId, Account>, outboxBefore: seq<Mail>, ids: seq<UserId>, prefix: seq<string>,
                     after: map<UserId, Account>, outboxAfter: seq<Mail>, e: string, u: UserId, created: bool)
    requires Progress(users0, known, outbox0, subject, before, outboxBefore, ids, prefix)
    requires created <==> e !in Emails(before)
    requires u in after && after[u].email == e
    requires Emails(after) == Emails(before) + {e}
    requires Extends(before, after)
    requires !created ==> after == before && outboxAfter == outboxBefore
    requires created ==>
      && u !in before
      && IsInvitee(after[u])
      && after == before[u := after[u]]
      && outboxAfter == outboxBefore + [Mail(u, subject, Invitation(after[u].activationToken.value))]
    ensures Progress(users0, known, outbox0, subject, after, outboxAfter, ids + [u], prefix + [e])
  {
    NewEmailsAppend(known, prefix, e);
    AddressSetAppend(prefix, e);
    ExtendsTransitive(users0, before, after);
    ResolvesAppend(before, after, ids, prefix, u, e);
    if created {
      assert e !in known && e !in prefix;
      InvitedAfterInsert(before, u, after[u], outbox0, outboxBefore, NewEmails(known, prefix), subject);
      InvitedAppend(after, outbox0, outboxBefore, NewEmails(known, prefix), subject,
        Mail(u, subject, Invitation(after[u].activationToken.value)), e);
      forall v | v in after && v !in users0 ensures IsInvitee(after[v]) {
        if v != u {
          assert v in before;
        }
      }
    } else {
      assert e in known || e in prefix;
    }
  }

  lemma TakeOneMore(s: seq<string>, i: nat)
    requires i < |s|
    ensures s[..i + 1] == s[..i] + [s[i]]
  {
  }

  /** get_or_invite_users: one account per address, in order; an address
      the table does not know yet gets a new account with a fresh token
      and exactly one invitation; known accounts are left as they were. */
  method GetOrInviteUsers(db: Database, emails: seq<string>, inviter: UserId) returns (users: seq<UserId>)
    requires db.Valid() && inviter in db.users
    modifies db
    ensures db.Valid()
    ensures db.graph == old(db.graph)
    ensures Resolves(db.users, users, emails)
    ensures Extends(old(db.users), db.users)
    ensures Emails(db.users) == Emails(old(db.users)) + AddressSet(emails)
    ensures forall u :: u in db.users && u !in old(db.users) ==> IsInvitee(db.users[u])
    ensures InvitedInOrder(db.users, old(db.outbox), db.outbox,
      NewEmails(Emails(old(db.users)), emails), InvitationSubject(old(db.users)[inviter]))
  {
    ghost var users0 := db.users;
    ghost var known := Emails(db.users);
    ghost var outbox0 := db.outbox;
    var subject := InvitationSubject(db.users[inviter]);
    users := [];
    var i := 0;
    assert emails[..0] == [];
    while i < |emails|
      invariant 0 <= i <= |emails|
      invariant db.Valid()
      invariant db.graph == old(db.graph)
      invariant Progress(users0, known, outbox0, subject, db.users, db.outbox, users, emails[..i])
    {
      var e := emails[i];
      ghost var before := db.users;
      ghost var outboxBefore := db.outbox;
      var u, created := GetOrCreate(db, e, subject);
      ProgressStep(users0, known, outbox0, subject, before, outboxBefore, users, emails[..i],
        db.users, db.outbox, e, u, created);
      TakeOneMore(emails, i);
      users := users + [u];
      i := i + 1;
    }
    assert emails[..i] == emails;
  }
}
