/** The request-level decisions of gardenhub/views.py: which orders block a
    new one, who may cancel or view an order, who is mailed when an order or
    a pick is created, how an invited account is activated, how the account
    settings form treats passwords, and which plot form fields are locked.
    Each view is a method over the database; `today` is the local day and
    `now` the current timestamp, passed in. */
module Views {
  import opened Records
  import opened OrderQuerySet
  import opened Models

  /** What a view answers. */
  datatype Response =
      /** LoginRequiredMixin sent a request with no logged-in user to the
          login page. */
    | LoginRedirect
    | Forbidden
    | NotFound
      /** The form is shown again, with the error that stopped it. */
    | FormErrors(error: FormError)
      /** The form is shown, blank or as submitted. */
    | RenderForm
    | Redirect(to: Page)

  /** The user a request carries, as LoginRequiredMixin sees it: an
      existing account that is active. Django's default ModelBackend lets
      no inactive account log in, and reads the session of one as
      anonymous. */
  predicate LoggedIn(users: map<UserId, Account>, u: UserId) {
    u in users && users[u].isActive
  }

  datatype FormError = InvalidFields | PlotNotAllowed | Overlap

  datatype Page = HomePage | OrderListPage | OrderDetailPage(order: OrderId) | AccountSettingsPage | LogoutPage

  // ---------------------------------------------------------------------
  // Mailing every member of a set once

  /** The addressees of a run of mails. */
  function Addressees(sent: seq<Mail>): set<UserId> {
    set m | m in sent :: m.to
  }

  /** `sent` mails every user of `recipients` exactly once, all with the
      same subject and body. */
  predicate MailsEachOnce(sent: seq<Mail>, recipients: set<UserId>, subject: string, body: MailBody) {
    && |sent| == |recipients|
    && Addressees(sent) == recipients
    && (forall j :: 0 <= j < |sent| ==> sent[j].subject == subject && sent[j].body == body)
    && (forall i, j :: 0 <= i < j < |sent| ==> sent[i].to != sent[j].to)
  }

  /** Part way through mailing `recipients`: `sent` has mailed each user
      not in `remaining` once. */
  predicate MailedAllBut(sent: seq<Mail>, recipients: set<UserId>, remaining: set<UserId>, subject: string, body: MailBody) {
    && remaining <= recipients
    && |sent| + |remaining| == |recipients|
    && Addressees(sent) == recipients - remaining
    && (forall j :: 0 <= j < |sent| ==> sent[j].subject == subject && sent[j].body == body)
    && (forall i, j :: 0 <= i < j < |sent| ==> sent[i].to != sent[j].to)
  }

  /** Mailing one more of the remaining users keeps the count. */
  lemma MailedOneMore(sent: seq<Mail>, recipients: set<UserId>, remaining: set<UserId>,
                      subject: string, body: MailBody, v: UserId)
    requires MailedAllBut(sent, recipients, remaining, subject, body) && v in remaining
    ensures MailedAllBut(sent + [Mail(v, subject, body)], recipients, remaining - {v}, subject, body)
  {
    var m := Mail(v, subject, body);
    AddresseesAppend(sent, m);
    forall i | 0 <= i < |sent| ensures sent[i].to != v {
      assert sent[i] in sent;
    }
  }

  /** The loop `for user in users: user.email_user(subject, ...)`: one mail
      per member of the set, in an order the database chooses. */
  method MailEach(db: Database, recipients: set<UserId>, subject: string, body: MailBody)
    requires db.Valid()
    modifies db
    ensures db.Valid()
    ensures db.graph == old(db.graph) && db.users == old(db.users)
    ensures db.nextOrderId == old(db.nextOrderId) && db.nextPickId == old(db.nextPickId)
    ensures db.nextUserId == old(db.nextUserId) && db.nextToken == old(db.nextToken)
    ensures |db.outbox| >= |old(db.outbox)| && db.outbox[..|old(db.outbox)|] == old(db.outbox)
    ensures MailsEachOnce(db.outbox[|old(db.outbox)|..], recipients, subject, body)
  {
    var sent: seq<Mail> := [];
    var remaining := recipients;
    ghost var outbox0 := db.outbox;
    while remaining != {}
      invariant db.graph == old(db.graph) && db.users == old(db.users)
      invariant db.nextOrderId == old(db.nextOrderId) && db.nextPickId == old(db.nextPickId)
      invariant db.nextUserId == old(db.nextUserId) && db.nextToken == old(db.nextToken)
      invariant db.outbox == outbox0 + sent
      invariant MailedAllBut(sent, recipients, remaining, subject, body)
      decreases remaining
    {
      var v :| v in remaining;
      MailedOneMore(sent, recipients, remaining, subject, body, v);
      sent := sent + [Mail(v, subject, body)];
      db.outbox := db.outbox + [Mail(v, subject, body)];
      remaining := remaining - {v};
    }
    assert db.outbox[|outbox0|..] == sent;
    assert db.outbox[..|outbox0|] == outbox0;
  }

  lemma AddresseesAppend(sent: seq<Mail>, m: Mail)
    ensures Addressees(sent + [m]) == Addressees(sent) + {m.to}
  {
    assert m in sent + [m];
    forall x | x in Addressees(sent) ensures x in Addressees(sent + [m]) {
      var n :| n in sent && n.to == x;
      assert n in sent + [m];
    }
  }

  /** Mailing each member once reaches a user exactly when the user is a
      member, and never mails anyone twice. */
  lemma MailsEachOnceReaches(sent: seq<Mail>, recipients: set<UserId>, subject: string, body: MailBody, v: UserId)
    requires MailsEachOnce(sent, recipients, subject, body)
    ensures v in recipients <==> exists j :: 0 <= j < |sent| && sent[j].to == v
    ensures |set j | 0 <= j < |sent| && sent[j].to == v| <= 1
  {
    var hits := set j | 0 <= j < |sent| && sent[j].to == v;
    if v in recipients {
      var m :| m in sent && m.to == v;
      var j :| 0 <= j < |sent| && sent[j] == m;
      assert hits == {j};
    } else {
      assert hits == {};
    }
  }

  // ---------------------------------------------------------------------
  // OrderCreateView

  /** True when the order's dates meet the range [start, end]. */
  predicate DatesMeet(o: Order, start: int, end: int) {
    o.startDate <= end && o.endDate >= start
  }

  /** The orders that stop a new order: orders on the same plot whose dates
      meet the new range, narrowed to the active ones. */
  function OverlappingOrders(orders: QuerySet, plot: PlotId, start: int, end: int, today: int): QuerySet {
    Active(map o | o in orders && orders[o].plot == plot && DatesMeet(orders[o], start, end) :: orders[o], today)
  }

  /** An order blocks the new range exactly when it is on the same plot,
      meets the range and covers today. */
  lemma OverlapIff(orders: QuerySet, plot: PlotId, start: int, end: int, today: int)
    ensures forall o :: o in OverlappingOrders(orders, plot, start, end, today) <==>
      (o in orders && orders[o].plot == plot
       && orders[o].startDate <= end && orders[o].endDate >= start
       && orders[o].startDate <= today <= orders[o].endDate)
  {
  }

  /** A range that starts after every order on the plot has ended is never
      refused, and neither is one when no order on the plot covers today:
      upcoming and completed orders do not block. */
  lemma NonBlockingOrders(orders: QuerySet, plot: PlotId, start: int, end: int, today: int)
    ensures (forall o :: o in orders && orders[o].plot == plot ==> orders[o].endDate < start)
      ==> |OverlappingOrders(orders, plot, start, end, today)| == 0
    ensures (forall o :: o in orders && orders[o].plot == plot ==> !Covers(orders[o], today))
      ==> |OverlappingOrders(orders, plot, start, end, today)| == 0
  {
    var r := OverlappingOrders(orders, plot, start, end, today);
    if (forall o :: o in orders && orders[o].plot == plot ==> orders[o].endDate < start) {
      assert r == map[];
    }
    if (forall o :: o in orders && orders[o].plot == plot ==> !Covers(orders[o], today)) {
      assert r == map[];
    }
  }

  /** A canceled order still blocks: active() does not look at canceled. */
  lemma CanceledOrderStillBlocks(orders: QuerySet, id: OrderId, start: int, end: int, today: int)
    requires id in orders && orders[id].canceled
    requires DatesMeet(orders[id], start, end) && Covers(orders[id], today)
    ensures |OverlappingOrders(orders, orders[id].plot, start, end, today)| > 0
  {
    assert id in OverlappingOrders(orders, orders[id].plot, start, end, today);
  }

  /** What the order form submits. Whatever it says about canceled and the
      requester is overridden. */
  datatype OrderSubmission = OrderSubmission(
    plot: PlotId, startDate: int, endDate: int, canceled: bool, requester: UserId)

  /** The order the form saves: the submitted plot and dates on an order
      that is not canceled and is requested by the acting user. */
  function OrderFromForm(s: OrderSubmission, actor: UserId): (r: Order)
    ensures r.requester == actor && !r.canceled && r.canceledTimestamp == None
    ensures r.plot == s.plot && r.startDate == s.startDate && r.endDate == s.endDate
  {
    Order(s.plot, actor, s.startDate, s.endDate, false, None)
  }

  /** The order form's verdict. The plot must be one the actor can edit
      (the restricted choice field) and the other fields must clean; only
      then are overlapping orders looked for. */
  function CheckOrderForm(g: Graph, actor: UserId, s: OrderSubmission, fieldsValid: bool, today: int): Option<FormError>
    requires g.Valid()
  {
    if !fieldsValid then Some(InvalidFields)
    else if s.plot !in GetPlots(g, actor) then Some(PlotNotAllowed)
    else if |OverlappingOrders(g.orders, s.plot, s.startDate, s.endDate, today)| > 0 then Some(Overlap)
    else None
  }

  /** A form whose fields clean and whose plot the actor can edit gets the
      overlap error exactly when some active order on the plot meets the
      new dates. */
  lemma OverlapErrorIff(g: Graph, actor: UserId, s: OrderSubmission, today: int)
    requires g.Valid() && s.plot in GetPlots(g, actor)
    ensures CheckOrderForm(g, actor, s, true, today) == Some(Overlap) <==>
      exists o :: o in g.orders && g.orders[o].plot == s.plot
        && DatesMeet(g.orders[o], s.startDate, s.endDate) && Covers(g.orders[o], today)
    ensures CheckOrderForm(g, actor, s, true, today) == None <==>
      forall o :: o in g.orders && g.orders[o].plot == s.plot && DatesMeet(g.orders[o], s.startDate, s.endDate)
        ==> !Covers(g.orders[o], today)
  {
    var r := OverlappingOrders(g.orders, s.plot, s.startDate, s.endDate, today);
    if exists o :: o in g.orders && g.orders[o].plot == s.plot
        && DatesMeet(g.orders[o], s.startDate, s.endDate) && Covers(g.orders[o], today) {
      var o :| o in g.orders && g.orders[o].plot == s.plot
        && DatesMeet(g.orders[o], s.startDate, s.endDate) && Covers(g.orders[o], today);
      assert o in r;
    } else {
      assert r == map[];
    }
  }

  function NewOrderSubject(g: Graph, p: PlotId): string
    requires g.Valid() && p in g.plots
  {
    "New order on plot " + g.plots[p].title + " in " + g.GardenOf(p).title
  }

  /** OrderCreateView: only gardeners may use it; a valid form saves the
      order and mails every picker of the plot's garden once. */
  method CreateOrder(db: Database, actor: UserId, s: OrderSubmission, fieldsValid: bool, today: int)
    returns (r: Response)
    requires db.Valid()
    modifies db
    ensures db.Valid()
    ensures db.users == old(db.users)
    ensures !LoggedIn(old(db.users), actor) ==> r == LoginRedirect
    ensures LoggedIn(old(db.users), actor) && !IsGardener(old(db.graph), actor) ==> r == Forbidden
    ensures LoggedIn(old(db.users), actor) && IsGardener(old(db.graph), actor) && CheckOrderForm(old(db.graph), actor, s, fieldsValid, today).Some? ==>
      r == FormErrors(CheckOrderForm(old(db.graph), actor, s, fieldsValid, today).value)
    ensures !r.Redirect? ==> db.graph == old(db.graph) && db.outbox == old(db.outbox)
    ensures r.Redirect? <==>
      LoggedIn(old(db.users), actor) && IsGardener(old(db.graph), actor) && CheckOrderForm(old(db.graph), actor, s, fieldsValid, today) == None
    ensures r.Redirect? ==>
      var id := old(db.nextOrderId);
      && r.to == OrderDetailPage(id)
      && id !in old(db.graph.orders)
      && db.graph == old(db.graph).(orders := old(db.graph.orders)[id := OrderFromForm(s, actor)])
      && |db.outbox| >= |old(db.outbox)| && db.outbox[..|old(db.outbox)|] == old(db.outbox)
      && MailsEachOnce(db.outbox[|old(db.outbox)|..], old(db.graph).GardenOf(s.plot).pickers,
           NewOrderSubject(old(db.graph), s.plot), NewOrderNotice(id))
  {
    if !LoggedIn(db.users, actor) {
      return LoginRedirect;
    }
    if !IsGardener(db.graph, actor) {
      return Forbidden;
    }
    var check := CheckOrderForm(db.graph, actor, s, fieldsValid, today);
    if check.Some? {
      return FormErrors(check.value);
    }
    var id := db.nextOrderId;
    var pickers := db.graph.GardenOf(s.plot).pickers;
    var subject := NewOrderSubject(db.graph, s.plot);
    db.graph := db.graph.(orders := db.graph.orders[id := OrderFromForm(s, actor)]);
    db.nextOrderId := id + 1;
    MailEach(db, pickers, subject, NewOrderNotice(id));
    r := Redirect(OrderDetailPage(id));
  }

  // ---------------------------------------------------------------------
  // OrderDetailView and OrderCancelView

  /** Who may see an order: whoever can edit it and the pickers assigned
      to it. */
  predicate MayViewOrder(g: Graph, u: UserId, o: OrderId)
    requires g.Valid() && o in g.orders
  {
    CanEditOrder(g, u, o) || IsOrderPicker(g, u, o)
  }

  /** The order page is open to the plot's gardeners and to the managers
      and the pickers of the plot's garden, and to nobody else. */
  lemma MayViewOrderIff(g: Graph, u: UserId, o: OrderId)
    requires g.Valid() && o in g.orders
    ensures MayViewOrder(g, u, o) <==>
      var p := g.orders[o].plot;
      u in g.plots[p].gardeners || u in g.GardenOf(p).managers || u in g.GardenOf(p).pickers
  {
  }

  /** Who may cancel an order: whoever can edit it, while it is open. */
  predicate MayCancel(g: Graph, u: UserId, o: OrderId, today: int)
    requires g.Valid() && o in g.orders
  {
    CanEditOrder(g, u, o) && OrderIsOpen(g, o, today)
  }

  /** OrderCancelView: a missing order is a 404, a user who may not cancel
      gets a 403; otherwise the order is marked canceled at `now` and
      nothing else changes. */
  method CancelOrder(db: Database, actor: UserId, o: OrderId, today: int, now: int) returns (r: Response)
    requires db.Valid()
    modifies db
    ensures db.Valid()
    ensures db.users == old(db.users) && db.outbox == old(db.outbox)
    ensures !LoggedIn(old(db.users), actor) ==> r == LoginRedirect
    ensures LoggedIn(old(db.users), actor) && o !in old(db.graph.orders) ==> r == NotFound
    ensures LoggedIn(old(db.users), actor) && o in old(db.graph.orders) && !MayCancel(old(db.graph), actor, o, today) ==>
      r == Forbidden
    ensures !r.Redirect? ==> db.graph == old(db.graph)
    ensures r.Redirect? <==> LoggedIn(old(db.users), actor) && o in old(db.graph.orders) && MayCancel(old(db.graph), actor, o, today)
    ensures r.Redirect? ==>
      && r.to == OrderListPage
      && db.graph == old(db.graph).(orders := CancelIn(old(db.graph.orders), o, now))
  {
    if !LoggedIn(db.users, actor) {
      return LoginRedirect;
    }
    if o !in db.graph.orders {
      return NotFound;
    }
    if !MayCancel(db.graph, actor, o, today) {
      return Forbidden;
    }
    var order := db.graph.orders[o];
    order := order.(canceled := true);
    order := order.(canceledTimestamp := Some(now));
    db.graph := db.graph.(orders := db.graph.orders[o := order]);
    r := Redirect(OrderListPage);
  }

  /** is_open() ignores canceled, so a canceled order that is still open
      may be canceled again, which moves its timestamp. */
  lemma CanceledOrderMayBeCanceledAgain(g: Graph, u: UserId, o: OrderId, today: int, now: int)
    requires g.Valid() && o in g.orders && MayCancel(g, u, o, today)
    ensures var g' := g.(orders := CancelIn(g.orders, o, now));
      && g'.Valid() && g'.orders[o].canceled && MayCancel(g', u, o, today)
  {
    var g' := g.(orders := CancelIn(g.orders, o, now));
    assert o in Open(g'.orders, today);
  }

  // ---------------------------------------------------------------------
  // PickCreateView

  function PickedSubject(g: Graph, p: PlotId): string
    requires g.Valid() && p in g.plots
  {
    "Plot " + g.plots[p].title + " in " + g.GardenOf(p).title + " has been picked!"
  }

  /** PickCreateView: only pickers may use it (of any garden); a missing
      plot is a 404; a valid form saves a pick by the actor at `now` and
      mails every inquirer of the new pick once. */
  method CreatePick(db: Database, actor: UserId, p: PlotId, fieldsValid: bool, today: int, now: int)
    returns (r: Response)
    requires db.Valid()
    modifies db
    ensures db.Valid()
    ensures db.users == old(db.users)
    ensures !LoggedIn(old(db.users), actor) ==> r == LoginRedirect
    ensures LoggedIn(old(db.users), actor) && !IsPicker(old(db.graph), actor) ==> r == Forbidden
    ensures LoggedIn(old(db.users), actor) && IsPicker(old(db.graph), actor) && p !in old(db.graph.plots) ==>
      r == NotFound
    ensures LoggedIn(old(db.users), actor) && IsPicker(old(db.graph), actor) && p in old(db.graph.plots) && !fieldsValid ==>
      r == RenderForm
    ensures !r.Redirect? ==> db.graph == old(db.graph) && db.outbox == old(db.outbox)
    ensures r.Redirect? <==> LoggedIn(old(db.users), actor) && IsPicker(old(db.graph), actor) && p in old(db.graph.plots) && fieldsValid
    ensures r.Redirect? ==>
      var k := old(db.nextPickId);
      && r.to == HomePage
      && k !in old(db.graph.picks)
      && db.graph == old(db.graph).(picks := old(db.graph.picks)[k := Pick(p, actor, now)])
      && |db.outbox| >= |old(db.outbox)| && db.outbox[..|old(db.outbox)|] == old(db.outbox)
      && MailsEachOnce(db.outbox[|old(db.outbox)|..], Inquirers(db.graph, k, today),
           PickedSubject(old(db.graph), p), NewPickNotice(k))
  {
    if !LoggedIn(db.users, actor) {
      return LoginRedirect;
    }
    if !IsPicker(db.graph, actor) {
      return Forbidden;
    }
    if p !in db.graph.plots {
      return NotFound;
    }
    if !fieldsValid {
      return RenderForm;
    }
    var k := db.nextPickId;
    var subject := PickedSubject(db.graph, p);
    db.graph := db.graph.(picks := db.graph.picks[k := Pick(p, actor, now)]);
    db.nextPickId := k + 1;
    MailEach(db, Inquirers(db.graph, k, today), subject, NewPickNotice(k));
    r := Redirect(HomePage);
  }

  // ---------------------------------------------------------------------
  // account_activate_view

  /** The activation form as posted; `valid` stands for the form's own
      field validation. */
  datatype ActivationForm = ActivationForm(
    firstName: string, lastName: string, phoneNumber: string,
    password1: string, password2: string, valid: bool)

  /** The account after a successful activation: the profile from the
      form, active, with the new password. The token is kept. */
  function Activated(a: Account, f: ActivationForm): Account {
    a.(firstName := f.firstName, lastName := f.lastName, phoneNumber := f.phoneNumber,
       isActive := true, password := Some(f.password1))
  }

  /** The holder of an activation token, if any. */
  predicate HoldsToken(users: map<UserId, Account>, u: UserId, token: Token) {
    u in users && users[u].activationToken == Some(token)
  }

  /** account_activate_view. `post` is None for a GET. */
  method ActivateAccount(db: Database, token: Token, post: Option<ActivationForm>) returns (r: Response)
    requires db.Valid()
    modifies db
    ensures db.Valid()
    ensures db.graph == old(db.graph) && db.outbox == old(db.outbox)
    ensures (forall u :: !HoldsToken(old(db.users), u, token)) <==> r == NotFound
    ensures r == NotFound || r == RenderForm ==> db.users == old(db.users)
    ensures forall u :: HoldsToken(old(db.users), u, token) ==>
      if old(db.users)[u].isActive then
        r == Redirect(HomePage) && db.users == old(db.users)[u := old(db.users)[u].(activationToken := None)]
      else if post.Some? && post.value.valid && post.value.password1 == post.value.password2 then
        r == Redirect(HomePage) && db.users == old(db.users)[u := Activated(old(db.users)[u], post.value)]
      else
        r == RenderForm
    ensures r.Redirect? ==> forall u :: HoldsToken(old(db.users), u, token) ==>
      u in db.users && db.users[u].isActive &&
      (HoldsToken(db.users, u, token) <==> !old(db.users)[u].isActive)
  {
    if !exists u :: u in db.users && db.users[u].activationToken == Some(token) {
      return NotFound;
    }
    var u :| u in db.users && db.users[u].activationToken == Some(token);
    assert HoldsToken(db.users, u, token);
    var a := db.users[u];
    if a.isActive {
      ClearTokenKeepsUnique(db.users, u);
      db.users := db.users[u := a.(activationToken := None)];
      return Redirect(HomePage);
    }
    if post.Some? && post.value.valid && post.value.password1 == post.value.password2 {
      UpdateKeepsUnique(db.users, u, Activated(a, post.value));
      db.users := db.users[u := Activated(a, post.value)];
      return Redirect(HomePage);
    }
    r := RenderForm;
  }

  /** Dropping a token keeps both unique constraints. */
  lemma ClearTokenKeepsUnique(users: map<UserId, Account>, u: UserId)
    requires u in users && EmailsUnique(users) && TokensUnique(users)
    ensures var users' := users[u := users[u].(activationToken := None)];
      EmailsUnique(users') && TokensUnique(users')
  {
  }

  /** Replacing an account by one with the same email and token keeps
      both unique constraints. */
  lemma UpdateKeepsUnique(users: map<UserId, Account>, u: UserId, a: Account)
    requires u in users && EmailsUnique(users) && TokensUnique(users)
    requires a.email == users[u].email && a.activationToken == users[u].activationToken
    ensures EmailsUnique(users[u := a]) && TokensUnique(users[u := a])
  {
    var users' := users[u := a];
    forall v, w | v in users' && w in users' && users'[v].email == users'[w].email ensures v == w {
      assert users[v].email == users'[v].email && users[w].email == users'[w].email;
    }
    forall v, w | (v in users' && w in users' && users'[v].activationToken.Some?
                   && users'[v].activationToken == users'[w].activationToken)
      ensures v == w
    {
      assert users[v].activationToken == users'[v].activationToken;
      assert users[w].activationToken == users'[w].activationToken;
    }
  }

  /** Activation makes the account active and keeps its token, so the
      link still leads to that account alone, now active: the next visit
      takes the token-clearing branch of ActivateAccount. After that visit
      no account holds the token, so a third visit is a 404, and the
      account stays active with the new password. */
  lemma ActivationThenRevisit(users: map<UserId, Account>, u: UserId, token: Token, f: ActivationForm)
    requires EmailsUnique(users) && TokensUnique(users)
    requires HoldsToken(users, u, token) && !users[u].isActive
    ensures var activated := users[u := Activated(users[u], f)];
      && HoldsToken(activated, u, token) && activated[u].isActive
      && (forall v :: HoldsToken(activated, v, token) ==> v == u)
    ensures var activated := users[u := Activated(users[u], f)];
      var revisited := activated[u := activated[u].(activationToken := None)];
      && (forall v :: !HoldsToken(revisited, v, token))
      && revisited[u].isActive && revisited[u].password == Some(f.password1)
  {
    var activated := users[u := Activated(users[u], f)];
    forall v | HoldsToken(activated, v, token) ensures v == u {
      assert users[v].activationToken == Some(token) || v == u;
    }
  }

  // ---------------------------------------------------------------------
  // AccountRemoveView

  /** AccountRemoveView.delete: the account is deactivated, not deleted,
      and the user is sent to log out. Nothing else changes. From then on
      the account is not logged in, so every view above answers it with
      the login redirect. */
  method RemoveAccount(db: Database, actor: UserId) returns (r: Response)
    requires db.Valid()
    modifies db
    ensures db.Valid()
    ensures db.graph == old(db.graph) && db.outbox == old(db.outbox)
    ensures !LoggedIn(old(db.users), actor) ==> r == LoginRedirect && db.users == old(db.users)
    ensures LoggedIn(old(db.users), actor) ==>
      && db.users == old(db.users)[actor := old(db.users)[actor].(isActive := false)]
      && r == Redirect(LogoutPage)
    ensures !LoggedIn(db.users, actor)
  {
    if !LoggedIn(db.users, actor) {
      return LoginRedirect;
    }
    var a := db.users[actor];
    UpdateKeepsUnique(db.users, actor, a.(isActive := false));
    db.users := db.users[actor := a.(isActive := false)];
    r := Redirect(LogoutPage);
  }

  /** Deactivating an account logs out that account and no other. */
  lemma DeactivationLogsOutOnlyThatAccount(users: map<UserId, Account>, u: UserId)
    requires u in users
    ensures var removed := users[u := users[u].(isActive := false)];
      && !LoggedIn(removed, u)
      && (forall v :: v != u ==> (LoggedIn(removed, v) <==> LoggedIn(users, v)))
  {
  }

  /** Removal keeps the account's email, its roles and its activation
      token. An account removed while it still holds its token is inactive
      again, so its invitation link offers the activation form once more,
      and activating through it gives the account that activating it
      before the removal would have given. */
  lemma RemovalReopensActivation(users: map<UserId, Account>, u: UserId, token: Token, f: ActivationForm)
    requires EmailsUnique(users) && TokensUnique(users) && HoldsToken(users, u, token)
    ensures var removed := users[u := users[u].(isActive := false)];
      && HoldsToken(removed, u, token) && !removed[u].isActive
      && removed[u].email == users[u].email
      && (forall v :: HoldsToken(removed, v, token) ==> v == u)
      && Activated(removed[u], f) == Activated(users[u], f)
  {
    var removed := users[u := users[u].(isActive := false)];
    forall v | HoldsToken(removed, v, token) ensures v == u {
      assert users[v].activationToken == Some(token) || v == u;
    }
  }

  // ---------------------------------------------------------------------
  // AccountSettingsView

  /** The account settings form as posted; `valid` stands for the form's
      own field validation (the phone number and photo fields). */
  datatype SettingsForm = SettingsForm(
    firstName: string, lastName: string, phoneNumber: string, photo: string,
    password: string, newPassword1: string, newPassword2: string, valid: bool)

  /** The flash message the settings view adds. */
  datatype SettingsMessage =
    | AccountUpdated
    | WrongPassword
    | PasswordsDiffer
    | ProfileUpdated

  function MessageText(m: SettingsMessage): string {
    match m
    case AccountUpdated => "Account successfully updated."
    case WrongPassword => "You entered the wrong password."
    case PasswordsDiffer => "The given passwords do not match."
    case ProfileUpdated => "Profile successfully updated."
  }

  /** check_password, with hashing abstracted: an unusable password never
      matches. */
  predicate CheckPassword(a: Account, raw: string) {
    a.password == Some(raw)
  }

  /** The password branch of the settings view: which message it adds. */
  function PasswordMessage(a: Account, f: SettingsForm): SettingsMessage {
    if f.password != "" && f.newPassword1 != "" && f.newPassword2 != "" then
      if CheckPassword(a, f.password) && f.newPassword1 == f.newPassword2 then AccountUpdated
      else if !CheckPassword(a, f.password) then WrongPassword
      else PasswordsDiffer
    else ProfileUpdated
  }

  /** The account the settings view saves: names always, phone and photo
      only when given, the password only on success. */
  function SettingsApplied(a: Account, f: SettingsForm): Account {
    var b := a.(firstName := f.firstName, lastName := f.lastName);
    var b := if f.phoneNumber != "" then b.(phoneNumber := f.phoneNumber) else b;
    var b := if f.photo != "" then b.(photo := f.photo) else b;
    if PasswordMessage(a, f) == AccountUpdated then b.(password := Some(f.newPassword1)) else b
  }

  /** The password changes exactly when all three fields are filled, the
      old password checks and the new pair matches; with all three filled
      and the change refused, the message says which of the two checks
      failed, the old password first; with any field empty the profile
      message is given. */
  lemma PasswordChangeTable(a: Account, f: SettingsForm)
    ensures var has := f.password != "" && f.newPassword1 != "" && f.newPassword2 != "";
      && (SettingsApplied(a, f).password != a.password ==>
            has && CheckPassword(a, f.password) && f.newPassword1 == f.newPassword2)
      && (has && CheckPassword(a, f.password) && f.newPassword1 == f.newPassword2 ==>
            SettingsApplied(a, f).password == Some(f.newPassword1) && PasswordMessage(a, f) == AccountUpdated)
      && (has && !CheckPassword(a, f.password) ==> PasswordMessage(a, f) == WrongPassword)
      && (has && CheckPassword(a, f.password) && f.newPassword1 != f.newPassword2 ==>
            PasswordMessage(a, f) == PasswordsDiffer)
      && (!has <==> PasswordMessage(a, f) == ProfileUpdated)
    ensures SettingsApplied(a, f).email == a.email && SettingsApplied(a, f).activationToken == a.activationToken
    ensures SettingsApplied(a, f).firstName == f.firstName && SettingsApplied(a, f).lastName == f.lastName
    ensures SettingsApplied(a, f).phoneNumber == (if f.phoneNumber != "" then f.phoneNumber else a.phoneNumber)
    ensures SettingsApplied(a, f).photo == (if f.photo != "" then f.photo else a.photo)
  {
  }

  /** Submitting the new password as the old one afterwards checks: the
      change took effect. */
  lemma NewPasswordChecks(a: Account, f: SettingsForm)
    requires PasswordMessage(a, f) == AccountUpdated
    ensures CheckPassword(SettingsApplied(a, f), f.newPassword1)
    ensures f.newPassword1 != f.password ==> !CheckPassword(SettingsApplied(a, f), f.password)
  {
  }

  /** AccountSettingsView on a POST by the user `u`: a request with no
      logged-in user gets the login redirect, a form that does not clean is
      shown again (form_invalid), and a clean one is saved by form_valid.
      The first two add no message and save nothing. */
  method UpdateAccountSettings(db: Database, u: UserId, f: SettingsForm) returns (message: string, r: Response)
    requires db.Valid()
    modifies db
    ensures db.Valid()
    ensures db.graph == old(db.graph) && db.outbox == old(db.outbox)
    ensures !LoggedIn(old(db.users), u) ==> r == LoginRedirect && message == "" && db.users == old(db.users)
    ensures LoggedIn(old(db.users), u) && !f.valid ==> r == RenderForm && message == "" && db.users == old(db.users)
    ensures LoggedIn(old(db.users), u) && f.valid ==>
      && db.users == old(db.users)[u := SettingsApplied(old(db.users)[u], f)]
      && message == MessageText(PasswordMessage(old(db.users)[u], f))
      && r == Redirect(AccountSettingsPage)
  {
    if !LoggedIn(db.users, u) {
      return "", LoginRedirect;
    }
    if !f.valid {
      return "", RenderForm;
    }
    var a := db.users[u];
    PasswordChangeTable(a, f);
    UpdateKeepsUnique(db.users, u, SettingsApplied(a, f));
    db.users := db.users[u := SettingsApplied(a, f)];
    message := MessageText(PasswordMessage(a, f));
    r := Redirect(AccountSettingsPage);
  }

  // ---------------------------------------------------------------------
  // PlotUpdateView.get_form

  /** The garden choices of the plot form and which fields are locked. */
  datatype PlotFormFields = PlotFormFields(gardenChoices: set<GardenId>, gardenDisabled: bool, titleDisabled: bool)

  /** The plot's own garden and every garden the user manages are offered;
      a user who does not manage the plot's garden may change neither the
      garden nor the title. */
  function PlotFormFor(g: Graph, u: UserId, p: PlotId): PlotFormFields
    requires g.Valid() && p in g.plots
  {
    var current := g.plots[p].garden;
    var choices := set gid | gid in g.gardens && (gid == current || u in g.gardens[gid].managers);
    var locked := !CanEditGarden(g, u, current);
    PlotFormFields(choices, locked, locked)
  }

  /** The plot's garden is always offered; the other choices are the
      user's gardens; the garden and the title are locked together, exactly
      when the user does not manage the plot's garden, so a gardener of the
      plot who manages no part of it gets a locked form and a manager of
      its garden is offered exactly the gardens of get_gardens(). */
  lemma PlotFormLocking(g: Graph, u: UserId, p: PlotId)
    requires g.Valid() && p in g.plots
    ensures var f := PlotFormFor(g, u, p);
      && f.gardenChoices == {g.plots[p].garden} + GetGardens(g, u)
      && f.gardenDisabled == f.titleDisabled
      && (f.gardenDisabled <==> u !in g.GardenOf(p).managers)
      && (!f.gardenDisabled ==> f.gardenChoices == GetGardens(g, u))
  {
  }
}
