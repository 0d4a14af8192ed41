/** The persistent records of GardenHub (gardenhub/models.py) and the store
    that holds them. Dates are day numbers, timestamps are seconds, both in
    the site's local time zone; every user, garden, plot, order and pick is
    named by its numeric primary key. */
module Records {

  type UserId = nat
  type GardenId = nat
  type PlotId = nat
  type OrderId = nat
  type PickId = nat
  /** An activation token; the store issues each one once. */
  type Token = nat

  const SecondsPerDay: int := 86400

  /** The first second of local day `day`. */
  function StartOfDay(day: int): int {
    day * SecondsPerDay
  }

  datatype Option<T> = None | Some(value: T) {
    function GetOr(default: T): T {
      match this
      case Some(v) => v
      case None => default
    }
  }

  /** A garden with its managers and its pickers. */
  datatype Garden = Garden(title: string, managers: set<UserId>, pickers: set<UserId>)

  /** A plot belongs to exactly one garden and has its own gardeners. */
  datatype Plot = Plot(title: string, garden: GardenId, gardeners: set<UserId>)

  /** A request to have a plot picked from `startDate` to `endDate`. */
  datatype Order = Order(
    plot: PlotId,
    requester: UserId,
    startDate: int,
    endDate: int,
    canceled: bool,
    canceledTimestamp: Option<int>)

  /** A picker's record that a plot was picked at `timestamp`. */
  datatype Pick = Pick(plot: PlotId, picker: UserId, timestamp: int)

  /** The relational graph the entitlement rules and the order filters read. */
  datatype Graph = Graph(
    gardens: map<GardenId, Garden>,
    plots: map<PlotId, Plot>,
    orders: map<OrderId, Order>,
    picks: map<PickId, Pick>)
  {
    /** Referential integrity of the record-to-record foreign keys
        (plot to garden, order to plot, pick to plot). The keys that name
        users are not constrained here. */
    predicate Valid() {
      && (forall p :: p in plots ==> plots[p].garden in gardens)
      && (forall o :: o in orders ==> orders[o].plot in plots)
      && (forall k :: k in picks ==> picks[k].plot in plots)
    }

    /** The garden a plot belongs to. */
    function GardenOf(p: PlotId): Garden
      requires Valid() && p in plots
    {
      gardens[plots[p].garden]
    }
  }

  /** The fields of a user account. `password` is None for an unusable
      password; hashing is abstracted away. */
  datatype Account = Account(
    email: string,
    firstName: string,
    lastName: string,
    phoneNumber: string,
    photo: string,
    password: Option<string>,
    isActive: bool,
    isStaff: bool,
    isSuperuser: bool,
    activationToken: Option<Token>)

  /** The account the user table creates for an email address alone. */
  function BlankAccount(email: string): Account {
    Account(email, "", "", "", "", None, false, false, false, None)
  }

  datatype MailBody =
    | Invitation(activationToken: Token)
    | NewOrderNotice(order: OrderId)
    | NewPickNotice(pick: PickId)

  /** One message handed to the mailer. */
  datatype Mail = Mail(to: UserId, subject: string, body: MailBody)

  /** No two accounts share an email address (the unique constraint). */
  predicate EmailsUnique(users: map<UserId, Account>) {
    forall u, v :: u in users && v in users && users[u].email == users[v].email ==> u == v
  }

  /** No two accounts share an activation token (the unique constraint). */
  predicate TokensUnique(users: map<UserId, Account>) {
    forall u, v ::
      (u in users && v in users && users[u].activationToken.Some? &&
       users[u].activationToken == users[v].activationToken) ==> u == v
  }

  function Emails(users: map<UserId, Account>): set<string> {
    set u | u in users :: users[u].email
  }

  /** Inserting an account under a new key keeps both unique constraints,
      provided its email and its token are not in use. */
  lemma InsertKeepsUnique(users: map<UserId, Account>, u: UserId, a: Account)
    requires EmailsUnique(users) && TokensUnique(users) && u !in users
    requires a.email !in Emails(users)
    requires a.activationToken.Some? ==> forall v :: v in users ==> users[v].activationToken != a.activationToken
    ensures EmailsUnique(users[u := a]) && TokensUnique(users[u := a])
  {
    var users' := users[u := a];
    forall v, w | v in users' && w in users' && users'[v].email == users'[w].email ensures v == w {
      if v != u && w != u {
        assert users[v].email == users[w].email;
      }
    }
  }

  /** The database: the graph, the user table, the mail outbox, and the
      counters that stand for auto-increment keys and the token source. */
  class Database {
    var graph: Graph
    var users: map<UserId, Account>
    var outbox: seq<Mail>
    var nextOrderId: OrderId
    var nextPickId: PickId
    var nextUserId: UserId
    var nextToken: Token

    ghost predicate Valid()
      reads this
    {
      && graph.Valid()
      && (forall o :: o in graph.orders ==> o < nextOrderId)
      && (forall k :: k in graph.picks ==> k < nextPickId)
      && (forall u :: u in users ==> u < nextUserId)
      && (forall u :: u in users && users[u].activationToken.Some? ==> users[u].activationToken.value < nextToken)
      && EmailsUnique(users)
      && TokensUnique(users)
    }

    constructor (g: Graph)
      requires g.Valid()
      ensures Valid()
      ensures graph == g && users == map[] && outbox == []
    {
      var orderKey := FreshAbove(g.orders.Keys);
      var pickKey := FreshAbove(g.picks.Keys);
      graph := g;
      users := map[];
      outbox := [];
      nextUserId := 0;
      nextToken := 0;
      nextOrderId := orderKey;
      nextPickId := pickKey;
    }
  }

  /** A key larger than every key in use, as an auto-increment column gives. */
  method FreshAbove(keys: set<nat>) returns (r: nat)
    ensures forall k :: k in keys ==> k < r
  {
    r := 0;
    var todo := keys;
    while todo != {}
      invariant todo <= keys
      invariant forall k :: k in keys && k !in todo ==> k < r
      decreases todo
    {
      var k :| k in todo;
      if r <= k {
        r := k + 1;
      }
      todo := todo - {k};
    }
  }
}
