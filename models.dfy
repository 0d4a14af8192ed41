/** The business methods of gardenhub/models.py: what a user may see and
    edit, the status of an order, who hears about a pick, and a user's full
    name. Every function reads the graph as it stands; nothing is cached. */
module Models {
  import opened Records
  import opened OrderQuerySet

  // ---------------------------------------------------------------------
  // User: the gardens, plots and orders a user reaches

  /** The gardens the user manages. */
  function GetGardens(g: Graph, u: UserId): set<GardenId> {
    set gid | gid in g.gardens && u in g.gardens[gid].managers
  }

  /** The plots the user can edit: every plot the user gardens and every
      plot of a garden the user manages, each once. */
  function GetPlots(g: Graph, u: UserId): set<PlotId>
    requires g.Valid()
  {
    set p | p in g.plots && (u in g.plots[p].gardeners || u in g.GardenOf(p).managers)
  }

  /** The orders placed on the plots the user can edit. */
  function GetOrders(g: Graph, u: UserId): QuerySet
    requires g.Valid()
  {
    var plotIds := GetPlots(g, u);
    map o | o in g.orders && g.orders[o].plot in plotIds :: g.orders[o]
  }

  /** The gardens where the user is a picker. */
  function GetPickerGardens(g: Graph, u: UserId): set<GardenId> {
    set gid | gid in g.gardens && u in g.gardens[gid].pickers
  }

  /** The orders the user is assigned to fulfil: those on plots of gardens
      where the user picks. */
  function GetPickerOrders(g: Graph, u: UserId): QuerySet
    requires g.Valid()
  {
    map o | o in g.orders && u in g.GardenOf(g.orders[o].plot).pickers :: g.orders[o]
  }

  /** Every user who manages one of the user's gardens or gardens one of
      the user's plots, except the user. */
  function GetPeers(g: Graph, u: UserId): set<UserId>
    requires g.Valid()
  {
    var gardens := GetGardens(g, u);
    var plots := GetPlots(g, u);
    var coManagers := set gid, v | gid in g.gardens && gid in gardens && v in g.gardens[gid].managers :: v;
    var coGardeners := set p, v | p in g.plots && p in plots && v in g.plots[p].gardeners :: v;
    (coManagers + coGardeners) - {u}
  }

  // ---------------------------------------------------------------------
  // User: role predicates

  predicate IsGardenManager(g: Graph, u: UserId) {
    |GetGardens(g, u)| > 0
  }

  predicate IsGardener(g: Graph, u: UserId)
    requires g.Valid()
  {
    |GetPlots(g, u)| > 0
  }

  predicate IsAnything(g: Graph, u: UserId)
    requires g.Valid()
  {
    IsGardener(g, u) || IsGardenManager(g, u)
  }

  predicate IsPicker(g: Graph, u: UserId) {
    |GetPickerGardens(g, u)| > 0
  }

  predicate HasOrders(g: Graph, u: UserId)
    requires g.Valid()
  {
    |GetOrders(g, u)| > 0
  }

  // ---------------------------------------------------------------------
  // User: edit rights

  predicate CanEditGarden(g: Graph, u: UserId, gid: GardenId)
    requires gid in g.gardens
  {
    u in g.gardens[gid].managers
  }

  predicate CanEditPlot(g: Graph, u: UserId, p: PlotId)
    requires g.Valid() && p in g.plots
  {
    u in g.plots[p].gardeners || u in g.GardenOf(p).managers
  }

  predicate CanEditOrder(g: Graph, u: UserId, o: OrderId)
    requires g.Valid() && o in g.orders
  {
    CanEditPlot(g, u, g.orders[o].plot)
  }

  predicate IsOrderPicker(g: Graph, u: UserId, o: OrderId)
    requires g.Valid() && o in g.orders
  {
    u in g.GardenOf(g.orders[o].plot).pickers
  }

  // ---------------------------------------------------------------------
  // Lemmas about users

  /** can_edit_plot admits exactly the plot's gardeners and its garden's
      managers: each path suffices alone, and a user on neither is refused. */
  lemma CanEditPlotPaths(g: Graph, u: UserId, p: PlotId)
    requires g.Valid() && p in g.plots
    ensures u in g.plots[p].gardeners ==> CanEditPlot(g, u, p)
    ensures CanEditGarden(g, u, g.plots[p].garden) ==> CanEditPlot(g, u, p)
    ensures u !in g.plots[p].gardeners && !CanEditGarden(g, u, g.plots[p].garden) ==> !CanEditPlot(g, u, p)
  {
  }

  /** can_edit_order is can_edit_plot of the order's plot. */
  lemma CanEditOrderIsCanEditPlot(g: Graph, u: UserId, o: OrderId)
    requires g.Valid() && o in g.orders
    ensures CanEditOrder(g, u, o) <==> g.orders[o].plot in GetPlots(g, u)
  {
  }

  /** get_gardens lists exactly the gardens can_edit_garden admits. */
  lemma GetGardensAreEditable(g: Graph, u: UserId)
    ensures forall gid :: gid in GetGardens(g, u) <==> gid in g.gardens && CanEditGarden(g, u, gid)
  {
  }

  /** The plots of the given gardens. */
  function PlotsOfGardens(g: Graph, gardens: set<GardenId>): set<PlotId> {
    set p | p in g.plots && g.plots[p].garden in gardens
  }

  /** The plots whose gardener list names the user. */
  function GardenedPlots(g: Graph, u: UserId): set<PlotId> {
    set p | p in g.plots && u in g.plots[p].gardeners
  }

  /** get_plots is the plots the user gardens together with every plot of
      every garden the user manages, and is exactly the plots
      can_edit_plot admits. */
  lemma GetPlotsDecomposition(g: Graph, u: UserId)
    requires g.Valid()
    ensures GetPlots(g, u) == GardenedPlots(g, u) + PlotsOfGardens(g, GetGardens(g, u))
    ensures forall p :: p in GetPlots(g, u) <==> p in g.plots && CanEditPlot(g, u, p)
  {
    forall p | p in PlotsOfGardens(g, GetGardens(g, u)) ensures p in GetPlots(g, u) {
      assert g.plots[p].garden in GetGardens(g, u);
    }
  }

  /** A set with an element has positive size. */
  lemma MemberMakesPositive<T>(s: set<T>, x: T)
    requires x in s
    ensures |s| > 0
  {
  }

  /** is_gardener holds exactly when the user gardens a plot or manages a
      garden that has a plot. */
  lemma IsGardenerIff(g: Graph, u: UserId)
    requires g.Valid()
    ensures IsGardener(g, u) <==>
      (exists p :: p in g.plots && u in g.plots[p].gardeners) ||
      (exists p :: p in g.plots && CanEditGarden(g, u, g.plots[p].garden))
  {
    if IsGardener(g, u) {
      var p :| p in GetPlots(g, u);
      assert p in g.plots;
    }
    if exists p :: p in g.plots && u in g.plots[p].gardeners {
      var p :| p in g.plots && u in g.plots[p].gardeners;
      MemberMakesPositive(GetPlots(g, u), p);
    }
    if exists p :: p in g.plots && CanEditGarden(g, u, g.plots[p].garden) {
      var p :| p in g.plots && CanEditGarden(g, u, g.plots[p].garden);
      MemberMakesPositive(GetPlots(g, u), p);
    }
  }

  /** A manager of a garden that has a plot is a gardener, without being
      named on any plot. */
  lemma ManagerOfPlantedGardenIsGardener(g: Graph, u: UserId, p: PlotId)
    requires g.Valid() && p in g.plots && u in g.GardenOf(p).managers
    ensures IsGardener(g, u) && IsGardenManager(g, u)
  {
    MemberMakesPositive(GetPlots(g, u), p);
    MemberMakesPositive(GetGardens(g, u), g.plots[p].garden);
  }

  /** A manager whose gardens have no plots and who gardens nothing is a
      garden manager but not a gardener. */
  lemma ManagerOfBareGardenIsNotGardener(g: Graph, u: UserId, gid: GardenId)
    requires g.Valid() && gid in g.gardens && u in g.gardens[gid].managers
    requires forall p :: p in g.plots ==> u !in g.plots[p].gardeners && u !in g.GardenOf(p).managers
    ensures IsGardenManager(g, u) && !IsGardener(g, u)
  {
    MemberMakesPositive(GetGardens(g, u), gid);
    assert GetPlots(g, u) == {};
  }

  /** is_anything asks for a plot or a garden: a user who only picks gets
      nothing from it. */
  lemma PickerOnlyIsNotAnything(g: Graph, u: UserId)
    requires g.Valid()
    requires forall gid :: gid in g.gardens ==> u !in g.gardens[gid].managers
    requires forall p :: p in g.plots ==> u !in g.plots[p].gardeners
    ensures !IsAnything(g, u)
  {
    assert GetGardens(g, u) == {};
    assert GetPlots(g, u) == {};
  }

  /** get_orders lists exactly the orders can_edit_order admits, unchanged. */
  lemma GetOrdersAreEditable(g: Graph, u: UserId)
    requires g.Valid()
    ensures forall o :: o in GetOrders(g, u) <==> o in g.orders && CanEditOrder(g, u, o)
    ensures forall o :: o in GetOrders(g, u) ==> GetOrders(g, u)[o] == g.orders[o]
  {
  }

  /** get_picker_orders lists exactly the orders is_order_picker admits. */
  lemma PickerOrdersAreOrderPicker(g: Graph, u: UserId)
    requires g.Valid()
    ensures forall o :: o in GetPickerOrders(g, u) <==> o in g.orders && IsOrderPicker(g, u, o)
  {
  }

  /** has_orders holds exactly when some order lies on a plot the user can
      edit. */
  lemma HasOrdersIff(g: Graph, u: UserId)
    requires g.Valid()
    ensures HasOrders(g, u) <==> exists o :: o in g.orders && CanEditOrder(g, u, o)
  {
    if HasOrders(g, u) {
      var o :| o in GetOrders(g, u);
      assert o in g.orders && CanEditOrder(g, u, o);
    }
    if exists o :: o in g.orders && CanEditOrder(g, u, o) {
      var o :| o in g.orders && CanEditOrder(g, u, o);
      MemberMakesPositive(GetOrders(g, u).Keys, o);
    }
  }

  /** is_picker holds exactly when get_picker_gardens is non-empty. */
  lemma IsPickerIff(g: Graph, u: UserId)
    ensures IsPicker(g, u) <==> exists gid :: gid in GetPickerGardens(g, u)
  {
    if exists gid :: gid in GetPickerGardens(g, u) {
      var gid :| gid in GetPickerGardens(g, u);
      MemberMakesPositive(GetPickerGardens(g, u), gid);
    }
  }

  /** get_peers never holds the user, and holds another user exactly when
      the two manage a common garden or the other gardens a plot the user
      can edit. */
  lemma GetPeersIff(g: Graph, u: UserId)
    requires g.Valid()
    ensures u !in GetPeers(g, u)
    ensures forall v :: v in GetPeers(g, u) <==>
      v != u &&
      ((exists gid :: gid in g.gardens && u in g.gardens[gid].managers && v in g.gardens[gid].managers) ||
       (exists p :: p in g.plots && CanEditPlot(g, u, p) && v in g.plots[p].gardeners))
  {
    forall v | v != u && exists gid :: gid in g.gardens && u in g.gardens[gid].managers && v in g.gardens[gid].managers
      ensures v in GetPeers(g, u)
    {
      var gid :| gid in g.gardens && u in g.gardens[gid].managers && v in g.gardens[gid].managers;
      assert gid in GetGardens(g, u);
    }
    forall v | v != u && exists p :: p in g.plots && CanEditPlot(g, u, p) && v in g.plots[p].gardeners
      ensures v in GetPeers(g, u)
    {
      var p :| p in g.plots && CanEditPlot(g, u, p) && v in g.plots[p].gardeners;
      assert p in GetPlots(g, u);
    }
  }

  /** A user who manages nothing and is the only gardener of every plot
      they garden has no peers. */
  lemma LoneGardenerHasNoPeers(g: Graph, u: UserId)
    requires g.Valid()
    requires forall gid :: gid in g.gardens ==> u !in g.gardens[gid].managers
    requires forall p :: p in g.plots && u in g.plots[p].gardeners ==> g.plots[p].gardeners == {u}
    ensures GetPeers(g, u) == {}
  {
    GetPeersIff(g, u);
  }

  // ---------------------------------------------------------------------
  // Order

  predicate OrderIsOpen(g: Graph, o: OrderId, today: int) {
    o in Open(g.orders, today)
  }

  /** Closed as the tests define it; see OrderQuerySet.Closed. */
  predicate OrderIsClosed(g: Graph, o: OrderId, today: int) {
    o in Closed(g.orders, today)
  }

  predicate OrderIsActive(g: Graph, o: OrderId, today: int) {
    o in Active(g.orders, today)
  }

  predicate OrderWasPickedToday(g: Graph, o: OrderId, today: int) {
    o in PickedToday(g.orders, g.picks, today)
  }

  /** was_picked_today holds exactly when the order exists and some pick
      on its plot is stamped at or after the first second of today. */
  lemma OrderWasPickedTodayIff(g: Graph, o: OrderId, today: int)
    ensures OrderWasPickedToday(g, o, today) <==>
      o in g.orders &&
      exists k :: k in g.picks && g.picks[k].plot == g.orders[o].plot && g.picks[k].timestamp >= StartOfDay(today)
  {
    PickedTodayComplement(g.orders, g.picks, today);
  }

  /** The picks on the order's plot stamped between the first second of
      its start day and the first second of its end day, both included. */
  function GetPicks(g: Graph, o: OrderId): map<PickId, Pick>
    requires o in g.orders
  {
    var order := g.orders[o];
    map k | k in g.picks && g.picks[k].plot == order.plot
      && g.picks[k].timestamp >= StartOfDay(order.startDate)
      && g.picks[k].timestamp <= StartOfDay(order.endDate)
      :: g.picks[k]
  }

  /** get_picks stops at midnight opening the end day: a pick later on
      that day is not among them, one at that midnight is. */
  lemma GetPicksWindow(g: Graph, o: OrderId, k: PickId)
    requires o in g.orders && k in g.picks && g.picks[k].plot == g.orders[o].plot
    ensures k in GetPicks(g, o) <==>
      StartOfDay(g.orders[o].startDate) <= g.picks[k].timestamp <= StartOfDay(g.orders[o].endDate)
    ensures g.orders[o].startDate <= g.orders[o].endDate && g.picks[k].timestamp == StartOfDay(g.orders[o].endDate)
      ==> k in GetPicks(g, o)
    ensures g.picks[k].timestamp > StartOfDay(g.orders[o].endDate) ==> k !in GetPicks(g, o)
  {
  }

  datatype StatusIcon = RedBan | GreenCircle | GreyCheckCircle | GreyCircle

  function GetStatusIcon(g: Graph, o: OrderId, today: int): StatusIcon
    requires o in g.orders
  {
    if g.orders[o].canceled then RedBan
    else if OrderIsActive(g, o, today) then GreenCircle
    else if OrderIsClosed(g, o, today) then GreyCheckCircle
    else GreyCircle
  }

  /** The four lifecycle stages of an order, decided in one place. */
  datatype Stage = UpcomingStage | ActiveStage | ClosedStage | CanceledStage

  function StageOf(o: Order, today: int): Stage {
    if o.canceled then CanceledStage
    else if o.endDate < today then ClosedStage
    else if o.startDate > today then UpcomingStage
    else ActiveStage
  }

  function IconOfStage(s: Stage): StatusIcon {
    match s
    case CanceledStage => RedBan
    case ActiveStage => GreenCircle
    case ClosedStage => GreyCheckCircle
    case UpcomingStage => GreyCircle
  }

  /** The status icon shows the lifecycle stage: canceled orders first,
      then active, finished and upcoming ones. */
  lemma StatusIconShowsStage(g: Graph, o: OrderId, today: int)
    requires o in g.orders
    ensures GetStatusIcon(g, o, today) == IconOfStage(StageOf(g.orders[o], today))
    ensures GetStatusIcon(g, o, today) == GreyCircle <==>
      !g.orders[o].canceled && g.orders[o].startDate > today && g.orders[o].endDate >= today
  {
  }

  /** A canceled order is closed and neither active in the icon's eyes nor
      anything but a red ban, whatever its dates; it may still be open and
      active for the filters, which ignore `canceled`. */
  lemma CanceledOrderIsClosed(g: Graph, o: OrderId, today: int)
    requires o in g.orders && g.orders[o].canceled
    ensures OrderIsClosed(g, o, today) && GetStatusIcon(g, o, today) == RedBan
    ensures OrderIsOpen(g, o, today) <==> g.orders[o].endDate > today
  {
  }

  // ---------------------------------------------------------------------
  // Pick

  /** The people told about a pick: the plot's gardeners and the requesters
      of the plot's active orders, each once. */
  function Inquirers(g: Graph, k: PickId, today: int): set<UserId>
    requires g.Valid() && k in g.picks
  {
    var plot := g.picks[k].plot;
    var active := Active(g.orders, today);
    g.plots[plot].gardeners + set o | o in active && active[o].plot == plot :: active[o].requester
  }

  lemma InquirersIff(g: Graph, k: PickId, today: int)
    requires g.Valid() && k in g.picks
    ensures forall v :: v in Inquirers(g, k, today) <==>
      v in g.plots[g.picks[k].plot].gardeners ||
      (exists o :: o in g.orders && g.orders[o].plot == g.picks[k].plot
        && Covers(g.orders[o], today) && g.orders[o].requester == v)
  {
    var active := Active(g.orders, today);
    forall v | (exists o :: (o in g.orders && g.orders[o].plot == g.picks[k].plot
                              && Covers(g.orders[o], today) && g.orders[o].requester == v))
      ensures v in Inquirers(g, k, today)
    {
      var o :| o in g.orders && g.orders[o].plot == g.picks[k].plot
        && Covers(g.orders[o], today) && g.orders[o].requester == v;
      assert o in active;
    }
  }

  // ---------------------------------------------------------------------
  // User: full name

  /** Python's str.isspace for one character. */
  predicate IsSpace(c: char) {
    || c == ' '
    || ('\t' <= c <= '\r')
    || ('\U{1C}' <= c <= '\U{1F}')
    || c == '\U{85}' || c == '\U{A0}' || c == '\U{1680}'
    || ('\U{2000}' <= c <= '\U{200A}')
    || c == '\U{2028}' || c == '\U{2029}' || c == '\U{202F}' || c == '\U{205F}' || c == '\U{3000}'
  }

  /** `s` without its leading whitespace. */
  function TrimStart(s: string): (r: string)
    ensures |r| <= |s| && r == s[|s| - |r|..]
    ensures r == [] || !IsSpace(r[0])
    ensures forall i :: 0 <= i < |s| - |r| ==> IsSpace(s[i])
  {
    if s != [] && IsSpace(s[0]) then TrimStart(s[1..]) else s
  }

  /** `s` without its trailing whitespace. */
  function TrimEnd(s: string): (r: string)
    ensures |r| <= |s| && r == s[..|r|]
    ensures r == [] || !IsSpace(r[|r| - 1])
    ensures forall i :: |r| <= i < |s| ==> IsSpace(s[i])
  {
    if s != [] && IsSpace(s[|s| - 1]) then TrimEnd(s[..|s| - 1]) else s
  }

  /** Python's str.strip() with no argument. */
  function Strip(s: string): string {
    TrimEnd(TrimStart(s))
  }

  /** First name, a space, last name, with surrounding whitespace removed. */
  function GetFullName(a: Account): string {
    Strip(a.firstName + " " + a.lastName)
  }

  /** `r` is the slice of `s` from `i` with no whitespace at either end,
      and everything outside it is whitespace. */
  predicate StrippedAt(s: string, r: string, i: int) {
    && (r == [] || (!IsSpace(r[0]) && !IsSpace(r[|r| - 1])))
    && 0 <= i <= |s| - |r| && r == s[i..i + |r|]
    && (forall j :: 0 <= j < i ==> IsSpace(s[j]))
    && (forall j :: i + |r| <= j < |s| ==> IsSpace(s[j]))
  }

  /** strip() returns a slice of its input with no whitespace at either
      end, and every character it drops is whitespace. */
  lemma StripSpec(s: string)
    ensures StrippedAt(s, Strip(s), |s| - |TrimStart(s)|)
  {
    var t := TrimStart(s);
    StripOfTrimmed(s, t, TrimEnd(t), |s| - |t|);
  }

  /** The facts StripSpec needs, from the contracts of TrimStart (`t`, a
      suffix of `s` from `i`) and TrimEnd (`r`, a prefix of `t`). */
  lemma StripOfTrimmed(s: string, t: string, r: string, i: nat)
    requires i <= |s| && t == s[i..] && (t == [] || !IsSpace(t[0]))
    requires forall j :: 0 <= j < i ==> IsSpace(s[j])
    requires |r| <= |t| && r == t[..|r|] && (r == [] || !IsSpace(r[|r| - 1]))
    requires forall j :: |r| <= j < |t| ==> IsSpace(t[j])
    ensures StrippedAt(s, r, i)
  {
    assert r == s[i..i + |r|];
    forall j | i + |r| <= j < |s| ensures IsSpace(s[j]) {
      assert s[j] == t[j - i];
    }
    if r != [] {
      assert r[0] == t[0];
    }
  }

  /** A string that neither starts nor ends with whitespace is its own
      strip(). */
  lemma StripKeepsTrimmed(s: string)
    requires s == [] || (!IsSpace(s[0]) && !IsSpace(s[|s| - 1]))
    ensures Strip(s) == s
  {
  }

  /** With both names present and already trimmed, the full name is the
      first name, one space and the last name ("Ada Lovelace"). */
  lemma FullNameOfTrimmedNames(a: Account)
    requires a.firstName != [] && !IsSpace(a.firstName[0])
    requires a.lastName != [] && !IsSpace(a.lastName[|a.lastName| - 1])
    ensures GetFullName(a) == a.firstName + " " + a.lastName
  {
    var s := a.firstName + " " + a.lastName;
    assert s[0] == a.firstName[0];
    assert s[|s| - 1] == a.lastName[|a.lastName| - 1];
    StripKeepsTrimmed(s);
  }

  /** An account that has no names yet has an empty full name. */
  lemma BlankAccountHasEmptyName(email: string)
    ensures GetFullName(BlankAccount(email)) == ""
  {
    assert BlankAccount(email).firstName + " " + BlankAccount(email).lastName == " ";
  }
}
