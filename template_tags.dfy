/** gardenhub/templatetags/gardenhub.py: the user's orders narrowed to one
    garden or to one plot. */
module TemplateTags {
  import opened Records
  import opened OrderQuerySet
  import opened Models

  /** garden_user_orders: the user's orders on plots of garden `gid`. */
  function GardenUserOrders(g: Graph, u: UserId, gid: GardenId): QuerySet
    requires g.Valid()
  {
    var orders := GetOrders(g, u);
    map o | o in orders && g.plots[orders[o].plot].garden == gid :: orders[o]
  }

  /** plot_user_orders: the user's orders on plot `p`. */
  function PlotUserOrders(g: Graph, u: UserId, p: PlotId): QuerySet
    requires g.Valid()
  {
    var orders := GetOrders(g, u);
    map o | o in orders && orders[o].plot == p :: orders[o]
  }

  /** The garden-scoped orders are the user's orders that lie in the
      garden, all of them, as stored. */
  lemma GardenUserOrdersExact(g: Graph, u: UserId, gid: GardenId)
    requires g.Valid()
    ensures forall o :: o in GardenUserOrders(g, u, gid) <==>
      o in GetOrders(g, u) && g.plots[g.orders[o].plot].garden == gid
    ensures forall o :: o in GardenUserOrders(g, u, gid) ==>
      GardenUserOrders(g, u, gid)[o] == g.orders[o] && CanEditOrder(g, u, o)
  {
  }

  /** The plot-scoped orders are the user's orders on the plot, all of
      them, as stored. */
  lemma PlotUserOrdersExact(g: Graph, u: UserId, p: PlotId)
    requires g.Valid()
    ensures forall o :: o in PlotUserOrders(g, u, p) <==> o in GetOrders(g, u) && g.orders[o].plot == p
    ensures forall o :: o in PlotUserOrders(g, u, p) ==> PlotUserOrders(g, u, p)[o] == g.orders[o]
  {
  }

  /** A plot's orders are among its garden's orders. */
  lemma PlotOrdersWithinGardenOrders(g: Graph, u: UserId, p: PlotId)
    requires g.Valid() && p in g.plots
    ensures PlotUserOrders(g, u, p).Keys <= GardenUserOrders(g, u, g.plots[p].garden).Keys
  {
  }

  /** A manager of the garden sees every order on the garden's plots; a
      user who neither manages the garden nor gardens the plot sees none
      of the plot's orders. */
  lemma GardenOrdersOfManager(g: Graph, u: UserId, gid: GardenId, p: PlotId)
    requires g.Valid() && gid in g.gardens && p in g.plots
    ensures u in g.gardens[gid].managers ==>
      forall o :: o in g.orders && g.plots[g.orders[o].plot].garden == gid ==> o in GardenUserOrders(g, u, gid)
    ensures u !in g.plots[p].gardeners && u !in g.GardenOf(p).managers ==> PlotUserOrders(g, u, p) == map[]
  {
  }
}
