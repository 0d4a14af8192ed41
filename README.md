# GardenHub in Dafny

GardenHub is a Django site where garden managers rent plots to gardeners.
Gardeners order pickings for a date range, and pickers record picks. This
project models the part of GardenHub that decides things:

- who may see and edit which gardens, plots and orders;
- how orders are sorted into completed, open, upcoming, active and picked
  today;
- how a list of email addresses becomes accounts, with invitations;
- what the views accept, change and mail: order creation with its overlap
  check, cancelation, order visibility, pick creation, account activation,
  account settings, account removal and the plot form.

Every rule is stated over a relational graph of gardens, plots, orders and
picks (`Records.Graph`). The graph, the user table, a mail outbox and the
key and token counters live in one `Records.Database` object, which the
views change in place. Ids are natural numbers. Dates are day numbers and
timestamps are seconds, in the site's local time. The current day (`today`)
and the current time (`now`) are always parameters.

Files, one module each:

| file | module | models |
|---|---|---|
| records.dfy | Records | the records of `gardenhub/models.py` and the database holding them |
| order_queryset.dfy | OrderQuerySet | the `OrderQuerySet` filters of `gardenhub/managers.py` |
| models.dfy | Models | the `User`, `Order` and `Pick` methods of `gardenhub/models.py` |
| user_manager.dfy | UserManager | the `UserManager` of `gardenhub/managers.py` |
| views.dfy | Views | the decisions of `gardenhub/views.py` |
| helpers.dfy | Helpers | `gardenhub/helpers.py` |
| decorators.dfy | Decorators | `gardenhub/decorators.py` |
| template_tags.dfy | TemplateTags | `gardenhub/templatetags/gardenhub.py` |

Choices made where the source is silent or inconsistent:

- `Order.is_closed` calls `Order.objects.closed()`, but `OrderQuerySet`
  defines no `closed()`. `OrderQuerySet.Closed` is defined from the tests
  (`gardenhub/test_models.py:121-168` and `:322-349`): an order is closed
  when it has finished or has been canceled.
- The other filters ignore `canceled`, as written. So a canceled order
  whose dates cover today is still active. It still blocks new orders on
  its plot (`Views.CanceledOrderStillBlocks`). It may also be canceled
  again, which moves its cancel timestamp (`Views.CanceledOrderMayBeCanceledAgain`).
- `open()` is strict (`end_date > today`). An order that ends today is
  active, not open and, unless canceled, not closed.
- `PickCreateView` lets in a picker of any garden. It does not check the
  garden of the plot being picked.
- A successful activation leaves the activation token in place. The next
  visit of the link finds an active account and only clears the token.
- Passwords are stored as given (`Some(p)`), and `None` is an unusable
  password. `check_password` is equality with the stored value.
- Email addresses are compared as given. `normalize_email` is the identity.
- Activation tokens and new keys come from counters in the database, so
  each one is fresh.
- Every modelled class-based view sits behind `LoginRequiredMixin`. A
  request is logged in when it comes from an active account that holds a
  valid session. With Django's default authentication backend an
  inactive account has no such session, so `Views.LoggedIn` asks for an
  existing, active account and takes the session as given. Any other
  request gets the login redirect before any other check, so an invited
  account that is not yet activated, or a removed one, can change
  nothing.
- `get_picks()` is documented as the picks within the order's timeframe,
  but its upper bound is the first second of the end day, so a pick made
  later on the end day is left out although `active()` counts that whole
  day. The model follows the code (`Models.GetPicksWindow`).
- A view's form validation (Django field cleaning) is a boolean parameter
  (`fieldsValid`, or the `valid` field of the activation and settings
  forms); a form that does not clean is shown again and saves nothing. Only the rules the views add on top are modelled.

## Model

| member | source | states |
|---|---|---|
| OrderQuerySet.ActiveInactivePartition | gardenhub/managers.py:26-38 | for a fixed day, `active()` and `inactive()` split every set of orders into two disjoint parts |
| OrderQuerySet.CompletedAndUpcomingAreNotActive | gardenhub/managers.py:14-38 | `completed()` and `upcoming()` share no order with `active()`, and together they are exactly `inactive()` |
| OrderQuerySet.EndingTodayIsActiveNotOpen | gardenhub/managers.py:18-31 | an order that has started and ends today is active but not open, and not closed unless canceled |
| OrderQuerySet.CancelIn | gardenhub/views.py:240-242 | canceling marks the named order canceled at the given time, keeps its plot, requester and dates, and leaves every other order as it was |
| OrderQuerySet.CancelingKeepsDateFilters | gardenhub/managers.py:14-38 | canceling an order changes its membership in none of the date filters |
| OrderQuerySet.CancelingKeepsPickFilters | gardenhub/managers.py:40-46 | canceling an order changes its membership in neither pick filter |
| OrderQuerySet.CancelingCloses | gardenhub/test_models.py:121-168 | canceling adds that order, and no other, to the closed orders |
| OrderQuerySet.PickedTodayComplement | gardenhub/managers.py:40-46 | `picked_today()` and `unpicked_today()` are complements; an order is picked today iff a pick on its plot is stamped at or after the start of today |
| OrderQuerySet.OnePickMakesPicked | gardenhub/managers.py:40-46 | an order with no pick on its plot is unpicked; one pick stamped during today on its plot makes it picked |
| Models.CanEditPlotPaths | gardenhub/models.py:476-484 | the plot's gardeners and its garden's managers may edit the plot, each on their own; anyone else may not |
| Models.CanEditOrderIsCanEditPlot | gardenhub/models.py:486-492 | `can_edit_order` holds iff the order's plot is among `get_plots()` |
| Models.GetGardensAreEditable | gardenhub/models.py:387-391 | `get_gardens()` is exactly the gardens `can_edit_garden` admits |
| Models.GetPlotsDecomposition | gardenhub/models.py:393-400 | `get_plots()` is the plots the user gardens plus every plot of every garden the user manages, and is exactly the plots `can_edit_plot` admits |
| Models.IsGardenerIff | gardenhub/models.py:439-445 | `is_gardener` holds iff the user gardens a plot or manages a garden that has a plot |
| Models.ManagerOfPlantedGardenIsGardener | gardenhub/models.py:439-445 | a manager of a garden with a plot is both a gardener and a garden manager |
| Models.ManagerOfBareGardenIsNotGardener | gardenhub/models.py:431-445 | a manager whose gardens have no plots, and who gardens nothing, is a garden manager but not a gardener |
| Models.PickerOnlyIsNotAnything | gardenhub/models.py:448-453 | a user who manages no garden and gardens no plot is not `is_anything`, whatever gardens they pick for |
| Models.GetOrdersAreEditable | gardenhub/models.py:402-407 | `get_orders()` is exactly the orders `can_edit_order` admits, with their stored values |
| Models.PickerOrdersAreOrderPicker | gardenhub/models.py:415-419 | an order is in `get_picker_orders()` iff `is_order_picker` holds for it |
| Models.HasOrdersIff | gardenhub/models.py:462-466 | `has_orders` holds iff some order lies on a plot the user can edit |
| Models.IsPickerIff | gardenhub/models.py:455-460 | `is_picker` holds iff `get_picker_gardens()` is not empty |
| Models.GetPeersIff | gardenhub/models.py:421-429 | `get_peers()` never holds the user, and holds another user iff the two manage a common garden or the other gardens a plot the user can edit |
| Models.LoneGardenerHasNoPeers | gardenhub/models.py:421-429 | a user who manages nothing and is the only gardener of each of their plots has no peers |
| Models.GetPicksWindow | gardenhub/models.py:210-219 | a pick on the order's plot is in `get_picks()` iff it is stamped between midnight of the start day and midnight of the end day, both included |
| Models.StatusIconShowsStage | gardenhub/models.py:221-233 | the status icon is the icon of the order's stage: red ban if canceled, else green if active, else grey check if finished, else grey circle; grey circle iff not canceled and not yet started |
| Models.CanceledOrderIsClosed | gardenhub/models.py:196-198 | a canceled order is closed and shows the red ban, and is open exactly when its end date is after today |
| Models.OrderWasPickedTodayIff | gardenhub/models.py:204-208 | `was_picked_today` holds iff the order exists and some pick on its plot is stamped at or after the first second of today |
| Models.InquirersIff | gardenhub/models.py:265-274 | the inquirers of a pick are the plot's gardeners and the requesters of the plot's active orders, each once |
| Models.TrimStart | gardenhub/models.py:372-377 | the result is a suffix of the input that starts with no whitespace, and every character dropped is whitespace |
| Models.TrimEnd | gardenhub/models.py:372-377 | the result is a prefix of the input that ends with no whitespace, and every character dropped is whitespace |
| Models.StripSpec | gardenhub/models.py:372-377 | `strip()` returns a slice of its input with no whitespace at either end, and drops only whitespace |
| Models.StripKeepsTrimmed | gardenhub/models.py:372-377 | a string with no whitespace at either end is its own `strip()` |
| Models.FullNameOfTrimmedNames | gardenhub/models.py:372-377 | with both names present and trimmed, the full name is first name, one space, last name |
| Models.BlankAccountHasEmptyName | gardenhub/models.py:372-377 | an account with no names has the empty full name |
| UserManager.CreateAccount | gardenhub/managers.py:55-65 | an empty email is refused; a taken email is refused by the unique constraint; otherwise exactly one account is added under a fresh key, with the given password and flags |
| UserManager.CreateUser | gardenhub/managers.py:67-70 | staff and superuser default to false; the call fails iff the email is empty or taken |
| UserManager.CreateSuperuser | gardenhub/managers.py:72-82 | an explicit false for staff, or else for superuser, is refused before anything else; otherwise the account is created active, staff and superuser unless told otherwise |
| UserManager.NewEmailsSpec | gardenhub/managers.py:89-115 | the addresses that get an invitation are exactly the listed addresses unknown to the table, each once |
| UserManager.GetOrCreate | gardenhub/managers.py:93-115 | a known address returns its account and changes nothing; an unknown one adds a blank account with a fresh token and appends one invitation to it |
| UserManager.GetOrInviteUsers | gardenhub/managers.py:84-118 | one account per address, in order; known accounts unchanged; the table gains exactly the missing addresses, each with a token; the outbox gains one invitation per new address, in order, from the inviter's full name |
| Views.MailEach | gardenhub/views.py:143-154 | the loop over a set of users mails each member exactly once with the same subject and body, and changes nothing else |
| Views.MailsEachOnceReaches | gardenhub/views.py:196-206 | after such a loop a user got a mail iff the user is in the set, and got at most one |
| Views.OverlapIff | gardenhub/views.py:107-128 | an order blocks the new dates iff it is on the same plot, its range meets the new range and it covers today |
| Views.NonBlockingOrders | gardenhub/views.py:110-121 | ranges that only follow the plot's orders are accepted, and orders that are upcoming or completed today never block |
| Views.CanceledOrderStillBlocks | gardenhub/views.py:110-119 | a canceled order that covers today and meets the new range still blocks |
| Views.OrderFromForm | gardenhub/views.py:132-137 | the saved order is not canceled and is requested by the acting user, whatever was submitted, with the submitted plot and dates |
| Views.OverlapErrorIff | gardenhub/views.py:98-130 | with valid fields and an editable plot, the form gets the overlap error iff some order on the plot meets the dates and covers today, and is accepted iff none does |
| Views.CreateOrder | gardenhub/views.py:90-164 | a request with no logged-in user gets the login redirect; non-gardeners get 403; a bad form changes nothing; otherwise exactly the new order is added and each picker of the plot's garden is mailed once |
| Views.MayViewOrderIff | gardenhub/views.py:222-228 | an order is visible iff the user gardens its plot or manages or picks for its plot's garden |
| Views.CancelOrder | gardenhub/views.py:231-254 | a request with no logged-in user gets the login redirect; a missing order is 404; canceling is allowed iff the user can edit the order and it is open; it sets the two cancel fields and nothing else |
| Views.CanceledOrderMayBeCanceledAgain | gardenhub/views.py:251-254 | a canceled order that is still open may be canceled again |
| Views.CreatePick | gardenhub/views.py:167-212 | a request with no logged-in user gets the login redirect; non-pickers get 403, a missing plot 404; otherwise exactly the new pick is added and each inquirer of it is mailed once |
| Views.ActivateAccount | gardenhub/views.py:369-406 | an unknown token is 404; an active holder only loses the token; a valid post with matching passwords activates the account with the new profile and password; anything else changes nothing; after a redirect the holder is active and still holds the token iff it was just activated |
| Views.ActivationThenRevisit | gardenhub/views.py:376-392 | after activation the token still leads to that account alone, now active, so the next visit only clears the token; after that no account holds the token, and the account stays active with its new password |
| Views.RemoveAccount | gardenhub/views.py:480-499 | a logged-in actor's account is deactivated and kept, nothing else changes, the answer redirects to logout, and afterwards the actor is not logged in; a request with no logged-in user gets the login redirect |
| Views.DeactivationLogsOutOnlyThatAccount | gardenhub/views.py:487-492 | deactivating an account logs that account out and leaves every other account's login status as it was |
| Views.RemovalReopensActivation | gardenhub/views.py:487-499 | removal keeps the email and the token; an account removed while it holds its token is inactive and the only holder, so its link offers the activation form again, and activating through it gives the same account as activating before the removal |
| Views.PasswordChangeTable | gardenhub/views.py:424-472 | the password changes iff all three fields are filled, the old one checks and the new pair matches; otherwise exactly one message says why; names, phone and photo are set as the view sets them |
| Views.NewPasswordChecks | gardenhub/views.py:448-453 | after a successful change the new password checks and a different old one no longer does |
| Views.UpdateAccountSettings | gardenhub/views.py:416-477 | a request with no logged-in user gets the login redirect and changes nothing; a form that does not clean is shown again and changes nothing; otherwise the account is replaced by the settings applied to it and the message matches the password decision; nothing else changes |
| Views.PlotFormLocking | gardenhub/views.py:334-351 | the choices are the plot's garden plus the user's gardens; garden and title are locked together, iff the user does not manage the plot's garden |
| Helpers.IsGardenerIff | gardenhub/helpers.py:4-9 | the direct check holds iff some plot lists the user as gardener |
| Helpers.IsGardenManagerIff | gardenhub/helpers.py:12-17 | the direct check holds iff some garden lists the user as manager |
| Helpers.GardenerIsModelGardener | gardenhub/helpers.py:4-9 | a gardener by the direct check is a gardener for the user model |
| Helpers.ManagerIsOnlyModelGardener | gardenhub/helpers.py:4-9 | a manager of a garden with a plot who gardens nothing is a gardener for the user model but not for the direct check |
| Helpers.GardenManagerAgrees | gardenhub/helpers.py:12-17 | both garden-manager checks agree |
| Decorators.IsAnythingGate | gardenhub/decorators.py:5-17 | 403 iff the user can edit no plot and manages no garden; otherwise the wrapped view's answer unchanged |
| Decorators.CanEditPlotGate | gardenhub/decorators.py:20-34 | 403 iff the user neither gardens the plot nor manages its garden; otherwise the wrapped view's answer unchanged |
| Decorators.CanEditGardenGate | gardenhub/decorators.py:37-51 | for any garden, 403 iff the user does not manage it; otherwise the wrapped view's answer unchanged |
| Decorators.GardenerIsNotGardenEditor | gardenhub/decorators.py:20-51 | a gardener of a plot who does not manage its garden passes the plot gate to the view but is refused by the garden gate |
| Decorators.CanEditOrderGate | gardenhub/decorators.py:54-68 | 403 iff the user cannot edit the order's plot; otherwise the wrapped view's answer unchanged |
| Decorators.MissingObjectsRaise | gardenhub/decorators.py:20-68 | a missing plot, garden or order raises before any permission is checked |
| TemplateTags.GardenUserOrdersExact | gardenhub/templatetags/gardenhub.py:6-13 | the garden tag returns exactly the user's orders on that garden's plots, as stored, each editable by the user |
| TemplateTags.PlotUserOrdersExact | gardenhub/templatetags/gardenhub.py:16-23 | the plot tag returns exactly the user's orders on that plot, as stored |
| TemplateTags.PlotOrdersWithinGardenOrders | gardenhub/templatetags/gardenhub.py:6-23 | a plot's orders are among its garden's orders |
| TemplateTags.GardenOrdersOfManager | gardenhub/templatetags/gardenhub.py:6-23 | a manager of the garden sees all of its orders; a user with no role on a plot sees none of its orders |

## Left out

- `Order.progress` (`gardenhub/models.py:175-190`): floating-point
  arithmetic on the clock. It is not modelled.
- The local-time helpers: `today` and `now` are parameters, a day starts
  at second `day * 86400`, and time zones and daylight saving are not
  modelled.
- Mail delivery, mail templates, absolute URLs and flash messages. The
  outbox records who is mailed, with which subject and which record.
  Of the flash messages, only the settings view's is kept.
- uuid4 tokens: a counter stands for a source of fresh tokens.
- Password hashing, `authenticate` and `login`: library calls. `login`
  after activation is not modelled.
- Django form field cleaning is a boolean parameter. The order form's own
  fields (`gardenhub/forms.py`) and the pick form's crops and comment are
  not modelled.
- `Pick.crops`, `comment`, `Crop`, `Affiliation` and `VolunteerRequest`:
  no rule in the modelled code reads them.
- `get_short_name`, `clean` and `normalize_email`: the email is kept as given.
- The list, detail and form views that only delegate to the model
  (`OrderListView`, `GardenListView`, `PlotListView`, `GardenDetailView`,
  `PlotCreateView`, `AccountView`). Behind the login check, their gates
  are the model predicates proved above. `AccountRemoveView` changes state and is modelled as
  `Views.RemoveAccount`; its success message is left out with the other
  flash messages.
- The login check in front of `OrderDetailView` and `PlotUpdateView`:
  `Views.MayViewOrder` and `Views.PlotFormFor` state the decision for a
  logged-in user only. The five state-changing views model the check
  themselves (`Views.LoggedIn`, answer `LoginRedirect`).
- Ordering: `Order.Meta.ordering = ["start_date"]` sorts every order query
  by start date. The model's query sets are maps and its user sets are
  sets, so `get_orders`, the template tags and the sets that `inquirers`
  draws on carry no order.
- Duplicates from joins: `picked_today()` filters through `plot__picks`
  with no `distinct()`, so the source returns an order once per matching
  pick. The map model holds each order once. Membership, which is what
  `was_picked_today` and the views read, is the same.
- `_create_user`'s arbitrary `**extra_fields` are narrowed to the three
  flags of `UserManager.ExtraFields` (`is_active`, `is_staff`,
  `is_superuser`); the other account fields start blank.
- The order fields `pick_all`, `crops`, `comment` and `timestamp`: no rule
  in the modelled code reads them, so `Records.Order` leaves them out.
- `GardenUpdateView.form_valid` and `PlotUpdateView.form_valid`: they pass
  the submitted emails to `UserManager.GetOrInviteUsers` and store the
  result. The replacement of the manager or gardener set is not modelled.
- The JSON crops API, the login, logout and password-reset views, the
  admin, the mixins, the serializers and the URL table: plumbing with no
  rule of its own.
- Concurrency: each request runs alone against the database.
- Views.UpdateAccountSettings: the session check on the password hash is
  not modelled. The view never calls `update_session_auth_hash`, so in the
  source a successful password change ends the session that made it, and
  the next request of that session is anonymous. In the model the
  account stays logged in.
- How a session comes about is not modelled: `Views.LoggedIn` does not
  ask whether the account could ever authenticate (an active account with
  an unusable password counts as logged in).
- Views.CreatePick: `today` and `now` are independent parameters. The model
  does not require `now` to fall within `today`.
- UserManager.CreateAccount: a duplicate email is an error result. In the
  source it is a database integrity error.
