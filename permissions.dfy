/** Who may open which screen: the two permission tests of the views
    (membership of one of the view's named groups, or the superuser flag)
    and the requirement each view declares. */
module Permissions {
  import opened Models

  /** The requesting account. An anonymous visitor is not authenticated. */
  datatype User = User(authenticated: bool, isSuperuser: bool, groups: set<string>)

  /** What a view demands beyond a logged-in session. */
  datatype Requirement =
    | Groups(names: seq<string>)  // GroupRequiredMixin with these group_names
    | SuperUser                   // SuperUserRequiredMixin
    | LoginOnly                   // no permission test at all

  /** The outcome of a permission test. A group test configured without any
      group raises a configuration error rather than allowing or denying. */
  datatype Decision = Allow | Deny | ConfigError

  /** Some name in `names` is one of the user's groups, checking the names in
      order and stopping at the first hit. */
  function AnyGroupMatches(names: seq<string>, userGroups: set<string>): (r: bool)
    ensures r <==> exists i :: 0 <= i < |names| && names[i] in userGroups
  {
    if names == [] then false
    else if names[0] in userGroups then true
    else
      var rest := AnyGroupMatches(names[1..], userGroups);
      assert forall i :: 1 <= i < |names| ==> names[i] == names[1..][i - 1];
      rest
  }

  /** The group test: an empty list is a configuration error; otherwise it
      allows exactly when one of the listed names is among the user's groups. */
  function GroupTest(names: seq<string>, user: User): (r: Decision)
    ensures r == ConfigError <==> names == []
    ensures r == Allow <==> names != [] && exists n :: n in names && n in user.groups
  {
    if names == [] then ConfigError
    else if AnyGroupMatches(names, user.groups) then Allow
    else Deny
  }

  /** The superuser test: it never errs, and allows exactly superusers. */
  function SuperUserTest(user: User): (r: Decision)
    ensures r != ConfigError
    ensures r == Allow <==> user.isSuperuser
  {
    if user.isSuperuser then Allow else Deny
  }

  /** The test a requirement runs. Only a group requirement without groups
      is a configuration error. */
  function Check(req: Requirement, user: User): (r: Decision)
    ensures r == ConfigError <==> req == Groups([])
  {
    match req
    case Groups(names) => GroupTest(names, user)
    case SuperUser => SuperUserTest(user)
    case LoginOnly => Allow
  }

  /** The group test never looks at the superuser flag. */
  lemma GroupTestIgnoresSuperuser(names: seq<string>, user: User, flag: bool)
    ensures GroupTest(names, user) == GroupTest(names, user.(isSuperuser := flag))
  {
  }

  /** Adding groups to a user never revokes access granted by a group test. */
  lemma GroupTestMonotone(names: seq<string>, user: User, more: set<string>)
    requires GroupTest(names, user) == Allow
    ensures GroupTest(names, user.(groups := user.groups + more)) == Allow
  {
    var i :| 0 <= i < |names| && names[i] in user.groups;
    assert names[i] in user.groups + more;
  }

  /** The superuser test allows exactly superusers, whatever their groups:
      `SuperUserTest`'s own contract together with its independence of the
      user's groups. */
  lemma SuperUserTestIff(user: User, groups: set<string>)
    ensures SuperUserTest(user) == Allow <==> user.isSuperuser
    ensures SuperUserTest(user) == SuperUserTest(user.(groups := groups))
  {
  }

  // ---------------------------------------------------------------------
  // The view table

  datatype Action = Create | List | Detail | Update | Delete

  /** A screen: one action on one table, or the statistics page. */
  datatype View = ModelView(table: Table, action: Action) | StatisticsView

  /** The requirement every view class declares through its mixin and
      group_names. No view declares an empty group list, and only the
      statistics page asks for nothing beyond a login. */
  function Required(v: View): (r: Requirement)
    ensures r.Groups? ==> r.names != []
    ensures r == LoginOnly <==> v == StatisticsView
  {
    match v
    case StatisticsView => LoginOnly
    case ModelView(t, a) =>
      if a == Delete then SuperUser
      else match t
        case Services => Groups(["Marketer"])
        case Campaigns => Groups(["Marketer"])
        case PotentialClients => if a == List then Groups(["Operator", "Manager"]) else Groups(["Operator"])
        case Contracts => Groups(["Manager"])
        case ActiveClients => if a == Create then Groups(["Manager"]) else SuperUser
  }

  /** No view of the table can raise a configuration error. */
  lemma NoViewMisconfigured(v: View, user: User)
    ensures Check(Required(v), user) != ConfigError
  {
  }

  /** Every delete view requires a superuser. */
  lemma DeleteViewsNeedSuperuser(t: Table, user: User)
    ensures Required(ModelView(t, Delete)) == SuperUser
    ensures Check(Required(ModelView(t, Delete)), user) == Allow <==> user.isSuperuser
  {
  }

  /** Active clients are listed, shown and updated by superusers only. */
  lemma ActiveClientViewsNeedSuperuser(a: Action, user: User)
    requires a in {List, Detail, Update}
    ensures Required(ModelView(ActiveClients, a)) == SuperUser
    ensures Check(Required(ModelView(ActiveClients, a)), user) == Allow <==> user.isSuperuser
  {
  }

  /** Services and campaigns are created, listed, shown and updated by marketers. */
  lemma MarketerViews(t: Table, a: Action, user: User)
    requires t in {Services, Campaigns} && a != Delete
    ensures Required(ModelView(t, a)) == Groups(["Marketer"])
    ensures Check(Required(ModelView(t, a)), user) == Allow <==> "Marketer" in user.groups
  {
  }

  /** Potential clients are created, shown and updated by operators. */
  lemma OperatorViews(a: Action, user: User)
    requires a in {Create, Detail, Update}
    ensures Required(ModelView(PotentialClients, a)) == Groups(["Operator"])
    ensures Check(Required(ModelView(PotentialClients, a)), user) == Allow <==> "Operator" in user.groups
  {
  }

  /** The potential-client list admits operators and managers. */
  lemma PotentialClientListView(user: User)
    ensures Required(ModelView(PotentialClients, List)) == Groups(["Operator", "Manager"])
    ensures Check(Required(ModelView(PotentialClients, List)), user) == Allow <==>
      "Operator" in user.groups || "Manager" in user.groups
  {
    var names := ["Operator", "Manager"];
    assert names[0] == "Operator" && names[1] == "Manager";
  }

  /** Contracts are created, listed, shown and updated by managers. */
  lemma ManagerViews(a: Action, user: User)
    requires a != Delete
    ensures Required(ModelView(Contracts, a)) == Groups(["Manager"])
    ensures Check(Required(ModelView(Contracts, a)), user) == Allow <==> "Manager" in user.groups
  {
  }

  /** Active clients are created by managers. */
  lemma ActiveClientCreateView(user: User)
    ensures Required(ModelView(ActiveClients, Create)) == Groups(["Manager"])
    ensures Check(Required(ModelView(ActiveClients, Create)), user) == Allow <==> "Manager" in user.groups
  {
  }

  /** The statistics page needs nothing beyond a login. */
  lemma StatisticsViewLoginOnly(user: User)
    ensures Required(StatisticsView) == LoginOnly
    ensures Check(Required(StatisticsView), user) == Allow
  {
  }
}
