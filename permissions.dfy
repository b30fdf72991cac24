/** Migration 0008_create_group_permissions: the permission lists of the
    three groups pi_user, pi_admin and pi_customer, the forward step that
    replaces each group's permission set with its list, and the reverse step
    that removes the listed permissions one by one. Permissions are values
    here; the Permission and Group tables of django.contrib.auth are a map
    from group name to permission set. */
module Permissions {
  import opened Wrappers
  import opened Schema

  /** Django's four default permissions per model. */
  datatype Action = Add | Change | Delete | View

  datatype Permission = Perm(action: Action, model: TableName)

  function ActionName(a: Action): string {
    match a
    case Add => "add"
    case Change => "change"
    case Delete => "delete"
    case View => "view"
  }

  /** The content-type model name of each table. */
  function ModelName(t: TableName): string {
    match t
    case CategoryTable => "category"
    case ShippingMethodTable => "shipping_method"
    case PaymentMethodTable => "payment_method"
    case CustomerTable => "customer"
    case ProductTable => "product"
    case ShoppingCartTable => "shopping_cart"
    case CartItemTable => "cart_item"
    case OrderTable => "order"
    case OrderProductTable => "order_product"
  }

  function Codename(p: Permission): string {
    ActionName(p.action) + "_" + ModelName(p.model)
  }

  /** Permission.objects.filter(content_type__model=m): all four, in
      codename order. */
  function ModelPermissions(t: TableName): seq<Permission> {
    [Perm(Add, t), Perm(Change, t), Perm(Delete, t), Perm(View, t)]
  }

  /** Permission.objects.filter(content_type__model=m, codename='view_m'). */
  function ViewPermission(t: TableName): seq<Permission> {
    [Perm(View, t)]
  }

  function Elements(ps: seq<Permission>): (r: set<Permission>)
    ensures forall p :: p in r <==> p in ps
  {
    set p | p in ps
  }

  const PiUser: string := "pi_user"
  const PiAdmin: string := "pi_admin"
  const PiCustomer: string := "pi_customer"

  /** The models whose every permission pi_admin receives; pi_customer
      receives every permission of the other three. */
  const AdminModels: set<TableName> :=
    {CategoryTable, ShippingMethodTable, PaymentMethodTable, CustomerTable, ProductTable, ShoppingCartTable}

  /** One element of my_groups_initialization_list. */
  datatype GroupEntry = GroupEntry(name: string, permissions: Option<seq<Permission>>)

  /** pi_user_permissions: the nine view querysets chained, one view
      permission per model. */
  function UserList(): (r: seq<Permission>)
    ensures |r| == 9
    ensures forall i :: 0 <= i < |r| ==> r[i].action == View
  {
    ViewPermission(CategoryTable) + ViewPermission(ShippingMethodTable) + ViewPermission(PaymentMethodTable)
    + ViewPermission(CustomerTable) + ViewPermission(ProductTable) + ViewPermission(ShoppingCartTable)
    + ViewPermission(CartItemTable) + ViewPermission(OrderTable) + ViewPermission(OrderProductTable)
  }

  /** pi_admin_permissions: the four permissions of each of the six
      catalogue models, then the view permission of the other three. */
  function AdminList(): (r: seq<Permission>)
    ensures |r| == 27
    ensures forall i :: 0 <= i < |r| ==> r[i].action == View || r[i].model in AdminModels
  {
    ModelPermissions(CategoryTable) + ModelPermissions(ShippingMethodTable) + ModelPermissions(PaymentMethodTable)
    + ModelPermissions(CustomerTable) + ModelPermissions(ProductTable) + ModelPermissions(ShoppingCartTable)
    + ViewPermission(CartItemTable) + ViewPermission(OrderTable) + ViewPermission(OrderProductTable)
  }

  /** pi_customer_permissions: the four permissions of cart items, orders
      and order lines, then the view permission of the six others. */
  function CustomerList(): (r: seq<Permission>)
    ensures |r| == 18
    ensures forall i :: 0 <= i < |r| ==> r[i].action == View || r[i].model !in AdminModels
  {
    ModelPermissions(CartItemTable) + ModelPermissions(OrderTable) + ModelPermissions(OrderProductTable)
    + ViewPermission(CategoryTable) + ViewPermission(ShippingMethodTable) + ViewPermission(PaymentMethodTable)
    + ViewPermission(CustomerTable) + ViewPermission(ProductTable) + ViewPermission(ShoppingCartTable)
  }

  lemma InUserList(p: Permission)
    ensures p in UserList() <==> p.action == View
  {
    match p.model
    case CategoryTable =>
    case ShippingMethodTable =>
    case PaymentMethodTable =>
    case CustomerTable =>
    case ProductTable =>
    case ShoppingCartTable =>
    case CartItemTable =>
    case OrderTable =>
    case OrderProductTable =>
  }

  lemma InAdminList(p: Permission)
    ensures p in AdminList() <==> p.action == View || p.model in AdminModels
  {
    match p.model
    case CategoryTable =>
    case ShippingMethodTable =>
    case PaymentMethodTable =>
    case CustomerTable =>
    case ProductTable =>
    case ShoppingCartTable =>
    case CartItemTable =>
    case OrderTable =>
    case OrderProductTable =>
  }

  lemma InCustomerList(p: Permission)
    ensures p in CustomerList() <==> p.action == View || p.model !in AdminModels
  {
    match p.model
    case CategoryTable =>
    case ShippingMethodTable =>
    case PaymentMethodTable =>
    case CustomerTable =>
    case ProductTable =>
    case ShoppingCartTable =>
    case CartItemTable =>
    case OrderTable =>
    case OrderProductTable =>
  }

  /** populate_permissions_lists: pi_user may only view, on all nine models;
      pi_admin may do everything on the six catalogue models and only view
      cart items, orders and order lines; pi_customer the other way round. */
  function PopulatePermissionsLists(): (r: seq<GroupEntry>)
    ensures |r| == 3 && r[0].name == PiUser && r[1].name == PiAdmin && r[2].name == PiCustomer
    ensures r[0].permissions == Some(UserList())
    ensures r[1].permissions == Some(AdminList())
    ensures r[2].permissions == Some(CustomerList())
  {
    [GroupEntry(PiUser, Some(UserList())),
     GroupEntry(PiAdmin, Some(AdminList())),
     GroupEntry(PiCustomer, Some(CustomerList()))]
  }

  // ---------------------------------------------------------------------
  // The two directions of the migration, as functions of the group table

  /** Each group's permissions by group name. */
  type Groups = map<string, set<Permission>>

  datatype Direction = Forward | Backward

  /** The permissions left after remove() of each element of list in turn. */
  function RemoveEach(ps: set<Permission>, list: seq<Permission>): (r: set<Permission>)
    ensures r == ps - Elements(list)
    decreases |list|
  {
    if list == [] then ps
    else
      var last := list[|list| - 1];
      assert Elements(list) == Elements(list[..|list| - 1]) + {last};
      RemoveEach(ps, list[..|list| - 1]) - {last}
  }

  /** One entry of the loop: skipped without a list; None when
      Group.objects.get finds no group of that name; otherwise the group's
      set replaced by the list (Forward) or the list removed from it
      (Backward). */
  function Step(m: Groups, e: GroupEntry, d: Direction): (r: Option<Groups>)
    ensures e.permissions.None? ==> r == Some(m)
    ensures e.permissions.Some? ==> (r.Some? <==> e.name in m)
    ensures r.Some? ==> r.value.Keys == m.Keys
    ensures r.Some? ==> forall g :: g in m && g != e.name ==> r.value[g] == m[g]
    ensures r.Some? && e.permissions.Some? ==>
              r.value[e.name] == if d == Forward then Elements(e.permissions.value)
                                 else m[e.name] - Elements(e.permissions.value)
  {
    if e.permissions.None? then Some(m)
    else if e.name !in m then None
    else if d == Forward then Some(m[e.name := Elements(e.permissions.value)])
    else Some(m[e.name := RemoveEach(m[e.name], e.permissions.value)])
  }

  /** The loop over every entry, in order; None as soon as one step fails
      (the migration is then rolled back). */
  function Run(m: Groups, es: seq<GroupEntry>, d: Direction): Option<Groups>
    decreases |es|
  {
    if es == [] then Some(m)
    else match Run(m, es[..|es| - 1], d)
      case None => None
      case Some(m') => Step(m', es[|es| - 1], d)
  }

  /** A failed prefix fails the whole loop. */
  lemma {:induction false} RunFailsOnward(m: Groups, es: seq<GroupEntry>, d: Direction, i: nat)
    requires i <= |es| && Run(m, es[..i], d).None?
    ensures Run(m, es, d).None?
    decreases |es| - i
  {
    if i < |es| {
      assert es[..i + 1][..i] == es[..i];
      RunFailsOnward(m, es, d, i + 1);
    } else {
      assert es[..i] == es;
    }
  }

  /** The loop never adds or drops a group, and only touches listed ones. */
  lemma {:induction false} RunKeepsGroups(m: Groups, es: seq<GroupEntry>, d: Direction)
    requires Run(m, es, d).Some?
    ensures Run(m, es, d).value.Keys == m.Keys
    ensures forall g :: g in m && (forall i :: 0 <= i < |es| ==> es[i].name != g) ==> Run(m, es, d).value[g] == m[g]
    decreases |es|
  {
    if es != [] {
      var init := es[..|es| - 1];
      RunKeepsGroups(m, init, d);
      forall g | g in m && (forall i :: 0 <= i < |es| ==> es[i].name != g)
        ensures Run(m, es, d).value[g] == m[g]
      {
        assert forall i :: 0 <= i < |init| ==> init[i] == es[i];
        assert es[|es| - 1].name != g;
      }
    }
  }

  /** The loop gets through exactly when every entry with a permission
      list names an existing group. */
  lemma {:induction false} RunSucceedsIff(m: Groups, es: seq<GroupEntry>, d: Direction)
    ensures Run(m, es, d).Some? <==> forall i :: 0 <= i < |es| && es[i].permissions.Some? ==> es[i].name in m
    decreases |es|
  {
    if es != [] {
      var init := es[..|es| - 1];
      RunSucceedsIff(m, init, d);
      assert forall i :: 0 <= i < |init| ==> init[i] == es[i];
      if Run(m, init, d).Some? {
        RunKeepsGroups(m, init, d);
      }
    }
  }

  /** An entry without a permission list changes nothing in either
      direction. */
  lemma SkippedEntry(m: Groups, es: seq<GroupEntry>, name: string, d: Direction)
    ensures Run(m, es + [GroupEntry(name, None)], d) == Run(m, es, d)
  {
    var es' := es + [GroupEntry(name, None)];
    assert es'[..|es'| - 1] == es;
  }

  /** A loop over three entries runs them in order. */
  lemma {:induction false} RunThree(m: Groups, es: seq<GroupEntry>, d: Direction)
    requires |es| == 3
    ensures Run(m, es, d) ==
              match Step(m, es[0], d)
              case None => None
              case Some(m1) =>
                match Step(m1, es[1], d)
                case None => None
                case Some(m2) => Step(m2, es[2], d)
  {
    assert es[..2][..1] == es[..1];
    assert es[..1][..0] == [];
    assert es[..3] == es;
    assert Run(m, es[..1], d) == Step(m, es[0], d);
  }

  predicate HasGroups(m: Groups) {
    PiUser in m && PiAdmin in m && PiCustomer in m
  }

  /** The three group names are distinct. */
  lemma GroupNamesDistinct()
    ensures PiUser != PiAdmin && PiUser != PiCustomer && PiAdmin != PiCustomer
  {
    assert |PiUser| == 7 && |PiAdmin| == 8 && |PiCustomer| == 11;
  }

  /** The group table after the forward step. */
  function Forwarded(m: Groups): Groups
    requires HasGroups(m)
  {
    m[PiUser := Elements(UserList())][PiAdmin := Elements(AdminList())][PiCustomer := Elements(CustomerList())]
  }

  /** The group table after the reverse step. */
  function Reversed(m: Groups): Groups
    requires HasGroups(m)
  {
    m[PiUser := m[PiUser] - Elements(UserList())]
     [PiAdmin := m[PiAdmin] - Elements(AdminList())]
     [PiCustomer := m[PiCustomer] - Elements(CustomerList())]
  }

  lemma {:induction false} ForwardRun(m: Groups)
    ensures Run(m, PopulatePermissionsLists(), Forward) == if HasGroups(m) then Some(Forwarded(m)) else None
  {
    var es := PopulatePermissionsLists();
    RunThree(m, es, Forward);
    if PiUser in m {
      var m1 := m[PiUser := Elements(UserList())];
      assert Step(m, es[0], Forward) == Some(m1);
      if PiAdmin in m {
        var m2 := m1[PiAdmin := Elements(AdminList())];
        assert Step(m1, es[1], Forward) == Some(m2);
        if PiCustomer in m {
          assert Step(m2, es[2], Forward) == Some(Forwarded(m));
        } else {
          assert Step(m2, es[2], Forward) == None;
        }
      } else {
        assert Step(m1, es[1], Forward) == None;
      }
    }
  }

  lemma {:induction false} BackwardRun(m: Groups)
    ensures Run(m, PopulatePermissionsLists(), Backward) == if HasGroups(m) then Some(Reversed(m)) else None
  {
    var es := PopulatePermissionsLists();
    RunThree(m, es, Backward);
    GroupNamesDistinct();
    if PiUser in m {
      var m1 := m[PiUser := m[PiUser] - Elements(UserList())];
      assert Step(m, es[0], Backward) == Some(m1);
      if PiAdmin in m {
        var m2 := m1[PiAdmin := m[PiAdmin] - Elements(AdminList())];
        assert Step(m1, es[1], Backward) == Some(m2);
        if PiCustomer in m {
          assert Step(m2, es[2], Backward) == Some(Reversed(m));
        } else {
          assert Step(m2, es[2], Backward) == None;
        }
      } else {
        assert Step(m1, es[1], Backward) == None;
      }
    }
  }

  /** Membership in the three lists as sets. */
  lemma ListElements()
    ensures forall p :: p in Elements(UserList()) <==> p.action == View
    ensures forall p :: p in Elements(AdminList()) <==> p.action == View || p.model in AdminModels
    ensures forall p :: p in Elements(CustomerList()) <==> p.action == View || p.model !in AdminModels
  {
    forall p: Permission
      ensures p in Elements(UserList()) <==> p.action == View
      ensures p in Elements(AdminList()) <==> p.action == View || p.model in AdminModels
      ensures p in Elements(CustomerList()) <==> p.action == View || p.model !in AdminModels
    {
      InUserList(p);
      InAdminList(p);
      InCustomerList(p);
    }
  }

  /** The forward step only replaces the three groups' sets. */
  lemma ForwardedKeys(m: Groups)
    requires HasGroups(m)
    ensures Forwarded(m).Keys == m.Keys
    ensures forall g :: g in m && g != PiUser && g != PiAdmin && g != PiCustomer ==> Forwarded(m)[g] == m[g]
  {
  }

  /** What the forward step leaves in each of the three groups. */
  lemma {:induction false} ForwardedGroups(m: Groups)
    requires HasGroups(m)
    ensures forall p :: p in Forwarded(m)[PiUser] <==> p.action == View
    ensures forall p :: p in Forwarded(m)[PiAdmin] <==> p.action == View || p.model in AdminModels
    ensures forall p :: p in Forwarded(m)[PiCustomer] <==> p.action == View || p.model !in AdminModels
  {
    GroupNamesDistinct();
    var m' := Forwarded(m);
    assert m'[PiUser] == Elements(UserList());
    assert m'[PiAdmin] == Elements(AdminList());
    assert m'[PiCustomer] == Elements(CustomerList());
    ListElements();
  }

  /** Each of the three groups may view all nine models after the forward
      step. */
  lemma {:induction false} EveryGroupViewsEverything(m: Groups, t: TableName)
    requires HasGroups(m)
    ensures Perm(View, t) in Forwarded(m)[PiUser]
    ensures Perm(View, t) in Forwarded(m)[PiAdmin]
    ensures Perm(View, t) in Forwarded(m)[PiCustomer]
  {
    ForwardedGroups(m);
  }

  /** add_group_permissions_data on the groups 0007_create_groups made:
      pi_user ends up with exactly the view permissions, pi_admin with every
      permission of the six catalogue models and the view permission of the
      other three, pi_customer with the converse; no other group changes.
      Without all three groups the migration fails. */
  lemma {:induction false} ForwardMigration(m: Groups)
    ensures Run(m, PopulatePermissionsLists(), Forward).Some? <==> HasGroups(m)
    ensures HasGroups(m) ==>
              var m' := Run(m, PopulatePermissionsLists(), Forward).value;
              && m'.Keys == m.Keys
              && (forall g :: g in m && g != PiUser && g != PiAdmin && g != PiCustomer ==> m'[g] == m[g])
              && (forall p :: p in m'[PiUser] <==> p.action == View)
              && (forall p :: p in m'[PiAdmin] <==> p.action == View || p.model in AdminModels)
              && (forall p :: p in m'[PiCustomer] <==> p.action == View || p.model !in AdminModels)
  {
    ForwardRun(m);
    if HasGroups(m) {
      ForwardedKeys(m);
      ForwardedGroups(m);
    }
  }

  /** What the reverse step leaves in each of the three groups, and that
      it touches no other group. */
  lemma {:induction false} ReversedGroups(m: Groups)
    requires HasGroups(m)
    ensures Reversed(m).Keys == m.Keys
    ensures forall g :: g in m && g != PiUser && g != PiAdmin && g != PiCustomer ==> Reversed(m)[g] == m[g]
    ensures forall p :: p in Reversed(m)[PiUser] <==> p in m[PiUser] && p.action != View
    ensures forall p :: p in Reversed(m)[PiAdmin] <==> p in m[PiAdmin] && p.action != View && p.model !in AdminModels
    ensures forall p :: p in Reversed(m)[PiCustomer] <==> p in m[PiCustomer] && p.action != View && p.model in AdminModels
  {
    GroupNamesDistinct();
    var m' := Reversed(m);
    assert m'[PiUser] == m[PiUser] - Elements(UserList());
    assert m'[PiAdmin] == m[PiAdmin] - Elements(AdminList());
    assert m'[PiCustomer] == m[PiCustomer] - Elements(CustomerList());
    forall p: Permission
      ensures p in m'[PiUser] <==> p in m[PiUser] && p.action != View
      ensures p in m'[PiAdmin] <==> p in m[PiAdmin] && p.action != View && p.model !in AdminModels
      ensures p in m'[PiCustomer] <==> p in m[PiCustomer] && p.action != View && p.model in AdminModels
    {
      InUserList(p);
      InAdminList(p);
      InCustomerList(p);
    }
  }

  /** remove_group_permissions_data: each group loses exactly the
      permissions of its list and keeps any others; no other group
      changes. Without all three groups the migration fails. */
  lemma {:induction false} BackwardMigration(m: Groups)
    ensures Run(m, PopulatePermissionsLists(), Backward).Some? <==> HasGroups(m)
    ensures HasGroups(m) ==>
              var m' := Run(m, PopulatePermissionsLists(), Backward).value;
              && m'.Keys == m.Keys
              && (forall g :: g in m && g != PiUser && g != PiAdmin && g != PiCustomer ==> m'[g] == m[g])
              && (forall p :: p in m'[PiUser] <==> p in m[PiUser] && p.action != View)
              && (forall p :: p in m'[PiAdmin] <==> p in m[PiAdmin] && p.action != View && p.model !in AdminModels)
              && (forall p :: p in m'[PiCustomer] <==> p in m[PiCustomer] && p.action != View && p.model in AdminModels)
  {
    BackwardRun(m);
    if HasGroups(m) {
      ReversedGroups(m);
    }
  }

  /** Reversing right after applying leaves the three groups empty, so on
      the empty groups 0007_create_groups creates the reverse step restores
      the table exactly. */
  lemma {:induction false} BackwardUndoesForward(m: Groups)
    requires HasGroups(m)
    ensures var m' := Run(m, PopulatePermissionsLists(), Forward);
            && m'.Some?
            && Run(m'.value, PopulatePermissionsLists(), Backward) == Some(m[PiUser := {}][PiAdmin := {}][PiCustomer := {}])
    ensures m[PiUser] == {} && m[PiAdmin] == {} && m[PiCustomer] == {} ==>
              var m' := Run(m, PopulatePermissionsLists(), Forward);
              m'.Some? && Run(m'.value, PopulatePermissionsLists(), Backward) == Some(m)
  {
    ForwardRun(m);
    BackwardRun(Forwarded(m));
    ReversedForwarded(m);
    if m[PiUser] == {} && m[PiAdmin] == {} && m[PiCustomer] == {} {
      assert m[PiUser := {}][PiAdmin := {}][PiCustomer := {}] == m;
    }
  }

  /** Reversing the forward step empties the three groups and touches no
      other group. */
  lemma ReversedForwarded(m: Groups)
    requires HasGroups(m)
    ensures Reversed(Forwarded(m)) == m[PiUser := {}][PiAdmin := {}][PiCustomer := {}]
  {
    GroupNamesDistinct();
    var m' := Forwarded(m);
    assert m'[PiUser] - Elements(UserList()) == {};
    assert m'[PiAdmin] - Elements(AdminList()) == {};
    assert m'[PiCustomer] - Elements(CustomerList()) == {};
    var target := m[PiUser := {}][PiAdmin := {}][PiCustomer := {}];
    assert Reversed(m').Keys == target.Keys;
    assert forall g :: g in target ==> Reversed(m')[g] == target[g];
  }

  /** Applying the forward step a second time changes nothing. */
  lemma {:induction false} ForwardIdempotent(m: Groups)
    requires HasGroups(m)
    ensures var m' := Run(m, PopulatePermissionsLists(), Forward);
            m'.Some? && Run(m'.value, PopulatePermissionsLists(), Forward) == m'
  {
    ForwardRun(m);
    GroupNamesDistinct();
    var m' := Forwarded(m);
    ForwardRun(m');
    assert m'[PiUser] == Elements(UserList());
    assert m'[PiAdmin] == Elements(AdminList());
    assert m'[PiCustomer] == Elements(CustomerList());
    assert Forwarded(m') == m';
  }

  // ---------------------------------------------------------------------
  // The migration's two functions over a mutable group table

  /** auth.Group with its many-to-many permissions, by group name. */
  class GroupTable {
    var groups: Groups

    constructor (initial: Groups)
      ensures groups == initial
    {
      groups := initial;
    }

    /** add_group_permissions_data: each listed group's permissions are
        replaced by its list; when a group is missing the whole migration is
        rolled back. */
    method AddGroupPermissionsData() returns (ok: bool)
      modifies this
      ensures ok <==> HasGroups(old(groups))
      ensures ok ==> Some(groups) == Run(old(groups), PopulatePermissionsLists(), Forward)
      ensures !ok ==> groups == old(groups)
    {
      ForwardRun(groups);
      var entries := PopulatePermissionsLists();
      var saved := groups;
      var i := 0;
      while i < |entries|
        invariant 0 <= i <= |entries|
        invariant Run(saved, entries[..i], Forward) == Some(groups)
      {
        var e := entries[i];
        assert entries[..i + 1][..i] == entries[..i];
        if e.permissions.Some? {
          if e.name !in groups {
            RunFailsOnward(saved, entries, Forward, i + 1);
            groups := saved;
            return false;
          }
          groups := groups[e.name := Elements(e.permissions.value)];
        }
        i := i + 1;
      }
      assert entries[..i] == entries;
      return true;
    }

    /** The inner loop of remove_group_permissions_data: the permissions of
        list are removed from group name one at a time. */
    method RemovePermissions(name: string, list: seq<Permission>)
      requires name in groups
      modifies this
      ensures groups == old(groups)[name := old(groups)[name] - Elements(list)]
    {
      var prev := groups;
      var j := 0;
      while j < |list|
        invariant 0 <= j <= |list|
        invariant groups == prev[name := RemoveEach(prev[name], list[..j])]
      {
        assert list[..j + 1][..j] == list[..j];
        groups := groups[name := groups[name] - {list[j]}];
        j := j + 1;
      }
      assert list[..j] == list;
    }

    /** remove_group_permissions_data: each permission of each listed
        group's list is removed from it in turn; when a group is missing the
        whole migration is rolled back. */
    method RemoveGroupPermissionsData() returns (ok: bool)
      modifies this
      ensures ok <==> HasGroups(old(groups))
      ensures ok ==> Some(groups) == Run(old(groups), PopulatePermissionsLists(), Backward)
      ensures !ok ==> groups == old(groups)
    {
      BackwardRun(groups);
      var entries := PopulatePermissionsLists();
      var saved := groups;
      var i := 0;
      while i < |entries|
        invariant 0 <= i <= |entries|
        invariant Run(saved, entries[..i], Backward) == Some(groups)
      {
        var e := entries[i];
        assert entries[..i + 1][..i] == entries[..i];
        if e.permissions.Some? {
          if e.name !in groups {
            RunFailsOnward(saved, entries, Backward, i + 1);
            groups := saved;
            return false;
          }
          RemovePermissions(e.name, e.permissions.value);
        }
        i := i + 1;
      }
      assert entries[..i] == entries;
      return true;
    }
  }
}
