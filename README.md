# Shop catalogue core in Dafny

A model of the core of the `productinfo` Django application (project
`finalpro`). The application is a small shop catalogue with these tables:

- categories
- shipping and payment methods
- customers
- products
- shopping carts and their cart items
- orders and their order lines (`Order_Product`)

Its screens are generic list, detail, create, update and delete views, each
behind a login and a permission check. The model covers:

- **Schema** (`schema.dfy`): the nine tables of `models.py` as datatypes.
  - A table is a map from auto-incremented keys to rows.
  - The model-level field checks: required fields and `max_length`.
  - The foreign keys. All of them are `on_delete=PROTECT`.
  - The unique fields and the `UniqueConstraint`s.
  - `Check`, `Insert` and `Delete` as pure functions, with the invariant
    `Valid` that both of them preserve. `Valid` requires unique keys, no
    dangling foreign key and well-formed rows.
- **Store** (`store.dfy`): a class with one field per table. Its `Insert`
  and `Delete` methods update the store in place. Each is proved against
  the matching Schema function and keeps `Valid`.
- **Forms** (`forms.dfy`): `CustomerForm`'s `clean_*` methods.
  - Python's `str.strip()` over the characters for which `str.isspace()`
    holds.
  - Proved:
    - stripping is idempotent
    - the result has no surrounding whitespace
    - padding a value changes nothing after stripping
    - a padded resubmission cannot get round the customer uniqueness
      constraint
- **Views** (`views.dfy`):
  - The delete pages' GET guards. They refuse to confirm a delete while the
    row is referenced and list the referencing rows.
  - The cart-item and order-line subtotals.
  - The cart and order total loops, written as methods with loop invariants
    against a set-sum specification (`totals.dfy`).
  - The `permission_required` string of every view.
  - The `LoginRequiredMixin`/`PermissionRequiredMixin` decision.
- **Permissions** (`permissions.dfy`): data migration 0008.
  - It fills the permission sets of the groups `pi_user`, `pi_admin` and
    `pi_customer`.
  - Functions: the three lists and a fold over the groups.
  - A `GroupTable` class whose forward and backward methods run the
    migration's loops.
  - Proved:
    - the exact permissions each group ends up with
    - every group may view every table
    - running the migration twice gives the same groups
    - the backward migration undoes the forward one when the groups start
      empty
    - which group may open which view

Prices, which are `FloatField`s in the source, are integers here (an amount
in cents). Totals are exact sums.

## Model

| member | source | states |
|---|---|---|
| Schema.EmptyDbValid | finalpro/productinfo/models.py:6-245 | the empty store meets every unique constraint, has no dangling foreign key and every key is below its counter |
| Schema.EmptyTable | finalpro/productinfo/models.py:6-7 | a new table has no rows and hands out key 1 first, as an AutoField does |
| Schema.FirstMissing | finalpro/productinfo/models.py:59-60 | None exactly when every foreign key target exists; otherwise names a field whose target is missing |
| Schema.RefErrorNoneMeansResolved | finalpro/productinfo/models.py:59-60 | a row passes the foreign-key check iff every row it points to exists |
| Schema.FirstBadField | finalpro/productinfo/models.py:8-187 | None exactly when every listed CharField is within its max_length and, unless blank, non-empty; otherwise the name of one that is not |
| Schema.FieldError | finalpro/productinfo/models.py:8-187 | None exactly when every CharField the row's model declares holds an acceptable value; otherwise the name of a declared field that does not |
| Schema.UniqueError | finalpro/productinfo/models.py:17-245 | a uniqueness refusal always names the UniqueConstraint of the row's own model |
| Schema.UniqueErrorIffSameKey | finalpro/productinfo/models.py:17-178 | for the seven models whose constraint has columns of its own, the insert is refused iff a stored row of that model holds the same values in those columns |
| Schema.Check | finalpro/productinfo/models.py:8-245 | a create passes iff the field, foreign-key and unique checks all pass; a reported foreign-key error means the fields passed, and a reported duplicate means fields and foreign keys passed |
| Schema.TargetsListed | finalpro/productinfo/models.py:59-222 | the rows a row points to are exactly those named by its ForeignKey fields, table by table |
| Schema.ReferrersAreDependents | finalpro/productinfo/models.py:59-222 | a stored row whose foreign key names the target is among the target's related rows |
| Schema.DependentsRefer | finalpro/productinfo/models.py:59-222 | every related row of the target is stored and has a foreign key naming the target |
| Schema.DependentsAreReferrers | finalpro/productinfo/models.py:59-222 | a row is a dependent of the target iff one of its ForeignKey fields points at the target |
| Schema.AddRow | finalpro/productinfo/models.py:7 | saving a row stores it under the table's next key (that key now holds exactly the row), advances that table's counter by one and leaves every other counter as it was |
| Schema.AddRowContents | finalpro/productinfo/models.py:7 | saving adds exactly the new row under a fresh key; every other row and table is unchanged |
| Schema.Insert | finalpro/productinfo/models.py:8-245 | a create is accepted iff no field, foreign-key or unique check fails; then the row is stored, otherwise the first error is reported |
| Schema.UniqueAfterAppend | finalpro/productinfo/models.py:16-18 | appending a row whose key is not yet taken keeps the table's key unique |
| Schema.InsertPreservesValid | finalpro/productinfo/models.py:8-245 | an accepted create keeps every unique constraint, every foreign key resolved and every row well formed |
| Schema.AddKeepsKeys | finalpro/productinfo/models.py:8-245 | an insert the unique constraints allow keeps every unique constraint and every key below its counter |
| Schema.AddKeepsRowsWellFormed | finalpro/productinfo/models.py:59-222 | an insert whose fields and foreign keys check out keeps every stored row's foreign keys resolved |
| Schema.ReinsertRefused | finalpro/productinfo/models.py:8-178 | once a row is stored, any row with the same unique key (name, customer triple, cart customer, cart/product pair) is refused, as a duplicate when it is otherwise acceptable |
| Schema.CustomerBlocksOnlyItsTriple | finalpro/productinfo/models.py:83 | a stored customer makes another one a duplicate iff the two share username, email and disambiguator |
| Schema.OneCartPerCustomer | finalpro/productinfo/models.py:147 | under the unique constraint on customer_id a customer has at most one shopping cart |
| Schema.OneItemPerProductAndCart | finalpro/productinfo/models.py:178 | a cart holds at most one cart item per product |
| Schema.KeyConstraintsNeverReject | finalpro/productinfo/models.py:213-245 | the order and order-line constraints include the primary key and so never refuse a new row |
| Schema.SameProductOnTwoLines | finalpro/productinfo/models.py:245 | the same order line (order, product) can be stored twice: one order may list a product on several lines |
| Schema.CartItemResolves | finalpro/productinfo/models.py:154-155 | every stored cart item's cart and product exist |
| Schema.OrderProductResolves | finalpro/productinfo/models.py:221-222 | every stored order line's order and product exist |
| Schema.RemoveRowContents | finalpro/productinfo/models.py:59-60 | removing a row drops exactly that key and leaves everything else as it was |
| Schema.DeleteRefusedIffReferenced | finalpro/productinfo/models.py:59-222 | the contract of Schema.Delete, Model.delete() under PROTECT: NoSuchRow iff the target is missing; for a stored target, refused iff some stored row has a foreign key naming it, the refusal listing exactly those rows; otherwise exactly the target goes |
| Schema.RemoveKeepsKeys | finalpro/productinfo/models.py:8-245 | removing a row keeps every unique constraint and every key below its counter |
| Schema.DeletePreservesValid | finalpro/productinfo/models.py:59-60 | an allowed delete leaves no foreign key dangling and keeps the unique constraints |
| Store.Store.constructor | finalpro/productinfo/models.py:6-7 | a new store has nine empty tables and is valid |
| Store.Store.Insert | finalpro/productinfo/models.py:8-245 | a create updates the store exactly as Schema.Insert says, returns the new key and keeps the store valid |
| Store.Store.Save | finalpro/productinfo/models.py:6-7 | saving a row that passes every check changes only its own table, appending the row under that table's next key, and keeps the store valid |
| Store.Store.Remove | finalpro/productinfo/models.py:59-60 | removing a row that PROTECT lets go changes only its own table, dropping exactly that key, and keeps the store valid |
| Store.Store.Delete | finalpro/productinfo/models.py:59-60 | a delete updates the store exactly as Schema.Delete says and keeps it valid; a refused delete changes nothing |
| Forms.Strip | finalpro/productinfo/forms.py:11-12 | the result is the whitespace-free core of the input: a contiguous part of it with only whitespace around it and none at its own ends |
| Forms.StripOfPadded | finalpro/productinfo/forms.py:11-12 | a value without surrounding whitespace comes back unchanged from any padding |
| Forms.StripIdempotent | finalpro/productinfo/forms.py:11-12 | stripping twice is stripping once |
| Forms.StripEmptyIffAllSpace | finalpro/productinfo/forms.py:11-12 | a value strips to the empty string iff it is all whitespace |
| Forms.StripDecomposes | finalpro/productinfo/forms.py:11-12 | every value is its stripped form with whitespace before and after |
| Forms.StripIgnoresPadding | finalpro/productinfo/forms.py:11-15 | extra whitespace around a value does not change its stripped form |
| Forms.StripExample | finalpro/productinfo/forms.py:11-12 | "  Ann  " strips to "Ann" |
| Forms.CleanFirstName | finalpro/productinfo/forms.py:11-12 | the cleaned first name is the submitted one with its surrounding whitespace removed |
| Forms.CleanLastName | finalpro/productinfo/forms.py:14-15 | the cleaned last name is the submitted one with its surrounding whitespace removed |
| Forms.CleanUsername | finalpro/productinfo/forms.py:24-25 | the cleaned username is the submitted one with its surrounding whitespace removed |
| Forms.CleanPassword | finalpro/productinfo/forms.py:27-28 | the cleaned password is the submitted one with its surrounding whitespace removed |
| Forms.CleanDisambiguator | finalpro/productinfo/forms.py:17-22 | the empty disambiguator is kept and any other is stripped, which is the stripped input in both cases |
| Forms.CleanCustomer | finalpro/productinfo/forms.py:6-28 | cleaned_data strips first name, last name, disambiguator, username and password and passes email and both methods through |
| Forms.CleanCustomerIdempotent | finalpro/productinfo/forms.py:11-28 | cleaning an already cleaned customer changes nothing |
| Forms.SubmitCustomerForm | finalpro/productinfo/forms.py:6-9 | the form is valid iff the cleaned customer passes Schema.Check (fields, foreign keys, unique constraints), and then that cleaned customer is what is saved |
| Forms.PaddingDoesNotEvadeUniqueness | finalpro/productinfo/forms.py:17-25 | once a customer is saved, the same submission with whitespace around username and disambiguator is refused |
| Forms.DisambiguatorMayBeBlank | finalpro/productinfo/models.py:55 | a customer with the empty default disambiguator passes the field checks, while an empty username does not |
| Permissions.UserList | finalpro/productinfo/migrations/0008_create_group_permissions.py:73-81 | the chain of the nine view querysets: nine entries, each a view permission |
| Permissions.AdminList | finalpro/productinfo/migrations/0008_create_group_permissions.py:83-91 | 6 x 4 + 3 = 27 entries, each a view permission or one on a catalogue model |
| Permissions.CustomerList | finalpro/productinfo/migrations/0008_create_group_permissions.py:93-101 | 3 x 4 + 6 = 18 entries, each a view permission or one on cart items, orders or order lines |
| Permissions.InUserList | finalpro/productinfo/migrations/0008_create_group_permissions.py:73-81 | a permission is in the pi_user list iff it is the view permission of one of the nine models |
| Permissions.InAdminList | finalpro/productinfo/migrations/0008_create_group_permissions.py:83-91 | pi_admin has all four permissions on the six catalogue models and only view on cart items, orders and order lines |
| Permissions.InCustomerList | finalpro/productinfo/migrations/0008_create_group_permissions.py:93-101 | pi_customer has all four permissions on cart items, orders and order lines and only view on the rest |
| Permissions.PopulatePermissionsLists | finalpro/productinfo/migrations/0008_create_group_permissions.py:103-116 | three entries, pi_user, pi_admin and pi_customer in that order, each carrying its list |
| Permissions.RemoveEach | finalpro/productinfo/migrations/0008_create_group_permissions.py:143-145 | removing the listed permissions one at a time leaves the set minus the listed ones |
| Permissions.Step | finalpro/productinfo/migrations/0008_create_group_permissions.py:124-129 | a None list is skipped; a missing group aborts; otherwise the named group's set becomes the list's elements (forwards) or loses them (backwards), and no other group changes |
| Permissions.RunFailsOnward | finalpro/productinfo/migrations/0008_create_group_permissions.py:126-128 | once a lookup fails, the whole run fails |
| Permissions.RunSucceedsIff | finalpro/productinfo/migrations/0008_create_group_permissions.py:123-145 | the `for group in ...` loop of either direction gets through iff every entry with a permissions list names an existing group |
| Permissions.RunKeepsGroups | finalpro/productinfo/migrations/0008_create_group_permissions.py:123-130 | a successful run neither adds nor removes groups |
| Permissions.SkippedEntry | finalpro/productinfo/migrations/0008_create_group_permissions.py:125 | an entry without a list changes nothing |
| Permissions.RunThree | finalpro/productinfo/migrations/0008_create_group_permissions.py:123-130 | a run over three entries is three steps in order |
| Permissions.GroupNamesDistinct | finalpro/productinfo/migrations/0008_create_group_permissions.py:105-113 | the three group names are distinct |
| Permissions.ForwardRun | finalpro/productinfo/migrations/0008_create_group_permissions.py:120-130 | the forward run succeeds iff all three groups exist and then gives each group exactly its list |
| Permissions.BackwardRun | finalpro/productinfo/migrations/0008_create_group_permissions.py:133-145 | the backward run succeeds iff all three groups exist and then removes each group's list from it |
| Permissions.ListElements | finalpro/productinfo/migrations/0008_create_group_permissions.py:73-101 | membership in each list's set is membership in its characterization |
| Permissions.ForwardedKeys | finalpro/productinfo/migrations/0008_create_group_permissions.py:123-130 | the forward migration keeps the set of groups |
| Permissions.ForwardedGroups | finalpro/productinfo/migrations/0008_create_group_permissions.py:73-101 | after the forward migration each group holds exactly the permissions its characterization names |
| Permissions.EveryGroupViewsEverything | finalpro/productinfo/migrations/0008_create_group_permissions.py:73-101 | after the forward migration all three groups may view every model |
| Permissions.ForwardMigration | finalpro/productinfo/migrations/0008_create_group_permissions.py:120-130 | succeeds iff the groups exist; the three groups get exactly their lists, other groups are untouched |
| Permissions.ReversedGroups | finalpro/productinfo/migrations/0008_create_group_permissions.py:133-145 | the reverse step keeps the groups, leaves other groups alone and removes exactly each list from its group |
| Permissions.BackwardMigration | finalpro/productinfo/migrations/0008_create_group_permissions.py:133-145 | succeeds iff the groups exist; removes exactly the listed permissions from the three groups and nothing else |
| Permissions.BackwardUndoesForward | finalpro/productinfo/migrations/0008_create_group_permissions.py:148-158 | forward then backward always succeeds on the three groups, leaves their sets empty and no other group changed; from groups with empty permission sets it gives back the starting groups |
| Permissions.ForwardIdempotent | finalpro/productinfo/migrations/0008_create_group_permissions.py:124-130 | applying the forward migration twice equals applying it once |
| Permissions.GroupTable.constructor | finalpro/productinfo/migrations/0008_create_group_permissions.py:123 | the group table starts with the given groups |
| Permissions.GroupTable.AddGroupPermissionsData | finalpro/productinfo/migrations/0008_create_group_permissions.py:120-130 | the loop succeeds iff the three groups exist, ending in the forward run's groups; on failure the groups are restored |
| Permissions.GroupTable.RemovePermissions | finalpro/productinfo/migrations/0008_create_group_permissions.py:142-145 | the inner loop removes exactly the listed permissions from the one group |
| Permissions.GroupTable.RemoveGroupPermissionsData | finalpro/productinfo/migrations/0008_create_group_permissions.py:133-145 | the loop succeeds iff the three groups exist, ending in the backward run's groups; on failure the groups are restored |
| Totals.SetSumRemove | finalpro/productinfo/views.py:158-160 | a total over a set of lines can take any line out first, so it does not depend on visiting order |
| Totals.SetSumCongruent | finalpro/productinfo/views.py:264-266 | a total depends only on the amounts of the lines summed |
| Totals.CartTotalAfterAddingItem | finalpro/productinfo/views.py:158-160 | adding a cart item raises its cart's total by quantity times the product's price and leaves other carts' totals unchanged |
| Totals.CartTotalAfterRemovingItem | finalpro/productinfo/views.py:158-160 | deleting a cart item lowers its cart's total by that line's amount |
| Totals.OrderTotalIgnoresLinePrice | finalpro/productinfo/views.py:264-266 | the order total uses the product's current price: changing an order line's own price does not change any order total |
| Totals.SingleLineOrderTotal | finalpro/productinfo/views.py:264-266 | an order with one line totals that line's quantity times its product's price |
| Views.CustomerDeleteGet | finalpro/productinfo/views.py:61-80 | 404 iff the customer is missing; refused iff it has orders or carts, listing exactly its dependents; confirmation iff the delete would be allowed |
| Views.ProductDeleteGet | finalpro/productinfo/views.py:118-138 | 404 iff missing; refused iff the product is on a cart item or an order line, listing them; confirmation iff the delete would be allowed |
| Views.ShoppingCartDeleteGet | finalpro/productinfo/views.py:188-204 | 404 iff missing; refused iff the cart has items, listing them; confirmation iff the delete would be allowed |
| Views.OrderDeleteGet | finalpro/productinfo/views.py:294-310 | 404 iff missing; refused iff the order has lines, listing them; confirmation iff the delete would be allowed |
| Views.UnguardedDeleteGet | finalpro/productinfo/views.py:241-244 | cart items and order lines are never referenced: the page is 404 iff missing and confirmation otherwise |
| Views.DeleteGetAgreesWithProtect | finalpro/productinfo/views.py:61-310 | for every table with a delete view, the page refuses exactly when PROTECT would refuse the delete |
| Views.DeletePageGet | finalpro/productinfo/views.py:56-80 | the delete page on the store agrees with the store's delete outcome and changes nothing |
| Views.CartItemSubtotal | finalpro/productinfo/views.py:221 | None iff the cart item is missing; otherwise quantity times its product's current price |
| Views.OrderProductSubtotal | finalpro/productinfo/views.py:327 | None iff the order line is missing; otherwise quantity times its product's current price |
| Views.ShoppingCartDetailTotal | finalpro/productinfo/views.py:150-166 | None iff the cart is missing; otherwise the loop's total equals the sum over the cart's items, 0 for an empty cart |
| Views.OrderDetailTotal | finalpro/productinfo/views.py:257-272 | None iff the order is missing; otherwise the loop's total equals the sum over the order's lines, 0 for an order without lines |
| Views.PermissionRequired | finalpro/productinfo/views.py:20-350 | every view requires "productinfo." followed by the codename of its action on its model |
| Views.CustomerPermissionRequired | finalpro/productinfo/views.py:22-59 | the five Customer views' permission strings |
| Views.ProductPermissionRequired | finalpro/productinfo/views.py:85-116 | the five Product views' permission strings |
| Views.ShoppingCartPermissionRequired | finalpro/productinfo/views.py:143-186 | the five Shopping_Cart views' permission strings |
| Views.CartItemPermissionRequired | finalpro/productinfo/views.py:209-244 | the five Cart_Item views' permission strings |
| Views.OrderPermissionRequired | finalpro/productinfo/views.py:249-292 | the five Order views' permission strings |
| Views.OrderProductPermissionRequired | finalpro/productinfo/views.py:315-350 | the five Order_Product views' permission strings |
| Views.Authorize | finalpro/productinfo/views.py:20-22 | an anonymous user is sent to login; a logged-in user is let in iff holding the view's permission, otherwise forbidden |
| Views.GroupAccess | finalpro/productinfo/views.py:20-59 | after migration 0008, pi_user may open only list and detail views; pi_admin also the edit views of customers, products and carts; pi_customer those of cart items, orders and order lines |

## Left out

- Prices are `FloatField`s in the source. Here they are integers (cents), so totals have no floating-point rounding.
- `order_date` (a `DateTimeField`) is an integer. No date is computed, so the clock is not modelled.
- `Meta.ordering` and the order of querysets are not modelled. Related rows are sets of keys. The totals are shown not to depend on the order in which lines are visited.
- Schema.Insert: reports only the first error found (field, then foreign key, then uniqueness). Django collects every error of a form.
- Schema.Insert: checks text values as given, without the stripping a ModelForm `CharField` applies before its required, `max_length` and unique checks. So a padded or whitespace-only name, receiver or address is accepted here where a form would refuse it. Only `Forms.SubmitCustomerForm` strips, and only the fields of `CustomerForm`'s `clean_*` methods. A form's `CharField` also refuses any text value that contains the character U+0000, which these checks accept.
- Forms.SubmitCustomerForm: does not model the null-character validator that each form `CharField` carries. `CustomerForm` (`fields = '__all__'`) refuses a submission whose text fields contain U+0000, and the model accepts it when every other check passes.
- Errors are named by the field or constraint, not by Django's message text.
- Forms.CleanCustomer: models only the form's own `clean_*` methods. Django's `CharField` also strips every text field in `to_python`, `email` included, before those methods run. The model passes `email` through unchanged.
- The update views (`UpdateView`) are not modelled. Saving an edit runs the same cleaning and checks as a create: `CustomerUpdate` uses `CustomerForm`, so its `clean_*` stripping applies. The edited row itself is excluded from the uniqueness test.
- The POST half of the delete views is not modelled as a page. The deletion itself is `Store.Store.Delete`. In the source, a POST on a still-referenced row raises `ProtectedError`.
- The model does not cover which permissions Django grants to a superuser, to an inactive user, or directly to a user outside any group. `Views.Authorize` takes the logged-in user's permission set as a parameter.
- Templates, URL routing, `get_absolute_url`, redirects, and the context entries other than the totals are not modelled.
- Transactions and concurrent requests are not modelled. Each operation is atomic.
- Store.Store.Save and Store.Store.Remove write all nine table fields in one assignment. The eight untouched tables get back the value they already held, so the resulting state is the same as when only one table is written.
- Each migration's all-or-nothing transaction is modelled only by restoring the groups when a group is missing.
- Permissions.ForwardMigration: assumes all 36 model permissions exist while the migration runs. The assumption is made in Permissions.ModelPermissions and Permissions.ViewPermission, which return the permissions themselves and not a possibly empty queryset, and reaches every member built on Permissions.PopulatePermissionsLists: Permissions.ForwardedGroups, Permissions.EveryGroupViewsEverything, Permissions.ForwardIdempotent and Views.GroupAccess. On a first `migrate`, Django creates the permissions only afterwards, in `post_migrate`. Every `filter(...)` then returns nothing, and the three groups end the migration with empty permission sets.
- Migration 0007, which creates the three groups, is not part of this model. The starting groups are a parameter.
- `views.py` (line 8) imports `ProductForm`, `ShoppingCartForm`, `CartItemForm`, `OrderForm` and `OrderProductForm`, but `forms.py` defines only `CustomerForm`, so `views.py` as written would fail at import. Those forms are not part of this model; their create views are modelled through `Schema.Insert` on the model fields.
- Database integer ranges are not modelled: keys are unbounded `nat`s, and quantities, stock and prices are unbounded `int`s (negative values included, as an `IntegerField` or `FloatField` without validators allows).
- Stock is never decremented by the source and is not constrained by the model.
- The stored `total_price` fields of carts and orders are plain values. The source never updates them from the computed totals.
