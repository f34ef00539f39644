# CRM back office: a Dafny model

This project models the core of a small Django customer-relationship
back office. The office keeps five tables:

- services;
- advertising campaigns, each for one service;
- potential clients, each from one campaign;
- contracts, each for one service;
- active clients, each of which converts one potential client under one contract.

Every relation cascades on delete. An active client's two links are
one-to-one.

Each screen is a class-based view. It first requires a login. Every screen
but the statistics page then runs one of two permission tests:

- membership of one of the view's named groups (Marketer, Operator, Manager);
- the superuser flag.

The statistics page shows both client counts and the ratio of total
contract income to total campaign expenses, rounded to hundredths.

The modules follow the program's structure:

- `Wrappers`: `Option` and `Result`.
- `Collections`: extensionality steps for sets and maps.
- `Models`: the five records, their field bounds and the text each record shows as (`__str__`).
- `Database`: the five tables as one value, and what the database promises:
  - referential integrity and one-to-one uniqueness;
  - the constraints checked on a write;
  - the cascade a delete follows.
- `Store`: the shared store as a class. `Insert`, `Save` and `Delete` change its five map fields in place; only `Insert` advances one of its five key sequences.
- `Permissions`: the two permission tests (`test_func`), and the requirement every view declares.
- `Statistics`: the SUM aggregates, Python's half-even rounding of a `Decimal`, and the income/expenses ratio with its two failure modes.
- `Views`: the answer to a request, in this order:
  - login;
  - the permission test;
  - the object lookup (404);
  - the form;
  - the write.

  `Respond` and `Apply` specify the answer and the write. `HandleRequest` carries them out on a `Store`.

Money is integer cents. A `DecimalField` with `max_digits = m` and two
decimal places holds fewer than 10^m hundredths in absolute value. The code
puts no sign constraint on money fields. `validity_period` is a
`PositiveIntegerField`, so it admits 0; the database itself also refuses a negative one, through a CHECK constraint on the table. The model follows the code on both
points.

Creating an active client follows the code's order of checks:

1. The submitted form holds only the contract. Validating it checks that
   the contract exists and is not yet linked (the one-to-one check on form
   fields).
2. The potential client is then looked up by the key in the URL. A missing
   one ends in `DoesNotExist`.
3. Saving a second active client for the same potential client ends in the
   database's `IntegrityError`.

All three outcomes leave the store unchanged.

## Model

| member | source | states |
|---|---|---|
| Permissions.AnyGroupMatches | crm/views.py:35-36 | true exactly when some name of the view's list is one of the user's groups |
| Permissions.GroupTest | crm/views.py:30-36 | an empty list is a configuration error and only it is; otherwise the test allows exactly when a listed name is among the user's groups |
| Permissions.GroupTestIgnoresSuperuser | crm/views.py:32-36 | the group test gives the same answer whatever the superuser flag |
| Permissions.GroupTestMonotone | crm/views.py:35-36 | adding groups to a user never revokes access a group test granted |
| Permissions.SuperUserTest | crm/views.py:42-43 | the superuser test never raises the configuration error and allows exactly superusers |
| Permissions.Check | crm/views.py:27-43 | the test a requirement runs is a configuration error exactly for a group requirement with no groups |
| Permissions.Required | crm/views.py:47-298 | the table of view requirements: no view declares an empty group list, and only the statistics page asks for no more than a login |
| Permissions.SuperUserTestIff | crm/views.py:42-43 | the superuser test allows exactly superusers, whatever their groups |
| Permissions.NoViewMisconfigured | crm/views.py:47-298 | no view's requirement raises the configuration error |
| Permissions.DeleteViewsNeedSuperuser | crm/views.py:202-235 | every delete view requires, and is allowed exactly for, a superuser |
| Permissions.ActiveClientViewsNeedSuperuser | crm/views.py:152-292 | active-client list, detail and update require, and are allowed exactly for, a superuser |
| Permissions.MarketerViews | crm/views.py:47-259 | service and campaign create, list, detail and update require the Marketer group and allow exactly its members |
| Permissions.OperatorViews | crm/views.py:69-271 | potential-client create, detail and update require the Operator group and allow exactly its members |
| Permissions.PotentialClientListView | crm/views.py:126-130 | the potential-client list allows exactly members of Operator or Manager |
| Permissions.ManagerViews | crm/views.py:80-283 | contract create, list, detail and update require the Manager group and allow exactly its members |
| Permissions.ActiveClientCreateView | crm/views.py:91-96 | active-client create requires the Manager group and allows exactly its members |
| Permissions.StatisticsViewLoginOnly | crm/views.py:295-298 | the statistics page runs no permission test and allows every logged-in user |
| Models.FieldsOk | crm/models.py:7-79 | models the field bounds: names, full names and promotion channels at most 100 characters, phones at most 11, emails at most 254, cost under 10^100 hundredths, budget and amount under 10^10 hundredths, validity period at least 0; `PutKeepsClean` and `DeleteKeepsClean` show every write keeps them |
| Models.Str | crm/models.py:15-86 | models `__str__`; `StrWithinBound` bounds every record's text by 100 characters and states that an active client shows its potential client's full name |
| Database.Admissible | crm/models.py:23-79 | models the constraints the database checks on a write: the foreign keys resolve, a contract's validity period passes the table's CHECK (at least 0), and a new or changed active client takes no potential client or contract another one holds; `LinkAdmittedIffUnique` and `PutKeepsValid` are its contract |
| Database.Put | crm/models.py:4-86 | models saving a row under a key; `KeysOfPut` and `PutKeepsValid` state its effect |
| Database.Collect | crm/models.py:23-79 | models the CASCADE collection from parent to children; the cascade lemmas below state what it collects |
| Database.Delete | crm/models.py:23-79 | models a delete with its cascade; `DeleteKeepsValid` and `DeleteRemovesOnlyDependents` show it removes exactly the target and what depends on it |
| Database.PutKeepsValid | crm/models.py:23-79 | a write the database admits (a fresh key, or a row's own key) keeps every foreign key resolved, the one-to-one links unique and every validity period non-negative |
| Database.PutKeepsClean | crm/models.py:7-79 | a write that also meets the field bounds keeps every row within its field bounds |
| Database.LinkAdmittedIffUnique | crm/models.py:76-79 | with both targets present, the database admits an active client exactly when no two active clients then share a potential client or a contract |
| Database.PutKeepsValidUnique | crm/models.py:76-79 | writing an active client whose two targets are free keeps the links unique |
| Database.DeleteKeepsValid | crm/models.py:23-79 | a delete keeps only unchanged rows, removes its target and leaves no dangling foreign key |
| Database.DeleteRemovesOnlyDependents | crm/models.py:23-79 | a delete removes nothing it need not: every consistent part of the database without the target survives it |
| Database.DeleteServiceCascade | crm/models.py:23-59 | deleting a service removes exactly it, its campaigns and contracts, their potential clients and the linked active clients |
| Database.DeleteCampaignCascade | crm/models.py:41-78 | deleting a campaign removes exactly it, its potential clients and their active clients, and no service or contract |
| Database.DeletePotentialClientCascade | crm/models.py:76-78 | deleting a potential client removes it and the at most one active client linked to it, nothing else |
| Database.DeleteContractCascade | crm/models.py:79 | deleting a contract removes it and the at most one active client linked to it, nothing else |
| Database.LinkedToAtMostOne | crm/models.py:76-79 | with unique links at most one active client points to a given potential client or contract |
| Database.DeleteActiveClientAlone | crm/models.py:73-86 | deleting an active client removes that row only |
| Database.DeleteKeepsClean | crm/models.py:7-79 | a delete keeps the database valid and within its field bounds |
| Database.StrWithinBound | crm/models.py:15-86 | in a clean database every record's text has at most 100 characters, and an active client shows as its potential client's full name |
| Store.Store.Insert | crm/views.py:47-104 | a new row gets a key its table does not use and is written, exactly when the database admits it; otherwise nothing changes |
| Store.Store.Save | crm/views.py:238-292 | an existing row is rewritten under its key exactly when the database admits it; otherwise nothing changes |
| Store.Store.Delete | crm/views.py:202-235 | the store becomes the cascade delete of its old state and stays valid |
| Statistics.TotalRemove | crm/views.py:305-306 | a sum does not depend on the order of the rows: any row can be taken out first |
| Statistics.TotalAdd | crm/views.py:305-306 | adding a row adds its value to the sum |
| Statistics.IncomeWithContract | crm/views.py:305 | a new contract adds its amount to the total income |
| Statistics.IncomeWithoutContract | crm/views.py:305 | removing a contract takes its amount off the total income |
| Statistics.ExpensesWithCampaign | crm/views.py:306 | a new campaign adds its budget to the total expenses |
| Statistics.ExpensesWithoutCampaign | crm/views.py:306 | removing a campaign takes its budget off the total expenses |
| Statistics.SumColumn | crm/views.py:305-306 | computing the aggregate row by row gives the sum, or nothing for an empty table |
| Statistics.RoundHalfEvenPositive | crm/views.py:308 | the result is n/d rounded to the nearest integer, ties to even |
| Statistics.RoundHalfEven | crm/views.py:308 | the result is n/d rounded to the nearest integer, ties to even, for either sign of divisor |
| Statistics.HalfEvenRoundingIsPositive | crm/views.py:308 | for a positive divisor every half-even rounding is the one computed |
| Statistics.HalfEvenRoundingUnique | crm/views.py:308 | n/d has only one half-even rounding |
| Statistics.RoundExact | crm/views.py:308 | an exact quotient is left as it is |
| Statistics.IncomeExpensesRatio | crm/views.py:305-308 | a missing income sum, or a missing expense sum after positive income, is a type error; a zero expense sum after positive income is a division by zero; non-positive income gives 0; otherwise the ratio is 100·income/expenses rounded half-even |
| Statistics.BreakEvenRatio | crm/views.py:308 | equal positive totals give exactly 1.00 |
| Statistics.StatisticsOf | crm/views.py:300-314 | in terms of the column totals: no contracts, or positive income and no campaigns, is a type error; positive income over a zero budget total is a division by zero; otherwise the page shows both table sizes and a ratio of 0 for non-positive income or the half-even rounding of 100·income/expenses |
| Statistics.NoContractsIsTypeError | crm/views.py:305-308 | with no contracts the page raises the type error |
| Views.ActiveClientIds | crm/views.py:132-140 | a potential client's key appears exactly when it is listed and some active client is linked to it |
| Views.ActiveClientIdsAreTaken | crm/views.py:132-140 | in a valid database a potential client appears exactly when an active client is linked to it |
| Views.Serve | crm/views.py:47-314 | models what each view does once login and permission have passed: the object lookup (404), the form, the conversion's lookup and save errors, the list context and the statistics; the lemmas below state its outcomes |
| Views.Respond | crm/views.py:27-314 | models the full answer: login first, then the view's permission test, then `Serve`; `LoginRequired`, `ForbiddenIffDenied` and `ServedOnlyWhenAllowed` state the gates |
| Views.Apply | crm/views.py:47-292 | models the write a successful create, update or delete makes; `OkWriteKeepsClean` states that it keeps the database consistent |
| Views.HandleRequest | crm/views.py:47-314 | the answer is the one `Respond` specifies, the store changes only on Ok and then as `Apply` says, a create returns a fresh key, validity is kept, and a store within its field bounds stays within them |
| Views.LoginRequired | crm/views.py:47-298 | anonymous visitors, and only they, are redirected to login before any permission test |
| Views.ForbiddenIffDenied | crm/views.py:27-43 | a logged-in user is refused exactly when the view's permission test denies |
| Views.NeverMisconfigured | crm/views.py:30-34 | no request ends in the configuration error |
| Views.ServedOnlyWhenAllowed | crm/views.py:27-43 | anything other than a redirect or refusal went to a logged-in user whose test allowed the view |
| Views.OnlySuperusersDelete | crm/views.py:202-235 | a delete succeeds only for a logged-in superuser |
| Views.OkWriteKeepsClean | crm/models.py:7-79 | every successful create, update or delete keeps the database valid and within its field bounds |
| Views.ConversionLinksPathClient | crm/views.py:101-104 | a successful conversion links the potential client named in the path to the contract of the form, and that client then shows as active |
| Views.ConversionOutcomes | crm/views.py:91-104 | for a manager: a missing or linked contract makes the form invalid, a missing potential client ends in DoesNotExist, an already converted one in IntegrityError, and the conversion succeeds exactly when the database admits the link |
| Views.ActiveClientUpdateKeepsLinksUnique | crm/views.py:286-292 | for an existing active client and a new potential client and contract that both exist, a superuser's update succeeds exactly when the links stay unique, and is otherwise an invalid form |
| Views.StatisticsPageFigures | crm/views.py:300-314 | a logged-in user sees both table sizes and the ratio of the column sums, or the error raised computing the ratio |
| Views.ContractCreationAddsIncome | crm/views.py:80-89 | a successful contract creation raises the statistics page's total income by the contract's amount |
| Views.ContractDeletionRemovesIncome | crm/views.py:223-228 | a successful contract deletion lowers the total income by exactly that contract's amount |
| Views.ReadsChangeNothing | crm/views.py:108-200 | list, detail and statistics requests write nothing |

## Left out

- Showing a create form, an update form or a delete confirmation page (a GET) is not a separate request. None of them writes anything. The update and delete pages first look their row up and give a 404 when it is missing; the create page does no lookup.
- Models.FieldsOk: no upper bound on `validity_period`. The ceiling of a positive integer field is the database backend's integer range, and the backend is not part of this model.
- Email and date format validation, required fields and the uploaded contract document: a request carries a record whose fields are already parsed. `document` and `conclusion_date` are opaque strings.
- Statistics.IncomeExpensesRatio: rounds the exact quotient once. `Decimal` division first rounds to 28 significant digits, which can differ on a tie beyond the 28th digit. When the rounded ratio needs more than 28 digits, `Decimal` raises `InvalidOperation`; the model returns the ratio instead.
- Statistics.Total: a ghost function, because it picks rows in no fixed order. `Statistics.SumColumn` computes the same sum and is what `HandleRequest` runs.
- Views.ActiveClientIds: a set, not the list `values_list` returns. Under the one-to-one constraint no id repeats, so only the order is lost.
- List pages return no rows in the model. Their ordering, pagination and templates are not modelled, and the one extra list context is `active_clients_ids`.
- URL routing, `success_url` redirects, the login page, templates, caching and the admin site are framework configuration, and are not modelled.
- Concurrent requests and transactions are not modelled. `HandleRequest` runs one request at a time against the store.
- Database.StrWithinBound: bounds each record's text by 100 characters in a clean database and states that an active client shows its potential client's full name; for the other records it does not restate which field is shown, which `Models.Str` itself returns. `__str__` of an active client fetches the linked row through the ORM; the model passes that row's full name in instead.
- The user's groups and flags come from the authentication framework and are parameters. Group names are compared as exact strings.
