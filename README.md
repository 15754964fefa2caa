# Click Celulares back office — a Dafny model

Click Celulares is a phone shop's back office, written as a React single-page
application. It keeps in-memory lists of sales, service orders, employees,
products and customers, and it has a mock login. This project models the
record logic of its screens and proves properties of it:

- **Sales screen**: the sale cart and its total, recording or editing a sale, and re-opening a sale.
- **Employees screen**: the roster, the status toggle, and the password-gated deletion of administrators.
- **Service orders, inventory and customers screens**: their searches and their add, edit and delete handlers.
- **Inventory stock levels**: the critical / low / in-stock classification.
- **Dashboard**: its aggregate figures.
- **Authentication and routing**: the mock authentication context and the route guard.
- **Data modules**: the record types, enums, translation and colour maps, and seed data.

Money is kept in integer centavos, so R$ 23.669,90 is `2366990`.

The project has one Dafny module per source file, plus `Common`. `Common`
holds the pieces the screens share:

- `Option`.
- JavaScript's `toLowerCase`, `includes`, `filter`, `find` and `slice(0, n)`.
- The `^\S+@\S+$` email rule.
- The `<prefix>-<year>-<nnn>` record numbering.

Data modules and pure code become datatypes, functions and lemmas.

A screen whose handlers reassign React state becomes a `class`. Its fields are
the state variables, and its methods are the handlers. Each method's
`ensures` ties the new state to the pure functions that the lemmas are
about.

The sales and service-orders screens keep an invariant, `Valid()`:

- Every record id is `<prefix>-<year>-<nnn>` with a number within the list's length.
- Ids are distinct.
- On the sales screen: the cart has one line per product, each with at least one unit, and every sale is internally consistent.

New ids are proved fresh under that invariant.

Clock readings (the year, ISO timestamps, today's date) and generated ids
(`C-<Date.now()>`, `E-<Date.now()>`, `P-<Date.now()>`) are method parameters.
Answers to `confirm()` dialogs are boolean parameters.

A form submission is modelled as the handler guarded by the form's validation
rules. The form library calls the handler only for a valid form. Before it
runs, the browser checks every `<input type="email">`: none of the forms sets
`noValidate`, so a non-empty email that is not a valid e-mail address in the
sense of the HTML Living Standard (section 4.10.5.1.5) stops the submission.
The model applies both checks.

The dashboard's count of open service orders uses the open-status list at
`Dashboard.tsx:27-29`. For the seed orders it gives three: one in progress,
one diagnosing and one awaiting approval (`Dashboard.SeedOpenOrders`).

## Model

| member | source | states |
|---|---|---|
| Common.Lower | src/pages/Sales.tsx:32 | `toLowerCase`: same length, each character folded; upper-case ASCII and Latin-1 letters map to lower case, nothing else changes |
| Common.Includes | src/pages/Sales.tsx:32 | `includes`: true exactly when the needle occurs at some position of the haystack |
| Common.EmailPatternSplits | src/pages/Customers.tsx:242 | the email rule holds iff the text has no whitespace and splits as `local@domain` with both parts non-empty |
| Common.EmailPatternExamples | src/pages/Customers.tsx:242 | the rule accepts `admin@clickcelulares.com` and `a@b@c`, rejects a missing local part, a missing domain, an inner space and a trailing `@` |
| Common.ValidEmailMatchesPattern | src/pages/Customers.tsx:240-242 | every address the `type="email"` field accepts also matches `^\S+@\S+$`, so the browser's rule is the stricter one |
| Common.EmailFieldRule | src/pages/Customers.tsx:240-242 | a required field with the pattern rule behind `type="email"` accepts exactly the valid e-mail addresses of HTML |
| Common.DomainStart | src/pages/Customers.tsx:240 | the domain of an address the browser accepts starts with a letter or a digit |
| Common.AtNotInDomain | src/pages/Customers.tsx:240 | a domain that holds an `@` is refused |
| Common.ShopEmailValid | src/pages/Customers.tsx:240 | the browser accepts `admin@clickcelulares.com` |
| Common.DotlessDomainValid | src/pages/Customers.tsx:240 | the browser accepts a domain without a dot, `a@b` |
| Common.SecondAtRefused | src/pages/Customers.tsx:240 | the browser refuses `a@b@c`, which the pattern alone accepts |
| Common.EmptyLabelRefused | src/pages/Customers.tsx:240 | the browser refuses two dots in a row in the domain |
| Common.HyphenLabelRefused | src/pages/Customers.tsx:240 | the browser refuses a domain label that starts with a hyphen |
| Common.EmptyLocalRefused | src/pages/Customers.tsx:240 | the browser refuses an address with nothing before the `@` |
| Common.Find | src/contexts/AuthContext.tsx:48 | `find`: none iff no element satisfies the predicate; otherwise the first element that does |
| Common.Pad3Digits | src/pages/ServiceOrders.tsx:42 | `padStart(3, '0')` yields only digits, at least three of them and exactly three below 1000, and reads back as the number it pads |
| Common.FreshRecordId | src/pages/Sales.tsx:138 | under the numbering discipline, `<prefix>-<year>-pad3(n+1)` is not among the n ids and prepending it keeps the discipline, whatever the year |
| Common.RecordIdInjective | src/pages/ServiceOrders.tsx:42 | two record ids with the same prefix are equal only for the same year and number |
| EmployeeData.SeedEmailsDistinct | src/data/employees.ts:12-63 | the seed roster's emails are pairwise distinct, so the login lookup is unambiguous |
| EmployeeData.SeedIdsDistinct | src/data/employees.ts:12-63 | the seed roster's ids are pairwise distinct |
| EmployeeData.SeedSingleAdmin | src/data/employees.ts:17 | exactly one seed employee, id `1`, has role `admin` |
| EmployeeData.SeedStatuses | src/data/employees.ts:61 | the seed roster has exactly one inactive employee |
| SalesData.PaymentMethodLabel | src/data/sales.ts:153-158 | the translation is defined, and non-empty, for each of the four payment methods |
| SalesData.PaymentMethodLabelInjective | src/data/sales.ts:153-158 | different payment methods have different labels |
| SalesData.SeedSalesConsistent | src/data/sales.ts:22-151 | in every seed sale each subtotal is unit price times quantity and the total is the sum of the subtotals |
| SalesData.SeedSaleIdsNumbered | src/data/sales.ts:22-151 | the seed ids are `V-2023-001` … `V-2023-005`: distinct and within the numbering new sales continue |
| ServiceOrderData.StatusColor | src/data/serviceOrders.ts:117-125 | completed and delivered are success, cancelled is error, pending and awaiting approval are warning, diagnosing and in progress are primary, each iff |
| ServiceOrderData.StatusLabel | src/data/serviceOrders.ts:107-115 | the Portuguese label of each of the seven statuses |
| ServiceOrderData.StatusLabelInjective | src/data/serviceOrders.ts:107-115 | the seven status labels are pairwise different |
| ServiceOrderData.SeedUpdatedNotBeforeCreated | src/data/serviceOrders.ts:19-105 | in every seed order the update time is not before the creation time |
| ServiceOrderData.SeedOrderIdsNumbered | src/data/serviceOrders.ts:19-105 | the seed ids are `OS-2023-001` … `OS-2023-005`: distinct and within the numbering new orders continue |
| Auth.FindByEmail | src/contexts/AuthContext.tsx:48 | none iff no roster employee has exactly that email; otherwise the first one that does |
| Auth.ToUser | src/contexts/AuthContext.tsx:52-58 | the session identity: the employee's id, name, email, role and avatar, without phone, status or hire date |
| Auth.LoginOutcome | src/contexts/AuthContext.tsx:48-64 | a signed-in identity only with the demo password, carrying the typed email, and always the projection of some roster employee |
| Auth.LoginSucceedsIff | src/contexts/AuthContext.tsx:48-64 | login succeeds iff some employee has the email and the password is `123456`, whatever the employee's status; the user is that employee's projection |
| Auth.LoginFindsTheEmployee | src/contexts/AuthContext.tsx:52-58 | with distinct emails, logging in with an employee's email and the password yields exactly that employee's id, name, email, role and avatar |
| Auth.SeedEmployeesCanLogin | src/data/employees.ts:12-63 | every seed employee, the inactive one included, can log in with the demo password |
| Auth.AuthProvider.constructor | src/contexts/AuthContext.tsx:29-30 | no user and loading until mounted |
| Auth.AuthProvider.Mount | src/contexts/AuthContext.tsx:33-39 | the stored session, if any, becomes the user; loading ends; storage is untouched |
| Auth.AuthProvider.Login | src/contexts/AuthContext.tsx:41-68 | success iff the pure outcome succeeds; on success user and stored session are the projection; on failure both stay; loading ends either way |
| Auth.AuthProvider.Logout | src/contexts/AuthContext.tsx:70-73 | no user and no stored session afterwards |
| Routes.Guard | src/App.tsx:16-28 | no user goes to login; an administrator, or any user when no role is required, is rendered; redirected to the dashboard iff a role is required that the user lacks |
| Routes.EmployeesPageAdminOnly | src/App.tsx:51-58 | the employees page renders iff the user is an administrator; other signed-in users go to the dashboard |
| Routes.OtherPagesNeedOnlyLogin | src/App.tsx:37-50 | every other page renders for any signed-in user and sends everyone else to login |
| Routes.SignedOutGoesToLogin | src/App.tsx:19-21 | with no user, every page redirects to login |
| Routes.SeedRolesOnEmployeesPage | src/App.tsx:54 | the seed administrator reaches the employees page after logging in; the seed salesperson is sent to the dashboard |
| Routes.LogoutLocksEveryPage | src/contexts/AuthContext.tsx:70-73 | after logout, any page redirects to login |
| CustomersPage.FilteredCustomers | src/pages/Customers.tsx:19-23 | keeps exactly the customers whose lower-cased name or email, or raw phone, contains the term |
| CustomersPage.FilteredCustomersEmptyTerm | src/pages/Customers.tsx:19-23 | an empty search keeps every customer, in order |
| CustomersPage.FormValid | src/pages/Customers.tsx:231-279 | the submit guard: the browser's email check, the pattern rule and the three required fields |
| CustomersPage.WithForm | src/pages/Customers.tsx:38-46 | the form's fields over the record; id, creation date, purchases and last purchase kept |
| CustomersPage.WithOwnFormIsIdentity | src/pages/Customers.tsx:60-64 | saving the form a customer was opened with changes nothing |
| CustomersPage.NewCustomer | src/pages/Customers.tsx:25-36 | the form's fields, the given id and date, zero purchases, no last purchase |
| CustomersPage.AddCustomer | src/pages/Customers.tsx:25-36 | exactly one new customer in front; the rest unchanged |
| CustomersPage.EditCustomer | src/pages/Customers.tsx:38-46 | only entries with the selected id change, to the selected record with the form's fields; ids and length kept |
| CustomersPage.EditCustomerIdempotent | src/pages/Customers.tsx:38-46 | submitting the same edit twice equals submitting it once |
| CustomersPage.EditUnchangedIsIdentity | src/pages/Customers.tsx:38-46 | with distinct ids, re-saving a listed customer unchanged leaves the list as it was |
| CustomersPage.DeleteCustomer | src/pages/Customers.tsx:48-52 | unconfirmed: nothing changes; confirmed: exactly the entries with that id go |
| CustomersPage.DeleteCustomerKeepsOrder | src/pages/Customers.tsx:48-52 | deletion distributes over concatenation, so survivors keep their order |
| CustomersPage.CustomersScreen.constructor | src/pages/Customers.tsx:11-14 | the initial list, no selection, empty search |
| CustomersPage.CustomersScreen.Visible | src/pages/Customers.tsx:19-23 | the table rows: listed customers matching the search, and every listed customer that matches |
| CustomersPage.CustomersScreen.Search | src/pages/Customers.tsx:19-23 | only the search term changes |
| CustomersPage.CustomersScreen.OpenAddModal | src/pages/Customers.tsx:54-58 | clears the selection, nothing else |
| CustomersPage.CustomersScreen.OpenEditModal | src/pages/Customers.tsx:60-64 | selects the customer, nothing else |
| CustomersPage.FormValidIff | src/pages/Customers.tsx:231-279 | the customer form is valid iff name, phone and address are filled and the email is a valid e-mail address |
| CustomersPage.CustomersScreen.Submit | src/pages/Customers.tsx:231-279 | accepted iff the browser lets the email field through and name, phone, address are filled and the email matches the pattern; rejected changes nothing; accepted edits or adds and clears the selection |
| CustomersPage.CustomersScreen.Delete | src/pages/Customers.tsx:48-52 | the list becomes the confirmed-delete result, nothing else changes |
| InventoryPage.CategoryLabelInjective | src/pages/Inventory.tsx:12-17 | the four category labels are pairwise different |
| InventoryPage.CategoryLabel | src/pages/Inventory.tsx:12-17 | the Portuguese label of each of the four categories |
| InventoryPage.StockLevelOf | src/pages/Inventory.tsx:155-160 | critical iff quantity ≤ threshold / 2, low iff above that but ≤ threshold, in stock otherwise |
| InventoryPage.StockBadge | src/pages/Inventory.tsx:155-157 | critical shows as error, low as warning, in stock as success |
| InventoryPage.StockLabel | src/pages/Inventory.tsx:159-160 | "Estoque Crítico", "Estoque Baixo" and "Em Estoque" for the three levels |
| InventoryPage.StockLevelsOrdered | src/pages/Inventory.tsx:155-160 | with a non-negative threshold, critical implies at most the threshold, and flagged iff at most the threshold |
| InventoryPage.NegativeThresholdBreaksOrder | src/pages/Inventory.tsx:155-160 | without the form's non-negative rule a product above its threshold could show as critical |
| InventoryPage.FilteredProducts | src/pages/Inventory.tsx:28-33 | keeps exactly the products in the chosen category (any when none) whose lower-cased name, description or SKU contains the term |
| InventoryPage.FilteredProductsShowAll | src/pages/Inventory.tsx:28-33 | all categories and an empty search keep every product, in order |
| InventoryPage.FilteredProductsInCategory | src/pages/Inventory.tsx:28-33 | with a category chosen every product shown is in it |
| InventoryPage.BlankFormInvalid | src/pages/Inventory.tsx:62-70 | the blank add form cannot be submitted until its required fields are filled |
| InventoryPage.FormValid | src/pages/Inventory.tsx:270-371 | the submit guard: name, description, SKU and image filled and the four numbers present and not negative |
| InventoryPage.WithForm | src/pages/Inventory.tsx:46-54 | the form's fields over the record, id and creation date kept, stock figures non-negative |
| InventoryPage.OwnFormRoundTrip | src/pages/Inventory.tsx:72-76 | a well-formed product's own form is valid and saving it changes nothing |
| InventoryPage.NewProduct | src/pages/Inventory.tsx:35-44 | the form's fields, the given id and date, non-negative stock figures |
| InventoryPage.AddProduct | src/pages/Inventory.tsx:35-44 | exactly one new product in front, the rest unchanged; well-formed stock kept |
| InventoryPage.EditProduct | src/pages/Inventory.tsx:46-54 | only entries with the selected id change; ids kept; well-formed stock kept |
| InventoryPage.DeleteProduct | src/pages/Inventory.tsx:56-60 | unconfirmed: nothing changes; confirmed: exactly the entries with that id go |
| InventoryPage.DeleteProductKeepsOrder | src/pages/Inventory.tsx:56-60 | deletion distributes over concatenation, so survivors keep their order |
| InventoryPage.InventoryScreen.constructor | src/pages/Inventory.tsx:19-26 | the initial list, no selection, empty search, all categories |
| InventoryPage.InventoryScreen.Visible | src/pages/Inventory.tsx:28-33 | the product cards: listed products passing the category and search filter, and every listed product that passes |
| InventoryPage.InventoryScreen.Search | src/pages/Inventory.tsx:28-33 | only the search term changes |
| InventoryPage.InventoryScreen.SelectCategory | src/pages/Inventory.tsx:28-33 | only the category filter changes |
| InventoryPage.InventoryScreen.OpenAddModal | src/pages/Inventory.tsx:62-70 | clears the selection and shows the blank form with threshold 5 and the default image |
| InventoryPage.InventoryScreen.OpenEditModal | src/pages/Inventory.tsx:72-76 | selects the product and shows its own fields |
| InventoryPage.InventoryScreen.Submit | src/pages/Inventory.tsx:270-371 | accepted iff every required field is filled and every number is ≥ 0; rejected changes nothing; accepted edits or adds and clears the selection |
| InventoryPage.InventoryScreen.Delete | src/pages/Inventory.tsx:56-60 | the list becomes the confirmed-delete result, nothing else changes |
| EmployeesPage.RoleLabel | src/pages/Employees.tsx:13-17 | a label exists exactly for the roles admin, technician and salesperson |
| EmployeesPage.FilteredEmployees | src/pages/Employees.tsx:31-36 | keeps exactly the employees whose lower-cased name, email or role label, or raw phone, contains the term |
| EmployeesPage.FilteredEmployeesEmptyTerm | src/pages/Employees.tsx:31-36 | an empty search keeps every employee, in order |
| EmployeesPage.FormValid | src/pages/Employees.tsx:305-341 | the submit guard: the browser's email check, the pattern rule, and name, role and phone filled |
| EmployeesPage.SearchByRoleLabel | src/pages/Employees.tsx:31-36 | searching "técnico" finds every technician |
| EmployeesPage.NewEmployee | src/pages/Employees.tsx:38-48 | the form's fields, hired today, active, the default avatar when none is given |
| EmployeesPage.EditedEmployee | src/pages/Employees.tsx:50-63 | the form's fields over the selected record; id and hire date kept; old avatar kept when the new one is empty |
| EmployeesPage.EditUnchangedIsIdentity | src/pages/Employees.tsx:118-122 | saving the form an employee was opened with changes nothing |
| EmployeesPage.AddEmployee | src/pages/Employees.tsx:38-48 | exactly one new employee in front; the rest unchanged |
| EmployeesPage.EditEmployee | src/pages/Employees.tsx:50-63 | only entries with the selected id change; ids and length kept |
| EmployeesPage.FindById | src/pages/Employees.tsx:66 | none iff no employee has the id; otherwise the first employee, in list order, that has it |
| EmployeesPage.ToggleStatus | src/pages/Employees.tsx:65-76 | an administrator: nothing changes; otherwise only the entries with that id flip between active and inactive |
| EmployeesPage.BlockedBySameIdsAndRoles | src/pages/Employees.tsx:66-67 | whether a toggle is skipped depends only on ids and roles |
| EmployeesPage.ToggleTwiceRestores | src/pages/Employees.tsx:65-76 | toggling the same id twice restores the roster |
| EmployeesPage.RemoveEmployee | src/pages/Employees.tsx:90-95 | exactly the entries with that id go |
| EmployeesPage.RemoveEmployeeKeepsOrder | src/pages/Employees.tsx:90-95 | removal distributes over concatenation, so survivors keep their order |
| EmployeesPage.EmployeesScreen.constructor | src/pages/Employees.tsx:21-27 | the initial roster, no selection, empty search, dialog closed, no password, no error |
| EmployeesPage.EmployeesScreen.Visible | src/pages/Employees.tsx:31-36 | the table rows: listed employees matching the search, and every listed employee that matches |
| EmployeesPage.EmployeesScreen.Search | src/pages/Employees.tsx:31-36 | only the search term changes |
| EmployeesPage.EmployeesScreen.OpenAddModal | src/pages/Employees.tsx:108-116 | clears the selection; the form starts as salesperson with the default avatar, hired today |
| EmployeesPage.EmployeesScreen.OpenEditModal | src/pages/Employees.tsx:118-122 | selects the employee and shows its own fields |
| EmployeesPage.FormValidIff | src/pages/Employees.tsx:305-341 | the employee form is valid iff name, role and phone are filled and the email is a valid e-mail address |
| EmployeesPage.EmployeesScreen.Submit | src/pages/Employees.tsx:305-370 | accepted iff the browser lets the email field through and name, role and phone are filled and the email matches the pattern; rejected changes nothing; accepted edits or adds and clears the selection |
| EmployeesPage.EmployeesScreen.Toggle | src/pages/Employees.tsx:65-76 | the roster becomes the toggle result, nothing else changes |
| EmployeesPage.EmployeesScreen.DeleteEmployee | src/pages/Employees.tsx:90-95 | the id's entries go, the dialog closes, selection and password are cleared |
| EmployeesPage.EmployeesScreen.OpenDeleteConfirmation | src/pages/Employees.tsx:78-88 | a non-administrator is removed at once; an administrator is never removed here; when the button is shown to a signed-in administrator the dialog opens with the error cleared, otherwise it stays as it was |
| EmployeesPage.EmployeesScreen.TypeDeletePassword | src/pages/Employees.tsx:438 | only the typed password changes |
| EmployeesPage.EmployeesScreen.CancelDelete | src/pages/Employees.tsx:451 | the Cancel button, like the backdrop click at line 412, only closes the dialog |
| EmployeesPage.EmployeesScreen.ConfirmAdminDelete | src/pages/Employees.tsx:97-106 | a wrong password only sets "Senha incorreta"; `123456` removes exactly the selected employee and clears selection and password |
| ServiceOrdersPage.FilteredOrders | src/pages/ServiceOrders.tsx:25-31 | keeps exactly the orders with the chosen status (any when none) whose lower-cased id, customer name, model or defect contains the term |
| ServiceOrdersPage.FilteredOrdersShowAll | src/pages/ServiceOrders.tsx:25-31 | all statuses and an empty search keep every order, in order |
| ServiceOrdersPage.FilteredOrdersInStatus | src/pages/ServiceOrders.tsx:25-31 | with a status chosen every order shown has it |
| ServiceOrdersPage.FormValid | src/pages/ServiceOrders.tsx:367-407 | the submit guard: device type, model, defect and IMEI filled |
| ServiceOrdersPage.CustomerIdOr | src/pages/ServiceOrders.tsx:43 | `selectedCustomer?.id \|\| fallback`: the chosen id when present and non-empty, the fallback otherwise |
| ServiceOrdersPage.CustomerNameOr | src/pages/ServiceOrders.tsx:44 | `selectedCustomer?.name \|\| fallback`: the chosen name when present and non-empty, the fallback otherwise |
| ServiceOrdersPage.NewOrder | src/pages/ServiceOrders.tsx:39-54 | numbered after the list length, pending, created and updated at once, no technician, no budget, the chosen customer or empty strings |
| ServiceOrdersPage.EditedOrder | src/pages/ServiceOrders.tsx:56-70 | the form's fields over the selected order, stamped now; id, creation time and technician kept; customer changes only when one is chosen |
| ServiceOrdersPage.EditUnchangedIsIdentity | src/pages/ServiceOrders.tsx:90-95 | saving an order's own form at its own update time with its own customer changes nothing |
| ServiceOrdersPage.AddOrder | src/pages/ServiceOrders.tsx:39-54 | exactly one new order in front; under the numbering discipline its id is fresh and the discipline is kept |
| ServiceOrdersPage.EditOrder | src/pages/ServiceOrders.tsx:56-70 | only entries with the selected id change; ids and length kept |
| ServiceOrdersPage.EditKeepsCustomer | src/pages/ServiceOrders.tsx:64-65 | with no customer chosen the edited order keeps its customer |
| ServiceOrdersPage.UpdateStatus | src/pages/ServiceOrders.tsx:72-81 | only status and update time of the entries with that id change |
| ServiceOrdersPage.AnyStatusFollowsAny | src/pages/ServiceOrders.tsx:72-81 | any status can be set from any status |
| ServiceOrdersPage.QuickActionStartsDiagnosis | src/pages/ServiceOrders.tsx:215-222 | the quick action, offered only on pending orders, moves the order to diagnosing |
| ServiceOrdersPage.ServiceOrdersScreen.constructor | src/pages/ServiceOrders.tsx:15-23 | the initial numbered list, no selection, all statuses, empty searches |
| ServiceOrdersPage.ServiceOrdersScreen.Visible | src/pages/ServiceOrders.tsx:25-31 | the table rows: listed orders passing the status tab and the search, and every listed order that passes |
| ServiceOrdersPage.ServiceOrdersScreen.CustomerChoices | src/pages/ServiceOrders.tsx:33-37 | the form's customer drop-down: customers matching the customer search as on the customers screen, and every one that matches |
| ServiceOrdersPage.ServiceOrdersScreen.Search | src/pages/ServiceOrders.tsx:165 | only the search term changes |
| ServiceOrdersPage.ServiceOrdersScreen.SearchCustomers | src/pages/ServiceOrders.tsx:305 | only the customer search term changes |
| ServiceOrdersPage.ServiceOrdersScreen.SelectStatusTab | src/pages/ServiceOrders.tsx:26 | only the status filter changes |
| ServiceOrdersPage.ServiceOrdersScreen.OpenAddModal | src/pages/ServiceOrders.tsx:83-88 | clears order and customer selection |
| ServiceOrdersPage.ServiceOrdersScreen.OpenEditModal | src/pages/ServiceOrders.tsx:90-95 | selects the order and its customer and shows its own fields |
| ServiceOrdersPage.ServiceOrdersScreen.SelectCustomer | src/pages/ServiceOrders.tsx:106-110 | chooses the customer and clears the customer search |
| ServiceOrdersPage.ServiceOrdersScreen.ClearCustomer | src/pages/ServiceOrders.tsx:106-110 | only the chosen customer is cleared |
| ServiceOrdersPage.ServiceOrdersScreen.Submit | src/pages/ServiceOrders.tsx:489 | accepted iff a customer is chosen and the required fields are filled; accepted edits or adds, keeping the numbering invariant, and clears the selections |
| ServiceOrdersPage.ServiceOrdersScreen.ChangeStatus | src/pages/ServiceOrders.tsx:72-81 | the list becomes the status update, invariant kept |
| ServiceOrdersPage.ServiceOrdersScreen.StartDiagnosis | src/pages/ServiceOrders.tsx:215-222 | offered iff the order is pending; when offered the order moves to diagnosing |
| SalesPage.FilteredSales | src/pages/Sales.tsx:31-35 | keeps exactly the sales whose lower-cased id, non-empty customer name or payment label contains the term |
| SalesPage.FilteredSalesEmptyTerm | src/pages/Sales.tsx:31-35 | an empty search keeps every sale, in order |
| SalesPage.SearchByPaymentLabel | src/pages/Sales.tsx:34 | searching "pix" finds every Pix sale |
| SalesPage.FilteredCatalogue | src/pages/Sales.tsx:37-41 | keeps exactly the catalogue products whose lower-cased name, SKU or description contains the term |
| SalesPage.CalculateTotal | src/pages/Sales.tsx:49-51 | `calculateTotal`: the sum of price × quantity over the cart lines |
| SalesPage.CartTotalNonNegative | src/pages/Sales.tsx:49-51 | with no negative price or quantity the total is not negative |
| SalesPage.TotalAppend | src/pages/Sales.tsx:49-51 | the total of two carts together is the sum of their totals |
| SalesPage.LineAt | src/pages/Sales.tsx:49-51 | with one line per product, a line's product has that line's units and price |
| SalesPage.AbsentLine | src/pages/Sales.tsx:49-51 | a product without a line contributes no units and no price |
| SalesPage.Bump | src/pages/Sales.tsx:57-61 | ids kept; only lines of that product change, by one more unit and nothing else |
| SalesPage.SetQuantity | src/pages/Sales.tsx:78-81 | ids kept; only lines of that product change, to the new quantity and nothing else |
| SalesPage.SetQuantityEffect | src/pages/Sales.tsx:74-82 | that product's units become the quantity, others and all prices stay, and the total moves by price × the difference |
| SalesPage.BumpIsSetQuantity | src/pages/Sales.tsx:57-61 | on a cart with one line per product, adding a unit is setting the quantity to one more |
| SalesPage.AddToCart | src/pages/Sales.tsx:53-68 | an existing product's line gains one unit with length and other lines kept; a new product is appended with one unit; a well-formed cart stays well formed |
| SalesPage.AddToCartEffect | src/pages/Sales.tsx:53-68 | the product's units go up by one, others stay, and the total rises by the product's price |
| SalesPage.UpdateQuantity | src/pages/Sales.tsx:74-82 | a quantity below 1 changes nothing; otherwise only that product's lines take it; a well-formed cart stays well formed |
| SalesPage.MinusOnSingleUnit | src/pages/Sales.tsx:416 | the minus button on a one-unit line does nothing |
| SalesPage.RemoveFromCart | src/pages/Sales.tsx:70-72 | no line of that product remains; every other line stays |
| SalesPage.RemoveKeepsOthers | src/pages/Sales.tsx:70-72 | other products' units are unchanged |
| SalesPage.RemoveLowersTotal | src/pages/Sales.tsx:70-72 | the total drops by exactly the removed product's price × units |
| SalesPage.RemoveIds | src/pages/Sales.tsx:70-72 | the remaining ids are the old ids without that one, in order |
| SalesPage.RemoveKeepsCartOk | src/pages/Sales.tsx:70-72 | a well-formed cart stays well formed |
| SalesPage.SaleItems | src/pages/Sales.tsx:141-147 | one item per line with its id, name, quantity and price, each subtotal price × quantity |
| SalesPage.ItemsTotalIsCartTotal | src/pages/Sales.tsx:148 | the items' subtotals add up to the cart total |
| SalesPage.SaleRecord | src/pages/Sales.tsx:137-153 | consistent, completed, total = cart total; id and date kept on edit, fresh number and now otherwise; customer fields null unless non-empty; booked to employee 2 |
| SalesPage.PrependNumbered | src/pages/Sales.tsx:138 | a sale numbered after the list length is fresh and keeps the numbering discipline |
| SalesPage.CreateSale | src/pages/Sales.tsx:131-168 | empty cart: no change; edit: in-place replacement, ids and length kept; new: prepended; numbering and consistency preserved |
| SalesPage.LineFor | src/pages/Sales.tsx:108-115 | none iff the catalogue lacks the product; otherwise its first catalogue product with the item's quantity |
| SalesPage.CartFromSale | src/pages/Sales.tsx:105-117 | at most one line per item, each a catalogue product re-priced at the catalogue price |
| SalesPage.DroppedWhenUnlisted | src/pages/Sales.tsx:110 | a product no longer in the catalogue gets no line |
| SalesPage.LinesFromItems | src/pages/Sales.tsx:108-115 | every line carries some item's product id and quantity |
| SalesPage.CartFromSaleOk | src/pages/Sales.tsx:105-117 | a sale with one item per product, each with at least one unit, reopens into a well-formed cart |
| SalesPage.EditRoundTrip | src/pages/Sales.tsx:105-147 | reopening a sale whose products are still listed at the same prices and recording it again gives back the same items |
| SalesPage.CustomerOnEdit | src/pages/Sales.tsx:119-125 | the sale's customer when its id is non-empty and listed; otherwise the customer already chosen |
| SalesPage.SalesScreen.constructor | src/pages/Sales.tsx:15-28 | the initial sales, empty cart, no customer, credit card, empty searches; invariant holds |
| SalesPage.SalesScreen.Visible | src/pages/Sales.tsx:31-35 | the table rows: recorded sales matching the search, and every recorded sale that matches |
| SalesPage.SalesScreen.Total | src/pages/Sales.tsx:49-51 | the cart total shown; not negative on a well-formed cart with no negative price |
| SalesPage.SalesScreen.ProductChoices | src/pages/Sales.tsx:37-41 | the product drop-down: catalogue products whose name, SKU or description contains the product search, and every one that does |
| SalesPage.SalesScreen.CustomerChoices | src/pages/Sales.tsx:43-47 | the customer drop-down: customers matching the customer search as on the customers screen, and every one that matches |
| SalesPage.SalesScreen.Search | src/pages/Sales.tsx:215 | only the sales search term changes; invariant kept |
| SalesPage.SalesScreen.SearchProducts | src/pages/Sales.tsx:350 | only the product search term changes; invariant kept |
| SalesPage.SalesScreen.SearchCustomers | src/pages/Sales.tsx:478 | only the customer search term changes; invariant kept |
| SalesPage.SalesScreen.AddProductToSale | src/pages/Sales.tsx:53-68 | the cart becomes the add result and the product search is cleared; invariant kept |
| SalesPage.SalesScreen.RemoveProductFromSale | src/pages/Sales.tsx:70-72 | the cart becomes the removal result; invariant kept |
| SalesPage.SalesScreen.UpdateProductQuantity | src/pages/Sales.tsx:74-82 | the cart becomes the guarded update; invariant kept |
| SalesPage.SalesScreen.SelectCustomer | src/pages/Sales.tsx:84-88 | chooses the customer and clears the customer search |
| SalesPage.SalesScreen.ClearCustomer | src/pages/Sales.tsx:526 | only the chosen customer is cleared |
| SalesPage.SalesScreen.ChoosePaymentMethod | src/pages/Sales.tsx:554 | only the payment method changes |
| SalesPage.SalesScreen.AddNewCustomer | src/pages/Sales.tsx:90-103 | accepted iff the quick form passes the customer form's rules, the browser's email check included; accepted appends a new customer with no purchases to the screen's list and chooses it |
| SalesPage.SalesScreen.OpenEditSale | src/pages/Sales.tsx:105-129 | selects the sale, rebuilds its cart, chooses its customer when found, selects its payment method; invariant kept |
| SalesPage.SalesScreen.ResetSaleForm | src/pages/Sales.tsx:170-177 | empty cart, no customer, credit card, empty searches, no sale selected |
| SalesPage.SalesScreen.FinishSale | src/pages/Sales.tsx:131-168 | recorded iff the cart is non-empty; the list becomes the create result and the form resets; an empty cart leaves the whole state as it was; invariant kept |
| SalesPage.SeedSalesOk | src/data/sales.ts:22-151 | every seed sale is consistent with one item per product, and the seed ids are numbered |
| Dashboard.TotalSalesPartition | src/pages/Dashboard.tsx:24 | the sales figure is the completed total plus the canceled total: canceled sales are not excluded |
| Dashboard.TotalSales | src/pages/Dashboard.tsx:24 | the sales figure, not negative when no sale total is |
| Dashboard.TotalSalesBoundsEach | src/pages/Dashboard.tsx:24 | with non-negative totals the figure is at least any single sale's total |
| Dashboard.SeedTotalSales | src/data/sales.ts:44-145 | the seed sales add up to R$ 23.669,90 |
| Dashboard.RecentSales | src/pages/Dashboard.tsx:190 | the first min(3, n) sales, in order |
| Dashboard.SeedRecentSales | src/pages/Dashboard.tsx:190 | on the seed data the table lists V-2023-001 to V-2023-003 |
| Dashboard.TotalStockBoundsEach | src/pages/Dashboard.tsx:25 | with non-negative quantities the stock figure is at least any product's quantity |
| Dashboard.TotalStock | src/pages/Dashboard.tsx:25 | the stock figure, not negative when no quantity is |
| Dashboard.TotalStockAppend | src/pages/Dashboard.tsx:25 | the stock of two product lists together is the sum of their stocks |
| Dashboard.LowStock | src/pages/Dashboard.tsx:26 | keeps exactly the products with quantity ≤ threshold |
| Dashboard.LowStockBadge | src/pages/Dashboard.tsx:266 | success iff no product is low on stock, warning otherwise |
| Dashboard.LowStockRows | src/pages/Dashboard.tsx:282 | exactly the first min(3, n) of the n low-stock products, in order |
| Dashboard.LowStockRowsFlagged | src/pages/Dashboard.tsx:287 | every low-stock row is critical or low by the inventory rule |
| Dashboard.LowStockIffFlagged | src/pages/Dashboard.tsx:26 | with a non-negative threshold, low stock iff the inventory badge is not in stock |
| Dashboard.OpenIffNotClosed | src/pages/Dashboard.tsx:27-29 | an order is open iff it is not completed, delivered or cancelled |
| Dashboard.OpenOrders | src/pages/Dashboard.tsx:27-29 | keeps exactly the pending, diagnosing, awaiting-approval and in-progress orders |
| Dashboard.InProgressAtMostOpen | src/pages/Dashboard.tsx:154-157 | the in-progress count never exceeds the open count |
| Dashboard.InProgressCount | src/pages/Dashboard.tsx:157 | the in-progress figure is zero iff no order is in progress |
| Dashboard.ShownOpenOrders | src/pages/Dashboard.tsx:232 | exactly the first min(5, n) of the n open orders, in order |
| Dashboard.OpenOrderBadgeAgrees | src/pages/Dashboard.tsx:240-244 | for open orders the table's badge equals the status colour map; it differs only for cancelled |
| Dashboard.OpenOrderBadge | src/pages/Dashboard.tsx:240-244 | never error or dark, and the status colour map's variant for every open order |
| Dashboard.ShortStatusLabel | src/pages/Dashboard.tsx:247-252 | the status translation except the abbreviated "Aguard. Aprovação" |
| Dashboard.ShortStatusLabelInjective | src/pages/Dashboard.tsx:247-252 | the short labels are pairwise different |
| Dashboard.SeedOpenOrders | src/data/serviceOrders.ts:19-105 | three seed orders are open |
| Dashboard.SeedInProgress | src/data/serviceOrders.ts:31 | exactly one seed order is in progress |

## Left out

- Rendering, animation, styling, modal visibility flags and show/hide toggles of the search drop-downs: presentation only.
- Navbar, Sidebar, Layout, Login, NotFound, Card, Badge and the theme context: presentation only.
- The clock and `Date.now()`: the year, timestamps, today's date and generated ids are parameters. The dashboard's one-minute refresh is not modelled.
- The simulated one-second login delay and the promise plumbing: timing only. `Auth.AuthProvider.Login` is one atomic step.
- Browser storage and JSON serialisation: the stored session is the `stored` field of `Auth.AuthProvider`.
- Form-library internals: a submission is the handler guarded by the validation predicate.
  - A disabled field's missing value is modelled as an absent `status` that keeps the old one.
  - The missing budget of the add form is modelled as no budget; a budget typed as text that is not a number is not modelled.
- `alert()` and `confirm()`: a confirmation is a boolean parameter, and an alert is a method returning false with nothing changed.
- Currency and date formatting: not modelled.
- Floating-point money: centavos are integers.
- Common.Lower: folds ASCII and Latin-1 capitals only, since locale-specific case mappings beyond that are not needed for the shop's Portuguese texts.
- The delete-button condition on the customers screen (src/pages/Customers.tsx:172) reads `user?.role`, but no `user` is declared in or imported into that file. Optional chaining does not guard an unbound name, so rendering any customer row throws a `ReferenceError`. The seed list is not empty, so the customers table fails on its first render, and none of the screen's handlers can be reached in the running application. `CustomersPage.*` models the handlers as written, as if the rows rendered; the button's condition itself is not modelled.
- The seed lists of customers and products: plain literals with no logic. Only their record types are modelled, and the screens take the lists as parameters.
- The shared customer list: `handleAddNewCustomer` pushes onto the module-level seed array. The model gives the sales screen its own copy in a field, and `SalesPage.SalesScreen.AddNewCustomer` appends to that copy; the model does not connect it to other screens' lists.
- SalesPage.SalesScreen.AddNewCustomer: models `handleAddNewCustomer` (src/pages/Sales.tsx:90-103) as written, but no control of the sales screen ever opens its quick form. `isAddingNewCustomer` starts false (src/pages/Sales.tsx:28) and every setter call sets it false again (src/pages/Sales.tsx:101, 667, 749), so the form at src/pages/Sales.tsx:658-760 never renders and the handler is unreachable in the running application.
- The browser's clean-up of an email field's value (it strips leading and trailing whitespace and removes line breaks) happens before the check; the model's email is the value after it. Browsers that convert a non-ASCII domain to punycode before checking would accept addresses that `Common.IsValidEmailAddress` refuses.
- Dashboard inputs: the dashboard reads the seed sales, products and orders, not the screens' updated lists, so the model states its figures as functions of whatever lists it is given.
