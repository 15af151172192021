# Product edit form of the APM routing demo, in Dafny

This project models `ProductEditComponent`, the controller behind the
product edit page of the APM application. It covers the component's own
logic:

- the working copy of the product and the snapshot taken when it is assigned;
- the dirty flag computed from them;
- the page title chosen when a product is loaded;
- the route-data callback that stores the resolver's error and loads the resolved product;
- the per-tab validity map and the `isValid` query over it;
- the save and delete flows, which branch on the sentinel id 0;
- `onSaveComplete` and `reset`.

Files:

- `wrappers.dfy`: `Option`, which stands for `undefined` and for omitted optional arguments.
- `products.dfy` (module `Products`): the values the component handles.
  - `Product` is the record being edited.
  - `Text` is a string field that may also be `null` or `undefined`. `Truthy` is its JavaScript truthiness and `Render` is what `${...}` inserts for it.
  - `ProductRef` is what the component's two product fields can hold: `null`, the empty object `{}`, or a record.
  - `Call` is a request to the product service.
  - `Outcome` says which `subscribe` callback ran.
- `edit_form.dfy` (module `EditForm`): the component as a state machine over values.
  - `State` holds every field of the component, plus logs of what it asked of the product service, the message service and the router.
  - There is one function per operation. Its contract states what the source promises.
  - `Step` and `Run` apply sequences of operations. `Run` yields `None` where JavaScript would throw on a `null` product.
  - The lemmas state invariants and properties that span several operations.
- `product_edit.dfy` (module `ProductEdit`): the class `ProductEditComponent`.
  - It has the source's fields, plus ghost logs for the collaborators.
  - Its methods follow the source statement by statement.
  - Each method is proved to leave exactly the state that the matching `EditForm` function gives.
  - `Every` is `Object.keys(m).every(...)` written as a loop.

Collaborators are parameters or logs:

- the product service's create, update and delete requests are appended to `calls`;
- `MessageService.addMessage` appends to `messages`;
- `Router.navigate` appends the path to `navigations`;
- the browser's `confirm()` is the `confirmed` argument;
- each subscribed request finishes synchronously, with the `Outcome` argument saying whether the success or the error callback ran.

Dirtiness is compared on immutable values. Two `ProductRef` values are
equal exactly when `JSON.stringify` gives the same text for them.

Behaviours of the code worth knowing:

- Spreading `null` gives `{}`, not `null`. So after `onProductRetrieved(null)` the snapshot is `{}`, the working copy is `null`, and `isDirty` is true. `EditForm.SetProduct` states this: the state is dirty exactly when no product was assigned.
- A product with id 0, name 'Widget', code 'W1' and no category is refused on save, because the 'tags' tab fails. `EditForm.WidgetScenario` proves this, and proves that the same product with a category of at least three characters is created.
- `isValid` always rebuilds the map with both keys before reading it, so an empty or `null` map is never consulted.
- `isValid(path)` reads a property of an object made with `{}`. A path naming a member inherited from `Object.prototype`, such as 'toString' or '__proto__', returns that member rather than `undefined`. `EditForm.Lookup` models this.

## Model

| member | source | states |
|---|---|---|
| `ProductEdit.ProductEditComponent.constructor` | APM/src/app/products/product-edit/product-edit.component.ts:14-19 | A new component has the title 'Product Edit', no error, an empty validity map and no product, and it satisfies the invariant |
| `EditForm.Initial` | APM/src/app/products/product-edit/product-edit.component.ts:14-19 | The initial state satisfies the invariant and is not dirty |
| `ProductEdit.ProductEditComponent.IsDirty` | APM/src/app/products/product-edit/product-edit.component.ts:21-23 | Dirty exactly when the snapshot and the working copy differ |
| `Products.Spread` | APM/src/app/products/product-edit/product-edit.component.ts:32 | The clone is a record exactly when a product was given, and it equals the assigned value exactly then; spreading `null` gives `{}` |
| `EditForm.SetProduct` | APM/src/app/products/product-edit/product-edit.component.ts:29-33 | After assigning a product, the working copy and the snapshot are both that product, so the state is not dirty; assigning `null` leaves it dirty; nothing else changes |
| `ProductEdit.ProductEditComponent.SetProduct` | APM/src/app/products/product-edit/product-edit.component.ts:29-33 | The setter leaves the state `EditForm.SetProduct` gives and keeps the invariant |
| `EditForm.EditCopy` | APM/src/app/products/product-edit/product-edit.component.ts:25-27 | An edit of the working copy leaves the snapshot unchanged; the state is then dirty exactly when the edited value differs from the snapshot |
| `ProductEdit.ProductEditComponent.Edit` | APM/src/app/products/product-edit/product-edit.component.ts:25-27 | A form edit leaves the state `EditForm.EditCopy` gives |
| `EditForm.LoadThenEdit` | APM/src/app/products/product-edit/product-edit.component.ts:21-33 | A freshly loaded product is clean; after an edit it is dirty exactly when the edited product differs from the loaded one |
| `EditForm.Retrieved` | APM/src/app/products/product-edit/product-edit.component.ts:59-71 | The title is 'No product found' for no product, 'Add Product' for id 0, and 'Edit Product: ' followed by the name otherwise; the title reads back as that mode; the product is assigned through the setter |
| `EditForm.TitleShowsMode` | APM/src/app/products/product-edit/product-edit.component.ts:59-71 | Reading the mode back from the title gives the mode of the loaded value: not found, adding, or editing with the product's name unchanged |
| `ProductEdit.ProductEditComponent.OnProductRetrieved` | APM/src/app/products/product-edit/product-edit.component.ts:59-71 | Loading leaves the state `EditForm.Retrieved` gives |
| `EditForm.Resolved` | APM/src/app/products/product-edit/product-edit.component.ts:42-46 | The resolver's error replaces the error message, clearing it when there is none; the resolved product is then loaded as `onProductRetrieved` does |
| `ProductEdit.ProductEditComponent.OnResolvedData` | APM/src/app/products/product-edit/product-edit.component.ts:42-46 | The route-data callback leaves the state `EditForm.Resolved` gives |
| `EditForm.Validity` | APM/src/app/products/product-edit/product-edit.component.ts:136-155 | The map has exactly the keys 'info' and 'tags'. 'info' holds the name-and-code rule and 'tags' holds the category rule |
| `EditForm.ValidityAllTrue` | APM/src/app/products/product-edit/product-edit.component.ts:136-155 | Both entries are true exactly when the name is a string of at least 3 characters, the code is a non-empty string and the category is a string of at least 3 characters |
| `EditForm.Validated` | APM/src/app/products/product-edit/product-edit.component.ts:136-155 | The map is rebuilt from the working copy alone, so no earlier entry survives; nothing else changes |
| `ProductEdit.ProductEditComponent.Validate` | APM/src/app/products/product-edit/product-edit.component.ts:136-155 | Building the map entry by entry leaves the state `EditForm.Validated` gives |
| `EditForm.IsValidResult` | APM/src/app/products/product-edit/product-edit.component.ts:88-97 | With no path or an empty path, the result is whether the whole form passes. With 'info' or 'tags', it is that tab's rule. With the name of a member inherited from `Object.prototype` it is that member. With any other path it is `undefined` |
| `EditForm.WholeFormIsBothTabs` | APM/src/app/products/product-edit/product-edit.component.ts:88-97 | `isValid()` is true exactly when `isValid('info')` and `isValid('tags')` are both true |
| `ProductEdit.Every` | APM/src/app/products/product-edit/product-edit.component.ts:95-96 | The loop over the keys returns true exactly when every entry of the map is true |
| `ProductEdit.ProductEditComponent.IsValid` | APM/src/app/products/product-edit/product-edit.component.ts:88-97 | The map is recomputed in full as a side effect, and the returned value is `EditForm.IsValidResult` for the working copy |
| `EditForm.Reset` | APM/src/app/products/product-edit/product-edit.component.ts:99-103 | The map, the working copy and the snapshot are cleared, so the state is not dirty; nothing else changes |
| `ProductEdit.ProductEditComponent.Reset` | APM/src/app/products/product-edit/product-edit.component.ts:99-103 | Leaves the state `EditForm.Reset` gives |
| `EditForm.SaveComplete` | APM/src/app/products/product-edit/product-edit.component.ts:125-134 | The message is posted only if it is a non-empty string. The form is then cleared and exactly one navigation to '/products' follows. Title, error and service requests are unchanged |
| `ProductEdit.ProductEditComponent.OnSaveComplete` | APM/src/app/products/product-edit/product-edit.component.ts:125-134 | Leaves the state `EditForm.SaveComplete` gives |
| `EditForm.SaveMessage` | APM/src/app/products/product-edit/product-edit.component.ts:110-116 | The confirmation after a save is never empty, so it is always posted |
| `EditForm.DeleteMessage` | APM/src/app/products/product-edit/product-edit.component.ts:76-81 | The confirmation after a delete is never empty, so it is always posted |
| `EditForm.SaveCall` | APM/src/app/products/product-edit/product-edit.component.ts:107-119 | A save issues a create exactly when the id is 0, and otherwise an update, in both cases of the working copy |
| `EditForm.Save` | APM/src/app/products/product-edit/product-edit.component.ts:105-123 | If the form fails validation, only the map changes and the error becomes 'Please correct the validation errors.'. If it passes, exactly one create or update is issued. Success then posts exactly one message, clears the form and navigates to '/products'. Failure stores the error verbatim and does not navigate |
| `ProductEdit.ProductEditComponent.SaveProduct` | APM/src/app/products/product-edit/product-edit.component.ts:105-123 | Leaves the state `EditForm.Save` gives |
| `EditForm.Delete` | APM/src/app/products/product-edit/product-edit.component.ts:73-86 | With id 0, no request is made and the flow goes straight to save-complete with '<name> was deleted'. Otherwise, a declined prompt changes nothing and a confirmed one issues exactly one delete of that id. Success then completes exactly as save-complete does with that message; failure stores the error verbatim and does not navigate |
| `ProductEdit.ProductEditComponent.DeleteProduct` | APM/src/app/products/product-edit/product-edit.component.ts:73-86 | Leaves the state `EditForm.Delete` gives |
| `EditForm.Step` | APM/src/app/products/product-edit/product-edit.component.ts:25-155 | An operation that dereferences a null product throws, and no other operation does. Each operation keeps the invariant, appends to the service and message logs without rewriting them, and changes the snapshot only by assigning a product or clearing it |
| `EditForm.RunKeepsInv` | APM/src/app/products/product-edit/product-edit.component.ts:17-33 | Every sequence of operations keeps the invariant: the working copy is never `{}`, a snapshot record exists exactly when a working record does, and the map has only the two tab keys |
| `EditForm.SnapshotOnlyAssigned` | APM/src/app/products/product-edit/product-edit.component.ts:29-33 | In any sequence of operations that assigns no product, the snapshot stays what it was or is cleared. It is never altered |
| `EditForm.LogsOnlyGrow` | APM/src/app/products/product-edit/product-edit.component.ts:105-134 | Over any sequence of operations, the requests issued and the messages posted are only ever extended |
| `EditForm.WidgetScenario` | APM/src/app/products/product-edit/product-edit.component.ts:105-155 | 'Widget' with id 0 and code 'W1' but no category is refused with no request. With a category it is created, 'The new Widget was saved' is posted and the list is shown |
| `EditForm.ShortNameScenario` | APM/src/app/products/product-edit/product-edit.component.ts:105-123 | A product with id 7, name 'Ab' and code 'X' is refused with the validation error. No request, message or navigation follows, and its 'info' entry is false |

## Left out

- `ngOnInit` (lines 40-49): the subscription to the route's data is framework plumbing and is not modelled. The callback it registers (lines 42-46) is modelled as `OnResolvedData`. The resolved data is taken as its two parts, the product and the error, not as the `data['resolvedData']` object.
- `getProduct` (lines 51-57) is not modelled: it is a thin wrapper over the HTTP-backed product service. Its success path is `onProductRetrieved`.
- `APM/src/app/app-routing.module.ts` is not modelled: it is a static route table whose matching, redirects, guards and lazy loading live in the framework.
- Dependency injection and the component metadata are not modelled. `MessageService`, `ProductService` and `Router` are not part of this model, apart from the logs that stand for them.
- RxJS asynchrony is not modelled: each request completes at once. In the source, a success callback reads `this.product.productName` when it fires. An edit made while a request is in flight would change the message; the model cannot express this.
- The text of the delete confirmation prompt is not modelled; the user's answer is the `confirmed` argument.
- `ProductEdit.ProductEditComponent.Validate`, `IsValid`, `SaveProduct`, `DeleteProduct` and `Edit` require a non-null working copy. In JavaScript they throw a TypeError on `null`. `EditForm.Step` models that throw as `None`.
- `EditForm.EditCopy` treats every edit as a new immutable value. In the source the snapshot is a shallow clone, so an in-place change to a nested array such as `tags` is shared with the snapshot and is not seen as dirty. The model does not capture that aliasing.
- `JSON.stringify` key order is not modelled. Dirtiness is structural inequality of the values. `null` and `undefined` in the product fields are both `NullRef`; both components start with both fields unset, so the two are equal either way.
- String lengths count Dafny characters; JavaScript counts UTF-16 code units.
- `errorMessage` holds the error value of a failed request as a string. The source stores whatever value the service raised (`any`).
- The `Product` interface is not part of this model. The record has the fields the component reads (`id`, `productName`, `productCode`, `category`) plus `description` and `tags`, which stand for the fields it only carries along.
- HTML templates and CSS are not modelled.
